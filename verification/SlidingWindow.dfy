// The per-process request quota: a pruned deque of timestamps per subject.
// Models SlidingWindowQuota in src/llm_router/admission.py.
module SlidingWindow {
  import opened Wrappers

  const WINDOW_SECONDS := 60.0

  datatype Call = Call(now: real, limit: int) {
    function Cutoff(): real {
      now - WINDOW_SECONDS
    }
  }

  // The timestamps after a cutoff, in order.
  function Since(history: seq<real>, cutoff: real): seq<real> {
    if history == [] then []
    else
      var last := history[|history| - 1];
      Since(history[..|history| - 1], cutoff) + (if last > cutoff then [last] else [])
  }

  // What the deque does instead: drop timestamps from the front while they are too old.
  function Pruned(events: seq<real>, cutoff: real): seq<real> {
    if events != [] && events[0] <= cutoff then Pruned(events[1..], cutoff) else events
  }

  // The reference: a call is accepted when the full history of accepted calls
  // holds fewer than its limit in the sixty seconds before it.
  function Accepted(calls: seq<Call>): seq<real> {
    if calls == [] then []
    else
      var last := calls[|calls| - 1];
      var history := Accepted(calls[..|calls| - 1]);
      if |Since(history, last.Cutoff())| >= last.limit then history else history + [last.now]
  }

  // The code: prune, compare the length, append.
  function Deque(calls: seq<Call>): seq<real> {
    if calls == [] then []
    else
      var last := calls[|calls| - 1];
      var kept := Pruned(Deque(calls[..|calls| - 1]), last.Cutoff());
      if |kept| >= last.limit then kept else kept + [last.now]
  }

  predicate Ordered(calls: seq<Call>) {
    forall i, j :: 0 <= i <= j < |calls| ==> calls[i].now <= calls[j].now
  }

  predicate Sorted(times: seq<real>) {
    forall i, j :: 0 <= i <= j < |times| ==> times[i] <= times[j]
  }

  lemma {:induction false} SinceConcat(a: seq<real>, b: seq<real>, cutoff: real)
    ensures Since(a + b, cutoff) == Since(a, cutoff) + Since(b, cutoff)
  {
    if b == [] {
      assert a + b == a;
    } else {
      assert (a + b)[..|a + b| - 1] == a + b[..|b| - 1];
      SinceConcat(a, b[..|b| - 1], cutoff);
    }
  }

  lemma {:induction false} SinceAll(times: seq<real>, cutoff: real)
    requires forall i :: 0 <= i < |times| ==> times[i] > cutoff
    ensures Since(times, cutoff) == times
  {
    if times != [] {
      SinceAll(times[..|times| - 1], cutoff);
    }
  }

  lemma {:induction false} PrunedIsSince(times: seq<real>, cutoff: real)
    requires Sorted(times)
    ensures Pruned(times, cutoff) == Since(times, cutoff)
  {
    if times == [] || times[0] > cutoff {
      SinceAll(times, cutoff);
    } else {
      SinceConcat([times[0]], times[1..], cutoff);
      assert [times[0]] + times[1..] == times;
      assert Since([times[0]], cutoff) == [];
      PrunedIsSince(times[1..], cutoff);
    }
  }

  lemma {:induction false} SinceTwice(times: seq<real>, early: real, late: real)
    requires early <= late
    ensures Since(Since(times, early), late) == Since(times, late)
  {
    if times != [] {
      var last := times[|times| - 1];
      SinceTwice(times[..|times| - 1], early, late);
      SinceConcat(Since(times[..|times| - 1], early), if last > early then [last] else [], late);
    }
  }

  lemma {:induction false} SinceSorted(times: seq<real>, cutoff: real)
    requires Sorted(times)
    ensures Sorted(Since(times, cutoff))
    ensures forall i :: 0 <= i < |Since(times, cutoff)| ==> Since(times, cutoff)[i] in times
    ensures |Since(times, cutoff)| <= |times|
  {
    if times != [] {
      SinceSorted(times[..|times| - 1], cutoff);
    }
  }

  lemma {:induction false} AcceptedSorted(calls: seq<Call>)
    requires Ordered(calls)
    ensures Sorted(Accepted(calls))
    ensures forall i :: 0 <= i < |Accepted(calls)| ==> Accepted(calls)[i] <= calls[|calls| - 1].now
    ensures calls == [] ==> Accepted(calls) == []
  {
    hide Since;
    if calls != [] {
      var front := calls[..|calls| - 1];
      AcceptedSorted(front);
      assert front != [] ==> front[|front| - 1] == calls[|calls| - 2];
    }
  }

  lemma PrunedDequeIsExact(calls: seq<Call>, cutoff: real)
    requires Ordered(calls)
    requires calls != [] ==>
      && cutoff >= calls[|calls| - 1].Cutoff()
      && Deque(calls) == Since(Accepted(calls), calls[|calls| - 1].Cutoff())
    ensures Pruned(Deque(calls), cutoff) == Since(Accepted(calls), cutoff)
  {
    hide Deque, Accepted;
    AcceptedSorted(calls);
    if calls != [] {
      var before := calls[|calls| - 1].Cutoff();
      SinceSorted(Accepted(calls), before);
      PrunedIsSince(Deque(calls), cutoff);
      SinceTwice(Accepted(calls), before, cutoff);
    } else {
      EmptyDeque();
    }
  }

  lemma EmptyDeque()
    ensures Deque([]) == [] && Accepted([]) == [] && Ordered([])
  {
  }

  lemma CallUnfolds(before: seq<Call>, call: Call)
    ensures var kept := Pruned(Deque(before), call.Cutoff());
      Deque(before + [call]) == if |kept| >= call.limit then kept else kept + [call.now]
    ensures var recent := Since(Accepted(before), call.Cutoff());
      Accepted(before + [call]) == if |recent| >= call.limit then Accepted(before) else Accepted(before) + [call.now]
  {
    assert (before + [call])[..|before + [call]| - 1] == before;
  }

  lemma SinceAppend(history: seq<real>, call: Call)
    ensures Since(history + [call.now], call.Cutoff()) == Since(history, call.Cutoff()) + [call.now]
  {
    SinceConcat(history, [call.now], call.Cutoff());
    assert Since([call.now], call.Cutoff()) == [call.now];
  }

  lemma OrderedPrefix(before: seq<Call>, call: Call)
    requires Ordered(before + [call])
    ensures Ordered(before)
    ensures before != [] ==> before[|before| - 1].Cutoff() <= call.Cutoff()
  {
    forall i, j | 0 <= i <= j < |before| ensures before[i].now <= before[j].now {
      assert (before + [call])[i] == before[i] && (before + [call])[j] == before[j];
    }
    if before != [] {
      assert (before + [call])[|before| - 1] == before[|before| - 1] && (before + [call])[|before|] == call;
    }
  }

  /** Exactness: with a clock that does not run backwards the deque is the accepted history
      of the last sixty seconds, before the call and after it, so both decide every call alike. */
  lemma {:induction false} DequeIsExact(before: seq<Call>, call: Call)
    requires Ordered(before + [call])
    ensures Pruned(Deque(before), call.Cutoff()) == Since(Accepted(before), call.Cutoff())
    ensures Deque(before + [call]) == Since(Accepted(before + [call]), call.Cutoff())
  {
    OrderedPrefix(before, call);
    hide Deque, Accepted, Since, Pruned, Ordered, Call.Cutoff;
    if before != [] {
      var earlier, last := before[..|before| - 1], before[|before| - 1];
      assert earlier + [last] == before;
      DequeIsExact(earlier, last);
    }
    PrunedDequeIsExact(before, call.Cutoff());
    CallUnfolds(before, call);
    SinceAppend(Accepted(before), call);
  }

  // How many of these calls were accepted in the interval (start, start + 60].
  function InWindow(times: seq<real>, start: real): seq<real> {
    if times == [] then []
    else
      var last := times[|times| - 1];
      InWindow(times[..|times| - 1], start)
      + (if start < last <= start + 60.0 then [last] else [])
  }

  lemma {:induction false} InWindowWithinSince(times: seq<real>, start: real, cutoff: real)
    requires cutoff <= start
    ensures |InWindow(times, start)| <= |Since(times, cutoff)|
  {
    if times != [] {
      InWindowWithinSince(times[..|times| - 1], start, cutoff);
    }
  }

  /** The bound: under one limit, no sixty-second interval ever holds more accepted calls than it. */
  lemma {:induction false} WindowBound(calls: seq<Call>, limit: nat, start: real)
    requires forall i :: 0 <= i < |calls| ==> calls[i].limit == limit
    ensures |InWindow(Accepted(calls), start)| <= limit
  {
    if calls != [] {
      var prefix, last := calls[..|calls| - 1], calls[|calls| - 1];
      WindowBound(prefix, limit, start);
      if Accepted(calls) != Accepted(prefix) && last.now <= start + WINDOW_SECONDS {
        InWindowWithinSince(Accepted(prefix), start, last.Cutoff());
        assert Accepted(calls)[..|Accepted(calls)| - 1] == Accepted(prefix);
      } else if Accepted(calls) != Accepted(prefix) {
        assert Accepted(calls)[..|Accepted(calls)| - 1] == Accepted(prefix);
      }
    }
  }

  method PopExpired(events: seq<real>, cutoff: real) returns (queue: seq<real>)
    ensures queue == Pruned(events, cutoff)
  {
    queue := events;
    while queue != [] && queue[0] <= cutoff
      invariant Pruned(queue, cutoff) == Pruned(events, cutoff)
      decreases |queue|
    {
      queue := queue[1..];
    }
  }

  // The deque a subject holds after its calls.
  ghost predicate Matches(events: seq<real>, calls: seq<Call>) {
    Ordered(calls) && events == Deque(calls)
  }

  lemma MatchesNothing()
    ensures Matches([], [])
  {
  }

  lemma OrderedAppend(before: seq<Call>, call: Call)
    requires Ordered(before) && forall i :: 0 <= i < |before| ==> before[i].now <= call.now
    ensures Ordered(before + [call])
  {
  }

  lemma MatchesAfterCall(events: seq<real>, before: seq<Call>, call: Call)
    requires Matches(events, before) && forall i :: 0 <= i < |before| ==> before[i].now <= call.now
    ensures var kept := Pruned(events, call.Cutoff());
      && kept == Since(Accepted(before), call.Cutoff())
      && Matches(if |kept| >= call.limit then kept else kept + [call.now], before + [call])
  {
    OrderedAppend(before, call);
    hide Accepted, Since, Pruned, Deque, Ordered;
    DequeIsExact(before, call);
    CallUnfolds(before, call);
  }

  class SlidingWindowQuota {
    const limit: int
    var events: map<string, seq<real>>
    ghost var calls: map<string, seq<Call>>  // every call so far, by subject

    ghost function CallsOf(subject: string): seq<Call>
      reads this
    {
      if subject in calls then calls[subject] else []
    }

    ghost predicate Valid()
      reads this
    {
      && events.Keys == calls.Keys
      && forall subject :: subject in calls ==> Matches(events[subject], calls[subject])
    }

    constructor (requestsPerMinute: int)
      ensures limit == requestsPerMinute && Valid() && calls == map[]
    {
      limit, events, calls := requestsPerMinute, map[], map[];
    }

    // False where the source raises QuotaExceededError.
    method Consume(subject: string, now: real, own: Option<int>) returns (accepted: bool)
      requires Valid()
      requires forall i :: 0 <= i < |CallsOf(subject)| ==> CallsOf(subject)[i].now <= now
      modifies this
      ensures Valid()
      ensures var effective := if own.Some? then own.value else limit;
        && calls == old(calls)[subject := old(CallsOf(subject)) + [Call(now, effective)]]
        && (accepted <==> |Since(Accepted(old(CallsOf(subject))), now - 60.0)| < effective)
    {
      hide Accepted, Since, Pruned, Matches;
      var cutoff := now - WINDOW_SECONDS;
      var effective := if own.Some? then own.value else limit;
      MatchesNothing();
      var held := if subject in events then events[subject] else [];
      MatchesAfterCall(held, CallsOf(subject), Call(now, effective));
      var queue := PopExpired(held, cutoff);
      accepted := |queue| < effective;
      if accepted {
        queue := queue + [now];
      }
      events := events[subject := queue];
      calls := calls[subject := CallsOf(subject) + [Call(now, effective)]];
    }
  }
}
