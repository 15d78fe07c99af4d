// The issuer's verification keys, fetched when they age out or when a token
// names an unknown one. Models RemoteKeys in src/llm_router/credentials.py with
// the start and the completion of a fetch as separate steps, so that lookups
// and fetches interleave; keys are looked up by kid (section 4.5 of RFC 7517).
module KeyCache {
  import opened Wrappers

  const KEY_CACHE_SECONDS := 300.0
  const KEY_REFRESH_INTERVAL_SECONDS := 10.0

  type Kid = Option<string>

  type Keys = map<Kid, string>

  datatype Cache = Cache(keys: Keys, fetchedAt: Option<real>)

  // Whether a lookup at this time starts a fetch.
  predicate Refreshes(c: Cache, kid: Kid, now: real) {
    c.fetchedAt.None?
    || now - c.fetchedAt.value >= KEY_CACHE_SECONDS
    || (kid !in c.keys && now - c.fetchedAt.value >= KEY_REFRESH_INTERVAL_SECONDS)
  }

  // None is a fetch that raised; an answer without usable keys changes nothing.
  function Refreshed(c: Cache, answer: Option<Keys>): Cache {
    if answer.Some? && answer.value != map[] then c.(keys := answer.value) else c
  }

  class RemoteKeys {
    var keys: Keys
    var fetchedAt: Option<real>

    function Value(): Cache
      reads this
    {
      Cache(keys, fetchedAt)
    }

    constructor ()
      ensures Value() == Cache(map[], None)
    {
      keys, fetchedAt := map[], None;
    }

    /** key() up to its await: true when the caller now waits for a fetch. The clock is
        read once for the age and once more when a fetch starts. */
    method StartLookup(kid: Kid, now: real, stamp: real) returns (fetching: bool)
      modifies this`fetchedAt
      ensures fetching <==> Refreshes(old(Value()), kid, now)
      ensures Value() == Looked(old(Value()), kid, now, stamp)
    {
      var stale, unknown, rested := true, kid !in keys, false;
      if fetchedAt.Some? {
        var age := now - fetchedAt.value;
        stale := age >= KEY_CACHE_SECONDS;
        rested := age >= KEY_REFRESH_INTERVAL_SECONDS;
      }
      fetching := stale || (unknown && rested);
      if fetching {
        fetchedAt := Some(stamp);
      }
    }

    /** The rest of _refresh(), once the issuer has answered or failed. */
    method FinishFetch(answer: Option<Keys>)
      modifies this`keys
      ensures Value() == Refreshed(old(Value()), answer)
    {
      match answer {
        case None => return;
        case Some(fetched) =>
          if fetched != map[] {
            keys := fetched;
          }
      }
    }

    method Find(kid: Kid) returns (key: Option<string>)
      ensures key == if kid in keys then Some(keys[kid]) else None
    {
      key := if kid in keys then Some(keys[kid]) else None;
    }
  }

  function Looked(c: Cache, kid: Kid, now: real, stamp: real): Cache {
    if Refreshes(c, kid, now) then c.(fetchedAt := Some(stamp)) else c
  }

  // --------------------------------------------------------------------- runs

  datatype Step = Lookup(kid: Kid, now: real, stamp: real) | Answer(answer: Option<Keys>)

  // starts holds the times at which a fetch began, oldest first.
  datatype State = State(cache: Cache, starts: seq<real>)

  function After(s: State, step: Step): State {
    match step
    case Lookup(kid, now, stamp) =>
      State(Looked(s.cache, kid, now, stamp), if Refreshes(s.cache, kid, now) then s.starts + [stamp] else s.starts)
    case Answer(answer) => s.(cache := Refreshed(s.cache, answer))
  }

  function Run(steps: seq<Step>): State {
    if steps == [] then State(Cache(map[], None), [])
    else After(Run(steps[..|steps| - 1]), steps[|steps| - 1])
  }

  // A monotone clock: within one lookup the second reading is no earlier than the first.
  ghost predicate Monotone(steps: seq<Step>) {
    forall step :: step in steps && step.Lookup? ==> step.now <= step.stamp
  }

  predicate Rested(earlier: real, later: real) {
    later - earlier >= KEY_REFRESH_INTERVAL_SECONDS
  }

  ghost predicate Spaced(starts: seq<real>) {
    forall i, j :: 0 <= i < j < |starts| ==> Rested(starts[i], starts[j])
  }

  ghost predicate StateOk(s: State) {
    && Spaced(s.starts)
    && s.cache.fetchedAt == if s.starts == [] then None else Some(s.starts[|s.starts| - 1])
  }

  lemma StepKeepsSpacing(s: State, step: Step)
    requires StateOk(s) && (step.Lookup? ==> step.now <= step.stamp)
    ensures StateOk(After(s, step))
  {
    if step.Lookup? && Refreshes(s.cache, step.kid, step.now) && s.starts != [] {
      var last := s.starts[|s.starts| - 1];
      assert Rested(last, step.stamp);
      forall i | 0 <= i < |s.starts| ensures Rested(s.starts[i], step.stamp) {
        assert i < |s.starts| - 1 ==> Rested(s.starts[i], last);
      }
    }
  }

  lemma NothingIsOk()
    ensures StateOk(State(Cache(map[], None), []))
  {
  }

  lemma {:induction false} RunKeepsSpacing(steps: seq<Step>)
    requires Monotone(steps)
    ensures StateOk(Run(steps))
  {
    hide StateOk, After;
    if steps == [] {
      NothingIsOk();
    } else {
      RunKeepsSpacing(steps[..|steps| - 1]);
      StepKeepsSpacing(Run(steps[..|steps| - 1]), steps[|steps| - 1]);
    }
  }

  // How many of the times lie in the interval of this length.
  function Within(starts: seq<real>, from: real, length: real): nat {
    if starts == [] then 0
    else
      var last := starts[|starts| - 1];
      Within(starts[..|starts| - 1], from, length) + (if from <= last <= from + length then 1 else 0)
  }

  // The last of k spaced times that are not before the start is at least k - 1 gaps after it.
  lemma {:induction false} WithinIsSpread(starts: seq<real>, from: real, length: real)
    requires Spaced(starts)
    ensures var k := Within(starts, from, length);
      k > 0 ==>
        && starts[|starts| - 1] >= from + KEY_REFRESH_INTERVAL_SECONDS * (k - 1) as real
        && KEY_REFRESH_INTERVAL_SECONDS * (k - 1) as real <= length
  {
    if starts != [] {
      var n := |starts| - 1;
      WithinIsSpread(starts[..n], from, length);
      assert n > 0 ==> Rested(starts[..n][n - 1], starts[n]);
    }
  }

  /** However lookups, slow answers and failures interleave, fetches start at least ten
      seconds apart, and an interval of length L holds at most floor(L / 10) + 1 of them. */
  lemma FetchesAreSpaced(steps: seq<Step>, from: real, length: real)
    requires Monotone(steps) && length >= 0.0
    ensures Spaced(Run(steps).starts)
    ensures Within(Run(steps).starts, from, length) <= (length / 10.0).Floor + 1
  {
    RunKeepsSpacing(steps);
    WithinIsSpread(Run(steps).starts, from, length);
  }

  function Tick(i: nat): real {
    KEY_REFRESH_INTERVAL_SECONDS * i as real
  }

  function Ticks(n: nat): seq<real> {
    if n == 0 then [] else Ticks(n - 1) + [Tick(n - 1)]
  }

  // A caller who names an unknown key at every tenth second.
  function Hammering(kid: Kid, n: nat): seq<Step> {
    if n == 0 then [] else Hammering(kid, n - 1) + [Lookup(kid, Tick(n - 1), Tick(n - 1))]
  }

  /** The bound is reached: n lookups of an unknown key, ten seconds apart, start n fetches
      within n - 1 intervals. */
  lemma TheBoundIsReached(kid: Kid, n: nat)
    requires n > 0
    ensures Within(Run(Hammering(kid, n)).starts, 0.0, Tick(n - 1)) == n
    ensures Tick(n - 1) == 10.0 * (n - 1) as real && n == (Tick(n - 1) / 10.0).Floor + 1
  {
    HammeringTicks(kid, n);
    TicksAreWithin(n, Tick(n - 1));
    assert Tick(n - 1) / KEY_REFRESH_INTERVAL_SECONDS == (n - 1) as real;
  }

  lemma {:induction false} HammeringTicks(kid: Kid, n: nat)
    ensures Run(Hammering(kid, n)) == State(Cache(map[], if n == 0 then None else Some(Tick(n - 1))), Ticks(n))
  {
    if n > 0 {
      HammeringTicks(kid, n - 1);
      hide Tick;
      var steps := Hammering(kid, n);
      assert steps[..|steps| - 1] == Hammering(kid, n - 1);
      TickRefreshes(kid, n - 1);
    }
  }

  lemma TickRefreshes(kid: Kid, i: nat)
    ensures Refreshes(Cache(map[], if i == 0 then None else Some(Tick(i - 1))), kid, Tick(i))
  {
  }

  lemma {:induction false} TicksAreWithin(n: nat, length: real)
    requires n > 0 ==> Tick(n - 1) <= length
    ensures Within(Ticks(n), 0.0, length) == n
  {
    if n > 0 {
      assert Ticks(n)[..|Ticks(n)| - 1] == Ticks(n - 1);
      TicksAreWithin(n - 1, length);
    }
  }

  // --------------------------------------------------------------------- keys

  predicate Usable(step: Step) {
    step.Answer? && step.answer.Some? && step.answer.value != map[]
  }

  // The latest answer that held a key, whatever came after it.
  function LastUsable(steps: seq<Step>): Option<Keys> {
    if steps == [] then None
    else
      var last := steps[|steps| - 1];
      if Usable(last) then last.answer else LastUsable(steps[..|steps| - 1])
  }

  /** The keys held are those of the latest usable answer: an outage or an empty document
      takes nothing away, so a key set that is not empty never becomes empty. */
  lemma {:induction false} KeysAreTheLastUsable(steps: seq<Step>)
    ensures Run(steps).cache.keys == if LastUsable(steps).Some? then LastUsable(steps).value else map[]
    ensures Run(steps).cache.keys != map[] <==> exists step :: step in steps && Usable(step)
  {
    if steps != [] {
      var front := steps[..|steps| - 1];
      KeysAreTheLastUsable(front);
      assert steps == front + [steps[|steps| - 1]];
    }
  }

  /** A lookup starts a fetch exactly when none has started yet, the last start is five
      minutes old, or it is ten seconds old and the latest usable answer lacks the key. */
  lemma FetchesExactlyWhen(steps: seq<Step>, kid: Kid, now: real)
    requires Monotone(steps)
    ensures var starts := Run(steps).starts; var known := LastUsable(steps).Some? && kid in LastUsable(steps).value;
      Refreshes(Run(steps).cache, kid, now) <==>
      || starts == []
      || now >= starts[|starts| - 1] + (if known then 300.0 else 10.0)
  {
    RunKeepsSpacing(steps);
    KeysAreTheLastUsable(steps);
  }
}
