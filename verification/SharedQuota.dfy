// The quota counter that replicas share: one Redis key per subject and
// sixty-second window, incremented and then given an expiry in two separate
// commands. Models RedisFixedWindowQuota in src/llm_router/redis_state.py and
// the window stamp in _consume_quota of src/llm_router/app.py.
module SharedQuota {
  import opened Wrappers

  const WINDOW_SECONDS := 60
  const EXPIRY_SECONDS := 120

  datatype Key = Key(subject: string, window: int)

  datatype Counter = Counter(count: nat, expiry: Option<real>)

  type Counters = map<Key, Counter>

  // int(time.time() // 60)
  function WindowOf(stamp: real): int {
    (stamp / WINDOW_SECONDS as real).Floor
  }

  predicate Expired(c: Counter, now: real) {
    c.expiry.Some? && now >= c.expiry.value
  }

  // What the server holds under a key: an expired counter is gone.
  function Held(counters: Counters, key: Key, now: real): nat {
    if key in counters && !Expired(counters[key], now) then counters[key].count else 0
  }

  function Incremented(counters: Counters, key: Key, now: real): Counters {
    if Held(counters, key, now) > 0 then counters[key := Counter(counters[key].count + 1, counters[key].expiry)]
    else counters[key := Counter(1, None)]
  }

  function WithExpiry(counters: Counters, key: Key, now: real): Counters {
    if Held(counters, key, now) > 0
    then counters[key := counters[key].(expiry := Some(now + EXPIRY_SECONDS as real))]
    else counters
  }

  class Redis {
    var counters: Counters

    method Incr(key: Key, now: real) returns (count: nat)
      modifies this
      ensures counters == Incremented(old(counters), key, now)
      ensures count == Held(old(counters), key, now) + 1
    {
      var expiry := None;
      count := 1;
      if key in counters && counters[key].count > 0 && !Expired(counters[key], now) {
        count := counters[key].count + 1;
        expiry := counters[key].expiry;
      }
      counters := counters[key := Counter(count, expiry)];
    }

    method Expire(key: Key, now: real)
      modifies this
      ensures counters == WithExpiry(old(counters), key, now)
    {
      if Held(counters, key, now) > 0 {
        counters := counters[key := counters[key].(expiry := Some(now + EXPIRY_SECONDS as real))];
      }
    }
  }

  /** One replica's view; consume() is cut at its second await. */
  class RedisFixedWindowQuota {
    const client: Redis
    const requestsPerMinute: nat

    constructor (client: Redis, requestsPerMinute: nat)
      ensures this.client == client && this.requestsPerMinute == requestsPerMinute
    {
      this.client, this.requestsPerMinute := client, requestsPerMinute;
    }

    method Count(subject: string, window: int, limit: Option<nat>, now: real) returns (fits: bool, expiring: bool)
      modifies client
      ensures client.counters == Incremented(old(client.counters), Key(subject, window), now)
      ensures expiring <==> Held(old(client.counters), Key(subject, window), now) == 0
      ensures fits <==>
        Held(old(client.counters), Key(subject, window), now) < (if limit.Some? then limit.value else requestsPerMinute)
    {
      var count := client.Incr(Key(subject, window), now);
      expiring := count == 1;
      fits := count <= if limit.Some? then limit.value else requestsPerMinute;
    }

    method FinishConsume(subject: string, window: int, now: real)
      modifies client
      ensures client.counters == WithExpiry(old(client.counters), Key(subject, window), now)
    {
      client.Expire(Key(subject, window), now);
    }
  }

  // --------------------------------------------------------------------- runs

  // Commands in the order the server runs them, whichever replica sent them.
  // A call is stamped by its replica; now is when the server runs the command.
  datatype Command =
    | Call(subject: string, stamp: real, limit: nat, now: real)
    | SetExpiry(key: Key, now: real)

  function KeyOf(c: Command): Key {
    match c
    case Call(subject, stamp, _, _) => Key(subject, WindowOf(stamp))
    case SetExpiry(key, _) => key
  }

  function After(counters: Counters, c: Command): Counters {
    match c
    case Call(_, _, _, now) => Incremented(counters, KeyOf(c), now)
    case SetExpiry(key, now) => WithExpiry(counters, key, now)
  }

  function Run(commands: seq<Command>): Counters {
    if commands == [] then map[]
    else After(Run(commands[..|commands| - 1]), commands[|commands| - 1])
  }

  predicate Fits(counters: Counters, c: Command)
    requires c.Call?
  {
    Held(counters, KeyOf(c), c.now) + 1 <= c.limit
  }

  function Calls(commands: seq<Command>, key: Key): nat {
    if commands == [] then 0
    else
      var c := commands[|commands| - 1];
      Calls(commands[..|commands| - 1], key) + (if c.Call? && KeyOf(c) == key then 1 else 0)
  }

  function Admitted(commands: seq<Command>, key: Key): nat {
    if commands == [] then 0
    else
      var front, c := commands[..|commands| - 1], commands[|commands| - 1];
      Admitted(front, key) + (if c.Call? && KeyOf(c) == key && Fits(Run(front), c) then 1 else 0)
  }

  // How often a call found that the counter of its window had been dropped.
  function Restarts(commands: seq<Command>, key: Key): nat {
    if commands == [] then 0
    else
      var front, c := commands[..|commands| - 1], commands[|commands| - 1];
      Restarts(front, key)
      + (if c.Call? && KeyOf(c) == key && Calls(front, key) > 0 && Held(Run(front), key, c.now) == 0 then 1 else 0)
  }

  ghost predicate LimitIs(commands: seq<Command>, key: Key, limit: nat) {
    forall c :: c in commands && c.Call? && KeyOf(c) == key ==> c.limit == limit
  }

  function Smaller(a: nat, b: nat): nat {
    if a < b then a else b
  }

  // The tallies of one key so far against the counter the server holds for it.
  ghost predicate TallyOk(counters: Counters, key: Key, limit: nat, calls: nat, admitted: nat, restarts: nat) {
    && (key in counters <==> calls > 0)
    && (key in counters ==> counters[key].count > 0)
    && (restarts == 0 ==> (key in counters ==> counters[key].count == calls) && admitted == Smaller(calls, limit))
    && (restarts > 0 ==>
      calls > 0 && counters[key].count < calls && (limit > 0 ==> admitted >= Smaller(calls, limit + 1)))
    && admitted <= calls
    && (limit == 0 ==> admitted == 0)
  }

  lemma OtherKeysStay(counters: Counters, c: Command, key: Key)
    requires KeyOf(c) != key
    ensures key in After(counters, c) <==> key in counters
    ensures key in counters ==> After(counters, c)[key] == counters[key]
  {
  }

  lemma {:induction false} RunKeepsTally(commands: seq<Command>, key: Key, limit: nat)
    requires LimitIs(commands, key, limit)
    ensures TallyOk(Run(commands), key, limit, Calls(commands, key), Admitted(commands, key), Restarts(commands, key))
  {
    if commands != [] {
      var front, c := commands[..|commands| - 1], commands[|commands| - 1];
      RunKeepsTally(front, key, limit);
      hide WindowOf;
      assert c in commands;
      if KeyOf(c) != key {
        hide KeyOf;
        OtherKeysStay(Run(front), c, key);
      }
    }
  }

  /** With one limit, a window admits exactly the smaller of its calls and the limit as
      long as, and only as long as, its counter is not dropped early or does not matter. */
  lemma AdmitsExactlyIff(commands: seq<Command>, key: Key, limit: nat)
    requires LimitIs(commands, key, limit)
    ensures Admitted(commands, key) == Smaller(Calls(commands, key), limit) <==>
      Restarts(commands, key) == 0 || Calls(commands, key) <= limit || limit == 0
  {
    hide Run, Calls, Admitted, Restarts, LimitIs;
    RunKeepsTally(commands, key, limit);
  }

  // Every command reaches the server less than a minute after the window it is for.
  predicate OnTime(c: Command) {
    && KeyOf(c).window * WINDOW_SECONDS <= c.now.Floor
    && (c.Call? ==> c.now.Floor < (KeyOf(c).window + 2) * WINDOW_SECONDS)
  }

  ghost predicate Prompt(commands: seq<Command>) {
    forall c :: c in commands ==> OnTime(c)
  }

  // An expiry set on time outlives every call that is on time.
  predicate Outlasts(c: Counter, window: int) {
    c.expiry.Some? ==> c.expiry.value.Floor >= (window + 2) * WINDOW_SECONDS
  }

  lemma StepKeepsExpiry(counters: Counters, c: Command, key: Key)
    requires OnTime(c)
    requires key in counters ==> counters[key].count > 0 && Outlasts(counters[key], key.window)
    ensures key in After(counters, c) ==>
      After(counters, c)[key].count > 0 && Outlasts(After(counters, c)[key], key.window)
    ensures c.Call? && KeyOf(c) == key && key in counters ==> Held(counters, key, c.now) > 0
  {
    hide WindowOf;
    if c.SetExpiry? {
      assert (c.now + EXPIRY_SECONDS as real).Floor == c.now.Floor + EXPIRY_SECONDS;
    }
  }

  lemma {:induction false} PromptNeverRestarts(commands: seq<Command>, key: Key)
    requires Prompt(commands)
    ensures Restarts(commands, key) == 0
    ensures key in Run(commands) <==> Calls(commands, key) > 0
    ensures key in Run(commands) ==> Run(commands)[key].count > 0 && Outlasts(Run(commands)[key], key.window)
  {
    if commands != [] {
      var front, c := commands[..|commands| - 1], commands[|commands| - 1];
      PromptNeverRestarts(front, key);
      assert c in commands;
      StepKeepsExpiry(Run(front), c, key);
      hide WindowOf, Outlasts, OnTime;
      if KeyOf(c) != key {
        hide KeyOf;
        OtherKeysStay(Run(front), c, key);
      }
    }
  }

  /** When commands are prompt, a window admits exactly the smaller of its calls and its
      limit, however the commands of all replicas interleave. */
  lemma WindowAdmitsExactly(commands: seq<Command>, key: Key, limit: nat)
    requires Prompt(commands) && LimitIs(commands, key, limit)
    ensures Admitted(commands, key) == Smaller(Calls(commands, key), limit)
  {
    hide Run, Calls, Admitted, Restarts, LimitIs, Prompt;
    PromptNeverRestarts(commands, key);
    AdmitsExactlyIff(commands, key, limit);
  }

  // ---------------------------------------------------------- any one minute

  predicate InMinute(stamp: real, from: real) {
    from <= stamp < from + WINDOW_SECONDS as real
  }

  // The calls of a subject that were admitted with a stamp in [from, from + 60).
  function AdmittedFrom(commands: seq<Command>, subject: string, from: real): nat {
    if commands == [] then 0
    else
      var front, c := commands[..|commands| - 1], commands[|commands| - 1];
      AdmittedFrom(front, subject, from)
      + (if c.Call? && c.subject == subject && InMinute(c.stamp, from) && Fits(Run(front), c)
         then 1 else 0)
  }

  lemma MinuteMeetsTwoWindows(from: real, stamp: real)
    ensures InMinute(stamp, from) ==> WindowOf(stamp) in {WindowOf(from), WindowOf(from) + 1}
  {
    var x, y := from / WINDOW_SECONDS as real, stamp / WINDOW_SECONDS as real;
    assert from <= stamp ==> x <= y;
    assert stamp < from + WINDOW_SECONDS as real ==> y < x + 1.0;
  }

  lemma {:induction false} MinuteIsCovered(commands: seq<Command>, subject: string, from: real)
    ensures AdmittedFrom(commands, subject, from) <=
      Admitted(commands, Key(subject, WindowOf(from))) + Admitted(commands, Key(subject, WindowOf(from) + 1))
  {
    if commands != [] {
      var front, c := commands[..|commands| - 1], commands[|commands| - 1];
      MinuteIsCovered(front, subject, from);
      if c.Call? {
        MinuteMeetsTwoWindows(from, c.stamp);
      }
      hide WindowOf, Fits, Run;
    }
  }

  ghost predicate SubjectLimitIs(commands: seq<Command>, subject: string, limit: nat) {
    forall c :: c in commands && c.Call? && c.subject == subject ==> c.limit == limit
  }

  /** No sixty seconds of stamps, wherever they begin, admit more than twice the limit. */
  lemma MinuteAdmitsAtMostTwice(commands: seq<Command>, subject: string, limit: nat, from: real)
    requires Prompt(commands) && SubjectLimitIs(commands, subject, limit)
    ensures AdmittedFrom(commands, subject, from) <= 2 * limit
  {
    hide Run, Calls, Admitted, Restarts, Prompt, AdmittedFrom, WindowOf;
    MinuteIsCovered(commands, subject, from);
    WindowAdmitsExactly(commands, Key(subject, WindowOf(from)), limit);
    WindowAdmitsExactly(commands, Key(subject, WindowOf(from) + 1), limit);
  }

  function Moment(first: bool): real {
    if first then 59.0 else 60.0
  }

  function NthCall(subject: string, limit: nat, n: nat): Command {
    Call(subject, Moment(n <= limit), limit, Moment(n <= limit))
  }

  // A subject that spends one window's quota at its last second and the next one's at its first.
  function BackToBack(subject: string, limit: nat, n: nat): seq<Command> {
    if n == 0 then []
    else BackToBack(subject, limit, n - 1) + [NthCall(subject, limit, n)]
  }

  lemma MomentWindow(subject: string, limit: nat, first: bool)
    ensures WindowOf(Moment(first)) == if first then 0 else 1
    ensures InMinute(Moment(first), 59.0)
    ensures OnTime(Call(subject, Moment(first), limit, Moment(first)))
  {
  }

  lemma Appended(front: seq<Command>, c: Command, key: Key, from: real)
    ensures Calls(front + [c], key) == Calls(front, key) + (if c.Call? && KeyOf(c) == key then 1 else 0)
    ensures Admitted(front + [c], key) ==
      Admitted(front, key) + (if c.Call? && KeyOf(c) == key && Fits(Run(front), c) then 1 else 0)
    ensures AdmittedFrom(front + [c], key.subject, from) == AdmittedFrom(front, key.subject, from)
      + (if c.Call? && c.subject == key.subject && InMinute(c.stamp, from) && Fits(Run(front), c) then 1 else 0)
  {
    hide KeyOf, Run, Fits, InMinute;
    assert (front + [c])[..|front|] == front;
  }

  lemma {:induction false} BackToBackCounts(subject: string, limit: nat, n: nat)
    ensures var commands, first, second := BackToBack(subject, limit, n), Key(subject, 0), Key(subject, 1);
      && Prompt(commands) && LimitIs(commands, first, limit) && LimitIs(commands, second, limit)
      && Calls(commands, first) == Smaller(n, limit) && Calls(commands, second) == n - Smaller(n, limit)
      && AdmittedFrom(commands, subject, 59.0) == Admitted(commands, first) + Admitted(commands, second)
  {
    hide WindowOf, Moment, OnTime, Fits, Run, Calls, Admitted, AdmittedFrom, InMinute;
    if n == 0 {
      NothingIsCounted(subject);
    } else {
      var front, c := BackToBack(subject, limit, n - 1), NthCall(subject, limit, n);
      BackToBackCounts(subject, limit, n - 1);
      assert BackToBack(subject, limit, n) == front + [c];
      MomentWindow(subject, limit, n <= limit);
      Appended(front, c, Key(subject, 0), 59.0);
      Appended(front, c, Key(subject, 1), 59.0);
    }
  }

  lemma NothingIsCounted(subject: string)
    ensures AdmittedFrom([], subject, 59.0) == 0
    ensures forall key :: Calls([], key) == 0 && Admitted([], key) == 0
  {
  }

  /** Twice the limit is reached by prompt calls within two seconds, so no smaller bound holds. */
  lemma TwiceIsReached(subject: string, limit: nat)
    ensures Prompt(BackToBack(subject, limit, 2 * limit))
    ensures AdmittedFrom(BackToBack(subject, limit, 2 * limit), subject, 59.0) == 2 * limit
  {
    hide Run, Calls, Admitted, AdmittedFrom, Prompt, LimitIs, BackToBack;
    var commands := BackToBack(subject, limit, 2 * limit);
    BackToBackCounts(subject, limit, 2 * limit);
    WindowAdmitsExactly(commands, Key(subject, 0), limit);
    WindowAdmitsExactly(commands, Key(subject, 1), limit);
  }

  /** Promptness is needed: a call that reaches the server two minutes late finds its
      window's counter gone and is admitted over a limit of one. */
  lemma LateCallIsAdmittedAgain(subject: string)
    ensures var key := Key(subject, 0);
      var commands := [Call(subject, 0.0, 1, 0.0), SetExpiry(key, 0.0), Call(subject, 59.0, 1, 120.0)];
      LimitIs(commands, key, 1) && Admitted(commands, key) == 2
  {
    var key := Key(subject, 0);
    var c0, c1, c2 := Call(subject, 0.0, 1, 0.0), SetExpiry(key, 0.0), Call(subject, 59.0, 1, 120.0);
    assert WindowOf(0.0) == 0 && WindowOf(59.0) == 0;
    assert Run([]) == map[] && Admitted([], key) == 0;
    assert [c0][..0] == [] && [c0, c1][..1] == [c0] && [c0, c1, c2][..2] == [c0, c1];
    assert Run([c0]) == map[key := Counter(1, None)] && Admitted([c0], key) == 1;
    assert Run([c0, c1]) == map[key := Counter(1, Some(120.0))] && Admitted([c0, c1], key) == 1;
  }
}
