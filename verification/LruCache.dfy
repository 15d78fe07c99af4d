// The bounded response cache: an ordered dictionary whose entries expire and
// whose oldest-touched key is evicted. Models InMemoryCacheStore in
// src/llm_router/caching.py; the clock is a parameter.
module LruCache {
  import opened Wrappers

  datatype Completion = Completion(
    text: string, modelId: string, modelRevision: string, promptTokens: int, completionTokens: int)

  datatype Entry = Entry(expires: real, value: Completion)

  datatype Config = Config(maxEntries: nat, ttl: real) {
    function Stamp(now: real, value: Completion): Entry {
      Entry(now + ttl, value)
    }
  }

  // An OrderedDict: its keys in order, and what they map to.
  datatype Cache = Cache(order: seq<string>, entries: map<string, Entry>)

  function Without(order: seq<string>, k: string): seq<string> {
    if order == [] then []
    else (if order[0] == k then [] else [order[0]]) + Without(order[1..], k)
  }

  function MovedToEnd(order: seq<string>, k: string): seq<string> {
    Without(order, k) + [k]
  }

  predicate Unexpired(e: Entry, now: real) {
    e.expires > now
  }

  predicate Hits(c: Cache, k: string, now: real) {
    k in c.entries && Unexpired(c.entries[k], now)
  }

  function AfterGet(c: Cache, k: string, now: real): Cache {
    if k !in c.entries then c
    else if !Unexpired(c.entries[k], now) then Cache(Without(c.order, k), c.entries - {k})
    else c.(order := MovedToEnd(c.order, k))
  }

  function Evicted(c: Cache, maxEntries: nat): Cache
    decreases |c.order|
  {
    if |c.order| <= maxEntries then c
    else Evicted(Cache(c.order[1..], c.entries - {c.order[0]}), maxEntries)
  }

  function AfterSet(cfg: Config, c: Cache, k: string, value: Completion, now: real): Cache {
    Evicted(Cache(MovedToEnd(c.order, k), c.entries[k := cfg.Stamp(now, value)]), cfg.maxEntries)
  }

  class InMemoryCacheStore {
    const cfg: Config
    var order: seq<string>
    var entries: map<string, Entry>

    function Value(): Cache
      reads this
    {
      Cache(order, entries)
    }

    constructor (cfg: Config)
      ensures this.cfg == cfg && Value() == Cache([], map[])
    {
      this.cfg := cfg;
      order, entries := [], map[];
    }

    method Get(k: string, now: real) returns (found: Option<Completion>)
      modifies this
      ensures Value() == AfterGet(old(Value()), k, now)
      ensures found == if Hits(old(Value()), k, now) then Some(old(entries)[k].value) else None
    {
      if k !in entries {
        return None;
      }
      var entry := entries[k];
      if entry.expires <= now {
        entries := entries - {k};
        order := Without(order, k);
        return None;
      }
      order := MovedToEnd(order, k);
      found := Some(entry.value);
    }

    method Set(k: string, value: Completion, now: real)
      modifies this
      ensures Value() == AfterSet(cfg, old(Value()), k, value, now)
    {
      entries := entries[k := Entry(now + cfg.ttl, value)];
      order := MovedToEnd(order, k);
      ghost var filled := Value();
      while |order| > cfg.maxEntries
        invariant Evicted(Value(), cfg.maxEntries) == Evicted(filled, cfg.maxEntries)
        decreases |order|
      {
        entries := entries - {order[0]};
        order := order[1..];
      }
    }
  }

  // ------------------------------------------------------------------ traces

  datatype Op = Get(key: string, now: real) | Set(key: string, now: real, value: Completion)

  function Step(cfg: Config, c: Cache, op: Op): Cache {
    match op
    case Get(k, now) => AfterGet(c, k, now)
    case Set(k, now, value) => AfterSet(cfg, c, k, value, now)
  }

  function Run(cfg: Config, ops: seq<Op>): Cache {
    if ops == [] then Cache([], map[])
    else Step(cfg, Run(cfg, ops[..|ops| - 1]), ops[|ops| - 1])
  }

  // The entry last stored for a key, read off the trace alone.
  function LastStored(cfg: Config, ops: seq<Op>, k: string): Option<Entry> {
    if ops == [] then None
    else
      var last := ops[|ops| - 1];
      if last.Set? && last.key == k then Some(cfg.Stamp(last.now, last.value))
      else LastStored(cfg, ops[..|ops| - 1], k)
  }

  // A set, or a get that hits, touches its key.
  predicate Touches(c: Cache, op: Op) {
    op.Set? || Hits(c, op.key, op.now)
  }

  // The position in the trace of a key's last touch, or -1.
  function LastTouch(cfg: Config, ops: seq<Op>, k: string): int {
    if ops == [] then -1
    else
      var prefix, last := ops[..|ops| - 1], ops[|ops| - 1];
      if last.key == k && Touches(Run(cfg, prefix), last) then |prefix| else LastTouch(cfg, prefix, k)
  }

  // The other keys touched from a position on.
  function OthersTouched(cfg: Config, ops: seq<Op>, from: int, k: string): set<string> {
    if ops == [] || |ops| <= from then {}
    else
      var prefix, last := ops[..|ops| - 1], ops[|ops| - 1];
      OthersTouched(cfg, prefix, from, k)
      + (if last.key != k && Touches(Run(cfg, prefix), last) then {last.key} else {})
  }

  // ---------------------------------------------------------------- recency

  // Strictly increasing by the position of the last touch.
  ghost predicate RecencyOrder(cfg: Config, ops: seq<Op>, order: seq<string>) {
    forall i, j :: 0 <= i < j < |order| ==> LastTouch(cfg, ops, order[i]) < LastTouch(cfg, ops, order[j])
  }

  lemma {:induction false} LastTouchBefore(cfg: Config, ops: seq<Op>, k: string)
    ensures -1 <= LastTouch(cfg, ops, k) < |ops|
  {
    if ops != [] {
      LastTouchBefore(cfg, ops[..|ops| - 1], k);
    }
  }

  lemma {:induction false} WithoutExact(order: seq<string>, k: string)
    ensures forall l :: l in Without(order, k) <==> l in order && l != k
    ensures |Without(order, k)| <= |order|
    ensures k in order ==> |Without(order, k)| < |order|
  {
    if order != [] {
      WithoutExact(order[1..], k);
      assert order == [order[0]] + order[1..];
    }
  }

  lemma {:induction false} WithoutKeepsOrder(cfg: Config, ops: seq<Op>, order: seq<string>, k: string)
    requires RecencyOrder(cfg, ops, order)
    ensures RecencyOrder(cfg, ops, Without(order, k))
  {
    hide LastTouch;
    if order != [] {
      var tail := order[1..];
      var rest := Without(tail, k);
      assert forall i, j :: 0 <= i < j < |tail| ==> tail[i] == order[i + 1] && tail[j] == order[j + 1];
      WithoutKeepsOrder(cfg, ops, tail, k);
      WithoutExact(tail, k);
      forall l | l in rest ensures LastTouch(cfg, ops, order[0]) < LastTouch(cfg, ops, l) {
        assert l in tail;
        var i :| 0 <= i < |tail| && tail[i] == l;
        assert LastTouch(cfg, ops, order[0]) < LastTouch(cfg, ops, order[i + 1]);
      }
      OrderGrowsInFront(cfg, ops, order[0], rest);
    }
  }

  lemma OrderGrowsInFront(cfg: Config, ops: seq<Op>, k: string, order: seq<string>)
    requires RecencyOrder(cfg, ops, order)
    requires forall l :: l in order ==> LastTouch(cfg, ops, k) < LastTouch(cfg, ops, l)
    ensures RecencyOrder(cfg, ops, [k] + order)
  {
    hide LastTouch;
    var grown := [k] + order;
    assert forall i :: 0 < i < |grown| ==> grown[i] == order[i - 1] && grown[i] in order;
  }

  lemma WithoutKeeps(cfg: Config, ops: seq<Op>, order: seq<string>, k: string)
    ensures forall l :: l in Without(order, k) <==> l in order && l != k
    ensures RecencyOrder(cfg, ops, order) ==> RecencyOrder(cfg, ops, Without(order, k))
    ensures |Without(order, k)| <= |order|
    ensures k in order ==> |Without(order, k)| < |order|
  {
    hide RecencyOrder;
    WithoutExact(order, k);
    if RecencyOrder(cfg, ops, order) {
      WithoutKeepsOrder(cfg, ops, order, k);
    }
  }

  lemma OrderAfterTouch(cfg: Config, ops: seq<Op>, op: Op, order: seq<string>)
    requires RecencyOrder(cfg, ops, order) && Touches(Run(cfg, ops), op)
    ensures RecencyOrder(cfg, ops + [op], MovedToEnd(order, op.key))
  {
    var grown := ops + [op];
    assert grown[..|grown| - 1] == ops;
    WithoutKeeps(cfg, ops, order, op.key);
    var rest := Without(order, op.key);
    var moved := rest + [op.key];
    forall i, j | 0 <= i < j < |moved| ensures LastTouch(cfg, grown, moved[i]) < LastTouch(cfg, grown, moved[j]) {
      assert rest[i] in rest;
      LastTouchBefore(cfg, ops, rest[i]);
      if j < |rest| { assert rest[j] in rest; }
    }
  }

  lemma OrderAfterMiss(cfg: Config, ops: seq<Op>, op: Op, order: seq<string>)
    requires RecencyOrder(cfg, ops, order) && !Touches(Run(cfg, ops), op)
    ensures RecencyOrder(cfg, ops + [op], order)
  {
    var grown := ops + [op];
    assert grown[..|grown| - 1] == ops;
    forall k ensures LastTouch(cfg, grown, k) == LastTouch(cfg, ops, k) {
    }
  }

  // The shape of the cache after every trace.
  ghost predicate Holds(cfg: Config, ops: seq<Op>, c: Cache) {
    && (forall k :: k in c.order <==> k in c.entries)
    && RecencyOrder(cfg, ops, c.order)
    && |c.order| <= cfg.maxEntries
  }

  // Every entry is the one last stored for its key.
  ghost predicate Fresh(cfg: Config, ops: seq<Op>, c: Cache) {
    forall k :: k in c.entries ==> LastStored(cfg, ops, k) == Some(c.entries[k])
  }

  lemma EvictedKeeps(cfg: Config, ops: seq<Op>, c: Cache)
    requires (forall k :: k in c.order <==> k in c.entries) && RecencyOrder(cfg, ops, c.order)
    requires |c.order| <= cfg.maxEntries + 1
    ensures var e := Evicted(c, cfg.maxEntries);
      && (forall k :: k in e.order <==> k in e.entries) && RecencyOrder(cfg, ops, e.order)
      && |e.order| <= cfg.maxEntries && e.entries.Keys <= c.entries.Keys
      && (forall k :: k in e.entries ==> e.entries[k] == c.entries[k])
      && e.order == if |c.order| <= cfg.maxEntries then c.order else c.order[1..]
  {
    if |c.order| > cfg.maxEntries {
      var first, rest := c.order[0], c.order[1..];
      assert c.order == [first] + rest;
      forall k ensures k in rest <==> k in c.entries - {first} {
        if k in rest {
          var i :| 0 <= i < |rest| && rest[i] == k;
          assert LastTouch(cfg, ops, c.order[0]) < LastTouch(cfg, ops, c.order[i + 1]);
        }
      }
      forall i, j | 0 <= i < j < |rest| ensures LastTouch(cfg, ops, rest[i]) < LastTouch(cfg, ops, rest[j]) {
        assert LastTouch(cfg, ops, c.order[i + 1]) < LastTouch(cfg, ops, c.order[j + 1]);
      }
      assert Evicted(c, cfg.maxEntries) == Cache(rest, c.entries - {first});
    }
  }

  // Storing under a key, before anything is evicted.
  function Filled(cfg: Config, c: Cache, k: string, value: Completion, now: real): Cache {
    Cache(MovedToEnd(c.order, k), c.entries[k := cfg.Stamp(now, value)])
  }

  lemma FilledHolds(cfg: Config, ops: seq<Op>, op: Op, c: Cache)
    requires op.Set? && c == Run(cfg, ops) && Holds(cfg, ops, c)
    ensures var filled := Filled(cfg, c, op.key, op.value, op.now);
      && (forall k :: k in filled.order <==> k in filled.entries)
      && RecencyOrder(cfg, ops + [op], filled.order) && |filled.order| <= cfg.maxEntries + 1
  {
    WithoutKeeps(cfg, ops, c.order, op.key);
    OrderAfterTouch(cfg, ops, op, c.order);
  }

  lemma SetHolds(cfg: Config, ops: seq<Op>, op: Op, c: Cache)
    requires op.Set? && c == Run(cfg, ops) && Holds(cfg, ops, c)
    ensures Holds(cfg, ops + [op], Step(cfg, c, op))
  {
    hide RecencyOrder, Evicted, Run, MovedToEnd, Config.Stamp;
    FilledHolds(cfg, ops, op, c);
    EvictedKeeps(cfg, ops + [op], Filled(cfg, c, op.key, op.value, op.now));
  }

  lemma GetHolds(cfg: Config, ops: seq<Op>, op: Op, c: Cache)
    requires op.Get? && c == Run(cfg, ops) && Holds(cfg, ops, c)
    ensures Holds(cfg, ops + [op], Step(cfg, c, op))
  {
    WithoutKeeps(cfg, ops, c.order, op.key);
    if Touches(c, op) {
      OrderAfterTouch(cfg, ops, op, c.order);
    } else {
      OrderAfterMiss(cfg, ops, op, c.order);
      OrderAfterMiss(cfg, ops, op, Without(c.order, op.key));
    }
  }

  lemma {:induction false} EvictedEntries(c: Cache, maxEntries: nat)
    ensures forall k :: k in Evicted(c, maxEntries).entries ==>
      k in c.entries && Evicted(c, maxEntries).entries[k] == c.entries[k]
    decreases |c.order|
  {
    if |c.order| > maxEntries {
      EvictedEntries(Cache(c.order[1..], c.entries - {c.order[0]}), maxEntries);
    }
  }

  lemma StepFresh(cfg: Config, ops: seq<Op>, op: Op, c: Cache)
    requires Fresh(cfg, ops, c)
    ensures Fresh(cfg, ops + [op], Step(cfg, c, op))
  {
    hide Config.Stamp;
    var grown := ops + [op];
    assert grown[..|grown| - 1] == ops;
    if op.Set? {
      EvictedEntries(Filled(cfg, c, op.key, op.value, op.now), cfg.maxEntries);
    }
  }

  /** After every trace the order is recency order and the size is bounded. */
  lemma {:induction false} RunHolds(cfg: Config, ops: seq<Op>)
    ensures Holds(cfg, ops, Run(cfg, ops))
  {
    if ops != [] {
      var prefix, last := ops[..|ops| - 1], ops[|ops| - 1];
      RunHolds(cfg, prefix);
      assert prefix + [last] == ops;
      if last.Set? {
        SetHolds(cfg, prefix, last, Run(cfg, prefix));
      } else {
        GetHolds(cfg, prefix, last, Run(cfg, prefix));
      }
    }
  }

  /** Every hit returns the last value set for its key. */
  lemma {:induction false} RunFresh(cfg: Config, ops: seq<Op>)
    ensures Fresh(cfg, ops, Run(cfg, ops))
  {
    if ops != [] {
      var prefix, last := ops[..|ops| - 1], ops[|ops| - 1];
      RunFresh(cfg, prefix);
      assert prefix + [last] == ops;
      StepFresh(cfg, prefix, last, Run(cfg, prefix));
    }
  }

  lemma {:induction false} DistinctCount(order: seq<string>, s: set<string>)
    requires forall i, j :: 0 <= i < j < |order| ==> order[i] != order[j]
    requires forall k :: k in order ==> k in s
    ensures |order| <= |s|
  {
    if order != [] {
      var rest := order[1..];
      assert order == [order[0]] + rest;
      DistinctCount(rest, s - {order[0]});
    }
  }

  lemma {:induction false} LaterTouched(cfg: Config, ops: seq<Op>, from: int, k: string, l: string)
    requires l != k && LastTouch(cfg, ops, l) >= from >= 0
    ensures l in OthersTouched(cfg, ops, from, k)
  {
    if ops != [] {
      LastTouchBefore(cfg, ops, l);
      var prefix, last := ops[..|ops| - 1], ops[|ops| - 1];
      if !(last.key == l && Touches(Run(cfg, prefix), last)) {
        LaterTouched(cfg, prefix, from, k, l);
      }
    }
  }

  // While a key is the oldest of a full cache, at least maxEntries other keys were touched after it.
  lemma OldestOfFull(cfg: Config, ops: seq<Op>, order: seq<string>, k: string)
    requires RecencyOrder(cfg, ops, order) && |order| > 0 && order[0] == k
    ensures |order| - 1 <= |OthersTouched(cfg, ops, LastTouch(cfg, ops, k) + 1, k)|
  {
    var from := LastTouch(cfg, ops, k) + 1;
    LastTouchBefore(cfg, ops, k);
    var rest := order[1..];
    forall l | l in rest ensures l in OthersTouched(cfg, ops, from, k) {
      var i :| 0 <= i < |rest| && rest[i] == l;
      assert LastTouch(cfg, ops, order[0]) < LastTouch(cfg, ops, order[i + 1]);
      LaterTouched(cfg, ops, from, k, l);
    }
    forall i, j | 0 <= i < j < |rest| ensures rest[i] != rest[j] {
      assert LastTouch(cfg, ops, order[i + 1]) < LastTouch(cfg, ops, order[j + 1]);
    }
    DistinctCount(rest, OthersTouched(cfg, ops, from, k));
  }

  // A key whose entry is still live at this time, with a clock that never ran ahead of it.
  ghost predicate LiveAt(cfg: Config, ops: seq<Op>, k: string, now: real) {
    && LastStored(cfg, ops, k).Some? && Unexpired(LastStored(cfg, ops, k).value, now)
    && forall i :: 0 <= i < |ops| ==> ops[i].now <= now
  }

  // Few enough other keys were touched since the last touch of this one.
  ghost predicate RecentlyTouched(cfg: Config, ops: seq<Op>, k: string) {
    && LastTouch(cfg, ops, k) >= 0
    && |OthersTouched(cfg, ops, LastTouch(cfg, ops, k) + 1, k)| < cfg.maxEntries
  }

  lemma LastTouchUnchanged(cfg: Config, ops: seq<Op>, op: Op, k: string)
    requires !(op.key == k && Touches(Run(cfg, ops), op))
    ensures LastTouch(cfg, ops + [op], k) == LastTouch(cfg, ops, k) < |ops|
  {
    assert (ops + [op])[..|ops + [op]| - 1] == ops;
    LastTouchBefore(cfg, ops, k);
  }

  lemma OthersOnlyGrow(cfg: Config, ops: seq<Op>, op: Op, from: int, k: string)
    requires from <= |ops|
    ensures OthersTouched(cfg, ops, from, k) <= OthersTouched(cfg, ops + [op], from, k)
  {
    assert (ops + [op])[..|ops + [op]| - 1] == ops;
  }

  lemma RecentBefore(cfg: Config, ops: seq<Op>, op: Op, k: string)
    requires RecentlyTouched(cfg, ops + [op], k)
    requires !(op.key == k && Touches(Run(cfg, ops), op))
    ensures RecentlyTouched(cfg, ops, k)
  {
    hide Run, Touches, LastTouch, OthersTouched;
    LastTouchUnchanged(cfg, ops, op, k);
    var from := LastTouch(cfg, ops, k) + 1;
    OthersOnlyGrow(cfg, ops, op, from, k);
    SubsetCount(OthersTouched(cfg, ops, from, k), OthersTouched(cfg, ops + [op], from, k));
  }

  lemma LiveBefore(cfg: Config, ops: seq<Op>, op: Op, k: string, now: real)
    requires LiveAt(cfg, ops + [op], k, now)
    requires !(op.Set? && op.key == k)
    ensures LiveAt(cfg, ops, k, now) && op.now <= now
  {
    hide Config.Stamp, Unexpired;
    var grown := ops + [op];
    assert grown[..|grown| - 1] == ops && grown[|ops|] == op;
    forall i | 0 <= i < |ops| ensures ops[i].now <= now {
      assert grown[i] == ops[i];
    }
  }

  lemma {:induction false} SubsetCount(a: set<string>, b: set<string>)
    requires a <= b
    ensures |a| <= |b|
  {
    if a != {} {
      var x :| x in a;
      SubsetCount(a - {x}, b - {x});
    }
  }

  lemma StaysAfterEviction(c: Cache, maxEntries: nat, k: string)
    requires k in c.order && |c.order| <= maxEntries + 1
    requires |c.order| > maxEntries ==> c.order[0] != k
    ensures k in Evicted(c, maxEntries).order
  {
    if |c.order| > maxEntries {
      assert c.order == [c.order[0]] + c.order[1..];
      assert Evicted(c, maxEntries).order == c.order[1..];
    }
  }

  lemma RecentIsNotOldest(cfg: Config, ops: seq<Op>, order: seq<string>, k: string)
    requires RecentlyTouched(cfg, ops, k) && RecencyOrder(cfg, ops, order) && |order| > cfg.maxEntries
    ensures order[0] != k
  {
    if order[0] == k {
      OldestOfFull(cfg, ops, order, k);
    }
  }

  lemma SetKeepsRecent(cfg: Config, ops: seq<Op>, op: Op, k: string)
    requires op.Set? && RecentlyTouched(cfg, ops + [op], k)
    requires k in Run(cfg, ops).order || k == op.key
    ensures k in Step(cfg, Run(cfg, ops), op).order
  {
    hide Run, RecencyOrder, RecentlyTouched, Config.Stamp, Evicted, Without;
    var c := Run(cfg, ops);
    var filled := Filled(cfg, c, op.key, op.value, op.now);
    RunHolds(cfg, ops);
    FilledHolds(cfg, ops, op, c);
    WithoutKeeps(cfg, ops, c.order, op.key);
    assert filled.order[|filled.order| - 1] == op.key;
    if |filled.order| > cfg.maxEntries {
      RecentIsNotOldest(cfg, ops + [op], filled.order, k);
    }
    StaysAfterEviction(filled, cfg.maxEntries, k);
  }

  lemma GetKeepsRecent(cfg: Config, ops: seq<Op>, op: Op, k: string, now: real)
    requires op.Get? && LiveAt(cfg, ops + [op], k, now)
    requires k in Run(cfg, ops).order
    ensures k in Step(cfg, Run(cfg, ops), op).order
  {
    var c, grown := Run(cfg, ops), ops + [op];
    assert grown[..|grown| - 1] == ops && grown[|ops|] == op;
    RunHolds(cfg, ops);
    RunFresh(cfg, ops);
    WithoutKeeps(cfg, ops, c.order, op.key);
  }

  lemma {:induction false} RecentKeyStays(cfg: Config, ops: seq<Op>, k: string, now: real)
    requires RecentlyTouched(cfg, ops, k) && LiveAt(cfg, ops, k, now)
    ensures k in Run(cfg, ops).order
  {
    LastTouchBefore(cfg, ops, k);
    var prefix, last := ops[..|ops| - 1], ops[|ops| - 1];
    assert prefix + [last] == ops;
    if last.key == k && Touches(Run(cfg, prefix), last) {
      RunHolds(cfg, prefix);
    } else {
      RecentBefore(cfg, prefix, last, k);
      LiveBefore(cfg, prefix, last, k, now);
      RecentKeyStays(cfg, prefix, k, now);
    }
    if last.Set? {
      SetKeepsRecent(cfg, prefix, last, k);
    } else {
      GetKeepsRecent(cfg, prefix, last, k, now);
    }
  }

  /** Under a clock that does not run backwards, an unexpired key with fewer than
      maxEntries other keys touched since its last touch is a hit, with its last value. */
  lemma RecentKeyHits(cfg: Config, ops: seq<Op>, k: string, now: real)
    requires RecentlyTouched(cfg, ops, k) && LiveAt(cfg, ops, k, now)
    ensures Hits(Run(cfg, ops), k, now)
    ensures Run(cfg, ops).entries[k].value == LastStored(cfg, ops, k).value.value
  {
    RecentKeyStays(cfg, ops, k, now);
    RunHolds(cfg, ops);
    RunFresh(cfg, ops);
  }

  /** A hit is young: its value is the one that the last store under its key put there, less
      than a time to live ago, and an entry that is not is missed. */
  lemma HitIsYoung(cfg: Config, ops: seq<Op>, k: string, now: real)
    requires k in Run(cfg, ops).entries
    ensures exists i, at, value ::
      && 0 <= i < |ops| && ops[i] == Set(k, at, value)
      && (forall j :: i < j < |ops| && ops[j].Set? ==> ops[j].key != k)
      && Run(cfg, ops).entries[k].value == value
      && (Hits(Run(cfg, ops), k, now) <==> now < at + cfg.ttl)
      && (now >= at + cfg.ttl ==> k !in AfterGet(Run(cfg, ops), k, now).entries)
  {
    hide Run, AfterGet;
    RunFresh(cfg, ops);
    var i := LastSet(cfg, ops, k);
    GetDropsExpired(Run(cfg, ops), k, now);
    assert ops[i] == Set(k, ops[i].now, ops[i].value);
  }

  lemma GetDropsExpired(c: Cache, k: string, now: real)
    ensures k in c.entries && c.entries[k].expires <= now ==> k !in AfterGet(c, k, now).entries
  {
  }

  lemma {:induction false} LastSet(cfg: Config, ops: seq<Op>, k: string) returns (i: nat)
    requires LastStored(cfg, ops, k).Some?
    ensures i < |ops| && ops[i].Set? && ops[i].key == k
    ensures LastStored(cfg, ops, k) == Some(Entry(ops[i].now + cfg.ttl, ops[i].value))
    ensures forall j :: i < j < |ops| && ops[j].Set? ==> ops[j].key != k
  {
    var n := |ops| - 1;
    if ops[n].Set? && ops[n].key == k {
      i := n;
    } else {
      i := LastSet(cfg, ops[..n], k);
    }
  }
}
