// Whether a safetensors header describes the bytes that follow it: collecting
// the tensors' spans and sweeping them in order. Models the header checks of
// _safetensors_problem in src/llm_router/artifact_scan.py after the header has
// been parsed.
module Safetensors {
  import opened Wrappers
  import Sorting

  const DTYPES: set<string> :=
    {"BOOL", "U8", "I8", "I16", "U16", "F16", "BF16", "I32", "U32", "F32", "F64", "I64", "U64"}

  const METADATA := "__metadata__"

  // A JSON value where an offset is expected; true and false count as the integers 1 and 0.
  datatype Item = Whole(n: int) | NotWhole

  // A dtype entry: text, another plain value or none at all, or a list or an object.
  datatype Dtype = Named(text: string) | Unnamed | Compound

  datatype Tensor = NotAnObject | Tensor(dtype: Dtype, offsets: Option<seq<Item>>)

  // One item of the header object, in the order the header lists them.
  datatype Entry = Entry(name: string, tensor: Tensor)

  datatype Span = Span(begin: int, end: int)

  // RaisesTypeError is no report: a list or an object cannot be looked up in the set
  // of known types, and the source lets that exception out.
  datatype Problem =
    | UnknownDtype(name: string)
    | RaisesTypeError(name: string)
    | OutsideFile(name: string)
    | GapOrOverlap
    | UnclaimedBytes

  predicate KnownDtype(t: Tensor) {
    t.Tensor? && t.dtype.Named? && t.dtype.text in DTYPES
  }

  function DtypeProblem(e: Entry): Problem {
    if e.tensor.Tensor? && e.tensor.dtype.Compound? then RaisesTypeError(e.name) else UnknownDtype(e.name)
  }

  predicate InFile(t: Tensor, dataSize: nat) {
    && t.Tensor? && t.offsets.Some?
    && |t.offsets.value| == 2 && t.offsets.value[0].Whole? && t.offsets.value[1].Whole?
    && 0 <= t.offsets.value[0].n <= t.offsets.value[1].n <= dataSize
  }

  function SpanOf(t: Tensor, dataSize: nat): Span
    requires InFile(t, dataSize)
  {
    Span(t.offsets.value[0].n, t.offsets.value[1].n)
  }

  // The spans of a header's tensors, or the first problem met on the way.
  function Spans(header: seq<Entry>, dataSize: nat): Result<seq<Span>, Problem> {
    if header == [] then Ok([])
    else
      var before := Spans(header[..|header| - 1], dataSize);
      var last := header[|header| - 1];
      if before.Err? || last.name == METADATA then before
      else if !KnownDtype(last.tensor) then Err(DtypeProblem(last))
      else if !InFile(last.tensor, dataSize) then Err(OutsideFile(last.name))
      else Ok(before.value + [SpanOf(last.tensor, dataSize)])
  }

  predicate SpanLeq(a: Span, b: Span) {
    a.begin < b.begin || (a.begin == b.begin && a.end <= b.end)
  }

  lemma SpanLeqIsTotal()
    ensures Sorting.TotalOrder(SpanLeq)
  {
  }

  // Where a sweep from this position ends, or None at a gap or an overlap.
  function Sweep(spans: seq<Span>, position: int): Option<int> {
    if spans == [] then Some(position)
    else if spans[0].begin != position then None
    else Sweep(spans[1..], spans[0].end)
  }

  function SweepProblem(spans: seq<Span>, dataSize: nat): Option<Problem> {
    match Sweep(Sorting.Sort(spans, SpanLeq), 0)
    case None => Some(GapOrOverlap)
    case Some(position) => if position != dataSize then Some(UnclaimedBytes) else None
  }

  function HeaderProblem(header: seq<Entry>, dataSize: nat): Option<Problem> {
    var spans := Spans(header, dataSize);
    if spans.Err? then Some(spans.error) else SweepProblem(spans.value, dataSize)
  }

  lemma {:induction false} SpansFailEarly(header: seq<Entry>, dataSize: nat, i: nat)
    requires i <= |header| && Spans(header[..i], dataSize).Err?
    ensures Spans(header, dataSize) == Spans(header[..i], dataSize)
  {
    if i == |header| {
      assert header[..i] == header;
    } else {
      var prefix := header[..|header| - 1];
      assert prefix[..i] == header[..i];
      SpansFailEarly(prefix, dataSize, i);
    }
  }

  lemma {:induction false} SweepSplits(spans: seq<Span>, i: nat, position: int)
    requires i <= |spans|
    ensures Sweep(spans, position)
         == if Sweep(spans[..i], position).None? then None else Sweep(spans[i..], Sweep(spans[..i], position).value)
  {
    if i > 0 && spans[0].begin == position {
      assert spans[..i][1..] == spans[1..][..i - 1];
      assert spans[1..][i - 1..] == spans[i..];
      SweepSplits(spans[1..], i - 1, spans[0].end);
    } else if i == 0 {
      assert spans[..0] == [] && spans[0..] == spans;
    }
  }

  method FindProblem(header: seq<Entry>, dataSize: nat) returns (problem: Option<Problem>)
    ensures problem == HeaderProblem(header, dataSize)
  {
    var spans: seq<Span> := [];
    for i := 0 to |header|
      invariant Spans(header[..i], dataSize) == Ok(spans)
    {
      var entry := header[i];
      assert header[..i + 1][..i] == header[..i];
      if entry.name != METADATA {
        if entry.tensor.Tensor? && entry.tensor.dtype.Compound? {
          SpansFailEarly(header, dataSize, i + 1);
          return Some(RaisesTypeError(entry.name));
        }
        if !KnownDtype(entry.tensor) {
          SpansFailEarly(header, dataSize, i + 1);
          return Some(UnknownDtype(entry.name));
        }
        if !InFile(entry.tensor, dataSize) {
          SpansFailEarly(header, dataSize, i + 1);
          return Some(OutsideFile(entry.name));
        }
        spans := spans + [SpanOf(entry.tensor, dataSize)];
      }
    }
    assert header[..|header|] == header;
    var ordered := Sorting.Sort(spans, SpanLeq);
    var position := 0;
    for i := 0 to |ordered|
      invariant Sweep(ordered[..i], 0) == Some(position)
    {
      SweepSplits(ordered, i, 0);
      if ordered[i].begin != position {
        return Some(GapOrOverlap);
      }
      SweepSplits(ordered[..i + 1], i, 0);
      assert ordered[..i + 1][..i] == ordered[..i] && ordered[..i + 1][i..] == [ordered[i]];
      position := ordered[i].end;
    }
    assert ordered[..|ordered|] == ordered;
    problem := if position != dataSize then Some(UnclaimedBytes) else None;
  }

  // ------------------------------------------------- what acceptance means

  predicate Covers(s: Span, at: int) {
    s.begin <= at < s.end
  }

  // How many of the spans hold a byte.
  function Cover(spans: seq<Span>, at: int): nat {
    if spans == [] then 0 else (if Covers(spans[0], at) then 1 else 0) + Cover(spans[1..], at)
  }

  predicate InRange(s: Span, dataSize: nat) {
    0 <= s.begin <= s.end <= dataSize
  }

  // A place where an empty span may sit: the start, or the end of some non-empty span.
  ghost predicate Boundary(spans: seq<Span>, at: int) {
    at == 0 || exists t :: t in spans && t.begin < t.end && t.end == at
  }

  // Every byte is in exactly one span, and every empty span is on a boundary.
  ghost predicate Tiles(spans: seq<Span>, dataSize: nat) {
    && (forall at :: 0 <= at < dataSize ==> Cover(spans, at) == 1)
    && (forall s :: s in spans && s.begin == s.end ==> Boundary(spans, s.begin))
  }

  lemma {:induction false} CoverConcat(a: seq<Span>, b: seq<Span>, at: int)
    ensures Cover(a + b, at) == Cover(a, at) + Cover(b, at)
  {
    if a == [] {
      assert a + b == b;
    } else {
      assert (a + b)[1..] == a[1..] + b;
      CoverConcat(a[1..], b, at);
    }
  }

  lemma {:induction false} CoverPermutes(a: seq<Span>, b: seq<Span>, at: int)
    requires multiset(a) == multiset(b)
    ensures Cover(a, at) == Cover(b, at)
  {
    if a == [] {
      assert |multiset(b)| == 0;
    } else {
      var j := Sorting.PermutationHead(a, b);
      CoverConcat(b[..j] + [b[j]], b[j + 1..], at);
      CoverConcat(b[..j], [b[j]], at);
      CoverConcat(b[..j], b[j + 1..], at);
      CoverPermutes(a[1..], b[..j] + b[j + 1..], at);
    }
  }

  lemma TilesPermutes(a: seq<Span>, b: seq<Span>, dataSize: nat)
    requires multiset(a) == multiset(b) && Tiles(a, dataSize)
    ensures Tiles(b, dataSize)
  {
    forall at | 0 <= at < dataSize ensures Cover(b, at) == 1 {
      CoverPermutes(a, b, at);
    }
    assert forall s :: s in a <==> s in multiset(a);
    assert forall s :: s in b <==> s in multiset(b);
    forall s | s in b && s.begin == s.end ensures Boundary(b, s.begin) {
      assert Boundary(a, s.begin);
    }
  }

  lemma {:induction false} SweepCovers(spans: seq<Span>, position: int, end: int, at: int)
    requires forall s :: s in spans ==> s.begin <= s.end
    requires Sweep(spans, position) == Some(end)
    ensures position <= end
    ensures Cover(spans, at) == if position <= at < end then 1 else 0
    ensures forall s :: s in spans && s.begin == s.end ==>
      s.begin == position || exists t :: t in spans && t.begin < t.end && t.end == s.begin
  {
    if spans != [] {
      SweepCovers(spans[1..], spans[0].end, end, at);
      forall s | s in spans && s.begin == s.end && s.begin != position
        ensures exists t :: t in spans && t.begin < t.end && t.end == s.begin
      {
        assert s in spans[1..];
        if s.begin == spans[0].end { assert spans[0] in spans; }
      }
    }
  }

  lemma {:induction false} CoverZero(spans: seq<Span>, at: int)
    requires forall s :: s in spans ==> !Covers(s, at)
    ensures Cover(spans, at) == 0
  {
    if spans != [] {
      CoverZero(spans[1..], at);
    }
  }

  lemma {:induction false} CoverAtLeast(spans: seq<Span>, i: nat, at: int)
    requires i < |spans| && Covers(spans[i], at)
    ensures Cover(spans, at) >= 1
  {
    if i > 0 {
      CoverAtLeast(spans[1..], i - 1, at);
    }
  }

  lemma CoverTwice(spans: seq<Span>, i: nat, j: nat, at: int)
    requires i < j < |spans| && Covers(spans[i], at) && Covers(spans[j], at)
    ensures Cover(spans, at) >= 2
  {
    assert spans == spans[..j] + spans[j..];
    CoverConcat(spans[..j], spans[j..], at);
    CoverAtLeast(spans[..j], i, at);
    CoverAtLeast(spans[j..], 0, at);
  }

  lemma {:induction false} SweepLast(spans: seq<Span>, position: int)
    requires spans != [] && Sweep(spans, position).Some?
    ensures Sweep(spans, position).value == spans[|spans| - 1].end
  {
    if |spans| > 1 {
      SweepLast(spans[1..], spans[0].end);
    }
  }

  lemma PrefixNotReversed(spans: seq<Span>, dataSize: nat, i: nat)
    requires i <= |spans| && forall s :: s in spans ==> InRange(s, dataSize)
    ensures forall s :: s in spans[..i] ==> s.begin <= s.end
  {
    forall s | s in spans[..i] ensures s.begin <= s.end {
      assert s in spans;
      assert InRange(s, dataSize);
    }
  }

  lemma CoverFromPrefix(spans: seq<Span>, dataSize: nat, i: nat, position: int, at: int)
    requires forall s :: s in spans ==> InRange(s, dataSize)
    requires i <= |spans| && Sweep(spans[..i], 0) == Some(position)
    ensures Cover(spans, at) == (if 0 <= at < position then 1 else 0) + Cover(spans[i..], at)
  {
    PrefixNotReversed(spans, dataSize, i);
    SweepCovers(spans[..i], 0, position, at);
    CoverConcat(spans[..i], spans[i..], at);
    assert spans == spans[..i] + spans[i..];
  }

  // A sorted list that leaves a gap after a swept prefix leaves the gap's first byte uncovered.
  lemma GapIsUncovered(spans: seq<Span>, dataSize: nat, i: nat, position: int)
    requires Sorting.SortedBy(spans, SpanLeq)
    requires forall s :: s in spans ==> InRange(s, dataSize)
    requires i < |spans| && Sweep(spans[..i], 0) == Some(position) && spans[i].begin > position
    ensures Cover(spans, position) == 0
  {
    CoverFromPrefix(spans, dataSize, i, position, position);
    forall s | s in spans[i..] ensures !Covers(s, position) {
      var j :| i <= j < |spans| && spans[j] == s;
      if j > i { assert SpanLeq(spans[i], spans[j]); }
    }
    CoverZero(spans[i..], position);
  }

  lemma OverlapIsCoveredTwice(spans: seq<Span>, dataSize: nat, i: nat, position: int)
    requires forall s :: s in spans ==> InRange(s, dataSize)
    requires i < |spans| && Sweep(spans[..i], 0) == Some(position)
    requires spans[i].begin < position && spans[i].begin < spans[i].end
    ensures Cover(spans, spans[i].begin) >= 2
  {
    assert InRange(spans[i], dataSize);
    CoverFromPrefix(spans, dataSize, i, position, spans[i].begin);
    CoverAtLeast(spans[i..], 0, spans[i].begin);
  }

  // An empty span strictly inside the span swept last is on no boundary, unless a byte is covered twice.
  lemma EmptyInsideIsCoveredTwice(spans: seq<Span>, dataSize: nat, i: nat, position: int)
    requires Sorting.SortedBy(spans, SpanLeq)
    requires forall s :: s in spans ==> InRange(s, dataSize)
    requires i < |spans| && Sweep(spans[..i], 0) == Some(position)
    requires spans[i].begin < position && spans[i].begin == spans[i].end
    requires Boundary(spans, spans[i].begin)
    ensures 0 <= spans[i].begin - 1 < dataSize && Cover(spans, spans[i].begin - 1) >= 2
  {
    hide Cover, Sweep;
    var at := spans[i].begin;
    assert InRange(spans[i], dataSize);
    SweptPrefix(spans, i, position);
    var last := spans[i - 1];
    assert InRange(last, dataSize) && SpanLeq(last, spans[i]);
    var t :| t in spans && t.begin < t.end && t.end == at;
    var j :| 0 <= j < |spans| && spans[j] == t;
    assert InRange(t, dataSize);
    assert j > i ==> SpanLeq(spans[i], spans[j]);
    assert j != i && j != i - 1;
    CoverTwice(spans, j, i - 1, at - 1);
  }

  // The span before a swept position ends there.
  lemma SweptPrefix(spans: seq<Span>, i: nat, position: int)
    requires i <= |spans| && Sweep(spans[..i], 0) == Some(position) && position > 0
    ensures i > 0 && spans[i - 1].end == position
  {
    if i > 0 {
      SweepLast(spans[..i], 0);
    }
  }

  // In a sorted tiling, the span after a swept prefix begins where the prefix ended.
  lemma NextSpanFits(spans: seq<Span>, dataSize: nat, i: nat, position: int)
    requires Sorting.SortedBy(spans, SpanLeq) && Tiles(spans, dataSize)
    requires forall s :: s in spans ==> InRange(s, dataSize)
    requires i < |spans| && Sweep(spans[..i], 0) == Some(position)
    ensures spans[i].begin == position
  {
    assert spans[i] in spans && InRange(spans[i], dataSize);
    PrefixNotReversed(spans, dataSize, i);
    SweepCovers(spans[..i], 0, position, 0);
    if spans[i].begin > position {
      GapIsUncovered(spans, dataSize, i, position);
    } else if spans[i].begin < position {
      if spans[i].begin < spans[i].end {
        OverlapIsCoveredTwice(spans, dataSize, i, position);
      } else {
        EmptyInsideIsCoveredTwice(spans, dataSize, i, position);
      }
    }
  }

  lemma {:induction false} TilingIsSwept(spans: seq<Span>, dataSize: nat, i: nat)
    requires Sorting.SortedBy(spans, SpanLeq) && Tiles(spans, dataSize)
    requires forall s :: s in spans ==> InRange(s, dataSize)
    requires i <= |spans|
    ensures Sweep(spans[..i], 0).Some?
  {
    if i > 0 {
      TilingIsSwept(spans, dataSize, i - 1);
      var position := Sweep(spans[..i - 1], 0).value;
      NextSpanFits(spans, dataSize, i - 1, position);
      SweepSplits(spans[..i], i - 1, 0);
      assert spans[..i][..i - 1] == spans[..i - 1] && spans[..i][i - 1..] == [spans[i - 1]];
    }
  }

  /** The sweep accepts spans that are in range exactly when they tile the data. */
  lemma SweepAcceptsIffTiles(spans: seq<Span>, dataSize: nat)
    requires forall s :: s in spans ==> InRange(s, dataSize)
    ensures SweepProblem(spans, dataSize) == None <==> Tiles(spans, dataSize)
  {
    var ordered := Sorting.Sort(spans, SpanLeq);
    SpanLeqIsTotal();
    Sorting.SortKeeps(spans, SpanLeq);
    forall s ensures s in ordered <==> s in spans {
      assert s in ordered <==> s in multiset(ordered);
      assert s in spans <==> s in multiset(spans);
    }
    if SweepProblem(spans, dataSize) == None {
      SweptIsTiling(ordered, dataSize);
      TilesPermutes(ordered, spans, dataSize);
    }
    if Tiles(spans, dataSize) {
      TilesPermutes(spans, ordered, dataSize);
      TilingEndsAtSize(ordered, dataSize);
    }
  }

  lemma SweptIsTiling(spans: seq<Span>, dataSize: nat)
    requires forall s :: s in spans ==> InRange(s, dataSize)
    requires Sweep(spans, 0) == Some(dataSize)
    ensures Tiles(spans, dataSize)
  {
    forall at | 0 <= at < dataSize ensures Cover(spans, at) == 1 {
      SweepCovers(spans, 0, dataSize, at);
    }
    SweepCovers(spans, 0, dataSize, 0);
  }

  lemma TilingEndsAtSize(spans: seq<Span>, dataSize: nat)
    requires Sorting.SortedBy(spans, SpanLeq) && Tiles(spans, dataSize)
    requires forall s :: s in spans ==> InRange(s, dataSize)
    ensures Sweep(spans, 0) == Some(dataSize)
  {
    TilingIsSwept(spans, dataSize, |spans|);
    assert spans[..|spans|] == spans;
    var position := Sweep(spans, 0).value;
    if spans != [] {
      SweepLast(spans, 0);
      assert spans[|spans| - 1] in spans;
    }
    SweepCovers(spans, 0, position, position);
    assert position < dataSize ==> Cover(spans, position) == 1;
  }

  // Every tensor has a known type and points inside the file.
  predicate WellFormed(header: seq<Entry>, dataSize: nat) {
    forall e :: e in header && e.name != METADATA ==> KnownDtype(e.tensor) && InFile(e.tensor, dataSize)
  }

  lemma {:induction false} SpansOkIff(header: seq<Entry>, dataSize: nat)
    ensures Spans(header, dataSize).Ok? <==> WellFormed(header, dataSize)
    ensures Spans(header, dataSize).Ok? ==> forall s :: s in Spans(header, dataSize).value ==> InRange(s, dataSize)
  {
    if header != [] {
      SpansOkIff(header[..|header| - 1], dataSize);
      assert header == header[..|header| - 1] + [header[|header| - 1]];
    }
  }

  /** A header is sound exactly when every tensor is well formed and the tensors tile the data. */
  lemma HeaderSoundIff(header: seq<Entry>, dataSize: nat)
    ensures HeaderProblem(header, dataSize) == None <==>
      && WellFormed(header, dataSize)
      && Spans(header, dataSize).Ok? && Tiles(Spans(header, dataSize).value, dataSize)
  {
    SpansOkIff(header, dataSize);
    if Spans(header, dataSize).Ok? {
      SweepAcceptsIffTiles(Spans(header, dataSize).value, dataSize);
    }
  }

  // ------------------------------------- the same in terms of the tensors themselves

  // An entry that claims the bytes from one offset up to another.
  predicate Claims(e: Entry, begin: int, end: int) {
    && e.name != "__metadata__" && e.tensor.Tensor? && e.tensor.offsets.Some?
    && e.tensor.offsets.value == [Whole(begin), Whole(end)]
  }

  // An entry with a known type and two offsets, in order and inside the data.
  ghost predicate Described(e: Entry, dataSize: nat) {
    && e.tensor.Tensor? && e.tensor.dtype.Named? && e.tensor.dtype.text in DTYPES
    && exists begin, end :: Claims(e, begin, end) && 0 <= begin <= end <= dataSize
  }

  // How many tensors of the header hold a byte.
  function TensorsAt(header: seq<Entry>, at: int): nat {
    if header == [] then 0
    else
      var last := header[|header| - 1];
      TensorsAt(header[..|header| - 1], at) + (if HoldsByte(last, at) then 1 else 0)
  }

  predicate HoldsByte(e: Entry, at: int) {
    && e.name != "__metadata__" && e.tensor.Tensor? && e.tensor.offsets.Some? && |e.tensor.offsets.value| == 2
    && e.tensor.offsets.value[0].Whole? && e.tensor.offsets.value[1].Whole?
    && e.tensor.offsets.value[0].n <= at < e.tensor.offsets.value[1].n
  }

  lemma DescribedIff(e: Entry, dataSize: nat)
    requires e.name != METADATA
    ensures Described(e, dataSize) <==> KnownDtype(e.tensor) && InFile(e.tensor, dataSize)
    ensures InFile(e.tensor, dataSize) ==> forall begin, end ::
      Claims(e, begin, end) <==> SpanOf(e.tensor, dataSize) == Span(begin, end)
  {
    if KnownDtype(e.tensor) && InFile(e.tensor, dataSize) {
      var o := e.tensor.offsets.value;
      assert o == [Whole(o[0].n), Whole(o[1].n)];
      assert Claims(e, o[0].n, o[1].n);
    }
  }

  lemma {:induction false} SpansAreClaims(header: seq<Entry>, dataSize: nat, at: int)
    requires Spans(header, dataSize).Ok?
    ensures Cover(Spans(header, dataSize).value, at) == TensorsAt(header, at)
    ensures forall s :: s in Spans(header, dataSize).value <==> exists e :: e in header && Claims(e, s.begin, s.end)
  {
    if header != [] {
      var front, last := header[..|header| - 1], header[|header| - 1];
      SpansAreClaims(front, dataSize, at);
      assert header == front + [last];
      if last.name != METADATA {
        DescribedIff(last, dataSize);
        CoverConcat(Spans(front, dataSize).value, [SpanOf(last.tensor, dataSize)], at);
      }
    }
  }

  // Every byte of the data lies in exactly one tensor, and every empty tensor starts at
  // zero or where another ends.
  ghost predicate TensorsTile(header: seq<Entry>, dataSize: nat) {
    && (forall at :: 0 <= at < dataSize ==> TensorsAt(header, at) == 1)
    && (forall e, at :: e in header && Claims(e, at, at) ==>
      at == 0 || exists f, begin :: f in header && Claims(f, begin, at) && begin < at)
  }

  lemma TilesIff(header: seq<Entry>, spans: seq<Span>, dataSize: nat)
    requires Spans(header, dataSize) == Ok(spans)
    ensures Tiles(spans, dataSize) <==> TensorsTile(header, dataSize)
  {
    forall at: int ensures Cover(spans, at) == TensorsAt(header, at) {
      SpansAreClaims(header, dataSize, at);
    }
    SpansAreClaims(header, dataSize, 0);
    hide Spans, Claims, Boundary, Cover, TensorsAt;
    forall e, at | e in header && Claims(e, at, at) ensures Span(at, at) in spans {
      assert Claims(e, Span(at, at).begin, Span(at, at).end);
    }
    forall s | s in spans && s.begin == s.end ensures exists e :: e in header && Claims(e, s.begin, s.begin) {
    }
    forall at: int ensures Boundary(spans, at) <==>
      at == 0 || exists f, begin :: f in header && Claims(f, begin, at) && begin < at
    {
      BoundaryIff(header, spans, at);
    }
  }

  /** A header is sound if and only if every tensor is described and the tensors tile the data. */
  lemma HeaderTilesIff(header: seq<Entry>, dataSize: nat)
    ensures HeaderProblem(header, dataSize) == None <==>
      && (forall e :: e in header && e.name != "__metadata__" ==> Described(e, dataSize))
      && TensorsTile(header, dataSize)
  {
    hide Spans, HeaderProblem, KnownDtype, InFile, Described, Tiles, TensorsTile;
    HeaderSoundIff(header, dataSize);
    SpansOkIff(header, dataSize);
    forall e | e in header && e.name != METADATA
      ensures Described(e, dataSize) <==> KnownDtype(e.tensor) && InFile(e.tensor, dataSize)
    {
      DescribedIff(e, dataSize);
    }
    if Spans(header, dataSize).Ok? {
      TilesIff(header, Spans(header, dataSize).value, dataSize);
    }
  }

  lemma BoundaryIff(header: seq<Entry>, spans: seq<Span>, at: int)
    requires forall s :: s in spans <==> exists e :: e in header && Claims(e, s.begin, s.end)
    ensures Boundary(spans, at) <==>
      at == 0 || exists f, begin :: f in header && Claims(f, begin, at) && begin < at
  {
    hide Claims;
    if f, begin :| f in header && Claims(f, begin, at) && begin < at {
      assert Claims(f, Span(begin, at).begin, Span(begin, at).end);
      assert Span(begin, at) in spans;
    }
  }

  lemma SpansSplit(header: seq<Entry>, j: nat, dataSize: nat)
    requires j < |header| && Spans(header, dataSize).Ok?
    ensures Spans([header[j]], dataSize).Ok? && Spans(header[..j] + header[j + 1..], dataSize).Ok?
    ensures multiset(Spans(header, dataSize).value)
         == multiset(Spans([header[j]], dataSize).value)
            + multiset(Spans(header[..j] + header[j + 1..], dataSize).value)
  {
    var left, right := header[..j], header[j + 1..];
    assert header == (left + [header[j]]) + right;
    SpansOkIff(header, dataSize);
    SpansOkIff(left + right, dataSize);
    SpansConcat(left + [header[j]], right, dataSize);
    SpansConcat(left, [header[j]], dataSize);
    SpansConcat(left, right, dataSize);
  }

  lemma {:induction false} SpansPermute(a: seq<Entry>, b: seq<Entry>, dataSize: nat)
    requires multiset(a) == multiset(b) && Spans(a, dataSize).Ok? && Spans(b, dataSize).Ok?
    ensures multiset(Spans(a, dataSize).value) == multiset(Spans(b, dataSize).value)
    decreases |a|
  {
    hide Spans;
    if a == [] {
      assert |multiset(b)| == 0;
    } else {
      var j := Sorting.PermutationHead(a, b);
      SpansSplit(a, 0, dataSize);
      SpansSplit(b, j, dataSize);
      assert a[..0] + a[1..] == a[1..];
      SpansPermute(a[1..], b[..j] + b[j + 1..], dataSize);
    }
  }

  lemma {:induction false} SpansConcat(a: seq<Entry>, b: seq<Entry>, dataSize: nat)
    requires Spans(a + b, dataSize).Ok?
    ensures Spans(a, dataSize).Ok? && Spans(b, dataSize).Ok?
    ensures Spans(a + b, dataSize).value == Spans(a, dataSize).value + Spans(b, dataSize).value
  {
    if b == [] {
      assert a + b == a;
    } else {
      assert (a + b)[..|a + b| - 1] == a + b[..|b| - 1];
      SpansConcat(a, b[..|b| - 1], dataSize);
    }
  }

  /** The verdict does not depend on the order in which the header lists its tensors. */
  lemma OrderDoesNotMatter(a: seq<Entry>, b: seq<Entry>, dataSize: nat)
    requires multiset(a) == multiset(b)
    ensures HeaderProblem(a, dataSize) == None <==> HeaderProblem(b, dataSize) == None
  {
    HeaderSoundIff(a, dataSize);
    HeaderSoundIff(b, dataSize);
    SpansOkIff(a, dataSize);
    SpansOkIff(b, dataSize);
    assert forall e :: e in a <==> e in multiset(a);
    assert forall e :: e in b <==> e in multiset(b);
    if WellFormed(a, dataSize) {
      SpansPermute(a, b, dataSize);
      var x, y := Spans(a, dataSize).value, Spans(b, dataSize).value;
      if Tiles(x, dataSize) { TilesPermutes(x, y, dataSize); }
      if Tiles(y, dataSize) { TilesPermutes(y, x, dataSize); }
    }
  }
}
