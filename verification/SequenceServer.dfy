/** The sequence-number server: an allocator whose counter is written to a file after
    every request it serves and read back when the server starts again. */
module SequenceServer {

  // The start-up file: empty, at least one stored int, or too short to hold one.
  datatype File = Empty | Stored(value: int) | Short

  // What the request read delivers, and what becomes of the client's FIFO.
  datatype Request =
    | Garbled                          // not a whole request
    | NoReader(seqLen: int)            // the client's FIFO cannot be opened
    | Served(seqLen: int, sent: bool)  // `sent`: the reply was written

  // The numbers from `first` to `first + len - 1`, as the reply promises them.
  datatype Range = Range(first: int, len: int)

  const INT_MIN: int := -0x8000_0000
  const INT_MAX: int := 0x7fff_ffff

  // Addition of the 32-bit int, wrapping around.
  function Add(a: int, b: int): int {
    (a + b - INT_MIN) % 0x1_0000_0000 + INT_MIN
  }

  lemma AddInRange(a: int, b: int)
    requires INT_MIN <= a + b <= INT_MAX
    ensures Add(a, b) == a + b
  {
  }

  // ------------------------------------------------------------------ specification

  /** The ranges that a server with counter `n` hands out for the requests. */
  function Handed(n: int, requests: seq<Request>): seq<Range>
    decreases |requests|
  {
    if requests == [] then []
    else if requests[0].Served? then
      [Range(n, requests[0].seqLen)] + Handed(Add(n, requests[0].seqLen), requests[1..])
    else Handed(n, requests[1..])
  }

  /** The counter after the requests. */
  function CounterAfter(n: int, requests: seq<Request>): int
    decreases |requests|
  {
    if requests == [] then n
    else CounterAfter(if requests[0].Served? then Add(n, requests[0].seqLen) else n, requests[1..])
  }

  /** The ranges whose reply was written, or those whose reply was lost. */
  function Replies(n: int, requests: seq<Request>, sent: bool): seq<Range>
    decreases |requests|
  {
    if requests == [] then []
    else if requests[0].Served? then
      (if requests[0].sent == sent then [Range(n, requests[0].seqLen)] else []) +
      Replies(Add(n, requests[0].seqLen), requests[1..], sent)
    else Replies(n, requests[1..], sent)
  }

  function Length(requests: seq<Request>): int {
    if requests == [] then 0
    else (if requests[0].Served? then requests[0].seqLen else 0) + Length(requests[1..])
  }

  function Flatten(sessions: seq<seq<Request>>): seq<Request> {
    if sessions == [] then [] else sessions[0] + Flatten(sessions[1..])
  }

  lemma {:induction false} HandedConcat(n: int, a: seq<Request>, b: seq<Request>)
    ensures Handed(n, a + b) == Handed(n, a) + Handed(CounterAfter(n, a), b)
    ensures CounterAfter(n, a + b) == CounterAfter(CounterAfter(n, a), b)
    decreases |a|
  {
    if a == [] {
      assert a + b == b;
    } else {
      assert (a + b)[1..] == a[1..] + b;
      HandedConcat(if a[0].Served? then Add(n, a[0].seqLen) else n, a[1..], b);
    }
  }

  lemma {:induction false} RepliesConcat(n: int, a: seq<Request>, b: seq<Request>, sent: bool)
    ensures Replies(n, a + b, sent) == Replies(n, a, sent) + Replies(CounterAfter(n, a), b, sent)
    decreases |a|
  {
    if a == [] {
      assert a + b == b;
    } else {
      assert (a + b)[1..] == a[1..] + b;
      RepliesConcat(if a[0].Served? then Add(n, a[0].seqLen) else n, a[1..], b, sent);
    }
  }

  predicate NonNegative(requests: seq<Request>) {
    forall i :: 0 <= i < |requests| && requests[i].Served? ==> requests[i].seqLen >= 0
  }

  predicate InRange(x: int, r: Range) { r.first <= x < r.first + r.len }

  ghost predicate Covered(x: int, ranges: seq<Range>) {
    exists i :: 0 <= i < |ranges| && InRange(x, ranges[i])
  }

  lemma {:induction false} LengthNonNegative(requests: seq<Request>)
    requires NonNegative(requests)
    ensures Length(requests) >= 0
  {
    if requests != [] { LengthNonNegative(requests[1..]); }
  }

  /** With non-negative lengths and no overflow the ranges follow each other without
      overlap from the first counter to the last: a lost reply leaves a gap in what
      the clients hold, never a number that two of them hold. */
  lemma {:induction false} HandedTile(n: int, requests: seq<Request>)
    requires NonNegative(requests) && INT_MIN <= n && n + Length(requests) <= INT_MAX
    ensures CounterAfter(n, requests) == n + Length(requests) >= n
    ensures forall i :: 0 <= i < |Handed(n, requests)| ==>
      n <= Handed(n, requests)[i].first && Handed(n, requests)[i].len >= 0 &&
      Handed(n, requests)[i].first + Handed(n, requests)[i].len <= n + Length(requests)
    ensures forall i, j :: 0 <= i < j < |Handed(n, requests)| ==>
      Handed(n, requests)[i].first + Handed(n, requests)[i].len <= Handed(n, requests)[j].first
    ensures forall x {:trigger Covered(x, Handed(n, requests))} ::
      n <= x < n + Length(requests) ==> Covered(x, Handed(n, requests))
    decreases |requests|
  {
    if requests != [] {
      var r, rest := requests[0], requests[1..];
      LengthNonNegative(rest);
      if r.Served? {
        AddInRange(n, r.seqLen);
        var m := n + r.seqLen;
        HandedTile(m, rest);
        var handed := Handed(n, requests);
        assert handed == [Range(n, r.seqLen)] + Handed(m, rest);
        forall x: int {:trigger Covered(x, handed)} | n <= x < n + Length(requests)
          ensures Covered(x, handed)
        {
          if x < m {
            assert InRange(x, handed[0]);
          } else {
            assert Covered(x, Handed(m, rest));
            var i :| 0 <= i < |Handed(m, rest)| && InRange(x, Handed(m, rest)[i]);
            assert InRange(x, handed[i + 1]);
          }
        }
      } else {
        HandedTile(n, rest);
      }
    }
  }

  // ------------------------------------------------------------------ when the allocator behaves

  /** The ranges are proper, stay within the int, and each starts at or behind the end of all earlier ones. */
  ghost predicate Orderly(ranges: seq<Range>) {
    && (forall i :: 0 <= i < |ranges| ==> ranges[i].len >= 0 && ranges[i].first + ranges[i].len <= INT_MAX)
    && forall i, j :: 0 <= i < j < |ranges| ==> ranges[i].first + ranges[i].len <= ranges[j].first
  }

  lemma OrderlyCons(r: Range, rest: seq<Range>)
    requires r.len >= 0 && r.first + r.len <= INT_MAX
    requires Orderly(rest) ==> forall i :: 0 <= i < |rest| ==> r.first + r.len <= rest[i].first
    ensures Orderly([r] + rest) <==> Orderly(rest)
  {
    var ranges := [r] + rest;
    assert ranges[1..] == rest;
    if Orderly(ranges) {
      forall i | 0 <= i < |rest|
        ensures rest[i] == ranges[i + 1]
      {
      }
    }
  }

  lemma NonNegativeCons(requests: seq<Request>)
    requires requests != []
    ensures NonNegative(requests) <==> NonNegative(requests[..1]) && NonNegative(requests[1..])
  {
    if NonNegative(requests[..1]) && NonNegative(requests[1..]) {
      forall i | 0 <= i < |requests| && requests[i].Served?
        ensures requests[i].seqLen >= 0
      {
        assert requests[i] == if i == 0 then requests[..1][0] else requests[1..][i - 1];
      }
    }
  }

  // A request that breaks the order at once.
  lemma OrderBroken(n: int, requests: seq<Request>)
    requires requests != [] && requests[0].Served? && (requests[0].seqLen < 0 || n + requests[0].seqLen > INT_MAX)
    ensures !Orderly(Handed(n, requests))
    ensures !(NonNegative(requests) && n + Length(requests) <= INT_MAX)
  {
    assert Handed(n, requests)[0] == Range(n, requests[0].seqLen);
    if NonNegative(requests[1..]) { LengthNonNegative(requests[1..]); }
    NonNegativeCons(requests);
  }

  // A request that keeps the order leaves it to the others.
  lemma OrderPassedOn(n: int, len: int, rest: seq<Request>)
    requires INT_MIN <= n && len >= 0 && n + len <= INT_MAX
    requires Orderly(Handed(n + len, rest)) <==> NonNegative(rest) && n + len + Length(rest) <= INT_MAX
    ensures Orderly([Range(n, len)] + Handed(n + len, rest)) <==> Orderly(Handed(n + len, rest))
  {
    if Orderly(Handed(n + len, rest)) { HandedTile(n + len, rest); }
    OrderlyCons(Range(n, len), Handed(n + len, rest));
  }

  /** The allocator keeps its ranges in order exactly when no length is negative and the
      counter does not overflow. */
  lemma {:induction false} OrderlyIff(n: int, requests: seq<Request>)
    requires INT_MIN <= n <= INT_MAX
    ensures Orderly(Handed(n, requests)) <==> NonNegative(requests) && n + Length(requests) <= INT_MAX
    decreases |requests|
  {
    if requests != [] {
      var r, rest := requests[0], requests[1..];
      NonNegativeCons(requests);
      if !r.Served? {
        OrderlyIff(n, rest);
      } else if r.seqLen < 0 || n + r.seqLen > INT_MAX {
        OrderBroken(n, requests);
      } else {
        AddInRange(n, r.seqLen);
        OrderlyIff(n + r.seqLen, rest);
        OrderPassedOn(n, r.seqLen, rest);
      }
    }
  }

  // ------------------------------------------------------------------ when numbers repeat

  // The client that holds range `r` uses this as its number `d`, in the arithmetic of the int.
  function Number(r: Range, d: int): int { Add(r.first, d) }

  predicate IsNumber(ranges: seq<Range>, i: nat, d: nat) { i < |ranges| && d < ranges[i].len }

  predicate SameNumber(ranges: seq<Range>, i: nat, d: nat, j: nat, e: nat) {
    IsNumber(ranges, i, d) && IsNumber(ranges, j, e) && Number(ranges[i], d) == Number(ranges[j], e)
  }

  /** No number is handed out twice. */
  ghost predicate Distinct(ranges: seq<Range>) {
    forall i: nat, d: nat, j: nat, e: nat :: SameNumber(ranges, i, d, j, e) ==> i == j && d == e
  }

  // How many numbers have been handed out before number `d` of range `i`.
  function Place(ranges: seq<Range>, i: nat, d: nat): int
    requires i < |ranges|
  {
    if i == 0 then d else ranges[0].len + Place(ranges[1..], i - 1, d)
  }

  lemma AddTwice(a: int, b: int, c: int)
    ensures Add(Add(a, b), c) == Add(a, b + c)
  {
  }

  // The number is the first counter plus the place.
  lemma {:induction false} NumberAt(n: int, requests: seq<Request>, i: nat, d: nat)
    requires NonNegative(requests) && IsNumber(Handed(n, requests), i, d)
    ensures Number(Handed(n, requests)[i], d) == Add(n, Place(Handed(n, requests), i, d))
    ensures 0 <= Place(Handed(n, requests), i, d) < Length(requests)
    decreases |requests|
  {
    var r, rest, handed := requests[0], requests[1..], Handed(n, requests);
    LengthNonNegative(rest);
    if !r.Served? {
      NumberAt(n, rest, i, d);
    } else if i > 0 {
      var m := Add(n, r.seqLen);
      assert handed[1..] == Handed(m, rest);
      NumberAt(m, rest, i - 1, d);
      AddTwice(n, r.seqLen, Place(handed[1..], i - 1, d));
    }
  }

  lemma {:induction false} PlaceBelow(ranges: seq<Range>, i: nat, d: nat)
    requires IsNumber(ranges, i, d) && forall k :: 0 <= k < |ranges| ==> ranges[k].len >= 0
    ensures Place(ranges, i, d) >= 0 && (i > 0 ==> Place(ranges, i, d) >= ranges[0].len)
  {
    if i > 0 {
      PlaceBelow(ranges[1..], i - 1, d);
    }
  }

  lemma {:induction false} SamePlace(ranges: seq<Range>, i: nat, d: nat, j: nat, e: nat)
    requires IsNumber(ranges, i, d) && IsNumber(ranges, j, e) && Place(ranges, i, d) == Place(ranges, j, e)
    requires forall k :: 0 <= k < |ranges| ==> ranges[k].len >= 0
    ensures i == j && d == e
  {
    PlaceBelow(ranges, i, d);
    PlaceBelow(ranges, j, e);
    if i > 0 && j > 0 {
      SamePlace(ranges[1..], i - 1, d, j - 1, e);
    }
  }

  lemma {:induction false} FindPlace(n: int, requests: seq<Request>, x: nat) returns (i: nat, d: nat)
    requires NonNegative(requests) && x < Length(requests)
    ensures IsNumber(Handed(n, requests), i, d) && Place(Handed(n, requests), i, d) == x
    decreases |requests|
  {
    var r, rest := requests[0], requests[1..];
    if !r.Served? {
      i, d := FindPlace(n, rest, x);
    } else if x < r.seqLen {
      i, d := 0, x;
    } else {
      var m := Add(n, r.seqLen);
      assert Handed(n, requests)[1..] == Handed(m, rest);
      i, d := FindPlace(m, rest, x - r.seqLen);
      i := i + 1;
    }
  }

  lemma {:induction false} LensNonNegative(n: int, requests: seq<Request>)
    requires NonNegative(requests)
    ensures forall k :: 0 <= k < |Handed(n, requests)| ==> Handed(n, requests)[k].len >= 0
    decreases |requests|
  {
    if requests != [] {
      LensNonNegative(if requests[0].Served? then Add(n, requests[0].seqLen) else n, requests[1..]);
    }
  }

  /** With non-negative lengths a number repeats exactly when more numbers have been
      handed out than an int can tell apart. */
  lemma DistinctIff(n: int, requests: seq<Request>)
    requires NonNegative(requests)
    ensures Distinct(Handed(n, requests)) <==> Length(requests) <= 0x1_0000_0000
  {
    var handed := Handed(n, requests);
    LensNonNegative(n, requests);
    if Length(requests) <= 0x1_0000_0000 {
      forall i: nat, d: nat, j: nat, e: nat | SameNumber(handed, i, d, j, e)
        ensures i == j && d == e
      {
        NumberAt(n, requests, i, d);
        NumberAt(n, requests, j, e);
        SamePlace(handed, i, d, j, e);
      }
    } else {
      var i, d := FindPlace(n, requests, 0);
      var j, e := FindPlace(n, requests, 0x1_0000_0000);
      NumberAt(n, requests, i, d);
      NumberAt(n, requests, j, e);
      assert SameNumber(handed, i, d, j, e);
    }
  }

  // ------------------------------------------------------------------ repetition without overflow

  /** The counter stays within the int all along. */
  predicate Fits(n: int, requests: seq<Request>)
    decreases |requests|
  {
    && INT_MIN <= n <= INT_MAX
    && (requests == [] || Fits(n + (if requests[0].Served? then requests[0].seqLen else 0), requests[1..]))
  }

  // The ranges between the partial sums of the lengths.
  function Spans(n: int, requests: seq<Request>): seq<Range>
    decreases |requests|
  {
    if requests == [] then []
    else if requests[0].Served? then
      [Range(n, requests[0].seqLen)] + Spans(n + requests[0].seqLen, requests[1..])
    else Spans(n, requests[1..])
  }

  predicate Apart(r: Range, q: Range) {
    r.len > 0 && q.len > 0 ==> r.first + r.len <= q.first || q.first + q.len <= r.first
  }

  predicate AllApart(ranges: seq<Range>) {
    forall i, j :: 0 <= i < j < |ranges| ==> Apart(ranges[i], ranges[j])
  }

  predicate IntRange(r: Range) { INT_MIN <= r.first && r.first + r.len <= INT_MAX }

  lemma {:induction false} HandedIsSpans(n: int, requests: seq<Request>)
    requires Fits(n, requests)
    ensures Handed(n, requests) == Spans(n, requests)
    ensures forall k :: 0 <= k < |Spans(n, requests)| ==> IntRange(Spans(n, requests)[k])
    decreases |requests|
  {
    if requests != [] {
      var m := n + (if requests[0].Served? then requests[0].seqLen else 0);
      AddInRange(n, m - n);
      HandedIsSpans(m, requests[1..]);
    }
  }

  lemma NumberIs(r: Range, d: int)
    requires IntRange(r) && 0 <= d < r.len
    ensures Number(r, d) == r.first + d
  {
    AddInRange(r.first, d);
  }

  // Two ranges share a number exactly when they overlap.
  lemma SharedNumber(ranges: seq<Range>, i: nat, j: nat) returns (d: nat, e: nat)
    requires i < j < |ranges| && IntRange(ranges[i]) && IntRange(ranges[j]) && !Apart(ranges[i], ranges[j])
    ensures SameNumber(ranges, i, d, j, e)
  {
    var r, q := ranges[i], ranges[j];
    var x := if r.first < q.first then q.first else r.first;
    d, e := x - r.first, x - q.first;
    NumberIs(r, d);
    NumberIs(q, e);
  }

  lemma NoSharedNumber(ranges: seq<Range>, i: nat, d: nat, j: nat, e: nat)
    requires SameNumber(ranges, i, d, j, e) && IntRange(ranges[i]) && IntRange(ranges[j])
    requires i == j || Apart(ranges[i], ranges[j])
    ensures i == j && d == e
  {
    NumberIs(ranges[i], d);
    NumberIs(ranges[j], e);
  }

  /** Without overflow, for any lengths: a number repeats exactly when two of the ranges
      between the partial sums overlap. */
  lemma DistinctWithoutOverflow(n: int, requests: seq<Request>)
    requires Fits(n, requests)
    ensures Distinct(Handed(n, requests)) <==> AllApart(Spans(n, requests))
  {
    var ranges := Spans(n, requests);
    HandedIsSpans(n, requests);
    if AllApart(ranges) {
      forall i: nat, d: nat, j: nat, e: nat | SameNumber(ranges, i, d, j, e)
        ensures i == j && d == e
      {
        assert i != j ==> Apart(ranges[i], ranges[j]) by {
          if j < i { assert Apart(ranges[j], ranges[i]); }
        }
        NoSharedNumber(ranges, i, d, j, e);
      }
    } else {
      var i, j :| 0 <= i < j < |ranges| && !Apart(ranges[i], ranges[j]);
      var d, e := SharedNumber(ranges, i, j);
    }
  }

  /** A witness: after a negative length the server hands out numbers again. */
  lemma NegativeLengthRepeats()
    ensures var handed := Handed(0, [Served(10, true), Served(-5, true), Served(5, true)]);
      InRange(7, handed[0]) && InRange(7, handed[2])
  {
    var requests := [Served(10, true), Served(-5, true), Served(5, true)];
    assert requests[1..] == [Served(-5, true), Served(5, true)];
    assert requests[1..][1..] == [Served(5, true)];
    assert Handed(10, requests[1..]) == [Range(10, -5)] + Handed(5, requests[1..][1..]);
    assert Handed(5, requests[1..][1..]) == [Range(5, 5)] + Handed(10, []);
  }

  /** Another: so it does after overflows. */
  lemma OverflowRepeats() returns (handed: seq<Range>)
    ensures handed == Handed(0, [Served(INT_MAX, true), Served(INT_MAX, true), Served(10, true)])
    ensures |handed| == 3 && InRange(7, handed[0]) && InRange(7, handed[2])
  {
    var requests := [Served(INT_MAX, true), Served(INT_MAX, true), Served(10, true)];
    handed := Handed(0, requests);
    assert requests[1..] == [Served(INT_MAX, true), Served(10, true)];
    assert requests[1..][1..] == [Served(10, true)];
    assert requests[1..][1..][1..] == [];
    assert Add(0, INT_MAX) == INT_MAX && Add(INT_MAX, INT_MAX) == -2;
    assert Handed(-2, requests[1..][1..]) == [Range(-2, 10)];
    assert Handed(INT_MAX, requests[1..]) == [Range(INT_MAX, INT_MAX), Range(-2, 10)];
    assert handed == [Range(0, INT_MAX), Range(INT_MAX, INT_MAX), Range(-2, 10)];
  }

  // ------------------------------------------------------------------ lost replies

  lemma CoveredCons(x: int, r: Range, rest: seq<Range>)
    ensures Covered(x, [r] + rest) <==> InRange(x, r) || Covered(x, rest)
  {
    var ranges := [r] + rest;
    if i :| 0 <= i < |rest| && InRange(x, rest[i]) {
      assert InRange(x, ranges[i + 1]);
    }
    if InRange(x, r) {
      assert InRange(x, ranges[0]);
    }
  }

  /** Between the first counter and the last every number is either in a range that its
      client holds or in a range whose reply was lost, never in both. */
  lemma {:induction false} HeldOrLost(n: int, requests: seq<Request>, x: int)
    requires NonNegative(requests) && INT_MIN <= n && n + Length(requests) <= INT_MAX
    ensures (Covered(x, Replies(n, requests, true)) || Covered(x, Replies(n, requests, false))) <==>
      n <= x < n + Length(requests)
    ensures !(Covered(x, Replies(n, requests, true)) && Covered(x, Replies(n, requests, false)))
    decreases |requests|
  {
    if requests != [] {
      var r, rest := requests[0], requests[1..];
      LengthNonNegative(rest);
      if r.Served? {
        var m := n + r.seqLen;
        AddInRange(n, r.seqLen);
        HeldOrLost(m, rest, x);
        CoveredCons(x, Range(n, r.seqLen), Replies(m, rest, r.sent));
        assert [] + Replies(m, rest, !r.sent) == Replies(m, rest, !r.sent);
      } else {
        HeldOrLost(n, rest, x);
      }
    }
  }

  /** When every reply is written, the clients hold all that is handed out. */
  lemma {:induction false} AllHeld(n: int, requests: seq<Request>)
    requires forall i :: 0 <= i < |requests| && requests[i].Served? ==> requests[i].sent
    ensures Replies(n, requests, true) == Handed(n, requests) && Replies(n, requests, false) == []
    decreases |requests|
  {
    if requests != [] {
      AllHeld(if requests[0].Served? then Add(n, requests[0].seqLen) else n, requests[1..]);
    }
  }

  /** All numbers from the first counter up to the last, and no others, have been handed out. */
  lemma CoveredExactly(n: int, requests: seq<Request>, x: int)
    requires NonNegative(requests) && INT_MIN <= n && n + Length(requests) <= INT_MAX
    ensures Covered(x, Handed(n, requests)) <==> n <= x < n + Length(requests)
  {
    HandedTile(n, requests);
  }

  lemma {:induction false} FlattenConcat(a: seq<seq<Request>>, b: seq<seq<Request>>)
    ensures Flatten(a + b) == Flatten(a) + Flatten(b)
    ensures Flatten([]) == [] && forall requests :: Flatten([requests]) == requests
  {
    forall requests
      ensures Flatten([requests]) == requests
    {
      assert [requests][1..] == [];
      assert requests + [] == requests;
    }
    if a == [] {
      assert a + b == b;
    } else {
      assert (a + b)[1..] == a[1..] + b;
      FlattenConcat(a[1..], b);
    }
  }

  function FileCounter(file: File): int {
    if file.Stored? then file.value else 0
  }

  // ------------------------------------------------------------------ the server

  /** The server process and the file that outlives it. */
  class Server {
    var file: File
    var seqNum: int
    ghost var handed: seq<Range>   // by all processes so far
    ghost var held: seq<Range>     // those that reached their client

    constructor (file: File)
      ensures this.file == file && handed == [] && held == []
    {
      this.file, seqNum, handed, held := file, 0, [], [];
    }

    // The read of the start-up file; the process exits when it fails.
    method StartUp() returns (ok: bool)
      modifies this`seqNum
      ensures ok == !file.Short?
      ensures file == Empty ==> seqNum == 0
      ensures file.Stored? ==> seqNum == file.value
      ensures seqNum == if ok then FileCounter(file) else old(seqNum)
    {
      match file {
        case Empty => seqNum := 0; ok := true;
        case Stored(value) => seqNum := value; ok := true;
        case Short => ok := false;
      }
    }

    /** One turn of the request loop: a request that is not served changes nothing; a served
        one gets the range at the counter, which reaches the client if the reply is written,
        and the counter and the file move behind it. */
    method Serve(request: Request)
      modifies this
      ensures !request.Served? ==>
        handed == old(handed) && held == old(held) && seqNum == old(seqNum) && file == old(file)
      ensures request.Served? ==>
        && handed == old(handed) + [Range(old(seqNum), request.seqLen)]
        && held == old(held) + (if request.sent then [Range(old(seqNum), request.seqLen)] else [])
        && (INT_MIN <= old(seqNum) + request.seqLen <= INT_MAX ==> seqNum == old(seqNum) + request.seqLen)
        && file == Stored(seqNum)
      ensures handed == old(handed) + Handed(old(seqNum), [request])
      ensures held == old(held) + Replies(old(seqNum), [request], true)
      ensures seqNum == CounterAfter(old(seqNum), [request])
      ensures file == if request.Served? then Stored(seqNum) else old(file)
    {
      assert [request][1..] == [];
      if request.Garbled? || request.NoReader? {
        return;
      }
      handed := handed + [Range(seqNum, request.seqLen)];
      if request.sent {
        held := held + [Range(seqNum, request.seqLen)];
      }
      seqNum := Add(seqNum, request.seqLen);
      file := Empty;             // ftruncate
      file := Stored(seqNum);    // lseek, write
    }

    // A process serves its requests until it is stopped at the read of the next one.
    method Session(requests: seq<Request>)
      requires !file.Short?
      modifies this
      ensures handed == old(handed) + Handed(old(FileCounter(file)), requests)
      ensures held == old(held) + Replies(old(FileCounter(file)), requests, true)
      ensures FileCounter(file) == seqNum == CounterAfter(old(FileCounter(file)), requests)
      ensures !file.Short?
    {
      var ok := StartUp();
      ghost var n := seqNum;
      assert requests[..0] == [];
      for i := 0 to |requests|
        invariant handed == old(handed) + Handed(n, requests[..i])
        invariant held == old(held) + Replies(n, requests[..i], true)
        invariant FileCounter(file) == seqNum == CounterAfter(n, requests[..i])
        invariant !file.Short?
      {
        HandedConcat(n, requests[..i], [requests[i]]);
        RepliesConcat(n, requests[..i], [requests[i]], true);
        assert requests[..i + 1] == requests[..i] + [requests[i]];
        Serve(requests[i]);
      }
      assert requests[..|requests|] == requests;
    }

    /** Any number of restarts is invisible: the ranges and the counter are those of one
        process that serves all requests. So they are in order across all restarts exactly
        when no length is negative and the counter does not overflow; from an empty file
        they then are exactly the numbers from 0 on. */
    method Restarts(sessions: seq<seq<Request>>)
      requires !file.Short?
      modifies this
      ensures handed == old(handed) + Handed(old(FileCounter(file)), Flatten(sessions))
      ensures held == old(held) + Replies(old(FileCounter(file)), Flatten(sessions), true)
      ensures INT_MIN <= old(FileCounter(file)) <= INT_MAX ==>
        (Orderly(handed[|old(handed)|..]) <==>
          NonNegative(Flatten(sessions)) && old(FileCounter(file)) + Length(Flatten(sessions)) <= INT_MAX)
      ensures old(file) == Empty && NonNegative(Flatten(sessions)) && Length(Flatten(sessions)) <= INT_MAX ==>
        forall x {:trigger Covered(x, handed[|old(handed)|..])} ::
          Covered(x, handed[|old(handed)|..]) <==> 0 <= x < Length(Flatten(sessions))
      ensures FileCounter(file) == CounterAfter(old(FileCounter(file)), Flatten(sessions))
      ensures !file.Short?
      decreases |sessions|
    {
      ghost var n := FileCounter(file);
      if INT_MIN <= n <= INT_MAX { OrderlyIff(n, Flatten(sessions)); }
      if sessions != [] {
        HandedConcat(n, sessions[0], Flatten(sessions[1..]));
        RepliesConcat(n, sessions[0], Flatten(sessions[1..]), true);
        Session(sessions[0]);
        Restarts(sessions[1..]);
      }
      assert handed[|old(handed)|..] == Handed(n, Flatten(sessions));
      if old(file) == Empty && NonNegative(Flatten(sessions)) && Length(Flatten(sessions)) <= INT_MAX {
        forall x ensures Covered(x, Handed(n, Flatten(sessions))) <==> 0 <= x < Length(Flatten(sessions)) {
          CoveredExactly(n, Flatten(sessions), x);
        }
      }
    }
  }
}
