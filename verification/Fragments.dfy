/**
 Splitting the first write of a connection, the ClientHello, into pieces: one cut behind the record header
 and several inside the host name.
 */
module Fragments {
  import opened Wrappers
  import opened ClientHellos
  import opened Sorting

  const RECORD_HEADER: nat := 5

  // ----- where to cut

  function CutAt(start: nat, width: nat, i: nat): nat {
    start + i * width
  }

  function PieceCount(start: nat, end: nat, parts: int): nat
    requires start < end
  {
    var p := if parts < 2 then 2 else parts;
    Min(p - 1, end - start)
  }

  function Width(start: nat, end: nat, parts: int): (w: nat)
    requires start + 2 <= end
    ensures 1 <= w < end - start
  {
    var w := (end - start) / (PieceCount(start, end, parts) + 1);
    HalfAtMost(end - start, PieceCount(start, end, parts) + 1);
    if w < 1 then 1 else w
  }

  lemma HalfAtMost(n: nat, d: nat)
    requires n >= 2 && d >= 2
    ensures 0 <= n / d < n
  {
    var q := n / d;
    assert n == q * d + n % d;
    assert q * d == q * 2 + q * (d - 2);
    NotNegative(q, d - 2);
  }

  lemma NotNegative(a: nat, b: nat)
    ensures a * b >= 0
  {
  }

  /** A cut inside the name: one of the evenly spaced ones. */
  ghost predicate NameCut(x: nat, start: nat, end: nat, parts: int) {
    start + 2 <= end &&
      exists i: nat :: 1 <= i <= PieceCount(start, end, parts)
        && x == CutAt(start, Width(start, end, parts), i) && x < end
  }

  /** The cuts of a buffer: none in a short one; else one behind the record header, and those in the name. */
  ghost predicate Cuts(b: seq<Byte>, parts: int, points: seq<nat>) {
    if |b| < RECORD_HEADER * 2 then points == []
    else
      && Rising(points)
      && forall x: nat :: x in points <==>
           x == RECORD_HEADER || (NameRange(b).Name? && NameCut(x, NameRange(b).start, NameRange(b).end, parts))
  }

  lemma CutInName(x: nat, start: nat, end: nat, parts: int)
    requires NameCut(x, start, end, parts)
    ensures start <= x < end
  {
    hide Width, PieceCount;
    var i: nat :| 1 <= i <= PieceCount(start, end, parts) && x == CutAt(start, Width(start, end, parts), i) && x < end;
    NotNegative(i, Width(start, end, parts));
  }

  lemma CutsInside(b: seq<Byte>, parts: int, points: seq<nat>, x: nat)
    requires Cuts(b, parts, points) && x in points
    ensures 0 < x < |b|
  {
    hide NameRange, NameCut, Rising;
    if x != RECORD_HEADER {
      CutInName(x, NameRange(b).start, NameRange(b).end, parts);
    }
  }

  /** A name of at least two bytes is cut somewhere strictly inside. */
  lemma NameIsCut(b: seq<Byte>, parts: int, points: seq<nat>)
    requires Cuts(b, parts, points) && |b| >= RECORD_HEADER * 2
    requires NameRange(b).Name? && NameRange(b).end - NameRange(b).start >= 2
    ensures exists x :: x in points && NameRange(b).start < x < NameRange(b).end
  {
    var r := NameRange(b);
    var w := Width(r.start, r.end, parts);
    assert CutAt(r.start, w, 1) == r.start + w;
    assert NameCut(r.start + w, r.start, r.end, parts);
    assert r.start + w in points;
  }

  /** A name of at least `parts` bytes (two at the least) is cut at parts - 1 places, an equal number of bytes
      apart; a shorter one between any two of its bytes. */
  lemma NameCutsAre(x: nat, start: nat, end: nat, parts: int)
    requires start + 2 <= end
    ensures var p := Max(parts, 2);
      && (end - start >= p ==>
            var w := (end - start) / p;
            w >= 1 && (NameCut(x, start, end, parts) <==> x > start && (x - start) % w == 0 && (x - start) / w < p))
      && (end - start < p ==> (NameCut(x, start, end, parts) <==> start < x < end))
  {
    if end - start >= Max(parts, 2) {
      LongNameCuts(x, start, end, parts);
    } else {
      ShortName(start, end, parts);
      if start < x < end {
        assert x == CutAt(start, 1, x - start);
      }
    }
  }

  lemma LongNameCuts(x: nat, start: nat, end: nat, parts: int)
    requires start + 2 <= end && end - start >= Max(parts, 2)
    ensures var p := Max(parts, 2); var w := (end - start) / p;
      w >= 1 && (NameCut(x, start, end, parts) <==> x > start && (x - start) % w == 0 && (x - start) / w < p)
  {
    var p, n := Max(parts, 2), end - start;
    LongName(start, end, parts);
    var w := n / p;
    hide PieceCount, Width;
    if x > start && (x - start) % w == 0 && (x - start) / w < p {
      var i := (x - start) / w;
      assert x - start == i * w by {
        assert x - start == w * i + (x - start) % w;
      }
      Positive(p - i, w);
      assert n == p * w + n % p;
      assert p * w == i * w + (p - i) * w;
      assert x == CutAt(start, w, i);
    }
    if NameCut(x, start, end, parts) {
      var i: nat :| 1 <= i < p && x == CutAt(start, w, i);
      Positive(i, w);
      Multiple(x - start, i, w);
    }
  }

  lemma Multiple(n: nat, i: nat, w: nat)
    requires w > 0 && n == i * w
    ensures n % w == 0 && n / w == i
  {
    var q, r := n / w, n % w;
    assert n == w * q + r && i * w == w * i;
    assert w * (q - i) == w * q - w * i == -r;
    if q > i {
      Positive(w, q - i);
    } else if q < i {
      assert w * (i - q) == r;
      assert w * (i - q) == w + w * (i - q - 1);
      NotNegative(w, i - q - 1);
    }
  }

  lemma LongName(start: nat, end: nat, parts: int)
    requires start + 2 <= end && end - start >= Max(parts, 2)
    ensures var p := Max(parts, 2);
      PieceCount(start, end, parts) == p - 1 && Width(start, end, parts) == (end - start) / p >= 1
  {
    var n, p := end - start, Max(parts, 2);
    assert n == p * (n / p) + n % p;
  }

  lemma ShortName(start: nat, end: nat, parts: int)
    requires start + 2 <= end && end - start < Max(parts, 2)
    ensures PieceCount(start, end, parts) == end - start && Width(start, end, parts) == 1
  {
    var n := end - start;
    assert n == (n + 1) * (n / (n + 1)) + n % (n + 1);
  }

  lemma Positive(a: int, b: int)
    requires a > 0 && b > 0
    ensures a * b > 0
  {
  }

  /** All cuts in numbers: none in fewer than ten bytes; else one behind the five bytes of the record header, and
      those in the name. */
  lemma CutsInFull(b: seq<Byte>, parts: int, points: seq<nat>)
    requires Cuts(b, parts, points)
    ensures |b| < 10 ==> points == []
    ensures |b| >= 10 ==> 5 in points && (NameRange(b).NoName? ==> points == [5])
    ensures |b| >= 10 && NameRange(b).Name? && NameRange(b).end - NameRange(b).start >= Max(parts, 2) ==>
      var p, start := Max(parts, 2), NameRange(b).start;
      var w := (NameRange(b).end - start) / p;
      w >= 1 && forall x: nat :: x in points <==> x == 5 || (x > start && (x - start) % w == 0 && (x - start) / w < p)
    ensures |b| >= 10 && NameRange(b).Name? && NameRange(b).end - NameRange(b).start < Max(parts, 2) ==>
      forall x: nat :: x in points <==> x == 5 || NameRange(b).start < x < NameRange(b).end
  {
    hide NameRange, NameCut;
    if |b| >= 10 && NameRange(b).NoName? {
      OnlyOne(points, 5);
    } else if |b| >= 10 && NameRange(b).end - NameRange(b).start >= 2 {
      forall x: nat {
        NameCutsAre(x, NameRange(b).start, NameRange(b).end, parts);
      }
    } else if |b| >= 10 {
      forall x: nat
        ensures !NameCut(x, NameRange(b).start, NameRange(b).end, parts)
      {
        TooShort(x, NameRange(b).start, NameRange(b).end, parts);
      }
    }
  }

  lemma TooShort(x: nat, start: nat, end: nat, parts: int)
    requires end < start + 2
    ensures !NameCut(x, start, end, parts)
  {
  }

  lemma OnlyOne(points: seq<nat>, a: nat)
    requires Rising(points) && forall x: nat :: x in points <==> x == a
    ensures points == [a]
  {
    assert a in points;
    forall i | 0 <= i < |points|
      ensures points[i] == a
    {
      assert points[i] in points;
    }
    FirstTwoRise(points);
  }

  lemma FirstTwoRise(points: seq<nat>)
    requires Rising(points)
    ensures 1 < |points| ==> points[0] < points[1]
  {
  }

  method SplitPoints(b: seq<Byte>, parts: int) returns (points: seq<nat>)
    ensures Cuts(b, parts, points)
  {
    if |b| < RECORD_HEADER * 2 {
      return [];
    }
    points := [RECORD_HEADER];
    var r := SniRange(b);
    if r.Name? && r.end - r.start >= 2 {
      points := NamePoints(b, r.start, r.end, parts, points);
    }
    var sorted := Sort(points, AtMost());
    SortedRises(points, sorted);
    assert forall x :: x in sorted <==> x in Elements(sorted);
    assert forall x :: x in points <==> x in Elements(points);
    points := sorted;
  }

  /** Add the cuts inside the name, each once. */
  method NamePoints(b: seq<Byte>, start: nat, end: nat, parts: int, points0: seq<nat>) returns (points: seq<nat>)
    requires 0 < start && start + 2 <= end <= |b|
    requires forall i, j :: 0 <= i < j < |points0| ==> points0[i] != points0[j]
    ensures forall i, j :: 0 <= i < j < |points| ==> points[i] != points[j]
    ensures forall x: nat :: x in points <==> x in points0 || NameCut(x, start, end, parts)
  {
    var p := if parts < 2 then 2 else parts;
    var pieces := p - 1;
    if pieces > end - start {
      pieces := end - start;
    }
    var width := (end - start) / (pieces + 1);
    HalfAtMost(end - start, pieces + 1);
    if width < 1 {
      width := 1;
    }
    assert pieces == PieceCount(start, end, parts) && width == Width(start, end, parts);
    points := points0;
    var i := 1;
    hide CutAt;
    while i <= pieces && CutAt(start, width, i) < end
      invariant 1 <= i <= pieces + 1
      invariant forall i, j :: 0 <= i < j < |points| ==> points[i] != points[j]
      invariant forall x: nat :: x in points <==> x in points0 || OneOf(x, start, width, i)
      invariant forall k: nat :: 1 <= k < i ==> CutAt(start, width, k) < end
    {
      var at := CutAt(start, width, i);
      forall x: nat
        ensures OneOf(x, start, width, i + 1) <==> OneOf(x, start, width, i) || x == at
      {
        OneMore(x, start, width, i);
      }
      AtLeastStart(start, width, i);
      if at > 0 && at < |b| && at !in points {
        points := points + [at];
      }
      i := i + 1;
    }
    if i <= pieces {
      LaterCutsBeyond(start, end, width, i, pieces);
    }
    forall x: nat
      ensures OneOf(x, start, width, i) <==> NameCut(x, start, end, parts)
    {
    }
  }

  ghost predicate OneOf(x: nat, start: nat, width: nat, i: nat) {
    exists k: nat :: 1 <= k < i && x == CutAt(start, width, k)
  }

  lemma OneMore(x: nat, start: nat, width: nat, i: nat)
    requires i >= 1
    ensures OneOf(x, start, width, i + 1) <==> OneOf(x, start, width, i) || x == CutAt(start, width, i)
  {
    hide CutAt;
  }

  lemma AtLeastStart(start: nat, width: nat, i: nat)
    ensures CutAt(start, width, i) >= start
  {
    NotNegative(i, width);
  }

  lemma LaterCutsBeyond(start: nat, end: nat, width: nat, i: nat, pieces: nat)
    requires CutAt(start, width, i) >= end
    ensures forall k: nat :: i <= k <= pieces ==> CutAt(start, width, k) >= end
  {
    forall k: nat | i <= k <= pieces
      ensures CutAt(start, width, k) >= end
    {
      assert k * width == i * width + (k - i) * width;
    }
  }

  // ----- the pieces

  /** The k-th boundary of a buffer of length n: its ends and the cuts between. */
  function Bound(points: seq<nat>, n: nat, k: nat): nat {
    if k == 0 then 0 else if k <= |points| then points[k - 1] else n
  }

  ghost predicate Inside(points: seq<nat>, n: nat) {
    Rising(points) && forall x :: x in points ==> 0 < x < n
  }

  lemma BoundsRise(points: seq<nat>, n: nat, k: nat)
    requires Inside(points, n) && k <= |points|
    ensures Bound(points, n, k) <= Bound(points, n, k + 1) <= n
    ensures points != [] ==> Bound(points, n, k) < Bound(points, n, k + 1)
  {
    if k > 0 {
      assert points[k - 1] in points;
    }
    if k < |points| {
      assert points[k] in points;
    }
  }

  function Piece(b: seq<Byte>, points: seq<nat>, k: nat): seq<Byte> {
    var from, to := Bound(points, |b|, k), Bound(points, |b|, k + 1);
    if from <= to <= |b| then b[from..to] else []
  }

  function Pieces(b: seq<Byte>, points: seq<nat>, n: nat): (s: seq<seq<Byte>>)
    ensures |s| == n
  {
    seq(n, k requires 0 <= k < n => Piece(b, points, k))
  }

  function Joined(pieces: seq<seq<Byte>>): seq<Byte> {
    if pieces == [] then [] else Joined(pieces[..|pieces| - 1]) + pieces[|pieces| - 1]
  }

  lemma {:induction false} JoinedTo(b: seq<Byte>, points: seq<nat>, n: nat)
    requires Inside(points, |b|) && n <= |points| + 1
    ensures Bound(points, |b|, n) <= |b| && Joined(Pieces(b, points, n)) == b[..Bound(points, |b|, n)]
  {
    if n > 0 {
      JoinedTo(b, points, n - 1);
      BoundsRise(points, |b|, n - 1);
      assert Pieces(b, points, n)[..n - 1] == Pieces(b, points, n - 1);
    }
  }

  /** The pieces put together again are the buffer. */
  lemma PiecesJoin(b: seq<Byte>, points: seq<nat>)
    requires Inside(points, |b|)
    ensures Joined(Pieces(b, points, |points| + 1)) == b
  {
    JoinedTo(b, points, |points| + 1);
  }

  /** No piece covers the whole of a name of two bytes or more, however many parts are asked for. */
  lemma NoPieceHoldsTheName(b: seq<Byte>, parts: int, points: seq<nat>, k: nat)
    requires Cuts(b, parts, points) && |b| >= RECORD_HEADER * 2 && k <= |points|
    requires NameRange(b).Name? && NameRange(b).end - NameRange(b).start >= 2
    ensures !(Bound(points, |b|, k) <= NameRange(b).start && NameRange(b).end <= Bound(points, |b|, k + 1))
  {
    NameIsCut(b, parts, points);
    var x :| x in points && NameRange(b).start < x < NameRange(b).end;
    var j :| 0 <= j < |points| && points[j] == x;
    hide NameRange, NameCut;
    if j < k {
      assert x <= points[k - 1];
    } else {
      assert points[k] <= x;
    }
  }

  /** Every well-formed ClientHello whose host name has at least two bytes goes out with no piece holding the
      whole name. */
  lemma HelloNameIsSplit(h: Hello, parts: int, points: seq<nat>, k: nat)
    requires WellFormed(h) && |h.name| >= 2 && Cuts(Print(h), parts, points) && k <= |points|
    ensures var n, start := |Print(h)|, NameStart(h);
      !(Bound(points, n, k) <= start && start + |h.name| <= Bound(points, n, k + 1))
  {
    FindsExactlyTheName(h);
    hide Print, WellFormed, NameRange, PutExtensions, Cuts, Bound;
    NoPieceHoldsTheName(Print(h), parts, points, k);
  }

  // ----- the connection

  /** The connection underneath: it may fail once a budget of bytes is used up, after writing what fits. */
  class Conn {
    var writes: seq<seq<Byte>>
    var budget: Option<nat>

    constructor (budget: Option<nat>)
      ensures writes == [] && this.budget == budget
    {
      writes, this.budget := [], budget;
    }

    method Write(p: seq<Byte>) returns (n: nat, failed: bool)
      modifies this
      ensures n <= |p| && (failed <==> n < |p|) && writes == old(writes) + [p[..n]]
      ensures old(budget).None? ==> !failed && budget.None?
    {
      n := |p|;
      if budget.Some? {
        if budget.value < |p| {
          n := budget.value;
        }
        budget := Some(budget.value - n);
      }
      failed := n < |p|;
      writes := writes + [p[..n]];
    }
  }

  class FragmentConn {
    const conn: Conn
    const parts: int
    var split: bool

    constructor (conn: Conn, parts: int)
      ensures this.conn == conn && this.parts == parts && !split
    {
      this.conn, this.parts, this.split := conn, parts, false;
    }

    /** The first write goes out in the pieces between the cuts, every later one whole. What has been written
        is always a prefix of the buffer, all of it unless the connection fails. */
    method Write(b: seq<Byte>) returns (written: nat, failed: bool, ghost points: seq<nat>, ghost sent: seq<seq<Byte>>)
      modifies this`split, conn
      ensures split && conn.writes == old(conn.writes) + sent
      ensures written <= |b| && Joined(sent) == b[..written] && (!failed ==> written == |b|)
      ensures old(conn.budget).None? ==> !failed
      ensures old(split) ==> |sent| == 1
      ensures !old(split) ==> Cuts(b, parts, points) && Inside(points, |b|)
      ensures !old(split) && !failed ==> sent == Pieces(b, points, |points| + 1)
    {
      points := [];
      if split {
        written, failed := conn.Write(b);
        sent := [b[..written]];
        JoinedOne(b[..written]);
        return;
      }
      split := true;
      var cuts := SplitPoints(b, parts);
      points := cuts;
      CutsAreInside(b, parts, points);
      if cuts == [] {
        written, failed := conn.Write(b);
        sent := [b[..written]];
        JoinedOne(b[..written]);
        if !failed {
          assert b[..written] == b == Piece(b, points, 0);
        }
        return;
      }
      written, failed, sent := SendPieces(b, cuts);
    }

    method SendPieces(b: seq<Byte>, cuts: seq<nat>) returns (written: nat, failed: bool, ghost sent: seq<seq<Byte>>)
      requires cuts != [] && Inside(cuts, |b|)
      modifies conn
      ensures conn.writes == old(conn.writes) + sent
      ensures written <= |b| && Joined(sent) == b[..written] && (!failed ==> written == |b|)
      ensures old(conn.budget).None? ==> !failed
      ensures !failed ==> sent == Pieces(b, cuts, |cuts| + 1)
    {
      hide Joined, Pieces, Piece, Inside;
      written, failed, sent := 0, false, [];
      var prev := 0;
      var ends := cuts + [|b|];
      NoPiecesYet(b, cuts);
      for k := 0 to |ends|
        invariant prev == written == Bound(cuts, |b|, k) && !failed
        invariant conn.writes == old(conn.writes) + sent && sent == Pieces(b, cuts, k)
        invariant old(conn.budget).None? ==> conn.budget.None?
      {
        var at := ends[k];
        assert at == Bound(cuts, |b|, k + 1);
        BoundsRise(cuts, |b|, k);
        if at <= prev {
          continue;
        }
        var n;
        n, failed := conn.Write(b[prev..at]);
        PieceSent(b, cuts, k, n);
        sent := sent + [b[prev..at][..n]];
        written := written + n;
        if failed {
          return;
        }
        assert b[prev..at][..n] == b[prev..at];
        prev := at;
      }
      JoinedTo(b, cuts, |cuts| + 1);
      assert b[..written] == b;
    }
  }

  lemma NoPiecesYet(b: seq<Byte>, points: seq<nat>)
    ensures Pieces(b, points, 0) == []
  {
  }

  /** What has gone out once n bytes of the k-th piece have. */
  lemma PieceSent(b: seq<Byte>, points: seq<nat>, k: nat, n: nat)
    requires Inside(points, |b|) && k <= |points| && Bound(points, |b|, k) + n <= Bound(points, |b|, k + 1) <= |b|
    ensures var from, to := Bound(points, |b|, k), Bound(points, |b|, k + 1);
      && Joined(Pieces(b, points, k) + [b[from..to][..n]]) == b[..from + n]
      && Pieces(b, points, k + 1) == Pieces(b, points, k) + [b[from..to]]
  {
    var from, to := Bound(points, |b|, k), Bound(points, |b|, k + 1);
    JoinedTo(b, points, k);
    JoinedMore(Pieces(b, points, k), b[from..to][..n]);
    assert b[..from] + b[from..to][..n] == b[..from + n];
    assert Pieces(b, points, k + 1) == Pieces(b, points, k) + [Piece(b, points, k)];
  }

  lemma JoinedOne(p: seq<Byte>)
    ensures Joined([p]) == p
  {
    assert Joined([p][..0]) == [];
  }

  lemma JoinedMore(s: seq<seq<Byte>>, p: seq<Byte>)
    ensures Joined(s + [p]) == Joined(s) + p
  {
    assert (s + [p])[..|s|] == s;
  }

  lemma CutsAreInside(b: seq<Byte>, parts: int, points: seq<nat>)
    requires Cuts(b, parts, points)
    ensures Inside(points, |b|)
  {
    forall x | x in points
      ensures 0 < x < |b|
    {
      CutsInside(b, parts, points, x);
    }
  }
}
