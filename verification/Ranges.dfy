/**
 The coverage check over `crawl_ranges` and the planner that fills what it finds.
 */
module Ranges {
  import opened Wrappers
  import opened Lease
  import LP = LeaseProtocol

  datatype Span = Span(lower: int, upper: int)

  datatype Gap = Gap(from: int, to: int)

  const DEFAULT_LIMIT: nat := 20
  const DEFAULT_SIZE: int := 10000

  function Spans(rows: seq<Row>): (s: seq<Span>)
    ensures |s| == |rows|
  {
    seq(|rows|, i requires 0 <= i < |rows| => Span(rows[i].lower, rows[i].upper))
  }

  // ----- the gap query

  /** One step of ORDER BY upper_id DESC. */
  function Insert(s: seq<Span>, x: Span): seq<Span> {
    if s == [] || s[0].upper <= x.upper then [x] + s else [s[0]] + Insert(s[1..], x)
  }

  function OrderByUpper(s: seq<Span>): seq<Span> {
    if s == [] then [] else Insert(OrderByUpper(s[1..]), s[0])
  }

  /** lag(lower_id) over the ordered rows: one gap wherever the row above starts past the next id.
      The gaps come out by descending start already. */
  function LagGaps(s: seq<Span>): seq<Gap> {
    if |s| < 2 then []
    else (if s[0].lower > s[1].upper + 1 then [Gap(s[1].upper + 1, s[0].lower - 1)] else []) + LagGaps(s[1..])
  }

  function AllGaps(s: seq<Span>): seq<Gap> {
    LagGaps(OrderByUpper(s))
  }

  function CoverageGaps(rows: seq<Row>, limit: int): seq<Gap> {
    var gaps := AllGaps(Spans(rows));
    var n := if limit <= 0 then DEFAULT_LIMIT else limit;
    if n < |gaps| then gaps[..n] else gaps
  }

  // ----- what a gap is

  predicate In(x: int, s: Span) {
    s.lower <= x <= s.upper
  }

  ghost predicate Covers(s: seq<Span>, x: int) {
    exists i :: 0 <= i < |s| && In(x, s[i])
  }

  ghost predicate Disjoint(s: seq<Span>) {
    && (forall i :: 0 <= i < |s| ==> s[i].lower <= s[i].upper)
    && (forall i, j :: 0 <= i < j < |s| ==> s[i].upper < s[j].lower || s[j].upper < s[i].lower)
  }

  /** A maximal run of uncovered ids with covered ids on both sides. */
  ghost predicate MaximalGap(s: seq<Span>, g: Gap) {
    && g.from <= g.to
    && (forall x :: g.from <= x <= g.to ==> !Covers(s, x))
    && Covers(s, g.from - 1) && Covers(s, g.to + 1)
  }

  ghost predicate HighestFirst(s: seq<Span>) {
    && (forall i :: 0 <= i < |s| ==> s[i].lower <= s[i].upper)
    && (forall i, j :: 0 <= i < j < |s| ==> s[j].upper < s[i].lower)
  }

  lemma CoversCons(s: seq<Span>, x: int)
    requires s != []
    ensures Covers(s, x) <==> In(x, s[0]) || Covers(s[1..], x)
  {
    if Covers(s, x) && !In(x, s[0]) {
      var i :| 0 <= i < |s| && In(x, s[i]);
      assert s[1..][i - 1] == s[i];
    }
    if Covers(s[1..], x) {
      var i :| 0 <= i < |s[1..]| && In(x, s[1..][i]);
      assert s[i + 1] == s[1..][i];
    }
  }

  lemma {:induction false} InsertCovers(s: seq<Span>, x: Span, y: int)
    ensures Covers(Insert(s, x), y) <==> In(y, x) || Covers(s, y)
    decreases |s|
  {
    var r := Insert(s, x);
    CoversCons(r, y);
    if s == [] || s[0].upper <= x.upper {
      assert r[1..] == s;
    } else {
      assert r[1..] == Insert(s[1..], x);
      CoversCons(s, y);
      InsertCovers(s[1..], x, y);
    }
  }

  lemma {:induction false} InsertSorts(s: seq<Span>, x: Span)
    requires HighestFirst(s) && x.lower <= x.upper
    requires forall i :: 0 <= i < |s| ==> s[i].upper < x.lower || x.upper < s[i].lower
    ensures HighestFirst(Insert(s, x))
    ensures forall y :: y in Insert(s, x) <==> y == x || y in s
    decreases |s|
  {
    var r := Insert(s, x);
    if s == [] || s[0].upper <= x.upper {
      assert r[1..] == s;
    } else {
      InsertSorts(s[1..], x);
      assert r[1..] == Insert(s[1..], x);
      assert s == [s[0]] + s[1..];
      forall j | 1 <= j < |r|
        ensures r[j].upper < s[0].lower && r[j].lower <= r[j].upper
      {
        assert r[j] in r[1..];
      }
      forall i, j | 0 <= i < j < |r|
        ensures r[j].upper < r[i].lower
      {
        if i > 0 {
          assert r[i] == r[1..][i - 1] && r[j] == r[1..][j - 1];
        }
      }
    }
  }

  lemma {:induction false} OrderSorts(s: seq<Span>)
    requires Disjoint(s)
    ensures HighestFirst(OrderByUpper(s))
    ensures forall y :: y in OrderByUpper(s) <==> y in s
    ensures forall y :: Covers(OrderByUpper(s), y) <==> Covers(s, y)
    decreases |s|
  {
    if s != [] {
      var rest := OrderByUpper(s[1..]);
      OrderSorts(s[1..]);
      forall i | 0 <= i < |rest|
        ensures rest[i].upper < s[0].lower || s[0].upper < rest[i].lower
      {
        assert rest[i] in s[1..];
        var j :| 0 <= j < |s[1..]| && s[1..][j] == rest[i];
        assert s[j + 1] == rest[i];
      }
      InsertSorts(rest, s[0]);
      assert s == [s[0]] + s[1..];
      forall y
        ensures Covers(OrderByUpper(s), y) <==> Covers(s, y)
      {
        InsertCovers(rest, s[0], y);
        CoversCons(s, y);
      }
    }
  }

  lemma BelowHead(s: seq<Span>, x: int)
    requires HighestFirst(s) && s != [] && Covers(s[1..], x)
    ensures |s| > 1 && x <= s[1].upper < s[0].lower
  {
    var i :| 0 <= i < |s[1..]| && In(x, s[1..][i]);
    assert s[1..][i] == s[i + 1];
  }

  lemma NoGapInOne(s: seq<Span>, g: Gap)
    requires |s| < 2
    ensures !MaximalGap(s, g)
  {
    if g.from <= g.to && Covers(s, g.from - 1) && Covers(s, g.to + 1) {
      assert In(g.from, s[0]);
      assert Covers(s, g.from);
    }
  }

  /** Ids around the head: the tail lies below it, down from its second row's upper end. */
  lemma HeadAndTail(s: seq<Span>)
    requires HighestFirst(s) && |s| > 1
    ensures forall x :: Covers(s, x) <==> In(x, s[0]) || Covers(s[1..], x)
    ensures forall x :: Covers(s[1..], x) ==> x <= s[1].upper
    ensures Covers(s[1..], s[1].upper) && Covers(s, s[0].lower)
    ensures s[1].upper < s[0].lower
  {
    forall x
      ensures Covers(s, x) <==> In(x, s[0]) || Covers(s[1..], x)
    {
      CoversCons(s, x);
    }
    forall x | Covers(s[1..], x)
      ensures x <= s[1].upper
    {
      BelowHead(s, x);
    }
    assert In(s[1].upper, s[1..][0]);
    assert In(s[0].lower, s[0]);
  }

  lemma {:induction false} LagIsMaximal(s: seq<Span>, g: Gap)
    requires HighestFirst(s) && g in LagGaps(s)
    ensures MaximalGap(s, g)
    decreases |s|
  {
    HeadAndTail(s);
    if g in LagGaps(s[1..]) {
      LagIsMaximal(s[1..], g);
    }
  }

  lemma {:induction false} MaximalIsLag(s: seq<Span>, g: Gap)
    requires HighestFirst(s) && MaximalGap(s, g)
    ensures g in LagGaps(s)
    decreases |s|
  {
    if |s| < 2 {
      NoGapInOne(s, g);
    } else {
      HeadAndTail(s);
      if In(g.to + 1, s[0]) {
        assert !In(g.to, s[0]) && g.to + 1 == s[0].lower;
        assert g.from - 1 == s[1].upper;
      } else {
        MaximalIsLag(s[1..], g);
      }
    }
  }

  /** The query without its LIMIT lists exactly the maximal uncovered intervals that lie between
      covered ids. */
  lemma GapsAreExact(rows: seq<Row>, g: Gap)
    requires Disjoint(Spans(rows))
    ensures g in AllGaps(Spans(rows)) <==> MaximalGap(Spans(rows), g)
  {
    var s := Spans(rows);
    OrderSorts(s);
    var ordered := OrderByUpper(s);
    if g in LagGaps(ordered) {
      LagIsMaximal(ordered, g);
    }
    if MaximalGap(s, g) {
      MaximalIsLag(ordered, g);
    }
  }

  lemma {:induction false} LagBelow(s: seq<Span>, g: Gap)
    requires HighestFirst(s) && g in LagGaps(s)
    ensures |s| > 1 && g.from <= g.to < s[0].lower
    decreases |s|
  {
    if |s| >= 2 && g in LagGaps(s[1..]) {
      LagBelow(s[1..], g);
      assert s[1..][0] == s[1] && s[1].lower <= s[1].upper < s[0].lower;
    }
  }

  lemma {:induction false} LagDescends(s: seq<Span>)
    requires HighestFirst(s)
    ensures forall i, j :: 0 <= i < j < |LagGaps(s)| ==> LagGaps(s)[j].to < LagGaps(s)[i].from
    decreases |s|
  {
    if |s| >= 2 {
      var rest := LagGaps(s[1..]);
      LagDescends(s[1..]);
      if s[0].lower > s[1].upper + 1 {
        var all := [Gap(s[1].upper + 1, s[0].lower - 1)] + rest;
        assert LagGaps(s) == all;
        forall i, j | 0 <= i < j < |all|
          ensures all[j].to < all[i].from
        {
          assert all[j] == rest[j - 1];
          if i == 0 {
            LagBelow(s[1..], rest[j - 1]);
            assert s[1..][0] == s[1];
          } else {
            assert all[i] == rest[i - 1];
          }
        }
      } else {
        assert LagGaps(s) == rest;
      }
    }
  }

  /** Every uncovered id between two covered ones is in one of the gaps. */
  lemma {:induction false} LagCatches(s: seq<Span>, a: int, x: int, b: int) returns (g: Gap)
    requires HighestFirst(s) && a < x < b && Covers(s, a) && Covers(s, b) && !Covers(s, x)
    ensures g in LagGaps(s) && g.from <= x <= g.to
    decreases |s|
  {
    CoversCons(s, a);
    CoversCons(s, b);
    CoversCons(s, x);
    assert Covers(s[1..], a);
    BelowHead(s, a);
    if x > s[1].upper {
      if Covers(s[1..], b) {
        BelowHead(s, b);
      }
      g := Gap(s[1].upper + 1, s[0].lower - 1);
    } else {
      assert In(s[1].upper, s[1..][0]);
      assert Covers(s[1..], s[1].upper);
      g := LagCatches(s[1..], a, x, s[1].upper);
    }
  }

  /** The rows of a reachable lease table have no gaps. */
  lemma LeaseRowsHaveNoGaps(sys: LP.Sys, limit: int)
    requires LP.Reachable(sys)
    ensures CoverageGaps(sys.rows, limit) == []
  {
    LP.RowsTileTheHistory(sys);
    var s := Spans(sys.rows);
    var gaps := AllGaps(s);
    if gaps != [] {
      GapsAreExact(sys.rows, gaps[0]);
      var g := gaps[0];
      var i :| 0 <= i < |s| && In(g.from - 1, s[i]);
      var j :| 0 <= j < |s| && In(g.to + 1, s[j]);
      assert LP.Covered(sys.rows, g.from);
      var k :| 0 <= k < |s| && sys.rows[k].lower <= g.from <= sys.rows[k].upper;
      assert In(g.from, s[k]);
      assert Covers(s, g.from);
    }
  }

  // ----- the planner

  function Piece(from: int, upper: int, size: int): Span {
    Span(Max(upper - size + 1, from), upper)
  }

  /** The blocks one gap is cut into, from its upper end down. */
  function Pieces(from: int, upper: int, size: int): seq<Span>
    requires size >= 1
    decreases upper - from + 1
  {
    if upper < from then [] else [Piece(from, upper, size)] + Pieces(from, upper - size, size)
  }

  function PlannedRow(s: Span, now: int): Row {
    Row(s.lower, s.upper, Failed, 0, None, None, now)
  }

  function InsertAll(rows: seq<Row>, pieces: seq<Span>, now: int): seq<Row>
    decreases |pieces|
  {
    if pieces == [] then rows
    else InsertAll(InsertIfAbsent(rows, PlannedRow(pieces[0], now)), pieces[1..], now)
  }

  function PlanAll(rows: seq<Row>, gaps: seq<Gap>, size: int, now: int): seq<Row>
    requires size >= 1
    decreases |gaps|
  {
    if gaps == [] then rows
    else PlanAll(InsertAll(rows, Pieces(gaps[0].from, gaps[0].to, size), now), gaps[1..], size, now)
  }

  function SizeOrDefault(size: int): int {
    if size < 1 then DEFAULT_SIZE else size
  }

  method PlanGapRanges(store: Store, gaps: seq<Gap>, rangeSize: int, now: int) returns (created: int)
    modifies store`rows
    ensures store.rows == PlanAll(old(store.rows), gaps, SizeOrDefault(rangeSize), now)
    ensures SizeOrDefault(rangeSize) == if rangeSize < 1 then 10_000 else rangeSize
    ensures created == |store.rows| - |old(store.rows)| && old(store.rows) <= store.rows
    ensures forall i :: |old(store.rows)| <= i < |store.rows| ==>
      store.rows[i] == Row(store.rows[i].lower, store.rows[i].upper, Failed, 0, None, None, now)
  {
    PlannedRows(store.rows, gaps, SizeOrDefault(rangeSize), now);
    var size := if rangeSize < 1 then 10000 else rangeSize;
    created := 0;
    ghost var goal := PlanAll(store.rows, gaps, size, now);
    for k := 0 to |gaps|
      invariant PlanAll(store.rows, gaps[k..], size, now) == goal
      invariant created == |store.rows| - |old(store.rows)|
    {
      var gap := gaps[k];
      assert gaps[k..][1..] == gaps[k + 1..];
      var upper := gap.to;
      ghost var target := InsertAll(store.rows, Pieces(gap.from, gap.to, size), now);
      while upper >= gap.from
        invariant InsertAll(store.rows, Pieces(gap.from, upper, size), now) == target
        invariant created == |store.rows| - |old(store.rows)|
        decreases upper - gap.from + 1
      {
        var lower := upper - size + 1;
        if lower < gap.from {
          lower := gap.from;
        }
        assert Pieces(gap.from, upper, size)[1..] == Pieces(gap.from, upper - size, size);
        if !HasKey(store.rows, lower, upper) {
          store.rows := store.rows + [Row(lower, upper, Failed, 0, None, None, now)];
          created := created + 1;
        }
        upper := upper - size;
        if lower == gap.from {
          break;
        }
      }
    }
    assert gaps[|gaps|..] == [];
  }

  /** The report: maximal gaps, highest first, at most as many as asked for (20 when nothing is asked), and one
      that is missing lies below a full report. */
  lemma ReportIsExact(rows: seq<Row>, limit: int, g: Gap)
    requires Disjoint(Spans(rows))
    ensures var r := CoverageGaps(rows, limit); var n := if limit <= 0 then 20 else limit;
      && |r| <= n && (forall i, j :: 0 <= i < j < |r| ==> r[j].to < r[i].from)
      && (g in r ==> MaximalGap(Spans(rows), g))
      && (MaximalGap(Spans(rows), g) && g !in r ==> |r| == n && forall i :: 0 <= i < |r| ==> g.to < r[i].from)
  {
    GapsAreExact(rows, g);
    OrderSorts(Spans(rows));
    LagDescends(OrderByUpper(Spans(rows)));
    var all, r := AllGaps(Spans(rows)), CoverageGaps(rows, limit);
    assert forall i :: 0 <= i < |r| ==> r[i] == all[i];
    hide MaximalGap, AllGaps;
    if g in all && g !in r {
      var k :| 0 <= k < |all| && all[k] == g;
      assert k >= |r|;
    }
  }

  /** New rows are at the end, and each can be leased at once: failed, no tries used, rested. */
  lemma {:induction false} PlannedRows(rows: seq<Row>, gaps: seq<Gap>, size: int, now: int)
    requires size >= 1
    ensures var r := PlanAll(rows, gaps, size, now);
      && rows <= r
      && forall i :: |rows| <= i < |r| ==> r[i] == Row(r[i].lower, r[i].upper, Failed, 0, None, None, now)
    decreases |gaps|
  {
    if gaps != [] {
      var next := InsertAll(rows, Pieces(gaps[0].from, gaps[0].to, size), now);
      InsertedRows(rows, Pieces(gaps[0].from, gaps[0].to, size), now);
      PlannedRows(next, gaps[1..], size, now);
      var r := PlanAll(next, gaps[1..], size, now);
      assert forall i :: 0 <= i < |next| ==> r[i] == next[i];
    }
  }

  lemma {:induction false} InsertedRows(rows: seq<Row>, pieces: seq<Span>, now: int)
    ensures var r := InsertAll(rows, pieces, now);
      && rows <= r
      && forall i :: |rows| <= i < |r| ==> r[i] == Row(r[i].lower, r[i].upper, Failed, 0, None, None, now)
    decreases |pieces|
  {
    if pieces != [] {
      var next := InsertIfAbsent(rows, PlannedRow(pieces[0], now));
      InsertedRows(next, pieces[1..], now);
      var r := InsertAll(next, pieces[1..], now);
      assert forall i :: 0 <= i < |next| ==> r[i] == next[i];
    }
  }

  lemma {:induction false} PiecesTile(from: int, upper: int, size: int)
    requires size >= 1
    ensures var p := Pieces(from, upper, size);
      && Disjoint(p)
      && (forall i :: 0 <= i < |p| ==> from <= p[i].lower && p[i].upper <= upper && p[i].upper - p[i].lower < size)
      && (forall x :: Covers(p, x) <==> from <= x <= upper)
    decreases upper - from + 1
  {
    if upper >= from {
      PiecesTile(from, upper - size, size);
      var p := Pieces(from, upper, size);
      var rest := Pieces(from, upper - size, size);
      assert p[1..] == rest;
      forall x
        ensures Covers(p, x) <==> from <= x <= upper
      {
        CoversCons(p, x);
      }
      forall i, j | 0 <= i < j < |p|
        ensures p[i].upper < p[j].lower || p[j].upper < p[i].lower
      {
        assert p[j] == rest[j - 1];
        if i > 0 {
          assert p[i] == rest[i - 1];
        }
      }
    }
  }

  /** Inserting blocks that touch no covered id adds exactly those ids. */
  lemma {:induction false} InsertAllAdds(rows: seq<Row>, pieces: seq<Span>, now: int)
    requires Disjoint(Spans(rows)) && Disjoint(pieces)
    requires forall x :: Covers(pieces, x) ==> !Covers(Spans(rows), x)
    ensures var r := InsertAll(rows, pieces, now);
      && Disjoint(Spans(r)) && |r| == |rows| + |pieces| && r[..|rows|] == rows
      && forall x :: Covers(Spans(r), x) <==> Covers(Spans(rows), x) || Covers(pieces, x)
    decreases |pieces|
  {
    if pieces != [] {
      var p := pieces[0];
      var s := Spans(rows);
      var next := rows + [PlannedRow(p, now)];
      assert Spans(next) == s + [p];
      assert In(p.lower, p) && Covers(pieces, p.lower);
      assert forall i :: 0 <= i < |rows| ==> s[i].lower == rows[i].lower && s[i].upper == rows[i].upper;
      assert !HasKey(rows, p.lower, p.upper);
      forall x
        ensures Covers(pieces, x) <==> In(x, p) || Covers(pieces[1..], x)
        ensures Covers(s + [p], x) <==> Covers(s, x) || In(x, p)
        ensures In(x, p) ==> !Covers(pieces[1..], x)
      {
        CoversCons(pieces, x);
        CoversLast(s, p, x);
      }
      forall i | 0 <= i < |s|
        ensures s[i].upper < p.lower || p.upper < s[i].lower
      {
        assert forall x :: In(x, s[i]) ==> Covers(s, x);
        Apart(s[i], p);
      }
      InsertAllAdds(next, pieces[1..], now);
      assert InsertAll(rows, pieces, now)[..|rows|] == InsertAll(rows, pieces, now)[..|next|][..|rows|];
    }
  }

  /** Blocks without a common id lie apart. */
  lemma Apart(a: Span, b: Span)
    requires a.lower <= a.upper && b.lower <= b.upper && forall x :: In(x, a) ==> !In(x, b)
    ensures a.upper < b.lower || b.upper < a.lower
  {
    assert In(a.lower, a) && In(b.lower, b);
    assert In(b.lower, a) || b.lower < a.lower || a.upper < b.lower;
    assert In(a.lower, b) || a.lower < b.lower || b.upper < a.lower;
  }

  lemma CoversLast(s: seq<Span>, p: Span, x: int)
    ensures Covers(s + [p], x) <==> Covers(s, x) || In(x, p)
  {
    var t := s + [p];
    if Covers(s, x) {
      var i :| 0 <= i < |s| && In(x, s[i]);
      assert t[i] == s[i];
    }
    if In(x, p) {
      assert t[|s|] == p;
    }
  }

  ghost predicate InGap(gaps: seq<Gap>, x: int) {
    exists k :: 0 <= k < |gaps| && gaps[k].from <= x <= gaps[k].to
  }

  lemma {:induction false} PlanAllAdds(rows: seq<Row>, gaps: seq<Gap>, size: int, now: int)
    requires size >= 1 && Disjoint(Spans(rows))
    requires forall i, j :: 0 <= i < j < |gaps| ==> gaps[j].to < gaps[i].from
    requires forall x :: InGap(gaps, x) ==> !Covers(Spans(rows), x)
    ensures var r := PlanAll(rows, gaps, size, now);
      && Disjoint(Spans(r)) && rows <= r
      && forall x :: Covers(Spans(r), x) <==> Covers(Spans(rows), x) || InGap(gaps, x)
    decreases |gaps|
  {
    if gaps != [] {
      var g := gaps[0];
      var pieces := Pieces(g.from, g.to, size);
      PiecesTile(g.from, g.to, size);
      forall x
        ensures InGap(gaps, x) <==> g.from <= x <= g.to || InGap(gaps[1..], x)
      {
        if InGap(gaps, x) && !(g.from <= x <= g.to) {
          var k :| 0 <= k < |gaps| && gaps[k].from <= x <= gaps[k].to;
          assert gaps[1..][k - 1] == gaps[k];
        }
        if InGap(gaps[1..], x) {
          var k :| 0 <= k < |gaps[1..]| && gaps[1..][k].from <= x <= gaps[1..][k].to;
          assert gaps[k + 1] == gaps[1..][k];
        }
      }
      InsertAllAdds(rows, pieces, now);
      var next := InsertAll(rows, pieces, now);
      forall x | InGap(gaps[1..], x)
        ensures !Covers(Spans(next), x)
      {
        var k :| 0 <= k < |gaps[1..]| && gaps[1..][k].from <= x <= gaps[1..][k].to;
        assert gaps[1..][k] == gaps[k + 1];
      }
      PlanAllAdds(next, gaps[1..], size, now);
    }
  }

  /** Planning over every gap keeps the rows disjoint, leaves the old ones in place, and covers each
      gap and nothing else. */
  lemma PlanFillsGaps(rows: seq<Row>, size: int, now: int)
    requires Disjoint(Spans(rows)) && size >= 1
    ensures var gaps := AllGaps(Spans(rows)); var r := PlanAll(rows, gaps, size, now);
      && Disjoint(Spans(r)) && rows <= r
      && forall x :: Covers(Spans(r), x) <==> Covers(Spans(rows), x) || InGap(gaps, x)
  {
    var s := Spans(rows);
    var gaps := AllGaps(s);
    OrderSorts(s);
    LagDescends(OrderByUpper(s));
    forall x | InGap(gaps, x)
      ensures !Covers(s, x)
    {
      var k :| 0 <= k < |gaps| && gaps[k].from <= x <= gaps[k].to;
      assert gaps[k] in gaps;
      GapsAreExact(rows, gaps[k]);
    }
    PlanAllAdds(rows, gaps, size, now);
  }

  /** After planning, the coverage check has nothing left to report. */
  lemma PlanClosesGaps(rows: seq<Row>, size: int, now: int, limit: int)
    requires Disjoint(Spans(rows)) && size >= 1
    ensures CoverageGaps(PlanAll(rows, AllGaps(Spans(rows)), size, now), limit) == []
  {
    PlanFillsGaps(rows, size, now);
    var s := Spans(rows);
    var r := PlanAll(rows, AllGaps(s), size, now);
    var left := AllGaps(Spans(r));
    if left != [] {
      var g := left[0];
      assert g in left;
      GapsAreExact(r, g);
      assert !Covers(Spans(r), g.from);
      var a := CoveredAtOrBelow(rows, g.from - 1);
      var b := CoveredAtOrAbove(rows, g.to + 1);
      OrderSorts(s);
      var found := LagCatches(OrderByUpper(s), a, g.from, b);
      assert InGap(AllGaps(s), g.from);
    }
  }

  lemma CoveredAtOrBelow(rows: seq<Row>, x: int) returns (a: int)
    requires Disjoint(Spans(rows))
    requires Covers(Spans(rows), x) || InGap(AllGaps(Spans(rows)), x)
    ensures a <= x && Covers(Spans(rows), a)
  {
    a := x;
    if !Covers(Spans(rows), x) {
      var gaps := AllGaps(Spans(rows));
      var k :| 0 <= k < |gaps| && gaps[k].from <= x <= gaps[k].to;
      GapsAreExact(rows, gaps[k]);
      a := gaps[k].from - 1;
    }
  }

  lemma CoveredAtOrAbove(rows: seq<Row>, x: int) returns (b: int)
    requires Disjoint(Spans(rows))
    requires Covers(Spans(rows), x) || InGap(AllGaps(Spans(rows)), x)
    ensures x <= b && Covers(Spans(rows), b)
  {
    b := x;
    if !Covers(Spans(rows), x) {
      var gaps := AllGaps(Spans(rows));
      var k :| 0 <= k < |gaps| && gaps[k].from <= x <= gaps[k].to;
      GapsAreExact(rows, gaps[k]);
      b := gaps[k].to + 1;
    }
  }

  // ----- planning over a gap list that may be out of date

  /** The block exists already, or none of its ids is covered. */
  ghost predicate Fits(rows: seq<Row>, p: Span) {
    HasKey(rows, p.lower, p.upper) || forall x :: In(x, p) ==> !Covers(Spans(rows), x)
  }

  function AllPieces(gaps: seq<Gap>, size: int): seq<Span>
    requires size >= 1
  {
    if gaps == [] then [] else Pieces(gaps[0].from, gaps[0].to, size) + AllPieces(gaps[1..], size)
  }

  lemma {:induction false} InsertAllConcat(rows: seq<Row>, a: seq<Span>, b: seq<Span>, now: int)
    ensures InsertAll(rows, a + b, now) == InsertAll(InsertAll(rows, a, now), b, now)
    decreases |a|
  {
    if a == [] {
      assert a + b == b;
    } else {
      assert (a + b)[1..] == a[1..] + b;
      InsertAllConcat(InsertIfAbsent(rows, PlannedRow(a[0], now)), a[1..], b, now);
    }
  }

  lemma {:induction false} PlanIsInsert(rows: seq<Row>, gaps: seq<Gap>, size: int, now: int)
    requires size >= 1
    ensures PlanAll(rows, gaps, size, now) == InsertAll(rows, AllPieces(gaps, size), now)
    decreases |gaps|
  {
    if gaps != [] {
      var first := Pieces(gaps[0].from, gaps[0].to, size);
      InsertAllConcat(rows, first, AllPieces(gaps[1..], size), now);
      PlanIsInsert(InsertAll(rows, first, now), gaps[1..], size, now);
    }
  }

  /** The same block twice, or blocks without a common id. */
  ghost predicate Compatible(p: Span, q: Span) {
    p == q || p.upper < q.lower || q.upper < p.lower
  }

  ghost predicate AllCompatible(pieces: seq<Span>) {
    forall i, j :: 0 <= i < j < |pieces| ==> Compatible(pieces[i], pieces[j])
  }

  ghost predicate NonEmpty(pieces: seq<Span>) {
    forall i :: 0 <= i < |pieces| ==> pieces[i].lower <= pieces[i].upper
  }

  lemma {:induction false} AllPiecesNonEmpty(gaps: seq<Gap>, size: int)
    requires size >= 1
    ensures NonEmpty(AllPieces(gaps, size))
    decreases |gaps|
  {
    if gaps != [] {
      PiecesTile(gaps[0].from, gaps[0].to, size);
      AllPiecesNonEmpty(gaps[1..], size);
    }
  }

  /** Gaps without a common id, in any order. */
  ghost predicate SeparateGaps(gaps: seq<Gap>) {
    forall i, j :: 0 <= i < j < |gaps| ==> gaps[i].to < gaps[j].from || gaps[j].to < gaps[i].from
  }

  /** Every block of separate gaps lies within one of them, so no two blocks clash. */
  lemma {:induction false} SeparateGapsAgree(gaps: seq<Gap>, size: int)
    requires size >= 1 && SeparateGaps(gaps)
    ensures AllCompatible(AllPieces(gaps, size))
    ensures forall p :: p in AllPieces(gaps, size) ==>
      exists k :: 0 <= k < |gaps| && gaps[k].from <= p.lower && p.upper <= gaps[k].to
    decreases |gaps|
  {
    if gaps != [] {
      var g := gaps[0];
      var first, rest := Pieces(g.from, g.to, size), AllPieces(gaps[1..], size);
      PiecesTile(g.from, g.to, size);
      SeparateGapsAgree(gaps[1..], size);
      forall p | p in rest
        ensures p.upper < g.from || g.to < p.lower
        ensures exists k :: 0 <= k < |gaps| && gaps[k].from <= p.lower && p.upper <= gaps[k].to
      {
        var k :| 0 <= k < |gaps[1..]| && gaps[1..][k].from <= p.lower && p.upper <= gaps[1..][k].to;
        assert gaps[k + 1] == gaps[1..][k];
      }
      JoinCompatible(first, rest, g);
    }
  }

  lemma JoinCompatible(a: seq<Span>, b: seq<Span>, g: Gap)
    requires AllCompatible(a) && AllCompatible(b)
    requires forall i :: 0 <= i < |a| ==> g.from <= a[i].lower && a[i].upper <= g.to
    requires forall p :: p in b ==> p.upper < g.from || g.to < p.lower
    ensures AllCompatible(a + b)
  {
    var s := a + b;
    forall i, j | 0 <= i < j < |s|
      ensures Compatible(s[i], s[j])
    {
      if i < |a| <= j {
        assert s[j] in b;
      }
    }
  }

  /** Every block asked for ends up in the table, after the rows that were there. */
  lemma {:induction false} InsertAllHas(rows: seq<Row>, pieces: seq<Span>, now: int)
    ensures var r := InsertAll(rows, pieces, now);
      rows <= r && forall p :: p in pieces ==> HasKey(r, p.lower, p.upper)
    decreases |pieces|
  {
    if pieces != [] {
      var p := pieces[0];
      var next := InsertIfAbsent(rows, PlannedRow(p, now));
      InsertAllHas(next, pieces[1..], now);
      var r := InsertAll(rows, pieces, now);
      assert HasKey(next, p.lower, p.upper) by {
        if !HasKey(rows, p.lower, p.upper) {
          assert next[|rows|] == PlannedRow(p, now);
        }
      }
      KeyStays(next, r, p.lower, p.upper);
    }
  }

  lemma KeyStays(rows: seq<Row>, more: seq<Row>, lower: int, upper: int)
    requires rows <= more && HasKey(rows, lower, upper)
    ensures HasKey(more, lower, upper)
  {
    var i :| 0 <= i < |rows| && rows[i].lower == lower && rows[i].upper == upper;
    assert more[i] == rows[i];
  }

  lemma SpanOf(rows: seq<Row>, i: nat)
    requires i < |rows|
    ensures Spans(rows)[i] == Span(rows[i].lower, rows[i].upper)
  {
  }

  /** A block that overlaps a row of other bounds leaves two overlapping rows. */
  lemma MisfitOverlaps(rows: seq<Row>, pieces: seq<Span>, now: int, p: Span)
    requires p in pieces && !Fits(rows, p)
    ensures !Disjoint(Spans(InsertAll(rows, pieces, now)))
  {
    var r := InsertAll(rows, pieces, now);
    InsertAllHas(rows, pieces, now);
    var x :| In(x, p) && Covers(Spans(rows), x);
    var i :| 0 <= i < |rows| && In(x, Spans(rows)[i]);
    var k :| 0 <= k < |r| && r[k].lower == p.lower && r[k].upper == p.upper;
    assert r[i] == rows[i];
    SpanOf(rows, i);
    SpanOf(r, i);
    SpanOf(r, k);
    assert k != i;
  }

  lemma {:induction false} FittingStaysDisjoint(rows: seq<Row>, pieces: seq<Span>, now: int)
    requires Disjoint(Spans(rows)) && AllCompatible(pieces) && NonEmpty(pieces)
    requires forall p :: p in pieces ==> Fits(rows, p)
    ensures Disjoint(Spans(InsertAll(rows, pieces, now)))
    decreases |pieces|
  {
    if pieces != [] {
      var p := pieces[0];
      var next := InsertIfAbsent(rows, PlannedRow(p, now));
      assert Fits(rows, p);
      if !HasKey(rows, p.lower, p.upper) {
        AddFitting(rows, p, now);
      }
      forall q | q in pieces[1..]
        ensures Fits(next, q)
      {
        var j :| 0 <= j < |pieces[1..]| && pieces[1..][j] == q;
        assert pieces[j + 1] == q && Fits(rows, q) && Compatible(p, q);
        StillFits(rows, p, now, q);
      }
      FittingStaysDisjoint(next, pieces[1..], now);
    }
  }

  lemma AddFitting(rows: seq<Row>, p: Span, now: int)
    requires Disjoint(Spans(rows)) && p.lower <= p.upper && !HasKey(rows, p.lower, p.upper) && Fits(rows, p)
    ensures Disjoint(Spans(rows + [PlannedRow(p, now)]))
  {
    var s := Spans(rows);
    assert Spans(rows + [PlannedRow(p, now)]) == s + [p];
    forall i | 0 <= i < |s|
      ensures s[i].upper < p.lower || p.upper < s[i].lower
    {
      assert forall x :: In(x, s[i]) ==> Covers(s, x);
      Apart(s[i], p);
    }
  }

  lemma StillFits(rows: seq<Row>, p: Span, now: int, q: Span)
    requires Fits(rows, q) && Compatible(p, q)
    ensures Fits(InsertIfAbsent(rows, PlannedRow(p, now)), q)
  {
    var next := InsertIfAbsent(rows, PlannedRow(p, now));
    if HasKey(rows, q.lower, q.upper) {
      KeyStays(rows, next, q.lower, q.upper);
    } else if q == p {
      assert next[|rows|] == PlannedRow(p, now);
    } else if next != rows {
      assert Spans(next) == Spans(rows) + [p];
      forall x | In(x, q)
        ensures !Covers(Spans(next), x)
      {
        CoversLast(Spans(rows), p, x);
      }
    }
  }

  /** Two blocks of the list with different bounds and a common id leave two overlapping rows. */
  lemma ClashOverlaps(rows: seq<Row>, pieces: seq<Span>, now: int, i: nat, j: nat)
    requires i < j < |pieces| && !Compatible(pieces[i], pieces[j])
    ensures !Disjoint(Spans(InsertAll(rows, pieces, now)))
  {
    var r := InsertAll(rows, pieces, now);
    InsertAllHas(rows, pieces, now);
    var p, q := pieces[i], pieces[j];
    assert p in pieces && q in pieces;
    var k :| 0 <= k < |r| && r[k].lower == p.lower && r[k].upper == p.upper;
    var l :| 0 <= l < |r| && r[l].lower == q.lower && r[l].upper == q.upper;
    SpanOf(r, k);
    SpanOf(r, l);
    assert k != l;
  }

  /** Planning over any list of gaps, however old and in whatever order, keeps the rows disjoint if and only if
      each block it cuts exists already or touches no covered id, and any two blocks are the same or apart. */
  lemma PlanStaysDisjointIff(rows: seq<Row>, gaps: seq<Gap>, size: int, now: int)
    requires size >= 1 && Disjoint(Spans(rows))
    ensures Disjoint(Spans(PlanAll(rows, gaps, size, now)))
      <==> AllCompatible(AllPieces(gaps, size)) && forall p :: p in AllPieces(gaps, size) ==> Fits(rows, p)
    ensures SeparateGaps(gaps) ==> AllCompatible(AllPieces(gaps, size))
  {
    PlanIsInsert(rows, gaps, size, now);
    AllPiecesNonEmpty(gaps, size);
    var pieces := AllPieces(gaps, size);
    if SeparateGaps(gaps) {
      SeparateGapsAgree(gaps, size);
    }
    if p :| p in pieces && !Fits(rows, p) {
      MisfitOverlaps(rows, pieces, now, p);
    } else if AllCompatible(pieces) {
      FittingStaysDisjoint(rows, pieces, now);
    } else {
      var i, j :| 0 <= i < j < |pieces| && !Compatible(pieces[i], pieces[j]);
      ClashOverlaps(rows, pieces, now, i, j);
    }
  }

  /** A gap list that is planned twice, the second time in larger blocks, makes rows overlap. */
  lemma StaleGapsOverlap()
    ensures var row := (a: int, b: int) => Row(a, b, Completed, 1, None, None, 0);
      var rows := [row(1, 4), row(16, 20)];
      var gaps := CoverageGaps(rows, 20);
      var once := PlanAll(rows, gaps, 5, 0);
      gaps == [Gap(5, 15)] && Disjoint(Spans(once)) && !Disjoint(Spans(PlanAll(once, gaps, 100, 0)))
  {
    var rows := [Row(1, 4, Completed, 1, None, None, 0), Row(16, 20, Completed, 1, None, None, 0)];
    var low, high := Span(1, 4), Span(16, 20);
    assert Spans(rows) == [low, high];
    assert [low, high][1..] == [high] && [high][1..] == [];
    assert OrderByUpper([high]) == [high];
    assert Insert([high], low) == [high] + Insert([high][1..], low);
    assert OrderByUpper([low, high]) == [high, low];
    assert [high, low][1..] == [low];
    var gap := Gap(5, 15);
    assert LagGaps([high, low]) == [gap] + LagGaps([low]);
    assert CoverageGaps(rows, 20) == [gap];
    PlanFillsGaps(rows, 5, 0);
    var once := PlanAll(rows, [gap], 5, 0);
    assert Disjoint(Spans(once));
    StaleBlock(rows, once, gap);
  }

  lemma NoKeyAround(rows: seq<Row>, i: nat, lower: int, upper: int)
    requires Disjoint(Spans(rows)) && i < |rows| && lower < rows[i].lower <= upper
    ensures !HasKey(rows, lower, upper)
  {
    var s := Spans(rows);
    SpanOf(rows, i);
    forall k: nat | k < |rows|
      ensures !(rows[k].lower == lower && rows[k].upper == upper)
    {
      SpanOf(rows, k);
      assert k == i || s[i].upper < s[k].lower || s[k].upper < s[i].lower;
    }
  }

  lemma StaleBlock(rows: seq<Row>, once: seq<Row>, gap: Gap)
    requires gap == Gap(5, 15) && once == PlanAll(rows, [gap], 5, 0) && Disjoint(Spans(once))
    ensures !Disjoint(Spans(PlanAll(once, [gap], 100, 0)))
  {
    assert [gap][1..] == [];
    assert AllPieces([gap], 5) == Pieces(5, 15, 5) + AllPieces([], 5);
    assert Pieces(5, 15, 5)[0] == Span(11, 15);
    assert Span(11, 15) in AllPieces([gap], 5);
    PlanIsInsert(rows, [gap], 5, 0);
    InsertAllHas(rows, AllPieces([gap], 5), 0);
    var i :| 0 <= i < |once| && once[i].lower == 11 && once[i].upper == 15;
    SpanOf(once, i);
    assert In(11, Spans(once)[i]);
    assert Covers(Spans(once), 11);
    assert Pieces(5, 15, 100)[0] == Span(5, 15);
    assert Span(5, 15) in AllPieces([gap], 100);
    NoKeyAround(once, i, 5, 15);
    assert In(11, Span(5, 15));
    PlanStaysDisjointIff(once, [gap], 100, 0);
  }
}
