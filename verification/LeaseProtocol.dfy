/**
 Whole runs of the lease protocol: any number of nodes interleave acquires, splits, renewals,
 finishes, releases, reclaims and crashes, one statement or transaction at a time. A reuse is two
 transactions (mark the row, then split it at the floor), and anything may happen in between.
 */
module LeaseProtocol {
  import opened Wrappers
  import opened Lease

  /** Where the grant of a handle stands. A Held handle may be used any number of times, before
      or after its row moved on; a Returned one gave its token back, but the renewal goroutine may
      go on using its copy. */
  datatype Phase = Splitting | Held | Dropped | Returned

  datatype Grant = Grant(h: Handle, phase: Phase)

  /** `top` is the latest post id seen by the first boot; `grants` lists every grant in order. */
  datatype Sys = Sys(rows: seq<Row>, before: Option<int>, top: int, floor: int, grants: seq<Grant>)

  datatype Action =
    | Boot(latest: int)
    | SetFloor(newFloor: int)
    | Reuse(node: NodeId, row: nat, now: int)
    | Split(grant: nat, now: int)
    | Carve(node: NodeId, rangeSize: int, now: int)
    | Finish(grant: nat, status: Status, now: int)
    | Renew(grant: nat, now: int)
    | Release(grant: nat, now: int)
    | ReclaimOwn(node: NodeId)
    | ReclaimDead(online: set<NodeId>)
    | Crash(grant: nat)

  ghost const START := Sys([], None, 0, 1, [])

  ghost predicate IsHeld(s: Sys, g: nat) {
    g < |s.grants| && s.grants[g].phase == Held
  }

  ghost predicate Enabled(s: Sys, a: Action) {
    match a
    case Boot(_) => true
    case SetFloor(f) => f >= 1 && forall g :: 0 <= g < |s.grants| ==> s.grants[g].phase != Splitting
    case Reuse(_, i, now) => i < |s.rows| && Eligible(s.rows[i], s.floor, now)
    case Split(g, _) => g < |s.grants| && s.grants[g].phase == Splitting && s.grants[g].h.id < |s.rows|
    case Carve(_, size, _) => size >= 1 && s.before.Some? && s.before.value > s.floor
    case Finish(g, status, _) => IsHeld(s, g) && status != Running
    case Renew(g, _) => IsHeld(s, g) || (g < |s.grants| && s.grants[g].phase == Returned)
    case Release(g, _) => IsHeld(s, g)
    case ReclaimOwn(_) => true
    case ReclaimDead(_) => true
    case Crash(g) => g < |s.grants|
  }

  ghost function SetPhase(grants: seq<Grant>, g: nat, p: Phase): seq<Grant>
    requires g < |grants|
  {
    grants[g := grants[g].(phase := p)]
  }

  ghost function ReclaimAll(rows: seq<Row>, lost: Row -> bool): seq<Row> {
    seq(|rows|, i requires 0 <= i < |rows| => Reclaimed(rows[i], lost(rows[i])))
  }

  ghost function DoReuse(s: Sys, node: NodeId, i: nat, now: int): Sys
    requires i < |s.rows|
  {
    var r := s.rows[i];
    var h := Handle(i, r.lower, r.upper, r.attempts + 1, node);
    s.(rows := s.rows[i := Granted(r, node, now)],
       grants := s.grants + [Grant(h, if r.lower < s.floor then Splitting else Held)])
  }

  ghost function DoSplit(s: Sys, g: nat, now: int): Sys
    requires Enabled(s, Split(g, now))
  {
    var h := s.grants[g].h;
    if s.rows[h.id].status == Running then
      s.(rows := SplitRows(s.rows, h, s.floor, now),
         grants := s.grants[g := Grant(h.(lower := s.floor), Held)])
    else
      s.(grants := SetPhase(s.grants, g, Dropped))
  }

  ghost function DoCarve(s: Sys, node: NodeId, size: int, now: int): Sys
    requires Enabled(s, Carve(node, size, now))
  {
    var upper := s.before.value - 1;
    var lower := CarveLower(s.before.value, size, s.floor);
    if HasKey(s.rows, lower, upper) then
      var i :| 0 <= i < |s.rows| && s.rows[i].lower == lower && s.rows[i].upper == upper;
      s.(rows := s.rows[i := Granted(s.rows[i], node, now)], before := Some(lower),
         grants := s.grants + [Grant(Handle(i, lower, upper, s.rows[i].attempts + 1, node), Held)])
    else
      s.(rows := s.rows + [Carved(lower, upper, node, now)], before := Some(lower),
         grants := s.grants + [Grant(Handle(|s.rows|, lower, upper, 1, node), Held)])
  }

  ghost function Apply(s: Sys, a: Action): Sys
    requires Enabled(s, a)
  {
    match a
    case Boot(latest) => if s.before.None? then s.(before := Some(latest), top := latest) else s
    case SetFloor(f) => s.(floor := f)
    case Reuse(node, i, now) => DoReuse(s, node, i, now)
    case Split(g, now) => DoSplit(s, g, now)
    case Carve(node, size, now) => DoCarve(s, node, size, now)
    case Finish(g, status, now) =>
      var h := s.grants[g].h;
      if Holds(s.rows, h) then s.(rows := s.rows[h.id := Finished(s.rows[h.id], status, now)]) else s
    case Renew(g, now) =>
      var h := s.grants[g].h;
      if Holds(s.rows, h) then s.(rows := s.rows[h.id := s.rows[h.id].(leasedAt := Some(now))]) else s
    case Release(g, now) =>
      var h := s.grants[g].h;
      if Holds(s.rows, h) then
        s.(rows := s.rows[h.id := Released(s.rows[h.id], now)], grants := SetPhase(s.grants, g, Returned))
      else s
    case ReclaimOwn(node) => s.(rows := ReclaimAll(s.rows, r => OwnedBy(r, node)))
    case ReclaimDead(online) => s.(rows := ReclaimAll(s.rows, r => Orphaned(r, online)))
    case Crash(g) =>
      if s.grants[g].phase == Returned then s else s.(grants := SetPhase(s.grants, g, Dropped))
  }

  ghost predicate Legal(s: Sys, run: seq<Action>)
    decreases |run|
  {
    run == [] || (Enabled(s, run[0]) && Legal(Apply(s, run[0]), run[1..]))
  }

  ghost function Exec(s: Sys, run: seq<Action>): Sys
    requires Legal(s, run)
    decreases |run|
  {
    if run == [] then s else Exec(Apply(s, run[0]), run[1..])
  }

  /** The states any interleaving can lead to. */
  ghost predicate Reachable(s: Sys) {
    exists run :: Legal(START, run) && Exec(START, run) == s
  }

  // ----- tiling

  ghost predicate Covered(rows: seq<Row>, x: int) {
    exists i :: 0 <= i < |rows| && rows[i].lower <= x <= rows[i].upper
  }

  /** The rows are non-empty, pairwise disjoint, and together exactly [bottom, top). */
  ghost predicate Tiles(rows: seq<Row>, bottom: int, top: int) {
    && (forall i :: 0 <= i < |rows| ==> bottom <= rows[i].lower <= rows[i].upper < top)
    && (forall i, j :: 0 <= i < j < |rows| ==>
          rows[i].upper < rows[j].lower || rows[j].upper < rows[i].lower)
    && (forall x :: bottom <= x < top ==> Covered(rows, x))
  }

  ghost predicate Tiled(s: Sys) {
    if s.before.None? then s.rows == [] else Tiles(s.rows, s.before.value, s.top)
  }

  ghost predicate SameBounds(rows: seq<Row>, rows': seq<Row>) {
    |rows'| == |rows|
    && forall i :: 0 <= i < |rows| ==> rows'[i].lower == rows[i].lower && rows'[i].upper == rows[i].upper
  }

  lemma SameBoundsTiles(rows: seq<Row>, rows': seq<Row>, bottom: int, top: int)
    requires Tiles(rows, bottom, top) && SameBounds(rows, rows')
    ensures Tiles(rows', bottom, top)
  {
    forall x | bottom <= x < top
      ensures Covered(rows', x)
    {
      assert Covered(rows, x);
    }
  }

  lemma CarveTiles(rows: seq<Row>, bottom: int, top: int, r: Row)
    requires Tiles(rows, bottom, top)
    requires r.lower <= r.upper == bottom - 1 && bottom <= top
    ensures !HasKey(rows, r.lower, r.upper)
    ensures Tiles(rows + [r], r.lower, top)
  {
    var rows' := rows + [r];
    forall x | r.lower <= x < top
      ensures Covered(rows', x)
    {
      if x < bottom {
        assert rows'[|rows|] == r;
      } else {
        assert Covered(rows, x);
        var i :| 0 <= i < |rows| && rows[i].lower <= x <= rows[i].upper;
        assert rows'[i] == rows[i];
      }
    }
  }

  /** The row as it is cut in two at `floor`. */
  lemma CutTiles(rows: seq<Row>, bottom: int, top: int, h: Handle, floor: int, now: int)
    requires Tiles(rows, bottom, top) && h.id < |rows|
    requires rows[h.id].lower == h.lower < floor <= rows[h.id].upper
    ensures !HasKey(rows, h.lower, floor - 1)
    ensures Tiles(SplitRows(rows, h, floor, now), bottom, top)
  {
    var below := BelowFloor(h.lower, floor, now);
    assert !HasKey(rows, h.lower, floor - 1);
    var rows' := SplitRows(rows, h, floor, now);
    assert rows' == (rows + [below])[h.id := rows[h.id].(lower := floor)];
    forall x | bottom <= x < top
      ensures Covered(rows', x)
    {
      assert Covered(rows, x);
      var i :| 0 <= i < |rows| && rows[i].lower <= x <= rows[i].upper;
      if i == h.id && x < floor {
        assert rows'[|rows|] == below;
      } else {
        assert rows'[i].lower <= x <= rows'[i].upper;
      }
    }
  }

  /** A cut that was already made by another splitter of the same row changes nothing. */
  lemma CutAgain(rows: seq<Row>, h: Handle, floor: int, now: int)
    requires h.id < |rows| && rows[h.id].lower == floor && HasKey(rows, h.lower, floor - 1)
    ensures SplitRows(rows, h, floor, now) == rows
  {
  }

  /** The unfenced split transaction, on any running row and for any floor inside it, keeps the
      tiling exactly when the row still has the bounds the splitter read, or was already cut at
      this very floor. */
  lemma SplitKeepsTilingIff(rows: seq<Row>, bottom: int, top: int, h: Handle, floor: int, now: int)
    requires Tiles(rows, bottom, top) && h.id < |rows|
    requires bottom <= h.lower <= rows[h.id].lower
    requires h.lower < floor <= rows[h.id].upper
    ensures Tiles(SplitRows(rows, h, floor, now), bottom, top)
      <==> (rows[h.id].lower == h.lower || (rows[h.id].lower == floor && HasKey(rows, h.lower, floor - 1)))
  {
    var rows' := SplitRows(rows, h, floor, now);
    if rows[h.id].lower == h.lower {
      CutTiles(rows, bottom, top, h, floor, now);
    } else if rows[h.id].lower == floor && HasKey(rows, h.lower, floor - 1) {
      CutAgain(rows, h, floor, now);
    } else if HasKey(rows, h.lower, floor - 1) {
      // The key exists, so nothing is inserted; then the floor cannot lie above the row's lower
      // end, and moving that end down to the floor runs into the row already there.
      var k :| 0 <= k < |rows| && rows[k].lower == h.lower && rows[k].upper == floor - 1;
      assert k != h.id;
      assert floor < rows[h.id].lower;
      assert Covered(rows, floor);
      var j :| 0 <= j < |rows| && rows[j].lower <= floor <= rows[j].upper;
      assert j != h.id;
      assert rows'[j] == rows[j] && rows'[h.id].lower == floor;
      assert !Tiles(rows', bottom, top);
    } else {
      // The inserted row overlaps whichever row holds its lower end.
      assert Covered(rows, h.lower);
      var j :| 0 <= j < |rows| && rows[j].lower <= h.lower <= rows[j].upper;
      assert j != h.id;
      assert rows'[j] == rows[j];
      assert rows'[|rows|].lower == h.lower && rows'[|rows|].upper == floor - 1;
      assert !Tiles(rows', bottom, top);
    }
  }

  // ----- the invariant

  ghost predicate Live(g: Grant) {
    g.phase != Returned
  }

  /** Tokens of unreturned handles on one row differ, never exceed the row's, and only the latest
      grant of a running row can carry the row's own token. */
  ghost predicate Fenced(rows: seq<Row>, grants: seq<Grant>) {
    && (forall g :: 0 <= g < |grants| ==>
          && grants[g].h.id < |rows| && grants[g].h.attempts >= 1
          && grants[g].h.upper == rows[grants[g].h.id].upper
          && (Live(grants[g]) ==> grants[g].h.attempts <= rows[grants[g].h.id].attempts))
    && (forall g, k :: 0 <= g < k < |grants| && grants[g].h.id == grants[k].h.id && Live(grants[g]) && Live(grants[k])
          ==> grants[g].h.attempts != grants[k].h.attempts)
    && (forall g, k :: 0 <= g < k < |grants| && grants[g].h.id == grants[k].h.id && Live(grants[g])
          && rows[grants[g].h.id].status == Running
          ==> grants[g].h.attempts < rows[grants[g].h.id].attempts)
  }

  /** A pending split finds its row uncut, or cut at the floor it is about to use. */
  ghost predicate SplitReady(rows: seq<Row>, h: Handle, floor: int) {
    && h.id < |rows|
    && h.lower < floor <= rows[h.id].upper
    && (rows[h.id].lower == h.lower || (rows[h.id].lower == floor && HasKey(rows, h.lower, floor - 1)))
  }

  ghost predicate SplitsReady(s: Sys) {
    forall g :: 0 <= g < |s.grants| && s.grants[g].phase == Splitting ==>
      SplitReady(s.rows, s.grants[g].h, s.floor)
  }

  /** A usable handle speaks of exactly the ids its row covers. */
  ghost predicate HandlesMatch(s: Sys) {
    && (forall g :: 0 <= g < |s.grants| && s.grants[g].phase == Held && Holds(s.rows, s.grants[g].h) ==>
          s.grants[g].h.lower == s.rows[s.grants[g].h.id].lower)
    && (forall p, g :: 0 <= p < g < |s.grants| && s.grants[p].phase == Splitting && s.grants[g].phase == Held
                     && s.grants[p].h.id == s.grants[g].h.id
          ==> s.grants[g].h.lower >= s.floor)
  }

  ghost predicate BudgetKept(rows: seq<Row>) {
    forall i :: 0 <= i < |rows| ==> rows[i].attempts <= MAX_ATTEMPTS
  }

  ghost predicate Inv(s: Sys) {
    && (s.before.Some? ==> s.before.value <= s.top)
    && Tiled(s) && Fenced(s.rows, s.grants) && SplitsReady(s) && HandlesMatch(s) && BudgetKept(s.rows)
  }

  lemma BootKeeps(s: Sys, latest: int)
    requires Inv(s)
    ensures Inv(Apply(s, Boot(latest)))
  {
  }

  lemma SetFloorKeeps(s: Sys, f: int)
    requires Inv(s) && Enabled(s, SetFloor(f))
    ensures Inv(Apply(s, SetFloor(f)))
  {
  }

  /** A grant carries a token above every earlier one of its row. */
  lemma GrantFences(rows: seq<Row>, grants: seq<Grant>, i: nat, node: NodeId, now: int, g: Grant)
    requires Fenced(rows, grants) && i < |rows|
    requires g.h.id == i && g.h.attempts == rows[i].attempts + 1 && g.h.upper == rows[i].upper
    ensures Fenced(rows[i := Granted(rows[i], node, now)], grants + [g])
  {
  }

  lemma CarveFences(rows: seq<Row>, grants: seq<Grant>, r: Row, g: Grant)
    requires Fenced(rows, grants) && r.attempts == 1
    requires g.h.id == |rows| && g.h.attempts == 1 && g.h.upper == r.upper
    ensures Fenced(rows + [r], grants + [g])
  {
  }

  lemma ReuseKeeps(s: Sys, node: NodeId, i: nat, now: int)
    requires Inv(s) && Enabled(s, Reuse(node, i, now))
    ensures Inv(Apply(s, Reuse(node, i, now)))
  {
    var t := Apply(s, Reuse(node, i, now));
    assert SameBounds(s.rows, t.rows);
    assert s.before.Some?;
    SameBoundsTiles(s.rows, t.rows, s.before.value, s.top);
    GrantFences(s.rows, s.grants, i, node, now, t.grants[|s.grants|]);
    forall g | 0 <= g < |t.grants| && t.grants[g].phase == Splitting
      ensures SplitReady(t.rows, t.grants[g].h, t.floor)
    {
      if g < |s.grants| {
        KeyKept(s.rows, t.rows, s.grants[g].h.lower, s.floor - 1);
      }
    }
    assert HandlesMatch(t) by {
      HandlesMatchAfterReuse(s, node, i, now);
    }
  }

  lemma HandlesMatchAfterReuse(s: Sys, node: NodeId, i: nat, now: int)
    requires Fenced(s.rows, s.grants) && HandlesMatch(s) && Enabled(s, Reuse(node, i, now))
    ensures HandlesMatch(Apply(s, Reuse(node, i, now)))
  {
  }

  lemma KeyKept(rows: seq<Row>, rows': seq<Row>, lower: int, upper: int)
    requires SameBounds(rows, rows')
    ensures HasKey(rows, lower, upper) ==> HasKey(rows', lower, upper)
  {
    if HasKey(rows, lower, upper) {
      var i :| 0 <= i < |rows| && rows[i].lower == lower && rows[i].upper == upper;
      assert rows'[i].lower == lower && rows'[i].upper == upper;
    }
  }

  /** Fencing looks at tokens, upper ends and which rows run, and at nothing else. */
  lemma FencesCarryOver(rows: seq<Row>, grants: seq<Grant>, rows': seq<Row>, grants': seq<Grant>)
    requires Fenced(rows, grants) && |rows| <= |rows'| && |grants'| == |grants|
    requires forall i :: 0 <= i < |rows| ==>
      && rows'[i].attempts == rows[i].attempts && rows'[i].upper == rows[i].upper
      && (rows'[i].status == Running ==> rows[i].status == Running)
    requires forall g :: 0 <= g < |grants| ==>
      && grants'[g].h.id == grants[g].h.id && grants'[g].h.attempts == grants[g].h.attempts
      && grants'[g].h.upper == grants[g].h.upper && Live(grants'[g]) == Live(grants[g])
    ensures Fenced(rows', grants')
  {
  }

  lemma DropKeeps(s: Sys, g: nat)
    requires Inv(s) && g < |s.grants| && Live(s.grants[g])
    ensures Inv(s.(grants := SetPhase(s.grants, g, Dropped)))
  {
    FencesCarryOver(s.rows, s.grants, s.rows, SetPhase(s.grants, g, Dropped));
    hide Fenced, Tiles;
  }

  lemma SplitKeeps(s: Sys, g: nat, now: int)
    requires Inv(s) && Enabled(s, Split(g, now))
    ensures Inv(Apply(s, Split(g, now)))
  {
    var h := s.grants[g].h;
    if s.rows[h.id].status != Running {
      DropKeeps(s, g);
    } else if s.rows[h.id].lower == h.lower {
      assert SplitReady(s.rows, h, s.floor);
      CutTiles(s.rows, s.before.value, s.top, h, s.floor, now);
      FirstCutKeeps(s, g, now);
    } else {
      assert SplitReady(s.rows, h, s.floor);
      SecondCutKeeps(s, g, now);
    }
  }

  lemma SecondCutKeeps(s: Sys, g: nat, now: int)
    requires Inv(s) && Enabled(s, Split(g, now))
    requires var h := s.grants[g].h;
      s.rows[h.id].lower == s.floor && HasKey(s.rows, h.lower, s.floor - 1)
    ensures Inv(Apply(s, Split(g, now)))
  {
    var h := s.grants[g].h;
    CutAgain(s.rows, h, s.floor, now);
    HandOver(s, g);
    hide Inv;
  }

  /** A splitter whose row starts at the floor becomes an ordinary holder. */
  lemma HandOver(s: Sys, g: nat)
    requires Inv(s) && g < |s.grants| && s.grants[g].phase == Splitting
    requires s.rows[s.grants[g].h.id].lower == s.floor
    ensures Inv(s.(grants := s.grants[g := Grant(s.grants[g].h.(lower := s.floor), Held)]))
  {
    var t := s.(grants := s.grants[g := Grant(s.grants[g].h.(lower := s.floor), Held)]);
    FencesCarryOver(s.rows, s.grants, t.rows, t.grants);
    hide Fenced, Tiles;
    assert SplitsReady(t);
    assert HandlesMatch(t);
  }

  lemma FirstCutReady(s: Sys, t: Sys, g: nat, now: int)
    requires s.before.Some? && Tiles(s.rows, s.before.value, s.top) && SplitsReady(s)
    requires Enabled(s, Split(g, now)) && t == Apply(s, Split(g, now))
    requires var r := s.rows[s.grants[g].h.id];
      r.status == Running && r.lower == s.grants[g].h.lower && s.floor <= r.upper
    requires !HasKey(s.rows, s.grants[g].h.lower, s.floor - 1)
    ensures SplitsReady(t)
  {
    var h := s.grants[g].h;
    assert SplitReady(s.rows, h, s.floor);
    assert t.rows[|s.rows|] == BelowFloor(h.lower, s.floor, now);
    assert HasKey(t.rows, h.lower, t.floor - 1);
    forall p | 0 <= p < |t.grants| && t.grants[p].phase == Splitting
      ensures SplitReady(t.rows, t.grants[p].h, t.floor)
    {
      var q := s.grants[p].h;
      assert SplitReady(s.rows, q, s.floor);
      // Only one row can reach across the floor.
      assert q.id == h.id && q.lower == h.lower;
    }
  }

  lemma FirstCutKeeps(s: Sys, g: nat, now: int)
    requires Inv(s) && Enabled(s, Split(g, now)) && s.before.Some?
    requires var r := s.rows[s.grants[g].h.id];
      r.status == Running && r.lower == s.grants[g].h.lower && s.floor <= r.upper
    requires !HasKey(s.rows, s.grants[g].h.lower, s.floor - 1)
    ensures var t := Apply(s, Split(g, now));
      Fenced(t.rows, t.grants) && SplitsReady(t) && HandlesMatch(t) && BudgetKept(t.rows)
  {
    var t := Apply(s, Split(g, now));
    FirstCutReady(s, t, g, now);
    FencesCarryOver(s.rows, s.grants, t.rows, t.grants);
    hide Tiles, SplitReady, SplitsReady;
    assert HandlesMatch(t);
  }

  lemma CarveKeeps(s: Sys, node: NodeId, size: int, now: int)
    requires Inv(s) && Enabled(s, Carve(node, size, now))
    ensures Inv(Apply(s, Carve(node, size, now)))
    ensures !HasKey(s.rows, CarveLower(s.before.value, size, s.floor), s.before.value - 1)
  {
    var lower := CarveLower(s.before.value, size, s.floor);
    var r := Carved(lower, s.before.value - 1, node, now);
    CarveTiles(s.rows, s.before.value, s.top, r);
    var t := Apply(s, Carve(node, size, now));
    assert t.rows == s.rows + [r];
    CarveFences(s.rows, s.grants, r, t.grants[|s.grants|]);
    CarveKeepsHandles(s, t, r);
  }

  lemma CarveKeepsHandles(s: Sys, t: Sys, r: Row)
    requires Fenced(s.rows, s.grants) && SplitsReady(s) && HandlesMatch(s)
    requires t.rows == s.rows + [r] && t.floor == s.floor && t.floor <= r.lower
    requires exists g :: t.grants == s.grants + [g] && g.phase == Held && g.h.id == |s.rows| && g.h.lower == r.lower
    ensures SplitsReady(t) && HandlesMatch(t)
  {
    forall p | 0 <= p < |t.grants| && t.grants[p].phase == Splitting
      ensures SplitReady(t.rows, t.grants[p].h, t.floor)
    {
      var q := s.grants[p].h;
      assert SplitReady(s.rows, q, s.floor);
      if s.rows[q.id].lower != q.lower {
        var i :| 0 <= i < |s.rows| && s.rows[i].lower == q.lower && s.rows[i].upper == s.floor - 1;
        assert t.rows[i] == s.rows[i];
      }
    }
  }

  /** Finishes, renewals, releases and reclaims touch neither bounds nor, except for the one
      release, tokens; none of them starts a row running. */
  ghost predicate Quiet(rows: seq<Row>, rows': seq<Row>) {
    && SameBounds(rows, rows')
    && forall i :: 0 <= i < |rows| ==>
        && rows'[i].attempts == rows[i].attempts
        && (rows'[i].status == Running ==> rows[i].status == Running && rows'[i].node == rows[i].node)
  }

  lemma QuietKeeps(s: Sys, rows': seq<Row>)
    requires Inv(s) && Quiet(s.rows, rows')
    ensures Inv(s.(rows := rows'))
  {
    if s.before.Some? {
      SameBoundsTiles(s.rows, rows', s.before.value, s.top);
    }
    forall g | 0 <= g < |s.grants| && s.grants[g].phase == Splitting
      ensures SplitReady(rows', s.grants[g].h, s.floor)
    {
      KeyKept(s.rows, rows', s.grants[g].h.lower, s.floor - 1);
    }
  }

  lemma ReclaimKeeps(s: Sys, lost: Row -> bool)
    requires Inv(s)
    ensures Inv(s.(rows := ReclaimAll(s.rows, lost)))
  {
    var rows' := ReclaimAll(s.rows, lost);
    assert forall i :: 0 <= i < |s.rows| ==> rows'[i] == Reclaimed(s.rows[i], lost(s.rows[i]));
    QuietKeeps(s, rows');
  }

  lemma ReleaseFences(rows: seq<Row>, grants: seq<Grant>, g: nat, now: int)
    requires Fenced(rows, grants) && g < |grants| && grants[g].phase == Held && Holds(rows, grants[g].h)
    ensures Fenced(rows[grants[g].h.id := Released(rows[grants[g].h.id], now)], SetPhase(grants, g, Returned))
  {
    var i := grants[g].h.id;
    var rows' := rows[i := Released(rows[i], now)];
    var grants' := SetPhase(grants, g, Returned);
    forall k | 0 <= k < |grants'| && Live(grants'[k])
      ensures grants'[k].h.attempts <= rows'[grants'[k].h.id].attempts
    {
      if grants[k].h.id == i {
        assert k != g && Live(grants[k]) && Live(grants[g]);
        assert k < g || g < k;
      }
    }
  }

  lemma ReleaseKeeps(s: Sys, g: nat, now: int)
    requires Inv(s) && Enabled(s, Release(g, now))
    ensures Inv(Apply(s, Release(g, now)))
  {
    var h := s.grants[g].h;
    if Holds(s.rows, h) {
      var t := Apply(s, Release(g, now));
      ReleaseFences(s.rows, s.grants, g, now);
      hide Fenced, Tiles;
      assert SameBounds(s.rows, t.rows);
      SameBoundsTiles(s.rows, t.rows, s.before.value, s.top);
      forall p | 0 <= p < |t.grants| && t.grants[p].phase == Splitting
        ensures SplitReady(t.rows, t.grants[p].h, t.floor)
      {
        assert s.grants[p].phase == Splitting && SplitReady(s.rows, s.grants[p].h, s.floor);
        KeyKept(s.rows, t.rows, s.grants[p].h.lower, s.floor - 1);
      }
    }
  }

  lemma StartInv()
    ensures Inv(START) && RunningOwned(START)
  {
  }

  lemma StepKeeps(s: Sys, a: Action)
    requires Inv(s) && Enabled(s, a)
    ensures Inv(Apply(s, a))
  {
    match a
    case Boot(latest) => BootKeeps(s, latest);
    case SetFloor(f) => SetFloorKeeps(s, f);
    case Reuse(node, i, now) => ReuseKeeps(s, node, i, now);
    case Split(g, now) => SplitKeeps(s, g, now);
    case Carve(node, size, now) => CarveKeeps(s, node, size, now);
    case Finish(g, status, now) => QuietKeeps(s, Apply(s, a).rows);
    case Renew(g, now) => QuietKeeps(s, Apply(s, a).rows);
    case Release(g, now) => ReleaseKeeps(s, g, now);
    case ReclaimOwn(node) => ReclaimKeeps(s, r => OwnedBy(r, node));
    case ReclaimDead(online) => ReclaimKeeps(s, r => Orphaned(r, online));
    case Crash(g) => if Live(s.grants[g]) { DropKeeps(s, g); }
  }

  // ----- who holds a running row

  ghost predicate Owner(rows: seq<Row>, grants: seq<Grant>, i: nat, k: nat)
    requires i < |rows|
  {
    && k < |grants| && Live(grants[k]) && grants[k].h.id == i
    && grants[k].h.attempts == rows[i].attempts && rows[i].node == Some(grants[k].h.node)
  }

  ghost predicate RunningOwned(s: Sys) {
    forall i :: 0 <= i < |s.rows| && s.rows[i].status == Running ==> exists k :: Owner(s.rows, s.grants, i, k)
  }

  lemma StepKeepsOwners(s: Sys, a: Action)
    requires Inv(s) && RunningOwned(s) && Enabled(s, a)
    ensures RunningOwned(Apply(s, a))
  {
    if a.Carve? {
      CarveKeeps(s, a.node, a.rangeSize, a.now);
    }
    if a.Reuse? || a.Carve? {
      GrantKeepsOwners(s, a);
    } else {
      OtherStepKeepsOwners(s, a);
    }
  }

  lemma GrantKeepsOwners(s: Sys, a: Action)
    requires Fenced(s.rows, s.grants) && RunningOwned(s) && Enabled(s, a) && (a.Reuse? || a.Carve?)
    requires a.Carve? ==> !HasKey(s.rows, CarveLower(s.before.value, a.rangeSize, s.floor), s.before.value - 1)
    ensures RunningOwned(Apply(s, a))
  {
    var t := Apply(s, a);
    var n := |s.grants|;
    forall i | 0 <= i < |t.rows| && t.rows[i].status == Running
      ensures exists k :: Owner(t.rows, t.grants, i, k)
    {
      if t.grants[n].h.id == i {
        assert Owner(t.rows, t.grants, i, n);
      } else {
        var k :| Owner(s.rows, s.grants, i, k);
        assert Owner(t.rows, t.grants, i, k);
      }
    }
  }

  /** A row that still runs ran before under the same token and node. */
  ghost predicate NoneStarted(rows: seq<Row>, rows': seq<Row>) {
    forall i :: 0 <= i < |rows'| && rows'[i].status == Running ==>
      && i < |rows| && rows[i].status == Running
      && rows'[i].attempts == rows[i].attempts && rows'[i].node == rows[i].node
  }

  ghost predicate SameTokens(grants: seq<Grant>, grants': seq<Grant>) {
    && |grants'| == |grants|
    && forall g :: 0 <= g < |grants| ==>
        && grants'[g].h.id == grants[g].h.id && grants'[g].h.attempts == grants[g].h.attempts
        && grants'[g].h.node == grants[g].h.node
  }

  lemma OwnersStay(s: Sys, t: Sys)
    requires RunningOwned(s) && NoneStarted(s.rows, t.rows) && SameTokens(s.grants, t.grants)
    requires forall g :: 0 <= g < |s.grants| && Live(s.grants[g]) && !Live(t.grants[g]) ==>
      s.grants[g].h.id < |t.rows| && t.rows[s.grants[g].h.id].status != Running
    ensures RunningOwned(t)
  {
    forall i | 0 <= i < |t.rows| && t.rows[i].status == Running
      ensures exists k :: Owner(t.rows, t.grants, i, k)
    {
      var k :| Owner(s.rows, s.grants, i, k);
      assert Owner(t.rows, t.grants, i, k);
    }
  }

  lemma ReclaimStartsNone(rows: seq<Row>, lost: Row -> bool)
    ensures NoneStarted(rows, ReclaimAll(rows, lost))
  {
    var rows' := ReclaimAll(rows, lost);
    assert forall i :: 0 <= i < |rows| ==> rows'[i] == Reclaimed(rows[i], lost(rows[i]));
  }

  lemma OtherStepKeepsOwners(s: Sys, a: Action)
    requires RunningOwned(s) && Enabled(s, a) && !a.Reuse? && !a.Carve?
    requires a.Release? ==> s.grants[a.grant].h.id < |s.rows|
    ensures RunningOwned(Apply(s, a))
  {
    var t := Apply(s, a);
    match a
    case ReclaimOwn(node) => ReclaimStartsNone(s.rows, r => OwnedBy(r, node)); OwnersStay(s, t);
    case ReclaimDead(online) => ReclaimStartsNone(s.rows, r => Orphaned(r, online)); OwnersStay(s, t);
    case Boot(_) => OwnersStay(s, t);
    case SetFloor(_) => OwnersStay(s, t);
    case Split(_, _) => OwnersStay(s, t);
    case Finish(_, _, _) => OwnersStay(s, t);
    case Renew(_, _) => OwnersStay(s, t);
    case Release(_, _) => OwnersStay(s, t);
    case Crash(_) => OwnersStay(s, t);
  }

  lemma {:induction false} RunKeepsOwners(s: Sys, run: seq<Action>)
    requires Inv(s) && RunningOwned(s) && Legal(s, run)
    ensures Inv(Exec(s, run)) && RunningOwned(Exec(s, run))
    decreases |run|
  {
    if run != [] {
      StepKeeps(s, run[0]);
      StepKeepsOwners(s, run[0]);
      RunKeepsOwners(Apply(s, run[0]), run[1..]);
    }
  }

  lemma ReachableKeeps(s: Sys)
    requires Reachable(s)
    ensures Inv(s) && RunningOwned(s)
  {
    hide Inv, RunningOwned;
    var run :| Legal(START, run) && Exec(START, run) == s;
    StartInv();
    RunKeepsOwners(START, run);
  }

  // ----- main results over whole runs

  /** In every reachable state the rows are exactly [frontier, first boot's latest), each id once,
      and the next carve cannot hit an existing row. */
  lemma RowsTileTheHistory(s: Sys)
    requires Reachable(s)
    ensures s.before.None? ==> s.rows == []
    ensures s.before.Some? ==> s.before.value <= s.top && Tiles(s.rows, s.before.value, s.top)
    ensures forall node, size, now :: Enabled(s, Carve(node, size, now)) ==>
      !HasKey(s.rows, CarveLower(s.before.value, size, s.floor), s.before.value - 1)
  {
    ReachableKeeps(s);
    forall node, size, now | Enabled(s, Carve(node, size, now))
      ensures !HasKey(s.rows, CarveLower(s.before.value, size, s.floor), s.before.value - 1)
    {
      CarveKeeps(s, node, size, now);
    }
  }

  /** Tokens fence: unreturned handles of one row carry different tokens, none above the row's,
      and the guard of finish, renew and release lets only the latest grant through. A handle that
      gets through covers exactly the row's ids. */
  lemma TokensFence(s: Sys, g: nat, k: nat)
    requires Reachable(s) && g < |s.grants| && k < |s.grants| && Live(s.grants[g])
    ensures var h := s.grants[g].h;
      && h.id < |s.rows| && h.attempts <= s.rows[h.id].attempts
      && (g != k && s.grants[k].h.id == h.id && Live(s.grants[k]) ==> h.attempts != s.grants[k].h.attempts)
      && (s.grants[k].h.id == h.id && Holds(s.rows, h) ==> k <= g)
      && (Holds(s.rows, h) && s.grants[g].phase == Held ==>
            h.lower == s.rows[h.id].lower && h.upper == s.rows[h.id].upper)
  {
    ReachableKeeps(s);
  }

  ghost predicate LatestOf(grants: seq<Grant>, k: nat) {
    k < |grants| && forall j :: k < j < |grants| ==> grants[j].h.id != grants[k].h.id
  }

  /** Giving a token back lets it be issued again. A copy of a returned handle, such as the one the
      renewal goroutine keeps while the worker sleeps after a release, passes the guard exactly when
      the row is running and its latest grant, given after this one and not returned, went to the same
      node under the same token. */
  lemma ReturnedCopyActsIff(s: Sys, g: nat)
    requires Reachable(s) && g < |s.grants| && s.grants[g].phase == Returned
    ensures var h := s.grants[g].h;
      Holds(s.rows, h) <==>
        && h.id < |s.rows| && s.rows[h.id].status == Running
        && exists k :: g < k < |s.grants| && Live(s.grants[k]) && LatestOf(s.grants, k)
            && s.grants[k].h.id == h.id && s.grants[k].h.attempts == h.attempts && s.grants[k].h.node == h.node
  {
    ReachableKeeps(s);
    var h := s.grants[g].h;
    if Holds(s.rows, h) {
      var k: nat :| Owner(s.rows, s.grants, h.id, k);
      LatestOwns(s.rows, s.grants, h.id, k);
      assert g < k;
    } else if h.id < |s.rows| && s.rows[h.id].status == Running {
      var k: nat :| Owner(s.rows, s.grants, h.id, k);
      LatestOwns(s.rows, s.grants, h.id, k);
      forall j | 0 <= j < |s.grants| && LatestOf(s.grants, j) && s.grants[j].h.id == h.id
        ensures j == k
      {
        assert !(j < k) && !(k < j);
      }
    }
  }

  lemma LatestOwns(rows: seq<Row>, grants: seq<Grant>, i: nat, k: nat)
    requires Fenced(rows, grants) && i < |rows| && rows[i].status == Running && Owner(rows, grants, i, k)
    ensures LatestOf(grants, k)
  {
  }

  lemma ReturnedCopyCanAct() returns (s: Sys)
    ensures Reachable(s)
    ensures |s.grants| == 2 && s.grants[0].phase == Returned && Holds(s.rows, s.grants[0].h)
    ensures Enabled(s, Renew(0, 99)) && |s.rows| == 1 && Apply(s, Renew(0, 99)).rows[0].leasedAt == Some(99)
  {
    var a, b, c, d := Boot(10), Carve(7, 5, 0), Release(0, 0), Reuse(7, 0, 0);
    var s1 := Apply(START, a);
    var s2 := Apply(s1, b);
    var s3 := Apply(s2, c);
    var s4 := Apply(s3, d);
    s := s4;
    var run := [a, b, c, d];
    assert run[1..] == [b, c, d] && run[1..][1..] == [c, d] && run[1..][1..][1..] == [d];
    assert Legal(s4, []) && Legal(s3, [d]) && Legal(s2, [c, d]) && Legal(s1, [b, c, d]);
    assert Exec(s3, [d]) == s4;
    assert Exec(s2, [c, d]) == s4;
    assert Exec(s1, [b, c, d]) == s4;
    assert Legal(START, run) && Exec(START, run) == s4;
  }

  /** Two nodes that hold different floors at once break the tiling: the first marks the row and
      stalls past the lease, the second takes it over and cuts it, then the first cuts it again. */
  lemma TwoFloorsOverlap()
    ensures var rows := [Row(901, 1000, Failed, 0, None, None, 0)];
      var a := Handle(0, 901, 1000, 1, 1); var b := Handle(0, 901, 1000, 2, 2);
      var marked := [Granted(rows[0], 1, 0)]; var retaken := [Granted(marked[0], 2, 100)];
      && Tiles(rows, 901, 1001)
      && Eligible(rows[0], 950, 0) && Eligible(marked[0], 960, 100)
      && Tiles(SplitRows(retaken, b, 960, 100), 901, 1001)
      && !Tiles(SplitRows(SplitRows(retaken, b, 960, 100), a, 950, 100), 901, 1001)
  {
    var rows := [Row(901, 1000, Failed, 0, None, None, 0)];
    var a, b := Handle(0, 901, 1000, 1, 1), Handle(0, 901, 1000, 2, 2);
    var retaken := [Granted(Granted(rows[0], 1, 0), 2, 100)];
    forall x | 901 <= x < 1001
      ensures Covered(rows, x)
    {
      assert rows[0].lower <= x <= rows[0].upper;
    }
    SameBoundsTiles(rows, retaken, 901, 1001);
    SplitKeepsTilingIff(retaken, 901, 1001, b, 960, 100);
    SplitKeepsTilingIff(SplitRows(retaken, b, 960, 100), 901, 1001, a, 950, 100);
  }

  // ----- the attempt budget

  function Slack(r: Row, floor: int): int {
    if r.upper >= floor then MAX_ATTEMPTS - r.attempts else 0
  }

  function TotalSlack(rows: seq<Row>, floor: int): int {
    if rows == [] then 0 else TotalSlack(rows[..|rows| - 1], floor) + Slack(rows[|rows| - 1], floor)
  }

  /** Grants that can still happen above the floor before everything there is done or exhausted. */
  ghost function Potential(s: Sys): int {
    TotalSlack(s.rows, s.floor)
    + if s.before.Some? then MAX_ATTEMPTS * Max(s.before.value - s.floor, 0) else 0
  }

  lemma {:induction false} SlackUpdate(rows: seq<Row>, i: nat, r: Row, floor: int)
    requires i < |rows|
    ensures TotalSlack(rows[i := r], floor) == TotalSlack(rows, floor) - Slack(rows[i], floor) + Slack(r, floor)
    decreases |rows|
  {
    var n := |rows| - 1;
    if i < n {
      assert rows[i := r][..n] == rows[..n][i := r];
      SlackUpdate(rows[..n], i, r, floor);
    } else {
      assert rows[i := r][..n] == rows[..n];
    }
  }

  lemma SlackAppend(rows: seq<Row>, r: Row, floor: int)
    ensures TotalSlack(rows + [r], floor) == TotalSlack(rows, floor) + Slack(r, floor)
  {
    assert (rows + [r])[..|rows|] == rows;
  }

  lemma {:induction false} SlackSame(rows: seq<Row>, rows': seq<Row>, floor: int)
    requires Quiet(rows, rows')
    ensures TotalSlack(rows', floor) == TotalSlack(rows, floor)
    decreases |rows|
  {
    if rows != [] {
      var n := |rows| - 1;
      SlackSame(rows[..n], rows'[..n], floor);
    }
  }

  lemma {:induction false} SlackNonNegative(rows: seq<Row>, floor: int)
    requires BudgetKept(rows)
    ensures TotalSlack(rows, floor) >= 0
    decreases |rows|
  {
    if rows != [] {
      SlackNonNegative(rows[..|rows| - 1], floor);
    }
  }

  /** +1 for a grant, -1 for a release that took effect. */
  ghost function Cost(s: Sys, a: Action): int
    requires Enabled(s, a)
  {
    if a.Reuse? || a.Carve? then 1
    else if a.Release? && Holds(s.rows, s.grants[a.grant].h) then -1
    else 0
  }

  ghost function TotalCost(s: Sys, run: seq<Action>): int
    requires Legal(s, run)
    decreases |run|
  {
    if run == [] then 0 else Cost(s, run[0]) + TotalCost(Apply(s, run[0]), run[1..])
  }

  /** Grants whose handle has not been given back. */
  function LiveCount(grants: seq<Grant>): nat {
    if grants == [] then 0
    else LiveCount(grants[..|grants| - 1]) + if grants[|grants| - 1].phase == Returned then 0 else 1
  }

  lemma {:induction false} LiveUpdate(grants: seq<Grant>, g: nat, to: Grant)
    requires g < |grants|
    ensures LiveCount(grants[g := to])
      == LiveCount(grants) - (if grants[g].phase == Returned then 0 else 1) + (if to.phase == Returned then 0 else 1)
    decreases |grants|
  {
    var n := |grants| - 1;
    if g < n {
      LiveUpdate(grants[..n], g, to);
      assert grants[g := to][..n] == grants[..n][g := to];
    } else {
      assert grants[g := to][..n] == grants[..n];
    }
  }

  lemma LiveAppend(grants: seq<Grant>, to: Grant)
    ensures LiveCount(grants + [to]) == LiveCount(grants) + if to.phase == Returned then 0 else 1
  {
    assert (grants + [to])[..|grants|] == grants;
  }

  lemma CostIsLive(s: Sys, a: Action)
    requires Enabled(s, a)
    ensures LiveCount(Apply(s, a).grants) == LiveCount(s.grants) + Cost(s, a)
  {
    var t := Apply(s, a);
    match a
    case Reuse(_, _, _) => LiveAppend(s.grants, t.grants[|s.grants|]);
    case Carve(_, _, _) => LiveAppend(s.grants, t.grants[|s.grants|]);
    case Split(g, _) => LiveUpdate(s.grants, g, t.grants[g]);
    case Release(g, _) => LiveUpdate(s.grants, g, s.grants[g].(phase := Returned));
    case Crash(g) => LiveUpdate(s.grants, g, s.grants[g].(phase := Dropped));
    case _ =>
  }

  lemma {:induction false} TotalIsLive(s: Sys, run: seq<Action>)
    requires Legal(s, run)
    ensures LiveCount(Exec(s, run).grants) == LiveCount(s.grants) + TotalCost(s, run)
    decreases |run|
  {
    hide Apply, Enabled, LiveCount;
    if run != [] {
      CostIsLive(s, run[0]);
      TotalIsLive(Apply(s, run[0]), run[1..]);
    }
  }

  lemma {:induction false} SlackAtMost(rows: seq<Row>, floor: int)
    ensures TotalSlack(rows, floor) <= 5 * |rows|
    decreases |rows|
  {
    if rows != [] {
      SlackAtMost(rows[..|rows| - 1], floor);
    }
  }

  /** What a step may do to the potential. */
  ghost predicate Pays(s: Sys, a: Action)
    requires Enabled(s, a)
  {
    && Potential(Apply(s, a)) + Cost(s, a) <= Potential(s)
    && Apply(s, a).before.Some? && Apply(s, a).floor == s.floor
  }

  lemma StepCost(s: Sys, a: Action)
    requires Inv(s) && Enabled(s, a) && s.before.Some? && !a.SetFloor?
    ensures Pays(s, a)
  {
    hide Inv, Pays;
    match a
    case Boot(_) => IdleCost(s, a);
    case Reuse(node, i, now) => ReuseCost(s, node, i, now);
    case Split(g, now) => IdleCost(s, a);
    case Carve(node, size, now) => CarveCost(s, node, size, now);
    case Finish(_, _, _) => IdleCost(s, a);
    case Renew(_, _) => IdleCost(s, a);
    case Release(g, now) => ReleaseCost(s, g, now);
    case ReclaimOwn(_) => IdleCost(s, a);
    case ReclaimDead(_) => IdleCost(s, a);
    case Crash(_) => IdleCost(s, a);
  }

  lemma ReuseCost(s: Sys, node: NodeId, i: nat, now: int)
    requires Enabled(s, Reuse(node, i, now)) && s.before.Some?
    ensures Pays(s, Reuse(node, i, now))
  {
    SlackUpdate(s.rows, i, Apply(s, Reuse(node, i, now)).rows[i], s.floor);
  }

  lemma CarveCost(s: Sys, node: NodeId, size: int, now: int)
    requires Inv(s) && Enabled(s, Carve(node, size, now))
    ensures Pays(s, Carve(node, size, now))
  {
    hide Inv;
    CarveKeeps(s, node, size, now);
    NewBlockCost(s, node, size, now);
  }

  lemma NewBlockCost(s: Sys, node: NodeId, size: int, now: int)
    requires Enabled(s, Carve(node, size, now))
    requires !HasKey(s.rows, CarveLower(s.before.value, size, s.floor), s.before.value - 1)
    ensures Pays(s, Carve(node, size, now))
  {
    var lower := CarveLower(s.before.value, size, s.floor);
    var r := Carved(lower, s.before.value - 1, node, now);
    hide HasKey;
    assert Apply(s, Carve(node, size, now)).rows == s.rows + [r];
    SlackAppend(s.rows, r, s.floor);
    hide TotalSlack;
    assert Slack(r, s.floor) == MAX_ATTEMPTS - 1;
    assert lower < s.before.value;
  }

  lemma ReleaseCost(s: Sys, g: nat, now: int)
    requires Enabled(s, Release(g, now)) && s.before.Some?
    ensures Pays(s, Release(g, now))
  {
    var h := s.grants[g].h;
    if Holds(s.rows, h) {
      SlackUpdate(s.rows, h.id, Apply(s, Release(g, now)).rows[h.id], s.floor);
    }
  }

  /** The steps that neither grant nor release leave the total slack alone. */
  lemma IdleCost(s: Sys, a: Action)
    requires Inv(s) && Enabled(s, a) && s.before.Some?
    requires !a.SetFloor? && !a.Reuse? && !a.Carve? && !a.Release?
    ensures Pays(s, a)
  {
    hide Inv;
    match a
    case Boot(_) =>
    case Split(g, now) => SplitCost(s, g, now);
    case Finish(g, _, _) => SlackSame(s.rows, Apply(s, a).rows, s.floor);
    case Renew(g, _) => SlackSame(s.rows, Apply(s, a).rows, s.floor);
    case ReclaimOwn(node) => ReclaimCost(s, r => OwnedBy(r, node));
    case ReclaimDead(online) => ReclaimCost(s, r => Orphaned(r, online));
    case Crash(_) =>
  }

  lemma ReclaimCost(s: Sys, lost: Row -> bool)
    ensures TotalSlack(ReclaimAll(s.rows, lost), s.floor) == TotalSlack(s.rows, s.floor)
  {
    var rows' := ReclaimAll(s.rows, lost);
    assert forall i :: 0 <= i < |s.rows| ==> rows'[i] == Reclaimed(s.rows[i], lost(s.rows[i]));
    SlackSame(s.rows, rows', s.floor);
  }

  lemma SplitCost(s: Sys, g: nat, now: int)
    requires Inv(s) && Enabled(s, Split(g, now))
    ensures TotalSlack(Apply(s, Split(g, now)).rows, s.floor) == TotalSlack(s.rows, s.floor)
  {
    var h := s.grants[g].h;
    if s.rows[h.id].status == Running {
      var below := BelowFloor(h.lower, s.floor, now);
      var kept := InsertIfAbsent(s.rows, below);
      SlackAppend(s.rows, below, s.floor);
      SlackUpdate(kept, h.id, kept[h.id].(lower := s.floor), s.floor);
    }
  }

  lemma {:induction false} RunCost(s: Sys, run: seq<Action>)
    requires Inv(s) && Legal(s, run) && s.before.Some? && forall a :: a in run ==> !a.SetFloor?
    ensures TotalCost(s, run) + Potential(Exec(s, run)) <= Potential(s)
    ensures Inv(Exec(s, run))
    decreases |run|
  {
    if run != [] {
      StepKeeps(s, run[0]);
      StepCost(s, run[0]);
      hide Inv;
      RunCost(Apply(s, run[0]), run[1..]);
    }
  }

  /** Backfill under one floor ends: from any reachable state, grants less effective releases stay
      within five per id still uncarved above the floor plus what the rows reaching it have left;
      no row is ever granted a sixth time. */
  lemma BackfillTerminates(s: Sys, more: seq<Action>)
    requires Reachable(s) && Legal(s, more)
    requires s.before.Some? && forall a :: a in more ==> !a.SetFloor?
    ensures TotalCost(s, more) <= TotalSlack(s.rows, s.floor) + MAX_ATTEMPTS * Max(s.before.value - s.floor, 0)
    ensures LiveCount(Exec(s, more).grants) - LiveCount(s.grants)
      <= 5 * |s.rows| + 5 * Max(s.before.value - s.floor, 0)
    ensures forall i :: 0 <= i < |Exec(s, more).rows| ==> Exec(s, more).rows[i].attempts <= 5
  {
    hide Inv, RunningOwned, Apply, Enabled, Legal, Exec, LiveCount, TotalSlack, TotalCost;
    TotalIsLive(s, more);
    SlackAtMost(s.rows, s.floor);
    ReachableKeeps(s);
    RunCost(s, more);
    InvHasBudget(Exec(s, more));
    SlackNonNegative(Exec(s, more).rows, Exec(s, more).floor);
  }

  lemma InvHasBudget(s: Sys)
    requires Inv(s)
    ensures BudgetKept(s.rows)
  {
  }

  // ----- leases that are kept up

  /** The step comes within 30 minutes of the row's last lease or renewal, if it is an acquisition; it neither
      reports the row back nor declares its node gone. */
  ghost predicate LeavesAlone(s: Sys, a: Action, i: nat, node: NodeId)
    requires i < |s.rows|
  {
    match a
    case Reuse(_, _, now) => s.rows[i].leasedAt.Some? && now <= s.rows[i].leasedAt.value + 30
    case Finish(g, _, _) => g < |s.grants| && s.grants[g].h.id != i
    case Release(g, _) => g < |s.grants| && s.grants[g].h.id != i
    case ReclaimOwn(n) => n != node
    case ReclaimDead(online) => node in online
    case _ => true
  }

  lemma LeaseStays(s: Sys, a: Action, h: Handle)
    requires Inv(s) && Enabled(s, a) && Holds(s.rows, h) && LeavesAlone(s, a, h.id, h.node)
    ensures Holds(Apply(s, a).rows, h)
  {
    var t := Apply(s, a);
    match a
    case Carve(node, size, now) => CarveKeeps(s, node, size, now);
    case ReclaimOwn(node) => assert t.rows[h.id] == Reclaimed(s.rows[h.id], OwnedBy(s.rows[h.id], node));
    case ReclaimDead(online) => assert t.rows[h.id] == Reclaimed(s.rows[h.id], Orphaned(s.rows[h.id], online));
    case _ => hide Inv;
  }

  ghost predicate KeptUp(s: Sys, run: seq<Action>, i: nat, node: NodeId)
    requires Legal(s, run)
    decreases |run|
  {
    run == [] || (i < |s.rows| && LeavesAlone(s, run[0], i, node) && KeptUp(Apply(s, run[0]), run[1..], i, node))
  }

  lemma {:induction false} LeaseIsKept(s: Sys, run: seq<Action>, h: Handle)
    requires Inv(s) && Legal(s, run) && Holds(s.rows, h) && KeptUp(s, run, h.id, h.node)
    ensures Holds(Exec(s, run).rows, h)
    decreases |run|
  {
    hide Inv, Apply, Enabled, Holds, LeavesAlone;
    if run != [] {
      StepKeeps(s, run[0]);
      LeaseStays(s, run[0], h);
      LeaseIsKept(Apply(s, run[0]), run[1..], h);
    }
  }

  /** A node that renews its lease before each 30 minutes are over keeps it, whatever the others acquire: in any
      run in which no acquisition comes later than that after the last renewal, the row is not reported back,
      and its node is not declared gone, the handle goes on passing the guard. */
  lemma RenewedLeasesAreKept(s: Sys, run: seq<Action>, h: Handle)
    requires Reachable(s) && Legal(s, run) && Holds(s.rows, h) && KeptUp(s, run, h.id, h.node)
    ensures var rows := Exec(s, run).rows;
      && h.id < |rows| && rows[h.id].status == Running && rows[h.id].attempts == h.attempts
      && rows[h.id].node == Some(h.node)
  {
    ReachableKeeps(s);
    LeaseIsKept(s, run, h);
  }

  /** After that it is lost to whoever acquires next, unless its five tries are used up or it ends below the
      floor. */
  lemma NeglectedLeaseIsOffered(s: Sys, i: nat, node: NodeId, now: int)
    requires i < |s.rows| && s.rows[i].status == Running && s.rows[i].leasedAt.Some?
    requires s.rows[i].attempts < 5 && s.rows[i].upper >= s.floor
    ensures Enabled(s, Reuse(node, i, now)) <==> now > s.rows[i].leasedAt.value + 30
  {
  }
}
