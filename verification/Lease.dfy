/**
 The lease statements of one (site, scope) pair: the rows of `crawl_ranges` and the two
 frontiers of `crawl_states`. A row's id is its index, since rows are never deleted.
 Every statement or transaction is one step; the clock reading it sees is a parameter.
 */
module Lease {
  import opened Wrappers

  type NodeId = nat

  datatype Status = Running | Failed | Completed | Empty

  datatype Row = Row(lower: int, upper: int, status: Status, attempts: nat,
                     node: Option<NodeId>, leasedAt: Option<int>, readyAt: int)

  /** What a node is handed: the row it leased and the fencing token it must report with. */
  datatype Handle = Handle(id: nat, lower: int, upper: int, attempts: nat, node: NodeId)

  datatype Request = Request(node: NodeId, rangeSize: int, floorId: int)

  datatype LeaseError = BadRequest | NoWork | Conflict

  const MAX_ATTEMPTS: nat := 5
  const STALE_LEASE: int := 30

  // ----- row selection

  predicate Eligible(r: Row, floor: int, now: int) {
    && r.attempts < MAX_ATTEMPTS
    && r.upper >= floor
    && ( || (r.status == Failed && r.readyAt <= now)
         || (r.status == Running && r.leasedAt.Some? && r.leasedAt.value < now - STALE_LEASE))
  }

  /** The row the reuse query picks: free, eligible, and first by (attempts, id). Rows locked
      by a concurrent transaction are skipped, not waited for. */
  ghost predicate Candidate(rows: seq<Row>, floor: int, now: int, locked: set<nat>, i: nat) {
    && i < |rows| && i !in locked && Eligible(rows[i], floor, now)
    && forall j :: 0 <= j < |rows| && j !in locked && Eligible(rows[j], floor, now)
        ==> rows[i].attempts < rows[j].attempts || (rows[i].attempts == rows[j].attempts && i <= j)
  }

  ghost predicate NoCandidate(rows: seq<Row>, floor: int, now: int, locked: set<nat>) {
    forall j :: 0 <= j < |rows| && j !in locked ==> !Eligible(rows[j], floor, now)
  }

  predicate HasKey(rows: seq<Row>, lower: int, upper: int) {
    exists i :: 0 <= i < |rows| && rows[i].lower == lower && rows[i].upper == upper
  }

  // ----- row updates

  function Granted(r: Row, node: NodeId, now: int): Row {
    r.(status := Running, attempts := r.attempts + 1, node := Some(node), leasedAt := Some(now))
  }

  /** The guard of finish, renew and release: running, same token, same node. */
  predicate Holds(rows: seq<Row>, h: Handle) {
    && h.id < |rows|
    && rows[h.id].status == Running
    && rows[h.id].attempts == h.attempts
    && rows[h.id].node == Some(h.node)
  }

  function Backoff(attempts: nat): int {
    if attempts <= 1 then 1
    else if attempts == 2 then 2
    else if attempts == 3 then 4
    else if attempts == 4 then 8
    else if attempts == 5 then 16
    else 30
  }

  function Finished(r: Row, status: Status, now: int): Row {
    r.(status := status, node := None,
       readyAt := now + if status == Failed then Backoff(r.attempts) else 0)
  }

  function Released(r: Row, now: int): Row {
    r.(status := Failed, attempts := if r.attempts > 0 then r.attempts - 1 else 0,
       node := None, readyAt := now)
  }

  function Reclaimed(r: Row, lost: bool): Row {
    if r.status == Running && lost then r.(status := Failed, node := None) else r
  }

  predicate OwnedBy(r: Row, node: NodeId) {
    r.node == Some(node)
  }

  predicate Orphaned(r: Row, online: set<NodeId>) {
    r.node.Some? && r.node.value !in online
  }

  // ----- the split transaction

  function BelowFloor(lower: int, floor: int, now: int): Row {
    Row(lower, floor - 1, Failed, 0, None, None, now)
  }

  function InsertIfAbsent(rows: seq<Row>, r: Row): seq<Row> {
    if HasKey(rows, r.lower, r.upper) then rows else rows + [r]
  }

  /** Keeps the part below the floor as its own row and shrinks the leased one. The shrink
      looks at the row's id and status only, so it does not see the fencing token. */
  function SplitRows(rows: seq<Row>, h: Handle, floor: int, now: int): seq<Row>
    requires h.id < |rows|
  {
    var kept := InsertIfAbsent(rows, BelowFloor(h.lower, floor, now));
    kept[h.id := kept[h.id].(lower := floor)]
  }

  // ----- carving

  function CarveLower(before: int, rangeSize: int, floor: int): int {
    Max(before - rangeSize, floor)
  }

  function Carved(lower: int, upper: int, node: NodeId, now: int): Row {
    Row(lower, upper, Running, 1, Some(node), Some(now), now)
  }

  /** What a carve from frontier `before` leaves behind: the block under the frontier, leased
      to the caller, as a new row unless a row with the same bounds already exists. */
  ghost predicate CarveOutcome(rows: seq<Row>, before: int, node: NodeId, rangeSize: int, floor: int,
                               now: int, rows': seq<Row>, h: Handle) {
    var upper := before - 1;
    var lower := CarveLower(before, rangeSize, floor);
    && h.id < |rows'| && h == Handle(h.id, lower, upper, rows'[h.id].attempts, node)
    && (!HasKey(rows, lower, upper) ==>
          h.id == |rows| && rows' == rows + [Carved(lower, upper, node, now)])
    && (HasKey(rows, lower, upper) ==>
          && h.id < |rows| && rows[h.id].lower == lower && rows[h.id].upper == upper
          && rows' == rows[h.id := Granted(rows[h.id], node, now)])
  }

  /** What an undisturbed reuse leaves behind: the first candidate, leased under a new token and
      cut at the floor. */
  ghost predicate ReuseOutcome(rows: seq<Row>, node: NodeId, floor: int, now: int, locked: set<nat>,
                               rows': seq<Row>, h: Handle) {
    && Candidate(rows, floor, now, locked, h.id)
    && var was := rows[h.id]; var marked := rows[h.id := Granted(was, node, now)];
    && var first := Handle(h.id, was.lower, was.upper, was.attempts + 1, node);
    && h == first.(lower := Max(was.lower, floor))
    && rows' == if was.lower < floor then SplitRows(marked, first, floor, now) else marked
  }

  // ----- what an acquisition does, row by row

  /** A reuse grants one row: with fewer than five attempts, reaching the floor, failed and rested or leased more
      than 30 minutes ago, and of those free to take the first by attempts and id. */
  lemma ReuseInFull(rows: seq<Row>, node: NodeId, floor: int, now: int, locked: set<nat>, rows': seq<Row>, h: Handle)
    requires ReuseOutcome(rows, node, floor, now, locked, rows', h)
    ensures h.id < |rows| && h.id !in locked && rows[h.id].attempts < 5 && rows[h.id].upper >= floor
    ensures var r := rows[h.id];
      || (r.status == Failed && r.readyAt <= now)
      || (r.status == Running && r.leasedAt.Some? && r.leasedAt.value + 30 < now)
    ensures forall j ::
      (&& 0 <= j < |rows| && j !in locked && rows[j].attempts < 5 && rows[j].upper >= floor
       && (|| (rows[j].status == Failed && rows[j].readyAt <= now)
           || (rows[j].status == Running && rows[j].leasedAt.Some? && rows[j].leasedAt.value + 30 < now)))
      ==> rows[h.id].attempts < rows[j].attempts || (rows[h.id].attempts == rows[j].attempts && h.id <= j)
    ensures |rows| <= |rows'| && forall j :: 0 <= j < |rows| && j != h.id ==> rows'[j] == rows[j]
    ensures rows'[h.id] == Row(h.lower, h.upper, Running, h.attempts, Some(node), Some(now), rows[h.id].readyAt)
    ensures h.lower == Max(rows[h.id].lower, floor) && h.upper == rows[h.id].upper
    ensures h.attempts == rows[h.id].attempts + 1 && h.node == node
    ensures |rows'| > |rows| ==>
      rows' == rows'[..|rows|] + [Row(rows[h.id].lower, floor - 1, Failed, 0, None, None, now)]
    ensures rows[h.id].lower < floor ==>
      exists j :: 0 <= j < |rows'| && rows'[j].upper == floor - 1 && rows'[j].lower == rows[h.id].lower
  {
    var was := rows[h.id];
    var marked := rows[h.id := Granted(was, node, now)];
    if was.lower < floor {
      var below := BelowFloor(was.lower, floor, now);
      var kept := InsertIfAbsent(marked, below);
      if HasKey(marked, was.lower, floor - 1) {
        var j :| 0 <= j < |marked| && marked[j].lower == was.lower && marked[j].upper == floor - 1;
        assert j != h.id;
        assert rows'[j] == marked[j];
      } else {
        assert rows'[|rows|] == below;
      }
    }
  }

  lemma NoCandidateInFull(rows: seq<Row>, floor: int, now: int, locked: set<nat>)
    requires NoCandidate(rows, floor, now, locked)
    ensures forall j :: 0 <= j < |rows| && j !in locked && rows[j].attempts < 5 && rows[j].upper >= floor ==>
      && !(rows[j].status == Failed && rows[j].readyAt <= now)
      && !(rows[j].status == Running && rows[j].leasedAt.Some? && rows[j].leasedAt.value + 30 < now)
  {
  }

  /** A carve grants the block under the frontier: a new row, or the row with exactly those bounds. */
  lemma CarveInFull(rows: seq<Row>, before: int, node: NodeId, rangeSize: int, floor: int, now: int,
                    rows': seq<Row>, h: Handle)
    requires CarveOutcome(rows, before, node, rangeSize, floor, now, rows', h)
    ensures h.lower == Max(before - rangeSize, floor) && h.upper == before - 1 && h.node == node
    ensures h.id <= |rows| <= |rows'| && |rows'| == Max(|rows|, h.id + 1)
    ensures forall j :: 0 <= j < |rows| && j != h.id ==> rows'[j] == rows[j]
    ensures h.id < |rows| ==> rows[h.id].lower == h.lower && rows[h.id].upper == h.upper
    ensures h.attempts == (if h.id < |rows| then rows[h.id].attempts + 1 else 1)
    ensures rows'[h.id] == Row(h.lower, h.upper, Running, h.attempts, Some(node), Some(now),
                               if h.id < |rows| then rows[h.id].readyAt else now)
  {
  }

  /** The two tables. `rows` is the fixed-key part of crawl_ranges; `before` and `watermark` are
      crawl_states.backfill_before_id and high_watermark_id. */
  class Store {
    var rows: seq<Row>
    var before: Option<int>
    var watermark: Option<int>

    constructor ()
      ensures rows == [] && before == None && watermark == None
    {
      rows, before, watermark := [], None, None;
    }

    method PickCandidate(floor: int, now: int, locked: set<nat>) returns (c: Option<nat>)
      ensures c.Some? ==> Candidate(rows, floor, now, locked, c.value)
      ensures c.None? ==> NoCandidate(rows, floor, now, locked)
      ensures c.Some? ==> var r := rows[c.value];
        && c.value !in locked && r.attempts < 5 && r.upper >= floor
        && (|| (r.status == Failed && r.readyAt <= now)
            || (r.status == Running && r.leasedAt.Some? && r.leasedAt.value + 30 < now))
      ensures forall j ::
        (&& 0 <= j < |rows| && j !in locked && rows[j].attempts < 5 && rows[j].upper >= floor
         && (|| (rows[j].status == Failed && rows[j].readyAt <= now)
             || (rows[j].status == Running && rows[j].leasedAt.Some? && rows[j].leasedAt.value + 30 < now)))
        ==> && c.Some?
            && (|| rows[c.value].attempts < rows[j].attempts
                || (rows[c.value].attempts == rows[j].attempts && c.value <= j))
    {
      c := None;
      for i := 0 to |rows|
        invariant c.None? ==> forall j :: 0 <= j < i && j !in locked ==> !Eligible(rows[j], floor, now)
        invariant c.Some? ==>
          && c.value < i && c.value !in locked && Eligible(rows[c.value], floor, now)
          && forall j :: 0 <= j < i && j !in locked && Eligible(rows[j], floor, now) ==>
              || rows[c.value].attempts < rows[j].attempts
              || (rows[c.value].attempts == rows[j].attempts && c.value <= j)
      {
        if i !in locked && Eligible(rows[i], floor, now) {
          if c.None? || rows[i].attempts < rows[c.value].attempts {
            c := Some(i);
          }
        }
      }
    }

    /** The first transaction of a reuse: marks the candidate running under a new token. */
    method MarkCandidate(node: NodeId, floor: int, now: int, locked: set<nat>)
      returns (r: Result<Handle, LeaseError>)
      modifies `rows
      ensures r.Failure? ==>
        r.error == NoWork && rows == old(rows) && NoCandidate(rows, floor, now, locked)
      ensures r.Success? ==> var h := r.value;
        && Candidate(old(rows), floor, now, locked, h.id)
        && rows == old(rows)[h.id := Granted(old(rows)[h.id], node, now)]
        && rows[h.id] == old(rows)[h.id].(status := Running, attempts := old(rows)[h.id].attempts + 1,
                                          node := Some(node), leasedAt := Some(now))
        && h == Handle(h.id, rows[h.id].lower, rows[h.id].upper, rows[h.id].attempts, node)
    {
      var c := PickCandidate(floor, now, locked);
      if c.None? {
        return Failure(NoWork);
      }
      var i := c.value;
      rows := rows[i := Granted(rows[i], node, now)];
      return Success(Handle(i, rows[i].lower, rows[i].upper, rows[i].attempts, node));
    }

    /** The second transaction. It conflicts, and rolls the insert back, when the row is no
        longer running. */
    method SplitAtFloor(h: Handle, floor: int, now: int) returns (r: Result<Handle, LeaseError>)
      requires h.id < |rows|
      modifies `rows
      ensures old(rows)[h.id].status != Running ==> r == Failure(Conflict) && rows == old(rows)
      ensures old(rows)[h.id].status == Running ==>
        && r == Success(h.(lower := floor))
        && rows == SplitRows(old(rows), h, floor, now)
      ensures old(rows)[h.id].status == Running ==>
        rows == (old(rows) + if exists i :: 0 <= i < |old(rows)| && old(rows)[i].lower == h.lower
                                            && old(rows)[i].upper == floor - 1
                             then [] else [Row(h.lower, floor - 1, Failed, 0, None, None, now)])
                [h.id := old(rows)[h.id].(lower := floor)]
    {
      var kept := rows;
      if !HasKey(rows, h.lower, floor - 1) {
        kept := kept + [BelowFloor(h.lower, floor, now)];
      }
      if kept[h.id].status != Running {
        return Failure(Conflict);
      }
      rows := kept[h.id := kept[h.id].(lower := floor)];
      return Success(h.(lower := floor));
    }

    method ReuseRange(node: NodeId, floor: int, now: int, locked: set<nat>)
      returns (r: Result<Handle, LeaseError>)
      modifies `rows
      ensures r.Failure? ==>
        r.error == NoWork && rows == old(rows) && NoCandidate(rows, floor, now, locked)
      ensures r.Success? ==> ReuseOutcome(old(rows), node, floor, now, locked, rows, r.value)
    {
      r := MarkCandidate(node, floor, now, locked);
      if r.Success? && r.value.lower < floor {
        r := SplitAtFloor(r.value, floor, now);
      }
    }

    method CarveRange(node: NodeId, rangeSize: int, floor: int, now: int)
      returns (r: Result<Handle, LeaseError>)
      requires rangeSize >= 1
      modifies `rows, `before
      ensures old(before).None? || old(before).value - 1 < floor ==>
        r == Failure(NoWork) && rows == old(rows) && before == old(before)
      ensures old(before).Some? && old(before).value - 1 >= floor ==>
        && before == Some(CarveLower(old(before).value, rangeSize, floor))
        && before == Some(Max(old(before).value - rangeSize, floor))
        && r.Success?
        && CarveOutcome(old(rows), old(before).value, node, rangeSize, floor, now, rows, r.value)
    {
      if before.None? {
        return Failure(NoWork);
      }
      var upper := before.value - 1;
      if upper < floor {
        return Failure(NoWork);
      }
      var lower := upper - rangeSize + 1;
      if lower < floor {
        lower := floor;
      }
      var id;
      if HasKey(rows, lower, upper) {
        id :| 0 <= id < |rows| && rows[id].lower == lower && rows[id].upper == upper;
        rows := rows[id := Granted(rows[id], node, now)];
      } else {
        id := |rows|;
        rows := rows + [Carved(lower, upper, node, now)];
      }
      before := Some(lower);
      return Success(Handle(id, lower, upper, rows[id].attempts, node));
    }

    /** Reuse first, carve only when nothing is reusable. */
    method AcquireBackfillRange(req: Request, now: int, locked: set<nat>)
      returns (r: Result<Handle, LeaseError>)
      modifies `rows, `before
      ensures req.rangeSize < 1 ==>
        r == Failure(BadRequest) && rows == old(rows) && before == old(before)
      ensures r.Success? ==> var floor := Max(req.floorId, 1);
        || (before == old(before) && ReuseOutcome(old(rows), req.node, floor, now, locked, rows, r.value))
        || (&& NoCandidate(old(rows), floor, now, locked)
            && old(before).Some? && old(before).value > floor
            && before == Some(CarveLower(old(before).value, req.rangeSize, floor))
            && CarveOutcome(old(rows), old(before).value, req.node, req.rangeSize, floor, now, rows, r.value))
      ensures forall i ::
        (&& 0 <= i < |old(rows)| && old(rows)[i].status == Running && old(rows)[i].leasedAt.Some?
         && old(rows)[i].leasedAt.value + 30 >= now && Some(old(rows)[i].upper + 1) != old(before))
        ==> i < |rows| && rows[i] == old(rows)[i]
      ensures forall i ::
        (&& 0 <= i < |old(rows)| && old(rows)[i].status == Failed
         && (old(rows)[i].readyAt > now || old(rows)[i].attempts >= 5) && Some(old(rows)[i].upper + 1) != old(before))
        ==> i < |rows| && rows[i] == old(rows)[i]
      ensures
        (&& req.rangeSize >= 1
         && exists i ::
              && 0 <= i < |old(rows)| && i !in locked
              && old(rows)[i].attempts < 5 && old(rows)[i].upper >= Max(req.floorId, 1)
              && (|| (old(rows)[i].status == Failed && old(rows)[i].readyAt <= now)
                  || (&& old(rows)[i].status == Running && old(rows)[i].leasedAt.Some?
                      && old(rows)[i].leasedAt.value + 30 < now)))
        ==> r.Success? && before == old(before) && r.value.id < |old(rows)| && r.value.id !in locked
      ensures r.Success? ==> var h := r.value;
        && h.node == req.node && h.id < |rows|
        && h.attempts == (if h.id < |old(rows)| then old(rows)[h.id].attempts + 1 else 1)
        && rows[h.id].(readyAt := 0) == Row(h.lower, h.upper, Running, h.attempts, Some(req.node), Some(now), 0)
        && forall j :: 0 <= j < |old(rows)| && j != h.id ==> rows[j] == old(rows)[j]
      ensures r.Success? ==> var h := r.value;
        && Holds(rows, h) && h.lower >= Max(req.floorId, 1)
        && h.lower == rows[h.id].lower && h.upper == rows[h.id].upper
      ensures req.rangeSize >= 1 && r.Failure? ==>
        && r.error == NoWork && rows == old(rows) && before == old(before)
        && NoCandidate(rows, Max(req.floorId, 1), now, locked)
        && (before.None? || before.value <= Max(req.floorId, 1))
    {
      if req.rangeSize < 1 {
        return Failure(BadRequest);
      }
      var floor := Max(req.floorId, 1);
      ghost var was, front := rows, before;
      r := ReuseRange(req.node, floor, now, locked);
      if r.Success? {
        ReuseInFull(was, req.node, floor, now, locked, rows, r.value);
      } else {
        NoCandidateInFull(was, floor, now, locked);
        r := CarveRange(req.node, req.rangeSize, floor, now);
        if r.Success? {
          CarveInFull(was, front.value, req.node, req.rangeSize, floor, now, rows, r.value);
        }
      }
    }

    method FinishRange(h: Handle, status: Status, now: int) returns (ok: bool)
      modifies `rows
      ensures ok <==> (&& h.id < |old(rows)| && old(rows)[h.id].status == Running
                       && old(rows)[h.id].attempts == h.attempts && old(rows)[h.id].node == Some(h.node))
      ensures !ok ==> rows == old(rows)
      ensures ok ==> |rows| == |old(rows)| && forall i :: 0 <= i < |rows| && i != h.id ==> rows[i] == old(rows)[i]
      ensures ok ==> rows[h.id] == old(rows)[h.id].(status := status, node := None, readyAt := rows[h.id].readyAt)
      ensures ok && status != Failed ==> rows[h.id].readyAt == now
      ensures ok && status == Failed ==> var wait := rows[h.id].readyAt - now;
        && (h.attempts <= 1 ==> wait == 1) && (h.attempts == 2 ==> wait == 2) && (h.attempts == 3 ==> wait == 4)
        && (h.attempts == 4 ==> wait == 8) && (h.attempts == 5 ==> wait == 16) && (h.attempts > 5 ==> wait == 30)
      ensures ok == Holds(old(rows), h)
      ensures ok ==> rows == old(rows)[h.id := Finished(old(rows)[h.id], status, now)]
    {
      ok := Holds(rows, h);
      if ok {
        var wait := if status == Failed then Backoff(h.attempts) else 0;
        rows := rows[h.id := rows[h.id].(status := status, node := None, readyAt := now + wait)];
      }
    }

    method RenewRange(h: Handle, now: int) returns (ok: bool)
      modifies `rows
      ensures ok <==> (&& h.id < |old(rows)| && old(rows)[h.id].status == Running
                       && old(rows)[h.id].attempts == h.attempts && old(rows)[h.id].node == Some(h.node))
      ensures ok == Holds(old(rows), h)
      ensures ok ==> rows == old(rows)[h.id := old(rows)[h.id].(leasedAt := Some(now))]
      ensures !ok ==> rows == old(rows)
    {
      ok := Holds(rows, h);
      if ok {
        rows := rows[h.id := rows[h.id].(leasedAt := Some(now))];
      }
    }

    method ReleaseRange(h: Handle, now: int) returns (ok: bool)
      modifies `rows
      ensures ok <==> (&& h.id < |old(rows)| && old(rows)[h.id].status == Running
                       && old(rows)[h.id].attempts == h.attempts && old(rows)[h.id].node == Some(h.node))
      ensures ok ==> rows == old(rows)[h.id := old(rows)[h.id].(status := Failed,
        attempts := Max(old(rows)[h.id].attempts - 1, 0), node := None, readyAt := now)]
      ensures ok == Holds(old(rows), h)
      ensures ok ==> rows == old(rows)[h.id := Released(old(rows)[h.id], now)]
      ensures !ok ==> rows == old(rows)
    {
      ok := Holds(rows, h);
      if ok {
        rows := rows[h.id := Released(rows[h.id], now)];
      }
    }

    method ReclaimOwnLeases(node: NodeId) returns (count: nat)
      modifies `rows
      ensures |rows| == |old(rows)|
      ensures forall i :: 0 <= i < |rows| ==> rows[i] == Reclaimed(old(rows)[i], OwnedBy(old(rows)[i], node))
      ensures forall i :: 0 <= i < |rows| ==>
        rows[i] == if old(rows)[i].status == Running && old(rows)[i].node == Some(node)
                   then old(rows)[i].(status := Failed, node := None) else old(rows)[i]
      ensures count == |set i | 0 <= i < |rows| && rows[i] != old(rows)[i]|
    {
      ghost var was := rows;
      ghost var hit: set<int> := {};
      count := 0;
      for i := 0 to |rows|
        invariant |rows| == |was|
        invariant forall j :: 0 <= j < i ==> rows[j] == Reclaimed(was[j], OwnedBy(was[j], node))
        invariant forall j :: i <= j < |rows| ==> rows[j] == was[j]
        invariant hit == set j | 0 <= j < i && rows[j] != was[j]
        invariant count == |hit|
      {
        if rows[i].status == Running && OwnedBy(rows[i], node) {
          rows := rows[i := rows[i].(status := Failed, node := None)];
          count := count + 1;
          hit := hit + {i};
        }
      }
      assert hit == set i | 0 <= i < |rows| && rows[i] != was[i];
    }

    method ReclaimDeadNodeLeases(online: set<NodeId>) returns (count: nat)
      modifies `rows
      ensures |rows| == |old(rows)|
      ensures forall i :: 0 <= i < |rows| ==> rows[i] == Reclaimed(old(rows)[i], Orphaned(old(rows)[i], online))
      ensures forall i :: 0 <= i < |rows| ==>
        rows[i] == if old(rows)[i].status == Running && old(rows)[i].node.Some? && old(rows)[i].node.value !in online
                   then old(rows)[i].(status := Failed, node := None) else old(rows)[i]
      ensures count == |set i | 0 <= i < |rows| && rows[i] != old(rows)[i]|
    {
      ghost var was := rows;
      ghost var hit: set<int> := {};
      count := 0;
      for i := 0 to |rows|
        invariant |rows| == |was|
        invariant forall j :: 0 <= j < i ==> rows[j] == Reclaimed(was[j], Orphaned(was[j], online))
        invariant forall j :: i <= j < |rows| ==> rows[j] == was[j]
        invariant hit == set j | 0 <= j < i && rows[j] != was[j]
        invariant count == |hit|
      {
        if rows[i].status == Running && Orphaned(rows[i], online) {
          rows := rows[i := rows[i].(status := Failed, node := None)];
          count := count + 1;
          hit := hit + {i};
        }
      }
      assert hit == set i | 0 <= i < |rows| && rows[i] != was[i];
    }

    function Marks(): Frontiers
      reads `before, `watermark
    {
      Frontiers(before, watermark)
    }

    /** A boot never lowers the watermark and never moves a backfill frontier that is set; the watermark ends
        at the lowest value that is not below `latest` or the old one. A first boot fixes both at `latest`. */
    method InitCatchupState(latest: int)
      modifies `before, `watermark
      ensures before.Some? && (old(before).Some? ==> before == old(before))
      ensures watermark.Some? && watermark.value >= latest
      ensures old(watermark).Some? ==>
        watermark.value >= old(watermark).value && (watermark.value == latest || watermark == old(watermark))
      ensures old(watermark).None? ==> watermark.value == latest || (old(before).Some? && watermark.value == 0)
      ensures old(before).None? && old(watermark).None? ==> before == watermark == Some(latest)
      ensures Marks() == Stepped(old(Marks()), SeeLatest(latest))
    {
      watermark := if before.None? && watermark.None? then Some(latest)
                   else Some(Max(if watermark.None? then 0 else watermark.value, latest));
      if before.None? {
        before := Some(latest);
      }
    }

    method AdvanceWatermark(id: int)
      modifies `watermark
      ensures Marks() == Stepped(old(Marks()), RaiseTo(id))
      ensures before == old(before)
      ensures old(watermark).Some? ==> watermark == Some(Max(old(watermark).value, id))
      ensures old(watermark).None? ==> watermark == if before.Some? then Some(Max(0, id)) else None
      ensures old(watermark).Some? ==> watermark.Some? && watermark.value >= Max(old(watermark).value, id)
    {
      if before.Some? || watermark.Some? {
        watermark := Some(Max(if watermark.None? then 0 else watermark.value, id));
      }
    }
  }

  // ----- the frontiers over whole runs

  /** The row of crawl_states; it is missing when both are unset. */
  datatype Frontiers = Frontiers(before: Option<int>, watermark: Option<int>)

  datatype FrontierStep = SeeLatest(latest: int) | RaiseTo(id: int)

  function OrZero(x: Option<int>): int {
    if x.None? then 0 else x.value
  }

  function Stepped(f: Frontiers, e: FrontierStep): Frontiers {
    match e
    case SeeLatest(latest) =>
      if f == Frontiers(None, None) then Frontiers(Some(latest), Some(latest))
      else Frontiers(if f.before.None? then Some(latest) else f.before, Some(Max(OrZero(f.watermark), latest)))
    case RaiseTo(id) =>
      if f == Frontiers(None, None) then f else f.(watermark := Some(Max(OrZero(f.watermark), id)))
  }

  function SteppedAll(f: Frontiers, steps: seq<FrontierStep>): Frontiers
    decreases |steps|
  {
    if steps == [] then f else SteppedAll(Stepped(f, steps[0]), steps[1..])
  }

  function IdOf(e: FrontierStep): int {
    match e case SeeLatest(latest) => latest case RaiseTo(id) => id
  }

  /** After the first boot, whatever boots and advances follow in whatever order: the backfill frontier stays
      where that boot put it, and the watermark is exactly the highest id ever reported. */
  lemma {:induction false} FrontiersOverRuns(first: int, steps: seq<FrontierStep>)
    ensures var f := SteppedAll(Stepped(Frontiers(None, None), SeeLatest(first)), steps);
      && f.before == Some(first) && f.watermark.Some? && f.watermark.value >= first
      && (forall i :: 0 <= i < |steps| ==> f.watermark.value >= IdOf(steps[i]))
      && (f.watermark.value == first || exists i :: 0 <= i < |steps| && f.watermark.value == IdOf(steps[i]))
  {
    RunKeepsHighest(first, first, steps);
  }

  lemma {:induction false} RunKeepsHighest(first: int, mark: int, steps: seq<FrontierStep>)
    ensures var f := SteppedAll(Frontiers(Some(first), Some(mark)), steps);
      && f.before == Some(first) && f.watermark.Some? && f.watermark.value >= mark
      && (forall i :: 0 <= i < |steps| ==> f.watermark.value >= IdOf(steps[i]))
      && (f.watermark.value == mark || exists i :: 0 <= i < |steps| && f.watermark.value == IdOf(steps[i]))
    decreases |steps|
  {
    if steps != [] {
      var rest := steps[1..];
      RunKeepsHighest(first, Max(mark, IdOf(steps[0])), rest);
      var f := SteppedAll(Frontiers(Some(first), Some(mark)), steps);
      forall i | 0 <= i < |steps|
        ensures f.watermark.value >= IdOf(steps[i])
      {
        assert i > 0 ==> steps[i] == rest[i - 1];
      }
      if f.watermark.value != mark && f.watermark.value != IdOf(steps[0]) {
        var i :| 0 <= i < |rest| && f.watermark.value == IdOf(rest[i]);
        assert rest[i] == steps[i + 1];
      }
    }
  }
}
