/**
 The statements on the tables are steps of the protocol: every call on a store that matches a reachable
 protocol state leaves it matching a reachable one, with the handle it returns among the grants.
 */
module LeaseRefinement {
  import opened Wrappers
  import opened Lease
  import LP = LeaseProtocol

  ghost predicate Matches(store: Store, s: LP.Sys)
    reads store
  {
    store.rows == s.rows && store.before == s.before && LP.Reachable(s)
  }

  /** The protocol recorded one more grant of exactly this handle. */
  ghost predicate Recorded(s: LP.Sys, t: LP.Sys, h: Handle, phase: LP.Phase) {
    |t.grants| == |s.grants| + 1 && t.grants[|s.grants|] == LP.Grant(h, phase)
  }

  // ----- runs grow at the end

  lemma {:induction false} ExecSnoc(s: LP.Sys, run: seq<LP.Action>, a: LP.Action)
    requires LP.Legal(s, run) && LP.Enabled(LP.Exec(s, run), a)
    ensures LP.Legal(s, run + [a]) && LP.Exec(s, run + [a]) == LP.Apply(LP.Exec(s, run), a)
    decreases |run|
  {
    hide LP.Apply, LP.Enabled;
    if run == [] {
      assert run + [a] == [a] && [a][1..] == [];
      assert LP.Legal(LP.Apply(s, a), []);
    } else {
      ExecSnoc(LP.Apply(s, run[0]), run[1..], a);
      assert (run + [a])[0] == run[0] && (run + [a])[1..] == run[1..] + [a];
    }
  }

  lemma StepReaches(s: LP.Sys, a: LP.Action)
    requires LP.Reachable(s) && LP.Enabled(s, a)
    ensures LP.Reachable(LP.Apply(s, a))
  {
    hide LP.Apply, LP.Enabled, LP.Exec, LP.Legal;
    var run :| LP.Legal(LP.START, run) && LP.Exec(LP.START, run) == s;
    ExecSnoc(LP.START, run, a);
  }

  // ----- acquiring

  lemma MarkIsReuse(s: LP.Sys, node: NodeId, now: int, locked: set<nat>, h: Handle)
    requires LP.Reachable(s) && Candidate(s.rows, s.floor, now, locked, h.id)
    requires var r := s.rows[h.id]; h == Handle(h.id, r.lower, r.upper, r.attempts + 1, node)
    ensures LP.Enabled(s, LP.Reuse(node, h.id, now))
    ensures var t := LP.Apply(s, LP.Reuse(node, h.id, now));
      && LP.Reachable(t) && t.rows == s.rows[h.id := Granted(s.rows[h.id], node, now)]
      && t.before == s.before && t.floor == s.floor
      && Recorded(s, t, h, if h.lower < s.floor then LP.Splitting else LP.Held)
  {
    StepReaches(s, LP.Reuse(node, h.id, now));
    hide LP.Reachable;
  }

  lemma SplitIsStep(s: LP.Sys, g: nat, now: int)
    requires LP.Reachable(s) && LP.Enabled(s, LP.Split(g, now))
    ensures var t := LP.Apply(s, LP.Split(g, now)); var h := s.grants[g].h;
      && LP.Reachable(t) && t.before == s.before && |t.grants| == |s.grants|
      && (s.rows[h.id].status == Running ==>
            t.rows == SplitRows(s.rows, h, s.floor, now) && t.grants[g] == LP.Grant(h.(lower := s.floor), LP.Held))
      && (s.rows[h.id].status != Running ==> t.rows == s.rows && t.grants[g].phase == LP.Dropped)
  {
    StepReaches(s, LP.Split(g, now));
    hide LP.Reachable;
  }

  /** An undisturbed reuse is the marking step and, below the floor, the splitting step. */
  lemma ReuseIsRun(s: LP.Sys, node: NodeId, now: int, locked: set<nat>, rows': seq<Row>, h: Handle) returns (t: LP.Sys)
    requires LP.Reachable(s) && ReuseOutcome(s.rows, node, s.floor, now, locked, rows', h)
    ensures LP.Reachable(t) && t.rows == rows' && t.before == s.before && Recorded(s, t, h, LP.Held)
  {
    var was := s.rows[h.id];
    var first := Handle(h.id, was.lower, was.upper, was.attempts + 1, node);
    MarkIsReuse(s, node, now, locked, first);
    t := LP.Apply(s, LP.Reuse(node, h.id, now));
    if was.lower < s.floor {
      var g := |s.grants|;
      assert LP.Enabled(t, LP.Split(g, now));
      SplitIsStep(t, g, now);
      t := LP.Apply(t, LP.Split(g, now));
    }
  }

  /** A carve is one step; the conflict branch of the statement is never taken. */
  lemma CarveIsStep(s: LP.Sys, node: NodeId, size: int, now: int, rows': seq<Row>, h: Handle) returns (t: LP.Sys)
    requires LP.Reachable(s) && size >= 1 && s.before.Some? && s.before.value > s.floor
    requires CarveOutcome(s.rows, s.before.value, node, size, s.floor, now, rows', h)
    ensures LP.Reachable(t) && t.rows == rows' && Recorded(s, t, h, LP.Held)
    ensures t.before == Some(CarveLower(s.before.value, size, s.floor))
  {
    LP.RowsTileTheHistory(s);
    assert LP.Enabled(s, LP.Carve(node, size, now));
    StepReaches(s, LP.Carve(node, size, now));
    hide LP.Reachable, HasKey;
    t := LP.Apply(s, LP.Carve(node, size, now));
  }

  method Acquire(store: Store, req: Request, now: int, locked: set<nat>, ghost s: LP.Sys)
      returns (r: Result<Handle, LeaseError>, ghost t: LP.Sys)
    requires Matches(store, s) && s.floor == Max(req.floorId, 1)
    modifies store
    ensures Matches(store, t)
    ensures r.Success? ==> Recorded(s, t, r.value, LP.Held)
    ensures r.Failure? ==> t == s
  {
    hide LP.Reachable, ReuseOutcome, CarveOutcome, Recorded, NoCandidate, Holds;
    t := s;
    r := store.AcquireBackfillRange(req, now, locked);
    if r.Success? {
      if store.before == s.before && ReuseOutcome(s.rows, req.node, s.floor, now, locked, store.rows, r.value) {
        t := ReuseIsRun(s, req.node, now, locked, store.rows, r.value);
      } else {
        t := CarveIsStep(s, req.node, req.rangeSize, now, store.rows, r.value);
      }
    }
  }

  /** The first transaction of a reuse alone, with anything to follow. */
  method Mark(store: Store, node: NodeId, floor: int, now: int, locked: set<nat>, ghost s: LP.Sys)
      returns (r: Result<Handle, LeaseError>, ghost t: LP.Sys)
    requires Matches(store, s) && s.floor == floor
    modifies store
    ensures Matches(store, t) && t.floor == floor
    ensures r.Success? ==> Recorded(s, t, r.value, if r.value.lower < floor then LP.Splitting else LP.Held)
    ensures r.Failure? ==> t == s
  {
    hide LP.Reachable, Candidate, NoCandidate;
    t := s;
    r := store.MarkCandidate(node, floor, now, locked);
    if r.Success? {
      MarkIsReuse(s, node, now, locked, r.value);
      t := LP.Apply(s, LP.Reuse(node, r.value.id, now));
    }
  }

  /** The second transaction, for a grant whose split is pending. */
  method Split(store: Store, h: Handle, floor: int, now: int, ghost s: LP.Sys, ghost g: nat)
      returns (r: Result<Handle, LeaseError>, ghost t: LP.Sys)
    requires Matches(store, s) && s.floor == floor && h.id < |store.rows|
    requires g < |s.grants| && s.grants[g] == LP.Grant(h, LP.Splitting)
    modifies store
    ensures Matches(store, t)
    ensures |t.grants| == |s.grants|
    ensures r.Success? ==> t.grants[g] == LP.Grant(r.value, LP.Held)
    ensures r.Failure? ==> r.error == Conflict && t.grants[g].phase == LP.Dropped
  {
    hide LP.Reachable;
    SplitIsStep(s, g, now);
    r := store.SplitAtFloor(h, floor, now);
    t := LP.Apply(s, LP.Split(g, now));
  }

  // ----- reporting back

  method Finish(store: Store, h: Handle, status: Status, now: int, ghost s: LP.Sys, ghost g: nat)
      returns (ok: bool, ghost t: LP.Sys)
    requires Matches(store, s) && LP.IsHeld(s, g) && s.grants[g].h == h && status != Running
    modifies store
    ensures Matches(store, t) && t == LP.Apply(s, LP.Finish(g, status, now))
  {
    hide LP.Reachable;
    StepReaches(s, LP.Finish(g, status, now));
    t := LP.Apply(s, LP.Finish(g, status, now));
    ok := store.FinishRange(h, status, now);
  }

  /** Also for a handle that has been returned, which the renewal goroutine may still hold. */
  method Renew(store: Store, h: Handle, now: int, ghost s: LP.Sys, ghost g: nat) returns (ok: bool, ghost t: LP.Sys)
    requires Matches(store, s) && g < |s.grants| && s.grants[g].h == h
    requires s.grants[g].phase == LP.Held || s.grants[g].phase == LP.Returned
    modifies store
    ensures Matches(store, t) && t == LP.Apply(s, LP.Renew(g, now))
  {
    hide LP.Reachable;
    StepReaches(s, LP.Renew(g, now));
    t := LP.Apply(s, LP.Renew(g, now));
    ok := store.RenewRange(h, now);
  }

  method Release(store: Store, h: Handle, now: int, ghost s: LP.Sys, ghost g: nat) returns (ok: bool, ghost t: LP.Sys)
    requires Matches(store, s) && LP.IsHeld(s, g) && s.grants[g].h == h
    modifies store
    ensures Matches(store, t) && t == LP.Apply(s, LP.Release(g, now))
  {
    hide LP.Reachable;
    StepReaches(s, LP.Release(g, now));
    t := LP.Apply(s, LP.Release(g, now));
    ok := store.ReleaseRange(h, now);
  }

  lemma ReclaimedRows(rows: seq<Row>, rows': seq<Row>, lost: Row -> bool)
    requires |rows'| == |rows| && forall i :: 0 <= i < |rows| ==> rows'[i] == Reclaimed(rows[i], lost(rows[i]))
    ensures rows' == LP.ReclaimAll(rows, lost)
  {
  }

  method ReclaimOwn(store: Store, node: NodeId, ghost s: LP.Sys) returns (count: nat, ghost t: LP.Sys)
    requires Matches(store, s)
    modifies store
    ensures Matches(store, t) && t == LP.Apply(s, LP.ReclaimOwn(node))
  {
    hide LP.Reachable;
    StepReaches(s, LP.ReclaimOwn(node));
    t := LP.Apply(s, LP.ReclaimOwn(node));
    count := store.ReclaimOwnLeases(node);
    ReclaimedRows(s.rows, store.rows, r => OwnedBy(r, node));
  }

  method ReclaimDead(store: Store, online: set<NodeId>, ghost s: LP.Sys) returns (count: nat, ghost t: LP.Sys)
    requires Matches(store, s)
    modifies store
    ensures Matches(store, t) && t == LP.Apply(s, LP.ReclaimDead(online))
  {
    hide LP.Reachable;
    StepReaches(s, LP.ReclaimDead(online));
    t := LP.Apply(s, LP.ReclaimDead(online));
    count := store.ReclaimDeadNodeLeases(online);
    ReclaimedRows(s.rows, store.rows, r => Orphaned(r, online));
  }

  method Boot(store: Store, latest: int, ghost s: LP.Sys) returns (ghost t: LP.Sys)
    requires Matches(store, s)
    modifies store
    ensures Matches(store, t) && t == LP.Apply(s, LP.Boot(latest))
  {
    hide LP.Reachable;
    StepReaches(s, LP.Boot(latest));
    t := LP.Apply(s, LP.Boot(latest));
    store.InitCatchupState(latest);
  }
}
