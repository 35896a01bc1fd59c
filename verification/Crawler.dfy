/**
 Backfill workers on top of the lease protocol: page a leased range, reserve a share of the node's
 budget, index the posts, and finish or release the range. Between any two steps the lease table,
 the source's listing and the other workers may move.
 */
module Crawler {
  import opened Wrappers
  import opened Lease
  import LP = LeaseProtocol
  import Danbooru
  import Indexer

  datatype IndexError = NoError | IndexFull | OtherError

  /** What a worker knows once paging and indexing are over. */
  datatype Outcome = NothingListed | Ran(trimmed: bool, error: IndexError, someFailed: bool)

  datatype Verdict = MarkCompleted | MarkEmpty | MarkFailed | GiveBack

  /** `from` and `to` bound the listings the scan met: history[from..to]. `cut` says that the batch
      got less of the budget than it has posts. A Loaded worker has read the node's counter as `seen` and has
      yet to swap it. */
  datatype Worker =
    | Paging(from: nat, cursor: int, out: seq<nat>)
    | Paged(from: nat, to: nat, out: seq<nat>)
    | Loaded(from: nat, to: nat, out: seq<nat>, seen: int)
    | Reserved(from: nat, to: nat, out: seq<nat>, take: nat)
    | Reported(from: nat, to: nat, cut: bool, outcome: Outcome)
    | Decided(from: nat, to: nat, cut: bool, verdict: Verdict)
    | Closed

  datatype Scan = Scan(from: nat, to: nat, cut: bool)

  /** A catch-up or retry worker of a node that has read the node's counter and has yet to swap it. */
  datatype Client = Client(node: NodeId, want: nat, seen: int)

  /** `history` lists the source's listings, newest last; `limits` and `taken` are MaxImages and the shared
      counter per node, `given` the shares actually handed out to its range, catch-up and retry workers;
      `handled` are posts skipped, stored already, or accepted by the sink; `spans` remembers which listings
      the scan behind a closed row met. */
  datatype State = State(sys: LP.Sys, history: seq<set<nat>>, limits: map<NodeId, int>, taken: map<NodeId, int>,
                         given: map<NodeId, int>, clients: map<nat, Client>,
                         handled: set<nat>, workers: map<nat, Worker>, spans: map<nat, Scan>)

  datatype Action =
    | Table(step: LP.Action)
    | Relist(listing: set<nat>)
    | Begin(grant: nat)
    | Page(grant: nat)
    | PageFails(grant: nat)
    | Load(grant: nat)
    | Swap(grant: nat)
    | ClientLoad(client: nat, node: NodeId, want: nat)
    | ClientSwap(client: nat)
    | Index(grant: nat, skip: set<nat>, existing: set<nat>, accepted: multiset<nat>, failed: seq<nat>,
            error: IndexError)
    | Conclude(grant: nat)
    | Close(grant: nat, now: int)

  // ----- the worker's own decisions

  /** The share of the budget one batch gets. */
  function Share(limit: int, taken: int, want: nat): nat {
    if limit <= 0 then want
    else if limit <= taken then 0
    else Min(want, limit - taken)
  }

  predicate SelfStopped(limit: int, taken: int) {
    limit > 0 && limit <= taken
  }

  /** How processRange ends a range. A trimmed range is given back before anything else is looked at. */
  function Decide(o: Outcome, selfStopped: bool): Verdict {
    match o
    case NothingListed => if selfStopped then GiveBack else MarkEmpty
    case Ran(trimmed, error, someFailed) =>
      if trimmed || error == IndexFull || selfStopped then GiveBack
      else if error == OtherError || someFailed then MarkFailed
      else MarkCompleted
  }

  function Amount(m: map<NodeId, int>, node: NodeId): int {
    if node in m then m[node] else 0
  }

  function PostsOf(ids: seq<nat>, skip: set<nat>): (posts: seq<Indexer.Post>)
    ensures |posts| == |ids|
  {
    seq(|ids|, i requires 0 <= i < |ids| => Indexer.Post(ids[i], ids[i] in skip))
  }

  ghost predicate HandledHere(posts: seq<Indexer.Post>, existing: set<nat>, accepted: multiset<nat>, i: nat)
    requires i < |posts|
  {
    posts[i].skip || posts[i].id in existing || i in accepted
  }

  ghost function NewlyHandled(posts: seq<Indexer.Post>, existing: set<nat>, accepted: multiset<nat>): set<nat> {
    set i: nat | i < |posts| && HandledHere(posts, existing, accepted, i) :: posts[i].id
  }

  // ----- steps

  ghost function HandleOf(s: State, g: nat): Handle
    requires g < |s.sys.grants|
  {
    s.sys.grants[g].h
  }

  ghost predicate At(s: State, g: nat) {
    g < |s.sys.grants| && g in s.workers
  }

  /** The statement a verdict turns into. */
  ghost function ClosingStep(g: nat, v: Verdict, now: int): LP.Action {
    match v
    case MarkCompleted => LP.Finish(g, Completed, now)
    case MarkEmpty => LP.Finish(g, Empty, now)
    case MarkFailed => LP.Finish(g, Failed, now)
    case GiveBack => LP.Release(g, now)
  }

  ghost predicate Enabled(s: State, a: Action) {
    match a
    case Table(step) => !step.Finish? && !step.Release? && LP.Enabled(s.sys, step)
    case Relist(_) => true
    case Begin(g) => LP.IsHeld(s.sys, g) && g !in s.workers
    case Page(g) => At(s, g) && s.workers[g].Paging?
    case PageFails(g) => At(s, g) && s.workers[g].Paging?
    case Load(g) => At(s, g) && s.workers[g].Paged? && s.workers[g].out != []
    case Swap(g) => At(s, g) && s.workers[g].Loaded?
    case ClientLoad(c, _, _) => c !in s.clients
    case ClientSwap(c) => c in s.clients
    case Index(g, skip, existing, accepted, failed, error) =>
      && At(s, g) && s.workers[g].Reserved?
      && (error == NoError ==>
            Indexer.Accounted(PostsOf(s.workers[g].out[..Min(s.workers[g].take, |s.workers[g].out|)], skip),
                              existing, accepted, failed))
    case Conclude(g) => At(s, g) && (s.workers[g].Reported? || (s.workers[g].Paged? && s.workers[g].out == []))
    case Close(g, _) => At(s, g) && s.workers[g].Decided? && LP.IsHeld(s.sys, g)
  }

  ghost function DoPage(s: State, g: nat): State
    requires Enabled(s, Page(g)) && s.history != []
  {
    var w := s.workers[g];
    var lower := HandleOf(s, g).lower;
    var page := Danbooru.Fetch(s.history[|s.history| - 1], lower, w.cursor);
    s.(workers := s.workers[g :=
      if Danbooru.Continues(page, lower) then Paging(w.from, page[|page| - 1], w.out + page)
      else Paged(w.from, |s.history|, w.out + page)])
  }

  /** The counter is read. Without a limit, or with nothing left, the answer is known at once. */
  ghost function DoLoad(s: State, g: nat): State
    requires Enabled(s, Load(g))
  {
    var w := s.workers[g];
    var node := HandleOf(s, g).node;
    var limit, seen := Amount(s.limits, node), Amount(s.taken, node);
    s.(workers := s.workers[g :=
      if limit <= 0 || limit <= seen then Reserved(w.from, w.to, w.out, Share(limit, seen, |w.out|))
      else Loaded(w.from, w.to, w.out, seen)])
  }

  /** Compare and swap: the counter is raised by the share only if it still reads as it did; otherwise the
      worker reads it again. */
  ghost function DoSwap(s: State, g: nat): State
    requires Enabled(s, Swap(g))
  {
    var w := s.workers[g];
    var node := HandleOf(s, g).node;
    var take := Share(Amount(s.limits, node), w.seen, |w.out|);
    if Amount(s.taken, node) == w.seen then
      s.(taken := s.taken[node := w.seen + take], given := s.given[node := Amount(s.given, node) + take],
         workers := s.workers[g := Reserved(w.from, w.to, w.out, take)])
    else
      s.(workers := s.workers[g := Paged(w.from, w.to, w.out)])
  }

  ghost function DoClientLoad(s: State, c: nat, node: NodeId, want: nat): State {
    var limit, seen := Amount(s.limits, node), Amount(s.taken, node);
    if want == 0 || limit <= 0 || limit <= seen then s
    else s.(clients := s.clients[c := Client(node, want, seen)])
  }

  ghost function DoClientSwap(s: State, c: nat): State
    requires c in s.clients
  {
    var w := s.clients[c];
    var take := Share(Amount(s.limits, w.node), w.seen, w.want);
    var rest := s.(clients := s.clients - {c});
    if Amount(s.taken, w.node) == w.seen then
      rest.(taken := s.taken[w.node := w.seen + take], given := s.given[w.node := Amount(s.given, w.node) + take])
    else rest
  }

  ghost function DoIndex(s: State, g: nat, skip: set<nat>, existing: set<nat>, accepted: multiset<nat>,
                         failed: seq<nat>, error: IndexError): State
    requires At(s, g) && s.workers[g].Reserved?
  {
    var w := s.workers[g];
    var posts := PostsOf(w.out[..Min(w.take, |w.out|)], skip);
    s.(handled := s.handled + NewlyHandled(posts, existing, accepted),
       workers := s.workers[g := Reported(w.from, w.to, w.take < |w.out|, Ran(w.take < |w.out|, error, failed != []))])
  }

  ghost function DoClose(s: State, g: nat, now: int): State
    requires Enabled(s, Close(g, now))
  {
    var w := s.workers[g];
    var h := HandleOf(s, g);
    s.(sys := LP.Apply(s.sys, ClosingStep(g, w.verdict, now)),
       workers := s.workers[g := Closed],
       spans := if Holds(s.sys.rows, h) then s.spans[h.id := Scan(w.from, w.to, w.cut)] else s.spans)
  }

  ghost function Apply(s: State, a: Action): State
    requires Enabled(s, a) && s.history != []
  {
    match a
    case Table(step) => s.(sys := LP.Apply(s.sys, step))
    case Relist(listing) => s.(history := s.history + [listing])
    case Begin(g) =>
      s.(workers := s.workers[g := Paging(|s.history| - 1, HandleOf(s, g).upper + 1, [])])
    case Page(g) => DoPage(s, g)
    case PageFails(g) =>
      var w := s.workers[g];
      s.(workers := s.workers[g := Reported(w.from, |s.history|, false, Ran(false, OtherError, false))])
    case Load(g) => DoLoad(s, g)
    case Swap(g) => DoSwap(s, g)
    case ClientLoad(c, node, want) => DoClientLoad(s, c, node, want)
    case ClientSwap(c) => DoClientSwap(s, c)
    case Index(g, skip, existing, accepted, failed, error) => DoIndex(s, g, skip, existing, accepted, failed, error)
    case Conclude(g) =>
      var w := s.workers[g];
      var node := HandleOf(s, g).node;
      var outcome := if w.Paged? then NothingListed else w.outcome;
      s.(workers := s.workers[g := Decided(w.from, w.to, w.Reported? && w.cut,
           Decide(outcome, SelfStopped(Amount(s.limits, node), Amount(s.taken, node))))])
    case Close(g, now) => DoClose(s, g, now)
  }

  ghost predicate Initial(s: State) {
    && s.sys == LP.START && |s.history| == 1 && s.taken == map[] && s.given == map[] && s.clients == map[]
    && s.handled == {} && s.workers == map[] && s.spans == map[]
  }

  ghost predicate Legal(s: State, run: seq<Action>)
    decreases |run|
  {
    s.history != [] && (run == [] || (Enabled(s, run[0]) && Legal(Apply(s, run[0]), run[1..])))
  }

  ghost function Exec(s: State, run: seq<Action>): State
    requires Legal(s, run)
    decreases |run|
  {
    if run == [] then s else Exec(Apply(s, run[0]), run[1..])
  }

  ghost predicate Reachable(s: State) {
    exists start, run :: Initial(start) && Legal(start, run) && Exec(start, run) == s
  }

  // ----- the invariant

  /** Listed every time the scan might have looked. */
  ghost predicate StayedListed(history: seq<set<nat>>, from: nat, to: nat, x: nat) {
    forall k :: from <= k < to && k < |history| ==> x in history[k]
  }

  ghost predicate InRange(h: Handle, x: nat) {
    h.lower <= x <= h.upper && x != 0
  }

  ghost predicate Found(history: seq<set<nat>>, from: nat, to: nat, h: Handle, above: int, out: seq<nat>) {
    forall x: nat :: InRange(h, x) && above <= x && StayedListed(history, from, to, x) ==> x in out
  }

  ghost predicate AllHandled(history: seq<set<nat>>, from: nat, to: nat, lower: int, upper: int, handled: set<nat>) {
    forall x: nat :: (lower <= x <= upper && x != 0 && StayedListed(history, from, to, x)) ==> x in handled
  }

  ghost predicate Clean(o: Outcome) {
    o.NothingListed? || (!o.trimmed && o.error == NoError && !o.someFailed)
  }

  ghost predicate WorkerOk(w: Worker, h: Handle, history: seq<set<nat>>, handled: set<nat>) {
    match w
    case Paging(from, cursor, out) =>
      from < |history| && cursor <= h.upper + 1 && Found(history, from, |history|, h, cursor, out)
    case Paged(from, to, out) => to <= |history| && Found(history, from, to, h, h.lower, out)
    case Loaded(from, to, out, _) => to <= |history| && Found(history, from, to, h, h.lower, out)
    case Reserved(from, to, out, _) => to <= |history| && Found(history, from, to, h, h.lower, out)
    case Reported(from, to, cut, o) =>
      to <= |history| && (cut ==> o.Ran? && o.trimmed)
      && (Clean(o) ==> AllHandled(history, from, to, h.lower, h.upper, handled))
    case Decided(from, to, cut, v) =>
      to <= |history| && (cut ==> v.GiveBack?)
      && (v.MarkCompleted? || v.MarkEmpty? ==> AllHandled(history, from, to, h.lower, h.upper, handled))
    case Closed => true
  }

  ghost predicate WorkersOk(s: State) {
    forall g :: g in s.workers ==>
      && g < |s.sys.grants| && s.sys.grants[g].phase != LP.Splitting
      && WorkerOk(s.workers[g], s.sys.grants[g].h, s.history, s.handled)
  }

  ghost predicate IsClosed(r: Row) {
    r.status == Completed || r.status == Empty
  }

  ghost predicate ClosedRowsOk(s: State) {
    forall i :: 0 <= i < |s.sys.rows| && IsClosed(s.sys.rows[i]) ==>
      && i in s.spans && s.spans[i].to <= |s.history| && !s.spans[i].cut
      && AllHandled(s.history, s.spans[i].from, s.spans[i].to, s.sys.rows[i].lower, s.sys.rows[i].upper, s.handled)
  }

  /** The counter accounts for every share handed out, and stays within a limit. */
  ghost predicate NodeBudget(limits: map<NodeId, int>, taken: map<NodeId, int>, given: map<NodeId, int>, n: NodeId) {
    && Amount(given, n) == Amount(taken, n)
    && (Amount(limits, n) > 0 ==> Amount(taken, n) <= Amount(limits, n))
  }

  ghost predicate BudgetOk(s: State) {
    forall n :: NodeBudget(s.limits, s.taken, s.given, n)
  }

  ghost predicate Inv(s: State) {
    s.history != [] && LP.Inv(s.sys) && WorkersOk(s) && ClosedRowsOk(s) && BudgetOk(s)
  }

  // ----- what the lease table leaves alone

  /** Old grants keep their handle once they are past splitting; closed rows keep their bounds, and
      only a finish closes a row. */
  ghost predicate Untouched(s: LP.Sys, t: LP.Sys) {
    && |s.grants| <= |t.grants| && |s.rows| <= |t.rows|
    && (forall g :: 0 <= g < |s.grants| && s.grants[g].phase != LP.Splitting ==>
          t.grants[g].h == s.grants[g].h && t.grants[g].phase != LP.Splitting)
    && (forall i :: 0 <= i < |t.rows| && IsClosed(t.rows[i]) ==>
          && i < |s.rows| && IsClosed(s.rows[i])
          && t.rows[i].lower == s.rows[i].lower && t.rows[i].upper == s.rows[i].upper)
  }

  lemma ReclaimLeavesClosed(rows: seq<Row>, lost: Row -> bool)
    ensures var t := LP.ReclaimAll(rows, lost);
      |t| == |rows| && forall i :: 0 <= i < |t| && IsClosed(t[i]) ==> t[i] == rows[i]
  {
    var t := LP.ReclaimAll(rows, lost);
    assert forall i :: 0 <= i < |rows| ==> t[i] == Reclaimed(rows[i], lost(rows[i]));
  }

  lemma GrantLeavesClosed(s: LP.Sys, a: LP.Action)
    requires LP.Inv(s) && LP.Enabled(s, a) && (a.Reuse? || a.Split? || a.Carve?)
    ensures Untouched(s, LP.Apply(s, a))
  {
    if a.Carve? {
      LP.CarveKeeps(s, a.node, a.rangeSize, a.now);
    }
  }

  lemma TableLeavesClosed(s: LP.Sys, a: LP.Action)
    requires LP.Inv(s) && LP.Enabled(s, a) && !a.Finish?
    ensures Untouched(s, LP.Apply(s, a))
  {
    match a
    case Boot(_) =>
    case SetFloor(_) =>
    case Reuse(_, _, _) => GrantLeavesClosed(s, a);
    case Split(_, _) => GrantLeavesClosed(s, a);
    case Carve(_, _, _) => GrantLeavesClosed(s, a);
    case Renew(_, _) =>
    case Release(_, _) =>
    case ReclaimOwn(node) => ReclaimLeavesClosed(s.rows, r => OwnedBy(r, node));
    case ReclaimDead(online) => ReclaimLeavesClosed(s.rows, r => Orphaned(r, online));
    case Crash(_) =>
  }

  lemma UntouchedKeeps(s: State, sys: LP.Sys)
    requires Inv(s) && LP.Inv(sys) && Untouched(s.sys, sys)
    ensures Inv(s.(sys := sys))
  {
  }

  // ----- steps keep the invariant

  lemma RelistKeepsWorker(w: Worker, h: Handle, history: seq<set<nat>>, handled: set<nat>, listing: set<nat>)
    requires WorkerOk(w, h, history, handled)
    ensures WorkerOk(w, h, history + [listing], handled)
  {
    var next := history + [listing];
    forall from: nat, to: nat, x: nat | to <= |history| && StayedListed(next, from, to, x)
      ensures StayedListed(history, from, to, x)
    {
      forall k | from <= k < to && k < |history|
        ensures x in history[k]
      {
        assert x in next[k];
      }
    }
    if w.Paging? {
      forall x: nat | InRange(h, x) && w.cursor <= x && StayedListed(next, w.from, |next|, x)
        ensures x in w.out
      {
        assert StayedListed(next, w.from, |history|, x);
      }
    }
  }

  lemma RelistKeeps(s: State, listing: set<nat>)
    requires Inv(s)
    ensures Inv(s.(history := s.history + [listing]))
  {
    var t := s.(history := s.history + [listing]);
    forall g | g in s.workers
      ensures WorkerOk(s.workers[g], s.sys.grants[g].h, t.history, s.handled)
    {
      RelistKeepsWorker(s.workers[g], s.sys.grants[g].h, s.history, s.handled, listing);
    }
    forall i | 0 <= i < |s.sys.rows| && IsClosed(s.sys.rows[i])
      ensures AllHandled(t.history, s.spans[i].from, s.spans[i].to, s.sys.rows[i].lower, s.sys.rows[i].upper, s.handled)
    {
      var sp := s.spans[i];
      forall x: nat | StayedListed(t.history, sp.from, sp.to, x)
        ensures StayedListed(s.history, sp.from, sp.to, x)
      {
        forall k | sp.from <= k < sp.to && k < |s.history|
          ensures x in s.history[k]
        {
          assert x in t.history[k];
        }
      }
    }
  }

  /** A worker's knowledge does not get worse when more posts are handled. */
  lemma MoreHandled(w: Worker, h: Handle, history: seq<set<nat>>, handled: set<nat>, more: set<nat>)
    requires WorkerOk(w, h, history, handled) && handled <= more
    ensures WorkerOk(w, h, history, more)
  {
  }

  lemma RowsStayClosed(s: State, t: State)
    requires ClosedRowsOk(s) && t.sys == s.sys && t.history == s.history && t.spans == s.spans
    requires s.handled <= t.handled
    ensures ClosedRowsOk(t)
  {
  }

  lemma OneWorkerMoves(s: State, t: State, g: nat)
    requires WorkersOk(s) && t.sys == s.sys && t.history == s.history && s.handled <= t.handled
    requires g in t.workers && t.workers == s.workers[g := t.workers[g]]
    requires g < |s.sys.grants| && s.sys.grants[g].phase != LP.Splitting
    requires WorkerOk(t.workers[g], HandleOf(s, g), t.history, t.handled)
    ensures WorkersOk(t)
  {
    hide WorkerOk;
    forall k | k in t.workers && k != g
      ensures k < |s.sys.grants| && WorkerOk(t.workers[k], s.sys.grants[k].h, t.history, t.handled)
    {
      MoreHandled(s.workers[k], s.sys.grants[k].h, s.history, s.handled, t.handled);
    }
  }

  /** A step of one worker that leaves table, source and budget alone. */
  lemma WorkerStepKeeps(s: State, t: State, g: nat)
    requires Inv(s) && t.sys == s.sys && t.history == s.history && s.handled <= t.handled && t.spans == s.spans
    requires t.limits == s.limits && t.taken == s.taken && t.given == s.given
    requires g in t.workers && t.workers == s.workers[g := t.workers[g]]
    requires g < |s.sys.grants| && s.sys.grants[g].phase != LP.Splitting
    requires WorkerOk(t.workers[g], HandleOf(s, g), t.history, t.handled)
    ensures Inv(t)
  {
    hide WorkersOk, ClosedRowsOk, BudgetOk, WorkerOk, LP.Inv;
    OneWorkerMoves(s, t, g);
    RowsStayClosed(s, t);
    SameBudget(s, t);
  }

  /** What is known of a worker. */
  lemma KnownWorker(s: State, g: nat)
    requires WorkersOk(s) && g in s.workers
    ensures g < |s.sys.grants| && s.sys.grants[g].phase != LP.Splitting
    ensures WorkerOk(s.workers[g], HandleOf(s, g), s.history, s.handled)
  {
    hide WorkerOk;
  }

  lemma PageKeeps(s: State, g: nat)
    requires Inv(s) && Enabled(s, Page(g))
    ensures Inv(Apply(s, Page(g)))
  {
    KnownWorker(s, g);
    hide Inv, WorkersOk;
    var t := Apply(s, Page(g));
    NextPageKnows(s.history, s.handled, s.workers[g], HandleOf(s, g), t.workers[g]);
    hide WorkerOk;
    WorkerStepKeeps(s, t, g);
  }

  lemma NextPageKnows(history: seq<set<nat>>, handled: set<nat>, w: Worker, h: Handle, next: Worker)
    requires history != [] && w.Paging? && WorkerOk(w, h, history, handled)
    requires var page := Danbooru.Fetch(history[|history| - 1], h.lower, w.cursor);
      next == if Danbooru.Continues(page, h.lower) then Paging(w.from, page[|page| - 1], w.out + page)
              else Paged(w.from, |history|, w.out + page)
    ensures WorkerOk(next, h, history, handled)
  {
    var listing := history[|history| - 1];
    var page := Danbooru.Fetch(listing, h.lower, w.cursor);
    Danbooru.FetchCatches(listing, h.lower, w.cursor);
    forall x: nat | InRange(h, x) && (next.Paging? ==> next.cursor <= x)
        && StayedListed(history, w.from, |history|, x)
      ensures x in w.out + page
    {
      assert x in listing;
      if x < w.cursor {
        assert x in page;
      }
    }
  }

  lemma LoadKeeps(s: State, g: nat)
    requires Inv(s) && Enabled(s, Load(g))
    ensures Inv(Apply(s, Load(g)))
  {
    KnownWorker(s, g);
    hide Inv, WorkersOk, Found;
    WorkerStepKeeps(s, Apply(s, Load(g)), g);
  }

  /** A successful swap of a counter that was read as `seen`. */
  lemma SwapIsSafe(s: State, t: State, node: NodeId, seen: int, want: nat)
    requires BudgetOk(s) && Amount(s.taken, node) == seen && t.limits == s.limits
    requires var take := Share(Amount(s.limits, node), seen, want);
      t.taken == s.taken[node := seen + take] && t.given == s.given[node := Amount(s.given, node) + take]
    ensures BudgetOk(t)
  {
    forall n
      ensures NodeBudget(t.limits, t.taken, t.given, n)
    {
      assert NodeBudget(s.limits, s.taken, s.given, n);
    }
  }

  lemma SwapKnows(s: State, g: nat)
    requires s.history != [] && Enabled(s, Swap(g))
    requires WorkerOk(s.workers[g], HandleOf(s, g), s.history, s.handled)
    ensures var t := Apply(s, Swap(g)); WorkerOk(t.workers[g], HandleOf(s, g), t.history, t.handled)
  {
    hide Found, Share, Amount, AllHandled;
  }

  lemma SwapKeepsBudget(s: State, g: nat)
    requires s.history != [] && Enabled(s, Swap(g)) && BudgetOk(s)
    ensures BudgetOk(Apply(s, Swap(g)))
  {
    hide BudgetOk;
    var w, node := s.workers[g], HandleOf(s, g).node;
    if Amount(s.taken, node) == w.seen {
      SwapIsSafe(s, Apply(s, Swap(g)), node, w.seen, |w.out|);
    } else {
      SameBudget(s, Apply(s, Swap(g)));
    }
  }

  lemma SwapKeeps(s: State, g: nat)
    requires Inv(s) && Enabled(s, Swap(g))
    ensures Inv(Apply(s, Swap(g)))
  {
    hide LP.Inv, BudgetOk, WorkersOk, ClosedRowsOk, WorkerOk, Share;
    KnownWorker(s, g);
    SwapKnows(s, g);
    SwapKeepsBudget(s, g);
    OneWorkerMoves(s, Apply(s, Swap(g)), g);
    RowsStayClosed(s, Apply(s, Swap(g)));
  }

  lemma SameBudget(s: State, t: State)
    requires BudgetOk(s) && t.limits == s.limits && t.taken == s.taken && t.given == s.given
    ensures BudgetOk(t)
  {
  }

  lemma ClientKeeps(s: State, a: Action)
    requires Inv(s) && Enabled(s, a) && (a.ClientLoad? || a.ClientSwap?)
    ensures Inv(Apply(s, a))
  {
    hide LP.Inv, BudgetOk, WorkersOk, ClosedRowsOk;
    var t := Apply(s, a);
    if a.ClientSwap? && Amount(s.taken, s.clients[a.client].node) == s.clients[a.client].seen {
      SwapIsSafe(s, t, s.clients[a.client].node, s.clients[a.client].seen, s.clients[a.client].want);
    } else {
      SameBudget(s, t);
    }
    RowsStayClosed(s, t);
    SameWorkers(s, t);
  }

  lemma SameWorkers(s: State, t: State)
    requires WorkersOk(s) && t.sys == s.sys && t.history == s.history && t.handled == s.handled
    requires t.workers == s.workers
    ensures WorkersOk(t)
  {
    hide WorkerOk;
  }

  lemma IndexKeeps(s: State, a: Action)
    requires Inv(s) && Enabled(s, a) && a.Index?
    ensures Inv(Apply(s, a))
  {
    KnownWorker(s, a.grant);
    hide Inv, WorkersOk;
    IndexedKnows(s, a);
    hide WorkerOk;
    WorkerStepKeeps(s, Apply(s, a), a.grant);
  }

  lemma IndexedKnows(s: State, a: Action)
    requires s.history != [] && Enabled(s, a) && a.Index?
    requires WorkerOk(s.workers[a.grant], HandleOf(s, a.grant), s.history, s.handled)
    ensures var t := Apply(s, a); WorkerOk(t.workers[a.grant], HandleOf(s, a.grant), t.history, t.handled)
  {
    var w, h, t := s.workers[a.grant], HandleOf(s, a.grant), Apply(s, a);
    var posts := PostsOf(w.out[..Min(w.take, |w.out|)], a.skip);
    if Clean(t.workers[a.grant].outcome) {
      assert |posts| == |w.out|;
      forall x: nat | InRange(h, x) && StayedListed(s.history, w.from, w.to, x)
        ensures x in t.handled
      {
        var i :| 0 <= i < |w.out| && w.out[i] == x;
        assert posts[i].id == x;
        assert HandledHere(posts, a.existing, a.accepted, i);
      }
    }
  }

  lemma ConcludeKeeps(s: State, g: nat)
    requires Inv(s) && Enabled(s, Conclude(g))
    ensures Inv(Apply(s, Conclude(g)))
  {
    KnownWorker(s, g);
    hide Inv, WorkersOk;
    WorkerStepKeeps(s, Apply(s, Conclude(g)), g);
  }

  /** A closing statement that takes effect changes only its own row, which the handle describes. */
  ghost predicate ClosesOneRow(s: LP.Sys, t: LP.Sys, g: nat, v: Verdict)
    requires g < |s.grants|
  {
    var h := s.grants[g].h;
    && |s.rows| == |t.rows| && |t.grants| == |s.grants|
    && (forall k :: 0 <= k < |s.grants| && s.grants[k].phase != LP.Splitting ==>
          t.grants[k].h == s.grants[k].h && t.grants[k].phase != LP.Splitting)
    && (if Holds(s.rows, h) then
          && h.lower == s.rows[h.id].lower == t.rows[h.id].lower
          && h.upper == s.rows[h.id].upper == t.rows[h.id].upper
          && (IsClosed(t.rows[h.id]) ==> v.MarkCompleted? || v.MarkEmpty?)
          && forall i :: 0 <= i < |s.rows| && i != h.id ==> t.rows[i] == s.rows[i]
        else t == s)
  }

  lemma ClosingTouchesOneRow(s: LP.Sys, g: nat, v: Verdict, now: int)
    requires LP.Inv(s) && LP.IsHeld(s, g)
    ensures var t := LP.Apply(s, ClosingStep(g, v, now)); LP.Inv(t) && ClosesOneRow(s, t, g, v)
  {
    LP.StepKeeps(s, ClosingStep(g, v, now));
  }

  lemma ClosedRowStaysTrue(s: State, t: State, g: nat, w: Worker)
    requires WorkersOk(s) && ClosedRowsOk(s) && g in s.workers && s.workers[g] == w && w.Decided?
    requires ClosesOneRow(s.sys, t.sys, g, w.verdict)
    requires t == s.(sys := t.sys, workers := s.workers[g := Closed],
      spans := if Holds(s.sys.rows, HandleOf(s, g)) then s.spans[HandleOf(s, g).id := Scan(w.from, w.to, w.cut)]
               else s.spans)
    ensures WorkersOk(t) && ClosedRowsOk(t)
  {
    assert WorkerOk(w, HandleOf(s, g), s.history, s.handled);
  }

  lemma CloseKeeps(s: State, g: nat, now: int)
    requires Inv(s) && Enabled(s, Close(g, now))
    ensures Inv(Apply(s, Close(g, now)))
  {
    ClosingTouchesOneRow(s.sys, g, s.workers[g].verdict, now);
    ClosedRowStaysTrue(s, Apply(s, Close(g, now)), g, s.workers[g]);
  }

  lemma StepKeeps(s: State, a: Action)
    requires Inv(s) && Enabled(s, a)
    ensures Inv(Apply(s, a))
  {
    hide LP.Inv, WorkersOk, ClosedRowsOk, BudgetOk;
    match a
    case Table(step) =>
      LP.StepKeeps(s.sys, step);
      TableLeavesClosed(s.sys, step);
      UntouchedKeeps(s, LP.Apply(s.sys, step));
    case Relist(listing) => RelistKeeps(s, listing);
    case Begin(g) => BeginKeeps(s, g);
    case Page(g) => PageKeeps(s, g);
    case PageFails(g) => PageFailsKeeps(s, g);
    case Load(g) => LoadKeeps(s, g);
    case Swap(g) => SwapKeeps(s, g);
    case ClientLoad(_, _, _) => ClientKeeps(s, a);
    case ClientSwap(_) => ClientKeeps(s, a);
    case Index(_, _, _, _, _, _) => IndexKeeps(s, a);
    case Conclude(g) => ConcludeKeeps(s, g);
    case Close(g, now) => CloseKeeps(s, g, now);
  }

  lemma PageFailsKeeps(s: State, g: nat)
    requires Inv(s) && Enabled(s, PageFails(g))
    ensures Inv(Apply(s, PageFails(g)))
  {
    KnownWorker(s, g);
    hide Inv, WorkersOk;
    WorkerStepKeeps(s, Apply(s, PageFails(g)), g);
  }

  lemma BeginKeeps(s: State, g: nat)
    requires Inv(s) && Enabled(s, Begin(g))
    ensures Inv(Apply(s, Begin(g)))
  {
  }

  lemma {:induction false} RunKeeps(s: State, run: seq<Action>)
    requires Inv(s) && Legal(s, run)
    ensures Inv(Exec(s, run))
    decreases |run|
  {
    if run != [] {
      StepKeeps(s, run[0]);
      RunKeeps(Apply(s, run[0]), run[1..]);
    }
  }

  lemma InitialInv(s: State)
    requires Initial(s)
    ensures Inv(s)
  {
    hide LP.Inv;
    LP.StartInv();
  }

  lemma ReachableKeeps(s: State)
    requires Reachable(s)
    ensures Inv(s)
  {
    hide Inv;
    var start, run :| Initial(start) && Legal(start, run) && Exec(start, run) == s;
    InitialInv(start);
    RunKeeps(start, run);
  }

  // ----- main results

  /** In every run, each post that stayed listed throughout the scan behind a completed or empty row
      was skipped, stored already, or accepted by the sink; no such row's batch was cut short. */
  lemma CompletedMeansComplete(s: State, i: nat, x: nat)
    requires Reachable(s) && i < |s.sys.rows| && IsClosed(s.sys.rows[i])
    requires s.sys.rows[i].lower <= x <= s.sys.rows[i].upper && x != 0
    ensures i in s.spans && !s.spans[i].cut
    ensures StayedListed(s.history, s.spans[i].from, s.spans[i].to, x) ==> x in s.handled
  {
    ReachableKeeps(s);
  }

  /** However the swaps of a node's range, catch-up and retry workers interleave, the counter accounts for every
      share handed out, none is lost or counted twice, and under a limit they never exceed it together. */
  lemma BudgetIsShared(s: State, node: NodeId)
    requires Reachable(s)
    ensures Amount(s.given, node) == Amount(s.taken, node)
    ensures Amount(s.limits, node) > 0 ==> Amount(s.given, node) <= Amount(s.limits, node)
  {
    ReachableKeeps(s);
    assert NodeBudget(s.limits, s.taken, s.given, node);
  }

  /** Closing a range whose batch the budget cut short never leaves its row completed or empty. */
  lemma CutRangesAreGivenBack(s: State, g: nat, now: int)
    requires Reachable(s) && Enabled(s, Close(g, now)) && s.workers[g].cut && Holds(s.sys.rows, HandleOf(s, g))
    ensures var t := LP.Apply(s.sys, ClosingStep(g, s.workers[g].verdict, now));
      HandleOf(s, g).id < |t.rows| && !IsClosed(t.rows[HandleOf(s, g).id])
  {
    ReachableKeeps(s);
    assert WorkerOk(s.workers[g], HandleOf(s, g), s.history, s.handled);
    ClosingTouchesOneRow(s.sys, g, s.workers[g].verdict, now);
  }

  // ----- how a range ends

  /** No step but its own closing touches a worker that has decided. */
  lemma DecidedStays(s: State, a: Action, g: nat)
    requires s.history != [] && Enabled(s, a) && g in s.workers && s.workers[g].Decided?
    requires !(a.Close? && a.grant == g)
    ensures var t := Apply(s, a); g in t.workers && t.workers[g] == s.workers[g]
  {
  }

  ghost predicate NoneCloses(run: seq<Action>, g: nat) {
    forall k :: 0 <= k < |run| ==> !(run[k].Close? && run[k].grant == g)
  }

  lemma {:induction false} DecidedWaits(s: State, run: seq<Action>, g: nat)
    requires Legal(s, run) && g in s.workers && s.workers[g].Decided? && NoneCloses(run, g)
    ensures var t := Exec(s, run); t.history != [] && g in t.workers && t.workers[g] == s.workers[g]
    decreases |run|
  {
    if run != [] {
      DecidedStays(s, run[0], g);
      hide Apply, Enabled;
      DecidedWaits(Apply(s, run[0]), run[1..], g);
    }
  }

  /** The node has been given all the posts it may take. */
  ghost predicate BudgetUsed(s: State, node: NodeId) {
    node in s.limits && s.limits[node] > 0 && (if node in s.taken then s.taken[node] else 0) >= s.limits[node]
  }

  /** No worker gets stuck: a grant that is held can be begun, and each worker has its next step whatever the
      others do, up to the closing while its grant is held. */
  lemma WorkersGoOn(s: State, g: nat, now: int)
    requires s.history != [] && g < |s.sys.grants|
    ensures forall listing :: Enabled(s, Relist(listing))
    ensures LP.IsHeld(s.sys, g) && g !in s.workers ==> Enabled(s, Begin(g))
    ensures g in s.workers ==> match s.workers[g]
      case Paging(_, _, _) => Enabled(s, Page(g)) && Enabled(s, PageFails(g))
      case Paged(_, _, out) => if out == [] then Enabled(s, Conclude(g)) else Enabled(s, Load(g))
      case Loaded(_, _, _, _) => Enabled(s, Swap(g))
      case Reserved(_, _, _, _) => forall skip, existing, accepted, failed ::
        Enabled(s, Index(g, skip, existing, accepted, failed, OtherError))
      case Reported(_, _, _, _) => Enabled(s, Conclude(g))
      case Decided(_, _, _, _) => LP.IsHeld(s.sys, g) ==> Enabled(s, Close(g, now))
      case Closed => true
  {
  }

  /** What a worker reports of its batch: whether it was cut, the error, and whether a post failed. */
  lemma IndexReports(s: State, a: Action)
    requires s.history != [] && Enabled(s, a) && (a.Index? || a.PageFails?)
    ensures var w := s.workers[a.grant]; var t := Apply(s, a).workers[a.grant];
      && t.Reported? && t.from == w.from
      && (a.Index? ==> t.cut == (w.take < |w.out|) && t.outcome == Ran(w.take < |w.out|, a.error, a.failed != []))
      && (a.PageFails? ==> !t.cut && t.outcome == Ran(false, OtherError, false))
  {
  }

  /** The row a range leaves behind, whatever happens between the decision and the statement, as long as the
      handle still holds it. A range whose batch was cut, or that met a full index, or whose node has used its
      budget, is given back without using a try; one with an error or a failed post is failed and rests; a range
      without posts is empty, and one whose posts all went well is completed. */
  lemma ClosedAs(s: State, g: nat, run: seq<Action>, now: int)
    requires s.history != [] && Enabled(s, Conclude(g))
    requires var t := Apply(s, Conclude(g)); Legal(t, run) && NoneCloses(run, g)
    requires var u := Exec(Apply(s, Conclude(g)), run); Enabled(u, Close(g, now)) && Holds(u.sys.rows, HandleOf(u, g))
    ensures var u := Exec(Apply(s, Conclude(g)), run);
      u.history != [] && HandleOf(u, g).id < |u.sys.rows| == |Apply(u, Close(g, now)).sys.rows|
    ensures var u := Exec(Apply(s, Conclude(g)), run);
      var was := u.sys.rows[HandleOf(u, g).id];
      var left := Apply(u, Close(g, now)).sys.rows[HandleOf(u, g).id];
      var o := s.workers[g];
      && left.lower == was.lower && left.upper == was.upper && left.node == None
      && (if BudgetUsed(s, s.sys.grants[g].h.node) then left.status == Failed && GivenBack(was, left, now)
          else if o.Paged? then left.status == Empty && left.attempts == was.attempts
          else if o.outcome == NothingListed then left.status == Empty && left.attempts == was.attempts
          else if o.outcome.trimmed || o.outcome.error == IndexFull then
            left.status == Failed && GivenBack(was, left, now)
          else if o.outcome.error == OtherError || o.outcome.someFailed then
            left.status == Failed && left.attempts == was.attempts && left.readyAt > now
          else left.status == Completed && left.attempts == was.attempts)
  {
    var t := Apply(s, Conclude(g));
    DecidedWaits(t, run, g);
    var u := Exec(t, run);
    hide Legal, Exec;
    VerdictClosesAs(u, g, now);
    hide DoClose;
    assert u.workers[g].verdict == t.workers[g].verdict;
  }

  /** The row each verdict leaves. */
  lemma VerdictClosesAs(u: State, g: nat, now: int)
    requires u.history != [] && Enabled(u, Close(g, now)) && Holds(u.sys.rows, HandleOf(u, g))
    ensures HandleOf(u, g).id < |u.sys.rows| == |Apply(u, Close(g, now)).sys.rows|
    ensures var was := u.sys.rows[HandleOf(u, g).id]; var left := Apply(u, Close(g, now)).sys.rows[HandleOf(u, g).id];
      && left.lower == was.lower && left.upper == was.upper && left.node == None
      && match u.workers[g].verdict
         case MarkCompleted => left.status == Completed && left.attempts == was.attempts
         case MarkEmpty => left.status == Empty && left.attempts == was.attempts
         case MarkFailed => left.status == Failed && left.attempts == was.attempts && left.readyAt > now
         case GiveBack => left.status == Failed && GivenBack(was, left, now)
  {
  }

  ghost predicate GivenBack(was: Row, left: Row, now: int) {
    left.attempts == Max(was.attempts - 1, 0) && left.readyAt == now
  }

  // ----- shares of the budget

  /** A worker that reads the counter gets everything it wants without a limit and nothing at the limit; a
      successful swap leaves the counter at the sum or at the limit, and gives exactly what it was raised by. */
  lemma SharesAreExact(s: State, g: nat)
    requires s.history != [] && At(s, g)
    ensures Enabled(s, Load(g)) ==>
      var node := HandleOf(s, g).node; var limit := Amount(s.limits, node); var w := Apply(s, Load(g)).workers[g];
      && (limit <= 0 ==> w.Reserved? && w.take == |s.workers[g].out|)
      && (0 < limit <= Amount(s.taken, node) ==> w.Reserved? && w.take == 0)
      && (limit > Amount(s.taken, node) && limit > 0 ==> w.Loaded? && w.seen == Amount(s.taken, node))
      && w.out == s.workers[g].out
    ensures Enabled(s, Swap(g)) && Amount(s.limits, HandleOf(s, g).node) > s.workers[g].seen >= 0 ==>
      var node := HandleOf(s, g).node; var t := Apply(s, Swap(g)); var want := |s.workers[g].out|;
      if Amount(s.taken, node) == s.workers[g].seen then
        && Amount(t.taken, node) == Min(Amount(s.limits, node), Amount(s.taken, node) + want)
        && t.workers[g].Reserved? && t.workers[g].take == Amount(t.taken, node) - Amount(s.taken, node)
        && t.workers[g].out == s.workers[g].out
      else t.taken == s.taken && t.workers[g].Paged?
  {
  }

  /** The same for a catch-up or retry worker. */
  lemma ClientSharesAreExact(s: State, c: nat, node: NodeId, want: nat)
    requires s.history != []
    ensures c !in s.clients ==> Enabled(s, ClientLoad(c, node, want))
    ensures c !in s.clients ==>
      var limit, taken := Amount(s.limits, node), Amount(s.taken, node); var t := Apply(s, ClientLoad(c, node, want));
      if 0 < want && 0 < limit && taken < limit then t == s.(clients := s.clients[c := Client(node, want, taken)])
      else t == s
    ensures c in s.clients ==> Enabled(s, ClientSwap(c))
    ensures c in s.clients && 0 <= s.clients[c].seen < Amount(s.limits, s.clients[c].node) ==>
      var w := s.clients[c]; var t := Apply(s, ClientSwap(c));
      && c !in t.clients
      && Amount(t.taken, w.node) == if Amount(s.taken, w.node) != w.seen then Amount(s.taken, w.node)
                                    else Min(Amount(s.limits, w.node), w.seen + w.want)
  {
  }

  /** Nothing counts as handled that was not on the part of a batch that got a share, and skipped, stored
      already, or accepted by the sink. */
  lemma HandledIsEarned(s: State, a: Action, x: nat)
    requires s.history != [] && Enabled(s, a) && x in Apply(s, a).handled && x !in s.handled
    ensures a.Index?
    ensures exists i ::
      && 0 <= i < |s.workers[a.grant].out| && i < s.workers[a.grant].take
      && s.workers[a.grant].out[i] == x && (x in a.skip || x in a.existing || i in a.accepted)
  {
    assert a.Index?;
    var w := s.workers[a.grant];
    var posts := PostsOf(w.out[..Min(w.take, |w.out|)], a.skip);
    var i: nat :| i < |posts| && HandledHere(posts, a.existing, a.accepted, i) && posts[i].id == x;
    assert w.out[i] == x;
  }
}
