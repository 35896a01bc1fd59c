/**
 Catching up with new posts: any number of nodes read the shared watermark, fetch what lies above it,
 index it, queue the failures for retry and raise the watermark, interleaved with each other, with the
 retry workers and with a changing source. Runs are taken between two boots.
 */
module Catchup {
  import opened Wrappers
  import opened Lease
  import opened Sorting
  import Crawler

  const PAGE: nat := 200

  datatype RetryStatus = Pending | Leased | Succeeded

  datatype Retry = Retry(status: RetryStatus, attempts: nat)

  datatype Node =
    | Idle
    | Read(mark: nat)
    | Fetched(mark: nat, page: seq<nat>)
    | Indexed(mark: nat, page: seq<nat>, take: nat, failed: set<nat>)
    | Queued(mark: nat, page: seq<nat>, take: nat)

  datatype State = State(boot: nat, watermark: nat, history: seq<set<nat>>, handled: set<nat>,
                         retries: map<nat, Retry>, nodes: map<NodeId, Node>)

  datatype Step =
    | Relist(listing: set<nat>)
    | ReadMark(node: NodeId)
    | FetchNew(node: NodeId, page: seq<nat>)
    | IndexNew(node: NodeId, take: nat, done: set<nat>, failed: set<nat>, error: bool)
    | Enqueue(node: NodeId, ok: bool)
    | Advance(node: NodeId)
    | LeaseRetry(id: nat)
    | RunRetry(id: nat, token: nat, limit: int, taken: int, cause: Crawler.IndexError, someFailed: bool)
    | DropRetry(id: nat)

  /** The source's answer to `order:id_asc id:>mark`, cut to one page. */
  ghost predicate OldestAbove(listing: set<nat>, mark: nat, page: seq<nat>) {
    && Rising(page) && |page| <= PAGE
    && (forall i :: 0 <= i < |page| ==> page[i] in listing && page[i] > mark)
    && (forall x :: x in listing && x > mark ==>
          x in page || (|page| == PAGE && forall i :: 0 <= i < |page| ==> page[i] < x))
  }

  ghost function NodeAt(s: State, n: NodeId): Node {
    if n in s.nodes then s.nodes[n] else Idle
  }

  ghost predicate Enabled(s: State, a: Step) {
    match a
    case Relist(_) => true
    case ReadMark(n) => NodeAt(s, n).Idle?
    case FetchNew(n, page) =>
      NodeAt(s, n).Read? && s.history != [] && OldestAbove(s.history[|s.history| - 1], NodeAt(s, n).mark, page)
    case IndexNew(n, take, done, failed, error) =>
      && NodeAt(s, n).Fetched? && take <= |NodeAt(s, n).page|
      && (!error ==> forall i :: 0 <= i < take ==> NodeAt(s, n).page[i] in done + failed)
    case Enqueue(n, _) => NodeAt(s, n).Indexed?
    case Advance(n) => NodeAt(s, n).Queued?
    case LeaseRetry(id) =>
      id in s.retries && s.retries[id].status != Succeeded && s.retries[id].attempts < MAX_ATTEMPTS
    case RunRetry(id, _, _, _, _, _) => id in s.retries
    case DropRetry(id) => id in s.retries && s.retries[id].status == Leased
  }

  /** Failures become pending again unless their retry has succeeded already. */
  ghost function EnqueueAll(retries: map<nat, Retry>, failed: set<nat>): map<nat, Retry> {
    map id | id in retries.Keys + failed ::
      if id !in retries then Retry(Pending, 0)
      else if id in failed && retries[id].status != Succeeded then retries[id].(status := Pending)
      else retries[id]
  }

  function Highest(page: seq<nat>): nat {
    if page == [] then 0 else Max(Highest(page[..|page| - 1]), page[|page| - 1])
  }

  /** The row is leased under the token the worker was given; the worker's node is not looked at. */
  ghost predicate HoldsRetry(s: State, id: nat, token: nat) {
    id in s.retries && s.retries[id].status == Leased && s.retries[id].attempts == token
  }

  /** How retryOne leaves the row. It looks at the error and the failed list of its one-post batch, not at
      whether the budget left room for the post at all. */
  function RetryAfter(r: Retry, share: nat, error: Crawler.IndexError, someFailed: bool): Retry {
    if share == 0 then r.(status := Succeeded)
    else if error == Crawler.IndexFull then Retry(Pending, if r.attempts > 0 then r.attempts - 1 else 0)
    else if error == Crawler.OtherError || someFailed then r.(status := Pending)
    else r.(status := Succeeded)
  }

  /** The post is indexed whether or not the lease still stands; the row changes only if it does. */
  ghost function AfterRetry(s: State, id: nat, token: nat, share: nat, error: Crawler.IndexError,
                            someFailed: bool): State
    requires id in s.retries
  {
    s.(handled := if share > 0 && error == Crawler.NoError && !someFailed then s.handled + {id} else s.handled,
       retries := if HoldsRetry(s, id, token)
                  then s.retries[id := RetryAfter(s.retries[id], share, error, someFailed)] else s.retries)
  }

  ghost function Apply(s: State, a: Step): State
    requires Enabled(s, a)
  {
    match a
    case Relist(listing) => s.(history := s.history + [listing])
    case ReadMark(n) => s.(nodes := s.nodes[n := Read(s.watermark)])
    case FetchNew(n, page) =>
      s.(nodes := s.nodes[n := if page == [] then Idle else Fetched(NodeAt(s, n).mark, page)])
    case IndexNew(n, take, done, failed, error) =>
      var w := NodeAt(s, n);
      s.(handled := s.handled + done,
         nodes := s.nodes[n := if error then Idle else Indexed(w.mark, w.page, take, failed)])
    case Enqueue(n, ok) =>
      var w := NodeAt(s, n);
      s.(retries := if ok then EnqueueAll(s.retries, w.failed) else s.retries,
         nodes := s.nodes[n := Queued(w.mark, w.page, w.take)])
    case Advance(n) =>
      var w := NodeAt(s, n);
      s.(watermark := if w.take < |w.page| || Highest(w.page) <= w.mark then s.watermark
                      else Max(s.watermark, Highest(w.page)),
         nodes := s.nodes[n := Idle])
    case LeaseRetry(id) => s.(retries := s.retries[id := Retry(Leased, s.retries[id].attempts + 1)])
    case RunRetry(id, token, limit, taken, error, someFailed) =>
      AfterRetry(s, id, token, Crawler.Share(limit, taken, 1), error, someFailed)
    case DropRetry(id) => s.(retries := s.retries[id := s.retries[id].(status := Pending)])
  }

  ghost predicate Legal(s: State, run: seq<Step>)
    decreases |run|
  {
    run == [] || (Enabled(s, run[0]) && Legal(Apply(s, run[0]), run[1..]))
  }

  ghost function Exec(s: State, run: seq<Step>): State
    requires Legal(s, run)
    decreases |run|
  {
    if run == [] then s else Exec(Apply(s, run[0]), run[1..])
  }

  ghost predicate Initial(s: State) {
    s.watermark == s.boot && s.retries == map[] && s.nodes == map[] && |s.history| == 1
  }

  // ----- the promise

  ghost predicate SeenPast(listing: set<nat>, x: nat) {
    exists y :: y in listing && y > x
  }

  /** Listed at every moment at which a later post was listed too. */
  ghost predicate Stable(history: seq<set<nat>>, x: nat) {
    forall k :: 0 <= k < |history| && SeenPast(history[k], x) ==> x in history[k]
  }

  /** Queued and not recorded as succeeded: either waiting for a try or being tried, or given up after five. */
  ghost predicate InQueue(s: State, x: nat) {
    x in s.retries && s.retries[x].status != Succeeded
  }

  ghost predicate Waiting(s: State, x: nat) {
    && x in s.retries
    && (s.retries[x].status == Leased || (s.retries[x].status == Pending && s.retries[x].attempts < MAX_ATTEMPTS))
  }

  ghost predicate GivenUp(s: State, x: nat) {
    x in s.retries && s.retries[x].status == Pending && s.retries[x].attempts >= MAX_ATTEMPTS
  }

  /** Every stably listed post the watermark has passed was handled, or waits in the retry queue. */
  ghost predicate Kept(s: State) {
    forall x: nat :: s.boot < x <= s.watermark && Stable(s.history, x) ==> x in s.handled || InQueue(s, x)
  }

  ghost predicate SucceededHandled(s: State) {
    forall x :: x in s.retries && s.retries[x].status == Succeeded ==> x in s.handled
  }

  /** What every node's knowledge is worth at any time, whatever was lost. */
  ghost predicate NodeOk(s: State, w: Node) {
    match w
    case Idle => true
    case Read(mark) => mark <= s.watermark
    case Fetched(mark, page) => mark <= s.watermark && PageComplete(s, mark, page)
    case Indexed(mark, page, take, failed) =>
      && mark <= s.watermark && PageComplete(s, mark, page) && take <= |page|
      && forall i :: 0 <= i < take ==> page[i] in s.handled + failed
    case Queued(mark, page, take) =>
      mark <= s.watermark && PageComplete(s, mark, page) && take <= |page|
  }

  /** No stable post lies between the mark and the page's end without being on the page. */
  ghost predicate PageComplete(s: State, mark: nat, page: seq<nat>) {
    forall x: nat :: mark < x <= Highest(page) && Stable(s.history, x) ==> x in page
  }

  ghost predicate Base(s: State) {
    s.boot <= s.watermark && forall n :: n in s.nodes ==> NodeOk(s, s.nodes[n])
  }

  /** A node about to raise the watermark has everything it took from its page in sight. */
  ghost predicate InSight(s: State, w: Node) {
    w.Queued? ==> forall i :: 0 <= i < w.take && i < |w.page| ==> w.page[i] in s.handled || InQueue(s, w.page[i])
  }

  ghost predicate Inv(s: State) {
    && Base(s) && Kept(s) && SucceededHandled(s)
    && forall n :: n in s.nodes ==> InSight(s, s.nodes[n])
  }

  /** The guard of a step that may break the promise: an advance finds its page cut, or passed already, or each
      stable post that it would newly pass handled or queued; a retry that is recorded as succeeded had a share
      of the budget, or concerns a post that was handled anyway or is not promised. */
  ghost predicate Sound(s: State, a: Step)
    requires Enabled(s, a)
  {
    match a
    case Advance(n) =>
      var w := NodeAt(s, n);
      || w.take < |w.page| || Highest(w.page) <= s.watermark
      || forall x :: x in w.page && s.watermark < x && Stable(s.history, x) ==> x in s.handled || InQueue(s, x)
    case RunRetry(id, token, limit, taken, _, _) =>
      || !HoldsRetry(s, id, token) || Crawler.Share(limit, taken, 1) >= 1 || id in s.handled
      || !(s.boot < id <= s.watermark && Stable(s.history, id))
    case _ => true
  }

  /** What a caller can see before a step: a queueing error hits no post that is new to the queue, and a retry
      that still holds its row has a share of the budget, unless its post was handled anyway. */
  ghost predicate Harmless(s: State, a: Step)
    requires Enabled(s, a)
  {
    match a
    case Enqueue(n, ok) =>
      ok || forall i :: 0 <= i < NodeAt(s, n).take && i < |NodeAt(s, n).page| ==>
        NodeAt(s, n).page[i] in s.handled || InQueue(s, NodeAt(s, n).page[i])
    case RunRetry(id, token, limit, taken, _, _) =>
      HoldsRetry(s, id, token) ==> Crawler.Share(limit, taken, 1) >= 1 || id in s.handled
    case _ => true
  }

  lemma {:induction false} HighestIsMax(page: seq<nat>)
    ensures forall i :: 0 <= i < |page| ==> page[i] <= Highest(page)
    ensures page != [] ==> Highest(page) in page
    decreases |page|
  {
    if page != [] {
      HighestIsMax(page[..|page| - 1]);
    }
  }

  lemma StableShrinks(history: seq<set<nat>>, listing: set<nat>, x: nat)
    requires Stable(history + [listing], x)
    ensures Stable(history, x)
  {
    var next := history + [listing];
    forall k | 0 <= k < |history| && SeenPast(history[k], x)
      ensures x in history[k]
    {
      assert next[k] == history[k];
    }
  }

  /** What is known of a page stays true as listings come and posts are handled. */
  lemma NodeOkGrows(s: State, t: State, w: Node)
    requires NodeOk(s, w) && s.watermark <= t.watermark && s.handled <= t.handled
    requires forall x :: Stable(t.history, x) ==> Stable(s.history, x)
    ensures NodeOk(t, w)
  {
  }

  lemma StableOver(s: State, a: Step)
    requires Enabled(s, a)
    ensures forall x :: Stable(Apply(s, a).history, x) ==> Stable(s.history, x)
  {
    if a.Relist? {
      forall x | Stable(s.history + [a.listing], x)
        ensures Stable(s.history, x)
      {
        StableShrinks(s.history, a.listing, x);
      }
    }
  }

  /** A page of the oldest posts above the mark has no stable post missing below its end. */
  lemma FetchIsComplete(s: State, n: NodeId, page: seq<nat>)
    requires Enabled(s, FetchNew(n, page))
    ensures PageComplete(s, NodeAt(s, n).mark, page)
  {
    var mark := NodeAt(s, n).mark;
    var listing := s.history[|s.history| - 1];
    HighestIsMax(page);
    forall x: nat | mark < x <= Highest(page) && Stable(s.history, x)
      ensures x in page
    {
      if x < Highest(page) {
        assert SeenPast(listing, x);
      }
    }
  }

  /** Every step keeps this, whatever was lost. */
  lemma StepKeepsBase(s: State, a: Step)
    requires Base(s) && Enabled(s, a)
    ensures Base(Apply(s, a)) && s.watermark <= Apply(s, a).watermark && Apply(s, a).boot == s.boot
  {
    var t := Apply(s, a);
    StableOver(s, a);
    if a.FetchNew? {
      FetchIsComplete(s, a.node, a.page);
    }
    forall n | n in t.nodes
      ensures NodeOk(t, t.nodes[n])
    {
      if n in s.nodes {
        assert NodeOk(s, s.nodes[n]);
        hide Stable, SeenPast, Highest;
        NodeOkGrows(s, t, s.nodes[n]);
      }
    }
  }

  // ----- exactly when the promise is kept

  lemma AdvanceKeepsIff(s: State, n: NodeId)
    requires Base(s) && Kept(s) && Enabled(s, Advance(n))
    ensures Kept(Apply(s, Advance(n))) <==> Sound(s, Advance(n))
  {
    var w, t := NodeAt(s, n), Apply(s, Advance(n));
    assert NodeOk(s, w);
    HighestIsMax(w.page);
    if t.watermark > s.watermark {
      forall x: nat | s.watermark < x <= t.watermark && Stable(s.history, x)
        ensures x in w.page
      {
      }
      forall x | x in w.page
        ensures x <= t.watermark
      {
        var i :| 0 <= i < |w.page| && w.page[i] == x;
      }
    }
  }

  lemma RetryKeepsIff(s: State, a: Step)
    requires Kept(s) && Enabled(s, a) && a.RunRetry?
    ensures Kept(Apply(s, a)) <==> Sound(s, a)
  {
    var t := Apply(s, a);
    if !Sound(s, a) {
      assert t.retries[a.id].status == Succeeded && a.id !in t.handled;
    }
  }

  /** One step keeps the promise if and only if its guard holds; no other step can break it. */
  lemma StepKeepsIff(s: State, a: Step)
    requires Base(s) && Kept(s) && Enabled(s, a)
    ensures Kept(Apply(s, a)) <==> Sound(s, a)
  {
    match a
    case Advance(n) => AdvanceKeepsIff(s, n);
    case RunRetry(_, _, _, _, _, _) => RetryKeepsIff(s, a);
    case _ =>
      StableOver(s, a);
      hide Stable;
  }

  ghost predicate SoundThroughout(s: State, run: seq<Step>)
    requires Legal(s, run)
    decreases |run|
  {
    run == [] || (Sound(s, run[0]) && SoundThroughout(Apply(s, run[0]), run[1..]))
  }

  /** The promise holds at every moment of a run. */
  ghost predicate KeptThroughout(s: State, run: seq<Step>)
    requires Legal(s, run)
    decreases |run|
  {
    Kept(s) && (run == [] || KeptThroughout(Apply(s, run[0]), run[1..]))
  }

  lemma {:induction false} KeptIffSound(s: State, run: seq<Step>)
    requires Base(s) && Kept(s) && Legal(s, run)
    ensures KeptThroughout(s, run) <==> SoundThroughout(s, run)
    decreases |run|
  {
    hide Base, Kept, Sound, Apply, Enabled;
    if run != [] {
      StepKeepsBase(s, run[0]);
      StepKeepsIff(s, run[0]);
      if Sound(s, run[0]) {
        KeptIffSound(Apply(s, run[0]), run[1..]);
      }
    }
  }

  /** Between boots, in every interleaving: no stably listed post behind the watermark is ever lost if and only if
      each advance and each retry meets its guard. */
  lemma RunKeepsIff(s: State, run: seq<Step>)
    requires Initial(s) && Legal(s, run)
    ensures KeptThroughout(s, run) <==> SoundThroughout(s, run)
  {
    KeptIffSound(s, run);
  }

  // ----- what a round gets done

  /** A node that reads the watermark and fetches next, with nothing in between, gets only posts above the
      watermark as it stands: the oldest of them, at most 200, and all there are if fewer. */
  lemma FetchesAboveTheWatermark(s: State, n: NodeId, page: seq<nat>)
    requires Enabled(s, ReadMark(n)) && Enabled(Apply(s, ReadMark(n)), FetchNew(n, page))
    ensures s.history != []
    ensures var listing := s.history[|s.history| - 1];
      && |page| <= 200
      && (forall i :: 0 <= i < |page| ==> page[i] > s.watermark && page[i] in listing)
      && (forall i, j :: 0 <= i < j < |page| ==> page[i] < page[j])
      && (forall x :: x in listing && x > s.watermark && x !in page ==>
            |page| == 200 && forall i :: 0 <= i < |page| ==> page[i] < x)
  {
  }

  /** The round that follows, if the whole page got a share and indexing met no error, whether or not its failures
      could be queued. */
  ghost function Round(n: NodeId, page: seq<nat>, done: set<nat>, failed: set<nat>, ok: bool): seq<Step> {
    Then(ReadMark(n), Then(FetchNew(n, page),
      Then(IndexNew(n, |page|, done, failed, false), Then(Enqueue(n, ok), Then(Advance(n), [])))))
  }

  /** Such a round is possible whenever the node is idle: with the page the source would answer, and any way of
      indexing it that accounts for all of it. */
  lemma RoundIsPossible(s: State, n: NodeId, page: seq<nat>, done: set<nat>, failed: set<nat>, ok: bool)
    requires NodeAt(s, n).Idle? && s.history != [] && page != []
    requires OldestAbove(s.history[|s.history| - 1], s.watermark, page)
    requires forall i :: 0 <= i < |page| ==> page[i] in done + failed
    ensures Legal(s, Round(n, page, done, failed, ok))
  {
    var s1 := Apply(s, ReadMark(n));
    var s2 := Apply(s1, FetchNew(n, page));
    var s3 := Apply(s2, IndexNew(n, |page|, done, failed, false));
    var s4 := Apply(s3, Enqueue(n, ok));
    var s5 := Apply(s4, Advance(n));
    hide Legal, Exec, Then, Highest, OldestAbove;
    Nothing(s5);
    Prepend(s4, Advance(n), []);
    var r4 := Then(Advance(n), []);
    Prepend(s3, Enqueue(n, ok), r4);
    var r3 := Then(Enqueue(n, ok), r4);
    Prepend(s2, IndexNew(n, |page|, done, failed, false), r3);
    var r2 := Then(IndexNew(n, |page|, done, failed, false), r3);
    assert Enabled(s1, FetchNew(n, page));
    Prepend(s1, FetchNew(n, page), r2);
    Prepend(s, ReadMark(n), Then(FetchNew(n, page), r2));
  }

  /** No node gets stuck, however rounds interleave and the listing changes: each has its next step, with any
      outcome of indexing, and may queue with or without an error. */
  lemma NodesGoOn(s: State, n: NodeId, listing: set<nat>, done: set<nat>, failed: set<nat>, take: nat, ok: bool)
    ensures Enabled(s, Relist(listing)) && Apply(s, Relist(listing)) == s.(history := s.history + [listing])
    ensures match NodeAt(s, n)
      case Idle => Enabled(s, ReadMark(n))
      case Read(mark) => forall page ::
        s.history != [] && OldestAbove(s.history[|s.history| - 1], mark, page) ==> Enabled(s, FetchNew(n, page))
      case Fetched(_, page) => take <= |page| ==>
        && Enabled(s, IndexNew(n, take, done, failed, true))
        && ((forall i :: 0 <= i < take ==> page[i] in done + failed) ==>
              Enabled(s, IndexNew(n, take, done, failed, false)))
      case Indexed(_, _, _, _) => Enabled(s, Enqueue(n, ok))
      case Queued(_, _, _) => Enabled(s, Advance(n))
  {
  }

  lemma StepsOf(s: State, a: Step, rest: seq<Step>)
    requires Legal(s, Then(a, rest))
    ensures Enabled(s, a) && Legal(Apply(s, a), rest) && Exec(s, Then(a, rest)) == Exec(Apply(s, a), rest)
  {
    assert Then(a, rest)[1..] == rest;
  }

  /** An undisturbed round whose page is not cut ends with the watermark at the page's highest post, above where
      it was: it strictly rises as long as any newer post is listed. */
  lemma RoundRaisesTheWatermark(s: State, n: NodeId, page: seq<nat>, done: set<nat>, failed: set<nat>, ok: bool)
    requires Legal(s, Round(n, page, done, failed, ok)) && page != []
    ensures var t := Exec(s, Round(n, page, done, failed, ok));
      && t.watermark > s.watermark && t.watermark in page && (forall i :: 0 <= i < |page| ==> page[i] <= t.watermark)
      && done <= t.handled && (forall i :: 0 <= i < |page| ==> page[i] in done + failed)
      && (ok ==> forall x :: x in failed ==> x in t.retries)
  {
    var r4 := Then(Advance(n), []);
    var r3 := Then(Enqueue(n, ok), r4);
    var r2 := Then(IndexNew(n, |page|, done, failed, false), r3);
    var r1 := Then(FetchNew(n, page), r2);
    hide Legal, Exec, Then;
    StepsOf(s, ReadMark(n), r1);
    var s1 := Apply(s, ReadMark(n));
    StepsOf(s1, FetchNew(n, page), r2);
    FetchesAboveTheWatermark(s, n, page);
    var s2 := Apply(s1, FetchNew(n, page));
    StepsOf(s2, IndexNew(n, |page|, done, failed, false), r3);
    var s3 := Apply(s2, IndexNew(n, |page|, done, failed, false));
    StepsOf(s3, Enqueue(n, ok), r4);
    var s4 := Apply(s3, Enqueue(n, ok));
    StepsOf(s4, Advance(n), []);
    Nothing(Apply(s4, Advance(n)));
    HighestIsMax(page);
    var i :| 0 <= i < |page| && page[i] == Highest(page);
  }

  /** While a newer post is listed the next page is not empty, so such a round raises the watermark. */
  lemma NewPostsAreFetched(s: State, n: NodeId, page: seq<nat>, x: nat)
    requires Enabled(s, ReadMark(n)) && Enabled(Apply(s, ReadMark(n)), FetchNew(n, page))
    requires x in s.history[|s.history| - 1] && x > s.watermark
    ensures page != []
  {
  }

  /** Interleaved with any others, a node that advances leaves the watermark at or above all of an uncut page. */
  lemma AdvancePasses(s: State, n: NodeId)
    requires Base(s) && Enabled(s, Advance(n)) && NodeAt(s, n).take == |NodeAt(s, n).page|
    ensures forall i :: 0 <= i < |NodeAt(s, n).page| ==> NodeAt(s, n).page[i] <= Apply(s, Advance(n)).watermark
  {
    assert NodeOk(s, NodeAt(s, n));
    HighestIsMax(NodeAt(s, n).page);
  }

  // ----- what a retry gets done

  /** How a retry that still holds its row leaves it: indexed and succeeded; waiting again with its try used, after
      an error or a failure; waiting with its try given back, when the index is full; without a share of the
      budget, recorded as succeeded unindexed. One that lost its row leaves the row alone. */
  lemma RetryEnds(s: State, a: Step)
    requires Enabled(s, a) && a.RunRetry?
    ensures var t := Apply(s, a); var r := s.retries[a.id];
      var share := a.limit <= 0 || a.taken < a.limit;
      && t.retries.Keys == s.retries.Keys && (forall x :: x in s.retries && x != a.id ==> t.retries[x] == s.retries[x])
      && (share && a.cause == Crawler.NoError && !a.someFailed ==> t.handled == s.handled + {a.id})
      && (!share || a.cause != Crawler.NoError || a.someFailed ==> t.handled == s.handled)
      && (r.status != Leased || r.attempts != a.token ==> t.retries == s.retries)
      && Enabled(t, a)
      && (r.status == Leased && r.attempts == a.token ==>
            t.retries[a.id] == if !share then Retry(Succeeded, r.attempts)
                               else if a.cause == Crawler.IndexFull then Retry(Pending, Max(r.attempts - 1, 0))
                               else if a.cause == Crawler.OtherError || a.someFailed then Retry(Pending, r.attempts)
                               else Retry(Succeeded, r.attempts))
  {
  }

  /** Queueing makes each failed post wait, with the tries it has used, unless its retry has succeeded. */
  lemma EnqueueQueues(s: State, n: NodeId, x: nat)
    requires Enabled(s, Enqueue(n, true))
    ensures var t := Apply(s, Enqueue(n, true));
      && (x in t.retries <==> x in s.retries || x in NodeAt(s, n).failed)
      && (x in s.retries && (x !in NodeAt(s, n).failed || s.retries[x].status == Succeeded) ==>
            t.retries[x] == s.retries[x])
      && (x in s.retries && x in NodeAt(s, n).failed && s.retries[x].status != Succeeded ==>
            t.retries[x] == Retry(Pending, s.retries[x].attempts))
      && (x !in s.retries && x in NodeAt(s, n).failed ==> t.retries[x] == Retry(Pending, 0))
    ensures Apply(s, Enqueue(n, false)).retries == s.retries
  {
  }

  /** Each lease uses one of five tries and is what the worker reports with. */
  lemma LeaseUsesATry(s: State, id: nat)
    requires id in s.retries
    ensures Enabled(s, LeaseRetry(id)) <==> s.retries[id].status != Succeeded && s.retries[id].attempts < 5
    ensures Enabled(s, LeaseRetry(id)) ==>
      Apply(s, LeaseRetry(id)).retries == s.retries[id := Retry(Leased, s.retries[id].attempts + 1)]
    ensures Enabled(s, DropRetry(id)) <==> s.retries[id].status == Leased
    ensures Enabled(s, DropRetry(id)) ==>
      Apply(s, DropRetry(id)).retries == s.retries[id := Retry(Pending, s.retries[id].attempts)]
  {
  }

  // ----- a condition that looks at the steps alone

  /** A step that only adds to what is handled or queued keeps every node's posts in sight. */
  lemma SightGrows(s: State, t: State, n: NodeId)
    requires forall k :: k in s.nodes ==> InSight(s, s.nodes[k])
    requires forall x :: x in s.handled || InQueue(s, x) ==> x in t.handled || InQueue(t, x)
    requires forall k :: k in t.nodes && k != n ==> k in s.nodes && t.nodes[k] == s.nodes[k]
    ensures forall k :: k in t.nodes && k != n ==> InSight(t, t.nodes[k])
  {
    forall k | k in t.nodes && k != n
      ensures InSight(t, t.nodes[k])
    {
      assert InSight(s, s.nodes[k]);
    }
  }

  /** Queueing the failures keeps them in sight exactly when it works or had nothing new to queue. */
  lemma EnqueueKeepsIff(s: State, n: NodeId, ok: bool)
    requires Inv(s) && Enabled(s, Enqueue(n, ok))
    ensures Inv(Apply(s, Enqueue(n, ok))) <==> Harmless(s, Enqueue(n, ok))
  {
    var t := Apply(s, Enqueue(n, ok));
    var w := NodeAt(s, n);
    assert NodeOk(s, w);
    StepKeepsBase(s, Enqueue(n, ok));
    StepKeepsIff(s, Enqueue(n, ok));
    SightGrows(s, t, n);
    if ok {
      forall i | 0 <= i < w.take
        ensures w.page[i] in t.handled || InQueue(t, w.page[i])
      {
        assert w.page[i] in s.handled + w.failed;
      }
    }
    assert InSight(t, t.nodes[n]) <==> Harmless(s, Enqueue(n, ok));
  }

  lemma SightMakesAdvanceSound(s: State, n: NodeId)
    requires Inv(s) && Enabled(s, Advance(n))
    ensures Sound(s, Advance(n))
  {
    var w := NodeAt(s, n);
    assert NodeOk(s, w) && InSight(s, w);
    if w.take == |w.page| {
      forall x | x in w.page
        ensures x in s.handled || InQueue(s, x)
      {
        var i :| 0 <= i < |w.page| && w.page[i] == x;
      }
    }
  }

  /** A step keeps every post in sight if and only if it is harmless. */
  lemma SightKeptIff(s: State, a: Step)
    requires Inv(s) && Enabled(s, a)
    ensures Inv(Apply(s, a)) <==> Harmless(s, a)
  {
    var t := Apply(s, a);
    StepKeepsBase(s, a);
    StepKeepsIff(s, a);
    match a
    case Enqueue(n, ok) => EnqueueKeepsIff(s, n, ok);
    case Advance(n) =>
      SightMakesAdvanceSound(s, n);
      SightGrows(s, t, n);
    case RunRetry(id, _, _, _, _, _) =>
      if Harmless(s, a) {
        SightGrows(s, t, 0);
        SightGrows(s, t, 1);
      } else {
        assert t.retries[id].status == Succeeded && id !in t.handled;
      }
    case ReadMark(n) => SightGrows(s, t, n);
    case FetchNew(n, _) => SightGrows(s, t, n);
    case IndexNew(n, _, _, _, _) => SightGrows(s, t, n);
    case _ =>
      SightGrows(s, t, 0);
      SightGrows(s, t, 1);
  }

  ghost predicate HarmlessThroughout(s: State, run: seq<Step>)
    requires Legal(s, run)
    decreases |run|
  {
    run == [] || (Harmless(s, run[0]) && HarmlessThroughout(Apply(s, run[0]), run[1..]))
  }

  lemma {:induction false} RunKeeps(s: State, run: seq<Step>)
    requires Inv(s) && Legal(s, run) && HarmlessThroughout(s, run)
    ensures Inv(Exec(s, run)) && s.watermark <= Exec(s, run).watermark && Exec(s, run).boot == s.boot
    decreases |run|
  {
    hide Inv, Base, Harmless, Apply, Enabled;
    if run != [] {
      StepKeepsBase(s, run[0]) by {
        InvHasBase(s);
      }
      SightKeptIff(s, run[0]);
      RunKeeps(Apply(s, run[0]), run[1..]);
    }
  }

  lemma InvHasBase(s: State)
    requires Inv(s)
    ensures Base(s)
  {
  }

  lemma InitialInv(s: State)
    requires Initial(s)
    ensures Inv(s)
  {
  }

  /** Between boots, whatever the nodes interleave in harmless steps: the watermark only rises, and each stably
      listed post it has passed was handled by some node, or waits in the retry queue or is being retried, or
      was given up after five tries. */
  lemma WatermarkLeavesNoHole(s: State, run: seq<Step>, more: seq<Step>, x: nat)
    requires Initial(s) && Legal(s, run) && HarmlessThroughout(s, run)
    requires Legal(Exec(s, run), more) && HarmlessThroughout(Exec(s, run), more)
    ensures Exec(s, run).watermark <= Exec(Exec(s, run), more).watermark
    ensures var t := Exec(s, run);
      s.boot < x <= t.watermark && Stable(t.history, x) ==> x in t.handled || Waiting(t, x) || GivenUp(t, x)
  {
    InitialInv(s);
    RunKeeps(s, run);
    RunKeeps(Exec(s, run), more);
  }

  /** A post that was given up stays so: no worker leases it again, and failing once more does not revive it. */
  lemma GivenUpIsFinal(s: State, a: Step, x: nat)
    requires GivenUp(s, x) && Enabled(s, a)
    ensures GivenUp(Apply(s, a), x) && !Enabled(s, LeaseRetry(x))
  {
  }

  // ----- where the promise breaks

  /** Queueing the failures and then raising the watermark keeps the promise if and only if the page was cut
      short, or somebody had passed it already, or every failed post on it was handled or queued before or is
      new to the queue and the queueing worked (posts that were not stably listed are not promised). */
  lemma AdvanceAfterEnqueueIff(s: State, n: NodeId, ok: bool)
    requires Base(s) && Kept(s) && Enabled(s, Enqueue(n, ok))
    ensures var w := NodeAt(s, n); var t := Apply(s, Enqueue(n, ok));
      && Enabled(t, Advance(n))
      && (Kept(Apply(t, Advance(n))) <==>
            || w.take < |w.page| || Highest(w.page) <= s.watermark
            || forall x :: x in w.failed && x in w.page && s.boot < x && Stable(s.history, x) ==>
                x in s.handled || InQueue(s, x) || (ok && x !in s.retries))
  {
    var w, t := NodeAt(s, n), Apply(s, Enqueue(n, ok));
    assert NodeOk(s, w);
    StepKeepsBase(s, Enqueue(n, ok));
    StepKeepsIff(s, Enqueue(n, ok));
    StepKeepsIff(t, Advance(n));
    if w.take == |w.page| {
      PageIsCovered(s, w);
    }
  }

  lemma PageIsCovered(s: State, w: Node)
    requires w.Indexed? && NodeOk(s, w) && w.take == |w.page|
    ensures forall x :: x in w.page ==> x in s.handled + w.failed
  {
    forall x | x in w.page
      ensures x in s.handled + w.failed
    {
      var i :| 0 <= i < |w.page| && w.page[i] == x;
    }
  }

  /** A finished retry keeps its word exactly when its lease was lost, or the budget gave it room, or the post
      had been handled anyway. */
  lemma RetryKeepsItsWordIff(s: State, a: Step)
    requires SucceededHandled(s) && Enabled(s, a) && a.RunRetry?
    ensures SucceededHandled(Apply(s, a))
      <==> !HoldsRetry(s, a.id, a.token) || Crawler.Share(a.limit, a.taken, 1) >= 1 || a.id in s.handled
  {
    var t := Apply(s, a);
    if HoldsRetry(s, a.id, a.token) && Crawler.Share(a.limit, a.taken, 1) == 0 && a.id !in s.handled {
      assert t.retries[a.id].status == Succeeded && a.id !in t.handled;
    }
  }

  lemma Prepend(s: State, a: Step, rest: seq<Step>)
    requires Enabled(s, a) && Legal(Apply(s, a), rest)
    ensures Legal(s, Then(a, rest)) && Exec(s, Then(a, rest)) == Exec(Apply(s, a), rest)
  {
    assert Then(a, rest)[1..] == rest;
  }

  lemma Nothing(s: State)
    ensures Legal(s, []) && Exec(s, []) == s
  {
  }

  // One node, one listed post, which fails to index.
  ghost const FIRST: State := State(0, 0, [{5}], {}, map[], map[])
  ghost const FAILED_ONCE: State := FIRST.(nodes := map[7 := Indexed(0, [5], 1, {5})])

  lemma OneFails(rest: seq<Step>) returns (run: seq<Step>)
    requires Legal(FAILED_ONCE, rest)
    ensures Legal(FIRST, run) && Exec(FIRST, run) == Exec(FAILED_ONCE, rest)
  {
    var a, b, c := ReadMark(7), FetchNew(7, [5]), IndexNew(7, 1, {}, {5}, false);
    var s1 := FIRST.(nodes := map[7 := Read(0)]);
    var s2 := FIRST.(nodes := map[7 := Fetched(0, [5])]);
    assert Apply(FIRST, a) == s1;
    assert Enabled(s1, b) && Apply(s1, b) == s2;
    assert Enabled(s2, c) && Apply(s2, c) == FAILED_ONCE;
    hide *;
    Prepend(s2, c, rest);
    Prepend(s1, b, Then(c, rest));
    assert Enabled(FIRST, a) by {
      IdleReads();
    }
    Prepend(FIRST, a, Then(b, Then(c, rest)));
    run := Then(a, Then(b, Then(c, rest)));
  }

  lemma IdleReads()
    ensures Enabled(FIRST, ReadMark(7))
  {
  }

  /** Post 5 stayed listed, and is neither handled nor queued below the watermark. */
  lemma FivePassed(s: State)
    requires s.boot == 0 && s.watermark == 5 && s.history == [{5}] && 5 !in s.handled && !InQueue(s, 5)
    ensures !Kept(s)
  {
    assert Stable(s.history, 5);
  }

  /** A post fails and is queued. Its retry runs on a node whose last share is held by another batch still under
      way: it gets no share, is recorded as succeeded, and the post is nowhere. */
  lemma RetryCanBeLost() returns (run: seq<Step>)
    ensures Initial(FIRST) && Legal(FIRST, run) && !Kept(Exec(FIRST, run))
  {
    var a, b, c, d := Enqueue(7, true), Advance(7), LeaseRetry(5), RunRetry(5, 1, 1, 1, Crawler.NoError, false);
    var s1 := Apply(FAILED_ONCE, a);
    assert s1.retries == map[5 := Retry(Pending, 0)];
    var s2 := Apply(s1, b);
    assert Highest([5]) == 5 by {
      assert [5][..0] == [];
    }
    assert s2.watermark == 5;
    var s3 := Apply(s2, c);
    var s4 := Apply(s3, d);
    FivePassed(s4);
    hide Legal, Exec, Then, Kept, Highest;
    Nothing(s4);
    Prepend(s3, d, []);
    Prepend(s2, c, Then(d, []));
    Prepend(s1, b, Then(c, Then(d, [])));
    Prepend(FAILED_ONCE, a, Then(b, Then(c, Then(d, []))));
    run := OneFails(Then(a, Then(b, Then(c, Then(d, [])))));
  }

  /** A queueing error is only logged, so the advance that follows passes the failed post for good. */
  lemma LostEnqueueLeavesHole() returns (run: seq<Step>)
    ensures Initial(FIRST) && Legal(FIRST, run) && !Kept(Exec(FIRST, run))
  {
    var a, b := Enqueue(7, false), Advance(7);
    var s1 := Apply(FAILED_ONCE, a);
    var s2 := Apply(s1, b);
    assert Highest([5]) == 5 by {
      assert [5][..0] == [];
    }
    FivePassed(s2);
    hide Legal, Exec, Then, Kept, Highest;
    Nothing(s2);
    Prepend(s1, b, []);
    Prepend(FAILED_ONCE, a, Then(b, []));
    run := OneFails(Then(a, Then(b, [])));
  }
}
