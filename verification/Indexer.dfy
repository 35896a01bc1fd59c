/**
 IndexBatch: a filter in front, then one goroutine per post, a shared batch, and flushes that run
 beside them. Posts are named by their position, so two posts with one id stay two posts.
 */
module Indexer {
  import opened Sorting

  datatype Post = Post(id: nat, skip: bool)

  // ----- the filter

  ghost predicate Wanted(posts: seq<Post>, existing: set<nat>, i: nat)
    requires i < |posts|
  {
    !posts[i].skip && posts[i].id !in existing
  }

  method DropSkipped(posts: seq<Post>) returns (skipped: nat, pending: seq<nat>)
    ensures Rising(pending)
    ensures forall k :: 0 <= k < |pending| ==> pending[k] < |posts|
    ensures forall i: nat :: i < |posts| ==> (i in pending <==> !posts[i].skip)
    ensures |posts| == skipped + |pending|
  {
    skipped, pending := 0, [];
    for i := 0 to |posts|
      invariant Rising(pending)
      invariant forall k :: 0 <= k < |pending| ==> pending[k] < i
      invariant forall j: nat :: j < i ==> (j in pending <==> !posts[j].skip)
      invariant i == skipped + |pending|
    {
      if posts[i].skip {
        skipped := skipped + 1;
      } else {
        pending := pending + [i];
      }
    }
  }

  method DropStored(posts: seq<Post>, pending: seq<nat>, existing: set<nat>) returns (stored: nat, work: seq<nat>)
    requires Rising(pending) && forall k :: 0 <= k < |pending| ==> pending[k] < |posts|
    ensures Rising(work)
    ensures forall i: nat :: i < |posts| ==> (i in work <==> i in pending && posts[i].id !in existing)
    ensures forall k :: 0 <= k < |work| ==> work[k] < |posts|
    ensures |pending| == stored + |work|
  {
    stored, work := 0, [];
    for k := 0 to |pending|
      invariant Rising(work)
      invariant forall j :: 0 <= j < |work| ==> work[j] in pending[..k] && posts[work[j]].id !in existing
      invariant forall j :: 0 <= j < k && posts[pending[j]].id !in existing ==> pending[j] in work
      invariant k == stored + |work|
    {
      if posts[pending[k]].id in existing {
        stored := stored + 1;
      } else {
        work := work + [pending[k]];
      }
    }
  }

  /** Counts what is skipped and what is stored already; the rest is the work, in order. */
  method Triage(posts: seq<Post>, existing: set<nat>)
    returns (skipped: nat, stored: nat, work: seq<nat>)
    ensures Rising(work)
    ensures forall k :: 0 <= k < |work| ==> work[k] < |posts|
    ensures forall i: nat :: i < |posts| ==> (i in work <==> Wanted(posts, existing, i))
    ensures forall i: nat :: i < |posts| ==> (i in work <==> !posts[i].skip && posts[i].id !in existing)
    ensures skipped + |set i: nat | i < |posts| && !posts[i].skip| == |posts|
    ensures |posts| == skipped + stored + |work|
  {
    var pending;
    skipped, pending := DropSkipped(posts);
    RisingCounts(pending);
    assert (set i: nat | i < |posts| && !posts[i].skip) == Elements(pending);
    stored, work := DropStored(posts, pending, existing);
  }

  // ----- the concurrent part

  datatype Phase = Running | Draining | Finished

  /** `flushers` saw a full batch and wait for one of the two senders; `ready` hold a sender and
      have not taken the batch yet; `sending` are the batches under way. The last four fields record
      the history: posts embedded, handed to the sink, accepted by it, and dropped on cancellation. */
  datatype State = State(size: nat, todo: seq<nat>, working: multiset<nat>, batch: seq<nat>,
                         flushers: nat, ready: nat, sending: seq<seq<nat>>,
                         saved: nat, failed: seq<nat>, flushErr: bool, cancelled: bool, phase: Phase,
                         embedded: multiset<nat>, handed: multiset<nat>, accepted: multiset<nat>,
                         dropped: multiset<nat>)

  const SENDERS: nat := 2

  datatype Action =
    | Start
    | Embed(post: nat)
    | Fail(post: nat)
    | TakeSender
    | Grab
    | Accept(k: nat)
    | Reject(k: nat)
    | Cancel
    | Join
    | Return

  function Begin(size: nat, work: seq<nat>): State {
    State(size, work, multiset{}, [], 0, 0, [], 0, [], false, false, Running,
          multiset{}, multiset{}, multiset{}, multiset{})
  }

  predicate Idle(s: State) {
    s.flushers == 0 && s.ready == 0 && s.sending == []
  }

  predicate Enabled(s: State, a: Action) {
    match a
    case Start => s.phase == Running && s.todo != []
    case Embed(p) => p in s.working
    case Fail(p) => p in s.working
    case TakeSender => s.flushers > 0 && s.ready + |s.sending| < SENDERS
    case Grab => s.ready > 0
    case Accept(k) => k < |s.sending|
    case Reject(k) => k < |s.sending|
    case Cancel => true
    case Join => s.phase == Running && (s.todo == [] || s.cancelled) && s.working == multiset{} && Idle(s)
    case Return => s.phase == Draining && Idle(s)
  }

  function Apply(s: State, a: Action): State
    requires Enabled(s, a)
  {
    match a
    case Start => s.(todo := s.todo[1..], working := s.working + multiset{s.todo[0]})
    case Embed(p) =>
      var batch := s.batch + [p];
      s.(working := s.working - multiset{p}, batch := batch, embedded := s.embedded + multiset{p},
         flushers := s.flushers + if |batch| >= s.size then 1 else 0)
    case Fail(p) =>
      if s.cancelled then s.(working := s.working - multiset{p}, dropped := s.dropped + multiset{p})
      else s.(working := s.working - multiset{p}, failed := s.failed + [p])
    case TakeSender => s.(flushers := s.flushers - 1, ready := s.ready + 1)
    case Grab =>
      if s.batch == [] then s.(ready := s.ready - 1)
      else s.(ready := s.ready - 1, sending := s.sending + [s.batch], batch := [],
              handed := s.handed + multiset(s.batch))
    case Accept(k) =>
      s.(sending := Without(s.sending, k), saved := s.saved + |s.sending[k]|,
         accepted := s.accepted + multiset(s.sending[k]))
    case Reject(k) =>
      s.(sending := Without(s.sending, k), failed := s.failed + s.sending[k], flushErr := true)
    case Cancel => s.(cancelled := true)
    case Join => s.(phase := Draining, flushers := 1)
    case Return => s.(phase := Finished)
  }

  predicate Legal(s: State, run: seq<Action>)
    decreases |run|
  {
    run == [] || (Enabled(s, run[0]) && Legal(Apply(s, run[0]), run[1..]))
  }

  function Exec(s: State, run: seq<Action>): State
    requires Legal(s, run)
    decreases |run|
  {
    if run == [] then s else Exec(Apply(s, run[0]), run[1..])
  }

  // ----- conservation

  function Flat(batches: seq<seq<nat>>): multiset<nat> {
    if batches == [] then multiset{} else multiset(batches[0]) + Flat(batches[1..])
  }

  lemma {:induction false} FlatSplit(a: seq<seq<nat>>, b: seq<seq<nat>>)
    ensures Flat(a + b) == Flat(a) + Flat(b)
    decreases |a|
  {
    if a == [] {
      assert a + b == b;
    } else {
      assert (a + b)[1..] == a[1..] + b;
      FlatSplit(a[1..], b);
    }
  }

  lemma FlatWithout(batches: seq<seq<nat>>, k: nat)
    requires k < |batches|
    ensures Flat(batches) == Flat(Without(batches, k)) + multiset(batches[k])
  {
    var a, b := batches[..k], batches[k..];
    assert batches == a + b && b[1..] == batches[k + 1..];
    FlatSplit(a, b);
    FlatSplit(a, batches[k + 1..]);
  }

  /** How many times a post is somewhere: waiting, embedding, batched, under way, accepted, failed or
      dropped. */
  ghost function Places(s: State, p: nat): int {
    multiset(s.todo)[p] + s.working[p] + multiset(s.batch)[p] + Flat(s.sending)[p]
    + s.accepted[p] + multiset(s.failed)[p] + s.dropped[p]
  }

  ghost predicate Conserved(s: State, work: seq<nat>) {
    forall p :: Places(s, p) == multiset(work)[p]
  }

  ghost predicate HandedOnce(s: State) {
    && (forall p :: s.embedded[p] == multiset(s.batch)[p] + s.handed[p])
    && (forall p :: s.accepted[p] + Flat(s.sending)[p] <= s.handed[p])
  }

  ghost predicate Control(s: State) {
    && s.saved == |s.accepted|
    && (s.dropped == multiset{} || s.cancelled)
    && (s.todo == [] || s.cancelled || s.phase == Running)
    && s.ready + |s.sending| <= SENDERS
    && (s.phase != Running ==> s.working == multiset{})
    && (s.phase == Draining ==> s.batch == [] || s.flushers + s.ready > 0)
    && (s.phase == Finished ==> s.batch == [] && Idle(s))
    && (s.size >= 1 ==> |s.batch| <= s.size - 1 + s.flushers + s.ready)
  }

  ghost predicate Inv(s: State, work: seq<nat>) {
    Conserved(s, work) && HandedOnce(s) && Control(s)
  }

  lemma WorkerConserves(s: State, a: Action, work: seq<nat>)
    requires Conserved(s, work) && HandedOnce(s) && Enabled(s, a) && (a.Start? || a.Embed? || a.Fail?)
    ensures Conserved(Apply(s, a), work) && HandedOnce(Apply(s, a))
  {
    var t := Apply(s, a);
    if a.Start? {
      assert s.todo == [s.todo[0]] + s.todo[1..];
    }
    forall p
      ensures Places(t, p) == multiset(work)[p]
    {
      assert Places(s, p) == multiset(work)[p];
    }
  }

  lemma GrabConserves(s: State, work: seq<nat>)
    requires Conserved(s, work) && HandedOnce(s) && Enabled(s, Grab)
    ensures Conserved(Apply(s, Grab), work) && HandedOnce(Apply(s, Grab))
  {
    FlatSplit(s.sending, [s.batch]);
    assert Flat([s.batch]) == multiset(s.batch);
    var t := Apply(s, Grab);
    forall p
      ensures Places(t, p) == multiset(work)[p]
    {
      assert Places(s, p) == multiset(work)[p];
    }
  }

  lemma AnswerConserves(s: State, a: Action, work: seq<nat>)
    requires Conserved(s, work) && HandedOnce(s) && Enabled(s, a) && (a.Accept? || a.Reject?)
    ensures Conserved(Apply(s, a), work) && HandedOnce(Apply(s, a))
  {
    FlatWithout(s.sending, a.k);
    var t := Apply(s, a);
    forall p
      ensures Places(t, p) == multiset(work)[p]
    {
      assert Places(s, p) == multiset(work)[p];
    }
  }

  lemma StepConserves(s: State, a: Action, work: seq<nat>)
    requires Conserved(s, work) && HandedOnce(s) && Enabled(s, a)
    ensures Conserved(Apply(s, a), work) && HandedOnce(Apply(s, a))
  {
    if a.Start? || a.Embed? || a.Fail? {
      WorkerConserves(s, a, work);
    } else if a.Grab? {
      GrabConserves(s, work);
    } else if a.Accept? || a.Reject? {
      AnswerConserves(s, a, work);
    } else {
      assert forall p :: Places(Apply(s, a), p) == Places(s, p);
    }
  }

  lemma StepControls(s: State, a: Action)
    requires Control(s) && Enabled(s, a)
    ensures Control(Apply(s, a))
  {
    if a.Accept? {
      assert |multiset(s.sending[a.k])| == |s.sending[a.k]|;
    }
  }

  lemma {:induction false} RunKeeps(s: State, run: seq<Action>, work: seq<nat>)
    requires Inv(s, work) && Legal(s, run)
    ensures Inv(Exec(s, run), work) && Exec(s, run).size == s.size
    decreases |run|
  {
    if run != [] {
      StepConserves(s, run[0], work);
      StepControls(s, run[0]);
      RunKeeps(Apply(s, run[0]), run[1..], work);
    }
  }

  /** A batch that ends with its context alive has put every post of the work in exactly one of
      accepted and failed, counts what was accepted, and has handed each embedded post to the sink
      exactly once, whether or not the sink took it. */
  lemma LiveBatchAccounts(size: nat, work: seq<nat>, run: seq<Action>)
    requires Legal(Begin(size, work), run)
    requires var s := Exec(Begin(size, work), run); s.phase == Finished && !s.cancelled
    ensures var s := Exec(Begin(size, work), run);
      && s.accepted + multiset(s.failed) == multiset(work)
      && s.saved == |s.accepted| && |work| == s.saved + |s.failed|
      && s.handed == s.embedded && s.accepted <= s.handed
  {
    RunKeeps(Begin(size, work), run, work);
    hide Legal, Exec, Begin, Flat;
    var s := Exec(Begin(size, work), run);
    EndedAccounts(s, work);
  }

  lemma EndedAccounts(s: State, work: seq<nat>)
    requires Inv(s, work) && s.phase == Finished && !s.cancelled
    ensures s.accepted + multiset(s.failed) == multiset(work)
    ensures s.saved == |s.accepted| && |work| == s.saved + |s.failed|
    ensures s.handed == s.embedded && s.accepted <= s.handed
  {
    assert s.accepted + multiset(s.failed) == multiset(work) by {
      forall p
        ensures (s.accepted + multiset(s.failed))[p] == multiset(work)[p]
      {
        assert Places(s, p) == multiset(work)[p];
      }
    }
    assert |multiset(work)| == |s.accepted| + |multiset(s.failed)|;
  }

  /** At any moment at most two submissions are under way and no post was lost or duplicated; a
      batch outgrows its nominal size by at most the flushers that have yet to take it. */
  lemma BatchStaysBounded(size: nat, work: seq<nat>, run: seq<Action>)
    requires Legal(Begin(size, work), run) && size >= 1
    ensures var s := Exec(Begin(size, work), run);
      && |s.sending| <= 2 && |s.batch| < size + s.flushers + s.ready
      && (forall p :: Places(s, p) == multiset(work)[p])
      && (!s.cancelled ==> s.dropped == multiset{})
  {
    RunKeeps(Begin(size, work), run, work);
  }

  // ----- the call ends

  /** What is left to do, weighted by how far it has got. */
  function Left(s: State): nat {
    8 * |s.todo| + 7 * |s.working| + 3 * s.flushers + 2 * s.ready + |s.sending|
    + (match s.phase case Running => 5 case Draining => 1 case Finished => 0)
  }

  lemma EachStepUsesUp(s: State, a: Action)
    requires Enabled(s, a) && s.phase != Finished
    ensures a != Cancel ==> Left(Apply(s, a)) < Left(s)
    ensures a == Cancel ==> Left(Apply(s, a)) == Left(s)
  {
    if a.Embed? || a.Fail? {
      assert s.working == (s.working - multiset{a.post}) + multiset{a.post};
    }
  }

  /** A call that has not returned can go on, whatever happened so far. */
  lemma NeverStuck(s: State, work: seq<nat>) returns (a: Action)
    requires Inv(s, work) && s.phase != Finished
    ensures Enabled(s, a) && a != Cancel
  {
    hide Conserved, HandedOnce;
    if s.sending != [] {
      a := Accept(0);
    } else if s.ready > 0 {
      a := Grab;
    } else if s.flushers > 0 {
      a := TakeSender;
    } else if s.working != multiset{} {
      var p :| p in s.working;
      a := Embed(p);
    } else if s.phase == Running && s.todo != [] && !s.cancelled {
      a := Start;
    } else {
      a := if s.phase == Running then Join else Return;
    }
  }

  function Steps(run: seq<Action>): nat {
    if run == [] then 0 else Steps(run[1..]) + if run[0] == Cancel then 0 else 1
  }

  /** Every schedule ends: a call of n posts takes at most 8 n + 5 steps, cancellations aside, and as long as it has
      not returned there is a next one. */
  lemma CallEnds(size: nat, work: seq<nat>, run: seq<Action>)
    requires size >= 1 && Legal(Begin(size, work), run) && Exec(Begin(size, work), run).phase != Finished
    ensures Steps(run) < 8 * |work| + 5
    ensures exists a :: a != Cancel && Enabled(Exec(Begin(size, work), run), a)
  {
    StepsBounded(Begin(size, work), run);
    RunKeeps(Begin(size, work), run, work);
    var a := NeverStuck(Exec(Begin(size, work), run), work);
  }

  lemma {:induction false} StepsBounded(s: State, run: seq<Action>)
    requires Legal(s, run) && Exec(s, run).phase != Finished
    ensures Steps(run) + Left(Exec(s, run)) <= Left(s) && Left(Exec(s, run)) >= 1
    decreases |run|
  {
    if run != [] {
      StaysFinished(s, run);
      EachStepUsesUp(s, run[0]);
      StepsBounded(Apply(s, run[0]), run[1..]);
    }
  }

  lemma {:induction false} StaysFinished(s: State, run: seq<Action>)
    requires Legal(s, run)
    ensures s.phase == Finished ==> Exec(s, run).phase == Finished
    decreases |run|
  {
    if run != [] {
      StaysFinished(Apply(s, run[0]), run[1..]);
    }
  }

  // ----- errors

  ghost predicate AnyRejected(run: seq<Action>) {
    exists k :: 0 <= k < |run| && run[k].Reject?
  }

  ghost predicate AnyCancelled(run: seq<Action>) {
    exists k :: 0 <= k < |run| && run[k].Cancel?
  }

  lemma {:induction false} RunRecords(s: State, run: seq<Action>)
    requires Legal(s, run)
    ensures Exec(s, run).flushErr <==> s.flushErr || AnyRejected(run)
    ensures Exec(s, run).cancelled <==> s.cancelled || AnyCancelled(run)
    decreases |run|
  {
    hide Apply, Enabled, AnyRejected, AnyCancelled;
    if run == [] {
      NoneYet();
    } else {
      StepRecords(s, run[0]);
      RunRecords(Apply(s, run[0]), run[1..]);
      AnySplits(run);
    }
  }

  lemma StepRecords(s: State, a: Action)
    requires Enabled(s, a)
    ensures Apply(s, a).flushErr <==> s.flushErr || a.Reject?
    ensures Apply(s, a).cancelled <==> s.cancelled || a.Cancel?
  {
  }

  lemma NoneYet()
    ensures !AnyRejected([]) && !AnyCancelled([])
  {
  }

  lemma AnySplits(run: seq<Action>)
    requires run != []
    ensures AnyRejected(run) <==> run[0].Reject? || AnyRejected(run[1..])
    ensures AnyCancelled(run) <==> run[0].Cancel? || AnyCancelled(run[1..])
  {
    var rest := run[1..];
    if k :| 0 <= k < |rest| && rest[k].Reject? {
      assert run[k + 1] == rest[k];
    }
    if k :| 0 <= k < |run| && run[k].Reject? && k > 0 {
      assert rest[k - 1] == run[k];
    }
    if k :| 0 <= k < |rest| && rest[k].Cancel? {
      assert run[k + 1] == rest[k];
    }
    if k :| 0 <= k < |run| && run[k].Cancel? && k > 0 {
      assert rest[k - 1] == run[k];
    }
  }

  /** The call ends with the submission error if and only if the sink refused some batch, and as cancelled if and
      only if it was, which may happen at any moment. */
  lemma ErrorIffRejected(size: nat, work: seq<nat>, run: seq<Action>)
    requires Legal(Begin(size, work), run)
    ensures var s := Exec(Begin(size, work), run);
      && (s.flushErr <==> AnyRejected(run)) && (s.cancelled <==> AnyCancelled(run)) && Enabled(s, Cancel)
  {
    RunRecords(Begin(size, work), run);
  }

  ghost predicate NoneFails(run: seq<Action>) {
    forall k :: 0 <= k < |run| ==> !run[k].Fail? && !run[k].Reject?
  }

  ghost predicate NoneAccepted(run: seq<Action>) {
    forall k :: 0 <= k < |run| ==> !run[k].Accept?
  }

  lemma {:induction false} OnlyFailuresFail(s: State, run: seq<Action>)
    requires Legal(s, run)
    ensures NoneFails(run) ==> Exec(s, run).failed == s.failed
    ensures NoneAccepted(run) ==> Exec(s, run).saved == s.saved && Exec(s, run).accepted == s.accepted
    decreases |run|
  {
    if run != [] {
      var rest := run[1..];
      assert NoneFails(run) ==> NoneFails(rest) && !run[0].Fail? && !run[0].Reject?;
      assert NoneAccepted(run) ==> NoneAccepted(rest) && !run[0].Accept?;
      OnlyFailuresFail(Apply(s, run[0]), rest);
    }
  }

  /** A call in which every post is embedded and every batch taken saves all of them; one whose sink takes no
      batch saves nothing and lists all of them as failed. */
  lemma SavedAndFailed(size: nat, work: seq<nat>, run: seq<Action>)
    requires Legal(Begin(size, work), run)
    requires var s := Exec(Begin(size, work), run); s.phase == Finished && !s.cancelled
    ensures var s := Exec(Begin(size, work), run);
      && (NoneFails(run) ==> s.failed == [] && s.saved == |work|)
      && (NoneAccepted(run) ==> s.saved == 0 && multiset(s.failed) == multiset(work))
  {
    LiveBatchAccounts(size, work, run);
    OnlyFailuresFail(Begin(size, work), run);
  }

  // ----- batch sizes

  /** A full batch has one flusher on its way; one that is not full has none. */
  ghost predicate Prompt(s: State) {
    s.phase == Running && |s.batch| <= s.size && s.flushers + s.ready == if |s.batch| == s.size then 1 else 0
  }

  /** Every submission of the run, up to the final one, takes exactly the nominal size. */
  predicate FullSubmissions(s: State, run: seq<Action>)
    requires Legal(s, run)
    decreases |run|
  {
    run == [] || run[0] == Join
    || ((run[0] == Grab ==> |s.batch| == s.size) && FullSubmissions(Apply(s, run[0]), run[1..]))
  }

  lemma {:induction false} PromptRunsFill(s: State, run: seq<Action>)
    requires s.size >= 1 && Prompt(s) && Legal(s, run) && !ArrivesLate(s, run)
    ensures FullSubmissions(s, run)
    decreases |run|
  {
    if run != [] && run[0] != Join {
      PromptRunsFill(Apply(s, run[0]), run[1..]);
    }
  }

  /** If every full batch is taken before the next post is done, each submission but the last has exactly the
      nominal size: nothing is sent early, and nothing late. */
  lemma SubmissionsAreFull(size: nat, work: seq<nat>, run: seq<Action>)
    requires size >= 1 && Legal(Begin(size, work), run) && !ArrivesLate(Begin(size, work), run)
    ensures FullSubmissions(Begin(size, work), run)
  {
    PromptRunsFill(Begin(size, work), run);
  }

  /** A sender is free for a waiting flusher exactly while fewer than two hold one. */
  lemma TwoSenders(s: State)
    ensures Enabled(s, TakeSender) <==> s.flushers > 0 && s.ready + |s.sending| < 2
  {
  }

  /** Some submission of the run takes more posts than the nominal size. */
  predicate Oversubmits(s: State, run: seq<Action>)
    requires Legal(s, run)
    decreases |run|
  {
    run != [] && ((run[0] == Grab && |s.batch| > s.size) || Oversubmits(Apply(s, run[0]), run[1..]))
  }

  /** Some post arrives while the batch is full already and no flush has taken it. */
  predicate ArrivesLate(s: State, run: seq<Action>)
    requires Legal(s, run)
    decreases |run|
  {
    run != [] && ((run[0].Embed? && |s.batch| >= s.size) || ArrivesLate(Apply(s, run[0]), run[1..]))
  }

  /** Only arrivals and grabs change the batch. */
  lemma BatchMoves(s: State, a: Action)
    requires Enabled(s, a)
    ensures var t := Apply(s, a);
      && t.size == s.size
      && |t.batch| == if a.Embed? then |s.batch| + 1 else if a == Grab then 0 else |s.batch|
  {
  }

  lemma NothingLeft(s: State, work: seq<nat>)
    requires Inv(s, work) && s.phase == Finished
    ensures s.batch == []
  {
    hide Conserved, HandedOnce;
  }

  lemma StepKeeps(s: State, a: Action, work: seq<nat>)
    requires Inv(s, work) && Enabled(s, a)
    ensures Inv(Apply(s, a), work)
  {
    StepConserves(s, a, work);
    StepControls(s, a);
  }

  lemma {:induction false} OversubmitsIff(s: State, run: seq<Action>, work: seq<nat>)
    requires Inv(s, work) && Legal(s, run) && Exec(s, run).phase == Finished
    ensures Oversubmits(s, run) <==> |s.batch| > s.size || ArrivesLate(s, run)
    decreases |run|
  {
    hide Inv, Apply, Enabled;
    if run == [] {
      NothingLeft(s, work);
    } else {
      StepKeeps(s, run[0], work);
      BatchMoves(s, run[0]);
      OversubmitsIff(Apply(s, run[0]), run[1..], work);
    }
  }

  /** A whole run submits more than the nominal size at once if and only if a post arrived at a batch that was
      full already: the size is kept exactly when every full batch is taken before the next post is done. */
  lemma SizeIsKeptIff(size: nat, work: seq<nat>, run: seq<Action>)
    requires size >= 1 && Legal(Begin(size, work), run) && Exec(Begin(size, work), run).phase == Finished
    ensures Oversubmits(Begin(size, work), run) <==> ArrivesLate(Begin(size, work), run)
  {
    BeginInv(size, work);
    OversubmitsIff(Begin(size, work), run, work);
  }

  lemma BeginInv(size: nat, work: seq<nat>)
    requires size >= 1
    ensures Inv(Begin(size, work), work)
  {
  }

  const TWO_WORKING := Begin(1, []).(working := multiset{0, 1})
  const TWO_BATCHED := Begin(1, []).(batch := [0, 1], flushers := 2, embedded := multiset{0, 1})

  lemma StartTwo()
    ensures Legal(Begin(1, [0, 1]), [Start, Start]) && Exec(Begin(1, [0, 1]), [Start, Start]) == TWO_WORKING
  {
    var begin := Begin(1, [0, 1]);
    var one := Apply(begin, Start);
    assert one.todo == [1] && one.working == multiset{0};
    assert Apply(one, Start) == TWO_WORKING;
    Prepend(one, Start, []);
    Prepend(begin, Start, [Start]);
    assert [Start] + [Start] == [Start, Start] && [Start] + [] == [Start];
  }

  lemma EmbedTwo()
    ensures Legal(TWO_WORKING, [Embed(0), Embed(1)]) && Exec(TWO_WORKING, [Embed(0), Embed(1)]) == TWO_BATCHED
  {
    var half := Apply(TWO_WORKING, Embed(0));
    assert half.working == multiset{1} && half.batch == [0];
    assert Apply(half, Embed(1)) == TWO_BATCHED;
    Prepend(half, Embed(1), []);
    Prepend(TWO_WORKING, Embed(0), [Embed(1)]);
    assert [Embed(0)] + [Embed(1)] == [Embed(0), Embed(1)] && [Embed(1)] + [] == [Embed(1)];
  }

  /** The nominal size is not a bound: posts keep arriving while the first flusher waits. */
  lemma BatchCanExceedSize() returns (run: seq<Action>)
    ensures Legal(Begin(1, [0, 1]), run)
    ensures Exec(Begin(1, [0, 1]), run).sending == [[0, 1]]
  {
    var rest := [TakeSender, Grab];
    Prepend(Apply(TWO_BATCHED, TakeSender), Grab, []);
    Prepend(TWO_BATCHED, TakeSender, [Grab]);
    assert [TakeSender] + [Grab] == rest && [Grab] + [] == [Grab];
    EmbedTwo();
    ExecSplit(TWO_WORKING, [Embed(0), Embed(1)], rest);
    StartTwo();
    run := [Start, Start] + ([Embed(0), Embed(1)] + rest);
    ExecSplit(Begin(1, [0, 1]), [Start, Start], [Embed(0), Embed(1)] + rest);
  }

  lemma Prepend(s: State, a: Action, rest: seq<Action>)
    ensures Enabled(s, a) && Legal(Apply(s, a), rest) ==>
      Legal(s, [a] + rest) && Exec(s, [a] + rest) == Exec(Apply(s, a), rest)
  {
    assert ([a] + rest)[1..] == rest;
  }

  lemma {:induction false} ExecSplit(s: State, a: seq<Action>, b: seq<Action>)
    requires Legal(s, a) && Legal(Exec(s, a), b)
    ensures Legal(s, a + b) && Exec(s, a + b) == Exec(Exec(s, a), b)
    decreases |a|
  {
    if a == [] {
      assert a + b == b;
    } else {
      assert (a + b)[1..] == a[1..] + b;
      ExecSplit(Apply(s, a[0]), a[1..], b);
    }
  }

  // ----- the report

  datatype Report = Report(total: nat, skipped: nat, existing: nat, saved: nat, failed: seq<nat>)

  /** What a caller may rely on when IndexBatch returns without an error: each post was skipped, was
      stored already, was accepted by the sink, or is on the failed list. */
  ghost predicate Accounted(posts: seq<Post>, existing: set<nat>, accepted: multiset<nat>, failed: seq<nat>) {
    forall i :: 0 <= i < |posts| ==>
      posts[i].skip || posts[i].id in existing || i in accepted || i in failed
  }

  /** The whole call. `run` is any schedule of the concurrent part that ends with the context alive. */
  lemma IndexBatchAccounts(posts: seq<Post>, existing: set<nat>, skipped: nat, stored: nat, work: seq<nat>,
                           size: nat, run: seq<Action>)
    requires forall i: nat :: i < |posts| && Wanted(posts, existing, i) ==> i in work
    requires |posts| == skipped + stored + |work|
    requires Legal(Begin(size, work), run)
    requires var s := Exec(Begin(size, work), run); s.phase == Finished && !s.cancelled
    ensures var s := Exec(Begin(size, work), run);
      && |posts| == skipped + stored + s.saved + |s.failed|
      && Accounted(posts, existing, s.accepted, s.failed)
  {
    LiveBatchAccounts(size, work, run);
    var s := Exec(Begin(size, work), run);
    forall i | 0 <= i < |posts|
      ensures posts[i].skip || posts[i].id in existing || i in s.accepted || i in s.failed
    {
      if Wanted(posts, existing, i) {
        assert i in multiset(work);
        assert i in s.accepted + multiset(s.failed);
      }
    }
  }
}
