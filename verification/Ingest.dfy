/**
 Submissions, rebuilds and re-embeddings running at once over the vector table and the search index. Each
 saves its vectors as not yet indexed, adds them to the collections of their models, and then marks its
 images indexed; any of them may stop at any point.
 */
module Ingesting {
  import opened Wrappers

  type Vector = seq<real>

  datatype Key = Key(image: nat, model: string)

  /** A stored vector; `indexed` stands for a non-null indexed_at. */
  datatype Row = Row(value: Vector, indexed: bool)

  /** A point of a collection. */
  datatype Entry = Entry(collection: string, image: nat, value: Vector)

  datatype Phase = Saving | Upserting(left: set<string>) | Ended

  /** One call under way and the vectors it carries, one for each image and model. */
  datatype Job = Job(items: map<Key, Vector>, phase: Phase)

  /** `home` gives the collection of each registered model. */
  datatype Sys = Sys(home: map<string, string>, rows: map<Key, Row>, index: set<Entry>, jobs: seq<Job>)

  datatype Action =
    | BeginWrite(items: map<Key, Vector>)
    | BeginRebuild(keys: set<Key>)
    | Save(j: nat)
    | Upsert(j: nat, collection: string)
    | Torn(j: nat, part: set<Entry>)
    | Mark(j: nat)
    | Stop(j: nat)

  function Home(s: Sys, k: Key): string {
    if k.model in s.home then s.home[k.model] else ""
  }

  function Point(s: Sys, k: Key, value: Vector): Entry {
    Entry(Home(s, k), k.image, value)
  }

  function Collections(s: Sys, items: map<Key, Vector>): set<string> {
    set k | k in items :: Home(s, k)
  }

  function PointsFor(s: Sys, items: map<Key, Vector>, collection: string): set<Entry> {
    set k | k in items && Home(s, k) == collection :: Point(s, k, items[k])
  }

  function Points(s: Sys, items: map<Key, Vector>): set<Entry> {
    set k | k in items :: Point(s, k, items[k])
  }

  function Saved(rows: map<Key, Row>, items: map<Key, Vector>): map<Key, Row> {
    rows + map k | k in items :: Row(items[k], false)
  }

  function Marked(rows: map<Key, Row>, keys: set<Key>): map<Key, Row> {
    map k | k in rows :: if k in keys then rows[k].(indexed := true) else rows[k]
  }

  /** The rows a rebuild of some keys would load. */
  function Pending(rows: map<Key, Row>, keys: set<Key>): map<Key, Vector> {
    map k | k in keys && k in rows && !rows[k].indexed :: rows[k].value
  }

  ghost predicate Running(s: Sys, j: nat, p: Phase) {
    j < |s.jobs| && s.jobs[j].phase == p
  }

  ghost predicate Enabled(s: Sys, a: Action) {
    match a
    case BeginWrite(items) => forall k :: k in items ==> k.model in s.home
    case BeginRebuild(keys) => forall k :: k in keys ==> k.model in s.home
    case Save(j) => Running(s, j, Saving)
    case Upsert(j, c) => j < |s.jobs| && s.jobs[j].phase.Upserting? && c in s.jobs[j].phase.left
    case Torn(j, part) => j < |s.jobs| && s.jobs[j].phase.Upserting? && part <= Points(s, s.jobs[j].items)
    case Mark(j) => Running(s, j, Upserting({}))
    case Stop(j) => j < |s.jobs|
  }

  function Set(s: Sys, j: nat, p: Phase): seq<Job>
    requires j < |s.jobs|
  {
    s.jobs[j := s.jobs[j].(phase := p)]
  }

  ghost function Apply(s: Sys, a: Action): Sys
    requires Enabled(s, a)
  {
    match a
    case BeginWrite(items) => s.(jobs := s.jobs + [Job(items, Saving)])
    case BeginRebuild(keys) =>
      var items := Pending(s.rows, keys);
      s.(jobs := s.jobs + [Job(items, Upserting(Collections(s, items)))])
    case Save(j) =>
      var items := s.jobs[j].items;
      s.(rows := Saved(s.rows, items), jobs := Set(s, j, Upserting(Collections(s, items))))
    case Upsert(j, c) =>
      s.(index := s.index + PointsFor(s, s.jobs[j].items, c), jobs := Set(s, j, Upserting(s.jobs[j].phase.left - {c})))
    case Torn(j, part) => s.(index := s.index + part, jobs := Set(s, j, Ended))
    case Mark(j) => s.(rows := Marked(s.rows, s.jobs[j].items.Keys), jobs := Set(s, j, Ended))
    case Stop(j) => s.(jobs := Set(s, j, Ended))
  }

  /** No call gets stuck: it can save, then add to each collection left, and then mark; and a rebuild of
      registered models can start at any time. */
  lemma CallsGoOn(s: Sys, j: nat, c: string, keys: set<Key>)
    requires j < |s.jobs|
    ensures match s.jobs[j].phase
      case Saving => Enabled(s, Save(j))
      case Upserting(left) => if left == {} then Enabled(s, Mark(j)) else c in left ==> Enabled(s, Upsert(j, c))
      case Ended => true
    ensures (forall k :: k in keys ==> k.model in s.home) ==> Enabled(s, BeginRebuild(keys))
  {
  }

  /** What the steps of a call do, key by key: saving stores its vectors as waiting, adding to a collection puts
      there exactly its vectors of that collection, marking marks its rows and no others, and a rebuild takes on
      the waiting rows with the vectors they hold. */
  lemma StepsInFull(s: Sys, a: Action, k: Key, e: Entry)
    requires Enabled(s, a)
    ensures var t := Apply(s, a);
      && (!a.Save? && !a.Mark? ==> t.rows == s.rows) && (!a.Upsert? && !a.Torn? ==> t.index == s.index)
      && (a.Save? ==> var items := s.jobs[a.j].items;
            && (k in t.rows <==> k in s.rows || k in items)
            && (k in t.rows ==> t.rows[k] == if k in items then Row(items[k], false) else s.rows[k]))
      && (a.Mark? ==>
            && t.rows.Keys == s.rows.Keys
            && (k in s.rows ==> t.rows[k].value == s.rows[k].value)
            && (k in s.rows ==> (t.rows[k].indexed <==> s.rows[k].indexed || k in s.jobs[a.j].items)))
      && (a.Upsert? ==>
            (e in t.index <==> e in s.index || exists q ::
               && q in s.jobs[a.j].items && Home(s, q) == a.collection == e.collection && e.image == q.image
               && e.value == s.jobs[a.j].items[q]))
      && (a.BeginRebuild? ==> var items := t.jobs[|s.jobs|].items;
            && (k in items <==> k in a.keys && k in s.rows && !s.rows[k].indexed)
            && (k in items ==> items[k] == s.rows[k].value))
  {
    if a.Upsert? {
      var items := s.jobs[a.j].items;
      if e in PointsFor(s, items, a.collection) {
        var q :| q in items && Home(s, q) == a.collection && e == Point(s, q, items[q]);
      }
      if q :| q in items && Home(s, q) == a.collection == e.collection && e.image == q.image && e.value == items[q] {
        assert e == Point(s, q, items[q]);
      }
    }
  }

  // ----- what marking means

  ghost predicate InCollection(s: Sys, k: Key) {
    exists v :: Point(s, k, v) in s.index
  }

  /** Whatever a job has left behind it is in the index. */
  ghost predicate Progress(s: Sys, job: Job) {
    job.phase.Upserting? ==>
      forall k :: k in job.items && Home(s, k) !in job.phase.left ==> Point(s, k, job.items[k]) in s.index
  }

  ghost predicate Inv(s: Sys) {
    && (forall k :: k in s.rows && s.rows[k].indexed ==> InCollection(s, k))
    && (forall job :: job in s.jobs ==> Progress(s, job))
  }

  /** The index and the models' collections: what the invariant depends on only grows. */
  ghost predicate Grows(s: Sys, t: Sys) {
    s.home == t.home && s.index <= t.index
  }

  lemma StepGrows(s: Sys, a: Action)
    requires Enabled(s, a)
    ensures Grows(s, Apply(s, a))
  {
  }

  lemma ProgressKept(s: Sys, t: Sys, job: Job)
    requires Grows(s, t) && Progress(s, job)
    ensures Progress(t, job)
  {
    forall k | k in job.items
      ensures Home(t, k) == Home(s, k) && Point(t, k, job.items[k]) == Point(s, k, job.items[k])
    {
    }
  }

  lemma InCollectionKept(s: Sys, t: Sys, k: Key)
    requires Grows(s, t) && InCollection(s, k)
    ensures InCollection(t, k)
  {
    var v :| Point(s, k, v) in s.index;
    assert Point(t, k, v) in t.index;
  }

  /** The job a step changes, if it changes one, keeps its progress. */
  lemma ChangedJob(s: Sys, a: Action, job: Job)
    requires Inv(s) && Enabled(s, a) && job in Apply(s, a).jobs && job !in s.jobs
    ensures Progress(Apply(s, a), job)
  {
    var t := Apply(s, a);
    match a
    case BeginWrite(items) =>
      assert job == Job(items, Saving);
    case BeginRebuild(keys) =>
      var items := Pending(s.rows, keys);
      assert job == Job(items, Upserting(Collections(s, items)));
    case Save(j) =>
      var items := s.jobs[j].items;
      assert job == Job(items, Upserting(Collections(s, items)));
    case Upsert(j, c) =>
      var was := s.jobs[j];
      assert job == was.(phase := Upserting(was.phase.left - {c}));
      forall k | k in job.items && Home(t, k) !in job.phase.left
        ensures Point(t, k, job.items[k]) in t.index
      {
        assert Progress(s, was) && Home(t, k) == Home(s, k);
        if Home(s, k) == c {
          assert Point(s, k, was.items[k]) in PointsFor(s, was.items, c);
        }
      }
    case Torn(j, part) =>
      assert job == s.jobs[j].(phase := Ended);
    case Mark(j) =>
      assert job == s.jobs[j].(phase := Ended);
    case Stop(j) =>
      assert job == s.jobs[j].(phase := Ended);
  }

  /** A row that a step leaves marked was marked before, or the step is the marking of a job whose points are
      all in the index. */
  lemma MarkedRow(s: Sys, a: Action, k: Key)
    requires Inv(s) && Enabled(s, a)
    requires var t := Apply(s, a); k in t.rows && t.rows[k].indexed
    ensures InCollection(Apply(s, a), k)
  {
    var t := Apply(s, a);
    StepGrows(s, a);
    if k in s.rows && s.rows[k].indexed {
      InCollectionKept(s, t, k);
    } else {
      assert a.Mark?;
      var job := s.jobs[a.j];
      assert Progress(s, job);
      assert Point(s, k, job.items[k]) in s.index;
      assert InCollection(s, k);
      InCollectionKept(s, t, k);
    }
  }

  lemma StepKeeps(s: Sys, a: Action)
    requires Inv(s) && Enabled(s, a)
    ensures Inv(Apply(s, a))
  {
    var t := Apply(s, a);
    forall k | k in t.rows && t.rows[k].indexed
      ensures InCollection(t, k)
    {
      MarkedRow(s, a, k);
    }
    StepGrows(s, a);
    forall job | job in t.jobs
      ensures Progress(t, job)
    {
      if job in s.jobs {
        ProgressKept(s, t, job);
      } else {
        ChangedJob(s, a, job);
      }
    }
  }

  ghost predicate Legal(s: Sys, run: seq<Action>)
    decreases |run|
  {
    run == [] || (Enabled(s, run[0]) && Legal(Apply(s, run[0]), run[1..]))
  }

  ghost function Exec(s: Sys, run: seq<Action>): Sys
    requires Legal(s, run)
    decreases |run|
  {
    if run == [] then s else Exec(Apply(s, run[0]), run[1..])
  }

  /** Over all interleavings of submissions, rebuilds, re-embeddings and failures: an image marked indexed for
      a model is in that model's collection. */
  lemma {:induction false} MarkedImagesAreIndexed(s: Sys, run: seq<Action>, k: Key)
    requires Inv(s) && Legal(s, run)
    ensures var t := Exec(s, run); k in t.rows && t.rows[k].indexed ==> InCollection(t, k)
    decreases |run|
  {
    if run != [] {
      StepKeeps(s, run[0]);
      MarkedImagesAreIndexed(Apply(s, run[0]), run[1..], k);
    }
  }

  // ----- when marked also means up to date

  /** A row marked indexed has its own vector in the index, not an older one. */
  ghost predicate Honest(s: Sys) {
    forall k :: k in s.rows && s.rows[k].indexed ==> Point(s, k, s.rows[k].value) in s.index
  }

  /** What the job carries is what the table holds. */
  ghost predicate Current(s: Sys, job: Job) {
    job.phase.Upserting? ==> forall k :: k in job.items ==> k in s.rows && s.rows[k].value == job.items[k]
  }

  ghost predicate Apart(a: Job, b: Job) {
    a.phase == Ended || b.phase == Ended || a.items.Keys !! b.items.Keys
  }

  ghost predicate OneWriterEach(s: Sys) {
    && (forall i, j :: 0 <= i < j < |s.jobs| ==> Apart(s.jobs[i], s.jobs[j]))
    && (forall i :: 0 <= i < |s.jobs| ==> Current(s, s.jobs[i]))
  }

  /** A call begins only on images no running call works on. */
  ghost predicate Exclusive(s: Sys, a: Action)
    requires Enabled(s, a)
  {
    a.BeginWrite? || a.BeginRebuild? ==>
      var t := Apply(s, a);
      forall i :: 0 <= i < |s.jobs| ==> Apart(s.jobs[i], t.jobs[|s.jobs|])
  }

  lemma StaysApart(s: Sys, a: Action)
    requires OneWriterEach(s) && Enabled(s, a) && Exclusive(s, a)
    ensures var t := Apply(s, a);
      forall i, j :: 0 <= i < j < |t.jobs| ==> Apart(t.jobs[i], t.jobs[j])
  {
    var t := Apply(s, a);
    forall i, j | 0 <= i < j < |t.jobs|
      ensures Apart(t.jobs[i], t.jobs[j])
    {
      if j < |s.jobs| {
        assert Apart(s.jobs[i], s.jobs[j]);
      } else {
        assert Apart(s.jobs[i], t.jobs[|s.jobs|]);
      }
    }
  }

  /** Only a save replaces vectors, and only those its job carries. */
  lemma RowsChange(s: Sys, a: Action, k: Key)
    requires Enabled(s, a) && k in s.rows
    ensures var t := Apply(s, a);
      k in t.rows && (t.rows[k].value == s.rows[k].value || (a.Save? && k in s.jobs[a.j].items))
  {
  }

  lemma StaysCurrent(s: Sys, a: Action, i: nat)
    requires OneWriterEach(s) && Enabled(s, a) && Exclusive(s, a) && i < |Apply(s, a).jobs|
    ensures Current(Apply(s, a), Apply(s, a).jobs[i])
  {
    var t := Apply(s, a);
    var job := t.jobs[i];
    if job.phase.Upserting? && i < |s.jobs| && !(a.Save? && a.j == i) {
      assert Current(s, s.jobs[i]) && s.jobs[i].phase.Upserting?;
      if a.Save? {
        assert Apart(s.jobs[i], s.jobs[a.j]) || Apart(s.jobs[a.j], s.jobs[i]);
      }
      forall k | k in job.items
        ensures k in t.rows && t.rows[k].value == job.items[k]
      {
        RowsChange(s, a, k);
      }
    }
  }

  lemma StaysHonest(s: Sys, a: Action)
    requires Inv(s) && Honest(s) && OneWriterEach(s) && Enabled(s, a)
    ensures Honest(Apply(s, a))
  {
    var t := Apply(s, a);
    StepGrows(s, a);
    forall k | k in t.rows && t.rows[k].indexed
      ensures Point(t, k, t.rows[k].value) in t.index
    {
      assert Point(t, k, t.rows[k].value) == Point(s, k, t.rows[k].value);
      if a.Mark? && k in s.jobs[a.j].items {
        var job := s.jobs[a.j];
        assert Progress(s, job) && Current(s, job);
      }
    }
  }

  ghost predicate ExclusiveRun(s: Sys, run: seq<Action>)
    requires Legal(s, run)
    decreases |run|
  {
    run == [] || (Exclusive(s, run[0]) && ExclusiveRun(Apply(s, run[0]), run[1..]))
  }

  /** If no two calls work on the same image at once, every row marked indexed has its current vector in the
      index. */
  lemma {:induction false} AloneMarksAreCurrent(s: Sys, run: seq<Action>)
    requires Inv(s) && Honest(s) && OneWriterEach(s) && Legal(s, run) && ExclusiveRun(s, run)
    ensures Honest(Exec(s, run))
    decreases |run|
  {
    if run != [] {
      var t := Apply(s, run[0]);
      StepKeeps(s, run[0]);
      StaysHonest(s, run[0]);
      StaysApart(s, run[0]);
      forall i | 0 <= i < |t.jobs|
        ensures Current(t, t.jobs[i])
      {
        StaysCurrent(s, run[0], i);
      }
      hide Inv, Honest, Exclusive;
      AloneMarksAreCurrent(t, run[1..]);
    }
  }

  /** A marking that finds some vectors replaced keeps the rows honest exactly when whoever replaced them has
      added the new ones to the index already. */
  lemma MarkIsHonestIff(s: Sys, j: nat)
    requires Inv(s) && Honest(s) && Enabled(s, Mark(j))
    ensures var items := s.jobs[j].items;
      Honest(Apply(s, Mark(j))) <==>
        forall k :: k in items && k in s.rows && s.rows[k].value != items[k] ==>
          Point(s, k, s.rows[k].value) in s.index
  {
    var t := Apply(s, Mark(j));
    var job := s.jobs[j];
    assert Progress(s, job);
    if Honest(t) {
      forall k | k in job.items && k in s.rows
        ensures Point(s, k, s.rows[k].value) in s.index
      {
        assert k in t.rows && t.rows[k].indexed && t.rows[k].value == s.rows[k].value;
        assert Point(t, k, t.rows[k].value) in t.index;
      }
    } else {
      var k :| k in t.rows && t.rows[k].indexed && Point(t, k, t.rows[k].value) !in t.index;
      assert Point(t, k, t.rows[k].value) == Point(s, k, s.rows[k].value);
    }
  }

  /** The caller's guard: a marking finds each of its images still in the table with the vector its own call
      saved or read, or no longer there. */
  ghost predicate MarksItsOwn(s: Sys, a: Action)
    requires Enabled(s, a)
  {
    a.Mark? ==> forall k :: k in s.jobs[a.j].items && k in s.rows ==> s.rows[k].value == s.jobs[a.j].items[k]
  }

  ghost predicate MarksItsOwnThroughout(s: Sys, run: seq<Action>)
    requires Legal(s, run)
    decreases |run|
  {
    run == [] || (MarksItsOwn(s, run[0]) && MarksItsOwnThroughout(Apply(s, run[0]), run[1..]))
  }

  lemma OwnMarkIsHonest(s: Sys, a: Action)
    requires Inv(s) && Honest(s) && Enabled(s, a) && MarksItsOwn(s, a)
    ensures Honest(Apply(s, a))
  {
    var t := Apply(s, a);
    StepGrows(s, a);
    forall k | k in t.rows && t.rows[k].indexed
      ensures Point(t, k, t.rows[k].value) in t.index
    {
      assert Point(t, k, t.rows[k].value) == Point(s, k, t.rows[k].value);
      if a.Mark? && k in s.jobs[a.j].items {
        assert Progress(s, s.jobs[a.j]);
      }
    }
  }

  /** In any run, however calls overlap and fail: if every marking finds the vectors its own call carried, every
      row marked indexed has its current vector in the index throughout. */
  lemma {:induction false} OwnMarksStayHonest(s: Sys, run: seq<Action>)
    requires Inv(s) && Honest(s) && Legal(s, run) && MarksItsOwnThroughout(s, run)
    ensures Honest(Exec(s, run))
    decreases |run|
  {
    if run != [] {
      StepKeeps(s, run[0]);
      OwnMarkIsHonest(s, run[0]);
      hide Inv, Honest, MarksItsOwn;
      OwnMarksStayHonest(Apply(s, run[0]), run[1..]);
    }
  }

  /** A marking finds each vector that replaced one of its own already added to the index. */
  ghost predicate FindsReplacements(s: Sys, a: Action)
    requires Enabled(s, a)
  {
    a.Mark? ==>
      forall k :: k in s.jobs[a.j].items && k in s.rows && s.rows[k].value != s.jobs[a.j].items[k] ==>
        Point(s, k, s.rows[k].value) in s.index
  }

  ghost predicate FindsReplacementsThroughout(s: Sys, run: seq<Action>)
    requires Legal(s, run)
    decreases |run|
  {
    run == [] || (FindsReplacements(s, run[0]) && FindsReplacementsThroughout(Apply(s, run[0]), run[1..]))
  }

  ghost predicate HonestThroughout(s: Sys, run: seq<Action>)
    requires Legal(s, run)
    decreases |run|
  {
    Honest(s) && (run == [] || HonestThroughout(Apply(s, run[0]), run[1..]))
  }

  lemma StepIsHonestIff(s: Sys, a: Action)
    requires Inv(s) && Honest(s) && Enabled(s, a)
    ensures Honest(Apply(s, a)) <==> FindsReplacements(s, a)
  {
    if a.Mark? {
      MarkIsHonestIff(s, a.j);
    } else {
      OwnMarkIsHonest(s, a);
    }
  }

  /** Over whole runs: marked rows are up to date at every moment if and only if every marking finds the vectors
      that replaced its own already added. */
  lemma {:induction false} RunIsHonestIff(s: Sys, run: seq<Action>)
    requires Inv(s) && Honest(s) && Legal(s, run)
    ensures HonestThroughout(s, run) <==> FindsReplacementsThroughout(s, run)
    decreases |run|
  {
    hide Inv, Honest, FindsReplacements;
    if run != [] {
      StepKeeps(s, run[0]);
      StepIsHonestIff(s, run[0]);
      if FindsReplacements(s, run[0]) {
        RunIsHonestIff(Apply(s, run[0]), run[1..]);
      } else {
        NotThroughout(Apply(s, run[0]), run[1..]);
      }
    }
  }

  lemma NotThroughout(s: Sys, run: seq<Action>)
    requires Legal(s, run) && !Honest(s)
    ensures !HonestThroughout(s, run)
  {
  }

  ghost function Empty(home: map<string, string>): Sys {
    Sys(home, map[], {}, [])
  }

  lemma Prepend(s: Sys, a: Action, rest: seq<Action>)
    requires Enabled(s, a) && Legal(Apply(s, a), rest)
    ensures Legal(s, Then(a, rest)) && Exec(s, Then(a, rest)) == Exec(Apply(s, a), rest)
  {
    assert Then(a, rest)[1..] == rest;
  }

  lemma Nothing(s: Sys)
    ensures Legal(s, []) && Exec(s, []) == s
  {
  }

  /** Lost for good: a row marked indexed, so that no rebuild will look at it, whose vector no call is going
      to add and the index does not hold. */
  ghost predicate Stale(s: Sys, k: Key) {
    && k in s.rows && s.rows[k].indexed && Point(s, k, s.rows[k].value) !in s.index
    && forall job :: job in s.jobs ==> job.phase == Ended
  }

  ghost function Two(home: map<string, string>, rows: map<Key, Row>, index: set<Entry>, a: Job, b: Job): Sys {
    Sys(home, rows, index, [a, b])
  }

  /** Two submissions of one image have both saved their vectors; the second's is the one that stands. */
  ghost function BothSaved(home: map<string, string>, k: Key, v: Vector, w: Vector): Sys {
    var c := if k.model in home then home[k.model] else "";
    Two(home, map[k := Row(w, false)], {}, Job(map[k := v], Upserting({c})), Job(map[k := w], Upserting({c})))
  }

  lemma SavesMeet(home: map<string, string>, k: Key, v: Vector, w: Vector)
    requires k.model in home
    ensures var s2 := Two(home, map[], {}, Job(map[k := v], Saving), Job(map[k := w], Saving));
      && Enabled(s2, Save(0)) && Enabled(Apply(s2, Save(0)), Save(1))
      && Apply(Apply(s2, Save(0)), Save(1)) == BothSaved(home, k, v, w)
  {
    var s2 := Two(home, map[], {}, Job(map[k := v], Saving), Job(map[k := w], Saving));
    assert Collections(s2, map[k := v]) == {Home(s2, k)};
    var s3 := Apply(s2, Save(0));
    assert s3.rows == map[k := Row(v, false)];
    assert Collections(s3, map[k := w]) == {Home(s3, k)};
    assert Apply(s3, Save(1)).rows == map[k := Row(w, false)];
  }

  lemma BothSave(home: map<string, string>, k: Key, v: Vector, w: Vector, rest: seq<Action>) returns (run: seq<Action>)
    requires k.model in home && Legal(BothSaved(home, k, v, w), rest)
    ensures Legal(Empty(home), run) && Exec(Empty(home), run) == Exec(BothSaved(home, k, v, w), rest)
  {
    var first, second: map<Key, Vector> := map[k := v], map[k := w];
    var s0 := Empty(home);
    var s1 := Sys(home, map[], {}, [Job(first, Saving)]);
    var s2 := Two(home, map[], {}, Job(first, Saving), Job(second, Saving));
    assert Apply(s0, BeginWrite(first)) == s1 && Apply(s1, BeginWrite(second)) == s2;
    SavesMeet(home, k, v, w);
    hide *;
    run := rest;
    Prepend(Apply(s2, Save(0)), Save(1), run);
    run := Then(Save(1), run);
    Prepend(s2, Save(0), run);
    run := Then(Save(0), run);
    assert Enabled(s1, BeginWrite(second)) && Enabled(s0, BeginWrite(first)) by {
      Begins(home, k, v, w);
    }
    Prepend(s1, BeginWrite(second), run);
    run := Then(BeginWrite(second), run);
    Prepend(s0, BeginWrite(first), run);
    run := Then(BeginWrite(first), run);
  }

  lemma Begins(home: map<string, string>, k: Key, v: Vector, w: Vector)
    requires k.model in home
    ensures Enabled(Empty(home), BeginWrite(map[k := v]))
    ensures Enabled(Sys(home, map[], {}, [Job(map[k := v], Saving)]), BeginWrite(map[k := w]))
  {
  }

  lemma FirstMarksSecondFails(home: map<string, string>, k: Key, v: Vector, w: Vector) returns (run: seq<Action>)
    requires k.model in home && v != w
    ensures Legal(BothSaved(home, k, v, w), run) && Stale(Exec(BothSaved(home, k, v, w), run), k)
  {
    var s4 := BothSaved(home, k, v, w);
    var c := Home(s4, k);
    var s5 := Apply(s4, Upsert(0, c));
    assert s5.jobs[0].phase == Upserting({});
    var s6 := Apply(s5, Mark(0));
    var s7 := Apply(s6, Stop(1));
    OverlapEnds(s7, k, v, w);
    hide Legal, Exec, Then, Stale;
    Nothing(s7);
    Prepend(s6, Stop(1), []);
    Prepend(s5, Mark(0), Then(Stop(1), []));
    Prepend(s4, Upsert(0, c), Then(Mark(0), Then(Stop(1), [])));
    run := Then(Upsert(0, c), Then(Mark(0), Then(Stop(1), [])));
  }

  lemma OverlapEnds(s7: Sys, k: Key, v: Vector, w: Vector)
    requires v != w && s7.index <= {Point(s7, k, v)}
    requires k in s7.rows && s7.rows[k] == Row(w, true)
    requires forall job :: job in s7.jobs ==> job.phase == Ended
    ensures Stale(s7, k)
  {
    assert Point(s7, k, w) != Point(s7, k, v);
  }

  /** Two submissions of the same image overlap: the second replaces the vector before the first marks it, and
      fails before adding its own. */
  lemma OverlapLeavesStaleMark(home: map<string, string>, k: Key, v: Vector, w: Vector) returns (run: seq<Action>)
    requires k.model in home && v != w
    ensures Legal(Empty(home), run) && Stale(Exec(Empty(home), run), k)
  {
    hide *;
    run := FirstMarksSecondFails(home, k, v, w);
    run := BothSave(home, k, v, w, run);
  }
}
