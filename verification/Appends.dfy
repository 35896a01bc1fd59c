/**
 Appending to a collection as a state machine: partial writes, syncs, appends that fail and are followed by
 others on the same handle, process kills, power loss and reopening.
 */
module Appends {
  import opened Wrappers
  import opened FlatFiles

  /** A collection is Ready between appends, also when the last one failed and left bytes behind. */
  datatype Phase = Ready | WritingCodes(written: nat) | CodesSynced | WritingIds(written: nat) | IdsSynced | Down

  /** `count` is the number of slots the open collection believes in; `batch` the points under way; `all` the
      point last offered for each slot; `acked` remembers every acknowledged point with its slot. */
  datatype State = State(w: nat, codes: File<bv8>, ids: File<Byte>, count: nat, batch: seq<Point>, phase: Phase,
                         all: seq<Point>, acked: map<nat, Point>)

  datatype Action =
    | BeginAppend(batch: seq<Point>)
    | WriteCodes(n: nat)
    | SyncCodes
    | WriteIds(n: nat)
    | SyncIds
    | Raise(reported: bool)
    | Fail
    | Kill
    | PowerLoss(codesTo: nat, codesOld: nat, codesLeft: seq<bv8>, idsTo: nat, idsOld: nat, idsLeft: seq<Byte>)
    | CutCodes
    | Reopen

  function CodeBuf(s: State): seq<bv8> {
    CodeBytesOf(s.batch)
  }

  function IdBuf(s: State): seq<Byte> {
    IdBytesOf(s.batch)
  }

  /** Where the batch under way ends. */
  function Goal(s: State): nat {
    s.count + |s.batch|
  }

  /** The point of the batch that goes into slot i. */
  function InBatch(s: State, i: nat): Point
    requires s.count <= i < Goal(s)
  {
    s.batch[i - s.count]
  }

  /** The slots the id file holds in full. */
  function Held(s: State): nat {
    |s.ids.cur| / ID_SIZE
  }

  /** The slots whose ids outlive a power loss. */
  function Durable(s: State): nat {
    |s.ids.synced| / ID_SIZE
  }

  predicate Appending(s: State) {
    !s.phase.Ready? && !s.phase.Down?
  }

  ghost predicate Enabled(s: State, a: Action) {
    s.w > 0 &&
    match a
    case BeginAppend(batch) => s.phase.Ready? && PointsOk(batch, s.w)
    case WriteCodes(n) =>
      s.phase.WritingCodes? && s.phase.written <= n <= |CodeBuf(s)| && s.w * s.count <= |s.codes.cur|
    case SyncCodes => s.phase == WritingCodes(|CodeBuf(s)|)
    case WriteIds(n) =>
      && (s.phase.CodesSynced? || (s.phase.WritingIds? && s.phase.written <= n))
      && n <= |IdBuf(s)| && ID_SIZE * s.count <= |s.ids.cur|
    case SyncIds => s.phase == WritingIds(|IdBuf(s)|)
    case Raise(_) => s.phase.IdsSynced?
    case Fail => Appending(s)
    case Kill => true
    case PowerLoss(cn, cm, cl, idn, idm, il) => Survives(s.codes, cn, cm, cl) && Survives(s.ids, idn, idm, il)
    case CutCodes => s.phase.Down?
    case Reopen => s.phase.Down?
  }

  function OpenCount(s: State): nat
    requires s.w > 0
  {
    SlotCount(s.codes.cur, s.ids.cur, s.w)
  }

  function Take(points: seq<Point>, n: nat): seq<Point> {
    if n <= |points| then points[..n] else points
  }

  function Drop(points: seq<Point>, n: nat): seq<Point> {
    if n <= |points| then points[n..] else []
  }

  /** The batch is offered for the slots from `count` on; whole slots that an earlier, failed append left
      behind it stay. */
  function Offer(all: seq<Point>, count: nat, batch: seq<Point>, held: nat): seq<Point> {
    Take(all, count) + batch + Drop(Take(all, held), count + |batch|)
  }

  /** A failed append leaves its handle open with the old count, whatever it wrote. */
  ghost function Apply(s: State, a: Action): State
    requires Enabled(s, a)
  {
    match a
    case BeginAppend(batch) =>
      s.(batch := batch, all := Offer(s.all, s.count, batch, Held(s)), phase := WritingCodes(0))
    case WriteCodes(n) =>
      s.(codes := WriteAt(s.codes, s.w * s.count, CodeBuf(s)[..n]), phase := WritingCodes(n))
    case SyncCodes => s.(codes := Sync(s.codes), phase := CodesSynced)
    case WriteIds(n) =>
      s.(ids := WriteAt(s.ids, ID_SIZE * s.count, IdBuf(s)[..n]), phase := WritingIds(n))
    case SyncIds => s.(ids := Sync(s.ids), phase := IdsSynced)
    case Raise(reported) =>
      s.(count := Goal(s), phase := Ready, acked := if !reported then s.acked
         else s.acked + map i: nat | s.count <= i < Goal(s) :: InBatch(s, i))
    case Fail => s.(phase := Ready)
    case Kill => s.(phase := Down)
    case PowerLoss(_, _, cl, _, _, il) =>
      s.(codes := File(cl, cl, |cl|), ids := File(il, il, |il|), phase := Down)
    case CutCodes =>
      SlotCountFits(s.codes.cur, s.ids.cur, s.w);
      s.(codes := Truncate(s.codes, s.w * OpenCount(s)))
    case Reopen =>
      SlotCountFits(s.codes.cur, s.ids.cur, s.w);
      var n := OpenCount(s);
      s.(codes := Truncate(s.codes, s.w * n), ids := Truncate(s.ids, ID_SIZE * n), count := n, phase := Ready,
         all := Take(s.all, n))
  }

  ghost predicate Legal(s: State, run: seq<Action>)
    decreases |run|
  {
    run == [] || (Enabled(s, run[0]) && Legal(Apply(s, run[0]), run[1..]))
  }

  ghost function Exec(s: State, run: seq<Action>): State
    requires Legal(s, run)
    decreases |run|
  {
    if run == [] then s else Exec(Apply(s, run[0]), run[1..])
  }

  ghost function Fresh(w: nat): State {
    State(w, File([], [], 0), File([], [], 0), 0, [], Ready, [], map[])
  }

  // ----- what holds in every run

  ghost predicate FilesOk(s: State) {
    s.w > 0 && FileOk(s.codes) && FileOk(s.ids) && PointsOk(s.batch, s.w)
  }

  ghost predicate CodesIn(s: State) {
    HasAt(s.codes.cur, s.w * s.count, CodeBuf(s)) && s.codes.kept == |s.codes.cur|
  }

  ghost predicate Progress(s: State) {
    match s.phase
    case Ready => s.w * s.count <= |s.codes.cur| && ID_SIZE * s.count <= |s.ids.cur|
    case WritingCodes(n) =>
      && n <= |CodeBuf(s)| && HasAt(s.codes.cur, s.w * s.count, CodeBuf(s)[..n])
      && ID_SIZE * s.count <= |s.ids.cur|
    case CodesSynced => CodesIn(s) && ID_SIZE * s.count <= |s.ids.cur|
    case WritingIds(n) =>
      && CodesIn(s) && n <= |IdBuf(s)| && HasAt(s.ids.cur, ID_SIZE * s.count, IdBuf(s)[..n])
    case IdsSynced =>
      && CodesIn(s) && HasAt(s.ids.cur, ID_SIZE * s.count, IdBuf(s)) && s.ids.kept == |s.ids.cur|
    case Down => true
  }

  /** The point is on disk in its slot, code and id. */
  ghost predicate OnDisk(s: State, i: nat, p: Point) {
    && |p.code| == s.w && p.id < ID_LIMIT
    && HasAt(s.codes.cur, s.w * i, p.code) && s.w * i + s.w <= s.codes.kept
    && HasAt(s.ids.cur, ID_SIZE * i, ToLE(p.id, ID_SIZE)) && ID_SIZE * i + ID_SIZE <= s.ids.kept
  }

  ghost predicate AckedOk(s: State) {
    forall i :: i in s.acked ==> (s.phase.Down? || i < s.count) && OnDisk(s, i, s.acked[i])
  }

  ghost predicate Base(s: State) {
    FilesOk(s) && Progress(s) && AckedOk(s)
  }

  /** A change of the files behind a slot leaves the slot alone. */
  lemma DiskStays(s: State, t: State, i: nat, p: Point, c: nat, d: nat)
    requires OnDisk(s, i, p) && t.w == s.w
    requires Alike(t.codes.cur, s.codes.cur, c) && Alike(t.ids.cur, s.ids.cur, d)
    requires s.w * i + s.w <= c && ID_SIZE * i + ID_SIZE <= d
    requires s.w * i + s.w <= t.codes.kept && ID_SIZE * i + ID_SIZE <= t.ids.kept
    ensures OnDisk(t, i, p)
  {
    HasAtWithin(t.codes.cur, s.codes.cur, c, s.w * i, p.code);
    HasAtWithin(t.ids.cur, s.ids.cur, d, ID_SIZE * i, ToLE(p.id, ID_SIZE));
  }

  /** The files change only behind the first n slots. */
  lemma SlotsStay(s: State, t: State, n: nat)
    requires Alike(t.codes.cur, s.codes.cur, s.w * n) && Alike(t.ids.cur, s.ids.cur, ID_SIZE * n)
    requires AckedOk(s) && t.w == s.w && t.acked == s.acked && (forall i :: i in s.acked ==> i < n)
    requires t.phase.Down? || n <= t.count
    requires t.codes.kept >= Min(s.codes.kept, s.w * n) && t.ids.kept >= Min(s.ids.kept, ID_SIZE * n)
    ensures AckedOk(t)
  {
    hide HasAt, Alike;
    forall i | i in s.acked
      ensures OnDisk(t, i, s.acked[i])
    {
      SlotBounds(s.w, i, n);
      DiskStays(s, t, i, s.acked[i], s.w * n, ID_SIZE * n);
    }
  }

  lemma WriteCodesKeepsBase(s: State, n: nat)
    requires Base(s) && Enabled(s, WriteCodes(n))
    ensures Base(Apply(s, WriteCodes(n)))
  {
    hide CodeBytesOf, IdBytesOf, Overwritten, WriteAt, OnDisk, HasAt;
    var t := Apply(s, WriteCodes(n));
    Written(s.codes, s.w * s.count, CodeBuf(s)[..n]);
    assert AckedOk(t) by {
      hide FileOk;
      SlotsStay(s, t, s.count);
    }
    hide AckedOk, Alike;
  }

  lemma WriteIdsKeepsBase(s: State, n: nat)
    requires Base(s) && Enabled(s, WriteIds(n))
    ensures Base(Apply(s, WriteIds(n)))
  {
    hide CodeBytesOf, IdBytesOf, Overwritten, WriteAt, OnDisk;
    var t := Apply(s, WriteIds(n));
    Written(s.ids, ID_SIZE * s.count, IdBuf(s)[..n]);
    CodesReachCount(s);
    assert AckedOk(t) by {
      hide FileOk, HasAt;
      SlotsStay(s, t, s.count);
    }
    hide AckedOk, Alike;
  }

  lemma CodesReachCount(s: State)
    requires Progress(s) && !s.phase.Down?
    ensures s.w * s.count <= |s.codes.cur| && ID_SIZE * s.count <= |s.ids.cur|
  {
    hide CodeBytesOf, IdBytesOf;
  }

  lemma SyncKeepsBase(s: State, a: Action)
    requires Base(s) && Enabled(s, a) && (a.SyncCodes? || a.SyncIds?)
    ensures Base(Apply(s, a))
  {
    var t := Apply(s, a);
    assert CodeBuf(s)[..|CodeBuf(s)|] == CodeBuf(s) && IdBuf(s)[..|IdBuf(s)|] == IdBuf(s);
    hide CodeBytesOf, IdBytesOf, ToLE;
    assert forall i :: i in s.acked ==> OnDisk(t, i, s.acked[i]);
  }

  lemma HasAtInner<B>(bytes: seq<B>, at: nat, whole: seq<B>, off: nat, piece: seq<B>)
    requires HasAt(bytes, at, whole) && HasAt(whole, off, piece)
    ensures HasAt(bytes, at + off, piece)
  {
    forall j | 0 <= j < |piece|
      ensures bytes[at + off + j] == piece[j]
    {
      assert bytes[at..at + |whole|][off + j] == whole[off + j] == whole[off..off + |piece|][j];
    }
  }

  /** A batch that is on disk and synced is there point by point. */
  lemma BatchOnDisk(s: State, i: nat)
    requires Base(s) && s.phase.IdsSynced? && s.count <= i < Goal(s)
    ensures OnDisk(s, i, InBatch(s, i))
  {
    hide CodeBytesOf, IdBytesOf, ToLE, AckedOk, FileOk;
    var k := i - s.count;
    var p := s.batch[k];
    SlotOfBytes(s.batch, s.w, k);
    assert s.w * s.count + s.w * k == s.w * i;
    assert |p.code| == s.w && p.id < ID_LIMIT;
    hide PointsOk;
    HasAtInner(s.codes.cur, s.w * s.count, CodeBuf(s), s.w * k, p.code);
    HasAtInner(s.ids.cur, ID_SIZE * s.count, IdBuf(s), ID_SIZE * k, ToLE(p.id, ID_SIZE));
  }

  lemma RaiseKeepsBase(s: State, reported: bool)
    requires Base(s) && Enabled(s, Raise(reported))
    ensures Base(Apply(s, Raise(reported)))
  {
    hide CodeBytesOf, IdBytesOf, ToLE, HasAt;
    var t := Apply(s, Raise(reported));
    forall i | i in t.acked
      ensures i < t.count && OnDisk(t, i, t.acked[i])
    {
      hide FilesOk;
      if i !in s.acked || s.count <= i {
        BatchOnDisk(s, i);
        assert t.acked[i] == InBatch(s, i);
      } else {
        assert OnDisk(s, i, s.acked[i]);
      }
    }
    RaisedReach(s);
  }

  lemma RaisedReach(s: State)
    requires FilesOk(s) && Progress(s) && s.phase.IdsSynced?
    ensures s.w * Goal(s) <= |s.codes.cur| && ID_SIZE * Goal(s) <= |s.ids.cur|
  {
    PrefixBytes(s.batch, s.w, |s.batch|);
    hide CodeBytesOf, IdBytesOf, PointsOk, FileOk;
    assert s.w * Goal(s) == s.w * s.count + s.w * |s.batch|;
  }

  lemma DownKeepsBase(s: State, a: Action)
    requires Base(s) && Enabled(s, a) && (a.Kill? || a.PowerLoss?)
    ensures Base(Apply(s, a))
  {
    var t := Apply(s, a);
    hide CodeBytesOf, IdBytesOf, ToLE;
    if a.PowerLoss? {
      SurvivesKept(s.codes, a.codesTo, a.codesOld, a.codesLeft);
      SurvivesKept(s.ids, a.idsTo, a.idsOld, a.idsLeft);
      hide Survives, HasAt;
      forall i | i in s.acked
        ensures OnDisk(t, i, s.acked[i])
      {
        DiskStays(s, t, i, s.acked[i], s.codes.kept, s.ids.kept);
      }
    }
  }

  /** Opening counts every slot that both files still hold. */
  lemma OpenCountCovers(s: State, i: nat)
    requires s.w > 0 && s.w * i + s.w <= |s.codes.cur| && ID_SIZE * i + ID_SIZE <= |s.ids.cur|
    ensures i < OpenCount(s)
  {
    DivAtLeast(|s.codes.cur|, s.w, i + 1);
  }

  lemma ReopenKeepsBase(s: State, a: Action)
    requires Base(s) && Enabled(s, a) && (a.CutCodes? || a.Reopen?)
    ensures Base(Apply(s, a))
  {
    var t, n := Apply(s, a), OpenCount(s);
    SlotCountFits(s.codes.cur, s.ids.cur, s.w);
    FileOpsKeep(s.codes, s.w * n);
    FileOpsKeep(s.ids, ID_SIZE * n);
    hide CodeBytesOf, IdBytesOf, ToLE;
    forall i | i in s.acked
      ensures i < n
    {
      OpenCountCovers(s, i);
    }
    hide HasAt, OpenCount;
    SlotsStay(s, t, n);
  }

  lemma FileOpsKeep<B>(f: File<B>, size: nat)
    requires FileOk(f) && size <= |f.cur|
    ensures FileOk(Truncate(f, size)) && FileOk(Sync(f)) && Alike(Truncate(f, size).cur, f.cur, size)
  {
  }

  lemma StepKeepsBase(s: State, a: Action)
    requires Base(s) && Enabled(s, a)
    ensures Base(Apply(s, a))
  {
    match a
    case BeginAppend(batch) => BeginKeepsBase(s, batch);
    case Fail => FailKeepsBase(s);
    case WriteCodes(n) => WriteCodesKeepsBase(s, n);
    case WriteIds(n) => WriteIdsKeepsBase(s, n);
    case SyncCodes => SyncKeepsBase(s, a);
    case SyncIds => SyncKeepsBase(s, a);
    case Raise(reported) => RaiseKeepsBase(s, reported);
    case Kill => DownKeepsBase(s, a);
    case PowerLoss(_, _, _, _, _, _) => DownKeepsBase(s, a);
    case CutCodes => ReopenKeepsBase(s, a);
    case Reopen => ReopenKeepsBase(s, a);
  }

  lemma BeginKeepsBase(s: State, batch: seq<Point>)
    requires Base(s) && Enabled(s, BeginAppend(batch))
    ensures Base(Apply(s, BeginAppend(batch)))
  {
    hide ToLE, Offer, IdBytesOf;
    assert CodeBytesOf(batch)[..0] == [];
  }

  lemma FailKeepsBase(s: State)
    requires Base(s) && Enabled(s, Fail)
    ensures Base(Apply(s, Fail))
  {
    hide ToLE, CodeBytesOf, IdBytesOf;
  }

  lemma {:induction false} RunKeepsBase(s: State, run: seq<Action>)
    requires Base(s) && Legal(s, run)
    ensures Base(Exec(s, run))
    decreases |run|
  {
    hide Base, Apply, Enabled;
    if run != [] {
      StepKeepsBase(s, run[0]);
      RunKeepsBase(Apply(s, run[0]), run[1..]);
    }
  }

  /** A slot that is on disk is read as its point. */
  lemma ReadsBack(s: State, i: nat, p: Point, n: nat)
    requires OnDisk(s, i, p) && i < n && s.w * n <= |s.codes.cur| && ID_SIZE * n <= |s.ids.cur|
    ensures ReadSlots(s.codes.cur, s.ids.cur, s.w, n)[i] == p
  {
    IdRoundTrip(p.id);
    hide ToLE, FromLE;
    assert Cut(s.codes.cur, s.w, n)[i] == Slot(s.codes.cur, s.w, n, i) == p.code;
    assert Cut(s.ids.cur, ID_SIZE, n)[i] == Slot(s.ids.cur, ID_SIZE, n, i) == ToLE(p.id, ID_SIZE);
    hide HasAt, Slot;
  }

  /** In every run, with appends that fail anywhere and are followed by others on the same handle, kills, power
      losses and reopenings: each point ever acknowledged is read from its slot whenever the collection is open. */
  lemma AcknowledgedStay(w: nat, run: seq<Action>)
    requires w > 0 && Legal(Fresh(w), run) && Exec(Fresh(w), run).phase.Ready?
    ensures var s := Exec(Fresh(w), run);
      && s.w * s.count <= |s.codes.cur| && ID_SIZE * s.count <= |s.ids.cur|
      && forall i :: i in s.acked ==>
           i < s.count && ReadSlots(s.codes.cur, s.ids.cur, s.w, s.count)[i] == s.acked[i]
  {
    RunKeepsBase(Fresh(w), run);
    var s := Exec(Fresh(w), run);
    forall i | i in s.acked
      ensures i < s.count && ReadSlots(s.codes.cur, s.ids.cur, s.w, s.count)[i] == s.acked[i]
    {
      ReadsBack(s, i, s.acked[i], s.count);
    }
  }

  /** The last two steps of an append. */
  lemma CanAcknowledge(s: State) returns (run: seq<Action>)
    requires s.w > 0 && s.phase == WritingIds(|IdBuf(s)|)
    ensures Legal(s, run)
    ensures var t := Exec(s, run);
      && t.phase.Ready? && t.count == Goal(s)
      && (forall i :: s.count <= i < t.count ==> i in t.acked && t.acked[i] == s.batch[i - s.count])
      && (forall i :: i in s.acked && i < s.count ==> i in t.acked && t.acked[i] == s.acked[i])
  {
    var u := Apply(s, SyncIds);
    var t := Apply(u, Raise(true));
    hide Legal, Exec, CodeBytesOf, IdBytesOf;
    Stop(t);
    Prepend(u, Raise(true), []);
    run := Then(Raise(true), []);
    Prepend(s, SyncIds, run);
    run := Then(SyncIds, run);
    forall i | s.count <= i < t.count
      ensures i in t.acked && t.acked[i] == s.batch[i - s.count]
    {
      assert InBatch(u, i) == s.batch[i - s.count];
    }
  }

  lemma CanWriteIds(s: State) returns (run: seq<Action>)
    requires s.w > 0 && s.phase.CodesSynced? && ID_SIZE * s.count <= |s.ids.cur|
    ensures Legal(s, run)
    ensures var t := Exec(s, run);
      && t.phase.Ready? && t.count == Goal(s)
      && (forall i :: s.count <= i < t.count ==> i in t.acked && t.acked[i] == s.batch[i - s.count])
      && (forall i :: i in s.acked && i < s.count ==> i in t.acked && t.acked[i] == s.acked[i])
  {
    hide Legal, Exec, CodeBytesOf, IdBytesOf, WriteAt;
    var n := |IdBuf(s)|;
    run := CanAcknowledge(Apply(s, WriteIds(n)));
    Prepend(s, WriteIds(n), run);
    run := Then(WriteIds(n), run);
  }

  /** An append can always be made on an open handle, also after a failed one: if nothing fails the batch is written,
      synced and acknowledged, each point in its slot. */
  lemma AppendCanSucceed(s: State, batch: seq<Point>) returns (run: seq<Action>)
    requires Base(s) && s.phase.Ready? && PointsOk(batch, s.w)
    ensures Legal(s, run)
    ensures var t := Exec(s, run);
      && t.phase.Ready? && t.count == s.count + |batch|
      && (forall i :: s.count <= i < t.count ==> i in t.acked && t.acked[i] == batch[i - s.count])
      && (forall i :: i in s.acked && i < s.count ==> i in t.acked && t.acked[i] == s.acked[i])
  {
    hide Legal, Exec, CodeBytesOf, IdBytesOf, WriteAt, Offer, AckedOk, PointsOk, FileOk;
    var s1 := Apply(s, BeginAppend(batch));
    var n := |CodeBuf(s1)|;
    var s2 := Apply(s1, WriteCodes(n));
    run := CanWriteIds(Apply(s2, SyncCodes));
    Prepend(s2, SyncCodes, run);
    run := Then(SyncCodes, run);
    Prepend(s1, WriteCodes(n), run);
    run := Then(WriteCodes(n), run);
    Prepend(s, BeginAppend(batch), run);
    run := Then(BeginAppend(batch), run);
  }

  lemma Stop(s: State)
    ensures Legal(s, []) && Exec(s, []) == s
  {
  }

  lemma Prepend(s: State, a: Action, rest: seq<Action>)
    requires Enabled(s, a) && Legal(Apply(s, a), rest)
    ensures Legal(s, Then(a, rest)) && Exec(s, Then(a, rest)) == Exec(Apply(s, a), rest)
  {
    assert Then(a, rest)[1..] == rest;
  }

  // ----- what holds as long as appends do not disagree with what is left of failed ones

  /** A batch may go over whole slots that a failed append left behind `count`; it offers the same points there. */
  ghost predicate Repeats(s: State, batch: seq<Point>) {
    forall i :: s.count <= i < Held(s) && i < |s.all| && i < s.count + |batch| ==> s.all[i] == batch[i - s.count]
  }

  ghost predicate Careful(s: State, a: Action) {
    a.BeginAppend? ==> Repeats(s, a.batch)
  }

  /** Slots whose code is on disk whatever happens next. */
  function Solid(s: State): nat {
    if s.phase.CodesSynced? || s.phase.WritingIds? || s.phase.IdsSynced? then |s.all| else Held(s)
  }

  ghost predicate BatchPlaced(s: State) {
    Appending(s) ==>
      Goal(s) <= |s.all| && s.all[s.count..Goal(s)] == s.batch && |s.all| == Max(Held(s), Goal(s))
  }

  /** Code bytes and id bytes are those of the points last offered, as far as they must be. */
  ghost predicate Whole(s: State) {
    && PointsOk(s.all, s.w) && Held(s) <= Solid(s) <= |s.all| && (s.phase.Down? || s.count <= Held(s))
    && Alike(s.codes.cur, CodeBytesOf(s.all), s.w * Solid(s)) && s.w * Solid(s) <= s.codes.kept
    && Alike(s.ids.cur, IdBytesOf(s.all), ID_SIZE * Held(s)) && ID_SIZE * Durable(s) <= s.ids.kept
    && BatchPlaced(s)
  }

  ghost predicate Inv(s: State) {
    Base(s) && Whole(s)
  }

  /** Points that agree on their first slots agree on the bytes of those. */
  lemma SamePointsSameBytes(a: seq<Point>, b: seq<Point>, w: nat, k: nat)
    requires PointsOk(a, w) && PointsOk(b, w) && k <= |a| && k <= |b| && a[..k] == b[..k]
    ensures Alike(CodeBytesOf(a), CodeBytesOf(b), w * k) && Alike(IdBytesOf(a), IdBytesOf(b), ID_SIZE * k)
  {
    PrefixBytes(a, w, k);
    PrefixBytes(b, w, k);
  }

  lemma OfferedKeepsHeld(s: State, batch: seq<Point>)
    requires Whole(s) && s.phase.Ready? && PointsOk(batch, s.w) && Repeats(s, batch)
    ensures var all := Offer(s.all, s.count, batch, Held(s)); var goal := s.count + |batch|;
      && PointsOk(all, s.w) && |all| == Max(Held(s), goal) && all[s.count..goal] == batch
      && all[..Held(s)] == s.all[..Held(s)]
  {
    var q, goal := Held(s), s.count + |batch|;
    var all := Offer(s.all, s.count, batch, q);
    assert Take(s.all, s.count) == s.all[..s.count] && Take(s.all, q) == s.all[..q];
    hide CodeBytesOf, IdBytesOf;
    forall i | 0 <= i < q
      ensures all[i] == s.all[i]
    {
    }
  }

  lemma BeginKeeps(s: State, batch: seq<Point>)
    requires Whole(s) && Enabled(s, BeginAppend(batch)) && Repeats(s, batch)
    ensures Whole(Apply(s, BeginAppend(batch)))
  {
    hide CodeBytesOf, IdBytesOf, Offer, PointsOk, Repeats, Alike;
    var t, q := Apply(s, BeginAppend(batch)), Held(s);
    OfferedKeepsHeld(s, batch);
    SamePointsSameBytes(s.all, t.all, s.w, q);
    AlikeTrans(s.codes.cur, CodeBytesOf(s.all), CodeBytesOf(t.all), s.w * q);
    AlikeTrans(s.ids.cur, IdBytesOf(s.all), IdBytesOf(t.all), ID_SIZE * q);
  }

  /** Writing part of a stretch of f over a file that is like f already as far as `upto`. */
  lemma RewriteStretch<B>(g: File<B>, f: seq<B>, at: nat, whole: seq<B>, n: nat, upto: nat)
    requires FileOk(g) && at <= upto && Alike(g.cur, f, upto) && HasAt(f, at, whole) && n <= |whole|
    ensures var t := WriteAt(g, at, whole[..n]);
      Alike(t.cur, f, upto) && t.kept >= Min(g.kept, upto)
  {
    var buf := whole[..n];
    forall j | 0 <= j < |buf| && at + j < upto
      ensures buf[j] == g.cur[at + j]
    {
      assert g.cur[..upto][at + j] == f[..upto][at + j];
      assert f[at..at + |whole|][j] == whole[j];
    }
    Rewritten(g, at, buf, upto);
    AlikeTrans(WriteAt(g, at, buf).cur, g.cur, f, upto);
  }

  lemma WriteCodesKeeps(s: State, n: nat)
    requires Inv(s) && Enabled(s, WriteCodes(n))
    ensures Whole(Apply(s, WriteCodes(n)))
  {
    hide CodeBytesOf, IdBytesOf, WriteAt, AckedOk, Progress, PointsOk, HasAt, Alike;
    StretchBytes(s.all, s.w, s.count, s.batch);
    MulMono(s.w, s.count, Held(s));
    RewriteStretch(s.codes, CodeBytesOf(s.all), s.w * s.count, CodeBuf(s), n, s.w * Held(s));
  }

  /** Alike up to one place and holding the rest from at or before it. */
  lemma AlikeJoin<B>(a: seq<B>, f: seq<B>, n: nat, at: nat, piece: seq<B>)
    requires Alike(a, f, n) && at <= n && HasAt(a, at, piece) && HasAt(f, at, piece)
    ensures Alike(a, f, at + |piece|)
  {
    forall j | 0 <= j < at + |piece|
      ensures a[j] == f[j]
    {
      if j < at {
        assert a[..n][j] == f[..n][j];
      } else {
        assert a[at..at + |piece|][j - at] == f[at..at + |piece|][j - at];
      }
    }
  }

  lemma SyncCodesKeeps(s: State)
    requires Inv(s) && Enabled(s, SyncCodes)
    ensures Whole(Apply(s, SyncCodes))
  {
    StretchBytes(s.all, s.w, s.count, s.batch);
    MulMono(s.w, s.count, Held(s));
    assert CodeBuf(s)[..|CodeBuf(s)|] == CodeBuf(s);
    hide CodeBytesOf, IdBytesOf;
    AlikeJoin(s.codes.cur, CodeBytesOf(s.all), s.w * Held(s), s.w * s.count, CodeBuf(s));
    assert Alike(s.codes.cur, CodeBytesOf(s.all), s.w * |s.all|);
  }

  /** After part of a batch's ids was written, the whole slots still begin like the bytes meant for them. */
  lemma WrittenIds(f: File<Byte>, g: seq<Byte>, count: nat, buf: seq<Byte>, n: nat)
    requires FileOk(f) && Alike(f.cur, g, ID_SIZE * (|f.cur| / ID_SIZE)) && count <= |f.cur| / ID_SIZE
    requires HasAt(g, ID_SIZE * count, buf) && n <= |buf|
    ensures var t := WriteAt(f, ID_SIZE * count, buf[..n]);
      && |t.cur| == Max(|f.cur|, ID_SIZE * count + n) && Alike(t.cur, g, ID_SIZE * (|t.cur| / ID_SIZE))
      && t.synced == f.synced && t.kept >= Min(f.kept, ID_SIZE * (|f.cur| / ID_SIZE))
  {
    hide WriteAt, Overwritten;
    var at, held := ID_SIZE * count, ID_SIZE * (|f.cur| / ID_SIZE);
    var t := WriteAt(f, at, buf[..n]);
    assert at <= held <= |f.cur| by {
      AlikeBounds(f.cur, g, held);
    }
    Written(f, at, buf[..n]);
    RewriteStretch(f, g, at, buf, n, held);
    hide FileOk;
    if at + n >= |f.cur| {
      assert g[at..at + |buf|][..n] == g[at..at + n];
      AlikeJoin(t.cur, g, held, at, buf[..n]);
      AlikeShorter(t.cur, g, at + n, ID_SIZE * (|t.cur| / ID_SIZE));
    }
  }

  lemma WriteIdsKeeps(s: State, n: nat)
    requires Inv(s) && Enabled(s, WriteIds(n))
    ensures Whole(Apply(s, WriteIds(n)))
  {
    hide CodeBytesOf, IdBytesOf, WriteAt, AckedOk, PointsOk, Progress, Alike, HasAt;
    var t := Apply(s, WriteIds(n));
    StretchBytes(s.all, s.w, s.count, s.batch);
    WrittenIds(s.ids, IdBytesOf(s.all), s.count, IdBuf(s), n);
    HeldAfter(|s.ids.cur|, s.count, n, |s.batch|);
  }

  lemma HeldAfter(len: nat, count: nat, n: nat, size: nat)
    requires n <= ID_SIZE * size
    ensures len / ID_SIZE <= Max(len, ID_SIZE * count + n) / ID_SIZE <= Max(len / ID_SIZE, count + size)
  {
  }

  lemma SyncIdsKeeps(s: State)
    requires Inv(s) && Enabled(s, SyncIds)
    ensures Whole(Apply(s, SyncIds)) && Held(s) == |s.all|
  {
    StretchBytes(s.all, s.w, s.count, s.batch);
    hide CodeBytesOf, IdBytesOf, AckedOk, PointsOk;
  }

  /** Fewer slots are solid once an append is over or cut off. */
  lemma FewerSolid(s: State)
    requires Whole(s)
    ensures Alike(s.codes.cur, CodeBytesOf(s.all), s.w * Held(s)) && s.w * Held(s) <= s.codes.kept
  {
    hide CodeBytesOf, IdBytesOf, PointsOk, Alike;
    MulMono(s.w, Held(s), Solid(s));
    AlikeShorter(s.codes.cur, CodeBytesOf(s.all), s.w * Solid(s), s.w * Held(s));
  }

  lemma StopKeeps(s: State, a: Action)
    requires Inv(s) && Enabled(s, a) && (a.Fail? || a.Kill?)
    ensures Whole(Apply(s, a))
  {
    hide CodeBytesOf, IdBytesOf, PointsOk, AckedOk, Alike, Progress;
    FewerSolid(s);
  }

  lemma RaiseKeeps(s: State, a: Action)
    requires Inv(s) && Enabled(s, a) && a.Raise?
    ensures Whole(Apply(s, a))
  {
    hide CodeBytesOf, IdBytesOf, PointsOk, AckedOk, Alike;
    FewerSolid(s);
    StretchBytes(s.all, s.w, s.count, s.batch);
    assert Goal(s) <= Held(s);
    hide HasAt, Progress;
  }

  /** What a power loss leaves of the ids are whole slots of what was there, and no less than the durable ones. */
  lemma IdsSurvive(s: State, n: nat, m: nat, left: seq<Byte>)
    requires Inv(s) && Survives(s.ids, n, m, left)
    ensures var q := |left| / ID_SIZE;
      Durable(s) <= q <= Held(s) && Alike(left, s.ids.cur, ID_SIZE * q)
  {
    hide CodeBytesOf, IdBytesOf, PointsOk, AckedOk, Progress;
    var q := |left| / ID_SIZE;
    SurvivesKept(s.ids, n, m, left);
    if |left| > n {
      assert q == Durable(s);
      AlikeShorter(left, s.ids.cur, s.ids.kept, ID_SIZE * q);
    }
  }

  lemma PowerLossKeeps(s: State, a: Action)
    requires Inv(s) && Enabled(s, a) && a.PowerLoss?
    ensures Whole(Apply(s, a))
  {
    var t := Apply(s, a);
    var q := |a.idsLeft| / ID_SIZE;
    IdsSurvive(s, a.idsTo, a.idsOld, a.idsLeft);
    SurvivesKept(s.codes, a.codesTo, a.codesOld, a.codesLeft);
    MulMono(s.w, q, Held(s));
    MulMono(s.w, Held(s), Solid(s));
    hide CodeBytesOf, IdBytesOf, PointsOk, AckedOk, Progress, Survives;
    AlikeShorter(a.codesLeft, s.codes.cur, s.codes.kept, s.w * q);
    AlikeShorter(s.codes.cur, CodeBytesOf(s.all), s.w * Solid(s), s.w * q);
    AlikeTrans(a.codesLeft, s.codes.cur, CodeBytesOf(s.all), s.w * q);
    AlikeShorter(s.ids.cur, IdBytesOf(s.all), ID_SIZE * Held(s), ID_SIZE * q);
    AlikeTrans(a.idsLeft, s.ids.cur, IdBytesOf(s.all), ID_SIZE * q);
  }

  /** The codes always cover the ids, so opening finds exactly the slots the id file holds. */
  lemma OpenCountIsHeld(s: State)
    requires Whole(s) && s.w > 0
    ensures OpenCount(s) == Held(s) && s.w * Held(s) <= |s.codes.cur|
  {
    MulMono(s.w, Held(s), Solid(s));
    hide CodeBytesOf, IdBytesOf, PointsOk;
    DivAtLeast(|s.codes.cur|, s.w, Held(s));
  }

  lemma CutCodesKeeps(s: State)
    requires Inv(s) && Enabled(s, CutCodes)
    ensures Whole(Apply(s, CutCodes))
  {
    hide CodeBytesOf, IdBytesOf, Base, Alike, SlotCount, PointsOk;
    var t, q := Apply(s, CutCodes), Held(s);
    OpenCountIsHeld(s);
    FewerSolid(s);
    FileOpsKeep(s.codes, s.w * q) by {
      FilesAreOk(s);
    }
    AlikeTrans(t.codes.cur, s.codes.cur, CodeBytesOf(s.all), s.w * q);
  }

  lemma FilesAreOk(s: State)
    requires Base(s)
    ensures FileOk(s.codes) && FileOk(s.ids) && s.w > 0
  {
  }

  lemma ReopenKeeps(s: State)
    requires Inv(s) && Enabled(s, Reopen)
    ensures Whole(Apply(s, Reopen))
  {
    hide CodeBytesOf, IdBytesOf, Base, Alike, SlotCount;
    var t, q := Apply(s, Reopen), Held(s);
    OpenCountIsHeld(s);
    FewerSolid(s);
    FilesAreOk(s);
    FileOpsKeep(s.codes, s.w * q);
    FileOpsKeep(s.ids, ID_SIZE * q);
    assert t.all == s.all[..q];
    SamePointsSameBytes(s.all, t.all, s.w, q);
    hide PointsOk, FileOk;
    AlikeTrans(t.codes.cur, s.codes.cur, CodeBytesOf(s.all), s.w * q);
    AlikeTrans(t.codes.cur, CodeBytesOf(s.all), CodeBytesOf(t.all), s.w * q);
    AlikeTrans(t.ids.cur, s.ids.cur, IdBytesOf(s.all), ID_SIZE * q);
    AlikeTrans(t.ids.cur, IdBytesOf(s.all), IdBytesOf(t.all), ID_SIZE * q);
  }

  /** Every step but a careless append keeps code bytes, id bytes and acknowledgements consistent. */
  lemma StepKeeps(s: State, a: Action)
    requires Inv(s) && Enabled(s, a) && Careful(s, a)
    ensures Inv(Apply(s, a))
  {
    StepKeepsBase(s, a);
    hide Base, Whole;
    match a
    case BeginAppend(batch) => BeginKeeps(s, batch);
    case WriteCodes(n) => WriteCodesKeeps(s, n);
    case SyncCodes => SyncCodesKeeps(s);
    case WriteIds(n) => WriteIdsKeeps(s, n);
    case SyncIds => SyncIdsKeeps(s);
    case Raise(_) => RaiseKeeps(s, a);
    case Fail => StopKeeps(s, a);
    case Kill => StopKeeps(s, a);
    case PowerLoss(_, _, _, _, _, _) => PowerLossKeeps(s, a);
    case CutCodes => CutCodesKeeps(s);
    case Reopen => ReopenKeeps(s);
  }

  ghost predicate CarefulThroughout(s: State, run: seq<Action>)
    requires Legal(s, run)
    decreases |run|
  {
    run == [] || (Careful(s, run[0]) && CarefulThroughout(Apply(s, run[0]), run[1..]))
  }

  lemma {:induction false} RunKeeps(s: State, run: seq<Action>)
    requires Inv(s) && Legal(s, run) && CarefulThroughout(s, run)
    ensures Inv(Exec(s, run))
    decreases |run|
  {
    hide Inv, Careful, Apply, Enabled;
    if run != [] {
      StepKeeps(s, run[0]);
      RunKeeps(Apply(s, run[0]), run[1..]);
    }
  }

  lemma FreshInv(w: nat)
    requires w > 0
    ensures Inv(Fresh(w))
  {
  }

  /** The first k slots, as long as the id file holds them, read as the points last offered. */
  lemma HeldSlotsRead(s: State, k: nat)
    requires Whole(s) && s.w > 0 && k <= Held(s)
    ensures s.w * k <= |s.codes.cur| && ReadSlots(s.codes.cur, s.ids.cur, s.w, k) == s.all[..k]
  {
    MulMono(s.w, k, Solid(s));
    AlikeShorter(s.codes.cur, CodeBytesOf(s.all), s.w * Solid(s), s.w * k);
    AlikeShorter(s.ids.cur, IdBytesOf(s.all), ID_SIZE * Held(s), ID_SIZE * k);
    PrefixBytes(s.all, s.w, k);
    hide CodeBytesOf, IdBytesOf;
    assert PointsOk(s.all[..k], s.w);
    SlotsPair(s.all[..k], s.w, s.codes.cur, s.ids.cur);
  }

  /** For any run in which appends over the remains of failed ones offer the same points again, with kills and
      power losses at any point and reopenings: whenever the collection is open, its slots read back as the
      points last offered for them, code and id of the same one. */
  lemma OpenCollectionsAreWhole(w: nat, run: seq<Action>)
    requires w > 0 && Legal(Fresh(w), run) && CarefulThroughout(Fresh(w), run) && Exec(Fresh(w), run).phase.Ready?
    ensures var s := Exec(Fresh(w), run);
      && s.w * s.count <= |s.codes.cur| && ID_SIZE * s.count <= |s.ids.cur| && s.count <= |s.all|
      && ReadSlots(s.codes.cur, s.ids.cur, s.w, s.count) == s.all[..s.count]
  {
    FreshInv(w);
    RunKeeps(Fresh(w), run);
    HeldSlotsRead(Exec(Fresh(w), run), Exec(Fresh(w), run).count);
  }

  /** Opening after a failure finds a prefix of the slots and of the batch that was under way, no shorter than
      the durable slots, which include every acknowledged one, and than the slots the collection believed in if
      those were durable. */
  lemma RecoveryKeepsPrefix(w: nat, run: seq<Action>)
    requires w > 0 && Legal(Fresh(w), run) && CarefulThroughout(Fresh(w), run) && Exec(Fresh(w), run).phase.Down?
    ensures Enabled(Exec(Fresh(w), run), Reopen)
    ensures var s := Exec(Fresh(w), run); var t := Apply(s, Reopen);
      && Durable(s) <= t.count <= |s.all| && t.all == s.all[..t.count]
      && (Durable(s) >= s.count ==> s.all[..s.count] <= t.all)
      && forall i :: i in s.acked ==> i < t.count && t.all[i] == s.acked[i]
  {
    FreshInv(w);
    RunKeeps(Fresh(w), run);
    var s := Exec(Fresh(w), run);
    var t := Apply(s, Reopen);
    OpenCountIsHeld(s);
    assert Durable(s) <= Held(s) by {
      hide CodeBytesOf, IdBytesOf, PointsOk, AckedOk;
    }
    HeldSlotsRead(s, Held(s));
    forall i | i in s.acked
      ensures i < Held(s) && s.all[i] == s.acked[i]
    {
      assert OnDisk(s, i, s.acked[i]);
      hide CodeBytesOf, IdBytesOf, PointsOk, AckedOk, Whole;
      ReadsBack(s, i, s.acked[i], Held(s));
    }
  }

  // ----- exactly when every crash can be recovered from

  /** Opening these files finds the points last offered for the slots, as far as it goes. */
  ghost predicate Found(s: State)
    requires s.w > 0
  {
    SlotCountFits(s.codes.cur, s.ids.cur, s.w);
    OpenCount(s) <= |s.all| && ReadSlots(s.codes.cur, s.ids.cur, s.w, OpenCount(s)) == s.all[..OpenCount(s)]
  }

  /** Whatever crash struck now, that would be so. */
  ghost predicate Recoverable(s: State) {
    s.w > 0 && forall a: Action :: (a.Kill? || a.PowerLoss?) && Enabled(s, a) ==> Found(Apply(s, a))
  }

  lemma WholeIsFound(s: State)
    requires Whole(s) && s.w > 0
    ensures Found(s)
  {
    OpenCountIsHeld(s);
    HeldSlotsRead(s, Held(s));
  }

  lemma InvIsRecoverable(s: State)
    requires Inv(s)
    ensures Recoverable(s)
  {
    forall a: Action | (a.Kill? || a.PowerLoss?) && Enabled(s, a)
      ensures Found(Apply(s, a))
    {
      StepKeeps(s, a);
      hide Found, Enabled, Apply;
      WholeIsFound(Apply(s, a));
    }
  }

  lemma OfferedAt(all: seq<Point>, count: nat, batch: seq<Point>, held: nat, i: nat)
    requires count <= |all| && count <= i < count + |batch|
    ensures i < |Offer(all, count, batch, held)| && Offer(all, count, batch, held)[i] == batch[i - count]
  {
  }

  lemma CarelessIsNot(s: State, batch: seq<Point>)
    requires Inv(s) && Enabled(s, BeginAppend(batch)) && !Repeats(s, batch)
    ensures !Recoverable(Apply(s, BeginAppend(batch)))
  {
    var i :| s.count <= i < Held(s) && i < |s.all| && i < s.count + |batch| && s.all[i] != batch[i - s.count];
    hide CodeBytesOf, IdBytesOf, PointsOk, Base, Whole, Found, Offer, Recoverable, Repeats;
    var t := Apply(s, BeginAppend(batch));
    assert Enabled(t, Kill);
    OfferedAt(s.all, s.count, batch, Held(s), i);
    OthersNotFound(s, Apply(t, Kill), i);
    NotFoundAfterKill(t);
  }

  /** The files hold another point than the one last offered. */
  lemma OthersNotFound(s: State, u: State, i: nat)
    requires s.w > 0 && u.w == s.w && u.codes == s.codes && u.ids == s.ids
    requires Whole(s) && i < Held(s) && i < |s.all| && i < |u.all| && u.all[i] != s.all[i]
    ensures !Found(u)
  {
    OpenCountIsHeld(s);
    HeldSlotsRead(s, Held(s));
    hide CodeBytesOf, IdBytesOf, PointsOk, Whole, ReadSlots, SlotCount;
    assert s.all[..Held(s)][i] == s.all[i];
  }

  lemma NotFoundAfterKill(t: State)
    requires Enabled(t, Kill) && !Found(Apply(t, Kill))
    ensures !Recoverable(t)
  {
  }

  ghost predicate RecoverableThroughout(s: State, run: seq<Action>)
    requires Legal(s, run)
    decreases |run|
  {
    Recoverable(s) && (run == [] || RecoverableThroughout(Apply(s, run[0]), run[1..]))
  }

  lemma NotThroughout(s: State, run: seq<Action>)
    requires Legal(s, run) && !Recoverable(s)
    ensures !RecoverableThroughout(s, run)
  {
  }

  /** At every moment of a run any crash leaves files that open as the points last offered, if and only if each
      append on the way offers the same points for whole slots that failed ones left behind. */
  lemma {:induction false} RunIsRecoverableIff(s: State, run: seq<Action>)
    requires Inv(s) && Legal(s, run)
    ensures RecoverableThroughout(s, run) <==> CarefulThroughout(s, run)
    decreases |run|
  {
    hide Inv, Repeats, Apply, Enabled, Recoverable;
    InvIsRecoverable(s);
    if run != [] {
      if Careful(s, run[0]) {
        StepKeeps(s, run[0]);
        RunIsRecoverableIff(Apply(s, run[0]), run[1..]);
      } else {
        CarelessIsNot(s, run[0].batch);
        NotThroughout(Apply(s, run[0]), run[1..]);
      }
    }
  }
}
