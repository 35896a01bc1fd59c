/**
 An append on a handle whose last append failed writes over what that one left: its codes first, its ids later.
 A crash in between can leave a slot with parts of two points. Exactly when, and a run in which it happens.
 */
module RetriedAppends {
  import opened Wrappers
  import opened FlatFiles
  import opened Appends

  ghost predicate DifferTwice<B>(a: seq<B>, b: seq<B>) {
    exists j, k :: 0 <= j < k < |a| && k < |b| && a[j] != b[j] && a[k] != b[k]
  }

  /** Writing q over p, codes before ids, can stop at bytes that are neither's: two bytes of the slot differ. */
  ghost predicate CanMix(p: Point, q: Point) {
    || (p.code != q.code && p.id != q.id)
    || DifferTwice(p.code, q.code) || DifferTwice(ToLE(p.id, ID_SIZE), ToLE(q.id, ID_SIZE))
  }

  /** The batch goes over a whole slot left of a failed append, with a point that differs in two bytes. */
  ghost predicate Clashes(s: State, batch: seq<Point>, i: nat) {
    s.count <= i < Held(s) && i < |s.all| && i < s.count + |batch| && CanMix(s.all[i], batch[i - s.count])
  }

  /** Slot i of a code file, for codes of width w, holds the point's code. */
  ghost predicate HasCode(codes: seq<bv8>, w: nat, i: nat, p: Point) {
    HasAt(codes, w * i, p.code)
  }

  ghost predicate Carries(t: State, i: nat, p: Point) {
    HasCode(t.codes.cur, t.w, i, p) && HasAt(t.ids.cur, ID_SIZE * i, ToLE(p.id, ID_SIZE))
  }

  /** Opening t finds a slot with neither the point that was there nor the one the batch puts there. */
  ghost predicate Foreign(s: State, batch: seq<Point>, t: State, i: nat) {
    && t.w > 0 && i < OpenCount(t)
    && !(i < Held(s) && i < |s.all| && Carries(t, i, s.all[i]))
    && !(s.count <= i < s.count + |batch| && Carries(t, i, batch[i - s.count]))
  }

  ghost predicate AllWrites(run: seq<Action>) {
    forall k :: 0 <= k < |run| ==>
      run[k].WriteCodes? || run[k].SyncCodes? || run[k].WriteIds? || run[k].SyncIds?
  }

  /** The batch is appended, as far as `run`, and a crash leaves slot i mixed up. */
  ghost predicate CrashMixes(s: State, batch: seq<Point>, run: seq<Action>, crash: Action, i: nat) {
    && Enabled(s, BeginAppend(batch)) && AllWrites(run) && Legal(Apply(s, BeginAppend(batch)), run)
    && (crash.Kill? || crash.PowerLoss?) && Enabled(Exec(Apply(s, BeginAppend(batch)), run), crash)
    && Foreign(s, batch, Apply(Exec(Apply(s, BeginAppend(batch)), run), crash), i)
  }

  // ----- files written over in part

  /** The first bytes of `cur`, then bytes of `was`. */
  ghost predicate Blend<B>(left: seq<B>, cur: seq<B>, was: seq<B>, x: nat) {
    && x <= |cur| && (|left| <= x || |left| <= |was|)
    && forall j :: 0 <= j < |left| ==> left[j] == if j < x then cur[j] else was[j]
  }

  lemma SurvivesBlend<B>(f: File<B>, n: nat, m: nat, left: seq<B>)
    requires Survives(f, n, m, left)
    ensures Blend(left, f.cur, f.synced, n)
  {
  }

  lemma OverwrittenAt<B>(c: seq<B>, at: nat, buf: seq<B>, j: nat)
    requires at <= |c|
    ensures |Overwritten(c, at, buf)| == Max(|c|, at + |buf|)
    ensures j < Max(|c|, at + |buf|) ==>
      Overwritten(c, at, buf)[j] == if at <= j < at + |buf| then buf[j - at] else c[j]
  {
  }

  lemma PieceAt<B>(bytes: seq<B>, at: nat, piece: seq<B>, j: nat)
    requires HasAt(bytes, at, piece) && j < |piece|
    ensures bytes[at + j] == piece[j]
  {
    assert bytes[at..at + |piece|][j] == piece[j];
  }

  /** A slot that held p and is being overwritten by q: some bytes of q, then those of p. */
  lemma BlendedSlot<B>(left: seq<B>, c: seq<B>, at: nat, buf: seq<B>, k: nat, was: seq<B>, x: nat, lo: nat,
                       p: seq<B>, q: seq<B>) returns (y: nat)
    requires at <= lo && at <= |c| && k <= |buf| && Blend(left, Overwritten(c, at, buf[..k]), was, x)
    requires |p| == |q| && lo + |p| <= |left| && HasAt(c, lo, p) && HasAt(buf, lo - at, q)
    requires x < |left| ==> forall j :: x <= j < lo + |p| && lo <= j ==> was[j] == c[j]
    ensures y <= |p| && HasAt(left, lo, q[..y] + p[y..])
    ensures k == 0 ==> y == 0
    ensures k == |buf| && x >= lo + |p| ==> y == |p|
    ensures x >= lo + |p| && lo - at <= k <= lo - at + |p| ==> y == k - (lo - at)
  {
    assert lo - at + |q| <= |buf|;
    hide Overwritten, HasAt;
    var end := Min(x, at + k);
    y := if end <= lo then 0 else Min(end - lo, |p|);
    var mix := q[..y] + p[y..];
    forall j | 0 <= j < |p|
      ensures left[lo + j] == mix[j]
    {
      OverwrittenAt(c, at, buf[..k], lo + j);
      PieceAt(c, lo, p, j);
      PieceAt(buf, lo - at, q, j);
    }
    HasIfEqual(left, lo, mix);
  }

  lemma HasIfEqual<B>(bytes: seq<B>, at: nat, piece: seq<B>)
    requires at + |piece| <= |bytes| && forall j :: 0 <= j < |piece| ==> bytes[at + j] == piece[j]
    ensures HasAt(bytes, at, piece)
  {
  }

  /** A slot outside what is written stays. */
  lemma OtherSlot<B>(left: seq<B>, c: seq<B>, at: nat, buf: seq<B>, k: nat, was: seq<B>, x: nat, lo: nat, p: seq<B>)
    requires at <= |c| && k <= |buf| && Blend(left, Overwritten(c, at, buf[..k]), was, x)
    requires lo + |p| <= |left| && HasAt(c, lo, p) && (lo + |p| <= at || at + |buf| <= lo)
    requires x < |left| ==> forall j :: x <= j < lo + |p| && lo <= j ==> was[j] == c[j]
    ensures HasAt(left, lo, p)
  {
    forall j | 0 <= j < |p|
      ensures left[lo + j] == p[j]
    {
      OverwrittenAt(c, at, buf[..k], lo + j);
      PieceAt(c, lo, p, j);
    }
  }

  /** A slot inside what was written holds that. */
  lemma NewSlot<B>(left: seq<B>, c: seq<B>, at: nat, buf: seq<B>, k: nat, was: seq<B>, x: nat, lo: nat, q: seq<B>)
    requires at <= lo && at <= |c| && k <= |buf| && Blend(left, Overwritten(c, at, buf[..k]), was, x)
    requires lo + |q| <= |left| && |left| <= x && HasAt(buf, lo - at, q) && lo + |q| <= at + k
    ensures HasAt(left, lo, q)
  {
    forall j | 0 <= j < |q|
      ensures left[lo + j] == q[j]
    {
      OverwrittenAt(c, at, buf[..k], lo + j);
      PieceAt(buf, lo - at, q, j);
    }
  }

  // ----- the append under way

  function CodesOut(u: State): nat {
    if u.phase.WritingCodes? then u.phase.written else |CodeBuf(u)|
  }

  function IdsOut(u: State): nat {
    if u.phase.WritingIds? then u.phase.written else if u.phase.IdsSynced? then |IdBuf(u)| else 0
  }

  /** How the files of u came from those of s. */
  ghost predicate Onto(s: State, batch: seq<Point>, u: State) {
    && u.w == s.w && u.count == s.count && u.batch == batch && Appending(u)
    && s.w * s.count <= |s.codes.cur| && ID_SIZE * s.count <= |s.ids.cur|
    && CodesOut(u) <= |CodeBuf(u)| && IdsOut(u) <= |IdBuf(u)|
    && u.codes.cur == Overwritten(s.codes.cur, s.w * s.count, CodeBuf(u)[..CodesOut(u)])
    && u.ids.cur == Overwritten(s.ids.cur, ID_SIZE * s.count, IdBuf(u)[..IdsOut(u)])
    && u.codes.synced == (if u.phase.WritingCodes? then s.codes.synced else u.codes.cur)
    && u.ids.synced == (if u.phase.IdsSynced? then u.ids.cur else s.ids.synced)
  }

  lemma OverwriteMore<B>(f: File<B>, c: seq<B>, at: nat, buf: seq<B>, k: nat, n: nat)
    requires at <= |c| && k <= n <= |buf| && f.cur == Overwritten(c, at, buf[..k])
    ensures at <= |f.cur| && WriteAt(f, at, buf[..n]).cur == Overwritten(c, at, buf[..n])
    ensures WriteAt(f, at, buf[..n]).synced == f.synced
  {
    var g := File(f.cur, f.cur, 0);
    Written(g, at, buf[..n]);
    assert WriteAt(f, at, buf[..n]).cur == WriteAt(g, at, buf[..n]).cur;
    forall j | 0 <= j < Max(|c|, at + n)
      ensures Overwritten(f.cur, at, buf[..n])[j] == Overwritten(c, at, buf[..n])[j]
    {
      OverwrittenAt(c, at, buf[..k], j);
      OverwrittenAt(f.cur, at, buf[..n], j);
      OverwrittenAt(c, at, buf[..n], j);
    }
    OverwrittenAt(c, at, buf[..k], 0);
    OverwrittenAt(f.cur, at, buf[..n], 0);
    OverwrittenAt(c, at, buf[..n], 0);
  }

  lemma BeginIsOnto(s: State, batch: seq<Point>)
    requires Base(s) && Enabled(s, BeginAppend(batch))
    ensures Onto(s, batch, Apply(s, BeginAppend(batch)))
  {
    assert CodeBytesOf(batch)[..0] == [] && IdBytesOf(batch)[..0] == [];
    assert s.codes.cur == s.codes.cur[..s.w * s.count] + s.codes.cur[s.w * s.count..];
    assert s.ids.cur == s.ids.cur[..ID_SIZE * s.count] + s.ids.cur[ID_SIZE * s.count..];
  }

  lemma WriteCodesStaysOnto(s: State, batch: seq<Point>, u: State, n: nat)
    requires Onto(s, batch, u) && Enabled(u, WriteCodes(n))
    ensures Onto(s, batch, Apply(u, WriteCodes(n)))
  {
    hide CodeBytesOf, IdBytesOf, Overwritten, WriteAt;
    OverwriteMore(u.codes, s.codes.cur, s.w * s.count, CodeBuf(u), CodesOut(u), n);
  }

  lemma WriteIdsStaysOnto(s: State, batch: seq<Point>, u: State, n: nat)
    requires Onto(s, batch, u) && Enabled(u, WriteIds(n))
    ensures Onto(s, batch, Apply(u, WriteIds(n)))
  {
    hide CodeBytesOf, IdBytesOf, Overwritten, WriteAt;
    OverwriteMore(u.ids, s.ids.cur, ID_SIZE * s.count, IdBuf(u), IdsOut(u), n);
  }

  lemma SyncStaysOnto(s: State, batch: seq<Point>, u: State, a: Action)
    requires Onto(s, batch, u) && Enabled(u, a) && (a.SyncCodes? || a.SyncIds?)
    ensures Onto(s, batch, Apply(u, a))
  {
    hide CodeBytesOf, IdBytesOf, Overwritten, WriteAt;
  }

  lemma {:induction false} RunStaysOnto(s: State, batch: seq<Point>, u: State, run: seq<Action>)
    requires Onto(s, batch, u) && Legal(u, run) && AllWrites(run)
    ensures Onto(s, batch, Exec(u, run))
    decreases |run|
  {
    hide Onto, Apply, Enabled;
    if run != [] {
      var a := run[0];
      if a.WriteCodes? {
        WriteCodesStaysOnto(s, batch, u, a.n);
      } else if a.WriteIds? {
        WriteIdsStaysOnto(s, batch, u, a.n);
      } else {
        SyncStaysOnto(s, batch, u, a);
      }
      RunStaysOnto(s, batch, Apply(u, run[0]), run[1..]);
    }
  }

  // ----- slots after a crash

  /** A crash leaves part of each file as it was, then parts of the synced one. */
  lemma CrashBlends(u: State, crash: Action) returns (x: nat, z: nat)
    requires Enabled(u, crash) && (crash.Kill? || crash.PowerLoss?)
    ensures var t := Apply(u, crash);
      Blend(t.codes.cur, u.codes.cur, u.codes.synced, x) && Blend(t.ids.cur, u.ids.cur, u.ids.synced, z)
    ensures var t := Apply(u, crash); t.w == u.w && t.phase.Down?
  {
    if crash.Kill? {
      return |u.codes.cur|, |u.ids.cur|;
    }
    SurvivesBlend(u.codes, crash.codesTo, crash.codesOld, crash.codesLeft);
    SurvivesBlend(u.ids, crash.idsTo, crash.idsOld, crash.idsLeft);
    return crash.codesTo, crash.idsTo;
  }

  /** Between the bytes of two points that differ in at most one place there is nothing else. */
  lemma OnlyTwo<B>(p: seq<B>, q: seq<B>, y: nat)
    requires |p| == |q| && y <= |p| && !DifferTwice(p, q)
    ensures q[..y] + p[y..] == p || q[..y] + p[y..] == q
  {
    var mix := q[..y] + p[y..];
    if j :| 0 <= j < |p| && mix[j] != p[j] {
      forall k | 0 <= k < |p|
        ensures mix[k] == q[k]
      {
        assert k >= y ==> j < k;
      }
    }
  }

  lemma NoMixture(p: Point, q: Point, y: nat, z: nat)
    requires |p.code| == |q.code| && y <= |p.code| && z <= ID_SIZE && (z > 0 ==> y == |p.code|)
    requires !CanMix(p, q)
    ensures var code := q.code[..y] + p.code[y..];
      var id := ToLE(q.id, ID_SIZE)[..z] + ToLE(p.id, ID_SIZE)[z..];
      (code == p.code && id == ToLE(p.id, ID_SIZE)) || (code == q.code && id == ToLE(q.id, ID_SIZE))
  {
    hide ToLE, DifferTwice;
    OnlyTwo(p.code, q.code, y);
    OnlyTwo(ToLE(p.id, ID_SIZE), ToLE(q.id, ID_SIZE), z);
    assert ToLE(q.id, ID_SIZE)[..0] + ToLE(p.id, ID_SIZE)[0..] == ToLE(p.id, ID_SIZE);
    assert q.code[..|q.code|] + p.code[|q.code|..] == q.code;
  }

  /** Before the append: a whole slot holds the point last offered, on both sides of the last sync. */
  ghost predicate HeldOk(s: State, i: nat) {
    && i < |s.all| && |s.all[i].code| == s.w
    && HasAt(s.codes.cur, s.w * i, s.all[i].code) && HasAt(s.ids.cur, ID_SIZE * i, ToLE(s.all[i].id, ID_SIZE))
    && Alike(s.codes.synced, s.codes.cur, s.w * i + s.w)
    && (i < Durable(s) ==> Alike(s.ids.synced, s.ids.cur, ID_SIZE * i + ID_SIZE))
  }

  lemma HeldHas(s: State, i: nat)
    requires Inv(s) && i < Held(s)
    ensures HeldOk(s, i)
  {
    hide CodeBytesOf, IdBytesOf, Progress, AckedOk, ToLE, FileOk, HasAt, Alike, BatchPlaced;
    SlotBounds(s.w, i, Held(s));
    SlotOfBytes(s.all, s.w, i);
    FewerSolid(s);
    assert |s.all[i].code| == s.w;
    hide PointsOk;
    HasAtWithin(s.codes.cur, CodeBytesOf(s.all), s.w * Held(s), s.w * i, s.all[i].code);
    HasAtWithin(s.ids.cur, IdBytesOf(s.all), ID_SIZE * Held(s), ID_SIZE * i, ToLE(s.all[i].id, ID_SIZE));
    KeptAlike(s.codes);
    KeptAlike(s.ids);
    AlikeShorter(s.codes.synced, s.codes.cur, s.codes.kept, s.w * i + s.w);
    if i < Durable(s) {
      AlikeShorter(s.ids.synced, s.ids.cur, s.ids.kept, ID_SIZE * i + ID_SIZE);
    }
  }

  lemma KeptAlike<B>(f: File<B>)
    requires FileOk(f)
    ensures Alike(f.synced, f.cur, f.kept)
  {
  }

  lemma AlikeAt<B>(a: seq<B>, b: seq<B>, n: nat)
    requires Alike(a, b, n)
    ensures forall j :: 0 <= j < n ==> a[j] == b[j]
  {
    forall j | 0 <= j < n
      ensures a[j] == b[j]
    {
      assert a[..n][j] == b[..n][j];
    }
  }

  /** The batch's own slots in its bytes, at the places the files have for them. */
  lemma BatchHas(s: State, batch: seq<Point>, i: nat)
    requires PointsOk(batch, s.w) && s.count <= i < s.count + |batch|
    ensures s.w * s.count <= s.w * i && |batch[i - s.count].code| == s.w
    ensures HasAt(CodeBytesOf(batch), s.w * i - s.w * s.count, batch[i - s.count].code)
    ensures HasAt(IdBytesOf(batch), ID_SIZE * i - ID_SIZE * s.count, ToLE(batch[i - s.count].id, ID_SIZE))
    ensures s.w * i + s.w <= s.w * s.count + |CodeBytesOf(batch)|
    ensures ID_SIZE * i + ID_SIZE <= ID_SIZE * s.count + |IdBytesOf(batch)|
  {
    var k := i - s.count;
    SlotOfBytes(batch, s.w, k);
    assert s.w * i == s.w * s.count + s.w * k;
  }

  /** The bytes of a slot outside the batch lie outside what the batch writes. */
  lemma OutsideBatch(s: State, batch: seq<Point>, i: nat)
    requires PointsOk(batch, s.w) && !(s.count <= i < s.count + |batch|)
    ensures s.w * i + s.w <= s.w * s.count || s.w * s.count + |CodeBytesOf(batch)| <= s.w * i
    ensures ID_SIZE * i + ID_SIZE <= ID_SIZE * s.count || ID_SIZE * s.count + |IdBytesOf(batch)| <= ID_SIZE * i
  {
    PrefixBytes(batch, s.w, |batch|);
    hide CodeBytesOf, IdBytesOf;
    if i < s.count {
      SlotBounds(s.w, i, s.count);
    } else {
      MulMono(s.w, s.count + |batch|, i);
      assert s.w * (s.count + |batch|) == s.w * s.count + s.w * |batch|;
    }
  }

  /** Reading a synced file as far as it goes. */
  lemma Settled<B>(left: seq<B>, cur: seq<B>, synced: seq<B>, x: nat, writing: bool)
    requires Blend(left, cur, synced, x) && (writing || synced == cur)
    ensures Blend(left, cur, synced, if writing then x else |cur|)
    ensures !writing ==> |left| <= |cur|
  {
  }

  /** The code of slot i: the first y bytes of the batch's point, then those of the point that was there. */
  ghost predicate CodeMixed(s: State, batch: seq<Point>, codes: seq<bv8>, i: nat, y: nat) {
    && s.count <= i < s.count + |batch| && i < |s.all|
    && y <= s.w && |s.all[i].code| == |batch[i - s.count].code| == s.w
    && HasAt(codes, s.w * i, batch[i - s.count].code[..y] + s.all[i].code[y..])
  }

  ghost predicate IdMixed(s: State, batch: seq<Point>, ids: seq<Byte>, i: nat, z: nat) {
    && s.count <= i < s.count + |batch| && i < |s.all| && z <= ID_SIZE
    && HasAt(ids, ID_SIZE * i, ToLE(batch[i - s.count].id, ID_SIZE)[..z] + ToLE(s.all[i].id, ID_SIZE)[z..])
  }

  /** The code of a slot that the batch goes over, found after a crash. */
  lemma CodeInBatch(s: State, batch: seq<Point>, u: State, left: seq<bv8>, x0: nat, i: nat) returns (y: nat)
    requires Blend(left, u.codes.cur, u.codes.synced, x0) && s.w * i + s.w <= |left|
    requires Onto(s, batch, u) && PointsOk(batch, s.w)
    requires HeldOk(s, i) && s.count <= i < s.count + |batch|
    ensures CodeMixed(s, batch, left, i, y) && (u.phase.WritingCodes? || y == s.w)
  {
    hide CodeBytesOf, IdBytesOf, Overwritten, HasAt, Alike, PointsOk, Blend;
    BatchHas(s, batch, i);
    y := SlotPartlyOver(left, u.codes.cur, u.codes.synced, x0, u.phase.WritingCodes?, s.codes.cur, s.codes.synced,
                        s.w * s.count, CodeBuf(u), CodesOut(u), s.w * i, s.all[i].code, batch[i - s.count].code);
  }

  lemma SlotPartlyOver<B>(left: seq<B>, cur: seq<B>, synced: seq<B>, x0: nat, writing: bool, c: seq<B>, was: seq<B>,
                          at: nat, buf: seq<B>, k: nat, lo: nat, p: seq<B>, q: seq<B>) returns (y: nat)
    requires at <= |c| && k <= |buf| && cur == Overwritten(c, at, buf[..k]) && synced == (if writing then was else cur)
    requires Blend(left, cur, synced, x0) && lo + |p| <= |left| && HasAt(c, lo, p) && Alike(was, c, lo + |p|)
    requires at <= lo && |p| == |q| && HasAt(buf, lo - at, q)
    ensures y <= |p| && HasAt(left, lo, q[..y] + p[y..])
    ensures !writing && k == |buf| ==> y == |p|
  {
    hide Overwritten, HasAt, Blend;
    Settled(left, cur, synced, x0, writing);
    AlikeAt(was, c, lo + |p|);
    y := BlendedSlot(left, c, at, buf, k, synced, if writing then x0 else |cur|, lo, p, q);
  }

  lemma CodeBehind(s: State, batch: seq<Point>, u: State, left: seq<bv8>, x0: nat, i: nat)
    requires Blend(left, u.codes.cur, u.codes.synced, x0) && s.w * i + s.w <= |left|
    requires Onto(s, batch, u) && PointsOk(batch, s.w)
    requires s.count <= i < s.count + |batch| && !u.phase.WritingCodes?
    ensures HasCode(left, s.w, i, batch[i - s.count])
  {
    hide CodeBytesOf, IdBytesOf, Overwritten, Inv, HasAt, Alike, PointsOk, Blend, ToLE;
    var q, at, lo, buf, k := batch[i - s.count].code, s.w * s.count, s.w * i, CodeBuf(u), CodesOut(u);
    Settled(left, u.codes.cur, u.codes.synced, x0, false);
    BatchHas(s, batch, i);
    assert k == |buf|;
    assert u.codes.cur == Overwritten(s.codes.cur, at, buf[..k]);
    assert at <= lo && lo + |q| <= at + k && HasAt(buf, lo - at, q);
    NewSlot(left, s.codes.cur, at, buf, k, u.codes.synced, |u.codes.cur|, lo, q);
  }

  lemma CodeOutside(s: State, batch: seq<Point>, u: State, left: seq<bv8>, x0: nat, i: nat)
    requires Blend(left, u.codes.cur, u.codes.synced, x0) && s.w * i + s.w <= |left|
    requires Onto(s, batch, u) && PointsOk(batch, s.w)
    requires HeldOk(s, i) && !(s.count <= i < s.count + |batch|)
    ensures HasCode(left, s.w, i, s.all[i])
  {
    hide CodeBytesOf, IdBytesOf, Overwritten, HasAt, Alike, PointsOk, Blend, ToLE;
    OutsideBatch(s, batch, i);
    SlotLeftAlone(left, u.codes.cur, u.codes.synced, x0, u.phase.WritingCodes?, s.codes.cur, s.codes.synced,
                  s.w * s.count, CodeBuf(u), CodesOut(u), s.w * i, s.all[i].code);
  }

  /** A slot outside what is written, in a file whose sync before was `was`. */
  lemma SlotLeftAlone<B>(left: seq<B>, cur: seq<B>, synced: seq<B>, x0: nat, writing: bool, c: seq<B>, was: seq<B>,
                         at: nat, buf: seq<B>, k: nat, lo: nat, p: seq<B>)
    requires at <= |c| && k <= |buf| && cur == Overwritten(c, at, buf[..k]) && synced == (if writing then was else cur)
    requires Blend(left, cur, synced, x0) && lo + |p| <= |left| && HasAt(c, lo, p) && Alike(was, c, lo + |p|)
    requires lo + |p| <= at || at + |buf| <= lo
    ensures HasAt(left, lo, p)
  {
    hide Overwritten, HasAt, Blend;
    Settled(left, cur, synced, x0, writing);
    AlikeAt(was, c, lo + |p|);
    OtherSlot(left, c, at, buf, k, synced, if writing then x0 else |cur|, lo, p);
  }

  /** Its id, likewise. */
  lemma IdInBatch(s: State, batch: seq<Point>, u: State, left: seq<Byte>, x0: nat, i: nat) returns (z: nat)
    requires Blend(left, u.ids.cur, u.ids.synced, x0) && ID_SIZE * i + ID_SIZE <= |left|
    requires Onto(s, batch, u) && PointsOk(batch, s.w)
    requires HeldOk(s, i) && s.count <= i < s.count + |batch|
    ensures IdMixed(s, batch, left, i, z) && (z > 0 ==> !u.phase.WritingCodes?)
  {
    hide CodeBytesOf, IdBytesOf, Overwritten, HasAt, Alike, PointsOk, ToLE;
    var x := if u.phase.IdsSynced? then |u.ids.cur| else x0;
    Settled(left, u.ids.cur, u.ids.synced, x0, !u.phase.IdsSynced?);
    if x < |left| {
      AlikeAt(s.ids.synced, s.ids.cur, ID_SIZE * i + ID_SIZE);
    }
    BatchHas(s, batch, i);
    hide Blend;
    z := BlendedSlot(left, s.ids.cur, ID_SIZE * s.count, IdBuf(u), IdsOut(u), u.ids.synced, x, ID_SIZE * i,
                     ToLE(s.all[i].id, ID_SIZE), ToLE(batch[i - s.count].id, ID_SIZE));
  }

  lemma IdOutside(s: State, batch: seq<Point>, u: State, left: seq<Byte>, x0: nat, i: nat)
    requires Blend(left, u.ids.cur, u.ids.synced, x0) && ID_SIZE * i + ID_SIZE <= |left|
    requires Onto(s, batch, u) && PointsOk(batch, s.w)
    requires HeldOk(s, i) && !(s.count <= i < s.count + |batch|)
    ensures HasAt(left, ID_SIZE * i, ToLE(s.all[i].id, ID_SIZE))
  {
    hide CodeBytesOf, IdBytesOf, Overwritten, HasAt, Alike, PointsOk, ToLE;
    var x := if u.phase.IdsSynced? then |u.ids.cur| else x0;
    Settled(left, u.ids.cur, u.ids.synced, x0, !u.phase.IdsSynced?);
    if x < |left| {
      AlikeAt(s.ids.synced, s.ids.cur, ID_SIZE * i + ID_SIZE);
    }
    OutsideBatch(s, batch, i);
    hide Blend;
    OtherSlot(left, s.ids.cur, ID_SIZE * s.count, IdBuf(u), IdsOut(u), u.ids.synced, x, ID_SIZE * i,
              ToLE(s.all[i].id, ID_SIZE));
  }

  /** A slot that was not there before is the batch's. */
  lemma IdBehind(s: State, batch: seq<Point>, u: State, left: seq<Byte>, x0: nat, i: nat)
    requires Blend(left, u.ids.cur, u.ids.synced, x0) && ID_SIZE * i + ID_SIZE <= |left|
    requires Onto(s, batch, u) && PointsOk(batch, s.w)
    requires Durable(s) <= Held(s) && s.count <= Held(s) <= i
    ensures s.count <= i < s.count + |batch| && !u.phase.WritingCodes?
    ensures HasAt(left, ID_SIZE * i, ToLE(batch[i - s.count].id, ID_SIZE))
  {
    hide CodeBytesOf, IdBytesOf, Overwritten, HasAt, PointsOk, ToLE;
    var x := if u.phase.IdsSynced? then |u.ids.cur| else x0;
    Settled(left, u.ids.cur, u.ids.synced, x0, !u.phase.IdsSynced?);
    OverwrittenAt(s.ids.cur, ID_SIZE * s.count, IdBuf(u)[..IdsOut(u)], 0);
    assert |left| <= x;
    if i >= s.count + |batch| {
      OutsideBatch(s, batch, i);
    } else {
      BatchHas(s, batch, i);
      hide Blend;
      NewSlot(left, s.ids.cur, ID_SIZE * s.count, IdBuf(u), IdsOut(u), u.ids.synced, x, ID_SIZE * i,
              ToLE(batch[i - s.count].id, ID_SIZE));
    }
  }

  lemma SyncedIdsShort(s: State)
    requires Inv(s)
    ensures Durable(s) <= Held(s) && (s.phase.Ready? ==> s.count <= Held(s))
  {
    hide CodeBytesOf, IdBytesOf, AckedOk, Progress, PointsOk;
  }

  lemma OpenSlotFits(t: State, i: nat)
    requires t.w > 0 && i < OpenCount(t)
    ensures t.w * i + t.w <= |t.codes.cur| && ID_SIZE * i + ID_SIZE <= |t.ids.cur|
  {
    SlotCountFits(t.codes.cur, t.ids.cur, t.w);
    SlotBounds(t.w, i, OpenCount(t));
  }

  lemma OntoKeepsWidth(s: State, batch: seq<Point>, u: State)
    requires Onto(s, batch, u)
    ensures u.w == s.w
  {
    hide Overwritten;
  }

  lemma MixedIsOne(s: State, batch: seq<Point>, t: State, i: nat, y: nat, z: nat)
    requires CodeMixed(s, batch, t.codes.cur, i, y) && IdMixed(s, batch, t.ids.cur, i, z) && t.w == s.w
    requires (z > 0 ==> y == s.w) && !CanMix(s.all[i], batch[i - s.count])
    ensures Carries(t, i, s.all[i]) || Carries(t, i, batch[i - s.count])
  {
    hide CanMix, ToLE, HasAt;
    NoMixture(s.all[i], batch[i - s.count], y, z);
  }

  /** Without a clash no crash mixes points. */
  lemma NoClashNoMix(s: State, batch: seq<Point>, u: State, crash: Action, i: nat)
    requires Inv(s) && s.phase.Ready? && PointsOk(batch, s.w) && Onto(s, batch, u) && !Clashes(s, batch, i)
    requires Enabled(u, crash) && (crash.Kill? || crash.PowerLoss?)
    ensures !Foreign(s, batch, Apply(u, crash), i)
  {
    hide CodeBytesOf, IdBytesOf, Inv, Onto, Blend, ToLE, CanMix, HasAt, Alike, PointsOk, Apply, Enabled, CodeMixed,
      IdMixed, HeldOk;
    var t := Apply(u, crash);
    var x, x1 := CrashBlends(u, crash);
    if t.w > 0 && i < OpenCount(t) {
      OpenSlotFits(t, i);
      OntoKeepsWidth(s, batch, u);
      SyncedIdsShort(s);
      hide SlotCount;
      var inBatch := s.count <= i < s.count + |batch|;
      if i >= Held(s) {
        IdBehind(s, batch, u, t.ids.cur, x1, i);
        CodeBehind(s, batch, u, t.codes.cur, x, i);
      } else {
        HeldHas(s, i);
        assert i < |s.all| by {
          HeldInAll(s, i);
        }
        if inBatch {
          var y := CodeInBatch(s, batch, u, t.codes.cur, x, i);
          var z := IdInBatch(s, batch, u, t.ids.cur, x1, i);
          MixedIsOne(s, batch, t, i, y, z);
        } else {
          CodeOutside(s, batch, u, t.codes.cur, x, i);
          IdOutside(s, batch, u, t.ids.cur, x1, i);
        }
      }
    }
  }

  lemma HeldInAll(s: State, i: nat)
    requires HeldOk(s, i)
    ensures i < |s.all|
  {
  }

  // ----- a crash at the right moment

  lemma NoBlend<B>(cur: seq<B>)
    ensures Blend(cur, cur, cur, |cur|)
  {
  }

  /** The codes are written up to y bytes into slot i, or to the end. */
  ghost predicate CodesStop(s: State, u: State, i: nat, y: nat) {
    y <= s.w && (CodesOut(u) == s.w * i - s.w * s.count + y || (y == s.w && CodesOut(u) == |CodeBuf(u)|))
  }

  ghost predicate IdsStop(s: State, u: State, i: nat, z: nat) {
    z <= ID_SIZE && (IdsOut(u) == ID_SIZE * i - ID_SIZE * s.count + z || (z == 0 && IdsOut(u) == 0))
  }

  /** After y bytes of the slot's code were written over. */
  lemma CodeWrittenOver(s: State, batch: seq<Point>, u: State, i: nat, y: nat)
    requires CodesStop(s, u, i, y) && Onto(s, batch, u) && PointsOk(batch, s.w)
    requires HeldOk(s, i) && s.count <= i < s.count + |batch|
    ensures CodeMixed(s, batch, u.codes.cur, i, y)
  {
    hide CodeBytesOf, IdBytesOf, Overwritten, Alike, PointsOk, ToLE, HasAt;
    BatchHas(s, batch, i);
    SlotWrittenOver(u.codes.cur, s.codes.cur, s.w * s.count, CodeBuf(u), CodesOut(u), s.w * i,
                    s.all[i].code, batch[i - s.count].code, y);
  }

  /** A slot of c after k bytes of the buffer were written over it, y of them into the slot. */
  lemma SlotWrittenOver<B>(cur: seq<B>, c: seq<B>, at: nat, buf: seq<B>, k: nat, lo: nat, p: seq<B>, q: seq<B>, y: nat)
    requires at <= lo && at <= |c| && k <= |buf| && cur == Overwritten(c, at, buf[..k])
    requires |p| == |q| && HasAt(c, lo, p) && HasAt(buf, lo - at, q) && y <= |p|
    requires k == lo - at + y || (y == |p| && k == |buf|) || (y == 0 && k == 0)
    ensures HasAt(cur, lo, q[..y] + p[y..])
  {
    OverwrittenLooks(c, at, buf[..k]);
    assert lo + |p| <= |c| <= |cur|;
    hide HasAt, Overwritten;
    NoBlend(cur);
    var yy := BlendedSlot(cur, c, at, buf, k, cur, |cur|, lo, p, q);
  }

  /** After z bytes of its id were. */
  lemma IdWrittenOver(s: State, batch: seq<Point>, u: State, i: nat, z: nat)
    requires IdsStop(s, u, i, z) && Onto(s, batch, u) && PointsOk(batch, s.w)
    requires HeldOk(s, i) && s.count <= i < s.count + |batch|
    ensures IdMixed(s, batch, u.ids.cur, i, z)
  {
    hide CodeBytesOf, IdBytesOf, Overwritten, Alike, PointsOk, ToLE, HasAt;
    BatchHas(s, batch, i);
    SlotWrittenOver(u.ids.cur, s.ids.cur, ID_SIZE * s.count, IdBuf(u), IdsOut(u), ID_SIZE * i,
                    ToLE(s.all[i].id, ID_SIZE), ToLE(batch[i - s.count].id, ID_SIZE), z);
  }

  lemma SameId(a: nat, b: nat)
    requires a < ID_LIMIT && b < ID_LIMIT && ToLE(a, ID_SIZE) == ToLE(b, ID_SIZE)
    ensures a == b
  {
    IdRoundTrip(a);
    IdRoundTrip(b);
  }

  lemma OnePiece<B>(bytes: seq<B>, at: nat, a: seq<B>, b: seq<B>)
    requires HasAt(bytes, at, a) && HasAt(bytes, at, b) && |a| == |b|
    ensures a == b
  {
  }

  /** Bytes of q up to a difference and of p from the next one are neither's. */
  lemma Neither<B>(p: seq<B>, q: seq<B>, j: nat, k: nat)
    requires j < k < |p| && |p| == |q| && p[j] != q[j] && p[k] != q[k]
    ensures var mix := q[..j + 1] + p[j + 1..]; mix != p && mix != q
  {
    var mix := q[..j + 1] + p[j + 1..];
    assert mix[j] == q[j] && mix[k] == p[k];
  }

  /** y bytes of q's code and z of its id, over those of p, make up neither of the two. */
  ghost predicate IsNeither(p: Point, q: Point, y: nat, z: nat) {
    && y <= |p.code| == |q.code| && z <= ID_SIZE
    && var code := q.code[..y] + p.code[y..];
       var id := ToLE(q.id, ID_SIZE)[..z] + ToLE(p.id, ID_SIZE)[z..];
       !(code == p.code && id == ToLE(p.id, ID_SIZE)) && !(code == q.code && id == ToLE(q.id, ID_SIZE))
  }

  /** Where to stop in a slot so that it holds neither point. */
  lemma StopBetween(p: Point, q: Point) returns (y: nat, z: nat)
    requires CanMix(p, q) && |p.code| == |q.code| && p.id < ID_LIMIT && q.id < ID_LIMIT
    ensures IsNeither(p, q, y, z) && (z > 0 ==> y == |p.code|)
  {
    hide ToLE;
    var a, b := ToLE(p.id, ID_SIZE), ToLE(q.id, ID_SIZE);
    if DifferTwice(p.code, q.code) {
      var j, k :| 0 <= j < k < |p.code| && k < |q.code| && p.code[j] != q.code[j] && p.code[k] != q.code[k];
      Neither(p.code, q.code, j, k);
      y, z := j + 1, 0;
    } else if DifferTwice(a, b) {
      var j, k :| 0 <= j < k < |a| && k < |b| && a[j] != b[j] && a[k] != b[k];
      Neither(a, b, j, k);
      y, z := |p.code|, j + 1;
    } else {
      y, z := |p.code|, 0;
      assert q.code[..y] + p.code[y..] == q.code && b[..0] + a[0..] == a;
      if a == b {
        SameId(p.id, q.id);
      }
    }
  }

  /** Writing n bytes of the codes. */
  lemma CodesPartly(s: State, batch: seq<Point>, n: nat) returns (run: seq<Action>)
    requires Base(s) && Enabled(s, BeginAppend(batch)) && n <= |CodeBytesOf(batch)|
    ensures AllWrites(run) && Legal(Apply(s, BeginAppend(batch)), run)
    ensures var u := Exec(Apply(s, BeginAppend(batch)), run);
      Onto(s, batch, u) && CodesOut(u) == n && IdsOut(u) == 0
  {
    hide CodeBytesOf, IdBytesOf, Base, PointsOk, ToLE, Overwritten, WriteAt, Offer;
    var b := Apply(s, BeginAppend(batch));
    BeginIsOnto(s, batch);
    run := [WriteCodes(n)];
    assert run[1..] == [];
    RunStaysOnto(s, batch, b, run);
  }

  /** Writing all codes and n bytes of the ids. */
  lemma IdsPartly(s: State, batch: seq<Point>, n: nat) returns (run: seq<Action>)
    requires Base(s) && Enabled(s, BeginAppend(batch)) && n <= |IdBytesOf(batch)|
    ensures AllWrites(run) && Legal(Apply(s, BeginAppend(batch)), run)
    ensures var u := Exec(Apply(s, BeginAppend(batch)), run);
      Onto(s, batch, u) && CodesOut(u) == |CodeBuf(u)| && IdsOut(u) == n
  {
    hide CodeBytesOf, IdBytesOf, Base, PointsOk, ToLE, Overwritten, WriteAt, Offer;
    var b := Apply(s, BeginAppend(batch));
    BeginIsOnto(s, batch);
    var all := |CodeBuf(b)|;
    WriteCodesStaysOnto(s, batch, b, all);
    var b1 := Apply(b, WriteCodes(all));
    SyncStaysOnto(s, batch, b1, SyncCodes);
    var b2 := Apply(b1, SyncCodes);
    WrittenReach(s, batch, b2);
    hide Onto;
    WriteIdsStaysOnto(s, batch, b2, n);
    run := [WriteIds(n)];
    assert run[1..] == [];
    Prepend(b1, SyncCodes, run);
    run := Then(SyncCodes, run);
    Prepend(b, WriteCodes(all), run);
    run := Then(WriteCodes(all), run);
  }

  lemma WrittenReach(s: State, batch: seq<Point>, u: State)
    requires Onto(s, batch, u)
    ensures ID_SIZE * s.count <= |u.ids.cur|
  {
    OverwrittenAt(s.ids.cur, ID_SIZE * s.count, IdBuf(u)[..IdsOut(u)], 0);
  }

  /** The writes up to there. */
  lemma WritesTo(s: State, batch: seq<Point>, i: nat, y: nat, z: nat) returns (run: seq<Action>)
    requires Base(s) && Enabled(s, BeginAppend(batch)) && y <= s.w && z <= ID_SIZE && (z > 0 ==> y == s.w)
    requires s.count <= i < s.count + |batch|
    ensures AllWrites(run) && Legal(Apply(s, BeginAppend(batch)), run)
    ensures var u := Exec(Apply(s, BeginAppend(batch)), run);
      Onto(s, batch, u) && CodesStop(s, u, i, y) && IdsStop(s, u, i, z)
  {
    hide CodeBytesOf, IdBytesOf, Base, ToLE, HasAt, Onto, CodesOut, IdsOut, Legal, Exec, AllWrites;
    BatchHas(s, batch, i);
    if z == 0 {
      run := CodesPartly(s, batch, s.w * i - s.w * s.count + y);
    } else {
      run := IdsPartly(s, batch, ID_SIZE * i - ID_SIZE * s.count + z);
    }
  }

  lemma InvHasBase(s: State)
    requires Inv(s)
    ensures Base(s)
  {
  }

  lemma ClashCanMix(s: State, batch: seq<Point>, i: nat) returns (run: seq<Action>)
    requires Inv(s) && Enabled(s, BeginAppend(batch)) && Clashes(s, batch, i)
    ensures CrashMixes(s, batch, run, Kill, i)
  {
    var p, q := s.all[i], batch[i - s.count];
    HeldHas(s, i);
    BatchHas(s, batch, i);
    assert p.id < ID_LIMIT && q.id < ID_LIMIT;
    InvHasBase(s);
    hide CodeBytesOf, IdBytesOf, Inv, Base, Whole, PointsOk, ToLE, HasAt, Onto, Overwritten, WriteAt, CanMix;
    var y, z := StopBetween(p, q);
    run := WritesTo(s, batch, i, y, z);
    var u := Exec(Apply(s, BeginAppend(batch)), run);
    CodeWrittenOver(s, batch, u, i, y);
    IdWrittenOver(s, batch, u, i, z);
    KilledIsForeign(s, batch, u, i, y, z);
  }

  lemma NotCarried(t: State, i: nat, code: seq<bv8>, id: seq<Byte>, r: Point)
    requires HasAt(t.codes.cur, t.w * i, code) && HasAt(t.ids.cur, ID_SIZE * i, id)
    requires |code| == |r.code| && |id| == ID_SIZE && !(code == r.code && id == ToLE(r.id, ID_SIZE))
    ensures !Carries(t, i, r)
  {
    hide ToLE, HasAt;
    if Carries(t, i, r) {
      OnePiece(t.codes.cur, t.w * i, r.code, code);
      OnePiece(t.ids.cur, ID_SIZE * i, ToLE(r.id, ID_SIZE), id);
    }
  }

  lemma SlotIsFound(t: State, i: nat, code: seq<bv8>, id: seq<Byte>)
    requires HasAt(t.codes.cur, t.w * i, code) && HasAt(t.ids.cur, ID_SIZE * i, id)
    requires t.w > 0 && |code| == t.w && |id| == ID_SIZE
    ensures i < OpenCount(t)
  {
    OpenCountCovers(t, i);
  }

  lemma KilledIsForeign(s: State, batch: seq<Point>, u: State, i: nat, y: nat, z: nat)
    requires u.w == s.w > 0 && i < Held(s) && s.count <= i < s.count + |batch|
    requires CodeMixed(s, batch, u.codes.cur, i, y) && IdMixed(s, batch, u.ids.cur, i, z)
    requires IsNeither(s.all[i], batch[i - s.count], y, z)
    ensures Enabled(u, Kill) && Foreign(s, batch, Apply(u, Kill), i)
  {
    hide ToLE, HasAt, Carries, SlotCount;
    var p, q := s.all[i], batch[i - s.count];
    var code, id := q.code[..y] + p.code[y..], ToLE(q.id, ID_SIZE)[..z] + ToLE(p.id, ID_SIZE)[z..];
    var t := Apply(u, Kill);
    SlotIsFound(t, i, code, id);
    NotCarried(t, i, code, id, p);
    NotCarried(t, i, code, id, q);
  }

  /** During an append some crash leaves a slot with neither the point that was there nor the batch's, if and only
      if a failed append left whole slots behind the count and the batch puts a point there that differs from the
      one left in two bytes, or in both code and id. */
  lemma RetryMixesIff(s: State, batch: seq<Point>)
    requires Inv(s) && Enabled(s, BeginAppend(batch))
    ensures (exists run, crash, i :: CrashMixes(s, batch, run, crash, i)) <==> exists i :: Clashes(s, batch, i)
  {
    if i :| Clashes(s, batch, i) {
      var run := ClashCanMix(s, batch, i);
    }
    forall run, crash, i | CrashMixes(s, batch, run, crash, i)
      ensures Clashes(s, batch, i)
    {
      BeginIsOnto(s, batch);
      RunStaysOnto(s, batch, Apply(s, BeginAppend(batch)), run);
      hide Inv, Clashes, Foreign, Onto, CodeBytesOf, IdBytesOf;
      if !Clashes(s, batch, i) {
        NoClashNoMix(s, batch, Exec(Apply(s, BeginAppend(batch)), run), crash, i);
      }
    }
  }

  // ----- a run in which it happens

  const FIRST: Point := Point([0xAA], 7)
  const SECOND: Point := Point([0x55], 9)

  // The first point fails at the sync of its id; the second gets as far as its code.
  ghost const FAILED: State :=
    State(1, File([0xAA], [0xAA], 1), File([], ToLE(7, ID_SIZE), 0), 0, [FIRST], Ready, [FIRST], map[])
  ghost const RETRIED: State :=
    State(1, File([0x55], [0x55], 1), File([], ToLE(7, ID_SIZE), 0), 0, [SECOND], CodesSynced, [SECOND], map[])

  lemma OnePointBytes(p: Point)
    requires PointsOk([p], |p.code|)
    ensures CodeBytesOf([p]) == p.code && IdBytesOf([p]) == ToLE(p.id, ID_SIZE)
  {
    SlotOfBytes([p], |p.code|, 0);
    PrefixBytes([p], |p.code|, 1);
  }

  lemma FirstFails(rest: seq<Action>) returns (run: seq<Action>)
    requires Legal(FAILED, rest)
    ensures Legal(Fresh(1), run) && Exec(Fresh(1), run) == Exec(FAILED, rest)
  {
    OnePointBytes(FIRST);
    hide CodeBytesOf, IdBytesOf, Legal, Exec, ToLE;
    var s0 := Fresh(1);
    var s1 := Apply(s0, BeginAppend([FIRST]));
    assert s1.all == [FIRST];
    var code, id := FIRST.code, ToLE(7, ID_SIZE);
    assert CodeBuf(s1)[..1] == code && IdBuf(s1)[..8] == id;
    var s2 := Apply(s1, WriteCodes(1));
    assert s2.codes == File([], [0xAA], 0);
    var s3 := Apply(s2, SyncCodes);
    var s4 := Apply(s3, WriteIds(8));
    assert s4.ids == File([], id, 0);
    assert Apply(s4, Fail) == FAILED;
    hide *;
    Prepend(s4, Fail, rest);
    run := Then(Fail, rest);
    Prepend(s3, WriteIds(8), run);
    run := Then(WriteIds(8), run);
    Prepend(s2, SyncCodes, run);
    run := Then(SyncCodes, run);
    Prepend(s1, WriteCodes(1), run);
    run := Then(WriteCodes(1), run);
    Prepend(s0, BeginAppend([FIRST]), run);
    run := Then(BeginAppend([FIRST]), run);
  }

  lemma SecondStarts(rest: seq<Action>) returns (run: seq<Action>)
    requires Legal(RETRIED, rest)
    ensures Legal(FAILED, run) && Exec(FAILED, run) == Exec(RETRIED, rest)
  {
    OnePointBytes(SECOND);
    hide CodeBytesOf, IdBytesOf, Legal, Exec, ToLE;
    var s1 := Apply(FAILED, BeginAppend([SECOND]));
    assert s1.all == [SECOND];
    assert CodeBuf(s1)[..1] == SECOND.code;
    var s2 := Apply(s1, WriteCodes(1));
    assert s2.codes == File([0xAA], [0x55], 0);
    assert Apply(s2, SyncCodes) == RETRIED;
    hide *;
    Prepend(s2, SyncCodes, rest);
    run := Then(SyncCodes, rest);
    Prepend(s1, WriteCodes(1), run);
    run := Then(WriteCodes(1), run);
    Prepend(FAILED, BeginAppend([SECOND]), run);
    run := Then(BeginAppend([SECOND]), run);
  }

  /** One append fails at its last sync, the next one is killed behind its codes: opening finds one slot, with the
      code of the second point under the id of the first. */
  lemma RetryMixesPoints() returns (run: seq<Action>)
    ensures Legal(Fresh(1), run)
    ensures var t := Exec(Fresh(1), run);
      && t.phase.Ready? && t.count == 1 && |t.codes.cur| == 1 && |t.ids.cur| == ID_SIZE
      && ReadSlots(t.codes.cur, t.ids.cur, 1, 1) == [Point(SECOND.code, FIRST.id)]
  {
    var down := Apply(RETRIED, Kill);
    var t := Apply(down, Reopen);
    assert t.codes.cur == [0x55] && t.ids.cur == ToLE(7, ID_SIZE);
    IdRoundTrip(7);
    assert Slot(t.codes.cur, 1, 1, 0) == [0x55] && Slot(t.ids.cur, ID_SIZE, 1, 0) == ToLE(7, ID_SIZE);
    assert ReadSlots(t.codes.cur, t.ids.cur, 1, 1) == [Point(SECOND.code, FIRST.id)];
    assert Legal(t, []) && Exec(t, []) == t;
    hide Legal, Exec;
    Prepend(down, Reopen, []);
    run := Then(Reopen, []);
    Prepend(RETRIED, Kill, run);
    run := Then(Kill, run);
    run := SecondStarts(run);
    run := FirstFails(run);
  }
}
