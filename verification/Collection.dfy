/**
 One open collection of the flat index: validating and encoding a batch, appending it to both files,
 and opening files of any length. A fault may strike any step of an append.
 */
module Collections {
  import opened Wrappers
  import opened FlatFiles
  import Codes

  type Int64 = x: int | -0x8000_0000_0000_0000 <= x < 0x8000_0000_0000_0000

  datatype VectorPoint = VectorPoint(imageId: Int64, vector: seq<real>)

  datatype Error = ModelMismatch(image: Int64) | NegativeId(image: Int64) | WriteFailed

  /** The step that fails and, for a write, how many bytes it got out before failing. The last two come after
      both syncs: mapping the grown file, and closing the old mapping, when the count is raised already. */
  datatype Fault = NoFault | CodesWrite(n: nat) | CodesSync | IdsWrite(n: nat) | IdsSync | Remap | CloseOld

  predicate Storable(p: VectorPoint, vectorSize: nat) {
    |p.vector| == vectorSize && p.imageId >= 0
  }

  function Refusal(p: VectorPoint, vectorSize: nat): Error {
    if |p.vector| != vectorSize then ModelMismatch(p.imageId) else NegativeId(p.imageId)
  }

  ghost predicate AllStorable(points: seq<VectorPoint>, vectorSize: nat) {
    forall i :: 0 <= i < |points| ==> Storable(points[i], vectorSize)
  }

  predicate FirstBad(points: seq<VectorPoint>, vectorSize: nat, i: int) {
    && 0 <= i < |points| && !Storable(points[i], vectorSize)
    && forall j :: 0 <= j < i ==> Storable(points[j], vectorSize)
  }

  /** The batch as slots. */
  function Encoded(points: seq<VectorPoint>, codeBytes: nat): (e: seq<Point>)
    requires forall i :: 0 <= i < |points| ==> points[i].imageId >= 0
    ensures |e| == |points|
  {
    seq(|points|, i requires 0 <= i < |points| =>
      Point(Codes.Encoded(points[i].vector, codeBytes), points[i].imageId))
  }

  lemma EncodedOk(points: seq<VectorPoint>, w: nat)
    requires forall i :: 0 <= i < |points| ==> points[i].imageId >= 0
    ensures PointsOk(Encoded(points, w), w)
  {
  }

  lemma OnePoint(points: seq<Point>, i: nat)
    requires i < |points|
    ensures CodeBytesOf(points[..i + 1]) == CodeBytesOf(points[..i]) + points[i].code
    ensures IdBytesOf(points[..i + 1]) == IdBytesOf(points[..i]) + ToLE(points[i].id, ID_SIZE)
  {
    var last := [points[i]];
    assert points[..i + 1] == points[..i] + last;
    JoinBytes(points[..i], last);
    assert CodesOf(last) == [] + [points[i].code] && IdsOf(last) == [] + [ToLE(points[i].id, ID_SIZE)];
    FlattenOne(points[i].code);
    FlattenOne(ToLE(points[i].id, ID_SIZE));
  }

  lemma FlattenOne<B>(block: seq<B>)
    ensures Flatten([block]) == block
  {
    assert [block][..0] == [];
    assert Flatten([block][..0]) == [];
  }

  lemma EncodeOneMore(points: seq<VectorPoint>, i: nat, w: nat)
    requires i < |points| && forall j :: 0 <= j <= i ==> points[j].imageId >= 0
    ensures CodeBytesOf(Encoded(points[..i + 1], w))
      == CodeBytesOf(Encoded(points[..i], w)) + Codes.Encoded(points[i].vector, w)
    ensures IdBytesOf(Encoded(points[..i + 1], w))
      == IdBytesOf(Encoded(points[..i], w)) + ToLE(points[i].imageId, ID_SIZE)
  {
    var all := Encoded(points[..i + 1], w);
    OnePoint(all, i);
    assert all[..i + 1] == all && all[..i] == Encoded(points[..i], w);
  }

  /** A batch is refused at its first unstorable point, or encoded whole. */
  method Buffers(points: seq<VectorPoint>, vectorSize: nat, codeBytes: nat)
      returns (r: Result<(seq<bv8>, seq<Byte>), Error>)
    requires vectorSize <= 8 * codeBytes
    ensures r.Success? <==> AllStorable(points, vectorSize)
    ensures r.Success? <==> forall i :: 0 <= i < |points| ==> |points[i].vector| == vectorSize && points[i].imageId >= 0
    ensures r.Failure? ==> exists i ::
      && 0 <= i < |points|
      && (forall j :: 0 <= j < i ==> |points[j].vector| == vectorSize && points[j].imageId >= 0)
      && (|points[i].vector| != vectorSize || points[i].imageId < 0)
      && r.error == (if |points[i].vector| != vectorSize then ModelMismatch(points[i].imageId)
                     else NegativeId(points[i].imageId))
    ensures r.Success? ==> r.value.0 == CodeBytesOf(Encoded(points, codeBytes))
    ensures r.Success? ==> r.value.1 == IdBytesOf(Encoded(points, codeBytes))
    ensures r.Failure? ==> exists i :: FirstBad(points, vectorSize, i) && r.error == Refusal(points[i], vectorSize)
  {
    var codeBuf: seq<bv8>, idBuf: seq<Byte> := [], [];
    var i := 0;
    assert points[..0] == [];
    hide CodeBytesOf, IdBytesOf, Encoded;
    NoBytes(codeBytes);
    while i < |points|
      invariant 0 <= i <= |points|
      invariant forall j :: 0 <= j < i ==> Storable(points[j], vectorSize)
      invariant codeBuf == CodeBytesOf(Encoded(points[..i], codeBytes))
      invariant idBuf == IdBytesOf(Encoded(points[..i], codeBytes))
    {
      var p := points[i];
      assert Storable(p, vectorSize) || FirstBad(points, vectorSize, i);
      if |p.vector| != vectorSize {
        return Failure(ModelMismatch(p.imageId));
      }
      if p.imageId < 0 {
        return Failure(NegativeId(p.imageId));
      }
      var code := Codes.Encode(p.vector, codeBytes);
      EncodeOneMore(points, i, codeBytes);
      codeBuf := codeBuf + code;
      idBuf := idBuf + ToLE(p.imageId, ID_SIZE);
      i := i + 1;
    }
    assert points[..i] == points;
    r := Success((codeBuf, idBuf));
  }

  lemma NoBytes(w: nat)
    ensures CodeBytesOf(Encoded([], w)) == [] && IdBytesOf(Encoded([], w)) == []
  {
  }

  // ----- slots of joined files

  lemma SliceLeft<B>(a: seq<B>, b: seq<B>, x: nat, y: nat)
    requires x <= y <= |a|
    ensures (a + b)[x..y] == a[x..y]
  {
  }

  lemma SliceRight<B>(a: seq<B>, b: seq<B>, x: nat, y: nat)
    requires x <= y <= |b|
    ensures (a + b)[|a| + x..|a| + y] == b[x..y]
  {
  }

  lemma SlotLeft<B>(a: seq<B>, b: seq<B>, w: nat, n: nat, k: nat, i: nat)
    requires |a| == w * n && w * (n + k) <= |a + b| && i < n
    ensures Slot(a + b, w, n + k, i) == Slot(a, w, n, i)
  {
    SlotBounds(w, i, n);
    SlotBounds(w, i, n + k);
    SliceLeft(a, b, w * i, w * i + w);
  }

  lemma SlotRight<B>(a: seq<B>, b: seq<B>, w: nat, n: nat, k: nat, i: nat)
    requires |a| == w * n && w * k <= |b| && w * (n + k) <= |a + b| && i < k
    ensures Slot(a + b, w, n + k, n + i) == Slot(b, w, k, i)
  {
    SlotBounds(w, i, k);
    SlotBounds(w, n + i, n + k);
    assert w * (n + i) == w * n + w * i;
    SliceRight(a, b, w * i, w * i + w);
  }

  lemma SlotJoins<B>(a: seq<B>, b: seq<B>, w: nat, n: nat, k: nat, i: nat)
    requires |a| == w * n && w * k <= |b| && i < n + k
    ensures w * (n + k) <= |a + b|
    ensures Slot(a + b, w, n + k, i) == if i < n then Slot(a, w, n, i) else Slot(b, w, k, i - n)
  {
    hide Slot;
    assert w * (n + k) == w * n + w * k;
    if i < n {
      SlotLeft(a, b, w, n, k, i);
    } else {
      SlotRight(a, b, w, n, k, i - n);
    }
  }

  /** Slots of two appended pairs of files are the slots of the first followed by those of the second. */
  lemma SlotsJoin(c0: seq<bv8>, i0: seq<Byte>, c1: seq<bv8>, i1: seq<Byte>, w: nat, n: nat, k: nat)
    requires |c0| == w * n && |i0| == ID_SIZE * n && w * k <= |c1| && ID_SIZE * k <= |i1|
    ensures w * (n + k) <= |c0 + c1| && ID_SIZE * (n + k) <= |i0 + i1|
    ensures ReadSlots(c0 + c1, i0 + i1, w, n + k) == ReadSlots(c0, i0, w, n) + ReadSlots(c1, i1, w, k)
  {
    assert w * (n + k) == w * n + w * k;
    forall i: nat | i < n + k
      ensures ReadSlots(c0 + c1, i0 + i1, w, n + k)[i] == (ReadSlots(c0, i0, w, n) + ReadSlots(c1, i1, w, k))[i]
    {
      SlotJoins(c0, c1, w, n, k, i);
      SlotJoins(i0, i1, ID_SIZE, n, k, i);
      hide Slot, FromLE;
    }
  }

  /** Only the slots that are read matter. */
  lemma SlotsWithin(codes: seq<bv8>, ids: seq<Byte>, w: nat, n: nat, c: nat, d: nat)
    requires w * n <= c <= |codes| && ID_SIZE * n <= d <= |ids|
    ensures ReadSlots(codes[..c], ids[..d], w, n) == ReadSlots(codes, ids, w, n)
  {
    forall i: nat | i < n
      ensures Slot(codes[..c], w, n, i) == Slot(codes, w, n, i)
      ensures Slot(ids[..d], ID_SIZE, n, i) == Slot(ids, ID_SIZE, n, i)
    {
      SlotBounds(w, i, n);
      assert codes[..c][w * i..w * i + w] == codes[w * i..w * i + w];
      assert ids[..d][ID_SIZE * i..ID_SIZE * i + ID_SIZE] == ids[ID_SIZE * i..ID_SIZE * i + ID_SIZE];
    }
    hide Slot, FromLE;
  }

  /** The slots an opening would find are those before followed by a prefix of the batch. */
  ghost predicate FoundAfter(codes: seq<bv8>, ids: seq<Byte>, w: nat, before: seq<Point>, batch: seq<Point>)
    requires w > 0
  {
    SlotCountFits(codes, ids, w);
    var n := SlotCount(codes, ids, w);
    && |before| <= n <= |before| + |batch|
    && ReadSlots(codes, ids, w, n) == before + batch[..n - |before|]
  }

  lemma TornCount(w: nat, n: nat, codes: nat, ids: nat, k: nat, q: nat)
    requires w > 0 && codes >= w * n + k && w * q <= k && ids / ID_SIZE == n + q
    ensures codes / w >= n + q
  {
    assert w * (n + q) == w * n + w * q;
    DivAtLeast(codes, w, n + q);
  }

  /** The first q points of a batch read back from files that begin with as much of its bytes as covers them. */
  lemma TornSlots(batch: seq<Point>, w: nat, q: nat, codes: seq<bv8>, ids: seq<Byte>)
    requires PointsOk(batch, w) && q <= |batch|
    requires Alike(codes, CodeBytesOf(batch), w * q) && Alike(ids, IdBytesOf(batch), ID_SIZE * q)
    ensures ReadSlots(codes, ids, w, q) == batch[..q]
  {
    PrefixBytes(batch, w, q);
    hide CodeBytesOf, IdBytesOf;
    assert PointsOk(batch[..q], w);
    SlotsPair(batch[..q], w, codes, ids);
  }

  lemma TornQuotient(batch: seq<Point>, w: nat, k: nat, m: nat)
    requires w > 0 && PointsOk(batch, w) && k <= |CodeBytesOf(batch)| && m <= |IdBytesOf(batch)|
    requires m > 0 ==> k == |CodeBytesOf(batch)|
    ensures var q := m / ID_SIZE; q <= |batch| && w * q <= k && ID_SIZE * q <= m
  {
    PrefixBytes(batch, w, 0);
    MulMono(w, m / ID_SIZE, |batch|);
    assert m == 0 ==> w * (m / ID_SIZE) == 0;
  }

  /** What an overwritten file holds from there on begins like the buffer. */
  lemma TailAlike<B>(cur: seq<B>, at: nat, buf: seq<B>, k: nat, n: nat)
    requires at <= |cur| && n <= k <= |buf|
    ensures var g := Overwritten(cur, at, buf[..k]);
      at <= |g| && g == cur[..at] + g[at..] && |g| >= at + k && Alike(g[at..], buf, n)
  {
    var g := Overwritten(cur, at, buf[..k]);
    OverwrittenLooks(cur, at, buf[..k]);
    assert g[at..][..n] == buf[..n];
  }

  /** However far an append got, provided it wrote no id before all its codes and went over no whole slot of a
      failed one, opening finds the earlier slots and then whole points of the batch. */
  lemma TornAppend(c0: seq<bv8>, i0: seq<Byte>, w: nat, n: nat, batch: seq<Point>, k: nat, m: nat)
    requires w > 0 && w * n <= |c0| && ID_SIZE * n <= |i0| < ID_SIZE * (n + 1) && PointsOk(batch, w)
    requires k <= |CodeBytesOf(batch)| && m <= |IdBytesOf(batch)|
    requires m > 0 ==> k == |CodeBytesOf(batch)|
    ensures FoundAfter(Overwritten(c0, w * n, CodeBytesOf(batch)[..k]),
                       Overwritten(i0, ID_SIZE * n, IdBytesOf(batch)[..m]), w, ReadSlots(c0, i0, w, n), batch)
  {
    var q := m / ID_SIZE;
    TornQuotient(batch, w, k, m);
    hide CodeBytesOf, IdBytesOf, ReadSlots, Overwritten, PointsOk;
    var c := Overwritten(c0, w * n, CodeBytesOf(batch)[..k]);
    var i := Overwritten(i0, ID_SIZE * n, IdBytesOf(batch)[..m]);
    TailAlike(c0, w * n, CodeBytesOf(batch), k, w * q);
    TailAlike(i0, ID_SIZE * n, IdBytesOf(batch), m, ID_SIZE * q);
    assert |i| / ID_SIZE == n + q by {
      OverwrittenLooks(i0, ID_SIZE * n, IdBytesOf(batch)[..m]);
    }
    TornCount(w, n, |c|, |i|, k, q);
    TornSlots(batch, w, q, c[w * n..], i[ID_SIZE * n..]);
    SlotsJoin(c0[..w * n], i0[..ID_SIZE * n], c[w * n..], i[ID_SIZE * n..], w, n, q);
    SlotsWithin(c0, i0, w, n, w * n, ID_SIZE * n);
    ReadSlotsLength(c0, i0, w, n);
  }

  /** The earlier slots are read as before, however far an append got. */
  lemma TornLeaves(c0: seq<bv8>, i0: seq<Byte>, w: nat, n: nat, batch: seq<Point>, k: nat, m: nat)
    requires w > 0 && w * n <= |c0| && ID_SIZE * n <= |i0| && PointsOk(batch, w)
    requires k <= |CodeBytesOf(batch)| && m <= |IdBytesOf(batch)| && (m > 0 ==> k == |CodeBytesOf(batch)|)
    ensures var c, i := Overwritten(c0, w * n, CodeBytesOf(batch)[..k]),
                        Overwritten(i0, ID_SIZE * n, IdBytesOf(batch)[..m]);
      && w * n <= |c| && ID_SIZE * n <= |i| && ReadSlots(c, i, w, n) == ReadSlots(c0, i0, w, n)
      && (|i0| < ID_SIZE * (n + 1) ==> FoundAfter(c, i, w, ReadSlots(c0, i0, w, n), batch))
  {
    if |i0| < ID_SIZE * (n + 1) {
      TornAppend(c0, i0, w, n, batch, k, m);
    }
    hide CodeBytesOf, IdBytesOf, ReadSlots, FoundAfter, PointsOk;
    var c, i := Overwritten(c0, w * n, CodeBytesOf(batch)[..k]), Overwritten(i0, ID_SIZE * n, IdBytesOf(batch)[..m]);
    TailAlike(c0, w * n, CodeBytesOf(batch), k, 0);
    TailAlike(i0, ID_SIZE * n, IdBytesOf(batch), m, 0);
    hide Overwritten;
    assert c[..w * n] == c0[..w * n] && i[..ID_SIZE * n] == i0[..ID_SIZE * n];
    SlotsWithin(c, i, w, n, w * n, ID_SIZE * n);
    SlotsWithin(c0, i0, w, n, w * n, ID_SIZE * n);
  }

  lemma NothingWritten<B>(cur: seq<B>, at: nat, buf: seq<B>)
    requires at <= |cur|
    ensures Overwritten(cur, at, buf[..0]) == cur
  {
  }

  /** A whole append reads as the earlier slots and the batch. */
  lemma WholeAppend(c0: seq<bv8>, i0: seq<Byte>, w: nat, n: nat, batch: seq<Point>)
    requires w > 0 && w * n <= |c0| && ID_SIZE * n <= |i0| && PointsOk(batch, w)
    ensures var c, i := Overwritten(c0, w * n, CodeBytesOf(batch)), Overwritten(i0, ID_SIZE * n, IdBytesOf(batch));
      var end := n + |batch|;
      && w * end <= |c| && ID_SIZE * end <= |i| && ReadSlots(c, i, w, end) == ReadSlots(c0, i0, w, n) + batch
      && (|i0| < ID_SIZE * (n + 1) ==> |i| < ID_SIZE * (end + 1))
  {
    PrefixBytes(batch, w, |batch|);
    hide CodeBytesOf, IdBytesOf, ReadSlots, Overwritten;
    var cb, ib := CodeBytesOf(batch), IdBytesOf(batch);
    var c, i := Overwritten(c0, w * n, cb), Overwritten(i0, ID_SIZE * n, ib);
    assert cb[..|cb|] == cb && ib[..|ib|] == ib && batch[..|batch|] == batch;
    TailAlike(c0, w * n, cb, |cb|, |cb|);
    TailAlike(i0, ID_SIZE * n, ib, |ib|, |ib|);
    OverwrittenLooks(i0, ID_SIZE * n, ib);
    TornSlots(batch, w, |batch|, c[w * n..], i[ID_SIZE * n..]);
    SlotsJoin(c0[..w * n], i0[..ID_SIZE * n], c[w * n..], i[ID_SIZE * n..], w, n, |batch|);
    SlotsWithin(c0, i0, w, n, w * n, ID_SIZE * n);
  }

  lemma ReadSlotsLength(codes: seq<bv8>, ids: seq<Byte>, w: nat, n: nat)
    requires w * n <= |codes| && ID_SIZE * n <= |ids|
    ensures |ReadSlots(codes, ids, w, n)| == n
  {
  }

  /** Both files cut to their common slots; cutting a file of that length already changes nothing. */
  lemma Opened(codes: File<bv8>, ids: File<Byte>, w: nat, n: nat)
    requires w > 0 && FileOk(codes) && FileOk(ids) && n == SlotCount(codes.cur, ids.cur, w)
    ensures w * n <= |codes.cur| && ID_SIZE * n <= |ids.cur|
    ensures var c, i := Truncate(codes, w * n), Truncate(ids, ID_SIZE * n);
      && FileOk(c) && FileOk(i) && |c.cur| == w * n && |i.cur| == ID_SIZE * n
      && (|codes.cur| == w * n ==> c == codes) && (|ids.cur| == ID_SIZE * n ==> i == ids)
      && ReadSlots(c.cur, i.cur, w, n) == ReadSlots(codes.cur, ids.cur, w, n)
  {
    hide ReadSlots, SlotCount;
    SlotCountFits(codes.cur, ids.cur, w);
    CutFile(codes, w * n);
    CutFile(ids, ID_SIZE * n);
    SlotsWithin(codes.cur, ids.cur, w, n, w * n, ID_SIZE * n);
  }

  lemma CutFile<B>(f: File<B>, size: nat)
    requires FileOk(f) && size <= |f.cur|
    ensures var c := Truncate(f, size); FileOk(c) && c.cur == f.cur[..size] && (|f.cur| == size ==> c == f)
  {
    assert f.cur[..|f.cur|] == f.cur;
  }

  lemma CountIs(codes: File<bv8>, ids: File<Byte>, w: nat)
    requires w > 0
    ensures SlotCount(codes.cur, ids.cur, w) == Min(|codes.cur| / w, |ids.cur| / 8)
  {
  }

  method CountSlots(codes: File<bv8>, ids: File<Byte>, w: nat) returns (slots: nat)
    requires w > 0
    ensures slots == SlotCount(codes.cur, ids.cur, w)
  {
    slots := |codes.cur| / w;
    var byId := |ids.cur| / ID_SIZE;
    if byId < slots {
      slots := byId;
    }
  }

  class Collection {
    const vectorSize: nat
    const codeBytes: nat
    var codes: File<bv8>
    var ids: File<Byte>
    var count: nat

    ghost predicate Valid()
      reads this
    {
      && vectorSize > 0 && codeBytes == (vectorSize + 7) / 8
      && FileOk(codes) && FileOk(ids)
      && codeBytes * count <= |codes.cur| && ID_SIZE * count <= |ids.cur|
    }

    /** A failed append left no whole id behind the slots. */
    ghost predicate Clean()
      reads this
    {
      |ids.cur| < ID_SIZE * (count + 1)
    }

    /** What a search sees. Bytes that a failed append left behind are not part of it. */
    ghost function Slots(): (s: seq<Point>)
      requires Valid()
      reads this
      ensures |s| == count
    {
      ReadSlots(codes.cur, ids.cur, codeBytes, count)
    }

    /** Opening for writing: the slots both files hold in full, in files cut to exactly those. */
    constructor OpenFiles(vectorSize: nat, codes: File<bv8>, ids: File<Byte>)
      requires vectorSize > 0 && FileOk(codes) && FileOk(ids)
      ensures Valid() && Clean() && this.vectorSize == vectorSize
      ensures |this.codes.cur| == codeBytes * count && |this.ids.cur| == ID_SIZE * count
      ensures count == SlotCount(codes.cur, ids.cur, codeBytes)
      ensures this.codeBytes == (vectorSize + 7) / 8 && count == Min(|codes.cur| / codeBytes, |ids.cur| / 8)
      ensures codeBytes * count <= |codes.cur| && ID_SIZE * count <= |ids.cur|
      ensures Slots() == ReadSlots(codes.cur, ids.cur, codeBytes, count)
    {
      hide ReadSlots, Truncate, FileOk, SlotCount;
      var w := (vectorSize + 7) / 8;
      var found := CountSlots(codes, ids, w);
      Opened(codes, ids, w, found);
      CountIs(codes, ids, w);
      this.vectorSize, this.codeBytes, this.count := vectorSize, w, found;
      if |codes.cur| != w * found || |ids.cur| != ID_SIZE * found {
        this.codes, this.ids := Truncate(codes, w * found), Truncate(ids, ID_SIZE * found);
      } else {
        this.codes, this.ids := codes, ids;
      }
    }

    /** One file: the buffer goes in behind the slots and is synced, or some of it is left there unsynced. */
    method PutCodes(buf: seq<bv8>, fault: Fault) returns (ok: bool)
      requires FileOk(codes) && codeBytes * count <= |codes.cur|
      modifies this`codes
      ensures FileOk(codes)
      ensures ok ==> codes.cur == Overwritten(old(codes.cur), codeBytes * count, buf) && codes.kept == |codes.cur|
      ensures !ok ==>
        exists k :: 0 <= k <= |buf| && codes.cur == Overwritten(old(codes.cur), codeBytes * count, buf[..k])
      ensures fault.NoFault? || fault.CloseOld? ==> ok
    {
      hide Overwritten, WriteAt, Common;
      if fault.CodesWrite? && fault.n <= |buf| {
        Written(codes, count * codeBytes, buf[..fault.n]);
        codes := WriteAt(codes, count * codeBytes, buf[..fault.n]);
        return false;
      }
      Written(codes, count * codeBytes, buf);
      codes := WriteAt(codes, count * codeBytes, buf);
      if fault.CodesSync? {
        assert buf[..|buf|] == buf;
        return false;
      }
      codes := Sync(codes);
      ok := true;
    }

    method PutIds(buf: seq<Byte>, fault: Fault) returns (ok: bool)
      requires FileOk(ids) && ID_SIZE * count <= |ids.cur|
      modifies this`ids
      ensures FileOk(ids)
      ensures ok ==> ids.cur == Overwritten(old(ids.cur), ID_SIZE * count, buf) && ids.kept == |ids.cur|
      ensures !ok ==> exists m :: 0 <= m <= |buf| && ids.cur == Overwritten(old(ids.cur), ID_SIZE * count, buf[..m])
      ensures fault.NoFault? || fault.CloseOld? ==> ok
    {
      hide Overwritten, WriteAt, Common;
      if fault.IdsWrite? && fault.n <= |buf| {
        Written(ids, count * ID_SIZE, buf[..fault.n]);
        ids := WriteAt(ids, count * ID_SIZE, buf[..fault.n]);
        return false;
      }
      Written(ids, count * ID_SIZE, buf);
      ids := WriteAt(ids, count * ID_SIZE, buf);
      if fault.IdsSync? {
        assert buf[..|buf|] == buf;
        return false;
      }
      ids := Sync(ids);
      ok := true;
    }

    /** The files are those before with the first k bytes of the batch's codes and the first m of its ids
        written behind the slots, no id before all the codes. */
    ghost predicate Torn(c0: seq<bv8>, i0: seq<Byte>, batch: seq<Point>, k: nat, m: nat)
      reads this
    {
      && codeBytes * count <= |c0| && ID_SIZE * count <= |i0|
      && k <= |CodeBytesOf(batch)| && m <= |IdBytesOf(batch)|
      && (m > 0 ==> k == |CodeBytesOf(batch)| && codes.kept == |codes.cur|)
      && codes.cur == Overwritten(c0, codeBytes * count, CodeBytesOf(batch)[..k])
      && ids.cur == Overwritten(i0, ID_SIZE * count, IdBytesOf(batch)[..m])
    }

    /** Codes before ids, each synced, and the grown file mapped. */
    method PutBoth(ghost batch: seq<Point>, codeBuf: seq<bv8>, idBuf: seq<Byte>, fault: Fault) returns (ok: bool)
      requires Valid() && codeBuf == CodeBytesOf(batch) && idBuf == IdBytesOf(batch)
      modifies this`codes, this`ids
      ensures FileOk(codes) && FileOk(ids)
      ensures !ok ==> exists k, m :: Torn(old(codes.cur), old(ids.cur), batch, k, m)
      ensures ok ==>
        && codes.cur == Overwritten(old(codes.cur), codeBytes * count, codeBuf) && codes.kept == |codes.cur|
        && ids.cur == Overwritten(old(ids.cur), ID_SIZE * count, idBuf) && ids.kept == |ids.cur|
      ensures fault.NoFault? || fault.CloseOld? ==> ok
    {
      hide CodeBytesOf, IdBytesOf, Overwritten, FileOk;
      ghost var c0, i0 := codes.cur, ids.cur;
      ok := PutCodes(codeBuf, fault);
      if !ok {
        ghost var k :| 0 <= k <= |codeBuf| && codes.cur == Overwritten(c0, codeBytes * count, codeBuf[..k]);
        NothingWritten(i0, ID_SIZE * count, idBuf);
        assert Torn(c0, i0, batch, k, 0);
        return;
      }
      assert codeBuf[..|codeBuf|] == codeBuf && idBuf[..|idBuf|] == idBuf;
      ok := PutIds(idBuf, fault);
      if !ok {
        ghost var m :| 0 <= m <= |idBuf| && ids.cur == Overwritten(i0, ID_SIZE * count, idBuf[..m]);
        assert Torn(c0, i0, batch, |codeBuf|, m);
        return;
      }
      if fault.Remap? {
        assert Torn(c0, i0, batch, |codeBuf|, |idBuf|);
        return false;
      }
    }

    /** A batch with an unstorable point changes nothing. A batch that is acknowledged is added whole and is
        on disk, as it is when only the old mapping could not be closed. Any other failure leaves the slots as
        they were and part of the batch behind them; if no failed append had left whole ids there, opening the
        files finds the earlier slots and a prefix of the batch. */
    method Append(points: seq<VectorPoint>, fault: Fault) returns (r: Result<(), Error>)
      requires Valid()
      modifies this`codes, this`ids, this`count
      ensures Valid()
      ensures !AllStorable(points, vectorSize) ==>
        && codes == old(codes) && ids == old(ids) && count == old(count)
        && r.Failure? && exists i :: FirstBad(points, vectorSize, i) && r.error == Refusal(points[i], vectorSize)
      ensures AllStorable(points, vectorSize) && fault.NoFault? ==> r.Success?
      ensures AllStorable(points, vectorSize) && fault.CloseOld? ==> r == Failure(WriteFailed)
      ensures r.Success? || (AllStorable(points, vectorSize) && fault.CloseOld?) ==>
        && AllStorable(points, vectorSize) && count == old(count) + |points|
        && Slots() == old(Slots()) + Encoded(points, codeBytes) && (old(Clean()) ==> Clean())
        && codes.kept == |codes.cur| && ids.kept == |ids.cur|
      ensures r.Failure? && AllStorable(points, vectorSize) && !fault.CloseOld? ==>
        && count == old(count) && Slots() == old(Slots())
        && (exists k, m :: Torn(old(codes.cur), old(ids.cur), Encoded(points, codeBytes), k, m))
        && (old(Clean()) ==>
              FoundAfter(codes.cur, ids.cur, codeBytes, old(Slots()), Encoded(points, codeBytes)))
    {
      var buffers := Buffers(points, vectorSize, codeBytes);
      if buffers.Failure? {
        return Failure(buffers.error);
      }
      var codeBuf, idBuf := buffers.value.0, buffers.value.1;
      ghost var batch := Encoded(points, codeBytes);
      ghost var c0, i0 := codes.cur, ids.cur;
      EncodedOk(points, codeBytes);
      hide FoundAfter, ReadSlots, CodeBytesOf, IdBytesOf, PointsOk, Encoded, AllStorable, FirstBad, Refusal,
        Overwritten, FileOk;

      var ok := PutBoth(batch, codeBuf, idBuf, fault);
      if !ok {
        ghost var k, m :| Torn(c0, i0, batch, k, m);
        TornLeaves(c0, i0, codeBytes, count, batch, k, m);
        return Failure(WriteFailed);
      }
      WholeAppend(c0, i0, codeBytes, count, batch);
      count := count + |points|;
      if fault.CloseOld? {
        return Failure(WriteFailed);
      }
      r := Success(());
    }
  }
}
