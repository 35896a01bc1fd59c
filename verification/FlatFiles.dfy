/**
 The bytes of a collection's two append-only files, codes.bin and ids.bin: slots of fixed width, and what
 writes, syncs and truncations leave behind. Bytes written since the last sync survive a power loss as a
 prefix; an unsynced truncation may come undone; bytes rewritten with the value they had are not at risk.
 */
module FlatFiles {
  import opened Wrappers

  const ID_SIZE: nat := 8
  const ID_LIMIT: nat := 0x8000_0000_0000_0000

  // ----- little-endian ids

  function ToLE(n: nat, width: nat): (b: seq<Byte>)
    ensures |b| == width
  {
    if width == 0 then [] else [n % 256] + ToLE(n / 256, width - 1)
  }

  function FromLE(b: seq<Byte>): nat {
    if b == [] then 0 else b[0] + 256 * FromLE(b[1..])
  }

  function Pow256(w: nat): nat {
    if w == 0 then 1 else 256 * Pow256(w - 1)
  }

  lemma {:induction false} LERoundTrip(n: nat, width: nat)
    requires n < Pow256(width)
    ensures FromLE(ToLE(n, width)) == n
    decreases width
  {
    if width > 0 {
      LERoundTrip(n / 256, width - 1);
      assert ToLE(n, width)[1..] == ToLE(n / 256, width - 1);
    }
  }

  lemma IdRoundTrip(id: nat)
    requires id < ID_LIMIT
    ensures FromLE(ToLE(id, ID_SIZE)) == id
  {
    assert Pow256(4) == 0x1_0000_0000 by {
      assert Pow256(2) == 0x1_0000;
    }
    assert Pow256(8) == 0x1_0000_0000_0000_0000 by {
      assert Pow256(6) == 256 * 256 * Pow256(4);
    }
    LERoundTrip(id, ID_SIZE);
  }

  /** Ids take eight bytes, the lowest first, and are below 2^63. */
  lemma LittleEndian(id: nat)
    requires id < 0x8000_0000_0000_0000
    ensures id < ID_LIMIT && ID_LIMIT <= 0x8000_0000_0000_0000
    ensures var b: seq<int> := ToLE(id, ID_SIZE);
      && |b| == 8
      && id == b[0] + 0x100 * b[1] + 0x1_0000 * b[2] + 0x100_0000 * b[3] + 0x1_0000_0000 * b[4]
               + 0x100_0000_0000 * b[5] + 0x1_0000_0000_0000 * b[6] + 0x100_0000_0000_0000 * b[7]
  {
    IdRoundTrip(id);
    var b := ToLE(id, ID_SIZE);
    FourFromLE(b);
    FourFromLE(b[4..]);
    assert b[4..][4..] == [];
  }

  lemma FourFromLE(b: seq<Byte>)
    requires |b| >= 4
    ensures var n: seq<int> := b;
      FromLE(b) == n[0] + 0x100 * n[1] + 0x1_0000 * n[2] + 0x100_0000 * n[3] + 0x1_0000_0000 * FromLE(b[4..])
  {
    assert FromLE(b) == b[0] as int + 256 * FromLE(b[1..]);
    assert FromLE(b[1..]) == b[1] as int + 256 * FromLE(b[2..]) by {
      assert b[1..][1..] == b[2..];
    }
    assert FromLE(b[2..]) == b[2] as int + 256 * FromLE(b[3..]) by {
      assert b[2..][1..] == b[3..];
    }
    assert FromLE(b[3..]) == b[3] as int + 256 * FromLE(b[4..]) by {
      assert b[3..][1..] == b[4..];
    }
  }

  // ----- slots of fixed width

  function Flatten<B>(blocks: seq<seq<B>>): seq<B> {
    if blocks == [] then [] else Flatten(blocks[..|blocks| - 1]) + blocks[|blocks| - 1]
  }

  ghost predicate Wide<B>(blocks: seq<seq<B>>, w: nat) {
    forall i :: 0 <= i < |blocks| ==> |blocks[i]| == w
  }

  lemma {:induction false} FlattenLength<B>(blocks: seq<seq<B>>, w: nat)
    requires Wide(blocks, w)
    ensures |Flatten(blocks)| == w * |blocks|
    decreases |blocks|
  {
    if blocks != [] {
      FlattenLength(blocks[..|blocks| - 1], w);
      assert w * |blocks| == w * (|blocks| - 1) + w;
    }
  }

  lemma {:induction false} FlattenConcat<B>(a: seq<seq<B>>, b: seq<seq<B>>)
    ensures Flatten(a + b) == Flatten(a) + Flatten(b)
    decreases |b|
  {
    if b == [] {
      assert a + b == a;
    } else {
      var n := |b| - 1;
      FlattenConcat(a, b[..n]);
      assert (a + b)[..|a + b| - 1] == a + b[..n];
      assert (a + b)[|a + b| - 1] == b[n];
    }
  }

  lemma FlattenPrefix<B>(blocks: seq<seq<B>>, w: nat, k: nat)
    requires Wide(blocks, w) && k <= |blocks|
    ensures w * k <= |Flatten(blocks)| && Flatten(blocks)[..w * k] == Flatten(blocks[..k])
  {
    assert blocks == blocks[..k] + blocks[k..];
    FlattenConcat(blocks[..k], blocks[k..]);
    FlattenLength(blocks[..k], w);
  }

  /** The slots of width w a file's first n slots read as. */
  function Cut<B>(bytes: seq<B>, w: nat, n: nat): (blocks: seq<seq<B>>)
    requires w * n <= |bytes|
    ensures |blocks| == n
  {
    seq(n, i requires 0 <= i < n => Slot(bytes, w, n, i))
  }

  function Slot<B>(bytes: seq<B>, w: nat, n: nat, i: nat): (block: seq<B>)
    requires w * n <= |bytes| && i < n
    ensures |block| == w
  {
    assert w * i + w <= w * n by {
      assert w * (i + 1) == w * i + w;
      MulMono(w, i + 1, n);
    }
    bytes[w * i..w * i + w]
  }

  lemma MulMono(w: nat, a: nat, b: nat)
    requires a <= b
    ensures w * a <= w * b
  {
    assert w * b == w * a + w * (b - a);
  }

  lemma Between<B>(bytes: seq<B>, lo: nat, hi: nat, end: nat, head: seq<B>, piece: seq<B>)
    requires lo <= hi <= end <= |bytes| && |head| == lo
    requires bytes[..end][..hi] == head + piece
    ensures bytes[lo..hi] == piece
  {
    assert bytes[..hi] == head + piece;
    assert bytes[lo..hi] == bytes[..hi][lo..];
  }

  lemma SlotBounds(w: nat, i: nat, n: nat)
    requires i < n
    ensures w * i + w == w * (i + 1) && w * (i + 1) <= w * n
  {
    MulMono(w, i + 1, n);
  }

  lemma TakeOneMore<B>(blocks: seq<seq<B>>, i: nat)
    requires i < |blocks|
    ensures Flatten(blocks[..i + 1]) == Flatten(blocks[..i]) + blocks[i]
  {
    assert blocks[..i + 1][..i] == blocks[..i];
  }

  lemma SlotFlatten<B>(blocks: seq<seq<B>>, w: nat, bytes: seq<B>, i: nat)
    requires Wide(blocks, w) && w * |blocks| <= |bytes| && bytes[..w * |blocks|] == Flatten(blocks)
    requires i < |blocks|
    ensures Slot(bytes, w, |blocks|, i) == blocks[i]
  {
    SlotBounds(w, i, |blocks|);
    FlattenPrefix(blocks, w, i + 1);
    FlattenLength(blocks[..i], w);
    TakeOneMore(blocks, i);
    hide Flatten, Wide;
    Between(bytes, w * i, w * i + w, w * |blocks|, Flatten(blocks[..i]), blocks[i]);
  }

  lemma CutFlatten<B>(blocks: seq<seq<B>>, w: nat, bytes: seq<B>)
    requires Wide(blocks, w) && w * |blocks| <= |bytes| && bytes[..w * |blocks|] == Flatten(blocks)
    ensures Cut(bytes, w, |blocks|) == blocks
  {
    forall i: nat | i < |blocks|
      ensures Slot(bytes, w, |blocks|, i) == blocks[i]
    {
      SlotFlatten(blocks, w, bytes, i);
    }
    hide Slot, Flatten;
  }

  // ----- one file

  /** `cur` is what reads see; `synced` what the last sync made durable; the first `kept` bytes have
      not been changed since. */
  datatype File<B> = File(synced: seq<B>, cur: seq<B>, kept: nat)

  ghost predicate FileOk<B>(f: File<B>) {
    f.kept <= |f.synced| && f.kept <= |f.cur| && f.synced[..f.kept] == f.cur[..f.kept]
  }

  /** How far two sequences begin alike. */
  function Common<B(==)>(a: seq<B>, b: seq<B>): (n: nat)
    ensures n <= |a| && n <= |b| && a[..n] == b[..n]
    ensures n < |a| && n < |b| ==> a[n] != b[n]
  {
    if a == [] || b == [] || a[0] != b[0] then 0 else 1 + Common(a[1..], b[1..])
  }

  function Overwritten<B>(cur: seq<B>, at: nat, buf: seq<B>): seq<B>
    requires at <= |cur|
  {
    cur[..at] + buf + (if at + |buf| <= |cur| then cur[at + |buf|..] else [])
  }

  /** A write that changes nothing leaves the file alone; otherwise the file is untouched up to the first
      byte that changes. */
  function WriteAt<B(==)>(f: File<B>, at: nat, buf: seq<B>): File<B>
    requires at <= |f.cur|
  {
    var same := Common(f.cur[at..], buf);
    if same == |buf| then f else File(f.synced, Overwritten(f.cur, at, buf), Min(f.kept, at + same))
  }

  function Sync<B>(f: File<B>): File<B> {
    File(f.cur, f.cur, |f.cur|)
  }

  function Truncate<B>(f: File<B>, size: nat): File<B>
    requires size <= |f.cur|
  {
    File(f.synced, f.cur[..size], Min(f.kept, size))
  }

  /** What a power loss may leave: everything unchanged since the sync, then a prefix of what was
      written, then possibly the old bytes the writes had not reached. */
  ghost predicate Survives<B>(f: File<B>, n: nat, m: nat, left: seq<B>) {
    && f.kept <= n <= |f.cur|
    && (left == f.cur[..n] || (n <= m <= |f.synced| && left == f.cur[..n] + f.synced[n..m]))
  }

  /** The bytes of b begin like those of a, n of them. */
  ghost predicate Alike<B>(a: seq<B>, b: seq<B>, n: nat) {
    n <= |a| && n <= |b| && a[..n] == b[..n]
  }

  /** The piece lies in the file at this place. */
  ghost predicate HasAt<B>(bytes: seq<B>, at: nat, piece: seq<B>) {
    at + |piece| <= |bytes| && bytes[at..at + |piece|] == piece
  }

  lemma AlikeShorter<B>(a: seq<B>, b: seq<B>, n: nat, m: nat)
    requires Alike(a, b, n) && m <= n
    ensures Alike(a, b, m)
  {
    assert a[..m] == a[..n][..m] && b[..m] == b[..n][..m];
  }

  lemma AlikeBounds<B>(a: seq<B>, b: seq<B>, n: nat)
    requires Alike(a, b, n)
    ensures n <= |a| && n <= |b|
  {
  }

  lemma AlikeTrans<B>(a: seq<B>, b: seq<B>, c: seq<B>, n: nat)
    requires Alike(a, b, n) && Alike(b, c, n)
    ensures Alike(a, c, n)
  {
  }

  lemma OverwrittenLooks<B>(cur: seq<B>, at: nat, buf: seq<B>)
    requires at <= |cur|
    ensures var g := Overwritten(cur, at, buf);
      |g| == Max(|cur|, at + |buf|) && Alike(g, cur, at) && HasAt(g, at, buf)
  {
  }

  lemma UnchangedHead<B>(cur: seq<B>, at: nat, buf: seq<B>, same: nat)
    requires at + same <= |cur| && same <= |buf| && cur[at..][..same] == buf[..same]
    ensures Alike(cur, Overwritten(cur, at, buf), at + same)
  {
    assert Overwritten(cur, at, buf)[..at + same] == cur[..at] + buf[..same];
    assert cur[..at + same] == cur[..at] + cur[at..][..same];
  }

  lemma NothingChanged<B>(cur: seq<B>, at: nat, buf: seq<B>)
    requires HasAt(cur, at, buf)
    ensures Overwritten(cur, at, buf) == cur
  {
  }

  lemma Written<B>(f: File<B>, at: nat, buf: seq<B>)
    requires FileOk(f) && at <= |f.cur|
    ensures var g := WriteAt(f, at, buf);
      && FileOk(g) && g.synced == f.synced && Min(f.kept, at) <= g.kept <= f.kept
      && g.cur == Overwritten(f.cur, at, buf) && |g.cur| == Max(|f.cur|, at + |buf|)
      && Alike(g.cur, f.cur, at) && HasAt(g.cur, at, buf)
  {
    var same := Common(f.cur[at..], buf);
    var g := Overwritten(f.cur, at, buf);
    OverwrittenLooks(f.cur, at, buf);
    if same == |buf| {
      assert f.cur[at..at + |buf|] == f.cur[at..][..same] == buf;
      NothingChanged(f.cur, at, buf);
    } else {
      UnchangedHead(f.cur, at, buf, same);
      hide Overwritten;
      var k := Min(f.kept, at + same);
      AlikeShorter(f.synced, f.cur, f.kept, k);
      AlikeShorter(f.cur, g, at + same, k);
    }
  }

  /** Bytes rewritten with the values they had are neither changed nor put at risk. */
  lemma Rewritten<B>(f: File<B>, at: nat, buf: seq<B>, upto: nat)
    requires FileOk(f) && at <= upto <= |f.cur|
    requires forall j :: 0 <= j < |buf| && at + j < upto ==> buf[j] == f.cur[at + j]
    ensures var g := WriteAt(f, at, buf); Alike(g.cur, f.cur, upto) && g.kept >= Min(f.kept, upto)
  {
    Written(f, at, buf);
    var same := Common(f.cur[at..], buf);
    assert same < |buf| ==> at + same >= upto;
    var g := WriteAt(f, at, buf).cur;
    forall j | 0 <= j < upto
      ensures g[j] == f.cur[j]
    {
      if at <= j < at + |buf| {
        assert g[j] == buf[j - at];
      }
    }
  }

  lemma HasAtWithin<B>(a: seq<B>, b: seq<B>, n: nat, at: nat, piece: seq<B>)
    requires Alike(a, b, n) && HasAt(b, at, piece) && at + |piece| <= n
    ensures HasAt(a, at, piece)
  {
    assert a[at..at + |piece|] == a[..n][at..at + |piece|];
    assert b[at..at + |piece|] == b[..n][at..at + |piece|];
  }

  /** A power loss leaves what was unchanged since the sync. */
  lemma SurvivesKept<B>(f: File<B>, n: nat, m: nat, left: seq<B>)
    requires FileOk(f) && Survives(f, n, m, left)
    ensures Alike(left, f.cur, f.kept)
  {
  }

  // ----- the pair of files

  datatype Point = Point(code: seq<bv8>, id: nat)

  function CodesOf(points: seq<Point>): (c: seq<seq<bv8>>)
    ensures |c| == |points|
  {
    seq(|points|, i requires 0 <= i < |points| => points[i].code)
  }

  function IdsOf(points: seq<Point>): (c: seq<seq<Byte>>)
    ensures |c| == |points|
  {
    seq(|points|, i requires 0 <= i < |points| => ToLE(points[i].id, ID_SIZE))
  }

  function CodeBytesOf(points: seq<Point>): seq<bv8> {
    Flatten(CodesOf(points))
  }

  function IdBytesOf(points: seq<Point>): seq<Byte> {
    Flatten(IdsOf(points))
  }

  ghost predicate PointsOk(points: seq<Point>, w: nat) {
    forall i :: 0 <= i < |points| ==> |points[i].code| == w && points[i].id < ID_LIMIT
  }

  /** Slots both files hold in full. */
  function SlotCount(codes: seq<bv8>, ids: seq<Byte>, w: nat): nat
    requires w > 0
  {
    Min(|codes| / w, |ids| / ID_SIZE)
  }

  lemma DivAtLeast(x: nat, w: nat, q: nat)
    requires w > 0 && w * q <= x
    ensures x / w >= q
  {
    assert w * (x / w + 1) == w * (x / w) + w > x;
    if x / w < q {
      MulMono(w, x / w + 1, q);
    }
  }

  lemma SlotCountFits(codes: seq<bv8>, ids: seq<Byte>, w: nat)
    requires w > 0
    ensures w * SlotCount(codes, ids, w) <= |codes| && ID_SIZE * SlotCount(codes, ids, w) <= |ids|
  {
    var n := SlotCount(codes, ids, w);
    assert w * (|codes| / w) <= |codes|;
    MulMono(w, n, |codes| / w);
  }

  /** What a search reads from the first n slots: code and id of each. */
  function ReadSlots(codes: seq<bv8>, ids: seq<Byte>, w: nat, n: nat): seq<Point>
    requires w * n <= |codes| && ID_SIZE * n <= |ids|
  {
    seq(n, i requires 0 <= i < n => Point(Cut(codes, w, n)[i], FromLE(Cut(ids, ID_SIZE, n)[i])))
  }

  lemma PrefixBytes(points: seq<Point>, w: nat, k: nat)
    requires PointsOk(points, w) && k <= |points|
    ensures |CodeBytesOf(points)| == w * |points| && |IdBytesOf(points)| == ID_SIZE * |points|
    ensures w * k <= w * |points|
    ensures CodeBytesOf(points)[..w * k] == CodeBytesOf(points[..k])
    ensures IdBytesOf(points)[..ID_SIZE * k] == IdBytesOf(points[..k])
  {
    FlattenLength(CodesOf(points), w);
    FlattenLength(IdsOf(points), ID_SIZE);
    FlattenPrefix(CodesOf(points), w, k);
    FlattenPrefix(IdsOf(points), ID_SIZE, k);
    assert CodesOf(points)[..k] == CodesOf(points[..k]);
    assert IdsOf(points)[..k] == IdsOf(points[..k]);
    MulMono(w, k, |points|);
  }

  lemma JoinBytes(a: seq<Point>, b: seq<Point>)
    ensures CodeBytesOf(a + b) == CodeBytesOf(a) + CodeBytesOf(b)
    ensures IdBytesOf(a + b) == IdBytesOf(a) + IdBytesOf(b)
  {
    assert CodesOf(a + b) == CodesOf(a) + CodesOf(b);
    assert IdsOf(a + b) == IdsOf(a) + IdsOf(b);
    FlattenConcat(CodesOf(a), CodesOf(b));
    FlattenConcat(IdsOf(a), IdsOf(b));
  }

  /** Files whose first slots carry the bytes of some points read back as those points, each code with
      the id it was written with. */
  lemma SlotsPair(points: seq<Point>, w: nat, codes: seq<bv8>, ids: seq<Byte>)
    requires PointsOk(points, w)
    requires w * |points| <= |codes| && codes[..w * |points|] == CodeBytesOf(points)
    requires ID_SIZE * |points| <= |ids| && ids[..ID_SIZE * |points|] == IdBytesOf(points)
    ensures ReadSlots(codes, ids, w, |points|) == points
  {
    CutFlatten(CodesOf(points), w, codes);
    CutFlatten(IdsOf(points), ID_SIZE, ids);
    forall i | 0 <= i < |points|
      ensures ReadSlots(codes, ids, w, |points|)[i] == points[i]
    {
      IdRoundTrip(points[i].id);
    }
  }

  lemma SlotOfBytes(points: seq<Point>, w: nat, i: nat)
    requires PointsOk(points, w) && i < |points|
    ensures HasAt(CodeBytesOf(points), w * i, points[i].code)
    ensures HasAt(IdBytesOf(points), ID_SIZE * i, ToLE(points[i].id, ID_SIZE))
  {
    PrefixBytes(points, w, |points|);
    SlotBounds(w, i, |points|);
    var cb, ib := CodeBytesOf(points), IdBytesOf(points);
    assert cb[..w * |points|] == cb && ib[..ID_SIZE * |points|] == ib;
    SlotFlatten(CodesOf(points), w, cb, i);
    SlotFlatten(IdsOf(points), ID_SIZE, ib, i);
  }

  /** The bytes of a stretch of points inside those of all. */
  lemma StretchBytes(all: seq<Point>, w: nat, count: nat, batch: seq<Point>)
    requires PointsOk(all, w) && count + |batch| <= |all| && all[count..count + |batch|] == batch
    ensures HasAt(CodeBytesOf(all), w * count, CodeBytesOf(batch)) && |CodeBytesOf(batch)| == w * |batch|
    ensures HasAt(IdBytesOf(all), ID_SIZE * count, IdBytesOf(batch)) && |IdBytesOf(batch)| == ID_SIZE * |batch|
    ensures w * (count + |batch|) == w * count + w * |batch|
  {
    var end := count + |batch|;
    assert PointsOk(batch, w) && all[..end] == all[..count] + batch;
    hide CodeBytesOf, IdBytesOf, PointsOk, HasAt;
    PrefixBytes(all, w, end);
    PrefixBytes(all, w, count);
    PrefixBytes(batch, w, |batch|);
    JoinBytes(all[..count], batch);
    assert w * end == w * count + w * |batch|;
    HeadAndPiece(CodeBytesOf(all), w * end, CodeBytesOf(all[..count]), CodeBytesOf(batch));
    HeadAndPiece(IdBytesOf(all), ID_SIZE * end, IdBytesOf(all[..count]), IdBytesOf(batch));
  }

  lemma HeadAndPiece<B>(bytes: seq<B>, end: nat, head: seq<B>, piece: seq<B>)
    requires end <= |bytes| && bytes[..end] == head + piece
    ensures HasAt(bytes, |head|, piece)
  {
    assert bytes[|head|..end] == bytes[..end][|head|..];
  }
}
