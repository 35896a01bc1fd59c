/**
 Sign codes and their distance: `encode` keeps one bit per dimension, `hamming` counts differing bits
 eight bytes at a time.
 */
module Codes {

  // ----- bits

  function Mask(j: nat): bv8
    requires j < 8
  {
    [0x01, 0x02, 0x04, 0x08, 0x10, 0x20, 0x40, 0x80][j]
  }

  function Bit8(x: bv8, m: bv8): nat {
    if x & m == 0 then 0 else 1
  }

  function Bit64(x: bv64, m: bv64): nat {
    if x & m == 0 then 0 else 1
  }

  /** math/bits.OnesCount8: all eight bits, one by one. */
  function OnesCount8(x: bv8): nat {
    Bit8(x, 0x01) + Bit8(x, 0x02) + Bit8(x, 0x04) + Bit8(x, 0x08)
    + Bit8(x, 0x10) + Bit8(x, 0x20) + Bit8(x, 0x40) + Bit8(x, 0x80)
  }

  /** The eight bits of a word from mask m upwards. */
  function OnesFrom(x: bv64, m: bv64): nat {
    Bit64(x, m) + Bit64(x, m << 1) + Bit64(x, m << 2) + Bit64(x, m << 3)
    + Bit64(x, m << 4) + Bit64(x, m << 5) + Bit64(x, m << 6) + Bit64(x, m << 7)
  }

  /** math/bits.OnesCount64: all sixty-four bits. */
  function OnesCount64(x: bv64): nat {
    OnesFrom(x, 0x1) + OnesFrom(x, 0x100) + OnesFrom(x, 0x1_0000) + OnesFrom(x, 0x100_0000)
    + OnesFrom(x, 0x1_0000_0000) + OnesFrom(x, 0x100_0000_0000)
    + OnesFrom(x, 0x1_0000_0000_0000) + OnesFrom(x, 0x100_0000_0000_0000)
  }

  function Le64(b: seq<bv8>): bv64
    requires |b| >= 8
  {
    Word(b[0], b[1], b[2], b[3], b[4], b[5], b[6], b[7])
  }

  function Word(b0: bv8, b1: bv8, b2: bv8, b3: bv8, b4: bv8, b5: bv8, b6: bv8, b7: bv8): bv64 {
    (b0 as bv64) | ((b1 as bv64) << 8) | ((b2 as bv64) << 16) | ((b3 as bv64) << 24)
    | ((b4 as bv64) << 32) | ((b5 as bv64) << 40) | ((b6 as bv64) << 48) | ((b7 as bv64) << 56)
  }

  // ----- the distance

  function OnesAt(a: seq<bv8>, b: seq<bv8>, k: nat): nat {
    if k < |a| && k < |b| then OnesCount8(a[k] ^ b[k]) else 0
  }

  /** Differing bits of the first n bytes, byte by byte: what the fast loop has to equal. */
  function ByteDistance(a: seq<bv8>, b: seq<bv8>, n: nat): nat {
    if n == 0 then 0 else ByteDistance(a, b, n - 1) + OnesAt(a, b, n - 1)
  }

  /** Eight steps of a running total. */
  lemma EightSteps(total: nat -> nat, part: nat -> nat, n: nat)
    requires forall k: nat :: total(k + 1) == total(k) + part(k)
    ensures total(n + 8) == total(n) + part(n) + part(n + 1) + part(n + 2) + part(n + 3)
      + part(n + 4) + part(n + 5) + part(n + 6) + part(n + 7)
  {
    assert total(n + 4) == total(n) + part(n) + part(n + 1) + part(n + 2) + part(n + 3) by {
      assert total(n + 1) == total(n) + part(n);
      assert total(n + 1 + 1) == total(n + 1) + part(n + 1);
      assert total(n + 2 + 1) == total(n + 2) + part(n + 2);
      assert total(n + 3 + 1) == total(n + 3) + part(n + 3);
    }
    assert total(n + 4 + 1) == total(n + 4) + part(n + 4);
    assert total(n + 5 + 1) == total(n + 5) + part(n + 5);
    assert total(n + 6 + 1) == total(n + 6) + part(n + 6);
    assert total(n + 7 + 1) == total(n + 7) + part(n + 7);
  }

  lemma OnesLow(b0: bv8, b1: bv8, b2: bv8, b3: bv8, b4: bv8, b5: bv8, b6: bv8, b7: bv8)
    ensures OnesFrom(Word(b0, b1, b2, b3, b4, b5, b6, b7), 0x1) == OnesCount8(b0)
    ensures OnesFrom(Word(b0, b1, b2, b3, b4, b5, b6, b7), 0x100) == OnesCount8(b1)
  {
  }

  lemma OnesMidLow(b0: bv8, b1: bv8, b2: bv8, b3: bv8, b4: bv8, b5: bv8, b6: bv8, b7: bv8)
    ensures OnesFrom(Word(b0, b1, b2, b3, b4, b5, b6, b7), 0x1_0000) == OnesCount8(b2)
    ensures OnesFrom(Word(b0, b1, b2, b3, b4, b5, b6, b7), 0x100_0000) == OnesCount8(b3)
  {
  }

  lemma OnesMidHigh(b0: bv8, b1: bv8, b2: bv8, b3: bv8, b4: bv8, b5: bv8, b6: bv8, b7: bv8)
    ensures OnesFrom(Word(b0, b1, b2, b3, b4, b5, b6, b7), 0x1_0000_0000) == OnesCount8(b4)
    ensures OnesFrom(Word(b0, b1, b2, b3, b4, b5, b6, b7), 0x100_0000_0000) == OnesCount8(b5)
  {
  }

  lemma OnesHigh(b0: bv8, b1: bv8, b2: bv8, b3: bv8, b4: bv8, b5: bv8, b6: bv8, b7: bv8)
    ensures OnesFrom(Word(b0, b1, b2, b3, b4, b5, b6, b7), 0x1_0000_0000_0000) == OnesCount8(b6)
    ensures OnesFrom(Word(b0, b1, b2, b3, b4, b5, b6, b7), 0x100_0000_0000_0000) == OnesCount8(b7)
  {
  }

  lemma OnesOfWord(b0: bv8, b1: bv8, b2: bv8, b3: bv8, b4: bv8, b5: bv8, b6: bv8, b7: bv8)
    ensures OnesCount64(Word(b0, b1, b2, b3, b4, b5, b6, b7))
      == OnesCount8(b0) + OnesCount8(b1) + OnesCount8(b2) + OnesCount8(b3)
         + OnesCount8(b4) + OnesCount8(b5) + OnesCount8(b6) + OnesCount8(b7)
  {
    OnesLow(b0, b1, b2, b3, b4, b5, b6, b7);
    OnesMidLow(b0, b1, b2, b3, b4, b5, b6, b7);
    OnesMidHigh(b0, b1, b2, b3, b4, b5, b6, b7);
    OnesHigh(b0, b1, b2, b3, b4, b5, b6, b7);
  }

  lemma WordXor(a: seq<bv8>, b: seq<bv8>)
    requires |a| >= 8 && |b| >= 8
    ensures Le64(a) ^ Le64(b)
      == Word(a[0] ^ b[0], a[1] ^ b[1], a[2] ^ b[2], a[3] ^ b[3], a[4] ^ b[4], a[5] ^ b[5], a[6] ^ b[6], a[7] ^ b[7])
  {
  }

  lemma WordOnes(a: seq<bv8>, b: seq<bv8>)
    requires |a| >= 8 && |b| >= 8
    ensures OnesCount64(Le64(a) ^ Le64(b))
      == OnesAt(a, b, 0) + OnesAt(a, b, 1) + OnesAt(a, b, 2) + OnesAt(a, b, 3)
         + OnesAt(a, b, 4) + OnesAt(a, b, 5) + OnesAt(a, b, 6) + OnesAt(a, b, 7)
  {
    hide OnesCount8, OnesCount64, Word;
    WordXor(a, b);
    OnesOfWord(a[0] ^ b[0], a[1] ^ b[1], a[2] ^ b[2], a[3] ^ b[3], a[4] ^ b[4], a[5] ^ b[5], a[6] ^ b[6], a[7] ^ b[7]);
  }

  /** One 64-bit step of the loop is worth eight byte steps. */
  lemma WordStep(a: seq<bv8>, b: seq<bv8>, i: nat)
    requires i + 8 <= |a| && i + 8 <= |b|
    ensures ByteDistance(a, b, i + 8) == ByteDistance(a, b, i) + OnesCount64(Le64(a[i..]) ^ Le64(b[i..]))
  {
    hide OnesCount8, OnesCount64, Le64;
    EightSteps(k => ByteDistance(a, b, k), k => OnesAt(a, b, k), i);
    WordOnes(a[i..], b[i..]);
    forall j: nat | j < 8
      ensures OnesAt(a[i..], b[i..], j) == OnesAt(a, b, i + j)
    {
    }
  }

  /** The result is cut to sixteen bits, so it is the true distance while that fits. */
  lemma NoDistance(a: seq<bv8>, b: seq<bv8>)
    ensures ByteDistance(a, b, 0) == 0
  {
  }

  lemma ByteStep(a: seq<bv8>, b: seq<bv8>, i: nat)
    requires i < |a| && i < |b|
    ensures ByteDistance(a, b, i + 1) == ByteDistance(a, b, i) + OnesCount8(a[i] ^ b[i])
  {
    hide OnesCount8;
  }

  method Hamming(a: seq<bv8>, b: seq<bv8>) returns (d: nat)
    requires |a| <= |b|
    ensures d == ByteDistance(a, b, |a|) % 0x1_0000
  {
    d := 0;
    var n := |a|;
    var i := 0;
    hide OnesCount8, OnesCount64, Le64, ByteDistance;
    NoDistance(a, b);
    while i + 8 <= n
      invariant 0 <= i <= n
      invariant d == ByteDistance(a, b, i)
    {
      WordStep(a, b, i);
      d := d + OnesCount64(Le64(a[i..]) ^ Le64(b[i..]));
      i := i + 8;
    }
    while i < n
      invariant 0 <= i <= n
      invariant d == ByteDistance(a, b, i)
    {
      ByteStep(a, b, i);
      d := d + OnesCount8(a[i] ^ b[i]);
      i := i + 1;
    }
    d := d % 0x1_0000;
  }

  // ----- encoding

  /** The only fact about an entry that a code keeps. */
  predicate Sign(v: seq<real>, i: nat) {
    i < |v| && v[i] > 0.0
  }

  function Flag(s: bool, m: bv8): bv8 {
    if s then m else 0
  }

  function Pack(s: seq<bool>): bv8
    requires |s| == 8
  {
    Flag(s[0], 0x01) | Flag(s[1], 0x02) | Flag(s[2], 0x04) | Flag(s[3], 0x08)
    | Flag(s[4], 0x10) | Flag(s[5], 0x20) | Flag(s[6], 0x40) | Flag(s[7], 0x80)
  }

  function Signs(v: seq<real>, k: nat): (s: seq<bool>)
    ensures |s| == 8
  {
    seq(8, j requires 0 <= j < 8 => Sign(v, 8 * k + j))
  }

  function SignByte(v: seq<real>, k: nat): bv8 {
    Pack(Signs(v, k))
  }

  lemma PackSet(s: seq<bool>, j: nat)
    requires |s| == 8 && j < 8 && !s[j]
    ensures Pack(s[j := true]) == Pack(s) | Mask(j)
  {
    if j == 0 { assert Mask(j) == 0x01; }
    else if j == 1 { assert Mask(j) == 0x02; }
    else if j == 2 { assert Mask(j) == 0x04; }
    else if j == 3 { assert Mask(j) == 0x08; }
    else if j == 4 { assert Mask(j) == 0x10; }
    else if j == 5 { assert Mask(j) == 0x20; }
    else if j == 6 { assert Mask(j) == 0x40; }
    else { assert Mask(j) == 0x80; }
  }

  function Count(s: bool): nat {
    if s then 1 else 0
  }

  function Encoded(v: seq<real>, codeBytes: nat): (code: seq<bv8>)
    ensures |code| == codeBytes
  {
    seq(codeBytes, k requires 0 <= k < codeBytes => SignByte(v, k))
  }

  /** Setting the bit of dimension i extends the code of the first i dimensions by one. */
  lemma SetBit(v: seq<real>, i: nat, k: nat)
    requires i < |v|
    ensures SignByte(v[..i + 1], k)
      == if k == i / 8 && v[i] > 0.0 then SignByte(v[..i], k) | Mask(i % 8) else SignByte(v[..i], k)
  {
    hide Pack, Mask;
    var a, b := Signs(v[..i], k), Signs(v[..i + 1], k);
    assert forall x: nat :: x != i ==> Sign(v[..i], x) == Sign(v[..i + 1], x);
    assert !Sign(v[..i], i) && Sign(v[..i + 1], i) == (v[i] > 0.0);
    assert i == 8 * (i / 8) + i % 8;
    if k == i / 8 && v[i] > 0.0 {
      assert b == a[i % 8 := true];
      PackSet(a, i % 8);
    } else {
      assert b == a;
    }
  }

  lemma EmptyCode(k: nat)
    ensures SignByte([], k) == 0
  {
    var none: seq<real> := [];
    var s := Signs(none, k);
    forall j | 0 <= j < 8
      ensures !s[j]
    {
      assert !Sign(none, 8 * k + j);
    }
    NoFlags(s);
  }

  lemma NoFlags(s: seq<bool>)
    requires |s| == 8 && forall j :: 0 <= j < 8 ==> !s[j]
    ensures Pack(s) == 0
  {
  }

  /** Bit i of the code, the lowest of each byte first, is set exactly if dimension i is positive. */
  lemma BitIsSign(v: seq<real>, codeBytes: nat, i: nat)
    requires i < 8 * codeBytes
    ensures i / 8 < codeBytes
    ensures (Encoded(v, codeBytes)[i / 8] >> (i % 8)) & 1 == if i < |v| && v[i] > 0.0 then 1 else 0
  {
    var s, k, j := Signs(v, i / 8), i / 8, i % 8;
    hide Pack;
    assert i == 8 * k + j;
    assert Encoded(v, codeBytes)[k] == SignByte(v, k) == Pack(s);
    assert s[j] == Sign(v, i);
    PackedBit(s, j);
  }

  lemma PackedBit(s: seq<bool>, j: nat)
    requires |s| == 8 && j < 8
    ensures (Pack(s) >> j) & 1 == if s[j] then 1 else 0
  {
    if j == 0 { assert Pack(s) & 1 == if s[0] then 1 else 0; }
    else if j == 1 { assert (Pack(s) >> 1) & 1 == if s[1] then 1 else 0; }
    else if j == 2 { assert (Pack(s) >> 2) & 1 == if s[2] then 1 else 0; }
    else if j == 3 { assert (Pack(s) >> 3) & 1 == if s[3] then 1 else 0; }
    else if j == 4 { assert (Pack(s) >> 4) & 1 == if s[4] then 1 else 0; }
    else if j == 5 { assert (Pack(s) >> 5) & 1 == if s[5] then 1 else 0; }
    else if j == 6 { assert (Pack(s) >> 6) & 1 == if s[6] then 1 else 0; }
    else { assert (Pack(s) >> 7) & 1 == if s[7] then 1 else 0; }
  }

  method Encode(v: seq<real>, codeBytes: nat) returns (code: seq<bv8>)
    requires |v| <= 8 * codeBytes
    ensures code == Encoded(v, codeBytes)
    ensures |code| == codeBytes && forall i: nat :: i < 8 * codeBytes ==>
      (code[i / 8] >> (i % 8)) & 1 == if i < |v| && v[i] > 0.0 then 1 else 0
  {
    var buf := new bv8[codeBytes](_ => 0);
    assert v[..0] == [];
    forall k: nat | k < codeBytes
      ensures SignByte(v[..0], k) == 0
    {
      EmptyCode(k);
    }
    for i := 0 to |v|
      invariant forall k :: 0 <= k < codeBytes ==> buf[k] == SignByte(v[..i], k)
    {
      forall k: nat | k < codeBytes
        ensures SignByte(v[..i + 1], k)
          == if k == i / 8 && v[i] > 0.0 then SignByte(v[..i], k) | Mask(i % 8) else SignByte(v[..i], k)
      {
        SetBit(v, i, k);
      }
      if v[i] > 0.0 {
        buf[i / 8] := buf[i / 8] | Mask(i % 8);
      }
    }
    assert v[..|v|] == v;
    code := buf[..];
    forall i: nat | i < 8 * codeBytes
      ensures (code[i / 8] >> (i % 8)) & 1 == if i < |v| && v[i] > 0.0 then 1 else 0
    {
      BitIsSign(v, codeBytes, i);
    }
  }

  // ----- what the distance of two codes means

  function Differ(a: seq<real>, b: seq<real>, i: nat): nat {
    Neq(Count(Sign(a, i)), Count(Sign(b, i)))
  }

  /** Dimensions below n whose "greater than zero" status differs. */
  function DiffDims(a: seq<real>, b: seq<real>, n: nat): nat {
    if n == 0 then 0 else DiffDims(a, b, n - 1) + Differ(a, b, n - 1)
  }

  function Neq(p: nat, q: nat): nat {
    if p != q then 1 else 0
  }

  lemma XorOnes(x: bv8, y: bv8)
    ensures OnesCount8(x ^ y)
      == Neq(Bit8(x, 0x01), Bit8(y, 0x01)) + Neq(Bit8(x, 0x02), Bit8(y, 0x02))
         + Neq(Bit8(x, 0x04), Bit8(y, 0x04)) + Neq(Bit8(x, 0x08), Bit8(y, 0x08))
         + Neq(Bit8(x, 0x10), Bit8(y, 0x10)) + Neq(Bit8(x, 0x20), Bit8(y, 0x20))
         + Neq(Bit8(x, 0x40), Bit8(y, 0x40)) + Neq(Bit8(x, 0x80), Bit8(y, 0x80))
  {
  }

  lemma PackBits(s: seq<bool>)
    requires |s| == 8
    ensures var x := Pack(s);
      && Bit8(x, 0x01) == Count(s[0]) && Bit8(x, 0x02) == Count(s[1]) && Bit8(x, 0x04) == Count(s[2])
      && Bit8(x, 0x08) == Count(s[3]) && Bit8(x, 0x10) == Count(s[4]) && Bit8(x, 0x20) == Count(s[5])
      && Bit8(x, 0x40) == Count(s[6]) && Bit8(x, 0x80) == Count(s[7])
  {
  }

  lemma DifferAt(a: seq<real>, b: seq<real>, k: nat, j: nat)
    requires j < 8
    ensures Differ(a, b, 8 * k + j) == Neq(Count(Signs(a, k)[j]), Count(Signs(b, k)[j]))
  {
  }

  lemma ByteDiff(a: seq<real>, b: seq<real>, k: nat)
    ensures OnesCount8(SignByte(a, k) ^ SignByte(b, k))
      == Differ(a, b, 8 * k) + Differ(a, b, 8 * k + 1) + Differ(a, b, 8 * k + 2) + Differ(a, b, 8 * k + 3)
         + Differ(a, b, 8 * k + 4) + Differ(a, b, 8 * k + 5) + Differ(a, b, 8 * k + 6) + Differ(a, b, 8 * k + 7)
  {
    hide OnesCount8, Pack, Signs, Bit8, Count, Neq, Differ;
    var s, t := Signs(a, k), Signs(b, k);
    PackBits(s);
    PackBits(t);
    XorOnes(Pack(s), Pack(t));
    DifferAt(a, b, k, 0);
    DifferAt(a, b, k, 1);
    DifferAt(a, b, k, 2);
    DifferAt(a, b, k, 3);
    DifferAt(a, b, k, 4);
    DifferAt(a, b, k, 5);
    DifferAt(a, b, k, 6);
    DifferAt(a, b, k, 7);
  }

  lemma EightDims(a: seq<real>, b: seq<real>, n: nat)
    ensures DiffDims(a, b, n + 8) == DiffDims(a, b, n)
      + Differ(a, b, n) + Differ(a, b, n + 1) + Differ(a, b, n + 2) + Differ(a, b, n + 3)
      + Differ(a, b, n + 4) + Differ(a, b, n + 5) + Differ(a, b, n + 6) + Differ(a, b, n + 7)
  {
    hide Differ;
    EightSteps(k => DiffDims(a, b, k), k => Differ(a, b, k), n);
  }

  lemma {:induction false} BytesCountDims(a: seq<real>, b: seq<real>, codeBytes: nat, k: nat)
    requires k <= codeBytes
    ensures ByteDistance(Encoded(a, codeBytes), Encoded(b, codeBytes), k) == DiffDims(a, b, 8 * k)
  {
    hide OnesCount8, SignByte, Differ;
    if k > 0 {
      BytesCountDims(a, b, codeBytes, k - 1);
      ByteDiff(a, b, k - 1);
      EightDims(a, b, 8 * (k - 1));
      assert 8 * (k - 1) + 8 == 8 * k;
    }
  }

  lemma {:induction false} PaddingAgrees(a: seq<real>, b: seq<real>, n: nat)
    requires |a| == |b| <= n
    ensures DiffDims(a, b, n) == DiffDims(a, b, |a|)
  {
    if n > |a| {
      PaddingAgrees(a, b, n - 1);
    }
  }

  lemma {:induction false} DiffDimsBounded(a: seq<real>, b: seq<real>, n: nat)
    ensures DiffDims(a, b, n) <= n
  {
    if n > 0 {
      DiffDimsBounded(a, b, n - 1);
    }
  }

  /** For any dimension, the distance of two codes is the number of dimensions whose sign differs; the
      sixteen-bit result keeps it exactly when that number is below 65536, which any vector of at most
      65535 dimensions guarantees. */
  lemma DistanceCountsDimensions(a: seq<real>, b: seq<real>, codeBytes: nat)
    requires |a| == |b| <= 8 * codeBytes
    ensures var d := ByteDistance(Encoded(a, codeBytes), Encoded(b, codeBytes), codeBytes);
      && d == DiffDims(a, b, |a|)
      && (d % 0x1_0000 == d <==> DiffDims(a, b, |a|) < 0x1_0000)
      && (|a| < 0x1_0000 ==> d % 0x1_0000 == d)
  {
    BytesCountDims(a, b, codeBytes, codeBytes);
    PaddingAgrees(a, b, 8 * codeBytes);
    DiffDimsBounded(a, b, |a|);
  }
}
