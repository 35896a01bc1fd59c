/**
 The exhaustive scan: every worker keeps the nearest slots of its shard behind a threshold that only
 falls, the shards' answers are joined in whatever order they finish, sorted and cut.
 */
module Scanning {
  import opened Wrappers
  import Codes
  import opened Sorting

  datatype Candidate = Candidate(slot: nat, dist: nat)

  /** What is searched for and where: the bytes of the code file and the query's code. */
  datatype Task = Task(data: seq<bv8>, query: seq<bv8>, codeBytes: nat)

  /** Reading may fail at any chunk, and fails past the end of the data. */
  datatype Reader = Reader(data: seq<bv8>, broken: set<nat>) {
    predicate Serves(from: nat, to: nat) {
      from !in broken && from <= to <= |data|
    }

    function Chunk(from: nat, to: nat): Option<seq<bv8>> {
      if Serves(from, to) then Some(data[from..to]) else None
    }
  }

  const CHUNK_SLOTS: nat := 0x1_0000

  const WORST: nat := 0xFFFF

  /** The 16-bit distance of a slot's code from the query. */
  function Dist(t: Task, slot: nat): (d: nat)
    ensures d <= WORST
  {
    if slot * t.codeBytes + t.codeBytes <= |t.data| && t.codeBytes <= |t.query| then
      Codes.ByteDistance(t.data[slot * t.codeBytes..slot * t.codeBytes + t.codeBytes], t.query, t.codeBytes) % 0x1_0000
    else 0
  }

  function Cand(t: Task, slot: nat): Candidate {
    Candidate(slot, Dist(t, slot))
  }

  // ----- orderings

  /** The sort order: by distance, and by slot too where ties are broken. */
  predicate Before(a: Candidate, b: Candidate, ties: bool) {
    a.dist < b.dist || (a.dist == b.dist && (ties ==> a.slot <= b.slot))
  }

  function Order(ties: bool): (Candidate, Candidate) -> bool {
    (a: Candidate, b: Candidate) => Before(a, b, ties)
  }

  ghost predicate Ordered(s: seq<Candidate>, ties: bool) {
    forall i, j :: 0 <= i < j < |s| ==> Before(s[i], s[j], ties)
  }

  /** The library sort: an ordered permutation. Which one, when ties are not broken, is not promised. */
  method Sort(s: seq<Candidate>, ties: bool) returns (r: seq<Candidate>)
    ensures multiset(r) == multiset(s) && Ordered(r, ties) && |r| == |s|
  {
    r := Sorting.Sort(s, Order(ties));
    assert forall i, j :: 0 <= i < j < |r| ==> Order(ties)(r[i], r[j]);
  }

  // ----- what an answer is

  /** Each candidate carries its own slot's distance, and no slot occurs twice. */
  ghost predicate Genuine(t: Task, m: multiset<Candidate>, lo: nat, hi: nat) {
    forall c :: c in m ==> lo <= c.slot < hi && c == Cand(t, c.slot) && m[c] == 1
  }

  ghost predicate NotCloser(t: Task, best: seq<Candidate>, slot: nat) {
    forall c :: c in best ==> c.dist <= Dist(t, slot)
  }

  /** As many slots as asked for, or all of them, and none left out is closer than any taken. */
  ghost predicate Nearest(t: Task, best: seq<Candidate>, lo: nat, hi: nat, want: nat)
    requires lo <= hi
  {
    && Genuine(t, multiset(best), lo, hi) && |best| == Min(want, hi - lo)
    && forall s: nat :: lo <= s < hi ==> Cand(t, s) in best || NotCloser(t, best, s)
  }

  // ----- one shard

  /** After the slots of [lo, i): what was left out lies beyond the threshold, what was kept within it. */
  ghost predicate Scanned(t: Task, best: seq<Candidate>, worst: nat, lo: nat, i: nat, want: nat)
    requires lo <= i
  {
    && Genuine(t, multiset(best), lo, i) && |best| == Min(want, i - lo) && worst <= WORST
    && (forall s: nat :: lo <= s < i ==> Cand(t, s) in best || (|best| == want && worst <= Dist(t, s)))
    && (forall c :: c in best ==> c.dist <= worst)
    && (|best| < want ==> worst == WORST)
  }

  lemma Skip(t: Task, best: seq<Candidate>, worst: nat, lo: nat, i: nat, want: nat)
    requires lo <= i && Scanned(t, best, worst, lo, i, want) && |best| == want && Dist(t, i) >= worst
    ensures Scanned(t, best, worst, lo, i + 1, want)
  {
    hide Dist;
  }

  lemma Grow(t: Task, best: seq<Candidate>, worst: nat, lo: nat, i: nat, want: nat)
    requires lo <= i && Scanned(t, best, worst, lo, i, want) && |best| < want
    ensures Scanned(t, best + [Cand(t, i)], worst, lo, i + 1, want)
  {
    var next := best + [Cand(t, i)];
    assert Dist(t, i) <= WORST;
    hide Dist;
    assert Cand(t, i) !in best;
    forall s: nat | lo <= s < i + 1
      ensures Cand(t, s) in next
    {
      if s == i { assert next[|best|] == Cand(t, s); } else { assert Cand(t, s) in best; }
    }
  }

  lemma GenuineGrows(t: Task, m: multiset<Candidate>, lo: nat, i: nat)
    requires lo <= i && Genuine(t, m, lo, i)
    ensures Genuine(t, m + multiset{Cand(t, i)}, lo, i + 1)
  {
    hide Dist;
    assert Cand(t, i) !in m;
  }

  lemma GenuinePart(t: Task, m: multiset<Candidate>, n: multiset<Candidate>, lo: nat, hi: nat)
    requires Genuine(t, n, lo, hi) && m <= n
    ensures Genuine(t, m, lo, hi)
  {
    hide Dist, Cand;
    forall c | c in m
      ensures lo <= c.slot < hi && c == Cand(t, c.slot) && m[c] == 1
    {
      assert c in n;
    }
  }

  /** Sorting and dropping the last keeps the want nearest of want + 1. */
  lemma DropLast(t: Task, kept: seq<Candidate>, worst: nat, sorted: seq<Candidate>, want: nat)
    requires want > 0 && |sorted| == want + 1 && multiset(sorted) == multiset(kept) && Ordered(sorted, false)
    requires forall c :: c in kept ==> c.dist <= worst
    ensures var next, limit := sorted[..want], sorted[want - 1].dist;
      && multiset(next) <= multiset(sorted) && limit <= worst
      && (forall c :: c in next ==> c.dist <= limit)
      && (forall c :: c in kept ==> c in next || limit <= c.dist)
  {
    var next, limit, out := sorted[..want], sorted[want - 1].dist, sorted[want];
    assert sorted == next + [out];
    assert sorted[want - 1] in multiset(sorted);
    assert sorted[want - 1] in kept;
    forall c | c in kept
      ensures c in next || limit <= c.dist
    {
      assert c in multiset(sorted);
      assert c in next || c == out;
    }
  }

  lemma Replace(t: Task, best: seq<Candidate>, worst: nat, lo: nat, i: nat, want: nat, sorted: seq<Candidate>)
    requires lo <= i && Scanned(t, best, worst, lo, i, want) && |best| == want > 0 && Dist(t, i) < worst
    requires multiset(sorted) == multiset(best + [Cand(t, i)]) && |sorted| == want + 1 && Ordered(sorted, false)
    ensures Scanned(t, sorted[..want], sorted[want - 1].dist, lo, i + 1, want)
  {
    hide Dist, Ordered;
    var kept := best + [Cand(t, i)];
    GenuineGrows(t, multiset(best), lo, i);
    assert forall c :: c in kept ==> c.dist <= worst;
    DropLast(t, kept, worst, sorted, want);
    GenuinePart(t, multiset(sorted[..want]), multiset(sorted), lo, i + 1);
    hide Genuine;
    forall s: nat | lo <= s < i + 1
      ensures Cand(t, s) in sorted[..want] || sorted[want - 1].dist <= Dist(t, s)
    {
      if s == i {
        assert kept[|best|] == Cand(t, s);
      } else if Cand(t, s) in best {
        assert Cand(t, s) in kept;
      }
    }
  }

  lemma ScannedIsNearest(t: Task, best: seq<Candidate>, worst: nat, lo: nat, hi: nat, want: nat, sorted: seq<Candidate>)
    requires lo <= hi && Scanned(t, best, worst, lo, hi, want)
    requires multiset(sorted) == multiset(best) && |sorted| == |best|
    ensures Nearest(t, sorted, lo, hi, want)
  {
    hide Dist;
    assert forall c :: c in sorted <==> c in multiset(sorted);
    assert forall c :: c in sorted <==> c in best;
  }

  lemma Inner(data: seq<bv8>, from: nat, to: nat, at: nat, w: nat)
    requires from <= at && at + w <= to <= |data|
    ensures data[from..to][at - from..at - from + w] == data[at..at + w]
  {
    var a := at - from;
    var l, r := data[from..to][a..a + w], data[at..at + w];
    assert |l| == |r|;
    forall k | 0 <= k < w
      ensures l[k] == r[k]
    {
      assert data[from..to][a + k] == data[from + (a + k)];
    }
  }

  lemma SlotScale(start: nat, i: nat, end: nat, w: nat)
    requires start <= i < end
    ensures (i - start) * w == i * w - start * w && start * w <= i * w && i * w + w <= end * w
  {
    Scale(start, i, w);
    Scale(i + 1, end, w);
    assert (i + 1) * w == i * w + w;
    assert i * w == start * w + (i - start) * w;
  }

  /** A slot's code inside the chunk that holds it. */
  lemma SlotInChunk(data: seq<bv8>, codeBytes: nat, start: nat, end: nat, i: nat)
    requires start <= i < end && end * codeBytes <= |data|
    ensures start * codeBytes <= end * codeBytes
    ensures var off := (i - start) * codeBytes; var block := data[start * codeBytes..end * codeBytes];
      && 0 <= off && off + codeBytes <= |block| && i * codeBytes + codeBytes <= |data|
      && block[off..off + codeBytes] == data[i * codeBytes..i * codeBytes + codeBytes]
  {
    SlotScale(start, i, end, codeBytes);
    Inner(data, start * codeBytes, end * codeBytes, i * codeBytes, codeBytes);
  }

  lemma Scale(a: nat, b: nat, w: nat)
    requires a <= b
    ensures a * w <= b * w
  {
    assert b * w == a * w + (b - a) * w;
  }

  ghost predicate Readable(r: Reader, lo: nat, hi: nat, codeBytes: nat) {
    r.broken == {} && hi * codeBytes <= |r.data|
  }

  method ScanRange(r: Reader, query: seq<bv8>, lo: nat, hi: nat, codeBytes: nat, want: nat)
      returns (res: Option<seq<Candidate>>)
    requires lo <= hi && want > 0 && |query| >= codeBytes
    ensures res.Some? ==> Nearest(Task(r.data, query, codeBytes), res.value, lo, hi, want)
    ensures res.Some? ==> Ordered(res.value, false) && (lo < hi ==> hi * codeBytes <= |r.data|)
    ensures Readable(r, lo, hi, codeBytes) ==> res.Some?
  {
    ghost var t := Task(r.data, query, codeBytes);
    var best: seq<Candidate>, worst := [], WORST;
    var start := lo;
    assert Scanned(t, best, worst, lo, lo, want);
    hide Scanned, Nearest, Ordered, Dist;
    while start < hi
      invariant lo <= start
      invariant Scanned(t, best, worst, lo, Min(start, hi), want)
      invariant lo < start ==> Min(start, hi) * codeBytes <= |r.data|
    {
      var end := start + CHUNK_SLOTS;
      if end > hi {
        end := hi;
      }
      Scale(start, end, codeBytes);
      Scale(end, hi, codeBytes);
      var block := r.Chunk(start * codeBytes, end * codeBytes);
      if block.None? {
        return None;
      }
      best, worst := ScanChunk(r.data, query, lo, start, end, codeBytes, want, block.value, best, worst);
      start := start + CHUNK_SLOTS;
      assert Min(start, hi) == end;
    }
    var sorted := Sort(best, false);
    ScannedIsNearest(t, best, worst, lo, hi, want, sorted);
    res := Some(sorted);
  }

  /** The inner loop, over the slots of one chunk. */
  method ScanChunk(ghost data: seq<bv8>, query: seq<bv8>, ghost lo: nat, start: nat, end: nat, codeBytes: nat,
                   want: nat, block: seq<bv8>, best0: seq<Candidate>, worst0: nat)
      returns (best: seq<Candidate>, worst: nat)
    requires lo <= start <= end && want > 0 && |query| >= codeBytes && start * codeBytes <= end * codeBytes <= |data|
    requires block == data[start * codeBytes..end * codeBytes]
    requires Scanned(Task(data, query, codeBytes), best0, worst0, lo, start, want)
    ensures Scanned(Task(data, query, codeBytes), best, worst, lo, end, want)
  {
    hide Scanned, Dist;
    best, worst := best0, worst0;
    ghost var t := Task(data, query, codeBytes);
    for i := start to end
      invariant Scanned(t, best, worst, lo, i, want)
    {
      var off := (i - start) * codeBytes;
      SlotInChunk(data, codeBytes, start, end, i);
      var d := Codes.Hamming(block[off..off + codeBytes], query);
      DistAt(t, i, block[off..off + codeBytes]);
      best, worst := Consider(t, best, worst, lo, i, d, want);
    }
  }

  lemma DistAt(t: Task, i: nat, code: seq<bv8>)
    requires i * t.codeBytes + t.codeBytes <= |t.data| && t.codeBytes <= |t.query|
    requires code == t.data[i * t.codeBytes..i * t.codeBytes + t.codeBytes]
    ensures Dist(t, i) == Codes.ByteDistance(code, t.query, |code|) % 0x1_0000
  {
  }

  /** One slot against the threshold. */
  method Consider(ghost t: Task, best0: seq<Candidate>, worst0: nat, ghost lo: nat, i: nat, d: nat, want: nat)
      returns (best: seq<Candidate>, worst: nat)
    requires lo <= i && want > 0 && d == Dist(t, i) && Scanned(t, best0, worst0, lo, i, want)
    ensures Scanned(t, best, worst, lo, i + 1, want)
  {
    ScannedSize(t, best0, worst0, lo, i, want);
    hide Scanned, Dist, Ordered;
    best, worst := best0, worst0;
    if |best| == want && d >= worst {
      Skip(t, best, worst, lo, i, want);
      return;
    }
    best := best + [Candidate(i, d)];
    if |best| > want {
      best := Sort(best, false);
      Replace(t, best0, worst, lo, i, want, best);
      best := best[..want];
      worst := best[want - 1].dist;
    } else {
      Grow(t, best0, worst, lo, i, want);
    }
  }

  lemma ScannedSize(t: Task, best: seq<Candidate>, worst: nat, lo: nat, i: nat, want: nat)
    requires lo <= i && Scanned(t, best, worst, lo, i, want)
    ensures |best| <= want
  {
  }

  // ----- joining the shards

  predicate InShard(s: nat, w: nat, per: nat) {
    w * per <= s < w * per + per
  }

  ghost predicate Owned(s: nat, done: set<nat>, per: nat) {
    exists w :: w in done && InShard(s, w, per)
  }

  /** `p` is a full answer that beats slot s. */
  ghost predicate Beats(t: Task, p: multiset<Candidate>, all: multiset<Candidate>, s: nat, want: nat) {
    p <= all && |p| == want && forall c :: c in p ==> c.dist <= Dist(t, s)
  }

  ghost predicate Settled(t: Task, all: multiset<Candidate>, s: nat, want: nat) {
    Cand(t, s) in all || exists p :: Beats(t, p, all, s, want)
  }

  /** With the answers of the finished workers joined in any order. */
  ghost predicate Joined(t: Task, all: multiset<Candidate>, done: set<nat>, per: nat, count: nat, want: nat) {
    && Genuine(t, all, 0, count)
    && (forall c :: c in all ==> Owned(c.slot, done, per))
    && (forall s: nat :: s < count && Owned(s, done, per) ==> Settled(t, all, s, want))
  }

  lemma NotEarlier(s: nat, v: nat, w: nat, per: nat)
    requires InShard(s, v, per) && InShard(s, w, per)
    ensures v >= w
  {
    assert (v + 1) * per == v * per + per;
    if v < w {
      Scale(v + 1, w, per);
    }
  }

  lemma OneShard(s: nat, v: nat, w: nat, per: nat)
    requires InShard(s, v, per) && InShard(s, w, per)
    ensures v == w
  {
    NotEarlier(s, v, w, per);
    NotEarlier(s, w, v, per);
  }

  lemma SettledGrows(t: Task, all: multiset<Candidate>, part: multiset<Candidate>, s: nat, want: nat)
    requires Settled(t, all, s, want) || Settled(t, part, s, want)
    ensures Settled(t, all + part, s, want)
  {
    hide Dist, Cand;
    if Cand(t, s) !in all + part {
      if Settled(t, all, s, want) {
        var p :| Beats(t, p, all, s, want);
        assert Beats(t, p, all + part, s, want);
      } else {
        var p :| Beats(t, p, part, s, want);
        assert Beats(t, p, all + part, s, want);
      }
    }
  }

  lemma ShardSettles(t: Task, part: seq<Candidate>, lo: nat, hi: nat, want: nat, s: nat)
    requires lo <= s < hi && Nearest(t, part, lo, hi, want)
    ensures Settled(t, multiset(part), s, want)
  {
    hide Dist;
    if Cand(t, s) !in part {
      if |part| < want {
        AllTaken(t, part, lo, hi);
      } else {
        assert Beats(t, multiset(part), multiset(part), s, want);
      }
    }
  }

  /** Candidates of every slot in a range. */
  function Everyone(t: Task, lo: nat, hi: nat): (m: multiset<Candidate>)
    requires lo <= hi
    ensures |m| == hi - lo
    decreases hi - lo
  {
    if lo == hi then multiset{} else Everyone(t, lo, hi - 1) + multiset{Cand(t, hi - 1)}
  }

  lemma {:induction false} EveryoneHas(t: Task, lo: nat, hi: nat, c: Candidate)
    requires lo <= hi
    ensures Everyone(t, lo, hi)[c] == if lo <= c.slot < hi && c == Cand(t, c.slot) then 1 else 0
    decreases hi - lo
  {
    hide Dist;
    if lo < hi {
      EveryoneHas(t, lo, hi - 1, c);
    }
  }

  lemma GenuineWithin(t: Task, m: multiset<Candidate>, lo: nat, hi: nat)
    requires lo <= hi && Genuine(t, m, lo, hi)
    ensures m <= Everyone(t, lo, hi) && |m| <= hi - lo
  {
    forall c | c in m
      ensures m[c] <= Everyone(t, lo, hi)[c]
    {
      EveryoneHas(t, lo, hi, c);
    }
    hide Everyone, Genuine;
    SubSize(m, Everyone(t, lo, hi));
  }

  lemma AllTaken(t: Task, part: seq<Candidate>, lo: nat, hi: nat)
    requires lo <= hi && Genuine(t, multiset(part), lo, hi) && |part| == hi - lo
    ensures forall s: nat :: lo <= s < hi ==> Cand(t, s) in multiset(part)
  {
    GenuineWithin(t, multiset(part), lo, hi);
    SubSize(multiset(part), Everyone(t, lo, hi));
    forall s: nat | lo <= s < hi
      ensures Cand(t, s) in multiset(part)
    {
      EveryoneHas(t, lo, hi, Cand(t, s));
    }
  }

  lemma EmptyShard(t: Task, all: multiset<Candidate>, done: set<nat>, w: nat, per: nat, count: nat, want: nat)
    requires Joined(t, all, done, per, count, want) && w * per >= count
    ensures Joined(t, all, done + {w}, per, count, want)
  {
    hide Genuine, Settled;
    forall s: nat | s < count && Owned(s, done + {w}, per)
      ensures Owned(s, done, per)
    {
    }
    forall c | c in all
      ensures Owned(c.slot, done + {w}, per)
    {
      var v :| v in done && InShard(c.slot, v, per);
      assert v in done + {w};
    }
  }

  lemma JoinGenuine(t: Task, all: multiset<Candidate>, part: multiset<Candidate>, lo: nat, hi: nat, count: nat)
    requires lo <= hi <= count && Genuine(t, all, 0, count) && Genuine(t, part, lo, hi)
    requires forall c :: c in all ==> !(lo <= c.slot < hi)
    ensures Genuine(t, all + part, 0, count)
  {
    hide Dist, Cand;
    forall c | c in all + part
      ensures 0 <= c.slot < count && c == Cand(t, c.slot) && (all + part)[c] == 1
    {
      if c in part {
        assert c !in all;
      } else {
        assert c in all;
      }
    }
  }

  lemma OthersOutside(t: Task, all: multiset<Candidate>, done: set<nat>, w: nat, per: nat, count: nat, want: nat,
                      hi: nat)
    requires Joined(t, all, done, per, count, want) && w !in done && hi <= w * per + per
    ensures forall c :: c in all ==> !(w * per <= c.slot < hi) && Owned(c.slot, done + {w}, per)
  {
    hide Genuine, Settled, Cand;
    forall c | c in all
      ensures !(w * per <= c.slot < hi) && Owned(c.slot, done + {w}, per)
    {
      var v :| v in done && InShard(c.slot, v, per);
      if w * per <= c.slot < hi {
        OneShard(c.slot, v, w, per);
      }
      assert v in done + {w};
    }
  }

  lemma Join(t: Task, all: multiset<Candidate>, done: set<nat>, w: nat, per: nat, count: nat, want: nat,
             part: seq<Candidate>, hi: nat)
    requires Joined(t, all, done, per, count, want) && w !in done
    requires w * per < hi == Min(w * per + per, count) && Nearest(t, part, w * per, hi, want)
    ensures Joined(t, all + multiset(part), done + {w}, per, count, want)
  {
    var more, both := multiset(part), all + multiset(part);
    OthersOutside(t, all, done, w, per, count, want, hi);
    hide Dist, Cand, Settled;
    JoinGenuine(t, all, more, w * per, hi, count);
    forall c | c in both
      ensures Owned(c.slot, done + {w}, per)
    {
      if c !in all {
        assert c in more;
        assert InShard(c.slot, w, per) && w in done + {w};
      }
    }
    hide Genuine, Owned;
    forall s: nat | s < count && Owned(s, done + {w}, per)
      ensures Settled(t, both, s, want)
    {
      JoinSettles(t, all, done, w, per, count, want, part, hi, s);
    }
  }

  lemma JoinSettles(t: Task, all: multiset<Candidate>, done: set<nat>, w: nat, per: nat, count: nat, want: nat,
                    part: seq<Candidate>, hi: nat, s: nat)
    requires Joined(t, all, done, per, count, want)
    requires w * per < hi == Min(w * per + per, count) && Nearest(t, part, w * per, hi, want)
    requires s < count && Owned(s, done + {w}, per)
    ensures Settled(t, all + multiset(part), s, want)
  {
    hide Genuine, Settled, Nearest;
    if Owned(s, done, per) {
      SettledGrows(t, all, multiset(part), s, want);
    } else {
      ShardSettles(t, part, w * per, hi, want, s);
      SettledGrows(t, all, multiset(part), s, want);
    }
  }

  // ----- sorting and cutting

  /** In sorted order, anything closer than the j-th element lies before it. */
  lemma CloserComeFirst(s: seq<Candidate>, ties: bool, j: nat, p: multiset<Candidate>)
    requires Ordered(s, ties) && j < |s| && p <= multiset(s)
    requires forall c :: c in p ==> c.dist < s[j].dist
    ensures |p| <= j
  {
    var head, tail := s[..j], s[j..];
    assert s == head + tail;
    forall i | 0 <= i < |tail|
      ensures tail[i].dist >= s[j].dist
    {
      assert tail[i] == s[j + i];
      assert i > 0 ==> Before(s[j], s[j + i], ties);
    }
    assert forall c :: c in multiset(tail) ==> c in tail;
    forall c | c in p
      ensures p[c] <= multiset(head)[c]
    {
      assert c !in multiset(tail);
    }
    SubSize(p, multiset(head));
  }

  lemma CutSettled(t: Task, all: seq<Candidate>, want: nat, s: nat)
    requires Ordered(all, true) && Settled(t, multiset(all), s, want) && want <= |all|
    ensures Cand(t, s) in all[..want] || NotCloser(t, all[..want], s)
  {
    hide Dist, Cand;
    var best := all[..want];
    if Cand(t, s) in multiset(all) {
      var i :| 0 <= i < |all| && all[i] == Cand(t, s);
      assert Cand(t, s).dist == Dist(t, s) by {
        CandDist(t, s);
      }
      if i < want {
        assert best[i] == Cand(t, s);
      } else {
        assert forall j :: 0 <= j < want ==> Before(all[j], all[i], true);
      }
    } else {
      var p :| Beats(t, p, multiset(all), s, want);
      forall c | c in best
        ensures c.dist <= Dist(t, s)
      {
        var j :| 0 <= j < want && all[j] == c;
        if c.dist > Dist(t, s) {
          CloserComeFirst(all, true, j, p);
        }
      }
    }
  }

  lemma CandDist(t: Task, s: nat)
    ensures Cand(t, s) == Candidate(s, Dist(t, s))
  {
  }

  lemma EnoughFound(t: Task, all: seq<Candidate>, count: nat, want: nat)
    requires Genuine(t, multiset(all), 0, count)
    requires forall s: nat :: s < count ==> Settled(t, multiset(all), s, want)
    ensures Min(want, count) <= |all| <= count
  {
    GenuineWithin(t, multiset(all), 0, count);
    if |all| < count {
      hide Genuine, Cand;
      var s := Missing(t, multiset(all), count);
      assert Settled(t, multiset(all), s, want);
      var p :| Beats(t, p, multiset(all), s, want);
      SubSize(p, multiset(all));
    }
  }

  lemma ManyWhenAllIn(t: Task, m: multiset<Candidate>, count: nat)
    requires forall s: nat :: s < count ==> Cand(t, s) in m
    ensures |m| >= count
  {
    forall c | c in Everyone(t, 0, count)
      ensures Everyone(t, 0, count)[c] <= m[c]
    {
      EveryoneHas(t, 0, count, c);
    }
    SubSize(Everyone(t, 0, count), m);
  }

  lemma Missing(t: Task, m: multiset<Candidate>, count: nat) returns (s: nat)
    requires |m| < count
    ensures s < count && Cand(t, s) !in m
  {
    if forall s: nat :: s < count ==> Cand(t, s) in m {
      ManyWhenAllIn(t, m, count);
    }
    s :| s < count && Cand(t, s) !in m;
  }

  lemma CutIsNearest(t: Task, all: seq<Candidate>, count: nat, want: nat)
    requires want > 0 && Ordered(all, true) && Genuine(t, multiset(all), 0, count)
    requires forall s: nat :: s < count ==> Settled(t, multiset(all), s, want)
    ensures Nearest(t, if |all| > want then all[..want] else all, 0, count, want)
  {
    EnoughFound(t, all, count, want);
    hide Dist;
    if |all| > want {
      assert all == all[..want] + all[want..];
      GenuinePart(t, multiset(all[..want]), multiset(all), 0, count);
      forall s: nat | s < count
        ensures Cand(t, s) in all[..want] || NotCloser(t, all[..want], s)
      {
        CutSettled(t, all, want, s);
      }
    } else if |all| == count {
      AllTaken(t, all, 0, count);
    } else {
      assert all[..want] == all;
      forall s: nat | s < count
        ensures Cand(t, s) in all || NotCloser(t, all, s)
      {
        CutSettled(t, all, want, s);
      }
    }
  }

  // ----- the whole scan

  /** `order` lists the workers in the order they finish. */
  predicate Finishing(order: seq<nat>, workers: nat) {
    && |order| == workers
    && (forall k :: 0 <= k < workers ==> order[k] < workers)
    && (forall j, k :: 0 <= j < k < workers ==> order[j] != order[k])
  }

  lemma Shards(count: nat, workers: nat)
    requires count > 0 && workers > 0
    ensures var per := (count + workers - 1) / workers; per > 0 && workers * per >= count
  {
    var x := count + workers - 1;
    var per := x / workers;
    assert x == workers * per + x % workers;
  }

  lemma ShardOf(s: nat, per: nat, workers: nat)
    requires per > 0 && s < workers * per
    ensures s / per < workers && InShard(s, s / per, per)
  {
    var w := s / per;
    assert s == w * per + s % per;
    if w >= workers {
      Scale(workers, w, per);
    }
  }

  /** The workers that finished first. */
  ghost function Done(order: seq<nat>, k: nat): set<nat>
    requires k <= |order|
  {
    set j | 0 <= j < k :: order[j]
  }

  lemma NextDone(order: seq<nat>, workers: nat, k: nat)
    requires Finishing(order, workers) && k < workers
    ensures order[k] !in Done(order, k) && Done(order, k + 1) == Done(order, k) + {order[k]}
  {
  }

  lemma AllFinished(order: seq<nat>, workers: nat)
    requires Finishing(order, workers)
    ensures forall w: nat :: w < workers ==> w in Done(order, workers)
  {
    Image(order);
    assert Done(order, workers) <= Workers(workers);
    SameSize(Done(order, workers), Workers(workers));
  }

  function Workers(n: nat): (s: set<nat>)
    ensures |s| == n && forall w: nat :: w in s <==> w < n
  {
    if n == 0 then {} else Workers(n - 1) + {n - 1}
  }

  lemma {:induction false} Image(order: seq<nat>)
    requires forall j, k :: 0 <= j < k < |order| ==> order[j] != order[k]
    ensures |set k | 0 <= k < |order| :: order[k]| == |order|
    decreases |order|
  {
    if order != [] {
      var n := |order| - 1;
      Image(order[..n]);
      var rest := set k | 0 <= k < n :: order[..n][k];
      assert (set k | 0 <= k < |order| :: order[k]) == rest + {order[n]};
      assert order[n] !in rest;
    }
  }

  lemma SameSize(a: set<nat>, b: set<nat>)
    requires a <= b && |a| == |b|
    ensures a == b
  {
    assert b == a + (b - a);
  }

  lemma JoinedAll(t: Task, all: multiset<Candidate>, done: set<nat>, per: nat, count: nat, want: nat, workers: nat)
    requires Joined(t, all, done, per, count, want) && per > 0 && workers * per >= count
    requires forall w: nat :: w < workers ==> w in done
    ensures Genuine(t, all, 0, count) && forall s: nat :: s < count ==> Settled(t, all, s, want)
  {
    hide Genuine, Settled, InShard;
    forall s: nat | s < count
      ensures Settled(t, all, s, want)
    {
      ShardOf(s, per, workers);
      assert s / per in done && InShard(s, s / per, per);
    }
  }

  /** One worker: its shard's answer joins what the finished workers found. */
  method ScanShard(r: Reader, query: seq<bv8>, count: nat, codeBytes: nat, want: nat, per: nat, w: nat,
                   ghost done: set<nat>, all0: seq<Candidate>)
      returns (all: Option<seq<Candidate>>)
    requires want > 0 && per > 0 && |query| >= codeBytes && w !in done
    requires Joined(Task(r.data, query, codeBytes), multiset(all0), done, per, count, want)
    ensures all.Some? ==> Joined(Task(r.data, query, codeBytes), multiset(all.value), done + {w}, per, count, want)
    ensures Readable(r, 0, count, codeBytes) ==> all.Some?
  {
    hide Joined, Nearest, Ordered, Genuine, Dist;
    ghost var t := Task(r.data, query, codeBytes);
    var lo := w * per;
    var hi := lo + per;
    if hi > count {
      hi := count;
    }
    if lo >= hi {
      EmptyShard(t, multiset(all0), done, w, per, count, want);
      return Some(all0);
    }
    Scale(hi, count, codeBytes);
    var part := ScanRange(r, query, lo, hi, codeBytes, want);
    if part.None? {
      return None;
    }
    Join(t, multiset(all0), done, w, per, count, want, part.value, hi);
    assert multiset(all0 + part.value) == multiset(all0) + multiset(part.value);
    all := Some(all0 + part.value);
  }

  /** The scan over `procs` workers that finish in any order: the nearest slots, ordered by distance and
      then by slot; or an error when a shard's chunk could not be read. */
  method Scan(r: Reader, query: seq<bv8>, count: int, codeBytes: nat, want: int, procs: nat, order: seq<nat>)
      returns (res: Option<seq<Candidate>>)
    requires procs > 0 && |query| >= codeBytes
    requires count > 0 && want > 0 ==> Finishing(order, Min(procs, count))
    ensures count <= 0 || want <= 0 ==> res == Some([])
    ensures count > 0 && want > 0 && res.Some? ==>
      Nearest(Task(r.data, query, codeBytes), res.value, 0, count, want) && Ordered(res.value, true)
    ensures count > 0 && want > 0 && Readable(r, 0, count, codeBytes) ==> res.Some?
    ensures res.Some? ==>
      && |res.value| == Max(0, Min(want, count))
      && forall i, j :: 0 <= i < j < |res.value| ==>
           && res.value[i].slot != res.value[j].slot
           && (|| res.value[i].dist < res.value[j].dist
               || (res.value[i].dist == res.value[j].dist && res.value[i].slot < res.value[j].slot))
  {
    if count <= 0 || want <= 0 {
      return Some([]);
    }
    ghost var t := Task(r.data, query, codeBytes);
    var workers := procs;
    if workers > count {
      workers := count;
    }
    var per := (count + workers - 1) / workers;
    Shards(count, workers);

    var all: seq<Candidate>, failed := [], false;
    assert Joined(t, multiset(all), Done(order, 0), per, count, want);
    hide Joined, Nearest, Ordered, Genuine, Settled, Done, Readable;
    for k := 0 to workers
      invariant !failed ==> Joined(t, multiset(all), Done(order, k), per, count, want)
      invariant Readable(r, 0, count, codeBytes) ==> !failed
    {
      NextDone(order, workers, k);
      if !failed {
        var more := ScanShard(r, query, count, codeBytes, want, per, order[k], Done(order, k), all);
        if more.None? {
          failed := true;
        } else {
          all := more.value;
        }
      }
    }
    if failed {
      return None;
    }
    AllFinished(order, workers);
    JoinedAll(t, multiset(all), Done(order, workers), per, count, want, workers);
    var sorted := Sort(all, true);
    SettledByPermutation(t, all, sorted, count, want);
    CutIsNearest(t, sorted, count, want);
    CutOrdered(sorted, want);
    if |sorted| > want {
      sorted := sorted[..want];
    }
    InOrder(t, sorted, count, want);
    res := Some(sorted);
  }

  /** Nearest first, and of equally near ones the lower slot first. */
  lemma InOrder(t: Task, s: seq<Candidate>, count: nat, want: nat)
    requires Nearest(t, s, 0, count, want) && Ordered(s, true)
    ensures |s| == Min(want, count)
    ensures forall i, j :: 0 <= i < j < |s| ==>
      s[i].slot != s[j].slot && (s[i].dist < s[j].dist || (s[i].dist == s[j].dist && s[i].slot < s[j].slot))
  {
    hide Dist;
    forall i, j | 0 <= i < j < |s|
      ensures s[i].slot != s[j].slot && Before(s[i], s[j], true)
    {
      if s[i].slot == s[j].slot {
        assert s[i] in multiset(s) && s[j] in multiset(s);
        Sorting.Twice(s, i, j);
      }
    }
  }

  lemma SettledByPermutation(t: Task, all: seq<Candidate>, sorted: seq<Candidate>, count: nat, want: nat)
    requires multiset(sorted) == multiset(all) && Genuine(t, multiset(all), 0, count)
    requires forall s: nat :: s < count ==> Settled(t, multiset(all), s, want)
    ensures Genuine(t, multiset(sorted), 0, count)
    ensures forall s: nat :: s < count ==> Settled(t, multiset(sorted), s, want)
  {
  }

  lemma CutOrdered(s: seq<Candidate>, want: nat)
    requires Ordered(s, true)
    ensures |s| > want ==> Ordered(s[..want], true)
  {
  }

  // ----- compared with sorting everything

  function Dists(s: seq<Candidate>): (d: seq<nat>)
    ensures |d| == |s|
  {
    seq(|s|, i requires 0 <= i < |s| => s[i].dist)
  }

  lemma DistsWithout(s: seq<Candidate>, i: nat)
    requires i < |s|
    ensures multiset(Dists(s)) == multiset(Dists(Without(s, i))) + multiset{s[i].dist}
  {
    assert Dists(Without(s, i)) == Without(Dists(s), i);
    WithoutOne(Dists(s), i);
  }

  lemma {:induction false} DistsPermute(a: seq<Candidate>, b: seq<Candidate>)
    requires multiset(a) == multiset(b)
    ensures multiset(Dists(a)) == multiset(Dists(b))
    decreases |a|
  {
    assert |multiset(a)| == |a| && |multiset(b)| == |b|;
    if a != [] {
      assert a[0] in multiset(b);
      var i :| 0 <= i < |b| && b[i] == a[0];
      WithoutOne(a, 0);
      WithoutOne(b, i);
      DistsWithout(a, 0);
      DistsWithout(b, i);
      hide Dists, Without;
      DistsPermute(Without(a, 0), Without(b, i));
    }
  }

  ghost predicate NonDecreasing(d: seq<nat>) {
    forall i, j :: 0 <= i < j < |d| ==> d[i] <= d[j]
  }

  lemma {:induction false} OrderUnique(a: seq<nat>, b: seq<nat>)
    requires multiset(a) == multiset(b) && NonDecreasing(a) && NonDecreasing(b)
    ensures a == b
    decreases |a|
  {
    assert |multiset(a)| == |a| && |multiset(b)| == |b|;
    if a != [] {
      var n := |a| - 1;
      SameLast(a, b);
      hide NonDecreasing;
      OrderUnique(a[..n], b[..n]);
      assert a == a[..n] + [a[n]] && b == b[..n] + [b[n]];
    }
  }

  lemma SameLast(a: seq<nat>, b: seq<nat>)
    requires a != [] && |a| == |b| && multiset(a) == multiset(b) && NonDecreasing(a) && NonDecreasing(b)
    ensures var n := |a| - 1;
      a[n] == b[n] && NonDecreasing(a[..n]) && NonDecreasing(b[..n]) && multiset(a[..n]) == multiset(b[..n])
  {
    var n := |a| - 1;
    LastIsLargest(a);
    LastIsLargest(b);
    hide NonDecreasing;
    assert a[n] in multiset(b) && b[n] in multiset(a);
    assert Without(a, n) == a[..n] && Without(b, n) == b[..n];
    WithoutOne(a, n);
    WithoutOne(b, n);
  }

  lemma LastIsLargest(a: seq<nat>)
    requires a != [] && NonDecreasing(a)
    ensures forall x :: x in multiset(a) ==> x <= a[|a| - 1]
    ensures NonDecreasing(a[..|a| - 1])
  {
  }

  /** An ordered listing of what is left over. */
  lemma {:induction false} Listing(m: multiset<Candidate>) returns (s: seq<Candidate>)
    ensures multiset(s) == m
    decreases |m|
  {
    if |m| == 0 {
      s := [];
    } else {
      var c :| c in m;
      s := Listing(m - multiset{c});
      s := s + [c];
    }
  }

  /** The answer's distances are the first distances of the full sorted list of all slots. */
  lemma SameAsSortingAll(t: Task, best: seq<Candidate>, count: nat, want: nat, full: seq<Candidate>, ties: bool)
    requires Nearest(t, best, 0, count, want) && Ordered(best, true)
    requires multiset(full) == Everyone(t, 0, count) && Ordered(full, ties)
    ensures |best| <= |full| && Dists(best) == Dists(full)[..|best|]
  {
    GenuineWithin(t, multiset(best), 0, count);
    hide Everyone;
    var left := Listing(multiset(full) - multiset(best));
    var rest := Sorted(left, Order(true));
    assert forall i, j :: 0 <= i < j < |rest| ==> Order(true)(rest[i], rest[j]);
    forall c | c in rest
      ensures forall b :: b in best ==> b.dist <= c.dist
    {
      assert c in multiset(rest);
      LeftoverIsFar(t, best, count, want, c);
    }
    hide Nearest, Sorted;
    OrderJoin(best, rest);
    OrderedRises(full, ties);
    hide Ordered;
    SameDists(best, rest, full);
  }

  lemma OrderedRises(s: seq<Candidate>, ties: bool)
    requires Ordered(s, ties)
    ensures NonDecreasing(Dists(s))
  {
    forall i, j | 0 <= i < j < |s|
      ensures Dists(s)[i] <= Dists(s)[j]
    {
      assert Before(s[i], s[j], ties);
    }
  }

  lemma SameDists(best: seq<Candidate>, rest: seq<Candidate>, full: seq<Candidate>)
    requires multiset(best) <= multiset(full) && multiset(rest) == multiset(full) - multiset(best)
    requires NonDecreasing(Dists(best + rest)) && NonDecreasing(Dists(full))
    ensures |best| <= |full| && Dists(best) == Dists(full)[..|best|]
  {
    assert multiset(best + rest) == multiset(full);
    DistsPermute(best + rest, full);
    OrderUnique(Dists(best + rest), Dists(full));
    assert Dists(best + rest)[..|best|] == Dists(best);
  }

  lemma LeftoverIsFar(t: Task, best: seq<Candidate>, count: nat, want: nat, c: Candidate)
    requires Nearest(t, best, 0, count, want) && c in Everyone(t, 0, count) - multiset(best)
    ensures forall b :: b in best ==> b.dist <= c.dist
  {
    hide Dist;
    EveryoneHas(t, 0, count, c);
    assert c == Cand(t, c.slot) && c.slot < count;
    assert c !in multiset(best);
  }

  lemma OrderJoin(a: seq<Candidate>, b: seq<Candidate>)
    requires Ordered(a, true) && Ordered(b, true)
    requires forall y :: y in b ==> forall x :: x in a ==> x.dist <= y.dist
    ensures NonDecreasing(Dists(a + b))
  {
    forall i, j | 0 <= i < j < |a + b|
      ensures (a + b)[i].dist <= (a + b)[j].dist
    {
      if j < |a| {
        assert Before(a[i], a[j], true);
      } else if i >= |a| {
        assert Before(b[i - |a|], b[j - |a|], true);
      } else {
        assert b[j - |a|] in b && a[i] in a;
      }
    }
  }
}
