/**
 A search: candidate slots by binary code, their image ids without repetition, scores recomputed from
 the stored vectors, sorted and cut.
 */
module Searching {
  import opened Wrappers
  import Codes
  import FlatFiles
  import Scanning
  import Sorting

  type Vector = seq<real>

  datatype Match = Match(id: nat, score: real)

  datatype Error = DimensionMismatch | Unreadable | SourceFailed

  const OVERSAMPLE: nat := 4

  const MIN_CANDIDATES: nat := 40

  // ----- from slots to images

  /** The id stored at a slot, if the file reaches that far and the id is a valid one. */
  function IdAt(ids: seq<Byte>, slot: nat): Option<nat> {
    if 8 * slot + 8 <= |ids| then
      var stored := FlatFiles.FromLE(ids[8 * slot..8 * slot + 8]);
      if stored < FlatFiles.ID_LIMIT then Some(stored) else None
    else None
  }

  /** The id of a slot: eight bytes at eight times its number, the lowest first, below 2^63. */
  lemma IdIs(ids: seq<Byte>, slot: nat)
    ensures IdAt(ids, slot).Some? <==>
      && 8 * slot + 8 <= |ids|
      && FlatFiles.FromLE(ids[8 * slot..8 * slot + 8]) < 0x8000_0000_0000_0000
    ensures IdAt(ids, slot).Some? ==> IdAt(ids, slot).value == FlatFiles.FromLE(ids[8 * slot..8 * slot + 8])
  {
  }

  function SetOf(images: seq<nat>): set<nat> {
    set x | x in images
  }

  /** Every slot carries a valid id. */
  ghost predicate IdsGood(ids: seq<Byte>, count: nat) {
    forall s: nat :: s < count ==> IdAt(ids, s).Some?
  }

  /** The images some slots stand for. */
  ghost predicate Images(ids: seq<Byte>, found: seq<Scanning.Candidate>, n: nat, images: seq<nat>)
    requires n <= |found|
  {
    && (forall i, j :: 0 <= i < j < |images| ==> images[i] != images[j])
    && (forall k :: 0 <= k < n ==> IdAt(ids, found[k].slot).Some? && IdAt(ids, found[k].slot).value in images)
    && (forall x :: x in images ==> exists k :: 0 <= k < n && IdAt(ids, found[k].slot) == Some(x))
  }

  method Distinct(ids: seq<Byte>, found: seq<Scanning.Candidate>) returns (r: Option<seq<nat>>)
    ensures r.Some? ==> Images(ids, found, |found|, r.value)
    ensures r.Some? <==> forall k :: 0 <= k < |found| ==> IdAt(ids, found[k].slot).Some?
  {
    var seen: set<nat> := {};
    var images: seq<nat> := [];
    for k := 0 to |found|
      invariant Images(ids, found, k, images)
      invariant forall x :: x in seen <==> x in images
    {
      var id := IdAt(ids, found[k].slot);
      if id.None? {
        return None;
      }
      if id.value in seen {
        continue;
      }
      seen := seen + {id.value};
      images := images + [id.value];
      forall x | x in images
        ensures exists i :: 0 <= i < k + 1 && IdAt(ids, found[i].slot) == Some(x)
      {
        if x == id.value {
          assert IdAt(ids, found[k].slot) == Some(x);
        }
      }
    }
    r := Some(images);
  }

  // ----- scoring

  predicate Better(a: Match, b: Match) {
    a.score > b.score || (a.score == b.score && a.id <= b.id)
  }

  predicate Scorable(query: Vector, id: nat, stored: map<nat, Vector>) {
    id in stored && |stored[id]| == |query|
  }

  function Scored(query: Vector, id: nat, stored: map<nat, Vector>, score: (Vector, Vector) -> real): Match
    requires id in stored
  {
    Match(id, score(query, stored[id]))
  }

  /** The best answer over a pool of images: at most `limit` of them, best first, each with the score of its
      stored vector, and none that can be scored is left out unless the answer is full of better ones. */
  ghost predicate BestOf(query: Vector, pool: set<nat>, stored: map<nat, Vector>, score: (Vector, Vector) -> real,
                         limit: nat, out: seq<Match>) {
    && |out| <= limit
    && (forall i, j :: 0 <= i < j < |out| ==> Better(out[i], out[j]) && out[i].id != out[j].id)
    && (forall m :: m in out ==>
          m.id in pool && Scorable(query, m.id, stored) && m == Scored(query, m.id, stored, score))
    && (forall id :: id in pool && Scorable(query, id, stored) ==>
          Scored(query, id, stored, score) in out
          || (|out| == limit && forall m :: m in out ==> Better(m, Scored(query, id, stored, score))))
  }

  /** In scores and ids: no score rises from one to the next, equal scores come by rising id, and every scorable
      image of the pool that was left out scores no higher than any returned, or as high with a higher id. */
  ghost predicate Ranked(query: Vector, pool: set<nat>, stored: map<nat, Vector>, score: (Vector, Vector) -> real,
                         limit: nat, out: seq<Match>) {
    && |out| <= limit
    && (forall i, j :: 0 <= i < j < |out| ==>
          out[i].score >= out[j].score && (out[i].score == out[j].score ==> out[i].id < out[j].id))
    && (forall m :: m in out ==>
          m.id in pool && m.id in stored && |stored[m.id]| == |query| && m.score == score(query, stored[m.id]))
    && (forall id :: id in pool && id in stored && |stored[id]| == |query| && (forall m :: m in out ==> m.id != id) ==>
          |out| == limit && forall m :: m in out ==>
            m.score >= score(query, stored[id]) && (m.score == score(query, stored[id]) ==> m.id < id))
  }

  /** The best answer is exactly the one so ranked. */
  lemma BestIsRanked(query: Vector, pool: set<nat>, stored: map<nat, Vector>, score: (Vector, Vector) -> real,
                     limit: nat, out: seq<Match>)
    ensures BestOf(query, pool, stored, score, limit, out) <==> Ranked(query, pool, stored, score, limit, out)
  {
    if BestOf(query, pool, stored, score, limit, out) {
      BestRanks(query, pool, stored, score, limit, out);
    }
    if Ranked(query, pool, stored, score, limit, out) {
      RankedIsBest(query, pool, stored, score, limit, out);
    }
  }

  lemma BestRanks(query: Vector, pool: set<nat>, stored: map<nat, Vector>, score: (Vector, Vector) -> real,
                  limit: nat, out: seq<Match>)
    requires BestOf(query, pool, stored, score, limit, out)
    ensures Ranked(query, pool, stored, score, limit, out)
  {
    forall m | m in out
      ensures m == Match(m.id, score(query, stored[m.id]))
    {
      assert m == Scored(query, m.id, stored, score);
    }
    forall id | id in pool && id in stored && |stored[id]| == |query| && (forall m :: m in out ==> m.id != id)
      ensures Scored(query, id, stored, score) !in out
    {
      assert Scored(query, id, stored, score).id == id;
    }
  }

  lemma RankedIsBest(query: Vector, pool: set<nat>, stored: map<nat, Vector>, score: (Vector, Vector) -> real,
                     limit: nat, out: seq<Match>)
    requires Ranked(query, pool, stored, score, limit, out)
    ensures BestOf(query, pool, stored, score, limit, out)
  {
    forall id | id in pool && Scorable(query, id, stored)
      ensures Scored(query, id, stored, score) in out
        || (|out| == limit && forall m :: m in out ==> Better(m, Scored(query, id, stored, score)))
    {
      if m :| m in out && m.id == id {
        assert m == Scored(query, id, stored, score);
      }
    }
    forall i, j | 0 <= i < j < |out|
      ensures Better(out[i], out[j]) && out[i].id != out[j].id
    {
      assert out[i] in out && out[j] in out;
    }
  }

  function IdSet(s: seq<Match>): set<nat> {
    set m | m in s :: m.id
  }

  lemma {:induction false} IdSetSize(s: seq<Match>)
    requires forall i, j :: 0 <= i < j < |s| ==> s[i].id != s[j].id
    ensures |IdSet(s)| == |s|
    decreases |s|
  {
    if s != [] {
      var n := |s| - 1;
      IdSetSize(s[..n]);
      assert s == s[..n] + [s[n]];
      assert IdSet(s) == IdSet(s[..n]) + {s[n].id};
      assert s[n].id !in IdSet(s[..n]);
    }
  }

  lemma SubSetSize(a: set<nat>, b: set<nat>)
    requires a <= b
    ensures |a| <= |b|
  {
    assert b == a + (b - a);
  }

  lemma SameLength(query: Vector, pool: set<nat>, stored: map<nat, Vector>, score: (Vector, Vector) -> real,
                   limit: nat, a: seq<Match>, b: seq<Match>)
    requires BestOf(query, pool, stored, score, limit, a) && BestOf(query, pool, stored, score, limit, b)
    ensures |a| <= |b|
  {
    if |b| < limit {
      IdSetSize(a);
      IdSetSize(b);
      forall id | id in IdSet(a)
        ensures id in IdSet(b)
      {
        var m :| m in a && m.id == id;
        assert m == Scored(query, m.id, stored, score);
        assert m in b;
      }
      SubSetSize(IdSet(a), IdSet(b));
    }
  }

  lemma SameMembers(query: Vector, pool: set<nat>, stored: map<nat, Vector>, score: (Vector, Vector) -> real,
                    limit: nat, a: seq<Match>, b: seq<Match>)
    requires BestOf(query, pool, stored, score, limit, a) && BestOf(query, pool, stored, score, limit, b)
    ensures forall m :: m in a ==> m in b
  {
    SameLength(query, pool, stored, score, limit, a, b);
    SameLength(query, pool, stored, score, limit, b, a);
    forall m | m in a
      ensures m in b
    {
      assert m == Scored(query, m.id, stored, score);
      if m !in b {
        var other := Extra(a, b, m);
        assert other == Scored(query, other.id, stored, score);
        assert Better(m, other) && Better(other, m);
      }
    }
  }

  /** Of two equally long answers, one lacking an element of the other has an element the other lacks. */
  lemma Extra(a: seq<Match>, b: seq<Match>, m: Match) returns (other: Match)
    requires |a| == |b| && m in a && m !in b
    requires forall i, j :: 0 <= i < j < |a| ==> a[i].id != a[j].id
    requires forall i, j :: 0 <= i < j < |b| ==> b[i].id != b[j].id
    ensures other in b && other !in a
  {
    if forall x :: x in b ==> x in a {
      DistinctElements(a);
      DistinctElements(b);
      assert m in multiset(a) && m !in multiset(b);
      Sorting.SubSize(multiset(b), multiset(a));
    }
    other :| other in b && other !in a;
  }

  lemma DistinctElements(s: seq<Match>)
    requires forall i, j :: 0 <= i < j < |s| ==> s[i].id != s[j].id
    ensures forall m :: m in s ==> multiset(s)[m] == 1
  {
    forall m | m in s
      ensures multiset(s)[m] == 1
    {
      var k :| 0 <= k < |s| && s[k] == m;
      Sorting.Once(s, k);
    }
  }

  lemma BothWaysIsSame(a: Match, b: Match)
    requires Better(a, b) && Better(b, a)
    ensures a == b
  {
  }

  lemma {:induction false} AgreeAt(a: seq<Match>, b: seq<Match>, k: nat)
    requires k <= |a| == |b|
    requires forall i, j :: 0 <= i < j < |a| ==> Better(a[i], a[j]) && a[i].id != a[j].id
    requires forall i, j :: 0 <= i < j < |b| ==> Better(b[i], b[j]) && b[i].id != b[j].id
    requires (forall m :: m in a ==> m in b) && (forall m :: m in b ==> m in a)
    ensures a[..k] == b[..k]
  {
    hide Better;
    if k > 0 {
      AgreeAt(a, b, k - 1);
      var n := k - 1;
      assert forall j :: 0 <= j < n ==> a[j] == a[..n][j] == b[..n][j] == b[j];
      assert a[n] in b && b[n] in a;
      var i :| 0 <= i < |b| && b[i] == a[n];
      var j :| 0 <= j < |a| && a[j] == b[n];
      assert i >= n && j >= n;
      if i > n && j > n {
        BothWaysIsSame(a[n], b[n]);
      }
      assert a[..k] == a[..n] + [a[n]] && b[..k] == b[..n] + [b[n]];
    }
  }

  /** A pool has only one best answer. */
  lemma BestIsUnique(query: Vector, pool: set<nat>, stored: map<nat, Vector>, score: (Vector, Vector) -> real,
                     limit: nat, a: seq<Match>, b: seq<Match>)
    requires BestOf(query, pool, stored, score, limit, a) && BestOf(query, pool, stored, score, limit, b)
    ensures a == b
  {
    SameLength(query, pool, stored, score, limit, a, b);
    SameLength(query, pool, stored, score, limit, b, a);
    SameMembers(query, pool, stored, score, limit, a, b);
    SameMembers(query, pool, stored, score, limit, b, a);
    AgreeAt(a, b, |a|);
    assert a[..|a|] == a && b[..|b|] == b;
  }

  // ----- rescoring

  function Order(): (Match, Match) -> bool {
    (a: Match, b: Match) => Better(a, b)
  }

  /** The scorable ones among the first n images, in their order. */
  function Scores(query: Vector, images: seq<nat>, stored: map<nat, Vector>, score: (Vector, Vector) -> real)
    : (s: seq<Match>)
  {
    if images == [] then []
    else
      var n := |images| - 1;
      var s := Scores(query, images[..n], stored, score);
      if Scorable(query, images[n], stored) then s + [Scored(query, images[n], stored, score)] else s
  }

  lemma {:induction false} ScoresHave(query: Vector, images: seq<nat>, stored: map<nat, Vector>,
                                      score: (Vector, Vector) -> real, m: Match)
    requires forall i, j :: 0 <= i < j < |images| ==> images[i] != images[j]
    ensures multiset(Scores(query, images, stored, score))[m]
      == if m.id in images && Scorable(query, m.id, stored) && m == Scored(query, m.id, stored, score) then 1 else 0
    decreases |images|
  {
    if images != [] {
      var n := |images| - 1;
      ScoresHave(query, images[..n], stored, score, m);
      assert images == images[..n] + [images[n]];
      assert images[n] !in images[..n];
    }
  }

  method Rescore(query: Vector, images: seq<nat>, originals: map<nat, Vector>, limit: nat,
                 score: (Vector, Vector) -> real)
      returns (out: seq<Match>)
    requires forall i, j :: 0 <= i < j < |images| ==> images[i] != images[j]
    ensures BestOf(query, SetOf(images), originals, score, limit, out)
    ensures |out| <= limit
    ensures forall i, j :: 0 <= i < j < |out| ==>
      out[i].score >= out[j].score && (out[i].score == out[j].score ==> out[i].id < out[j].id)
    ensures Ranked(query, SetOf(images), originals, score, limit, out)
  {
    out := [];
    assert images[..0] == [];
    for k := 0 to |images|
      invariant out == Scores(query, images[..k], originals, score)
    {
      var id := images[k];
      assert images[..k + 1][..k] == images[..k];
      if id !in originals || |originals[id]| != |query| {
        continue;
      }
      out := out + [Match(id, score(query, originals[id]))];
    }
    assert images[..|images|] == images;
    ghost var all := out;
    out := Sorting.Sort(out, Order());
    SortedScores(query, images, originals, score, all, out);
    CutIsBest(query, images, originals, score, limit, out);
    if |out| > limit {
      out := out[..limit];
    }
    hide BestOf;
    BestIsRanked(query, SetOf(images), originals, score, limit, out);
  }

  ghost predicate AllScored(query: Vector, images: seq<nat>, stored: map<nat, Vector>,
                            score: (Vector, Vector) -> real, s: seq<Match>) {
    && (forall i, j :: 0 <= i < j < |s| ==> Better(s[i], s[j]) && s[i].id != s[j].id)
    && (forall m :: m in s <==>
          m.id in images && Scorable(query, m.id, stored) && m == Scored(query, m.id, stored, score))
  }

  lemma SortedScores(query: Vector, images: seq<nat>, stored: map<nat, Vector>, score: (Vector, Vector) -> real,
                     all: seq<Match>, sorted: seq<Match>)
    requires forall i, j :: 0 <= i < j < |images| ==> images[i] != images[j]
    requires all == Scores(query, images, stored, score)
    requires multiset(sorted) == multiset(all) && Sorting.Ordered(sorted, Order())
    ensures AllScored(query, images, stored, score, sorted)
  {
    forall m: Match
      ensures m in sorted <==>
        m.id in images && Scorable(query, m.id, stored) && m == Scored(query, m.id, stored, score)
    {
      ScoresHave(query, images, stored, score, m);
      assert m in sorted <==> m in multiset(sorted);
    }
    forall i, j | 0 <= i < j < |sorted|
      ensures Better(sorted[i], sorted[j]) && sorted[i].id != sorted[j].id
    {
      assert Order()(sorted[i], sorted[j]);
      if sorted[i].id == sorted[j].id {
        assert sorted[i] in sorted && sorted[j] in sorted;
        ScoresHave(query, images, stored, score, sorted[i]);
        Sorting.Twice(sorted, i, j);
      }
    }
  }

  lemma CutIsBest(query: Vector, images: seq<nat>, stored: map<nat, Vector>, score: (Vector, Vector) -> real,
                  limit: nat, s: seq<Match>)
    requires AllScored(query, images, stored, score, s)
    ensures BestOf(query, SetOf(images), stored, score, limit, if |s| > limit then s[..limit] else s)
  {
    var out := if |s| > limit then s[..limit] else s;
    forall id | id in images && Scorable(query, id, stored)
      ensures Scored(query, id, stored, score) in out
        || (|out| == limit && forall m :: m in out ==> Better(m, Scored(query, id, stored, score)))
    {
      assert Scored(query, id, stored, score) in s;
    }
    assert forall m :: m in out ==> m in s;
  }

  // ----- the whole search

  /** The current vectors of some images: one read of the store. */
  function Restrict(stored: map<nat, Vector>, images: seq<nat>): map<nat, Vector> {
    map id | id in images && id in stored :: stored[id]
  }

  function Want(limit: nat): (want: nat)
    ensures want >= MIN_CANDIDATES && want >= OVERSAMPLE * limit
  {
    if limit * OVERSAMPLE < MIN_CANDIDATES then MIN_CANDIDATES else limit * OVERSAMPLE
  }

  /** The images of every slot. */
  ghost function Everything(ids: seq<Byte>, count: nat): set<nat> {
    set s: nat | s < count && IdAt(ids, s).Some? :: IdAt(ids, s).value
  }

  lemma BestInStore(query: Vector, images: seq<nat>, stored: map<nat, Vector>, score: (Vector, Vector) -> real,
                    limit: nat, out: seq<Match>)
    requires BestOf(query, SetOf(images), Restrict(stored, images), score, limit, out)
    ensures BestOf(query, SetOf(images), stored, score, limit, out)
  {
    var few := Restrict(stored, images);
    assert forall id :: id in images ==> (Scorable(query, id, few) <==> Scorable(query, id, stored));
    assert forall id :: id in images && id in stored ==> few[id] == stored[id];
  }

  /** Slots the scan found, when it can find all of them, are all slots. */
  lemma AllSlotsFound(t: Scanning.Task, found: seq<Scanning.Candidate>, count: nat, want: nat)
    requires count <= want && Scanning.Nearest(t, found, 0, count, want)
    ensures forall s: nat :: s < count ==> Scanning.Cand(t, s) in found
    ensures forall c :: c in found ==> c.slot < count
  {
    Scanning.AllTaken(t, found, 0, count);
    assert forall c :: c in found ==> c in multiset(found);
  }

  lemma EverythingIsSeen(t: Scanning.Task, ids: seq<Byte>, found: seq<Scanning.Candidate>, count: nat,
                         want: nat, images: seq<nat>)
    requires count <= want && Considered(t, ids, count, want, found, images)
    ensures SetOf(images) == Everything(ids, count)
  {
    AllSlotsFound(t, found, count, want);
    hide Scanning.Nearest, Scanning.Dist;
    forall s: nat | s < count && IdAt(ids, s).Some?
      ensures IdAt(ids, s).value in images
    {
      var k :| 0 <= k < |found| && found[k] == Scanning.Cand(t, s);
      assert found[k].slot == s;
    }
    forall x | x in images
      ensures x in Everything(ids, count)
    {
      var k :| 0 <= k < |found| && IdAt(ids, found[k].slot) == Some(x);
      assert found[k] in found;
    }
  }

  ghost predicate Considered(t: Scanning.Task, ids: seq<Byte>, count: nat, want: nat,
                             found: seq<Scanning.Candidate>, images: seq<nat>) {
    Scanning.Nearest(t, found, 0, count, want) && Images(ids, found, |found|, images)
  }

  /** The images of the slots nearest by code, each once. */
  method Candidates(r: Scanning.Reader, ids: seq<Byte>, code: seq<bv8>, count: nat, codeBytes: nat,
                    want: nat, procs: nat, order: seq<nat>)
      returns (images: Option<seq<nat>>, ghost found: seq<Scanning.Candidate>)
    requires procs > 0 && want > 0 && |code| == codeBytes
    requires count > 0 ==> Scanning.Finishing(order, Min(procs, count))
    ensures images.Some? ==>
      Considered(Scanning.Task(r.data, code, codeBytes), ids, count, want, found, images.value)
    ensures IdsGood(ids, count) && Scanning.Readable(r, 0, count, codeBytes) ==> images.Some?
  {
    found := [];
    if count == 0 {
      return Some([]), [];
    }
    var scanned := Scanning.Scan(r, code, count, codeBytes, want, procs, order);
    if scanned.None? {
      return None, [];
    }
    found := scanned.value;
    images := Distinct(ids, scanned.value);
    FoundWithin(Scanning.Task(r.data, code, codeBytes), scanned.value, count, want);
  }

  lemma FoundWithin(t: Scanning.Task, found: seq<Scanning.Candidate>, count: nat, want: nat)
    requires Scanning.Nearest(t, found, 0, count, want)
    ensures forall k :: 0 <= k < |found| ==> found[k].slot < count
  {
    assert forall k :: 0 <= k < |found| ==> found[k] in multiset(found);
  }

  /** A search over `count` slots. With a readable index and source it answers with the best of the images
      it considered, scored by their current vectors; those are the images of the slots nearest by code, and
      all images when there are no more slots than candidates. */
  method Search(r: Scanning.Reader, ids: seq<Byte>, stored: Option<map<nat, Vector>>, vectorSize: nat,
                count: nat, vector: Vector, limit: int, score: (Vector, Vector) -> real, procs: nat, order: seq<nat>)
      returns (res: Result<seq<Match>, Error>, ghost found: seq<Scanning.Candidate>, ghost images: seq<nat>)
    requires procs > 0 && (count > 0 ==> Scanning.Finishing(order, Min(procs, count)))
    ensures limit <= 0 ==> res == Success([])
    ensures limit > 0 && |vector| != vectorSize ==> res == Failure(DimensionMismatch)
    ensures limit > 0 && |vector| == vectorSize && res.Success? && stored.Some? ==>
      var codeBytes := (vectorSize + 7) / 8;
      && Considered(Scanning.Task(r.data, Codes.Encoded(vector, codeBytes), codeBytes), ids, count, Want(limit),
                    found, images)
      && BestOf(vector, SetOf(images), stored.value, score, limit, res.value)
      && (count <= Want(limit) ==> BestOf(vector, Everything(ids, count), stored.value, score, limit, res.value))
    ensures res.Success? ==> |res.value| <= Max(limit, 0) && forall i, j :: 0 <= i < j < |res.value| ==>
      && res.value[i].score >= res.value[j].score
      && (res.value[i].score == res.value[j].score ==> res.value[i].id < res.value[j].id)
    ensures limit > 0 && |vector| == vectorSize && res.Success? && stored.Some? ==>
      && |found| == Min(count, Max(40, 4 * limit))
      && Ranked(vector, SetOf(images), stored.value, score, limit, res.value)
      && (count <= 40 || count <= 4 * limit ==>
            Ranked(vector, Everything(ids, count), stored.value, score, limit, res.value))
    ensures limit > 0 && |vector| == vectorSize && res.Success? && stored.None? ==> res.value == [] && images == []
    ensures (limit > 0 && |vector| == vectorSize && stored.Some? && IdsGood(ids, count)
      && Scanning.Readable(r, 0, count, (vectorSize + 7) / 8)) ==> res.Success?
  {
    hide BestOf, Ranked, Considered, Everything, IdsGood, Scanning.Readable, Scanning.Finishing;
    found, images := [], [];
    if limit <= 0 {
      return Success([]), [], [];
    }
    if |vector| != vectorSize {
      return Failure(DimensionMismatch), [], [];
    }
    var codeBytes := (vectorSize + 7) / 8;
    var want := limit * OVERSAMPLE;
    if want < MIN_CANDIDATES {
      want := MIN_CANDIDATES;
    }
    var code := Codes.Encode(vector, codeBytes);
    ghost var t := Scanning.Task(r.data, code, codeBytes);
    var considered;
    considered, found := Candidates(r, ids, code, count, codeBytes, want, procs, order);
    if considered.None? {
      return Failure(Unreadable), found, [];
    }
    images := considered.value;
    ConsideredDistinct(t, ids, count, want, found, images);
    assert |found| == Min(want, count) by {
      FoundSize(t, ids, count, want, found, images);
    }
    if considered.value == [] {
      if stored.Some? {
        NothingToScore(vector, stored.value, score, limit);
        BestIsRanked(vector, SetOf(images), stored.value, score, limit, []);
        BestIsRanked(vector, Everything(ids, count), stored.value, score, limit, []);
        if count <= want {
          EverythingIsSeen(t, ids, found, count, want, images);
        }
      }
      return Success([]), found, images;
    }
    if stored.None? {
      return Failure(SourceFailed), found, images;
    }
    var out := Rescore(vector, considered.value, Restrict(stored.value, considered.value), limit, score);
    BestInStore(vector, images, stored.value, score, limit, out);
    if count <= want {
      EverythingIsSeen(t, ids, found, count, want, images);
    }
    BestIsRanked(vector, SetOf(images), stored.value, score, limit, out);
    BestIsRanked(vector, Everything(ids, count), stored.value, score, limit, out);
    OrderedByScore(vector, SetOf(images), stored.value, score, limit, out);
    res := Success(out);
  }

  lemma ConsideredDistinct(t: Scanning.Task, ids: seq<Byte>, count: nat, want: nat,
                           found: seq<Scanning.Candidate>, images: seq<nat>)
    requires Considered(t, ids, count, want, found, images)
    ensures forall i, j :: 0 <= i < j < |images| ==> images[i] != images[j]
  {
  }

  lemma FoundSize(t: Scanning.Task, ids: seq<Byte>, count: nat, want: nat,
                  found: seq<Scanning.Candidate>, images: seq<nat>)
    requires Considered(t, ids, count, want, found, images)
    ensures |found| == Min(want, count)
  {
  }

  lemma OrderedByScore(query: Vector, pool: set<nat>, stored: map<nat, Vector>, score: (Vector, Vector) -> real,
                       limit: nat, out: seq<Match>)
    requires BestOf(query, pool, stored, score, limit, out)
    ensures |out| <= limit && forall i, j :: 0 <= i < j < |out| ==>
      out[i].score >= out[j].score && (out[i].score == out[j].score ==> out[i].id < out[j].id)
  {
  }

  lemma NothingToScore(query: Vector, stored: map<nat, Vector>, score: (Vector, Vector) -> real, limit: nat)
    ensures BestOf(query, SetOf([]), stored, score, limit, [])
  {
  }

  /** When every slot is a candidate, the answer is the head of the full ranking of every image, whatever
      the workers and the order they finished in. */
  lemma SmallIndexIsExact(ids: seq<Byte>, stored: map<nat, Vector>, count: nat, vector: Vector, limit: nat,
                          score: (Vector, Vector) -> real, answer: seq<Match>, exhaustive: seq<Match>)
    requires BestOf(vector, Everything(ids, count), stored, score, limit, answer)
    requires AllScored(vector, Listed(Everything(ids, count)), stored, score, exhaustive)
    ensures answer == if |exhaustive| > limit then exhaustive[..limit] else exhaustive
    ensures forall i, j :: 0 <= i < j < |answer| ==>
      answer[i].score >= answer[j].score && (answer[i].score == answer[j].score ==> answer[i].id < answer[j].id)
  {
    var pool := Everything(ids, count);
    CutIsBest(vector, Listed(pool), stored, score, limit, exhaustive);
    BestIsUnique(vector, pool, stored, score, limit, answer,
                 if |exhaustive| > limit then exhaustive[..limit] else exhaustive);
  }

  /** The elements of a set, in some order. */
  ghost function Listed(s: set<nat>): (l: seq<nat>)
    ensures SetOf(l) == s
  {
    if s == {} then [] else
      var x :| x in s;
      assert SetOf([x] + Listed(s - {x})) == {x} + SetOf(Listed(s - {x}));
      [x] + Listed(s - {x})
  }
}
