/**
 The calls themselves, run with no other writer: submitting a batch, rebuilding the index from the vector
 table, and re-embedding from thumbnails. Any operation on the table or the index may fail.
 */
module IngestCalls {
  import opened Wrappers
  import opened Ingesting
  import opened Sorting

  datatype Named = Named(model: string, values: Vector)

  /** A processed image with its row id and its vectors. */
  datatype Item = Item(image: nat, vectors: seq<Named>)

  /** What re-embedding one thumbnail gives. */
  datatype Fate = Embedded(values: Vector) | ThumbGone | EmbedFailed

  datatype Error = Mismatch | Unavailable

  // ----- pages of a set

  /** The first `limit` members of a set in rising order, as ORDER BY and LIMIT give them. */
  ghost predicate FirstOf(all: set<nat>, limit: nat, page: seq<nat>) {
    && Rising(page) && |page| <= limit && Elements(page) <= all
    && forall x :: x in all && x !in page ==> |page| == limit && forall y :: y in page ==> y < x
  }

  method List(all: set<nat>) returns (s: seq<nat>)
    ensures Elements(s) == all && forall i, j :: 0 <= i < j < |s| ==> s[i] != s[j]
  {
    s := [];
    var rest := all;
    while rest != {}
      invariant rest <= all && Elements(s) == all - rest
      invariant forall i, j :: 0 <= i < j < |s| ==> s[i] != s[j]
      decreases |rest|
    {
      var x :| x in rest;
      assert x !in s;
      rest := rest - {x};
      assert Elements(s + [x]) == Elements(s) + {x};
      s := s + [x];
    }
  }

  method First(all: set<nat>, limit: nat) returns (page: seq<nat>)
    ensures FirstOf(all, limit, page)
  {
    var s := List(all);
    page := Sort(s, AtMost());
    SortedRises(s, page);
    if |page| > limit {
      ghost var whole := page;
      page := page[..limit];
      forall x | x in all && x !in page
        ensures forall y :: y in page ==> y < x
      {
        assert x in whole;
      }
    }
  }

  // ----- the store

  /** Images of a model whose vectors wait to be indexed. */
  function Waiting(rows: map<Key, Row>, model: string): set<nat> {
    set k | k in rows && k.model == model && !rows[k].indexed :: k.image
  }

  /** All vectors of some models that wait to be indexed. */
  function Backlog(rows: map<Key, Row>, models: set<string>): set<Key> {
    set k | k in rows && k.model in models && !rows[k].indexed
  }

  function KeysOf(images: seq<nat>, model: string): set<Key> {
    set x | x in images :: Key(x, model)
  }

  lemma KeysSize(images: seq<nat>, model: string)
    requires Rising(images)
    ensures |KeysOf(images, model)| == |images|
    decreases |images|
  {
    if images != [] {
      var n := |images| - 1;
      KeysSize(images[..n], model);
      assert images == images[..n] + [images[n]];
      assert KeysOf(images, model) == KeysOf(images[..n], model) + {Key(images[n], model)};
      assert Key(images[n], model) !in KeysOf(images[..n], model);
    }
  }

  /** Same vectors, possibly with other marks. */
  ghost predicate SameVectors(a: map<Key, Row>, b: map<Key, Row>) {
    a.Keys == b.Keys && forall k :: k in a ==> a[k].value == b[k].value
  }

  /** Marks only appear, and only on rows whose own vector is in the index. */
  ghost predicate MarksEarned(home: map<string, string>, a: map<Key, Row>, b: map<Key, Row>, index: set<Entry>) {
    forall k :: k in a && k in b && b[k].indexed != a[k].indexed ==>
      b[k].indexed && k.model in home && Entry(home[k.model], k.image, b[k].value) in index
  }

  class Store {
    /** Registered models and their collections. */
    const home: map<string, string>
    /** Images that have a thumbnail. */
    const thumbs: set<nat>
    var rows: map<Key, Row>
    var index: set<Entry>
    /** Operations left before everything fails, if it ever does. */
    var life: Option<nat>

    constructor (home: map<string, string>, thumbs: set<nat>, rows: map<Key, Row>, index: set<Entry>, life: Option<nat>)
      ensures this.home == home && this.thumbs == thumbs && this.rows == rows && this.index == index
      ensures this.life == life
    {
      this.home, this.thumbs, this.rows, this.index, this.life := home, thumbs, rows, index, life;
    }

    method Operation() returns (ok: bool)
      modifies this`life
      ensures old(life).None? ==> ok && life.None?
    {
      match life
      case None => ok := true;
      case Some(n) =>
        ok := n > 0;
        if ok {
          life := Some(n - 1);
        }
    }

    method SaveVectorBatch(items: map<Key, Vector>) returns (ok: bool)
      modifies this`rows, this`life
      ensures old(life).None? ==> ok && life.None?
      ensures rows == if ok then Saved(old(rows), items) else old(rows)
    {
      ok := Operation();
      if ok {
        rows := Saved(rows, items);
      }
    }

    method MarkIndexedBatch(keys: set<Key>) returns (ok: bool)
      modifies this`rows, this`life
      ensures old(life).None? ==> ok && life.None?
      ensures rows == if ok then Marked(old(rows), keys) else old(rows)
    {
      ok := Operation();
      if ok {
        rows := Marked(rows, keys);
      }
    }

    /** A failed append may have added some of its points. */
    method Upsert(points: set<Entry>) returns (ok: bool)
      modifies this`index, this`life
      ensures old(life).None? ==> ok && life.None?
      ensures old(index) <= index <= old(index) + points && (ok ==> index == old(index) + points)
    {
      ok := Operation();
      if ok {
        index := index + points;
      } else {
        assert {} <= points;
        var part: set<Entry> :| part <= points;
        index := index + part;
      }
    }

    method PendingVectors(model: string, limit: nat) returns (page: Option<seq<nat>>)
      modifies this`life
      ensures old(life).None? ==> page.Some? && life.None?
      ensures page.Some? ==> FirstOf(Waiting(rows, model), limit, page.value)
    {
      var ok := Operation();
      if !ok {
        return None;
      }
      var images := First(Waiting(rows, model), limit);
      page := Some(images);
    }

    /** Fill the index for each model until nothing of it waits. The count returned is exactly how many
        vectors stopped waiting, also when an operation fails; without failures nothing is left waiting, so it
        is the number that waited at the start. */
    method RebuildIndex(models: seq<string>, batchSize: int) returns (total: nat, ok: bool)
      requires forall m :: m in models ==> m in home
      modifies this`rows, this`index, this`life
      ensures old(life).None? ==> ok
      ensures SameVectors(old(rows), rows) && old(index) <= index && MarksEarned(home, old(rows), rows, index)
      ensures var ms := set m | m in models;
        total == |Backlog(old(rows), ms)| - |Backlog(rows, ms)| && (ok ==> Backlog(rows, ms) == {})
    {
      var size := if batchSize <= 0 then 512 else batchSize;
      total := 0;
      ghost var ms := set m | m in models;
      for i := 0 to |models|
        invariant old(life).None? ==> life.None?
        invariant SameVectors(old(rows), rows) && old(index) <= index && MarksEarned(home, old(rows), rows, index)
        invariant total == |Backlog(old(rows), ms)| - |Backlog(rows, ms)|
        invariant forall j :: 0 <= j < i ==> Waiting(rows, models[j]) == {}
      {
        var more;
        more, ok := RebuildModel(models[i], size, ms);
        total := total + more;
        if !ok {
          return;
        }
      }
      ok := true;
      NothingWaits(rows, models);
    }

    /** One model of a rebuild. */
    method RebuildModel(model: string, size: nat, ghost ms: set<string>) returns (total: nat, ok: bool)
      requires model in home && model in ms && size > 0
      modifies this`rows, this`index, this`life
      ensures old(life).None? ==> ok && life.None?
      ensures SameVectors(old(rows), rows) && old(index) <= index && MarksEarned(home, old(rows), rows, index)
      ensures forall m :: Waiting(rows, m) <= Waiting(old(rows), m)
      ensures total == |Backlog(old(rows), ms)| - |Backlog(rows, ms)| && (ok ==> Waiting(rows, model) == {})
    {
      total := 0;
      ok := Operation();
      if !ok {
        return;
      }
      while true
        invariant old(life).None? ==> life.None?
        invariant SameVectors(old(rows), rows) && old(index) <= index && MarksEarned(home, old(rows), rows, index)
        invariant forall m :: Waiting(rows, m) <= Waiting(old(rows), m)
        invariant total == |Backlog(old(rows), ms)| - |Backlog(rows, ms)|
        decreases |Backlog(rows, ms)|
      {
        var pending := PendingVectors(model, size);
        if pending.None? {
          return total, false;
        }
        var page := pending.value;
        if page == [] {
          return total, true;
        }
        PageKeys(rows, model, size, page);
        var points := set x | x in page :: Entry(home[model], x, rows[Key(x, model)].value);
        ok := Upsert(points);
        if !ok {
          return;
        }
        ghost var before := rows;
        ok := MarkIndexedBatch(KeysOf(page, model));
        if !ok {
          return;
        }
        MarkedPage(home, before, model, page, ms, index);
        EarnedAgain(home, old(rows), before, rows, index);
        total := total + |page|;
      }
    }

    // ----- submitting

    /** Add points collection by collection; every collection is attempted even when one fails. */
    method UpsertCollections(points: set<Entry>) returns (ok: bool)
      modifies this`index, this`life
      ensures old(life).None? ==> ok && life.None?
      ensures old(index) <= index <= old(index) + points && (ok ==> index == old(index) + points)
    {
      ok := true;
      var rest := set e | e in points :: e.collection;
      while rest != {}
        invariant old(life).None? ==> ok && life.None?
        invariant old(index) <= index <= old(index) + points
        invariant ok ==> forall e :: e in points && e.collection !in rest ==> e in index
        decreases |rest|
      {
        var c :| c in rest;
        var one := Upsert(set e | e in points && e.collection == c);
        ok := ok && one;
        rest := rest - {c};
      }
    }

    /** A batch with a missing, wrong-sized or unregistered vector changes nothing. A batch that is accepted is
        saved and indexed whole, and marked unless only the marking failed. One that fails later is still
        waiting in the table, or nothing of it was saved. */
    method Submit(batch: seq<Item>, sizes: map<string, nat>) returns (r: Result<(), Error>)
      requires sizes.Keys == home.Keys
      modifies this`rows, this`index, this`life
      ensures r == Failure(Mismatch) <==> batch != [] && !Acceptable(batch, sizes)
      ensures !Acceptable(batch, sizes) ==> rows == old(rows) && index == old(index)
      ensures old(life).None? && Acceptable(batch, sizes) ==> r.Success?
      ensures r.Success? && batch != [] ==>
        && Acceptable(batch, sizes) && index == old(index) + Offered(batch, home)
        && (|| rows == Saved(old(rows), Carried(batch))
            || rows == Marked(Saved(old(rows), Carried(batch)), Carried(batch).Keys))
        && (old(life).None? ==> rows == Marked(Saved(old(rows), Carried(batch)), Carried(batch).Keys))
      ensures r == Failure(Unavailable) ==>
        (rows == old(rows) && index == old(index)) || rows == Saved(old(rows), Carried(batch))
    {
      if batch == [] {
        AcceptableNone(sizes);
        return Success(());
      }
      if !(forall i :: 0 <= i < |batch| ==> Valid(batch[i].vectors, sizes)) {
        return Failure(Mismatch);
      }
      if !(forall i :: 0 <= i < |batch| ==> forall v :: v in batch[i].vectors ==> v.model in home) {
        return Failure(Mismatch);
      }
      var items := Carried(batch);
      var ok := SaveVectorBatch(items);
      if !ok {
        return Failure(Unavailable);
      }
      ok := UpsertCollections(Offered(batch, home));
      if !ok {
        return Failure(Unavailable);
      }
      MarkedAreCarried(batch, sizes);
      var marked := MarkIndexedBatch(set i, m | 0 <= i < |batch| && m in home :: Key(batch[i].image, m));
      r := Success(());
    }

    // ----- re-embedding

    /** Images with a thumbnail but without a vector of the model. */
    ghost function Missing(model: string): set<nat>
      reads this
    {
      Absent(thumbs, rows, model)
    }

    /** A page of thumbnails beyond a cursor, and those of them without a vector; a next cursor of zero means
        there are no more. */
    method ThumbsMissingVector(model: string, after: nat, limit: int) returns (r: Option<(seq<nat>, nat)>)
      requires 0 !in thumbs
      modifies this`life
      ensures old(life).None? ==> r.Some? && life.None?
      ensures r.Some? && r.value.1 == 0 ==> (forall x :: x in thumbs ==> x <= after) && r.value.0 == []
      ensures r.Some? && r.value.1 != 0 ==>
        && r.value.1 > after && r.value.1 in thumbs && Rising(r.value.0)
        && Elements(r.value.0) == Between(Missing(model), after, r.value.1)
      ensures r.Some? && r.value.1 != 0 ==> var size := if limit <= 0 then 200 else limit;
        && |Between(thumbs, after, r.value.1)| <= size
        && (|Between(thumbs, after, r.value.1)| == size || forall x :: x in thumbs ==> x <= r.value.1)
    {
      var size := if limit <= 0 then 200 else limit;
      var ok := Operation();
      if !ok {
        return None;
      }
      var beyond := Beyond(thumbs, after);
      var page := First(beyond, size);
      if page == [] {
        EmptyPage(beyond, size);
        assert forall x :: x in thumbs && x > after ==> x in beyond;
        return Some(([], 0));
      }
      var next := page[|page| - 1];
      assert next in Elements(page);
      ok := Operation();
      if !ok {
        return None;
      }
      var refs := Unembedded(page, rows, model);
      PageCovers(beyond, size, page);
      PageIsFull(beyond, size, page);
      assert Elements(page) == Between(thumbs, after, next);
      assert forall x :: x in thumbs ==> x <= after || x in beyond;
      UnembeddedRises(page, rows, model);
      r := Some((refs, next));
    }

    method CountThumbsMissingVector(model: string) returns (n: Option<nat>)
      modifies this`life
      ensures old(life).None? ==> n.Some? && life.None?
      ensures n.Some? ==> n.value == |Missing(model)|
    {
      var ok := Operation();
      if !ok {
        return None;
      }
      n := Some(|Absent(thumbs, rows, model)|);
    }

    /** One batch: the embedded ones are saved, indexed and marked together; `done` counts them only if all of
        that succeeded. */
    method Batch(model: string, refs: seq<nat>, fate: nat -> Fate)
        returns (done: nat, missing: nat, failed: nat, ok: bool)
      requires model in home && Rising(refs)
      modifies this`rows, this`index, this`life
      ensures old(life).None? ==> ok && life.None?
      ensures ok ==> Tally(Elements(refs), fate, done, missing, failed)
      ensures ok ==> rows == Marked(Saved(old(rows), Gains(Elements(refs), fate, model)),
                                    Gains(Elements(refs), fate, model).Keys)
      ensures ok ==> Placed(home[model], Gains(Elements(refs), fate, model), index)
      ensures !ok ==> done == 0 && (rows == old(rows) || rows == Saved(old(rows), Gains(Elements(refs), fate, model)))
      ensures old(index) <= index
    {
      var got: set<nat>;
      got, missing, failed := EmbedAll(refs, fate);
      done := 0;
      var items := Gains(got, fate, model);
      GoodGains(Elements(refs), fate, model);
      if got == {} {
        NoGains(rows, fate, model);
        return 0, missing, failed, true;
      }
      hide Gains, Tally;
      ok := SaveVectorBatch(items);
      if !ok {
        return;
      }
      ok := Upsert(set k | k in items :: Entry(home[model], k.image, items[k]));
      if !ok {
        return;
      }
      ok := MarkIndexedBatch(items.Keys);
      if !ok {
        return;
      }
      done := |got|;
    }

    /** Fill in the vectors of a model for every image that has a thumbnail and lacks one. Without failures
        every such image is counted exactly once as done, missing or failed, and the done ones are stored,
        indexed and marked; nothing else in the table changes. */
    method Reembed(model: string, batchSize: nat, fate: nat -> Fate)
        returns (done: nat, missing: nat, failed: nat, ok: bool)
      requires model in home && 0 !in thumbs
      modifies this`rows, this`index, this`life
      ensures old(life).None? ==> ok
      ensures ok ==> Tally(old(Missing(model)), fate, done, missing, failed)
      ensures ok ==> done + missing + failed == |old(Missing(model))|
      ensures ok ==> Filled(old(rows), rows, Gains(old(Missing(model)), fate, model))
      ensures ok ==> Placed(home[model], Gains(old(Missing(model)), fate, model), index)
      ensures ok ==> Reembedded(thumbs, model, home[model], fate, old(rows), rows, index, done, missing, failed)
      ensures old(index) <= index
    {
      ghost var want := Missing(model);
      ReembeddedIs(thumbs, model, home[model], fate, rows);
      done, missing, failed := 0, 0, 0;
      ok := Operation();
      if !ok {
        return;
      }
      var total := CountThumbsMissingVector(model);
      if total.None? {
        return done, missing, failed, false;
      }
      ghost var start := rows;
      var cursor: nat := 0;
      NothingYet(want, fate, model, home[model], start, index);
      if total.value == 0 {
        SeenAll(thumbs, want, fate, model, home[model], start, rows, index, 0, 0, 0, 0);
        return done, missing, failed, true;
      }
      hide Reached, Tally, Filled, Placed, Gains, Between, Absent, Beyond, Reembedded;
      while true
        invariant old(life).None? ==> life.None?
        invariant old(index) <= index
        invariant Reached(want, fate, model, home[model], start, rows, index, cursor, done, missing, failed)
        decreases |Beyond(thumbs, cursor)|
      {
        var page := ThumbsMissingVector(model, cursor, batchSize);
        if page.None? {
          return done, missing, failed, false;
        }
        var refs, next := page.value.0, page.value.1;
        if next == 0 {
          SeenAll(thumbs, want, fate, model, home[model], start, rows, index, cursor, done, missing, failed);
          return done, missing, failed, true;
        }
        BeyondShrinks(thumbs, cursor, next);
        NextPage(thumbs, want, fate, model, home[model], start, rows, index, cursor, next, done, missing, failed);
        ghost var before, index0 := rows, index;
        if refs != [] {
          var d, m, f;
          d, m, f, ok := Batch(model, refs, fate);
          done, missing, failed := done + d, missing + m, failed + f;
          if !ok {
            return;
          }
          OneMoreBatch(want, fate, model, home[model], start, before, rows, index0, index, cursor, next,
                       done - d, missing - m, failed - f, d, m, f);
        } else {
          NoMore(want, fate, model, home[model], start, rows, index, cursor, next, done, missing, failed);
        }
        cursor := next;
      }
    }
  }

  /** In plain terms: of the images with a thumbnail and no vector of the model, those that could be embedded have
      their vector in the table, marked, and in the collection; the others are counted; all other rows are as they
      were. */
  ghost predicate Reembedded(thumbs: set<nat>, model: string, collection: string, fate: nat -> Fate,
                             before: map<Key, Row>, after: map<Key, Row>, index: set<Entry>,
                             done: nat, missing: nat, failed: nat) {
    && (forall k :: k in before ==> k in after && after[k] == before[k])
    && (forall k :: k in after && k !in before ==> k.model == model && k.image in thumbs && fate(k.image).Embedded?)
    && (forall x :: x in thumbs && Key(x, model) !in before && fate(x).Embedded? ==>
          && Key(x, model) in after && after[Key(x, model)] == Row(fate(x).values, true)
          && Entry(collection, x, fate(x).values) in index)
    && done == |set x | x in thumbs && Key(x, model) !in before && fate(x).Embedded?|
    && missing == |set x | x in thumbs && Key(x, model) !in before && fate(x).ThumbGone?|
    && failed == |set x | x in thumbs && Key(x, model) !in before && fate(x).EmbedFailed?|
  }

  lemma ReembeddedIs(thumbs: set<nat>, model: string, collection: string, fate: nat -> Fate, before: map<Key, Row>)
    ensures forall after, index, d, m, f ::
      var want := Absent(thumbs, before, model);
      Filled(before, after, Gains(want, fate, model)) && Placed(collection, Gains(want, fate, model), index)
      && Tally(want, fate, d, m, f)
      ==> Reembedded(thumbs, model, collection, fate, before, after, index, d, m, f)
  {
    var want := Absent(thumbs, before, model);
    forall k: Key {
      GainsHave(want, fate, model, k);
    }
    forall after, index, d, m, f | Filled(before, after, Gains(want, fate, model))
        && Placed(collection, Gains(want, fate, model), index) && Tally(want, fate, d, m, f)
      ensures Reembedded(thumbs, model, collection, fate, before, after, index, d, m, f)
    {
      assert Good(want, fate) == set x | x in thumbs && Key(x, model) !in before && fate(x).Embedded?;
      assert Gone(want, fate) == set x | x in thumbs && Key(x, model) !in before && fate(x).ThumbGone?;
      assert Bad(want, fate) == set x | x in thumbs && Key(x, model) !in before && fate(x).EmbedFailed?;
    }
  }

  ghost predicate Placed(collection: string, gains: map<Key, Vector>, index: set<Entry>) {
    forall k :: k in gains ==> Entry(collection, k.image, gains[k]) in index
  }

  /** What re-embedding has done about the wanted images up to a cursor. */
  ghost predicate Reached(want: set<nat>, fate: nat -> Fate, model: string, collection: string, start: map<Key, Row>,
                          rows: map<Key, Row>, index: set<Entry>, cursor: nat, d: nat, g: nat, f: nat) {
    && Tally(UpTo(want, cursor), fate, d, g, f) && Filled(start, rows, Gains(UpTo(want, cursor), fate, model))
    && Placed(collection, Gains(UpTo(want, cursor), fate, model), index)
  }

  lemma NothingYet(want: set<nat>, fate: nat -> Fate, model: string, collection: string, start: map<Key, Row>,
                   index: set<Entry>)
    requires 0 !in want
    ensures Reached(want, fate, model, collection, start, start, index, 0, 0, 0, 0)
  {
    NoneUpTo(want, fate);
    assert Gains(UpTo(want, 0), fate, model) == map[];
  }

  lemma SeenAll(thumbs: set<nat>, want: set<nat>, fate: nat -> Fate, model: string, collection: string,
                start: map<Key, Row>, rows: map<Key, Row>, index: set<Entry>, cursor: nat, d: nat, g: nat, f: nat)
    requires Reached(want, fate, model, collection, start, rows, index, cursor, d, g, f)
    requires (want <= thumbs && forall x :: x in thumbs ==> x <= cursor) || want == {}
    ensures Tally(want, fate, d, g, f) && d + g + f == |want| && Filled(start, rows, Gains(want, fate, model))
    ensures Placed(collection, Gains(want, fate, model), index)
  {
    assert UpTo(want, cursor) == want;
    TallyTotal(want, fate, d, g, f);
  }

  lemma NextPage(thumbs: set<nat>, want: set<nat>, fate: nat -> Fate, model: string, collection: string,
                 start: map<Key, Row>, rows: map<Key, Row>, index: set<Entry>, cursor: nat, next: nat,
                 d: nat, g: nat, f: nat)
    requires Reached(want, fate, model, collection, start, rows, index, cursor, d, g, f)
    requires want == Absent(thumbs, start, model)
    ensures Between(Absent(thumbs, rows, model), cursor, next) == Between(want, cursor, next)
  {
    hide Tally, Placed, Gains, Filled, Absent, Between;
    StillMissing(start, rows, thumbs, want, fate, model, cursor, next);
  }

  lemma Stretch(want: set<nat>, cursor: nat, next: nat)
    requires cursor <= next
    ensures UpTo(want, next) == UpTo(want, cursor) + Between(want, cursor, next)
    ensures UpTo(want, cursor) !! Between(want, cursor, next)
  {
  }

  lemma OneMoreBatch(want: set<nat>, fate: nat -> Fate, model: string, collection: string, start: map<Key, Row>,
                     rows: map<Key, Row>, after: map<Key, Row>, index0: set<Entry>, index: set<Entry>,
                     cursor: nat, next: nat, d: nat, g: nat, f: nat, d2: nat, g2: nat, f2: nat)
    requires cursor <= next && index0 <= index
    requires Reached(want, fate, model, collection, start, rows, index0, cursor, d, g, f)
    requires var gains := Gains(Between(want, cursor, next), fate, model);
      after == Marked(Saved(rows, gains), gains.Keys) && Placed(collection, gains, index)
    requires Tally(Between(want, cursor, next), fate, d2, g2, f2)
    ensures Reached(want, fate, model, collection, start, after, index, next, d + d2, g + g2, f + f2)
  {
    hide Tally, Filled, Gains, Marked, Saved, UpTo, Between, Placed;
    Stretch(want, cursor, next);
    TallyAdds(UpTo(want, cursor), Between(want, cursor, next), fate, d, g, f, d2, g2, f2);
    FilledMore(start, rows, after, want, fate, model, cursor, next);
    PlacedMore(want, fate, model, collection, index0, index, cursor, next);
  }

  lemma PlacedMore(want: set<nat>, fate: nat -> Fate, model: string, collection: string,
                   index0: set<Entry>, index: set<Entry>, cursor: nat, next: nat)
    requires cursor <= next && index0 <= index
    requires Placed(collection, Gains(UpTo(want, cursor), fate, model), index0)
    requires Placed(collection, Gains(Between(want, cursor, next), fate, model), index)
    ensures Placed(collection, Gains(UpTo(want, next), fate, model), index)
  {
    hide Gains;
    forall k | k in Gains(UpTo(want, next), fate, model)
      ensures Entry(collection, k.image, Gains(UpTo(want, next), fate, model)[k]) in index
    {
      GainsHave(UpTo(want, cursor), fate, model, k);
      GainsHave(Between(want, cursor, next), fate, model, k);
      GainsHave(UpTo(want, next), fate, model, k);
    }
  }

  lemma NoMore(want: set<nat>, fate: nat -> Fate, model: string, collection: string, start: map<Key, Row>,
               rows: map<Key, Row>, index: set<Entry>, cursor: nat, next: nat, d: nat, g: nat, f: nat)
    requires cursor <= next && Between(want, cursor, next) == Elements([])
    requires Reached(want, fate, model, collection, start, rows, index, cursor, d, g, f)
    ensures Reached(want, fate, model, collection, start, rows, index, next, d, g, f)
  {
    hide Tally, Filled, Gains, Placed, Between;
    Stretch(want, cursor, next);
    assert Elements([]) == {};
    assert UpTo(want, next) == UpTo(want, cursor);
  }

  /** The workers of a batch finish in any order. */
  method EmbedAll(refs: seq<nat>, fate: nat -> Fate) returns (got: set<nat>, missing: nat, failed: nat)
    ensures got == Good(Elements(refs), fate) && Tally(Elements(refs), fate, |got|, missing, failed)
  {
    var rest := Elements(refs);
    ghost var all := rest;
    got, missing, failed := {}, 0, 0;
    EmbedNone(all, fate);
    hide SoFar;
    while rest != {}
      invariant SoFar(all, rest, fate, got, missing, failed)
      decreases |rest|
    {
      var x :| x in rest;
      EmbedOne(all, rest, fate, got, missing, failed, x);
      match fate(x) {
        case Embedded(_) => got := got + {x};
        case ThumbGone => missing := missing + 1;
        case EmbedFailed => failed := failed + 1;
      }
      rest := rest - {x};
    }
    EmbedDone(all, fate, got, missing, failed);
  }

  /** The counts after all but `rest` of a batch. */
  ghost predicate SoFar(all: set<nat>, rest: set<nat>, fate: nat -> Fate, got: set<nat>, missing: nat, failed: nat) {
    rest <= all && got == Good(all - rest, fate) && Tally(all - rest, fate, |got|, missing, failed)
  }

  lemma EmbedNone(all: set<nat>, fate: nat -> Fate)
    ensures SoFar(all, all, fate, {}, 0, 0)
  {
    assert all - all == {};
    assert Good({}, fate) == {} && Gone({}, fate) == {} && Bad({}, fate) == {};
  }

  lemma EmbedDone(all: set<nat>, fate: nat -> Fate, got: set<nat>, missing: nat, failed: nat)
    requires SoFar(all, {}, fate, got, missing, failed)
    ensures got == Good(all, fate) && Tally(all, fate, |got|, missing, failed)
  {
    assert all - {} == all;
  }

  lemma EmbedOne(all: set<nat>, rest: set<nat>, fate: nat -> Fate, got: set<nat>, missing: nat, failed: nat, x: nat)
    requires SoFar(all, rest, fate, got, missing, failed) && x in rest
    ensures match fate(x)
      case Embedded(_) => SoFar(all, rest - {x}, fate, got + {x}, missing, failed)
      case ThumbGone => SoFar(all, rest - {x}, fate, got, missing + 1, failed)
      case EmbedFailed => SoFar(all, rest - {x}, fate, got, missing, failed + 1)
  {
    assert all - (rest - {x}) == (all - rest) + {x};
    assert x !in all - rest;
    TallyOne(all - rest, fate, |got|, missing, failed, x);
    GoodGrows(all - rest, fate, x);
    hide Good, Tally;
  }

  lemma GoodGrows(m: set<nat>, fate: nat -> Fate, x: nat)
    requires x !in m
    ensures |Good(m, fate) + {x}| == |Good(m, fate)| + 1
  {
  }

  lemma GoodGains(m: set<nat>, fate: nat -> Fate, model: string)
    ensures Gains(Good(m, fate), fate, model) == Gains(m, fate, model)
  {
    assert Good(Good(m, fate), fate) == Good(m, fate);
  }

  lemma NoGains(rows: map<Key, Row>, fate: nat -> Fate, model: string)
    ensures Gains({}, fate, model) == map[]
    ensures Marked(Saved(rows, map[]), {}) == rows
  {
    var none: set<nat> := {};
    assert Good(none, fate) == {};
  }

  // ----- submitted batches

  function LastOf(vectors: seq<Named>, model: string): Option<Vector> {
    if vectors == [] then None
    else if vectors[|vectors| - 1].model == model then Some(vectors[|vectors| - 1].values)
    else LastOf(vectors[..|vectors| - 1], model)
  }

  /** Every active model has a vector of its size; of several the last one counts. */
  predicate Valid(vectors: seq<Named>, sizes: map<string, nat>) {
    forall m :: m in sizes ==> LastOf(vectors, m).Some? && |LastOf(vectors, m).value| == sizes[m]
  }

  predicate Acceptable(batch: seq<Item>, sizes: map<string, nat>) {
    && (forall i :: 0 <= i < |batch| ==> Valid(batch[i].vectors, sizes))
    && (forall i :: 0 <= i < |batch| ==> forall v :: v in batch[i].vectors ==> v.model in sizes)
  }

  lemma AcceptableNone(sizes: map<string, nat>)
    ensures Acceptable([], sizes)
  {
  }

  /** The last vector of its model in the list. */
  ghost predicate LastIn(vectors: seq<Named>, j: int) {
    0 <= j < |vectors| && forall k :: j < k < |vectors| ==> vectors[k].model != vectors[j].model
  }

  /** The last vector of its model for its image in the batch. */
  ghost predicate LastFor(batch: seq<Item>, i: int, j: int) {
    && 0 <= i < |batch| && LastIn(batch[i].vectors, j)
    && forall k :: i < k < |batch| && batch[k].image == batch[i].image ==>
         forall v :: v in batch[k].vectors ==> v.model != batch[i].vectors[j].model
  }

  lemma {:induction false} LastOfHas(vectors: seq<Named>, m: string) returns (j: int)
    ensures LastOf(vectors, m).None? ==> forall v :: v in vectors ==> v.model != m
    ensures LastOf(vectors, m).Some? ==>
      LastIn(vectors, j) && vectors[j].model == m && LastOf(vectors, m) == Some(vectors[j].values)
    decreases |vectors|
  {
    j := |vectors| - 1;
    if vectors != [] && vectors[j].model != m {
      var n := j;
      j := LastOfHas(vectors[..n], m);
      assert vectors == vectors[..n] + [vectors[n]];
    }
  }

  lemma {:induction false} LastOfAt(vectors: seq<Named>, j: int)
    requires LastIn(vectors, j)
    ensures LastOf(vectors, vectors[j].model) == Some(vectors[j].values)
    decreases |vectors|
  {
    if j < |vectors| - 1 {
      var rest := vectors[..|vectors| - 1];
      assert LastIn(rest, j);
      LastOfAt(rest, j);
    }
  }

  /** A batch is acceptable if and only if every image has, for every model, a vector whose last one is of the
      model's size, and no vector of another model. */
  lemma AcceptableInFull(batch: seq<Item>, sizes: map<string, nat>)
    ensures Acceptable(batch, sizes) <==>
      forall i :: 0 <= i < |batch| ==>
        (forall v :: v in batch[i].vectors ==> v.model in sizes) && HasLastOfEach(batch[i].vectors, sizes)
  {
    forall i | 0 <= i < |batch|
      ensures Valid(batch[i].vectors, sizes) <==> HasLastOfEach(batch[i].vectors, sizes)
    {
      ValidInFull(batch[i].vectors, sizes);
    }
    hide Valid, HasLastOfEach;
  }

  ghost predicate HasLastOfEach(vectors: seq<Named>, sizes: map<string, nat>) {
    forall m :: m in sizes ==>
      exists j :: LastIn(vectors, j) && vectors[j].model == m && |vectors[j].values| == sizes[m]
  }

  lemma ValidInFull(vectors: seq<Named>, sizes: map<string, nat>)
    ensures Valid(vectors, sizes) <==> HasLastOfEach(vectors, sizes)
  {
    forall m | m in sizes
      ensures (LastOf(vectors, m).Some? && |LastOf(vectors, m).value| == sizes[m]) <==>
        exists j :: LastIn(vectors, j) && vectors[j].model == m && |vectors[j].values| == sizes[m]
    {
      var j := LastOfHas(vectors, m);
      if k :| LastIn(vectors, k) && vectors[k].model == m {
        LastOfAt(vectors, k);
      }
    }
  }

  /** The table is left with the last vector for each image and model. */
  lemma {:induction false} CarriesLast(batch: seq<Item>, i: int, j: int)
    requires LastFor(batch, i, j)
    ensures var k := Key(batch[i].image, batch[i].vectors[j].model);
      k in Carried(batch) && Carried(batch)[k] == batch[i].vectors[j].values
    decreases |batch|
  {
    var n := |batch| - 1;
    var k := Key(batch[i].image, batch[i].vectors[j].model);
    CarriedOneKeys(batch[n].image, batch[n].vectors, k);
    if i < n {
      var last := LastOfHas(batch[n].vectors, k.model);
      assert LastFor(batch[..n], i, j);
      CarriesLast(batch[..n], i, j);
    } else {
      LastOfAt(batch[n].vectors, j);
    }
  }

  /** Saving and marking touch exactly the rows carried. */
  lemma SubmittedRows(rows: map<Key, Row>, items: map<Key, Vector>)
    ensures var saved := Saved(rows, items); var marked := Marked(saved, items.Keys);
      forall k: Key ::
        && (k in saved <==> k in rows || k in items) && (k in marked <==> k in saved)
        && (k in items ==> saved[k] == Row(items[k], false) && marked[k] == Row(items[k], true))
        && (k !in items && k in rows ==> saved[k] == rows[k] && marked[k] == rows[k])
  {
  }

  /** What saving a batch, and then marking it, leaves in the table: the last vector for each image and model,
      waiting and then marked, and every row of another image as it was. */
  lemma SubmittedInFull(batch: seq<Item>, sizes: map<string, nat>, rows: map<Key, Row>)
    requires Acceptable(batch, sizes)
    ensures var saved := Saved(rows, Carried(batch)); var marked := Marked(saved, Carried(batch).Keys);
      && (forall i, j :: LastFor(batch, i, j) ==>
            var k := Key(batch[i].image, batch[i].vectors[j].model);
            && k in saved && saved[k] == Row(batch[i].vectors[j].values, false)
            && k in marked && marked[k] == Row(batch[i].vectors[j].values, true))
      && (forall k: Key :: !HasImage(batch, k.image) ==>
            && (k in saved <==> k in rows) && (k in marked <==> k in rows)
            && (k in rows ==> saved[k] == rows[k] && marked[k] == rows[k]))
  {
    NotCarried(batch, rows);
    SubmittedRows(rows, Carried(batch));
    hide Carried, Saved, Marked, HasImage;
    forall i, j | LastFor(batch, i, j)
      ensures Key(batch[i].image, batch[i].vectors[j].model) in Carried(batch)
      ensures Carried(batch)[Key(batch[i].image, batch[i].vectors[j].model)] == batch[i].vectors[j].values
    {
      CarriesLast(batch, i, j);
    }
  }

  /** Images that are not in the batch are left alone. */
  lemma NotCarried(batch: seq<Item>, rows: map<Key, Row>)
    ensures forall k: Key :: !HasImage(batch, k.image) ==> k !in Carried(batch)
  {
    forall k: Key | !HasImage(batch, k.image)
      ensures k !in Carried(batch)
    {
      NotCarriedOne(batch, k);
    }
  }

  lemma {:induction false} NotCarriedOne(batch: seq<Item>, k: Key)
    requires !HasImage(batch, k.image)
    ensures k !in Carried(batch)
    decreases |batch|
  {
    if batch != [] {
      HasImageLast(batch, k.image);
      CarriedOneKeys(batch[|batch| - 1].image, batch[|batch| - 1].vectors, k);
      NotCarriedOne(batch[..|batch| - 1], k);
    }
  }

  function CarriedOne(image: nat, vectors: seq<Named>): map<Key, Vector> {
    if vectors == [] then map[]
    else
      var n := |vectors| - 1;
      CarriedOne(image, vectors[..n])[Key(image, vectors[n].model) := vectors[n].values]
  }

  /** The vectors a batch leaves in the table: of several for one image and model, the last. */
  function Carried(batch: seq<Item>): map<Key, Vector> {
    if batch == [] then map[]
    else
      var n := |batch| - 1;
      Carried(batch[..n]) + CarriedOne(batch[n].image, batch[n].vectors)
  }

  /** The points a batch adds: all of them, also superseded ones. */
  function Offered(batch: seq<Item>, home: map<string, string>): set<Entry> {
    set i, v | 0 <= i < |batch| && v in batch[i].vectors && v.model in home ::
      Entry(home[v.model], batch[i].image, v.values)
  }

  lemma {:induction false} CarriedOneKeys(image: nat, vectors: seq<Named>, k: Key)
    ensures k in CarriedOne(image, vectors) <==> k.image == image && LastOf(vectors, k.model).Some?
    ensures k in CarriedOne(image, vectors) ==> CarriedOne(image, vectors)[k] == LastOf(vectors, k.model).value
    ensures k in CarriedOne(image, vectors) ==> Named(k.model, CarriedOne(image, vectors)[k]) in vectors
    decreases |vectors|
  {
    if vectors != [] {
      CarriedOneKeys(image, vectors[..|vectors| - 1], k);
    }
  }

  ghost predicate HasImage(batch: seq<Item>, x: nat) {
    exists i :: 0 <= i < |batch| && batch[i].image == x
  }

  lemma HasImageLast(batch: seq<Item>, x: nat)
    requires batch != []
    ensures HasImage(batch, x) <==> HasImage(batch[..|batch| - 1], x) || batch[|batch| - 1].image == x
  {
    var n := |batch| - 1;
    if HasImage(batch, x) {
      var i :| 0 <= i < |batch| && batch[i].image == x;
      assert i < n ==> batch[..n][i].image == x;
    }
    if HasImage(batch[..n], x) {
      var i :| 0 <= i < n && batch[..n][i].image == x;
      assert batch[i].image == x;
    }
  }

  lemma OneCarriesAll(item: Item, sizes: map<string, nat>, k: Key)
    requires Valid(item.vectors, sizes) && forall v :: v in item.vectors ==> v.model in sizes
    ensures k in CarriedOne(item.image, item.vectors) <==> k.image == item.image && k.model in sizes
  {
    CarriedOneKeys(item.image, item.vectors, k);
  }

  lemma {:induction false} CarriedKeys(batch: seq<Item>, sizes: map<string, nat>, k: Key)
    requires Acceptable(batch, sizes)
    ensures k in Carried(batch) <==> k.model in sizes && HasImage(batch, k.image)
    decreases |batch|
  {
    if batch != [] {
      var n := |batch| - 1;
      assert Acceptable(batch[..n], sizes);
      CarriedKeys(batch[..n], sizes, k);
      OneCarriesAll(batch[n], sizes, k);
      HasImageLast(batch, k.image);
      hide HasImage, CarriedOne, Acceptable, Valid;
    }
  }

  /** What a submission marks is what it carries. */
  lemma MarkedAreCarried(batch: seq<Item>, sizes: map<string, nat>)
    requires Acceptable(batch, sizes)
    ensures (set i, m | 0 <= i < |batch| && m in sizes :: Key(batch[i].image, m)) == Carried(batch).Keys
  {
    forall k: Key
      ensures k in Carried(batch) <==> k.model in sizes && HasImage(batch, k.image)
    {
      CarriedKeys(batch, sizes, k);
    }
    hide Carried, Acceptable;
  }

  /** Every vector a batch leaves in the table is among the points it adds. */
  lemma {:induction false} CarriedAreOffered(batch: seq<Item>, home: map<string, string>, k: Key)
    requires k in Carried(batch) && k.model in home
    ensures Entry(home[k.model], k.image, Carried(batch)[k]) in Offered(batch, home)
    decreases |batch|
  {
    var n := |batch| - 1;
    CarriedOneKeys(batch[n].image, batch[n].vectors, k);
    if k in CarriedOne(batch[n].image, batch[n].vectors) {
      assert Named(k.model, Carried(batch)[k]) in batch[n].vectors;
    } else {
      CarriedAreOffered(batch[..n], home, k);
      var i, v :| 0 <= i < n && v in batch[..n][i].vectors && v.model in home
        && Entry(home[v.model], batch[..n][i].image, v.values) == Entry(home[k.model], k.image, Carried(batch)[k]);
      assert v in batch[i].vectors;
    }
  }

  // ----- counting what re-embedding did

  function Good(m: set<nat>, fate: nat -> Fate): set<nat> {
    set x | x in m && fate(x).Embedded?
  }

  function Gone(m: set<nat>, fate: nat -> Fate): set<nat> {
    set x | x in m && fate(x).ThumbGone?
  }

  function Bad(m: set<nat>, fate: nat -> Fate): set<nat> {
    set x | x in m && fate(x).EmbedFailed?
  }

  ghost predicate Tally(m: set<nat>, fate: nat -> Fate, done: nat, missing: nat, failed: nat) {
    done == |Good(m, fate)| && missing == |Gone(m, fate)| && failed == |Bad(m, fate)|
  }

  lemma TallyOne(m: set<nat>, fate: nat -> Fate, done: nat, missing: nat, failed: nat, x: nat)
    requires Tally(m, fate, done, missing, failed) && x !in m
    ensures Good(m + {x}, fate) == if fate(x).Embedded? then Good(m, fate) + {x} else Good(m, fate)
    ensures match fate(x)
      case Embedded(_) => Tally(m + {x}, fate, done + 1, missing, failed)
      case ThumbGone => Tally(m + {x}, fate, done, missing + 1, failed)
      case EmbedFailed => Tally(m + {x}, fate, done, missing, failed + 1)
  {
    assert Gone(m + {x}, fate) == if fate(x).ThumbGone? then Gone(m, fate) + {x} else Gone(m, fate);
    assert Bad(m + {x}, fate) == if fate(x).EmbedFailed? then Bad(m, fate) + {x} else Bad(m, fate);
    assert Good(m + {x}, fate) == if fate(x).Embedded? then Good(m, fate) + {x} else Good(m, fate);
  }

  lemma TallyAdds(m: set<nat>, n: set<nat>, fate: nat -> Fate, d: nat, g: nat, f: nat, d2: nat, g2: nat, f2: nat)
    requires m !! n && Tally(m, fate, d, g, f) && Tally(n, fate, d2, g2, f2)
    ensures Tally(m + n, fate, d + d2, g + g2, f + f2)
  {
    assert Good(m + n, fate) == Good(m, fate) + Good(n, fate);
    assert Gone(m + n, fate) == Gone(m, fate) + Gone(n, fate);
    assert Bad(m + n, fate) == Bad(m, fate) + Bad(n, fate);
  }

  lemma TallyTotal(m: set<nat>, fate: nat -> Fate, done: nat, missing: nat, failed: nat)
    requires Tally(m, fate, done, missing, failed)
    ensures done + missing + failed == |m|
  {
    assert m == Good(m, fate) + Gone(m, fate) + Bad(m, fate);
  }

  function UpTo(m: set<nat>, cursor: nat): set<nat> {
    set x | x in m && x <= cursor
  }

  function Between(m: set<nat>, cursor: nat, next: nat): set<nat> {
    set x | x in m && cursor < x <= next
  }

  /** The vectors a set of images gains. */
  function Gains(m: set<nat>, fate: nat -> Fate, model: string): map<Key, Vector> {
    map k | k in (set x | x in Good(m, fate) :: Key(x, model)) ::
      if fate(k.image).Embedded? then fate(k.image).values else []
  }

  /** The table gained exactly these rows, marked indexed. */
  ghost predicate Filled(a: map<Key, Row>, b: map<Key, Row>, gains: map<Key, Vector>) {
    && b.Keys == a.Keys + gains.Keys
    && forall k :: k in b ==> b[k] == if k in gains then Row(gains[k], true) else if k in a then a[k] else b[k]
  }

  lemma NoneUpTo(want: set<nat>, fate: nat -> Fate)
    requires 0 !in want
    ensures UpTo(want, 0) == {} && Tally({}, fate, 0, 0, 0)
    ensures forall model :: Gains(UpTo(want, 0), fate, model) == map[]
  {
    assert UpTo(want, 0) == {};
    assert Good({}, fate) == {} && Gone({}, fate) == {} && Bad({}, fate) == {};
  }

  /** Images with a thumbnail and no vector of the model. */
  function Absent(thumbs: set<nat>, rows: map<Key, Row>, model: string): set<nat> {
    set x | x in thumbs && Key(x, model) !in rows
  }

  function Beyond(thumbs: set<nat>, cursor: nat): set<nat> {
    set x | x in thumbs && x > cursor
  }

  lemma BeyondShrinks(thumbs: set<nat>, cursor: nat, next: nat)
    requires next in thumbs && next > cursor
    ensures |Beyond(thumbs, next)| < |Beyond(thumbs, cursor)|
  {
    var more := Beyond(thumbs, cursor) - Beyond(thumbs, next);
    assert next in more;
    assert Beyond(thumbs, cursor) == Beyond(thumbs, next) + more;
  }

  lemma GainsHave(m: set<nat>, fate: nat -> Fate, model: string, k: Key)
    ensures k in Gains(m, fate, model) <==> k.model == model && k.image in m && fate(k.image).Embedded?
    ensures k in Gains(m, fate, model) ==> Gains(m, fate, model)[k] == fate(k.image).values
  {
    var images := set x | x in Good(m, fate) :: Key(x, model);
    if k.model == model && k.image in m && fate(k.image).Embedded? {
      assert k.image in Good(m, fate);
      assert Key(k.image, model) in images;
    }
  }

  lemma StillMissing(a: map<Key, Row>, b: map<Key, Row>, thumbs: set<nat>, want: set<nat>, fate: nat -> Fate,
                     model: string, cursor: nat, next: nat)
    requires want == Absent(thumbs, a, model) && Filled(a, b, Gains(UpTo(want, cursor), fate, model))
    ensures Between(Absent(thumbs, b, model), cursor, next) == Between(want, cursor, next)
  {
    forall x | x in thumbs && cursor < x <= next
      ensures Key(x, model) in b <==> Key(x, model) in a
    {
      GainsHave(UpTo(want, cursor), fate, model, Key(x, model));
    }
  }

  lemma FilledMore(a: map<Key, Row>, b: map<Key, Row>, c: map<Key, Row>, want: set<nat>, fate: nat -> Fate,
                   model: string, cursor: nat, next: nat)
    requires cursor <= next && Filled(a, b, Gains(UpTo(want, cursor), fate, model))
    requires var gains := Gains(Between(want, cursor, next), fate, model); c == Marked(Saved(b, gains), gains.Keys)
    ensures Filled(a, c, Gains(UpTo(want, next), fate, model))
  {
    var first, more := Gains(UpTo(want, cursor), fate, model), Gains(Between(want, cursor, next), fate, model);
    var all := Gains(UpTo(want, next), fate, model);
    forall k: Key
      ensures (k in all <==> k in first || k in more) && (k in first ==> all[k] == first[k] && k !in more)
      ensures k in more ==> all[k] == more[k]
    {
      GainsHave(UpTo(want, cursor), fate, model, k);
      GainsHave(Between(want, cursor, next), fate, model, k);
      GainsHave(UpTo(want, next), fate, model, k);
    }
    hide Gains;
    FilledJoin(a, b, c, first, more, all);
  }

  lemma FilledJoin(a: map<Key, Row>, b: map<Key, Row>, c: map<Key, Row>,
                   first: map<Key, Vector>, more: map<Key, Vector>, all: map<Key, Vector>)
    requires Filled(a, b, first) && c == Marked(Saved(b, more), more.Keys)
    requires forall k :: k in all <==> k in first || k in more
    requires forall k :: k in first ==> all[k] == first[k] && k !in more
    requires forall k :: k in more ==> all[k] == more[k]
    ensures Filled(a, c, all)
  {
    assert c.Keys == b.Keys + more.Keys;
    assert all.Keys == first.Keys + more.Keys;
    forall k | k in c
      ensures c[k] == if k in all then Row(all[k], true) else if k in a then a[k] else c[k]
    {
      if k in more {
        assert c[k] == Row(more[k], true);
      } else {
        assert c[k] == b[k];
      }
    }
  }

  function Unembedded(page: seq<nat>, rows: map<Key, Row>, model: string): (refs: seq<nat>)
    ensures forall x :: x in refs <==> x in page && Key(x, model) !in rows
  {
    if page == [] then []
    else
      var n := |page| - 1;
      var refs := Unembedded(page[..n], rows, model);
      assert page == page[..n] + [page[n]];
      if Key(page[n], model) in rows then refs else refs + [page[n]]
  }

  lemma {:induction false} UnembeddedRises(page: seq<nat>, rows: map<Key, Row>, model: string)
    requires Rising(page)
    ensures Rising(Unembedded(page, rows, model))
    decreases |page|
  {
    if page != [] {
      var n := |page| - 1;
      UnembeddedRises(page[..n], rows, model);
      var refs := Unembedded(page[..n], rows, model);
      forall i | 0 <= i < |refs|
        ensures refs[i] < page[n]
      {
        assert refs[i] in refs;
        assert refs[i] in page[..n];
      }
    }
  }

  lemma EmptyPage(all: set<nat>, size: nat)
    requires size > 0 && FirstOf(all, size, [])
    ensures all == {}
  {
    var page: seq<nat> := [];
    assert forall x :: x in all ==> x !in page;
  }

  /** A page reaches every member up to its last. */
  lemma PageCovers(all: set<nat>, size: nat, page: seq<nat>)
    requires FirstOf(all, size, page) && page != []
    ensures forall x :: x in page <==> x in all && x <= page[|page| - 1]
  {
    assert forall x :: x in page ==> x in Elements(page);
    assert page[|page| - 1] in page;
  }

  lemma PageIsFull(all: set<nat>, size: nat, page: seq<nat>)
    requires FirstOf(all, size, page) && page != []
    ensures |Elements(page)| <= size
    ensures |Elements(page)| == size || forall x :: x in all ==> x <= page[|page| - 1]
  {
    RisingCounts(page);
    assert forall x :: x in page ==> x <= page[|page| - 1];
  }

  lemma PageKeys(rows: map<Key, Row>, model: string, size: nat, page: seq<nat>)
    requires FirstOf(Waiting(rows, model), size, page)
    ensures forall x :: x in page ==> Key(x, model) in rows && !rows[Key(x, model)].indexed
  {
    assert forall x :: x in page ==> x in Elements(page);
  }

  /** Marking a page takes exactly its rows off the backlog. */
  lemma MarkedPage(home: map<string, string>, rows: map<Key, Row>, model: string, page: seq<nat>, ms: set<string>,
                   index: set<Entry>)
    requires model in home && model in ms && page != [] && Rising(page)
    requires forall x :: x in page ==> Key(x, model) in rows && !rows[Key(x, model)].indexed
    requires forall x :: x in page ==> Entry(home[model], x, rows[Key(x, model)].value) in index
    ensures var after := Marked(rows, KeysOf(page, model));
      && SameVectors(rows, after) && MarksEarned(home, rows, after, index)
      && |Backlog(after, ms)| == |Backlog(rows, ms)| - |page|
      && forall m :: Waiting(after, m) <= Waiting(rows, m)
  {
    var keys := KeysOf(page, model);
    var after := Marked(rows, keys);
    KeysSize(page, model);
    assert Backlog(after, ms) == Backlog(rows, ms) - keys;
    assert keys <= Backlog(rows, ms);
    forall m, x | x in Waiting(after, m)
      ensures x in Waiting(rows, m)
    {
      var k :| k in after && k.model == m && !after[k].indexed && k.image == x;
      assert k in rows && !rows[k].indexed;
    }
  }

  lemma EarnedAgain(home: map<string, string>, a: map<Key, Row>, b: map<Key, Row>, c: map<Key, Row>, index: set<Entry>)
    requires SameVectors(a, b) && SameVectors(b, c)
    requires MarksEarned(home, a, b, index) && MarksEarned(home, b, c, index)
    ensures SameVectors(a, c) && MarksEarned(home, a, c, index)
  {
  }

  lemma NothingWaits(rows: map<Key, Row>, models: seq<string>)
    requires forall j :: 0 <= j < |models| ==> Waiting(rows, models[j]) == {}
    ensures Backlog(rows, set m | m in models) == {}
  {
    forall k | k in rows && k.model in models
      ensures rows[k].indexed
    {
      var j :| 0 <= j < |models| && models[j] == k.model;
      if !rows[k].indexed {
        IsWaiting(rows, k);
      }
    }
  }

  lemma IsWaiting(rows: map<Key, Row>, k: Key)
    requires k in rows && !rows[k].indexed
    ensures k.image in Waiting(rows, k.model)
  {
  }
}
