/**
 * The build script (utils/parse-lcsh-and-create-db.py, and its copy
 * misc-scripts/parse-lcsh-and-create-db.py) as it runs: a term collection
 * that three passes update record by record. Each method is proved equal
 * to the specification function of its pass in the modules Build,
 * Narrower and Topmost, where the properties of the passes are proved.
 */
module CreateDb {
  import opened Wrappers
  import opened Text
  import opened Lcsh
  import opened Build
  import opened Narrower
  import opened Topmost

  /** The `lcsh.terms` collection. */
  class TermStore {
    var terms: Store

    constructor ()
      ensures terms == map[]
    {
      terms := map[];
    }

    /** `find_one({'_id': id})`: the record, or `None`. */
    method FindOne(id: string) returns (r: Option<Term>)
      ensures r.Some? <==> id in terms
      ensures r.Some? ==> r.value == terms[id]
    {
      if id in terms {
        r := Some(terms[id]);
      } else {
        r := None;
      }
    }

    /** `update_one(..., upsert=False)`: replace the record if there is one. */
    method UpdateOne(id: string, t: Term)
      modifies this
      ensures terms == Update(old(terms), id, t)
    {
      if id in terms {
        terms := terms[id := t];
      }
    }

    /** A cursor over the collection: every identifier once, in some order. */
    method Scan() returns (ids: seq<string>)
      ensures IsScan(ids, terms)
    {
      ids := [];
      var left := terms.Keys;
      while left != {}
        invariant left <= terms.Keys
        invariant forall i, j :: 0 <= i < j < |ids| ==> ids[i] != ids[j]
        invariant forall k :: k in terms ==> (k in ids <==> k !in left)
        invariant forall i :: 0 <= i < |ids| ==> ids[i] in terms
        decreases |left|
      {
        var k :| k in left;
        ids := ids + [k];
        left := left - {k};
      }
    }

    // -------------------------------------------------------------------
    // Pass 1: the triple loop (utils/parse-lcsh-and-create-db.py:126-245)

    /**
     * One iteration of the triple loop. `raised` is the failure when the
     * iteration indexes a missing record, and then nothing was written.
     */
    method Ingest(t: Triple) returns (raised: Option<Failure>)
      modifies this
      ensures Step(old(terms), t).Ok? ==> raised.None? && terms == Step(old(terms), t).value
      ensures Step(old(terms), t).Err? ==> raised == Some(Step(old(terms), t).error) && terms == old(terms)
    {
      raised := None;
      var id := GetId(t.subj);
      var kind := KindOf(t.pred);
      if kind == PrefLabel {
        if ChildrensId(id) {
          return;
        }
        var found := FindOne(id);
        if found.Some? {
          return;
        }
        terms := terms[id := NewTerm(id, t.obj)];
      } else if kind == AltLabel {
        if t.obj == "LL" || ChildrensId(id) {
          return;
        }
        var entry := FindOne(id);
        if entry.None? {
          raised := Some(MissingRecord(id));
          return;
        }
        UpdateOne(id, entry.value.(altLabels := entry.value.altLabels + [t.obj]));
      } else if kind == Broader {
        var parent := GetId(t.obj);
        if ChildrensId(id) || ChildrensId(parent) {
          return;
        }
        var entry := FindOne(id);
        if entry.None? {
          return;
        }
        UpdateOne(id, entry.value.(broader := entry.value.broader + [parent]));
      } else if kind == Note {
        if ChildrensId(id) {
          return;
        }
        var entry := FindOne(id);
        if entry.None? {
          return;
        }
        UpdateOne(id, entry.value.(note := Some(JoinNote(entry.value.note, Strip(t.obj)))));
      } else if kind == EditorialNote {
        if ChildrensId(id) {
          return;
        }
        var text := Strip(t.obj);
        if Contains(text, ValidationText) {
          if id in terms {
            UpdateOne(id, terms[id].(validationRecord := true));
          }
          return;
        }
        var entry := FindOne(id);
        if entry.None? {
          raised := Some(MissingRecord(id));
          return;
        }
        UpdateOne(id, entry.value.(note := Some(JoinNote(entry.value.note, text))));
      } else if kind == TopicSubdivisions {
        if ChildrensId(id) || id !in terms {
          return;
        }
        UpdateOne(id, terms[id].(topicSubdivision := true));
      } else if kind == Member {
        if !EndsWith(t.obj, "GenreFormSubdivisions") || ChildrensId(id) || id !in terms {
          return;
        }
        UpdateOne(id, terms[id].(genreForm := true));
      }
    }

    /** The first pass: ingest the triples in stream order until one raises. */
    method Build(ts: seq<Triple>) returns (raised: Option<Failure>)
      modifies this
      ensures Outcome(terms, raised) == BuildFold(old(terms), ts)
    {
      var i := 0;
      while i < |ts|
        invariant 0 <= i <= |ts|
        invariant BuildFold(old(terms), ts) == BuildFold(terms, ts[i..])
      {
        assert ts[i..][0] == ts[i] && ts[i..][1..] == ts[i + 1..];
        raised := Ingest(ts[i]);
        if raised.Some? {
          return;
        }
        i := i + 1;
      }
      raised := None;
    }

    // -------------------------------------------------------------------
    // Pass 2: narrower (utils/parse-lcsh-and-create-db.py:253-269)

    /** The inner loop: append `c` to the `narrower` list of each parent in `bs`. */
    method LinkChildren(c: string, bs: seq<string>) returns (raised: Option<Failure>)
      modifies this
      ensures Outcome(terms, raised) == LinkChild(old(terms), c, bs)
    {
      var j := 0;
      while j < |bs|
        invariant 0 <= j <= |bs|
        invariant LinkChild(old(terms), c, bs) == LinkChild(terms, c, bs[j..])
      {
        assert bs[j..][0] == bs[j] && bs[j..][1..] == bs[j + 1..];
        var parent := FindOne(bs[j]);
        if parent.None? {
          return Some(MissingRecord(bs[j]));
        }
        UpdateOne(bs[j], parent.value.(narrower := parent.value.narrower + [c]));
        j := j + 1;
      }
      raised := None;
    }

    /** The second pass over a cursor; the records without parents are the ones the query leaves out. */
    method DeriveNarrower(scan: seq<string>) returns (raised: Option<Failure>)
      modifies this
      ensures Outcome(terms, raised) == NarrowerFold(old(terms), scan)
    {
      var i := 0;
      while i < |scan|
        invariant 0 <= i <= |scan|
        invariant NarrowerFold(old(terms), scan) == NarrowerFold(terms, scan[i..])
      {
        assert scan[i..][0] == scan[i] && scan[i..][1..] == scan[i + 1..];
        var entry := FindOne(scan[i]);
        if entry.Some? && entry.value.broader != [] {
          raised := LinkChildren(scan[i], entry.value.broader);
          if raised.Some? {
            return;
          }
        }
        i := i + 1;
      }
      raised := None;
    }

    // -------------------------------------------------------------------
    // Pass 3: topmost (utils/parse-lcsh-and-create-db.py:56-84, 280-299)

    /** Phase 1: `topmost` becomes `None` on every scanned record without parents. */
    method MarkRootsPass(scan: seq<string>)
      modifies this
      ensures terms == MarkRoots(old(terms), scan)
    {
      var i := 0;
      while i < |scan|
        invariant 0 <= i <= |scan|
        invariant MarkRoots(old(terms), scan) == MarkRoots(terms, scan[i..])
      {
        assert scan[i..][0] == scan[i] && scan[i..][1..] == scan[i + 1..];
        var entry := FindOne(scan[i]);
        if entry.Some? && entry.value.broader == [] {
          UpdateOne(scan[i], entry.value.(topmost := Root));
        }
        i := i + 1;
      }
    }

    /**
     * `get_topmost`: collect what each parent contributes into a nested
     * list, recursing into parents that have parents of their own and
     * nothing cached, then flatten it and drop duplicates.
     */
    method GetTopmost(id: string, ghost rank: map<string, nat>) returns (r: Result<seq<string>, Failure>)
      requires id in terms && Ranked(terms, rank)
      ensures r == TopmostOf(terms, id, rank)
      decreases rank[id]
    {
      var term := terms[id];
      if term.broader == [] {
        return Ok([term.id]);
      }
      var bs := term.broader;
      var items: seq<Item> := [];
      var k := 0;
      assert bs[k..] == bs;
      ThenNothing(ParentItems(terms, id, bs, rank));
      while k < |bs|
        invariant 0 <= k <= |bs|
        invariant ParentItems(terms, id, bs, rank) == Then(items, ParentItems(terms, id, bs[k..], rank))
      {
        ParentStep(terms, id, k, rank);
        var entry := FindOne(bs[k]);
        if entry.None? {
          return Err(MissingRecord(bs[k]));
        }
        var e := entry.value;
        var x: Item;
        if e.topmost == Root {
          x := Leaf(e.id);
        } else if e.topmost.Roots? && e.topmost.ids != [] {
          x := Nested(LeafIds(e.topmost.ids));
        } else if e.broader != [] {
          var sub := GetTopmost(bs[k], rank);
          if sub.Err? {
            return Err(sub.error);
          }
          x := Nested(LeafIds(sub.value));
        } else {
          x := Leaf(e.id);
        }
        ThenThen(items, [x], ParentItems(terms, id, bs[k + 1..], rank));
        items := items + [x];
        k := k + 1;
      }
      assert bs[k..] == [] && items + [] == items;
      var flat := Flatten(items);
      r := Ok(Dedup(LeavesList(flat)));
    }

    /** Phase 2: every scanned record whose `topmost` is still `[]` gets the result of `get_topmost`. */
    method ResolveTopmost(scan: seq<string>, ghost rank: map<string, nat>) returns (raised: Option<Failure>)
      requires Ranked(terms, rank)
      modifies this
      ensures Outcome(terms, raised) == Resolve(old(terms), scan, rank)
    {
      var i := 0;
      while i < |scan|
        invariant 0 <= i <= |scan|
        invariant Ranked(terms, rank)
        invariant Resolve(old(terms), scan, rank) == Resolve(terms, scan[i..], rank)
      {
        assert scan[i..][0] == scan[i] && scan[i..][1..] == scan[i + 1..];
        var k := scan[i];
        if k in terms && Pending(terms[k].topmost) {
          var top := GetTopmost(k, rank);
          if top.Err? {
            return Some(top.error);
          }
          SetTopmostShape(terms, k, Roots(top.value));
          SameShapeRanked(terms, terms[k := terms[k].(topmost := Roots(top.value))], rank);
          UpdateOne(k, terms[k].(topmost := Roots(top.value)));
        }
        i := i + 1;
      }
      raised := None;
    }

    /**
     * The whole script after parsing: the three passes one after the
     * other, each over a fresh cursor. A pass that raises stops there and
     * the next pass still runs on what it wrote. When every parent the
     * triples name was inserted and `broader` has no cycle, the final
     * collection keeps the records the first pass built, `narrower` is the
     * inverse of `broader`, `None` marks exactly the terms without parents
     * and every other term holds its roots.
     */
    method Run(ts: seq<Triple>, ghost rank: map<string, nat>)
      requires WellFormed(terms)
      requires Ranked(BuildFold(terms, ts).terms, rank)
      modifies this
      ensures SameShape(BuildFold(old(terms), ts).terms, terms)
      ensures Closed(BuildFold(old(terms), ts).terms) ==> Final(terms, rank)
    {
      ghost var m0 := terms;
      var r1 := Build(ts);
      BuildPreserves(m0, ts);
      ghost var mb := terms;
      var s1 := Scan();
      var r2 := DeriveNarrower(s1);
      NarrowerKeepsTopmost(mb, s1);
      ghost var mn := terms;
      SameShapeRanked(mb, mn, rank);
      var s2 := Scan();
      MarkRootsPass(s2);
      MarkRootsShape(mn, s2);
      SameShapeRanked(mn, terms, rank);
      var s3 := Scan();
      var r3 := ResolveTopmost(s3, rank);
      TopmostKeepsNarrower(mn, s2, s3, rank);
      SameShapeTrans(mb, mn, terms);
      if Closed(mb) {
        ScanSameKeys(s2, mn, mb);
        ScanSameKeys(s3, MarkRoots(mn, s2), mb);
        LaterPassesCorrect(mb, s1, s2, s3, rank);
      }
    }
  }

  /** One step of the parent loop of `get_topmost`: what parent `k` contributes, then the rest. */
  lemma ParentStep(m: Store, id: string, k: nat, rank: map<string, nat>)
    requires id in m && Ranked(m, rank) && k < |m[id].broader|
    ensures var bs := m[id].broader;
      && (bs[k] !in m ==> ParentItems(m, id, bs[k..], rank) == Err(MissingRecord(bs[k])))
      && (bs[k] in m && ParentItem(m, id, bs[k], rank).Err? ==>
            ParentItems(m, id, bs[k..], rank) == Err(ParentItem(m, id, bs[k], rank).error))
      && (bs[k] in m && ParentItem(m, id, bs[k], rank).Ok? ==>
            ParentItems(m, id, bs[k..], rank) == Then([ParentItem(m, id, bs[k], rank).value], ParentItems(m, id, bs[k + 1..], rank)))
  {
    var bs := m[id].broader;
    assert bs[k..][0] == bs[k] && bs[k..][1..] == bs[k + 1..];
  }

  /**
   * What the later passes promise about the final collection: each child
   * occurs in a parent's `narrower` list as often as the parent occurs in
   * the child's `broader` list; `None` exactly on the terms without
   * parents; elsewhere a non-empty duplicate-free list of exactly the roots
   * above the term.
   */
  ghost predicate Final(m: Store, rank: map<string, nat>)
  {
    && Ranked(m, rank)
    && (forall p, c :: p in m && c in m ==> Count(m[p].narrower, c) == Count(m[c].broader, p))
    && (forall k :: k in m ==> (m[k].topmost == Root <==> m[k].broader == []))
    && (forall k :: k in m && m[k].broader != [] ==>
          && m[k].topmost.Roots? && m[k].topmost.ids != [] && NoDups(m[k].topmost.ids)
          && forall x :: x in m[k].topmost.ids <==> x in RootsAbove(m, k, rank))
  }

  lemma ScanSameKeys(scan: seq<string>, m: Store, m': Store)
    requires IsScan(scan, m) && m.Keys == m'.Keys
    ensures IsScan(scan, m')
  {
  }

  /**
   * The narrower pass and the topmost pass over a well-formed, closed,
   * acyclic store: both run to the end and leave it in the final state.
   */
  lemma LaterPassesCorrect(mb: Store, s1: seq<string>, s2: seq<string>, s3: seq<string>, rank: map<string, nat>)
    requires WellFormed(mb) && Closed(mb) && Ranked(mb, rank)
    requires IsScan(s1, mb) && IsScan(s2, mb) && IsScan(s3, mb)
    ensures NarrowerFold(mb, s1).Done?
    ensures var mn := NarrowerFold(mb, s1).terms;
      && Ranked(mn, rank)
      && TopmostPass(mn, s2, s3, rank).Done?
      && SameShape(mb, TopmostPass(mn, s2, s3, rank).terms)
      && Final(TopmostPass(mn, s2, s3, rank).terms, rank)
  {
    NarrowerInvertsBroader(mb, s1);
    NarrowerKeepsTopmost(mb, s1);
    var mn := NarrowerFold(mb, s1).terms;
    SameShapeRanked(mb, mn, rank);
    SameShapeClosed(mb, mn);
    assert KeysMatch(mn) by {
      forall k | k in mn ensures mn[k].id == k {
        assert SameRecord(mb[k], mn[k]);
      }
    }
    TopmostPassCorrect(mn, s2, s3, rank);
    TopmostKeepsNarrower(mn, s2, s3, rank);
    var mf := TopmostPass(mn, s2, s3, rank).terms;
    SameShapeTrans(mb, mn, mf);
    SameShapeRanked(mn, mf, rank);
    forall p, c | p in mf && c in mf ensures Count(mf[p].narrower, c) == Count(mf[c].broader, p) {
      assert SameRecord(mn[c], mf[c]);
    }
    forall k | k in mf && mf[k].broader != []
      ensures forall x :: x in mf[k].topmost.ids <==> x in RootsAbove(mf, k, rank)
    {
      assert SameRecord(mn[k], mf[k]);
      RootsAboveSameShape(mn, mf, k, rank);
    }
  }
}
