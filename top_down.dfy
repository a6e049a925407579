/**
 * The nested-document expander (misc-scripts/failed-attempts/lcsh-create-top-down.py).
 * Every term without a `broader` entry gets one document in the `topdown`
 * collection: a copy of its record in which each `narrower` identifier is
 * replaced, recursively, by the full document of that term.
 *
 * Both collections are fields of the class `Collections`. The cursor over
 * the roots is a scan of the store's keys. The script does not check for
 * cycles in `narrower`, so the model needs a rank map for termination. A
 * narrower identifier without a record makes `list_narrower` subscript
 * `None`, which raises; the handler prints the error, which ends the loop.
 */
module TopDown {
  import opened Wrappers
  import opened Lcsh

  /**
   * A nested document: the fields of `record`, with its `narrower`
   * identifiers replaced by the documents in `narrower`.
   */
  datatype Doc = Doc(record: Term, narrower: seq<Doc>)

  /** The document for the record stored under `id`, or the first narrower identifier that does not resolve. */
  function Document(m: Store, id: string, rank: map<string, nat>): Result<Doc, string>
    requires id in m && NarrowerRanked(m, rank)
    decreases rank[id], 1
  {
    match Expand(m, id, m[id].narrower, rank)
    case Err(e) => Err(e)
    case Ok(ds) => Ok(Doc(m[id], ds))
  }

  /** `list_narrower` of `items`, a suffix of the `narrower` list of the record under `id`. */
  function Expand(m: Store, id: string, items: seq<string>, rank: map<string, nat>): Result<seq<Doc>, string>
    requires id in m && NarrowerRanked(m, rank)
    requires forall c :: c in items ==> c in m[id].narrower
    decreases rank[id], 0, |items|
  {
    if items == [] then Ok([])
    else if items[0] !in m then Err(items[0])
    else
      match Document(m, items[0], rank)
      case Err(e) => Err(e)
      case Ok(d) => Then([d], Expand(m, id, items[1..], rank))
  }

  /**
   * A document that mirrors the store: its record is the stored one, and
   * its nested documents, one per `narrower` identifier in list order,
   * mirror the store in turn.
   */
  predicate Mirrors(m: Store, d: Doc) {
    && d.record.id in m && m[d.record.id] == d.record
    && |d.narrower| == |d.record.narrower|
    && forall i :: 0 <= i < |d.narrower| ==> d.narrower[i].record.id == d.record.narrower[i] && Mirrors(m, d.narrower[i])
  }

  // ---------------------------------------------------------------------
  // Properties

  /**
   * `list_narrower` keeps length and order: a successful expansion has one
   * document per identifier, each the full expansion of that identifier.
   */
  lemma {:induction false} ExpandShape(m: Store, id: string, items: seq<string>, rank: map<string, nat>)
    requires id in m && NarrowerRanked(m, rank)
    requires forall c :: c in items ==> c in m[id].narrower
    requires Expand(m, id, items, rank).Ok?
    ensures |Expand(m, id, items, rank).value| == |items|
    ensures forall i :: 0 <= i < |items| ==> items[i] in m && Document(m, items[i], rank) == Ok(Expand(m, id, items, rank).value[i])
    decreases |items|
  {
    if items != [] {
      ExpandShape(m, id, items[1..], rank);
      var ds := Expand(m, id, items, rank).value;
      forall i | 0 <= i < |items|
        ensures items[i] in m && Document(m, items[i], rank) == Ok(ds[i])
      {
        if i > 0 {
          assert items[i] == items[1..][i - 1];
        }
      }
    }
  }

  /** Every document is a copy of the store, nested exactly as `narrower` says. */
  lemma {:induction false} DocumentMirrors(m: Store, id: string, rank: map<string, nat>)
    requires id in m && NarrowerRanked(m, rank) && KeysMatch(m)
    requires Document(m, id, rank).Ok?
    ensures Document(m, id, rank).value.record == m[id]
    ensures Mirrors(m, Document(m, id, rank).value)
    decreases rank[id]
  {
    var items := m[id].narrower;
    ExpandShape(m, id, items, rank);
    var d := Document(m, id, rank).value;
    forall i | 0 <= i < |d.narrower|
      ensures d.narrower[i].record.id == d.record.narrower[i] && Mirrors(m, d.narrower[i])
    {
      DocumentMirrors(m, items[i], rank);
    }
  }

  /** An expansion fails only on an identifier without a record. */
  lemma {:induction false} FailsOnlyOnMissing(m: Store, id: string, rank: map<string, nat>)
    requires id in m && NarrowerRanked(m, rank)
    ensures Document(m, id, rank).Err? ==> Document(m, id, rank).error !in m
    ensures NarrowerClosed(m) ==> Document(m, id, rank).Ok?
    decreases rank[id], 1
  {
    ExpandFailsOnlyOnMissing(m, id, m[id].narrower, rank);
  }

  lemma {:induction false} ExpandFailsOnlyOnMissing(m: Store, id: string, items: seq<string>, rank: map<string, nat>)
    requires id in m && NarrowerRanked(m, rank)
    requires forall c :: c in items ==> c in m[id].narrower
    ensures Expand(m, id, items, rank).Err? ==> Expand(m, id, items, rank).error !in m
    ensures NarrowerClosed(m) ==> Expand(m, id, items, rank).Ok?
    decreases rank[id], 0, |items|
  {
    if items != [] && items[0] in m {
      FailsOnlyOnMissing(m, items[0], rank);
      ExpandFailsOnlyOnMissing(m, id, items[1..], rank);
    }
  }

  // ---------------------------------------------------------------------
  // The per-root loop

  /** The outcome of the loop: the `topdown` collection, and the error that ended the loop, if any. */
  datatype Upserted = Upserted(docs: map<string, Doc>, failed: Option<string>)

  /** The loop over the roots in `scan` order, starting from the collection `td`. */
  function Upserts(m: Store, scan: seq<string>, td: map<string, Doc>, rank: map<string, nat>): Upserted
    requires NarrowerRanked(m, rank) && forall k :: k in scan ==> k in m
  {
    if scan == [] then Upserted(td, None)
    else if m[scan[0]].broader != [] then Upserts(m, scan[1..], td, rank)
    else
      match Document(m, scan[0], rank)
      case Err(e) => Upserted(td, Some(e))
      case Ok(d) => Upserts(m, scan[1..], td[scan[0] := d], rank)
  }

  /** The documents the loop writes, independently of what the collection held. */
  function Written(m: Store, scan: seq<string>, rank: map<string, nat>): map<string, Doc>
    requires NarrowerRanked(m, rank) && forall k :: k in scan ==> k in m
  {
    if scan == [] then map[]
    else if m[scan[0]].broader != [] then Written(m, scan[1..], rank)
    else
      match Document(m, scan[0], rank)
      case Err(_) => map[]
      case Ok(d) => map[scan[0] := d] + Written(m, scan[1..], rank)
  }

  /** The roots in `scan`. */
  function Roots(m: Store, scan: seq<string>): set<string>
    requires forall k :: k in scan ==> k in m
  {
    set k | k in scan && m[k].broader == []
  }

  /**
   * `replace_one` with `upsert` overwrites: the loop leaves the old
   * collection overridden by the documents it writes, and whether it
   * fails does not depend on the collection.
   */
  lemma {:induction false} UpsertsOverride(m: Store, scan: seq<string>, td: map<string, Doc>, rank: map<string, nat>)
    requires NarrowerRanked(m, rank) && forall k :: k in scan ==> k in m
    requires NoDups(scan)
    ensures Upserts(m, scan, td, rank).docs == td + Written(m, scan, rank)
    ensures Upserts(m, scan, td, rank).failed == Upserts(m, scan, map[], rank).failed
  {
    if scan != [] {
      var k := scan[0];
      NoDupsTail(scan);
      UpsertsFailed(m, scan, td, map[], rank);
      UpsertsOverride(m, scan[1..], td, rank);
      if m[k].broader == [] && Document(m, k, rank).Ok? {
        var d := Document(m, k, rank).value;
        UpsertsOverride(m, scan[1..], td[k := d], rank);
        WrittenKeys(m, scan[1..], rank);
        assert k !in Written(m, scan[1..], rank) by {
          assert k !in scan[1..] by {
            NoDupsHead(scan);
          }
        }
        MapOverride(td, k, d, Written(m, scan[1..], rank));
      }
    }
  }

  lemma MapOverride(td: map<string, Doc>, k: string, d: Doc, w: map<string, Doc>)
    requires k !in w
    ensures td[k := d] + w == td + (map[k := d] + w)
  {
  }

  lemma NoDupsTail(s: seq<string>)
    requires s != [] && NoDups(s)
    ensures NoDups(s[1..])
  {
    forall i, j | 0 <= i < j < |s| - 1
      ensures s[1..][i] != s[1..][j]
    {
      assert s[1..][i] == s[i + 1] && s[1..][j] == s[j + 1];
    }
  }

  lemma NoDupsHead(s: seq<string>)
    requires s != [] && NoDups(s)
    ensures s[0] !in s[1..]
  {
    forall j | 0 <= j < |s| - 1
      ensures s[1..][j] != s[0]
    {
      assert s[1..][j] == s[j + 1];
    }
  }

  /** Only roots get a document, and each root's document is its full expansion. */
  lemma {:induction false} WrittenKeys(m: Store, scan: seq<string>, rank: map<string, nat>)
    requires NarrowerRanked(m, rank) && forall k :: k in scan ==> k in m
    ensures Written(m, scan, rank).Keys <= Roots(m, scan)
    ensures forall k :: k in Written(m, scan, rank) ==> Document(m, k, rank) == Ok(Written(m, scan, rank)[k])
    ensures Upserts(m, scan, map[], rank).failed.None? ==> Written(m, scan, rank).Keys == Roots(m, scan)
  {
    if scan != [] {
      var k := scan[0];
      var w := Written(m, scan[1..], rank);
      WrittenKeys(m, scan[1..], rank);
      assert Roots(m, scan) == Roots(m, scan[1..]) + (if m[k].broader == [] then {k} else {});
      if m[k].broader != [] {
        UpsertsOverride2(m, scan, rank);
        assert Written(m, scan, rank) == w;
      } else if Document(m, k, rank).Ok? {
        UpsertsOverride2(m, scan, rank);
        assert Written(m, scan, rank) == map[k := Document(m, k, rank).value] + w;
      } else {
        assert Written(m, scan, rank) == map[];
      }
    }
  }

  /**
   * The loop over `scan` fails at its `i`-th record, a root whose
   * expansion fails, having written only the documents of the roots
   * before it.
   */
  predicate FailsAt(m: Store, scan: seq<string>, i: nat, rank: map<string, nat>)
    requires NarrowerRanked(m, rank) && (forall k :: k in scan ==> k in m) && i < |scan|
  {
    && m[scan[i]].broader == [] && Document(m, scan[i], rank).Err?
    && Upserts(m, scan, map[], rank).failed == Some(Document(m, scan[i], rank).error)
    && Written(m, scan, rank) == Written(m, scan[..i], rank)
  }

  /** A failure leaves the roots after the failing one without a document. */
  lemma {:induction false} FailureSkips(m: Store, scan: seq<string>, rank: map<string, nat>)
    requires NarrowerRanked(m, rank) && forall k :: k in scan ==> k in m
    requires Upserts(m, scan, map[], rank).failed.Some?
    ensures exists i :: 0 <= i < |scan| && FailsAt(m, scan, i, rank)
  {
    var k := scan[0];
    if m[k].broader == [] && Document(m, k, rank).Err? {
      assert scan[..0] == [];
      assert FailsAt(m, scan, 0, rank);
    } else {
      UpsertsOverride2(m, scan, rank);
      FailureSkips(m, scan[1..], rank);
      var i :| 0 <= i < |scan[1..]| && FailsAt(m, scan[1..], i, rank);
      assert scan[1..][..i] == scan[..i + 1][1..];
      assert scan[..i + 1][0] == k;
      assert scan[1..][i] == scan[i + 1];
      assert FailsAt(m, scan, i + 1, rank);
    }
  }

  /** A loop that does not stop at the first record reports the failure of the rest. */
  lemma UpsertsOverride2(m: Store, scan: seq<string>, rank: map<string, nat>)
    requires NarrowerRanked(m, rank) && forall k :: k in scan ==> k in m
    requires scan != [] && (m[scan[0]].broader != [] || Document(m, scan[0], rank).Ok?)
    ensures Upserts(m, scan, map[], rank).failed == Upserts(m, scan[1..], map[], rank).failed
  {
    if m[scan[0]].broader == [] {
      UpsertsFailed(m, scan[1..], map[], map[scan[0] := Document(m, scan[0], rank).value], rank);
    }
  }

  lemma {:induction false} UpsertsFailed(m: Store, scan: seq<string>, a: map<string, Doc>, b: map<string, Doc>, rank: map<string, nat>)
    requires NarrowerRanked(m, rank) && forall k :: k in scan ==> k in m
    ensures Upserts(m, scan, a, rank).failed == Upserts(m, scan, b, rank).failed
  {
    if scan != [] && m[scan[0]].broader == [] && Document(m, scan[0], rank).Ok? {
      var d := Document(m, scan[0], rank).value;
      UpsertsFailed(m, scan[1..], a[scan[0] := d], b[scan[0] := d], rank);
    } else if scan != [] {
      UpsertsFailed(m, scan[1..], a, b, rank);
    }
  }

  /** Running the script a second time changes nothing: the same roots get the same documents. */
  lemma Idempotent(m: Store, scan: seq<string>, td: map<string, Doc>, rank: map<string, nat>)
    requires NarrowerRanked(m, rank) && forall k :: k in scan ==> k in m
    requires NoDups(scan)
    ensures Upserts(m, scan, Upserts(m, scan, td, rank).docs, rank) == Upserts(m, scan, td, rank)
  {
    var w := Written(m, scan, rank);
    UpsertsOverride(m, scan, td, rank);
    UpsertsOverride(m, scan, td + w, rank);
    assert (td + w) + w == td + w;
  }

  // ---------------------------------------------------------------------
  // The collections

  /** The source collection `terms` and the target collection `topdown`. */
  class Collections {
    var terms: Store
    var topdown: map<string, Doc>

    constructor (m: Store, td: map<string, Doc>)
      ensures terms == m && topdown == td
    {
      terms := m;
      topdown := td;
    }

    /** `list_narrower` (misc-scripts/failed-attempts/lcsh-create-top-down.py:23-29). */
    method ListNarrower(ids: seq<string>, ghost parent: string, ghost rank: map<string, nat>) returns (r: Result<seq<Doc>, string>)
      requires parent in terms && NarrowerRanked(terms, rank) && ids == terms[parent].narrower
      ensures r == Expand(terms, parent, ids, rank)
      decreases rank[parent]
    {
      var subdocs: seq<Doc> := [];
      var i := 0;
      assert ids[i..] == ids;
      ThenNothing(Expand(terms, parent, ids, rank));
      while i < |ids|
        invariant 0 <= i <= |ids|
        invariant Expand(terms, parent, ids, rank) == Then(subdocs, Expand(terms, parent, ids[i..], rank))
      {
        var term := ids[i];
        assert ids[i..][0] == term && ids[i..][1..] == ids[i + 1..];
        if term !in terms {
          return Err(term);
        }
        var full := terms[term];
        var sub := ListNarrower(full.narrower, term, rank);
        if sub.Err? {
          return Err(sub.error);
        }
        ThenThen(subdocs, [Doc(full, sub.value)], Expand(terms, parent, ids[i + 1..], rank));
        subdocs := subdocs + [Doc(full, sub.value)];
        i := i + 1;
      }
      assert ids[i..] == [];
      assert subdocs + [] == subdocs;
      return Ok(subdocs);
    }

    /**
     * The loop over the roots (misc-scripts/failed-attempts/lcsh-create-top-down.py:32-44):
     * each root's expanded copy replaces its document; the first error
     * ends the loop. `scan` is the order the cursor visits the records in.
     */
    method Run(scan: seq<string>, ghost rank: map<string, nat>) returns (failed: Option<string>)
      requires NarrowerRanked(terms, rank) && forall k :: k in scan ==> k in terms
      modifies this
      ensures terms == old(terms)
      ensures Upserted(topdown, failed) == Upserts(terms, scan, old(topdown), rank)
    {
      var i := 0;
      while i < |scan|
        invariant 0 <= i <= |scan|
        invariant terms == old(terms)
        invariant Upserts(terms, scan, old(topdown), rank) == Upserts(terms, scan[i..], topdown, rank)
      {
        var k := scan[i];
        assert scan[i..][0] == k && scan[i..][1..] == scan[i + 1..];
        var entry := terms[k];
        if entry.broader == [] {
          var docs := ListNarrower(entry.narrower, k, rank);
          if docs.Err? {
            return Some(docs.error);
          }
          topdown := topdown[k := Doc(entry, docs.value)];
        }
        i := i + 1;
      }
      return None;
    }
  }
}
