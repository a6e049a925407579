/**
 * The data model shared by the build script and the query front ends:
 * a subject term record as the document store keeps it, the store itself
 * (a map from identifier to record), RDF triples, and the predicates on a
 * store that the passes and the tracer need.
 */
module Lcsh {
  import opened Wrappers

  /** One RDF statement, each part as the text the N-Triples parser yields. */
  datatype Triple = Triple(subj: string, pred: string, obj: string)

  /**
   * The `topmost` field. The build script stores `[]` for "not computed
   * yet", `None` for "this term is a root", and otherwise the list of root
   * identifiers reachable from the term.
   */
  datatype Topmost = Uncomputed | Root | Roots(ids: seq<string>)

  /** One subject term (the record `insert_one` creates, with its later fields). */
  datatype Term = Term(
    id: string,
    prefLabel: string,
    altLabels: seq<string>,
    broader: seq<string>,
    narrower: seq<string>,
    topmost: Topmost,
    note: Option<string>,
    validationRecord: bool,
    topicSubdivision: bool,
    genreForm: bool)

  /** The `terms` collection, keyed by `_id`. */
  type Store = map<string, Term>

  /** Why a pass stops: a lookup found no record and the script then indexed into `None`. */
  datatype Failure = MissingRecord(id: string)

  /** The store after a pass, and whether the pass ran to the end. */
  datatype PassResult = Done(terms: Store) | Aborted(terms: Store, failure: Failure)

  /** The record `insert_one` creates for a new `prefLabel` (utils/parse-lcsh-and-create-db.py:151-153). */
  function NewTerm(id: string, text: string): (t: Term)
    ensures t.id == id && t.prefLabel == text
    ensures t.altLabels == [] && t.broader == [] && t.narrower == []
    ensures t.topmost == Uncomputed && t.note == None
    ensures !t.validationRecord && !t.topicSubdivision && !t.genreForm
  {
    Term(id, text, [], [], [], Uncomputed, None, false, false, false)
  }

  /** Every record is stored under its own identifier. */
  predicate KeysMatch(m: Store) {
    forall k :: k in m ==> m[k].id == k
  }

  /** Every identifier some `broader` list names has a record. */
  predicate Closed(m: Store) {
    forall k, p :: k in m && p in m[k].broader ==> p in m
  }

  /**
   * A cursor over the whole collection: each record's identifier exactly
   * once, in some order.
   */
  predicate IsScan(scan: seq<string>, m: Store) {
    && (forall i, j :: 0 <= i < j < |scan| ==> scan[i] != scan[j])
    && (forall k :: k in m ==> k in scan)
    && (forall i :: 0 <= i < |scan| ==> scan[i] in m)
  }

  /**
   * Acyclicity of `broader`, witnessed by a rank that strictly decreases
   * from a term to each parent that has a record.
   */
  predicate Ranked(m: Store, rank: map<string, nat>) {
    forall k :: k in m ==> k in rank && forall p :: p in m[k].broader && p in m ==> p in rank && rank[p] < rank[k]
  }

  /**
   * Acyclicity of `narrower`, witnessed by a rank that strictly decreases
   * from a term to each child that has a record.
   */
  predicate NarrowerRanked(m: Store, rank: map<string, nat>) {
    forall k :: k in m ==> k in rank && forall c :: c in m[k].narrower && c in m ==> c in rank && rank[c] < rank[k]
  }

  /** Every identifier some `narrower` list names has a record. */
  predicate NarrowerClosed(m: Store) {
    forall k, c :: k in m && c in m[k].narrower ==> c in m
  }

  /** The two stores have the same records except, at most, for `narrower` and `topmost`. */
  predicate SameShape(m: Store, m': Store) {
    && m.Keys == m'.Keys
    && forall k :: k in m ==> SameRecord(m[k], m'[k])
  }

  /** The two records agree on every field but `narrower` and `topmost`. */
  predicate SameRecord(a: Term, b: Term) {
    && a.id == b.id && a.prefLabel == b.prefLabel && a.altLabels == b.altLabels
    && a.broader == b.broader && a.note == b.note && a.validationRecord == b.validationRecord
    && a.topicSubdivision == b.topicSubdivision && a.genreForm == b.genreForm
  }

  /** How often `x` occurs in `s`. */
  function Count<T(==)>(s: seq<T>, x: T): (n: nat)
    ensures n <= |s|
    ensures n > 0 <==> x in s
  {
    if s == [] then 0 else (if s[0] == x then 1 else 0) + Count(s[1..], x)
  }

  predicate NoDups<T(==)>(s: seq<T>) {
    forall i, j :: 0 <= i < j < |s| ==> s[i] != s[j]
  }

  lemma SameShapeRanked(m: Store, m': Store, rank: map<string, nat>)
    requires SameShape(m, m') && Ranked(m, rank)
    ensures Ranked(m', rank)
  {
    forall k | k in m' ensures m'[k].broader == m[k].broader {
      assert SameRecord(m[k], m'[k]);
    }
  }

  lemma SameShapeTrans(a: Store, b: Store, c: Store)
    requires SameShape(a, b) && SameShape(b, c)
    ensures SameShape(a, c)
  {
    forall k | k in a ensures SameRecord(a[k], c[k]) {
      assert SameRecord(a[k], b[k]) && SameRecord(b[k], c[k]);
    }
  }

  lemma SameShapeClosed(m: Store, m': Store)
    requires SameShape(m, m') && Closed(m)
    ensures Closed(m')
  {
    forall k | k in m' ensures m'[k].broader == m[k].broader {
      assert SameRecord(m[k], m'[k]);
    }
  }

  lemma SameShapeRefl(m: Store)
    ensures SameShape(m, m)
  {
  }

  /** A pass that ran to the end (`raised` is `None`) or stopped on the failure in `raised`. */
  function Outcome(m: Store, raised: Option<Failure>): (r: PassResult)
    ensures r.terms == m && (r.Done? <==> raised.None?)
  {
    if raised.None? then Done(m) else Aborted(m, raised.value)
  }
}
