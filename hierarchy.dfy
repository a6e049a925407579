/**
 * The top-down printer (misc-scripts/lcsh-create-hierarchy.py). It keeps a
 * set `unfound` of the identifiers whose `narrower` list is empty. Every
 * term with a non-empty `narrower` list then starts its own traversal:
 * `output` prints the term indented by tabs, discards each child from
 * `unfound`, and recurses into it one tab deeper. At the end it reports
 * how many identifiers were never reached.
 *
 * The store is a read-only map and the two cursors are a scan of its keys.
 * The script does not check for cycles in `narrower`, so the model needs a
 * rank map for termination. A child without a record makes `output`
 * subscript `None`, which raises.
 */
module Hierarchy {
  import opened Wrappers
  import opened Text
  import opened Lcsh

  /**
   * What a traversal does: the lines it prints, the identifiers it
   * discards from `unfound` in order, and the child without a record that
   * ended it, if any.
   */
  datatype Emitted = Emitted(lines: seq<string>, found: seq<string>, missing: Option<string>)

  const Nothing: Emitted := Emitted([], [], None)

  /** `a` and then `b`, unless `a` already failed. */
  function Chain(a: Emitted, b: Emitted): Emitted {
    if a.missing.Some? then a else Emitted(a.lines + b.lines, a.found + b.found, b.missing)
  }

  /** The line `output` prints for a term: `<tabs><id> (<label>)`. */
  function EntryLine(t: Term, depth: nat): (r: string)
    ensures r == Chars('\t', depth) + t.id + " (" + t.prefLabel + ")"
    ensures |r| > depth && r[..depth] == Chars('\t', depth)
  {
    Chars('\t', depth) + t.id + " (" + t.prefLabel + ")"
  }

  /** What `output` does for the record stored under `id`, at `depth` tabs. */
  function Emission(m: Store, id: string, depth: nat, rank: map<string, nat>): Emitted
    requires id in m && NarrowerRanked(m, rank)
    decreases rank[id], 1, 0
  {
    Chain(Emitted([EntryLine(m[id], depth)], [], None), Children(m, id, m[id].narrower, depth + 1, rank))
  }

  /** The children `items` (a suffix of the term's `narrower`), each discarded and then printed. */
  function Children(m: Store, id: string, items: seq<string>, depth: nat, rank: map<string, nat>): Emitted
    requires id in m && NarrowerRanked(m, rank)
    requires forall c :: c in items ==> c in m[id].narrower
    decreases rank[id], 0, |items|
  {
    if items == [] then Nothing
    else if items[0] !in m then Emitted([], [items[0]], Some(items[0]))
    else Chain(Chain(Emitted([], [items[0]], None), Emission(m, items[0], depth, rank)), Children(m, id, items[1..], depth, rank))
  }

  /** The traversals of the second cursor: one per term with a non-empty `narrower`, in scan order. */
  function Tops(m: Store, scan: seq<string>, rank: map<string, nat>): Emitted
    requires NarrowerRanked(m, rank)
    requires forall k :: k in scan ==> k in m
  {
    if scan == [] then Nothing
    else Chain(if m[scan[0]].narrower != [] then Emission(m, scan[0], 0, rank) else Nothing, Tops(m, scan[1..], rank))
  }

  /** The identifiers the first cursor puts into `unfound`. */
  function Leaves(m: Store): set<string> {
    set k | k in m && m[k].narrower == []
  }

  /** Every identifier that some record names as narrower. */
  function AllChildren(m: Store): set<string> {
    set k, c | k in m && c in m[k].narrower :: c
  }

  function Elems(s: seq<string>): set<string> {
    set x | x in s
  }

  /** The summary line printed when some identifiers were never reached. */
  function NotFoundLine(n: nat): string {
    "*** " + Decimal(n) + " terms left not found"
  }

  /**
   * The lines after the traversals: the count of unreached identifiers,
   * if any, and "Done". A failed traversal prints neither: the handler
   * names `Exceptions`, which is not defined, so evaluating it raises a
   * `NameError` that ends the script.
   */
  function Closing(e: Emitted, unfound: set<string>): seq<string> {
    if e.missing.Some? then []
    else (if |unfound| > 0 then [NotFoundLine(|unfound|)] else []) + ["Done"]
  }

  // ---------------------------------------------------------------------
  // Properties

  lemma ChainAssoc(a: Emitted, b: Emitted, c: Emitted)
    ensures Chain(Chain(a, b), c) == Chain(a, Chain(b, c))
  {
    if a.missing.None? && b.missing.None? {
      assert (a.lines + b.lines) + c.lines == a.lines + (b.lines + c.lines);
      assert (a.found + b.found) + c.found == a.found + (b.found + c.found);
    }
  }

  lemma ChainNothing(a: Emitted)
    ensures Chain(a, Nothing) == a.(missing := if a.missing.Some? then a.missing else None)
  {
    assert a.lines + [] == a.lines && a.found + [] == a.found;
  }

  /** `output` prints the term first, and every line of the traversal is indented by at least `depth` tabs. */
  lemma {:induction false} Indented(m: Store, id: string, depth: nat, rank: map<string, nat>)
    requires id in m && NarrowerRanked(m, rank)
    ensures |Emission(m, id, depth, rank).lines| >= 1
    ensures Emission(m, id, depth, rank).lines[0] == EntryLine(m[id], depth)
    ensures forall l :: l in Emission(m, id, depth, rank).lines ==> |l| > depth && l[..depth] == Chars('\t', depth)
    decreases rank[id], 1, 0
  {
    ChildrenIndented(m, id, m[id].narrower, depth + 1, rank);
    TabsPrefix(depth);
  }

  lemma {:induction false} ChildrenIndented(m: Store, id: string, items: seq<string>, depth: nat, rank: map<string, nat>)
    requires id in m && NarrowerRanked(m, rank)
    requires forall c :: c in items ==> c in m[id].narrower
    ensures forall l :: l in Children(m, id, items, depth, rank).lines ==> |l| > depth && l[..depth] == Chars('\t', depth)
    decreases rank[id], 0, |items|
  {
    if items != [] && items[0] in m {
      Indented(m, items[0], depth, rank);
      ChildrenIndented(m, id, items[1..], depth, rank);
    }
  }

  /** A line with `depth + 1` leading tabs also has `depth` of them. */
  lemma TabsPrefix(depth: nat)
    ensures forall l: string :: |l| > depth + 1 && l[..depth + 1] == Chars('\t', depth + 1) ==> |l| > depth && l[..depth] == Chars('\t', depth)
  {
    forall l: string | |l| > depth + 1 && l[..depth + 1] == Chars('\t', depth + 1)
      ensures l[..depth] == Chars('\t', depth)
    {
      assert l[..depth] == l[..depth + 1][..depth];
    }
  }

  /** Only identifiers that some record names as narrower are discarded, and a failure names one without a record. */
  lemma {:induction false} FoundAreChildren(m: Store, id: string, depth: nat, rank: map<string, nat>)
    requires id in m && NarrowerRanked(m, rank)
    ensures Elems(Emission(m, id, depth, rank).found) <= AllChildren(m)
    ensures Emission(m, id, depth, rank).missing.Some? ==> Emission(m, id, depth, rank).missing.value !in m
    decreases rank[id], 1, 0
  {
    ChildrenAreChildren(m, id, m[id].narrower, depth + 1, rank);
  }

  lemma {:induction false} ChildrenAreChildren(m: Store, id: string, items: seq<string>, depth: nat, rank: map<string, nat>)
    requires id in m && NarrowerRanked(m, rank)
    requires forall c :: c in items ==> c in m[id].narrower
    ensures Elems(Children(m, id, items, depth, rank).found) <= AllChildren(m)
    ensures Children(m, id, items, depth, rank).missing.Some? ==> Children(m, id, items, depth, rank).missing.value !in m
    decreases rank[id], 0, |items|
  {
    if items != [] {
      var c := items[0];
      assert c in AllChildren(m) by {
        assert id in m && c in m[id].narrower;
      }
      if c in m {
        FoundAreChildren(m, c, depth, rank);
        ChildrenAreChildren(m, id, items[1..], depth, rank);
      }
    }
  }

  /** A traversal that runs through discards every child of the term it starts from. */
  lemma {:induction false} ChildrenFound(m: Store, id: string, depth: nat, rank: map<string, nat>)
    requires id in m && NarrowerRanked(m, rank)
    requires Emission(m, id, depth, rank).missing.None?
    ensures forall c :: c in m[id].narrower ==> c in Emission(m, id, depth, rank).found
  {
    ItemsFound(m, id, m[id].narrower, depth + 1, rank);
  }

  lemma {:induction false} ItemsFound(m: Store, id: string, items: seq<string>, depth: nat, rank: map<string, nat>)
    requires id in m && NarrowerRanked(m, rank)
    requires forall c :: c in items ==> c in m[id].narrower
    requires Children(m, id, items, depth, rank).missing.None?
    ensures forall c :: c in items ==> c in Children(m, id, items, depth, rank).found
    decreases |items|
  {
    if items != [] {
      ItemsFound(m, id, items[1..], depth, rank);
    }
  }

  /** With every child resolvable, no traversal fails. */
  lemma {:induction false} ClosedEmits(m: Store, id: string, depth: nat, rank: map<string, nat>)
    requires id in m && NarrowerRanked(m, rank) && NarrowerClosed(m)
    ensures Emission(m, id, depth, rank).missing.None?
    decreases rank[id], 1, 0
  {
    ClosedChildren(m, id, m[id].narrower, depth + 1, rank);
  }

  lemma {:induction false} ClosedChildren(m: Store, id: string, items: seq<string>, depth: nat, rank: map<string, nat>)
    requires id in m && NarrowerRanked(m, rank) && NarrowerClosed(m)
    requires forall c :: c in items ==> c in m[id].narrower
    ensures Children(m, id, items, depth, rank).missing.None?
    decreases rank[id], 0, |items|
  {
    if items != [] {
      ClosedEmits(m, items[0], depth, rank);
      ClosedChildren(m, id, items[1..], depth, rank);
    }
  }

  /** The traversals of the second cursor discard only children. */
  lemma {:induction false} TopsFoundAreChildren(m: Store, scan: seq<string>, rank: map<string, nat>)
    requires NarrowerRanked(m, rank) && forall k :: k in scan ==> k in m
    ensures Elems(Tops(m, scan, rank).found) <= AllChildren(m)
  {
    if scan != [] {
      if m[scan[0]].narrower != [] {
        FoundAreChildren(m, scan[0], 0, rank);
      }
      TopsFoundAreChildren(m, scan[1..], rank);
    }
  }

  /** When they all run through, the traversals of the second cursor discard every child. */
  lemma {:induction false} TopsFindAll(m: Store, scan: seq<string>, rank: map<string, nat>)
    requires NarrowerRanked(m, rank) && forall k :: k in scan ==> k in m
    requires Tops(m, scan, rank).missing.None?
    ensures forall k, c :: k in scan && c in m[k].narrower ==> c in Tops(m, scan, rank).found
  {
    if scan != [] {
      var k := scan[0];
      if m[k].narrower != [] {
        ChildrenFound(m, k, 0, rank);
      }
      TopsFindAll(m, scan[1..], rank);
    }
  }

  /**
   * After a run that does not fail, `unfound` holds exactly the terms
   * with no `narrower` entry that no record names as narrower: the
   * isolated terms.
   */
  lemma Unreached(m: Store, scan: seq<string>, rank: map<string, nat>)
    requires IsScan(scan, m) && NarrowerRanked(m, rank)
    requires Tops(m, scan, rank).missing.None?
    ensures Leaves(m) - Elems(Tops(m, scan, rank).found) == set k | k in m && m[k].narrower == [] && k !in AllChildren(m)
  {
    TopsFoundAreChildren(m, scan, rank);
    TopsFindAll(m, scan, rank);
    var found := Elems(Tops(m, scan, rank).found);
    forall c | c in AllChildren(m)
      ensures c in found
    {
      var k :| k in m && c in m[k].narrower;
      assert k in scan;
    }
  }

  /** The printer went from `out0`, `unfound0` to `out`, `unfound` by doing `e`. */
  predicate Applied(e: Emitted, out0: seq<string>, out: seq<string>, unfound0: set<string>, unfound: set<string>, missing: Option<string>) {
    out == out0 + e.lines && unfound == unfound0 - Elems(e.found) && missing == e.missing
  }

  /** Doing `a` and then `b` applies `Chain(a, b)`. */
  lemma AppliedChain(a: Emitted, b: Emitted, out0: seq<string>, out1: seq<string>, out2: seq<string>,
                     u0: set<string>, u1: set<string>, u2: set<string>, missing: Option<string>)
    requires Applied(a, out0, out1, u0, u1, None) && Applied(b, out1, out2, u1, u2, missing)
    ensures Applied(Chain(a, b), out0, out2, u0, u2, missing)
  {
    ElemsConcat(a.found, b.found);
    assert out2 == out0 + (a.lines + b.lines);
  }

  lemma ChainFromNothing(a: Emitted)
    ensures Chain(Nothing, a) == a
  {
    assert [] + a.lines == a.lines && [] + a.found == a.found;
  }

  lemma ElemsConcat(a: seq<string>, b: seq<string>)
    ensures Elems(a + b) == Elems(a) + Elems(b)
  {
  }

  /** One child of the loop in `output`: a missing child ends it, another one is discarded and traversed. */
  lemma ChildStep(m: Store, id: string, i: nat, depth: nat, rank: map<string, nat>, acc: Emitted)
    requires id in m && NarrowerRanked(m, rank) && i < |m[id].narrower|
    ensures var items := m[id].narrower; var c := items[i];
      && (c !in m ==> Chain(acc, Children(m, id, items[i..], depth, rank)) == Chain(acc, Emitted([], [c], Some(c))))
      && (c in m ==>
            Chain(acc, Children(m, id, items[i..], depth, rank)) == Chain(Chain(acc, Chain(Emitted([], [c], None), Emission(m, c, depth, rank))), Children(m, id, items[i + 1..], depth, rank)))
  {
    var items := m[id].narrower;
    var c := items[i];
    assert items[i..][0] == c && items[i..][1..] == items[i + 1..];
    if c in m {
      ChainAssoc(acc, Chain(Emitted([], [c], None), Emission(m, c, depth, rank)), Children(m, id, items[i + 1..], depth, rank));
    }
  }

  /** One record of the second cursor. */
  lemma TopStep(m: Store, scan: seq<string>, i: nat, rank: map<string, nat>)
    requires NarrowerRanked(m, rank) && (forall k :: k in scan ==> k in m) && i < |scan|
    ensures Tops(m, scan[i..], rank) == Chain(if m[scan[i]].narrower != [] then Emission(m, scan[i], 0, rank) else Nothing, Tops(m, scan[i + 1..], rank))
  {
    assert scan[i..][0] == scan[i] && scan[i..][1..] == scan[i + 1..];
  }

  /** The printer's state: the set `unfound` and everything printed so far. */
  class Printer {
    var unfound: set<string>
    var out: seq<string>

    constructor ()
      ensures unfound == {} && out == []
    {
      unfound := {};
      out := [];
    }

    /** `output` (misc-scripts/lcsh-create-hierarchy.py:32-36). */
    method Output(m: Store, id: string, depth: nat, ghost rank: map<string, nat>) returns (missing: Option<string>)
      requires id in m && NarrowerRanked(m, rank)
      modifies this
      ensures Applied(Emission(m, id, depth, rank), old(out), out, old(unfound), unfound, missing)
      decreases rank[id], 1
    {
      out := out + [EntryLine(m[id], depth)];
      missing := OutputChildren(m, id, depth + 1, rank);
      ghost var e := Children(m, id, m[id].narrower, depth + 1, rank);
      assert [] + e.found == e.found;
    }

    /** The loop of `output` over the term's `narrower` list. */
    method OutputChildren(m: Store, id: string, depth: nat, ghost rank: map<string, nat>) returns (missing: Option<string>)
      requires id in m && NarrowerRanked(m, rank)
      modifies this
      ensures Applied(Children(m, id, m[id].narrower, depth, rank), old(out), out, old(unfound), unfound, missing)
      decreases rank[id], 0
    {
      var items := m[id].narrower;
      ghost var acc := Nothing;
      var i := 0;
      missing := None;
      assert items[i..] == items;
      ChainFromNothing(Children(m, id, items, depth, rank));
      while i < |items| && missing.None?
        invariant 0 <= i <= |items|
        invariant Applied(acc, old(out), out, old(unfound), unfound, missing)
        invariant Children(m, id, items, depth, rank) == Chain(acc, Children(m, id, items[i..], depth, rank))
      {
        var c := items[i];
        ChildStep(m, id, i, depth, rank, acc);
        ghost var out1, unfound1 := out, unfound;
        ghost var e := if c in m then Chain(Emitted([], [c], None), Emission(m, c, depth, rank)) else Emitted([], [c], Some(c));
        if c !in m {
          unfound := unfound - {c};
          missing := Some(c);
          assert Elems([c]) == {c};
        } else {
          missing := Visit(m, c, depth, rank);
        }
        AppliedChain(acc, e, old(out), out1, out, old(unfound), unfound1, unfound, missing);
        acc := Chain(acc, e);
        i := i + 1;
      }
      if missing.None? {
        assert items[i..] == [];
        ChainNothing(acc);
      }
    }

    /** One stored child in the loop of `output`: discard it from `unfound`, then print it and its subtree. */
    method Visit(m: Store, c: string, depth: nat, ghost rank: map<string, nat>) returns (missing: Option<string>)
      requires c in m && NarrowerRanked(m, rank)
      modifies this
      ensures Applied(Chain(Emitted([], [c], None), Emission(m, c, depth, rank)), old(out), out, old(unfound), unfound, missing)
      decreases rank[c], 2
    {
      unfound := unfound - {c};
      assert Elems([c]) == {c};
      ghost var out2, unfound2 := out, unfound;
      missing := Output(m, c, depth, rank);
      AppliedChain(Emitted([], [c], None), Emission(m, c, depth, rank), old(out), out2, out, old(unfound), unfound2, unfound, missing);
    }

    /** The first cursor (misc-scripts/lcsh-create-hierarchy.py:39-42): `unfound` becomes the set of leaves. */
    method CollectLeaves(m: Store, scan: seq<string>)
      requires IsScan(scan, m)
      modifies this
      ensures unfound == Leaves(m) && out == old(out)
    {
      unfound := {};
      var i := 0;
      while i < |scan|
        invariant 0 <= i <= |scan|
        invariant unfound == set k | k in scan[..i] && m[k].narrower == []
        invariant out == old(out)
      {
        assert scan[..i + 1] == scan[..i] + [scan[i]];
        if m[scan[i]].narrower == [] {
          unfound := unfound + {scan[i]};
        }
        i := i + 1;
      }
      assert scan[..i] == scan;
    }

    /** The second cursor (misc-scripts/lcsh-create-hierarchy.py:44-46): a traversal per term with children. */
    method Traverse(m: Store, scan: seq<string>, ghost rank: map<string, nat>) returns (missing: Option<string>)
      requires NarrowerRanked(m, rank) && forall k :: k in scan ==> k in m
      modifies this
      ensures Applied(Tops(m, scan, rank), old(out), out, old(unfound), unfound, missing)
    {
      ghost var acc := Nothing;
      var i := 0;
      missing := None;
      assert scan[i..] == scan;
      ChainFromNothing(Tops(m, scan, rank));
      while i < |scan| && missing.None?
        invariant 0 <= i <= |scan|
        invariant Applied(acc, old(out), out, old(unfound), unfound, missing)
        invariant Tops(m, scan, rank) == Chain(acc, Tops(m, scan[i..], rank))
      {
        var k := scan[i];
        ghost var e := if m[k].narrower != [] then Emission(m, k, 0, rank) else Nothing;
        TopStep(m, scan, i, rank);
        ChainAssoc(acc, e, Tops(m, scan[i + 1..], rank));
        ghost var out1, unfound1 := out, unfound;
        if m[k].narrower != [] {
          missing := Output(m, k, 0, rank);
        } else {
          assert Applied(Nothing, out1, out, unfound1, unfound, missing) by {
            assert Elems([]) == {};
          }
        }
        AppliedChain(acc, e, old(out), out1, out, old(unfound), unfound1, unfound, missing);
        acc := Chain(acc, e);
        i := i + 1;
      }
      if missing.None? {
        assert scan[i..] == [];
        ChainNothing(acc);
      }
    }

    /**
     * The whole script (misc-scripts/lcsh-create-hierarchy.py:38-55):
     * collect the leaves, traverse from every term with children, then
     * report. `scan` is the order both cursors visit the records in.
     */
    method Run(m: Store, scan: seq<string>, ghost rank: map<string, nat>) returns (missing: Option<string>)
      requires IsScan(scan, m) && NarrowerRanked(m, rank)
      modifies this
      ensures missing == Tops(m, scan, rank).missing
      ensures unfound == Leaves(m) - Elems(Tops(m, scan, rank).found)
      ensures out == old(out) + Tops(m, scan, rank).lines + Closing(Tops(m, scan, rank), unfound)
    {
      CollectLeaves(m, scan);
      missing := Traverse(m, scan, rank);
      ghost var e := Tops(m, scan, rank);
      if missing.Some? {
        assert Closing(e, unfound) == [];
        assert out == old(out) + e.lines + [];
        return;
      }
      assert Closing(e, unfound) == (if |unfound| > 0 then [NotFoundLine(|unfound|)] else []) + ["Done"];
      if |unfound| > 0 {
        out := out + [NotFoundLine(|unfound|)];
      }
      out := out + ["Done"];
    }
  }
}
