/**
 * The third pass of the build script (utils/parse-lcsh-and-create-db.py:56-84, 280-303):
 * mark the terms without parents as roots, then give every other term the
 * list of roots above it, computed by the recursive `get_topmost` with the
 * help of the in-place list flattener `flatten`.
 */
module Topmost {
  import opened Wrappers
  import opened Lcsh
  import Trace

  // ---------------------------------------------------------------------
  // flatten

  /** An element of the nested list `get_topmost` builds: an identifier or a list. */
  datatype Item = Leaf(id: string) | Nested(items: seq<Item>)

  function Size(x: Item): nat
    decreases x
  {
    match x
    case Leaf(_) => 1
    case Nested(xs) => 1 + SizeList(xs)
  }

  function SizeList(xs: seq<Item>): nat
    decreases xs
  {
    if xs == [] then 0 else Size(xs[0]) + SizeList(xs[1..])
  }

  /** The identifiers of a nested list, left to right. */
  function Leaves(x: Item): seq<string>
    decreases x
  {
    match x
    case Leaf(id) => [id]
    case Nested(xs) => LeavesList(xs)
  }

  function LeavesList(xs: seq<Item>): seq<string>
    decreases xs
  {
    if xs == [] then [] else Leaves(xs[0]) + LeavesList(xs[1..])
  }

  /** A list of identifiers as a list of leaves. */
  function LeafIds(ids: seq<string>): (r: seq<Item>)
    ensures |r| == |ids| && LeavesList(r) == ids
    ensures forall k :: 0 <= k < |r| ==> r[k] == Leaf(ids[k])
  {
    if ids == [] then [] else [Leaf(ids[0])] + LeafIds(ids[1..])
  }

  lemma {:induction false} ListConcat(a: seq<Item>, b: seq<Item>)
    ensures SizeList(a + b) == SizeList(a) + SizeList(b)
    ensures LeavesList(a + b) == LeavesList(a) + LeavesList(b)
    decreases |a|
  {
    if a == [] {
      assert a + b == b;
    } else {
      assert (a + b)[0] == a[0] && (a + b)[1..] == a[1..] + b;
      ListConcat(a[1..], b);
    }
  }

  lemma {:induction false} SizeAtLeastLength(xs: seq<Item>)
    ensures SizeList(xs) >= |xs|
    decreases |xs|
  {
    if xs != [] {
      SizeAtLeastLength(xs[1..]);
    }
  }

  /** Replacing the nested list at `i` by its elements keeps the leaves and removes one wrapper. */
  lemma Splice(r: seq<Item>, i: nat)
    requires i < |r| && r[i].Nested?
    ensures var r' := r[..i] + r[i].items + r[i + 1..];
      && LeavesList(r') == LeavesList(r)
      && SizeList(r') + 1 == SizeList(r)
      && r'[..i] == r[..i]
  {
    var r' := r[..i] + r[i].items + r[i + 1..];
    assert r == r[..i] + ([r[i]] + r[i + 1..]);
    assert [r[i]] + r[i + 1..] == [r[i]] + r[i + 1..];
    ListConcat(r[..i], [r[i]] + r[i + 1..]);
    ListConcat([r[i]], r[i + 1..]);
    ListConcat(r[..i], r[i].items);
    ListConcat(r[..i] + r[i].items, r[i + 1..]);
    assert [r[i]][1..] == [];
  }

  /**
   * `flatten` (utils/parse-lcsh-and-create-db.py:79-84): splice every
   * nested list into its place until the element at the current index is
   * an identifier. The result holds only identifiers, the same ones in the
   * same order.
   */
  method Flatten(items: seq<Item>) returns (r: seq<Item>)
    ensures forall k :: 0 <= k < |r| ==> r[k].Leaf?
    ensures LeavesList(r) == LeavesList(items)
  {
    r := items;
    var i := 0;
    SizeAtLeastLength(r);
    while i < |r|
      invariant 0 <= i <= |r| + 1 && i <= SizeList(r) + 1
      invariant forall k :: 0 <= k < i && k < |r| ==> r[k].Leaf?
      invariant LeavesList(r) == LeavesList(items)
      decreases SizeList(r) + 1 - i
    {
      while i < |r| && r[i].Nested?
        invariant 0 <= i <= |r|
        invariant forall k :: 0 <= k < i ==> r[k].Leaf?
        invariant LeavesList(r) == LeavesList(items)
        decreases SizeList(r)
      {
        Splice(r, i);
        r := r[..i] + r[i].items + r[i + 1..];
      }
      SizeAtLeastLength(r);
      i := i + 1;
    }
  }

  /** `list(set(xs))`: one copy of each identifier (the first one here; the source's order is arbitrary). */
  function Dedup(xs: seq<string>): (r: seq<string>)
    ensures NoDups(r)
    ensures forall x :: x in r <==> x in xs
    decreases |xs|
  {
    if xs == [] then []
    else
      var r := Dedup(xs[..|xs| - 1]);
      assert forall x :: x in xs <==> x in xs[..|xs| - 1] || x == xs[|xs| - 1];
      if xs[|xs| - 1] in r then r else r + [xs[|xs| - 1]]
  }

  // ---------------------------------------------------------------------
  // get_topmost

  /** `topmost` is `[]`: the query `{'topmost': []}` selects the record and the truth test treats it as empty. */
  predicate Pending(t: Topmost) {
    t == Uncomputed || t == Roots([])
  }

  /**
   * What `get_topmost` returns for the record under `id`: its own
   * identifier when it has no parent, else the distinct identifiers
   * collected from its parents. A parent without a record raises.
   */
  function TopmostOf(m: Store, id: string, rank: map<string, nat>): Result<seq<string>, Failure>
    requires id in m && Ranked(m, rank)
    decreases rank[id], 1, 0
  {
    if m[id].broader == [] then Ok([m[id].id])
    else
      match ParentItems(m, id, m[id].broader, rank)
      case Err(f) => Err(f)
      case Ok(items) => Ok(Dedup(LeavesList(items)))
  }

  /** The `broader_list` the loop builds for the parents `bs`, in order. */
  function ParentItems(m: Store, id: string, bs: seq<string>, rank: map<string, nat>): Result<seq<Item>, Failure>
    requires id in m && Ranked(m, rank)
    requires forall q :: q in bs ==> q in m[id].broader
    decreases rank[id], 0, |bs|
  {
    if bs == [] then Ok([])
    else if bs[0] !in m then Err(MissingRecord(bs[0]))
    else
      match ParentItem(m, id, bs[0], rank)
      case Err(f) => Err(f)
      case Ok(x) => Then([x], ParentItems(m, id, bs[1..], rank))
  }

  /**
   * What one parent contributes: itself if it is marked as a root, its
   * stored list if it has one, else its own roots computed recursively, or
   * itself when it has no parents either.
   */
  function ParentItem(m: Store, id: string, p: string, rank: map<string, nat>): Result<Item, Failure>
    requires id in m && Ranked(m, rank) && p in m && p in m[id].broader
    decreases rank[id], 0, 0
  {
    var e := m[p];
    if e.topmost == Root then Ok(Leaf(e.id))
    else if e.topmost.Roots? && e.topmost.ids != [] then Ok(Nested(LeafIds(e.topmost.ids)))
    else if e.broader != [] then
      match TopmostOf(m, p, rank)
      case Err(f) => Err(f)
      case Ok(ids) => Ok(Nested(LeafIds(ids)))
    else Ok(Leaf(e.id))
  }

  /** The roots above a term, defined on `broader` alone: itself if it has no parent, else the union over its parents. */
  ghost function RootsAbove(m: Store, id: string, rank: map<string, nat>): set<string>
    requires id in m && Ranked(m, rank)
    decreases rank[id], 1, 0
  {
    if m[id].broader == [] then {id} else RootsVia(m, id, m[id].broader, rank)
  }

  ghost function RootsVia(m: Store, id: string, bs: seq<string>, rank: map<string, nat>): set<string>
    requires id in m && Ranked(m, rank)
    requires forall q :: q in bs ==> q in m[id].broader
    decreases rank[id], 0, |bs|
  {
    if bs == [] then {}
    else (if bs[0] in m then RootsAbove(m, bs[0], rank) else {}) + RootsVia(m, id, bs[1..], rank)
  }

  /**
   * Every cached `topmost` value tells the truth: `None` only on terms
   * without parents, and a non-empty list is duplicate-free and holds
   * exactly the roots above the term.
   */
  ghost predicate CacheSound(m: Store, rank: map<string, nat>) {
    && KeysMatch(m) && Ranked(m, rank)
    && forall k :: k in m ==> CachedSound(m, k, rank)
  }

  ghost predicate CachedSound(m: Store, k: string, rank: map<string, nat>)
    requires k in m && Ranked(m, rank)
  {
    && (m[k].topmost == Root ==> m[k].broader == [])
    && (m[k].topmost.Roots? && m[k].topmost.ids != [] ==>
          NoDups(m[k].topmost.ids) && forall x :: x in m[k].topmost.ids <==> x in RootsAbove(m, k, rank))
  }

  /** The roots above a term are terms without parents, and there is at least one when every parent exists. */
  lemma {:induction false} RootsAreRoots(m: Store, id: string, rank: map<string, nat>)
    requires id in m && Ranked(m, rank)
    ensures forall x :: x in RootsAbove(m, id, rank) ==> x in m && m[x].broader == []
    ensures Closed(m) ==> RootsAbove(m, id, rank) != {}
    decreases rank[id], 1
  {
    if m[id].broader != [] {
      RootsViaAreRoots(m, id, m[id].broader, rank);
    }
  }

  lemma {:induction false} RootsViaAreRoots(m: Store, id: string, bs: seq<string>, rank: map<string, nat>)
    requires id in m && Ranked(m, rank)
    requires forall q :: q in bs ==> q in m[id].broader
    ensures forall x :: x in RootsVia(m, id, bs, rank) ==> x in m && m[x].broader == []
    ensures Closed(m) && bs != [] ==> RootsVia(m, id, bs, rank) != {}
    decreases rank[id], 0, |bs|
  {
    if bs != [] {
      if bs[0] in m {
        RootsAreRoots(m, bs[0], rank);
      }
      RootsViaAreRoots(m, id, bs[1..], rank);
    }
  }

  /**
   * With a truthful cache and every parent present, `get_topmost` succeeds
   * and returns a non-empty duplicate-free list of exactly the roots above
   * the term.
   */
  lemma {:induction false} TopmostIsRootsAbove(m: Store, id: string, rank: map<string, nat>)
    requires CacheSound(m, rank) && Closed(m) && id in m
    ensures TopmostOf(m, id, rank).Ok?
    ensures var top := TopmostOf(m, id, rank).value;
      && top != [] && NoDups(top)
      && forall x :: x in top <==> x in RootsAbove(m, id, rank)
    decreases rank[id], 1
  {
    if m[id].broader != [] {
      ItemsAreRootsVia(m, id, m[id].broader, rank);
      RootsAreRoots(m, id, rank);
      var top := TopmostOf(m, id, rank).value;
      assert RootsAbove(m, id, rank) != {};
      var x :| x in RootsAbove(m, id, rank);
      assert x in top;
    }
  }

  lemma {:induction false} ItemsAreRootsVia(m: Store, id: string, bs: seq<string>, rank: map<string, nat>)
    requires CacheSound(m, rank) && Closed(m) && id in m
    requires forall q :: q in bs ==> q in m[id].broader
    ensures ParentItems(m, id, bs, rank).Ok?
    ensures forall x :: x in LeavesList(ParentItems(m, id, bs, rank).value) <==> x in RootsVia(m, id, bs, rank)
    decreases rank[id], 0, |bs|
  {
    if bs != [] {
      var p := bs[0];
      assert CachedSound(m, p, rank);
      if m[p].topmost != Root && !(m[p].topmost.Roots? && m[p].topmost.ids != []) && m[p].broader != [] {
        TopmostIsRootsAbove(m, p, rank);
      }
      ItemsAreRootsVia(m, id, bs[1..], rank);
      var x := ParentItem(m, id, p, rank).value;
      var rest := ParentItems(m, id, bs[1..], rank).value;
      ListConcat([x], rest);
      assert [x][1..] == [];
    }
  }

  /** `RootsAbove` reads only `broader`, which a same-shape store shares. */
  lemma {:induction false} RootsAboveSameShape(m: Store, m': Store, id: string, rank: map<string, nat>)
    requires SameShape(m, m') && Ranked(m, rank) && id in m
    ensures Ranked(m', rank) && RootsAbove(m', id, rank) == RootsAbove(m, id, rank)
    decreases rank[id], 1
  {
    SameShapeRanked(m, m', rank);
    assert SameRecord(m[id], m'[id]);
    if m[id].broader != [] {
      RootsViaSameShape(m, m', id, m[id].broader, rank);
    }
  }

  lemma {:induction false} RootsViaSameShape(m: Store, m': Store, id: string, bs: seq<string>, rank: map<string, nat>)
    requires SameShape(m, m') && Ranked(m, rank) && id in m
    requires forall q :: q in bs ==> q in m[id].broader
    ensures Ranked(m', rank)
    ensures (forall q :: q in bs ==> q in m'[id].broader) && RootsVia(m', id, bs, rank) == RootsVia(m, id, bs, rank)
    decreases rank[id], 0, |bs|
  {
    SameShapeRanked(m, m', rank);
    assert SameRecord(m[id], m'[id]);
    if bs != [] {
      if bs[0] in m {
        RootsAboveSameShape(m, m', bs[0], rank);
      }
      RootsViaSameShape(m, m', id, bs[1..], rank);
    }
  }

  // ---------------------------------------------------------------------
  // The two phases

  /** Phase 1 (utils/parse-lcsh-and-create-db.py:286-291): every scanned term without parents gets `None`. */
  function MarkRoots(m: Store, scan: seq<string>): Store
    decreases |scan|
  {
    if scan == [] then m
    else
      var k := scan[0];
      MarkRoots(if k in m && m[k].broader == [] then m[k := m[k].(topmost := Root)] else m, scan[1..])
  }

  /**
   * Phase 2 (utils/parse-lcsh-and-create-db.py:293-299): every scanned term
   * whose `topmost` is still `[]` gets the result of `get_topmost`; a
   * failure ends the pass.
   */
  function Resolve(m: Store, scan: seq<string>, rank: map<string, nat>): PassResult
    requires Ranked(m, rank)
    decreases |scan|
  {
    if scan == [] then Done(m)
    else
      var k := scan[0];
      if k !in m || !Pending(m[k].topmost) then Resolve(m, scan[1..], rank)
      else
        match TopmostOf(m, k, rank)
        case Err(f) => Aborted(m, f)
        case Ok(top) =>
          var m' := m[k := m[k].(topmost := Roots(top))];
          SetTopmostShape(m, k, Roots(top));
          SameShapeRanked(m, m', rank);
          Resolve(m', scan[1..], rank)
  }

  /** Phase 1 then phase 2, each over its own cursor. */
  function TopmostPass(m: Store, roots: seq<string>, pending: seq<string>, rank: map<string, nat>): PassResult
    requires Ranked(m, rank)
  {
    MarkRootsShape(m, roots);
    SameShapeRanked(m, MarkRoots(m, roots), rank);
    Resolve(MarkRoots(m, roots), pending, rank)
  }

  lemma SetTopmostShape(m: Store, k: string, t: Topmost)
    requires k in m
    ensures SameShape(m, m[k := m[k].(topmost := t)])
  {
    var m' := m[k := m[k].(topmost := t)];
    forall j | j in m ensures SameRecord(m[j], m'[j]) {
    }
  }

  /** Phase 1 sets `None` exactly on the scanned terms without parents and changes nothing else. */
  lemma {:induction false} MarkRootsShape(m: Store, scan: seq<string>)
    ensures SameShape(m, MarkRoots(m, scan))
    ensures forall k :: k in m ==>
      MarkRoots(m, scan)[k].topmost == if k in scan && m[k].broader == [] then Root else m[k].topmost
    decreases |scan|
  {
    if scan != [] {
      var k := scan[0];
      var m1 := if k in m && m[k].broader == [] then m[k := m[k].(topmost := Root)] else m;
      if k in m && m[k].broader == [] {
        SetTopmostShape(m, k, Root);
      } else {
        SameShapeRefl(m);
      }
      MarkRootsShape(m1, scan[1..]);
      SameShapeTrans(m, m1, MarkRoots(m1, scan[1..]));
      forall j | j in m ensures MarkRoots(m, scan)[j].topmost == if j in scan && m[j].broader == [] then Root else m[j].topmost {
        assert SameRecord(m[j], m1[j]);
      }
    }
  }

  /**
   * Phase 2 over a truthful cache with every parent present: it runs to the
   * end, keeps the cache truthful, leaves settled values alone and settles
   * every scanned term.
   */
  lemma {:induction false} ResolveSettles(m: Store, scan: seq<string>, rank: map<string, nat>)
    requires CacheSound(m, rank) && Closed(m)
    ensures Resolve(m, scan, rank).Done?
    ensures var m' := Resolve(m, scan, rank).terms;
      && SameShape(m, m') && CacheSound(m', rank)
      && (forall k :: k in m && !Pending(m[k].topmost) ==> m'[k].topmost == m[k].topmost)
      && (forall k :: k in m && k in scan ==> !Pending(m'[k].topmost))
    decreases |scan|
  {
    if scan == [] {
      SameShapeRefl(m);
    } else {
      var k := scan[0];
      if k !in m || !Pending(m[k].topmost) {
        ResolveSettles(m, scan[1..], rank);
      } else {
        TopmostIsRootsAbove(m, k, rank);
        var top := TopmostOf(m, k, rank).value;
        var m1 := m[k := m[k].(topmost := Roots(top))];
        SetTopmostShape(m, k, Roots(top));
        SettleKeepsCache(m, k, top, rank);
        SameShapeClosed(m, m1);
        ResolveSettles(m1, scan[1..], rank);
        SameShapeTrans(m, m1, Resolve(m1, scan[1..], rank).terms);
      }
    }
  }

  /** Storing a term's true roots keeps the cache truthful. */
  lemma SettleKeepsCache(m: Store, k: string, top: seq<string>, rank: map<string, nat>)
    requires CacheSound(m, rank) && k in m
    requires top != [] && NoDups(top) && forall x :: x in top <==> x in RootsAbove(m, k, rank)
    ensures CacheSound(m[k := m[k].(topmost := Roots(top))], rank)
  {
    var m1 := m[k := m[k].(topmost := Roots(top))];
    SetTopmostShape(m, k, Roots(top));
    SameShapeRanked(m, m1, rank);
    forall j | j in m1 ensures CachedSound(m1, j, rank) {
      RootsAboveSameShape(m, m1, j, rank);
      assert SameRecord(m[j], m1[j]);
      if j != k {
        assert CachedSound(m, j, rank);
      }
    }
  }

  /**
   * The whole topmost pass on a store fresh from the first two passes
   * (every parent present, nothing computed yet): it runs to the end,
   * changes only `topmost`, sets `None` exactly on the terms without
   * parents, and gives every other term a non-empty duplicate-free list of
   * exactly the roots above it.
   */
  lemma TopmostPassCorrect(m: Store, roots: seq<string>, pending: seq<string>, rank: map<string, nat>)
    requires KeysMatch(m) && Closed(m) && Ranked(m, rank)
    requires IsScan(roots, m) && IsScan(pending, m)
    requires forall k :: k in m ==> m[k].topmost == Uncomputed
    ensures TopmostPass(m, roots, pending, rank).Done?
    ensures var m' := TopmostPass(m, roots, pending, rank).terms;
      && SameShape(m, m')
      && (forall k :: k in m ==> (m'[k].topmost == Root <==> m[k].broader == []))
      && (forall k :: k in m && m[k].broader != [] ==>
            && m'[k].topmost.Roots? && m'[k].topmost.ids != [] && NoDups(m'[k].topmost.ids)
            && forall x :: x in m'[k].topmost.ids <==> x in RootsAbove(m, k, rank))
  {
    MarkRootsShape(m, roots);
    var m1 := MarkRoots(m, roots);
    SameShapeRanked(m, m1, rank);
    SameShapeClosed(m, m1);
    assert KeysMatch(m1) by {
      forall k | k in m1 ensures m1[k].id == k {
        assert SameRecord(m[k], m1[k]);
      }
    }
    assert CacheSound(m1, rank) by {
      forall k | k in m1 ensures CachedSound(m1, k, rank) {
        assert SameRecord(m[k], m1[k]);
      }
    }
    ResolveSettles(m1, pending, rank);
    var m' := Resolve(m1, pending, rank).terms;
    SameShapeTrans(m, m1, m');
    forall k | k in m
      ensures (m'[k].topmost == Root <==> m[k].broader == [])
      ensures m[k].broader != [] ==>
        && m'[k].topmost.Roots? && m'[k].topmost.ids != [] && NoDups(m'[k].topmost.ids)
        && forall x :: x in m'[k].topmost.ids <==> x in RootsAbove(m, k, rank)
    {
      assert k in roots;
      SettledTerm(m, m1, m', k, rank);
    }
  }

  /** One term after both phases, from what each phase did to it. */
  lemma SettledTerm(m: Store, m1: Store, m': Store, k: string, rank: map<string, nat>)
    requires Ranked(m, rank) && k in m
    requires SameShape(m, m1) && SameShape(m, m') && CacheSound(m', rank)
    requires m1[k].topmost == if m[k].broader == [] then Root else Uncomputed
    requires !Pending(m1[k].topmost) ==> m'[k].topmost == m1[k].topmost
    requires !Pending(m'[k].topmost)
    ensures m'[k].topmost == Root <==> m[k].broader == []
    ensures m[k].broader != [] ==>
      && m'[k].topmost.Roots? && m'[k].topmost.ids != [] && NoDups(m'[k].topmost.ids)
      && forall x :: x in m'[k].topmost.ids <==> x in RootsAbove(m, k, rank)
  {
    assert SameRecord(m[k], m'[k]);
    assert CachedSound(m', k, rank);
    RootsAboveSameShape(m, m', k, rank);
  }

  // ---------------------------------------------------------------------
  // Roots are the ends of the broader-chains

  /** Every root above a term ends a chain of `broader` links that starts at the term. */
  lemma {:induction false} RootReachable(m: Store, id: string, rank: map<string, nat>, x: string) returns (p: Trace.Path)
    requires id in m && Ranked(m, rank) && KeysMatch(m)
    requires x in RootsAbove(m, id, rank)
    ensures Trace.IsRootChain(m, p) && p[0] == m[id] && p[|p| - 1].id == x
    decreases rank[id], 1
  {
    if m[id].broader == [] {
      p := [m[id]];
    } else {
      var b := ViaWitness(m, id, m[id].broader, rank, x);
      var q := RootReachable(m, b, rank, x);
      p := [m[id]] + q;
      forall k | 0 <= k < |p| - 1 ensures Trace.Link(m, p[k], p[k + 1]) {
        if k > 0 {
          assert p[k] == q[k - 1] && p[k + 1] == q[k];
        }
      }
    }
  }

  /** A root reached through the parents `bs` is above one of them. */
  lemma {:induction false} ViaWitness(m: Store, id: string, bs: seq<string>, rank: map<string, nat>, x: string) returns (b: string)
    requires id in m && Ranked(m, rank)
    requires forall q :: q in bs ==> q in m[id].broader
    requires x in RootsVia(m, id, bs, rank)
    ensures b in m[id].broader && b in m && rank[b] < rank[id] && x in RootsAbove(m, b, rank)
    decreases |bs|
  {
    if bs[0] in m && x in RootsAbove(m, bs[0], rank) {
      b := bs[0];
    } else {
      b := ViaWitness(m, id, bs[1..], rank, x);
    }
  }

  /** Conversely, the end of every chain of `broader` links from a term is a root above it. */
  lemma {:induction false} ChainEndIsRoot(m: Store, id: string, rank: map<string, nat>, p: Trace.Path)
    requires id in m && Ranked(m, rank) && KeysMatch(m)
    requires Trace.IsRootChain(m, p) && p[0] == m[id]
    ensures p[|p| - 1].id in RootsAbove(m, id, rank)
    decreases |p|
  {
    if |p| == 1 {
      assert m[id].broader == [];
    } else {
      assert Trace.Link(m, p[0], p[1]);
      var b := p[1].id;
      var q := p[1..];
      assert Trace.IsRootChain(m, q) by {
        forall k | 0 <= k < |q| - 1 ensures Trace.Link(m, q[k], q[k + 1]) {
          assert q[k] == p[k + 1] && q[k + 1] == p[k + 2];
        }
      }
      ChainEndIsRoot(m, b, rank, q);
      ViaIncludes(m, id, m[id].broader, rank, b);
    }
  }

  lemma {:induction false} ViaIncludes(m: Store, id: string, bs: seq<string>, rank: map<string, nat>, b: string)
    requires id in m && Ranked(m, rank)
    requires forall q :: q in bs ==> q in m[id].broader
    requires b in bs && b in m
    ensures RootsAbove(m, b, rank) <= RootsVia(m, id, bs, rank)
    decreases |bs|
  {
    if bs[0] != b {
      ViaIncludes(m, id, bs[1..], rank, b);
    }
  }

  /** Whatever its outcome, the topmost pass writes only `topmost` values. */
  lemma TopmostKeepsNarrower(m: Store, roots: seq<string>, pending: seq<string>, rank: map<string, nat>)
    requires Ranked(m, rank)
    ensures var m' := TopmostPass(m, roots, pending, rank).terms;
      && SameShape(m, m') && forall k :: k in m ==> m'[k].narrower == m[k].narrower
  {
    MarkKeepsNarrower(m, roots);
    var m1 := MarkRoots(m, roots);
    SameShapeRanked(m, m1, rank);
    ResolveKeepsNarrower(m1, pending, rank);
    SameShapeTrans(m, m1, Resolve(m1, pending, rank).terms);
  }

  lemma {:induction false} MarkKeepsNarrower(m: Store, scan: seq<string>)
    ensures var m' := MarkRoots(m, scan);
      && SameShape(m, m') && forall k :: k in m ==> m'[k].narrower == m[k].narrower
    decreases |scan|
  {
    if scan == [] {
      SameShapeRefl(m);
    } else {
      var k := scan[0];
      var m1 := if k in m && m[k].broader == [] then m[k := m[k].(topmost := Root)] else m;
      if k in m && m[k].broader == [] {
        SetTopmostShape(m, k, Root);
      } else {
        SameShapeRefl(m);
      }
      MarkKeepsNarrower(m1, scan[1..]);
      SameShapeTrans(m, m1, MarkRoots(m1, scan[1..]));
    }
  }

  lemma {:induction false} ResolveKeepsNarrower(m: Store, scan: seq<string>, rank: map<string, nat>)
    requires Ranked(m, rank)
    ensures var m' := Resolve(m, scan, rank).terms;
      && SameShape(m, m') && forall k :: k in m ==> m'[k].narrower == m[k].narrower
    decreases |scan|
  {
    if scan == [] {
      SameShapeRefl(m);
    } else {
      var k := scan[0];
      if k !in m || !Pending(m[k].topmost) || TopmostOf(m, k, rank).Err? {
        if k !in m || !Pending(m[k].topmost) {
          ResolveKeepsNarrower(m, scan[1..], rank);
        } else {
          SameShapeRefl(m);
        }
      } else {
        var m1 := m[k := m[k].(topmost := Roots(TopmostOf(m, k, rank).value))];
        SetTopmostShape(m, k, Roots(TopmostOf(m, k, rank).value));
        SameShapeRanked(m, m1, rank);
        ResolveKeepsNarrower(m1, scan[1..], rank);
        SameShapeTrans(m, m1, Resolve(m1, scan[1..], rank).terms);
      }
    }
  }
}
