/**
 * The second pass of the build script (utils/parse-lcsh-and-create-db.py:253-269):
 * for every term that has parents, append its identifier to the `narrower`
 * list of each parent, in `broader` order. `narrower` becomes the inverse
 * of `broader` as a multiset relation.
 */
module Narrower {
  import opened Lcsh

  /**
   * The inner loop for child `c`: append `c` to the `narrower` list of each
   * parent in `bs`. A parent without a record ends the pass, keeping the
   * appends already written.
   */
  function LinkChild(m: Store, c: string, bs: seq<string>): PassResult
    decreases |bs|
  {
    if bs == [] then Done(m)
    else if bs[0] !in m then Aborted(m, MissingRecord(bs[0]))
    else LinkChild(m[bs[0] := m[bs[0]].(narrower := m[bs[0]].narrower + [c])], c, bs[1..])
  }

  /** The outer loop over a cursor of the records whose `broader` list is not empty. */
  function NarrowerFold(m: Store, scan: seq<string>): PassResult
    decreases |scan|
  {
    if scan == [] then Done(m)
    else
      var c := scan[0];
      if c !in m || m[c].broader == [] then NarrowerFold(m, scan[1..])
      else
        match LinkChild(m, c, m[c].broader)
        case Aborted(m', f) => Aborted(m', f)
        case Done(m') => NarrowerFold(m', scan[1..])
  }

  function Repeat(c: string, n: nat): (r: seq<string>)
    ensures |r| == n
  {
    if n == 0 then [] else [c] + Repeat(c, n - 1)
  }

  /**
   * What the pass appends to the `narrower` list of `p`: each child in
   * cursor order, once per occurrence of `p` in its `broader` list.
   */
  function Children(m: Store, scan: seq<string>, p: string): seq<string>
    decreases |scan|
  {
    if scan == [] then []
    else (if scan[0] in m then Repeat(scan[0], Count(m[scan[0]].broader, p)) else []) + Children(m, scan[1..], p)
  }

  // ---------------------------------------------------------------------
  // Lemmas

  lemma {:induction false} CountConcat<T>(a: seq<T>, b: seq<T>, x: T)
    ensures Count(a + b, x) == Count(a, x) + Count(b, x)
    decreases |a|
  {
    if a == [] {
      assert a + b == b;
    } else {
      assert (a + b)[0] == a[0] && (a + b)[1..] == a[1..] + b;
      CountConcat(a[1..], b, x);
    }
  }

  lemma {:induction false} CountRepeat(c: string, n: nat, x: string)
    ensures Count(Repeat(c, n), x) == if c == x then n else 0
    decreases n
  {
    if n > 0 {
      assert Repeat(c, n)[0] == c && Repeat(c, n)[1..] == Repeat(c, n - 1);
      CountRepeat(c, n - 1, x);
    }
  }

  /** `Children` reads only `broader`, which a same-shape store shares. */
  lemma {:induction false} ChildrenSameShape(m: Store, m': Store, scan: seq<string>, p: string)
    requires SameShape(m, m')
    ensures Children(m', scan, p) == Children(m, scan, p)
    decreases |scan|
  {
    if scan != [] {
      if scan[0] in m {
        assert SameRecord(m[scan[0]], m'[scan[0]]);
      }
      ChildrenSameShape(m, m', scan[1..], p);
    }
  }

  /**
   * With every parent present, linking `c` appends it to the list of each
   * parent as often as that parent occurs in `bs`, and changes nothing else.
   */
  lemma {:induction false} LinkChildAppends(m: Store, c: string, bs: seq<string>)
    requires forall q :: q in bs ==> q in m
    ensures LinkChild(m, c, bs).Done?
    ensures var m' := LinkChild(m, c, bs).terms;
      && SameShape(m, m')
      && forall p :: p in m ==> m'[p].narrower == m[p].narrower + Repeat(c, Count(bs, p))
    decreases |bs|
  {
    if bs != [] {
      var b := bs[0];
      var m1 := m[b := m[b].(narrower := m[b].narrower + [c])];
      assert SameShape(m, m1) by {
        forall k | k in m ensures SameRecord(m[k], m1[k]) {
        }
      }
      assert LinkChild(m, c, bs) == LinkChild(m1, c, bs[1..]);
      LinkChildAppends(m1, c, bs[1..]);
      var m' := LinkChild(m1, c, bs[1..]).terms;
      SameShapeTrans(m, m1, m');
    }
  }

  /** Linking fails only on the first parent in `bs` that has no record. */
  lemma {:induction false} LinkChildFails(m: Store, c: string, bs: seq<string>)
    ensures LinkChild(m, c, bs).Aborted? ==> LinkChild(m, c, bs).failure.id in bs && LinkChild(m, c, bs).failure.id !in m
    decreases |bs|
  {
    if bs != [] && bs[0] in m {
      var b := bs[0];
      LinkChildFails(m[b := m[b].(narrower := m[b].narrower + [c])], c, bs[1..]);
    }
  }

  /**
   * When every `broader` identifier has a record, the pass runs to the end,
   * leaves everything but `narrower` alone, and appends to each `narrower`
   * list exactly `Children`.
   */
  lemma {:induction false} NarrowerAppendsChildren(m: Store, scan: seq<string>)
    requires Closed(m)
    ensures NarrowerFold(m, scan).Done?
    ensures var m' := NarrowerFold(m, scan).terms;
      && SameShape(m, m')
      && forall p :: p in m ==> m'[p].narrower == m[p].narrower + Children(m, scan, p)
    decreases |scan|
  {
    if scan == [] {
      forall p | p in m ensures m[p].narrower == m[p].narrower + Children(m, scan, p) {
        assert m[p].narrower + [] == m[p].narrower;
      }
    } else if scan[0] !in m || m[scan[0]].broader == [] {
      NarrowerAppendsChildren(m, scan[1..]);
      SkipStep(m, scan);
    } else {
      var c := scan[0];
      LinkChildAppends(m, c, m[c].broader);
      var m1 := LinkChild(m, c, m[c].broader).terms;
      SameShapeClosed(m, m1);
      NarrowerAppendsChildren(m1, scan[1..]);
      LinkStep(m, m1, NarrowerFold(m1, scan[1..]).terms, scan);
    }
  }

  /** A cursor entry without parents adds nothing to any `narrower` list. */
  lemma SkipStep(m: Store, scan: seq<string>)
    requires scan != [] && (scan[0] !in m || m[scan[0]].broader == [])
    ensures NarrowerFold(m, scan) == NarrowerFold(m, scan[1..])
    ensures forall p :: Children(m, scan, p) == Children(m, scan[1..], p)
  {
    forall p ensures Children(m, scan, p) == Children(m, scan[1..], p) {
      assert scan[0] in m ==> Count(m[scan[0]].broader, p) == 0;
      assert [] + Children(m, scan[1..], p) == Children(m, scan[1..], p);
    }
  }

  /** The appends of one child followed by those of the rest of the cursor are the appends of the whole cursor. */
  lemma LinkStep(m: Store, m1: Store, m': Store, scan: seq<string>)
    requires scan != [] && scan[0] in m && m[scan[0]].broader != []
    requires LinkChild(m, scan[0], m[scan[0]].broader) == Done(m1)
    requires SameShape(m, m1) && SameShape(m1, m')
    requires forall p :: p in m ==> m1[p].narrower == m[p].narrower + Repeat(scan[0], Count(m[scan[0]].broader, p))
    requires forall p :: p in m1 ==> m'[p].narrower == m1[p].narrower + Children(m1, scan[1..], p)
    requires NarrowerFold(m1, scan[1..]) == Done(m')
    ensures NarrowerFold(m, scan) == Done(m')
    ensures SameShape(m, m')
    ensures forall p :: p in m ==> m'[p].narrower == m[p].narrower + Children(m, scan, p)
  {
    SameShapeTrans(m, m1, m');
    forall p | p in m ensures m'[p].narrower == m[p].narrower + Children(m, scan, p) {
      ChildrenSameShape(m, m1, scan[1..], p);
      AppendStep(m[p].narrower, m1[p].narrower, m'[p].narrower, m, scan, p);
    }
  }

  lemma AppendStep(before: seq<string>, mid: seq<string>, after: seq<string>, m: Store, scan: seq<string>, p: string)
    requires scan != [] && scan[0] in m
    requires mid == before + Repeat(scan[0], Count(m[scan[0]].broader, p))
    requires after == mid + Children(m, scan[1..], p)
    ensures after == before + Children(m, scan, p)
  {
    var r := Repeat(scan[0], Count(m[scan[0]].broader, p));
    assert Children(m, scan, p) == r + Children(m, scan[1..], p);
    assert after == before + (r + Children(m, scan[1..], p));
  }

  /** The pass aborts only on a parent identifier that has no record. */
  lemma {:induction false} NarrowerFailsOnlyOnMissing(m: Store, scan: seq<string>)
    ensures NarrowerFold(m, scan).Aborted? ==> NarrowerFold(m, scan).failure.id !in m
    decreases |scan|
  {
    if scan != [] {
      var c := scan[0];
      if c !in m || m[c].broader == [] {
        NarrowerFailsOnlyOnMissing(m, scan[1..]);
      } else {
        LinkChildFails(m, c, m[c].broader);
        var r := LinkChild(m, c, m[c].broader);
        if r.Done? {
          LinkChildKeys(m, c, m[c].broader);
          NarrowerFailsOnlyOnMissing(r.terms, scan[1..]);
        }
      }
    }
  }

  lemma {:induction false} LinkChildKeys(m: Store, c: string, bs: seq<string>)
    ensures LinkChild(m, c, bs).terms.Keys == m.Keys
    decreases |bs|
  {
    if bs != [] && bs[0] in m {
      var b := bs[0];
      LinkChildKeys(m[b := m[b].(narrower := m[b].narrower + [c])], c, bs[1..]);
    }
  }

  /** Over a duplicate-free cursor, `c` occurs in `Children(m, scan, p)` as often as `p` occurs in `c`'s `broader`. */
  lemma {:induction false} ChildrenCount(m: Store, scan: seq<string>, p: string, c: string)
    requires forall i, j :: 0 <= i < j < |scan| ==> scan[i] != scan[j]
    ensures Count(Children(m, scan, p), c) == if c in scan && c in m then Count(m[c].broader, p) else 0
    decreases |scan|
  {
    if scan != [] {
      var x := scan[0];
      var r := if x in m then Repeat(x, Count(m[x].broader, p)) else [];
      CountConcat(r, Children(m, scan[1..], p), c);
      if x in m {
        CountRepeat(x, Count(m[x].broader, p), c);
      }
      assert forall i, j :: 0 <= i < j < |scan[1..]| ==> scan[1..][i] != scan[1..][j] by {
        forall i, j | 0 <= i < j < |scan[1..]| ensures scan[1..][i] != scan[1..][j] {
          assert scan[1..][i] == scan[i + 1] && scan[1..][j] == scan[j + 1];
        }
      }
      ChildrenCount(m, scan[1..], p, c);
      if x == c {
        assert c !in scan[1..] by {
          forall i | 0 <= i < |scan[1..]| ensures scan[1..][i] != c {
            assert scan[1..][i] == scan[i + 1];
          }
        }
      }
    }
  }

  /**
   * Starting from empty `narrower` lists over a closed store, the pass
   * makes `narrower` the inverse of `broader`: `c` occurs in the `narrower`
   * list of `p` exactly as often as `p` occurs in the `broader` list of
   * `c`, so in particular `c` is narrower than `p` iff `p` is broader than
   * `c`, and `broader` itself is unchanged.
   */
  lemma NarrowerInvertsBroader(m: Store, scan: seq<string>)
    requires Closed(m) && IsScan(scan, m)
    requires forall k :: k in m ==> m[k].narrower == []
    ensures NarrowerFold(m, scan).Done?
    ensures var m' := NarrowerFold(m, scan).terms;
      && SameShape(m, m')
      && (forall p, c :: p in m && c in m ==> Count(m'[p].narrower, c) == Count(m'[c].broader, p))
      && (forall p, c :: p in m && c in m ==> (c in m'[p].narrower <==> p in m'[c].broader))
      && (forall p, c :: p in m && c in m'[p].narrower ==> c in m)
  {
    NarrowerAppendsChildren(m, scan);
    var m' := NarrowerFold(m, scan).terms;
    forall p, c | p in m ensures Count(m'[p].narrower, c) == if c in m then Count(m'[c].broader, p) else 0 {
      FromEmpty(m, m', scan, p, c);
    }
    forall p, c | p in m && c in m'[p].narrower ensures c in m {
      FromEmpty(m, m', scan, p, c);
      assert Count(m'[p].narrower, c) > 0;
    }
  }

  /** The count of one child in one parent's list, when that list started empty. */
  lemma FromEmpty(m: Store, m': Store, scan: seq<string>, p: string, c: string)
    requires IsScan(scan, m) && SameShape(m, m') && p in m
    requires m'[p].narrower == [] + Children(m, scan, p)
    ensures Count(m'[p].narrower, c) == if c in m then Count(m'[c].broader, p) else 0
  {
    ChildrenCount(m, scan, p, c);
    assert m'[p].narrower == Children(m, scan, p);
    if c in m {
      assert SameRecord(m[c], m'[c]);
    }
  }

  /**
   * The pass appends rather than rebuilds: run a second time it counts
   * every link twice, so it is not idempotent.
   */
  lemma NarrowerRerunDoubles(m: Store, scan: seq<string>)
    requires Closed(m) && IsScan(scan, m)
    requires forall k :: k in m ==> m[k].narrower == []
    ensures NarrowerFold(m, scan).terms.Keys == m.Keys
    ensures NarrowerFold(NarrowerFold(m, scan).terms, scan).terms.Keys == m.Keys
    ensures var m1 := NarrowerFold(m, scan).terms; var m2 := NarrowerFold(m1, scan).terms;
      && (forall p, c :: p in m && c in m ==> Count(m2[p].narrower, c) == 2 * Count(m[c].broader, p))
      && (forall c :: c in m && m[c].broader != [] ==> m2 != m1)
  {
    NarrowerAppendsChildren(m, scan);
    var m1 := NarrowerFold(m, scan).terms;
    SameShapeClosed(m, m1);
    NarrowerAppendsChildren(m1, scan);
    var m2 := NarrowerFold(m1, scan).terms;
    forall p, c | p in m && c in m ensures Count(m2[p].narrower, c) == 2 * Count(m[c].broader, p) {
      Rerun(m, m1, m2, scan, p, c);
    }
    forall c | c in m && m[c].broader != [] ensures m2 != m1 {
      var p := m[c].broader[0];
      Rerun(m, m1, m2, scan, p, c);
      assert Count(m[c].broader, p) > 0;
    }
  }

  lemma Rerun(m: Store, m1: Store, m2: Store, scan: seq<string>, p: string, c: string)
    requires IsScan(scan, m) && SameShape(m, m1) && p in m && c in m && p in m2
    requires m1[p].narrower == [] + Children(m, scan, p)
    requires m2[p].narrower == m1[p].narrower + Children(m1, scan, p)
    ensures Count(m1[p].narrower, c) == Count(m[c].broader, p)
    ensures Count(m2[p].narrower, c) == 2 * Count(m[c].broader, p)
  {
    ChildrenCount(m, scan, p, c);
    ChildrenSameShape(m, m1, scan, p);
    assert m1[p].narrower == Children(m, scan, p);
    CountConcat(m1[p].narrower, Children(m1, scan, p), c);
  }

  /** Whatever its outcome, the pass writes only `narrower` lists. */
  lemma {:induction false} NarrowerKeepsTopmost(m: Store, scan: seq<string>)
    ensures var m' := NarrowerFold(m, scan).terms;
      && SameShape(m, m') && forall k :: k in m ==> m'[k].topmost == m[k].topmost
    decreases |scan|
  {
    if scan == [] {
      SameShapeRefl(m);
    } else {
      var c := scan[0];
      if c !in m || m[c].broader == [] {
        NarrowerKeepsTopmost(m, scan[1..]);
      } else {
        LinkKeepsTopmost(m, c, m[c].broader);
        var m1 := LinkChild(m, c, m[c].broader).terms;
        if LinkChild(m, c, m[c].broader).Done? {
          NarrowerKeepsTopmost(m1, scan[1..]);
          SameShapeTrans(m, m1, NarrowerFold(m1, scan[1..]).terms);
        }
      }
    }
  }

  lemma {:induction false} LinkKeepsTopmost(m: Store, c: string, bs: seq<string>)
    ensures var m' := LinkChild(m, c, bs).terms;
      && SameShape(m, m') && forall k :: k in m ==> m'[k].topmost == m[k].topmost
    decreases |bs|
  {
    if bs == [] || bs[0] !in m {
      SameShapeRefl(m);
    } else {
      var b := bs[0];
      var m1 := m[b := m[b].(narrower := m[b].narrower + [c])];
      assert SameShape(m, m1) by {
        forall k | k in m ensures SameRecord(m[k], m1[k]) {
        }
      }
      LinkKeepsTopmost(m1, c, bs[1..]);
      SameShapeTrans(m, m1, LinkChild(m1, c, bs[1..]).terms);
    }
  }
}
