/**
 * The path tracer `get_paths` and the path renderer `print_paths`, which the
 * three query front ends share (dassie/query_dassie.py:199-232,
 * locterms/query_locterms.py:180-213, query-locterms.py:109-139).
 *
 * A path is a list of term records from the traced term up to a term with
 * no `broader` entry. The store is a read-only map; acyclicity of `broader`
 * is a rank map, which the source does not check.
 */
module Trace {
  import opened Wrappers
  import opened Lcsh
  import opened Text

  type Path = seq<Term>

  /** `[entry] + path` for every path, in order. */
  function Prepend(t: Term, ps: seq<Path>): (r: seq<Path>)
    ensures |r| == |ps|
    ensures forall k :: 0 <= k < |ps| ==> r[k] == [t] + ps[k]
    decreases |ps|
  {
    if ps == [] then [] else [[t] + ps[0]] + Prepend(t, ps[1..])
  }

  /**
   * What `get_paths` returns for the record stored under `id`: `Err(b)` when
   * the broader identifier `b` does not resolve.
   */
  function AllPaths(m: Store, id: string, rank: map<string, nat>): Result<seq<Path>, string>
    requires id in m && Ranked(m, rank)
    decreases rank[id], 1, 0
  {
    if m[id].broader == [] then Ok([[m[id]]])
    else PathsVia(m, id, m[id].broader, rank)
  }

  /** The paths through the parents `bs` (a suffix of the term's `broader`), in list order. */
  function PathsVia(m: Store, id: string, bs: seq<string>, rank: map<string, nat>): Result<seq<Path>, string>
    requires id in m && Ranked(m, rank)
    requires forall q :: q in bs ==> q in m[id].broader
    decreases rank[id], 0, |bs|
  {
    if bs == [] then Ok([])
    else
      var b := bs[0];
      if b !in m then Err(b)
      else
        match ViaParent(m, id, b, rank)
        case Err(e) => Err(e)
        case Ok(here) => Then(here, PathsVia(m, id, bs[1..], rank))
  }

  /** The paths that go from the term to its parent `b` first. */
  function ViaParent(m: Store, id: string, b: string, rank: map<string, nat>): Result<seq<Path>, string>
    requires id in m && Ranked(m, rank) && b in m && b in m[id].broader
    decreases rank[id], 0, 0
  {
    if m[b].broader != [] then
      match AllPaths(m, b, rank)
      case Err(e) => Err(e)
      case Ok(ps) => Ok(Prepend(m[id], ps))
    else Ok([[m[id], m[b]]])
  }

  /**
   * `get_paths` (dassie/query_dassie.py:199-215): a loop over the `broader`
   * list that appends to `paths`, recursing into parents that have parents.
   */
  method GetPaths(m: Store, id: string, ghost rank: map<string, nat>) returns (r: Result<seq<Path>, string>)
    requires id in m && Ranked(m, rank)
    ensures r == AllPaths(m, id, rank)
    decreases rank[id], 1, 0
  {
    var entry := m[id];
    if entry.broader == [] {
      return Ok([[entry]]);
    }
    var paths: seq<Path> := [];
    var bs := entry.broader;
    var k := 0;
    assert bs[k..] == bs;
    assert AllPaths(m, id, rank) == PathsVia(m, id, bs, rank);
    ThenNothing(PathsVia(m, id, bs, rank));
    while k < |bs|
      invariant 0 <= k <= |bs|
      invariant AllPaths(m, id, rank) == Then(paths, PathsVia(m, id, bs[k..], rank))
    {
      var b := bs[k];
      ViaStep(m, id, bs, k, rank);
      if b !in m {
        return Err(b);
      }
      var parent := m[b];
      if parent.broader != [] {
        var sub := GetPaths(m, b, rank);
        if sub.Err? {
          return Err(sub.error);
        }
        ThenThen(paths, Prepend(entry, sub.value), PathsVia(m, id, bs[k + 1..], rank));
        paths := AppendPrefixed(paths, entry, sub.value);
      } else {
        ThenThen(paths, [[entry, parent]], PathsVia(m, id, bs[k + 1..], rank));
        paths := paths + [[entry, parent]];
      }
      k := k + 1;
    }
    assert bs[k..] == [];
    assert paths + [] == paths;
    return Ok(paths);
  }

  /** The inner loop of `get_paths`: append `[entry] + path` for each path of the parent. */
  method AppendPrefixed(paths: seq<Path>, entry: Term, ps: seq<Path>) returns (r: seq<Path>)
    ensures r == paths + Prepend(entry, ps)
  {
    r := paths;
    var j := 0;
    while j < |ps|
      invariant 0 <= j <= |ps|
      invariant r == paths + Prepend(entry, ps[..j])
    {
      assert Prepend(entry, ps[..j + 1]) == Prepend(entry, ps[..j]) + [[entry] + ps[j]];
      r := r + [[entry] + ps[j]];
      j := j + 1;
    }
    assert ps[..j] == ps;
  }

  /** One step of the trace through `bs[k..]`. */
  lemma ViaStep(m: Store, id: string, bs: seq<string>, k: nat, rank: map<string, nat>)
    requires id in m && Ranked(m, rank) && bs == m[id].broader && k < |bs|
    ensures bs[k] !in m ==> PathsVia(m, id, bs[k..], rank) == Err(bs[k])
    ensures bs[k] in m && ViaParent(m, id, bs[k], rank).Err? ==>
      PathsVia(m, id, bs[k..], rank) == Err(ViaParent(m, id, bs[k], rank).error)
    ensures bs[k] in m && ViaParent(m, id, bs[k], rank).Ok? ==>
      PathsVia(m, id, bs[k..], rank) == Then(ViaParent(m, id, bs[k], rank).value, PathsVia(m, id, bs[k + 1..], rank))
    ensures bs[k] in m && m[bs[k]].broader != [] && AllPaths(m, bs[k], rank).Ok? ==>
      ViaParent(m, id, bs[k], rank) == Ok(Prepend(m[id], AllPaths(m, bs[k], rank).value))
    ensures bs[k] in m && m[bs[k]].broader != [] && AllPaths(m, bs[k], rank).Err? ==>
      ViaParent(m, id, bs[k], rank) == Err(AllPaths(m, bs[k], rank).error)
    ensures bs[k] in m && m[bs[k]].broader == [] ==> ViaParent(m, id, bs[k], rank) == Ok([[m[id], m[bs[k]]]])
  {
    assert bs[k..][0] == bs[k] && bs[k..][1..] == bs[k + 1..];
  }

  /**
   * A chain of records along `broader` links that ends at a term with no
   * `broader` entry: each element after the first is the record of one of
   * the previous element's `broader` identifiers.
   */
  predicate IsRootChain(m: Store, p: Path) {
    && |p| >= 1
    && p[|p| - 1].broader == []
    && forall k :: 0 <= k < |p| - 1 ==> Link(m, p[k], p[k + 1])
  }

  /** `parent` is the stored record of one of `child`'s `broader` identifiers. */
  predicate Link(m: Store, child: Term, parent: Term) {
    parent.id in child.broader && parent.id in m && m[parent.id] == parent
  }

  /** Every traced path starts at the term and is a chain to a root. */
  lemma {:induction false} TracedPathsAreRootChains(m: Store, id: string, rank: map<string, nat>)
    requires id in m && Ranked(m, rank) && KeysMatch(m)
    requires AllPaths(m, id, rank).Ok?
    ensures forall p :: p in AllPaths(m, id, rank).value ==> IsRootChain(m, p) && p[0] == m[id]
    decreases rank[id], 1
  {
    if m[id].broader != [] {
      ViaChains(m, id, m[id].broader, rank);
    }
  }

  lemma {:induction false} ViaChains(m: Store, id: string, bs: seq<string>, rank: map<string, nat>)
    requires id in m && Ranked(m, rank) && KeysMatch(m)
    requires forall q :: q in bs ==> q in m[id].broader
    requires PathsVia(m, id, bs, rank).Ok?
    ensures forall p :: p in PathsVia(m, id, bs, rank).value ==> IsRootChain(m, p) && p[0] == m[id]
    decreases rank[id], 0, |bs|
  {
    if bs != [] {
      var b := bs[0];
      var here := ViaParent(m, id, b, rank).value;
      if m[b].broader != [] {
        TracedPathsAreRootChains(m, b, rank);
        var ps := AllPaths(m, b, rank).value;
        forall p | p in here ensures IsRootChain(m, p) && p[0] == m[id] {
          var k :| 0 <= k < |ps| && p == [m[id]] + ps[k];
          assert ps[k] in ps;
          assert p[1..] == ps[k];
        }
      }
      ViaChains(m, id, bs[1..], rank);
    }
  }

  /** Every chain from the term to a root is among the traced paths: the tracer misses none. */
  lemma {:induction false} RootChainsAreTraced(m: Store, id: string, rank: map<string, nat>, p: Path)
    requires id in m && Ranked(m, rank) && KeysMatch(m)
    requires AllPaths(m, id, rank).Ok?
    requires IsRootChain(m, p) && p[0] == m[id]
    ensures p in AllPaths(m, id, rank).value
    decreases rank[id], 1
  {
    if m[id].broader == [] {
      assert |p| == 1 || Link(m, p[0], p[1]);
      assert p == [m[id]];
    } else {
      assert |p| >= 2;
      assert Link(m, p[0], p[1]);
      var b := p[1].id;
      var tail := p[1..];
      assert IsRootChain(m, tail) by {
        forall k | 0 <= k < |tail| - 1
          ensures Link(m, tail[k], tail[k + 1])
        {
          assert tail[k] == p[k + 1] && tail[k + 1] == p[k + 2];
          assert Link(m, p[k + 1], p[k + 2]);
        }
      }
      ViaParentInVia(m, id, m[id].broader, b, rank);
      var here := ViaParent(m, id, b, rank).value;
      if m[b].broader != [] {
        RootChainsAreTraced(m, b, rank, tail);
        var ps := AllPaths(m, b, rank).value;
        var k :| 0 <= k < |ps| && ps[k] == tail;
        assert here[k] == [m[id]] + tail == p;
      } else {
        assert |tail| == 1 || Link(m, tail[0], tail[1]);
        assert p == [m[id], m[b]];
      }
    }
  }

  /** A successful trace through `bs` contains the paths via each parent in `bs`. */
  lemma {:induction false} ViaParentInVia(m: Store, id: string, bs: seq<string>, b: string, rank: map<string, nat>)
    requires id in m && Ranked(m, rank)
    requires forall q :: q in bs ==> q in m[id].broader
    requires PathsVia(m, id, bs, rank).Ok? && b in bs
    ensures b in m && ViaParent(m, id, b, rank).Ok?
    ensures forall p :: p in ViaParent(m, id, b, rank).value ==> p in PathsVia(m, id, bs, rank).value
    decreases |bs|
  {
    if bs[0] != b {
      ViaParentInVia(m, id, bs[1..], b, rank);
    }
  }

  /** The number of root paths, counted independently: one for a root, else the sum over the parents. */
  function NumPaths(m: Store, id: string, rank: map<string, nat>): nat
    requires id in m && Ranked(m, rank)
    decreases rank[id], 1, 0
  {
    if m[id].broader == [] then 1 else SumPaths(m, id, m[id].broader, rank)
  }

  function SumPaths(m: Store, id: string, bs: seq<string>, rank: map<string, nat>): nat
    requires id in m && Ranked(m, rank)
    requires forall q :: q in bs ==> q in m[id].broader
    decreases rank[id], 0, |bs|
  {
    if bs == [] then 0
    else (if bs[0] in m then NumPaths(m, bs[0], rank) else 0) + SumPaths(m, id, bs[1..], rank)
  }

  /** A successful trace returns exactly the sum, over the parents, of each parent's path count. */
  lemma {:induction false} PathCount(m: Store, id: string, rank: map<string, nat>)
    requires id in m && Ranked(m, rank)
    requires AllPaths(m, id, rank).Ok?
    ensures |AllPaths(m, id, rank).value| == NumPaths(m, id, rank)
    decreases rank[id], 1
  {
    if m[id].broader != [] {
      SumCount(m, id, m[id].broader, rank);
    }
  }

  lemma {:induction false} SumCount(m: Store, id: string, bs: seq<string>, rank: map<string, nat>)
    requires id in m && Ranked(m, rank)
    requires forall q :: q in bs ==> q in m[id].broader
    requires PathsVia(m, id, bs, rank).Ok?
    ensures |PathsVia(m, id, bs, rank).value| == SumPaths(m, id, bs, rank)
    decreases rank[id], 0, |bs|
  {
    if bs != [] {
      var b := bs[0];
      if m[b].broader != [] {
        PathCount(m, b, rank);
      }
      SumCount(m, id, bs[1..], rank);
    }
  }

  /** The trace fails only on an identifier without a record, so it never fails on a closed store. */
  lemma {:induction false} TraceFailsOnlyOnMissing(m: Store, id: string, rank: map<string, nat>)
    requires id in m && Ranked(m, rank)
    ensures AllPaths(m, id, rank).Err? ==> AllPaths(m, id, rank).error !in m
    ensures Closed(m) ==> AllPaths(m, id, rank).Ok?
    decreases rank[id], 1
  {
    if m[id].broader != [] {
      ViaFailsOnlyOnMissing(m, id, m[id].broader, rank);
    }
  }

  lemma {:induction false} ViaFailsOnlyOnMissing(m: Store, id: string, bs: seq<string>, rank: map<string, nat>)
    requires id in m && Ranked(m, rank)
    requires forall q :: q in bs ==> q in m[id].broader
    ensures PathsVia(m, id, bs, rank).Err? ==> PathsVia(m, id, bs, rank).error !in m
    ensures Closed(m) ==> PathsVia(m, id, bs, rank).Ok?
    decreases rank[id], 0, |bs|
  {
    if bs != [] && bs[0] in m {
      if m[bs[0]].broader != [] {
        TraceFailsOnlyOnMissing(m, bs[0], rank);
      }
      ViaFailsOnlyOnMissing(m, id, bs[1..], rank);
    }
  }

  // ---------------------------------------------------------------------
  // Rendering (`print_paths` and `print_one`)

  /**
   * One printed line: an indented term (`print_one`) or the empty line
   * `msg('')` that closes each path.
   */
  datatype Line = Entry(indent: string, id: string, shown: string) | Blank

  /** The text of a line when output is not coloured. */
  function LineText(l: Line): string {
    match l
    case Entry(indent, id, shown) => indent + id + ": " + shown
    case Blank => ""
  }

  /** The label `print_one` shows: the preferred label, or "(no label)" when it is empty. */
  function ShownLabel(t: Term): (r: string)
    ensures t.prefLabel != "" ==> r == t.prefLabel
    ensures t.prefLabel == "" ==> r == "(no label)"
  {
    if t.prefLabel != "" then t.prefLabel else "(no label)"
  }

  function Spaces(n: nat): (r: string)
    ensures |r| == n && forall i :: 0 <= i < n ==> r[i] == ' '
  {
    Chars(' ', n)
  }

  /** The tree glyph that starts every line after a path's first. */
  const Branch: string := "\U{2514}\U{2500} "

  /** The indent of the line at depth `j` below the root: none for the root. */
  function Indent(j: nat): string {
    if j == 0 then "" else Spaces(3 * (j - 1)) + Branch
  }

  function Reversed(p: Path): (r: Path)
    ensures |r| == |p|
    ensures forall k :: 0 <= k < |p| ==> r[k] == p[|p| - 1 - k]
  {
    if p == [] then [] else Reversed(p[1..]) + [p[0]]
  }

  /** The line for depth `j` of path `p`, counting from the root end. */
  function Row(p: Path, j: nat): Line
    requires j < |p|
  {
    Entry(Indent(j), p[|p| - 1 - j].id, ShownLabel(p[|p| - 1 - j]))
  }

  /** The first `n` lines of a path's block. */
  function Rows(p: Path, n: nat): (lines: seq<Line>)
    requires n <= |p|
    ensures |lines| == n && forall j :: 0 <= j < n ==> lines[j] == Row(p, j)
  {
    if n == 0 then [] else Rows(p, n - 1) + [Row(p, n - 1)]
  }

  /**
   * The block printed for one path: its terms root first, the root without
   * indent and the line at depth `j` indented by 3(j-1) spaces and the glyph,
   * then one empty line.
   */
  function RenderPath(p: Path): (lines: seq<Line>)
    requires |p| >= 1
    ensures |lines| == |p| + 1 && lines[|p|] == Blank
    ensures lines[0] == Entry("", p[|p| - 1].id, ShownLabel(p[|p| - 1]))
    ensures forall j :: 1 <= j < |p| ==>
      lines[j] == Entry(Spaces(3 * (j - 1)) + Branch, p[|p| - 1 - j].id, ShownLabel(p[|p| - 1 - j]))
  {
    Rows(p, |p|) + [Blank]
  }

  /** The blocks of all paths, in order. */
  function RenderAll(ps: seq<Path>): seq<Line>
    requires forall p :: p in ps ==> |p| >= 1
  {
    if ps == [] then [] else RenderAll(ps[..|ps| - 1]) + RenderPath(ps[|ps| - 1])
  }

  /**
   * `print_paths` (dassie/query_dassie.py:218-232): one block per path, in order.
   */
  method RenderPaths(ps: seq<Path>) returns (lines: seq<Line>)
    requires forall p :: p in ps ==> |p| >= 1
    ensures lines == RenderAll(ps)
  {
    lines := [];
    var i := 0;
    while i < |ps|
      invariant 0 <= i <= |ps|
      invariant lines == RenderAll(ps[..i])
    {
      assert ps[i] in ps;
      var block := RenderBlock(ps[i]);
      lines := lines + block;
      assert ps[..i + 1][..i] == ps[..i];
      i := i + 1;
    }
    assert ps[..i] == ps;
  }

  /**
   * The body of the `print_paths` loop: reverse the path, print the root,
   * then the rest with an indent that grows by three spaces per line, then
   * an empty line.
   */
  method RenderBlock(p: Path) returns (lines: seq<Line>)
    requires |p| >= 1
    ensures lines == RenderPath(p)
  {
    var fromTop := Reversed(p);
    lines := [Entry("", fromTop[0].id, ShownLabel(fromTop[0]))];
    assert lines == Rows(p, 1) by {
      assert fromTop[0] == p[|p| - 1];
    }
    var indent := Branch;
    assert Indent(1) == "" + Branch == Branch;
    var j := 1;
    while j < |fromTop|
      invariant 1 <= j <= |fromTop|
      invariant indent == Indent(j)
      invariant lines == Rows(p, j)
    {
      assert fromTop[j] == p[|p| - 1 - j];
      assert Entry(indent, fromTop[j].id, ShownLabel(fromTop[j])) == Row(p, j);
      assert Rows(p, j + 1) == Rows(p, j) + [Row(p, j)];
      lines := lines + [Entry(indent, fromTop[j].id, ShownLabel(fromTop[j]))];
      IndentStep(j);
      indent := "   " + indent;
      j := j + 1;
    }
    lines := lines + [Blank];
  }

  /** One more level of depth puts three more spaces before the glyph. */
  lemma IndentStep(j: nat)
    requires j >= 1
    ensures Indent(j + 1) == "   " + Indent(j)
  {
    SpacesStep(j);
    assert Indent(j + 1) == Spaces(3 * j) + Branch;
    assert Indent(j) == Spaces(3 * (j - 1)) + Branch;
  }

  lemma SpacesStep(j: nat)
    requires j >= 1
    ensures Spaces(3 * j) == "   " + Spaces(3 * (j - 1))
  {
    assert Spaces(3 * j) == " " + Spaces(3 * j - 1);
    assert Spaces(3 * j - 1) == " " + Spaces(3 * j - 2);
  }

  /** Rendering prints `|p| + 1` lines per path. */
  function BlockSizes(ps: seq<Path>): nat {
    if ps == [] then 0 else BlockSizes(ps[..|ps| - 1]) + |ps[|ps| - 1]| + 1
  }

  lemma {:induction false} RenderedLineCount(ps: seq<Path>)
    requires forall p :: p in ps ==> |p| >= 1
    ensures |RenderAll(ps)| == BlockSizes(ps)
    decreases |ps|
  {
    if ps != [] {
      RenderedLineCount(ps[..|ps| - 1]);
    }
  }

  /**
   * For a traced path, the unindented first line of its block names a term
   * with no `broader` entry, and its last entry line names the traced term.
   */
  lemma TracedBlockShape(m: Store, id: string, rank: map<string, nat>, p: Path)
    requires id in m && Ranked(m, rank) && KeysMatch(m)
    requires AllPaths(m, id, rank).Ok? && p in AllPaths(m, id, rank).value
    ensures |p| >= 1
    ensures RenderPath(p)[0].indent == "" && RenderPath(p)[0].id in m && m[RenderPath(p)[0].id].broader == []
    ensures RenderPath(p)[|p| - 1].id == id
  {
    TracedPathsAreRootChains(m, id, rank);
    if |p| > 1 {
      assert Link(m, p[|p| - 2], p[|p| - 1]);
    } else {
      assert p[|p| - 1] == m[id];
    }
  }
}
