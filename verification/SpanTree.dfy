/** Ordering the spans of a trace for the waterfall view: roots first, each subtree
    depth-first with siblings by start time, spans caught in parent cycles last. */
module SpanTree {
  import opened Prelude
  import Sorting

  /** The fields the ordering reads; start is the start time in epoch milliseconds. */
  datatype Span = Span(id: string, parent: Option<string>, start: int)

  datatype Row = Row(span: Span, depth: nat)

  ghost predicate DistinctIds(spans: seq<Span>) {
    forall i, j :: 0 <= i < j < |spans| ==> spans[i].id != spans[j].id
  }

  function Ids(spans: seq<Span>): set<string> {
    set s <- spans :: s.id
  }

  /** The parent a span hangs under: none if absent, its own id, or not received. */
  function ParentIn(ids: set<string>, s: Span): Option<string> {
    if s.parent.Some? && s.parent.value != s.id && s.parent.value in ids then s.parent else None
  }

  /** The spans with the given parent, in input order; None selects the roots. */
  function Under(ids: set<string>, spans: seq<Span>, parent: Option<string>): seq<Span> {
    if spans == [] then [] else
    var s := spans[|spans| - 1];
    Under(ids, spans[..|spans| - 1], parent) + if ParentIn(ids, s) == parent then [s] else []
  }

  predicate StartLe(a: Span, b: Span) {
    a.start <= b.start
  }

  /** The children of a span, or the roots, by start time. */
  function Kids(spans: seq<Span>, parent: Option<string>): seq<Span> {
    Sorting.Sort(Under(Ids(spans), spans, parent), StartLe)
  }

  lemma {:induction false} UnderElements(ids: set<string>, spans: seq<Span>, parent: Option<string>, s: Span)
    ensures s in Under(ids, spans, parent) <==> s in spans && ParentIn(ids, s) == parent
  {
    if spans != [] {
      UnderElements(ids, spans[..|spans| - 1], parent, s);
      assert spans == spans[..|spans| - 1] + [spans[|spans| - 1]];
    }
  }

  lemma KidsElements(spans: seq<Span>, parent: Option<string>)
    ensures forall s :: s in Kids(spans, parent) <==> s in spans && ParentIn(Ids(spans), s) == parent
  {
    forall s ensures s in Kids(spans, parent) <==> s in spans && ParentIn(Ids(spans), s) == parent {
      UnderElements(Ids(spans), spans, parent, s);
      Sorting.SortElements(Under(Ids(spans), spans, parent), s, StartLe);
    }
  }

  /** Siblings come out ordered by start time, those with equal times in input order. */
  lemma KidsOrder(spans: seq<Span>, parent: Option<string>, s: Span)
    ensures Sorting.Sorted(Kids(spans, parent), StartLe)
    ensures multiset(Kids(spans, parent)) == multiset(Under(Ids(spans), spans, parent))
    ensures Sorting.Ties(Kids(spans, parent), s, StartLe) ==
            Sorting.Ties(Under(Ids(spans), spans, parent), s, StartLe)
  {
    var under := Under(Ids(spans), spans, parent);
    Sorting.SortSorted(under, StartLe);
    Sorting.SortMultiset(under, StartLe);
    Sorting.SortStable(under, s, StartLe);
  }

  // ---------------------------------------------------------------------
  // The walk

  lemma {:induction false} Shrinks(a: set<string>, b: set<string>)
    requires a <= b
    ensures |a| <= |b|
    ensures a < b ==> |a| < |b|
  {
    if a != {} {
      var x :| x in a;
      Shrinks(a - {x}, b - {x});
    }
  }

  /** Depth-first from s, skipping visited spans: the new visited set and the rows emitted. */
  function Walk(spans: seq<Span>, s: Span, depth: nat, visited: set<string>): (r: (set<string>, seq<Row>))
    requires s in spans
    ensures visited <= r.0
    decreases |Ids(spans) - visited|, 0
  {
    if s.id in visited then (visited, []) else
    assert s.id in Ids(spans) - visited;
    Shrinks(Ids(spans) - (visited + {s.id}), Ids(spans) - visited);
    KidsElements(spans, Some(s.id));
    var (v, rows) := WalkAll(spans, Kids(spans, Some(s.id)), depth + 1, visited + {s.id});
    (v, [Row(s, depth)] + rows)
  }

  function WalkAll(spans: seq<Span>, list: seq<Span>, depth: nat, visited: set<string>): (r: (set<string>, seq<Row>))
    requires forall s <- list :: s in spans
    ensures visited <= r.0
    decreases |Ids(spans) - visited|, 1 + |list|
  {
    if list == [] then (visited, []) else
    var (v1, rows1) := Walk(spans, list[0], depth, visited);
    Shrinks(Ids(spans) - v1, Ids(spans) - visited);
    var (v2, rows2) := WalkAll(spans, list[1..], depth, v1);
    (v2, rows1 + rows2)
  }

  /** Spans no walk reached, as rows at depth 0 in input order. */
  function Leftover(spans: seq<Span>, visited: set<string>): seq<Row> {
    if spans == [] then [] else
    if spans[0].id in visited then Leftover(spans[1..], visited)
    else [Row(spans[0], 0)] + Leftover(spans[1..], visited + {spans[0].id})
  }

  function Rows(spans: seq<Span>): seq<Row> {
    KidsElements(spans, None);
    var (v, rows) := WalkAll(spans, Kids(spans, None), 0, {});
    rows + Leftover(spans, v)
  }

  // ---------------------------------------------------------------------
  // Ancestors

  /** x is s, or is reached from s by k parent steps. */
  ghost predicate Above(spans: seq<Span>, s: Span, k: nat, x: Span)
    decreases k
  {
    if k == 0 then s == x
    else exists p <- spans :: ParentIn(Ids(spans), s) == Some(p.id) && Above(spans, p, k - 1, x)
  }

  ghost predicate IsRoot(spans: seq<Span>, s: Span) {
    ParentIn(Ids(spans), s) == None
  }

  /** A root is exactly d parent steps above s. */
  ghost predicate RootedAt(spans: seq<Span>, s: Span, d: nat)
    decreases d
  {
    if d == 0 then IsRoot(spans, s)
    else exists p <- spans :: ParentIn(Ids(spans), s) == Some(p.id) && RootedAt(spans, p, d - 1)
  }

  ghost predicate Rooted(spans: seq<Span>, s: Span) {
    exists d: nat :: RootedAt(spans, s, d)
  }

  /** s lies in the subtree of x. */
  ghost predicate Below(spans: seq<Span>, s: Span, x: Span) {
    exists k: nat :: Above(spans, s, k, x)
  }

  lemma SameId(spans: seq<Span>, a: Span, b: Span)
    requires DistinctIds(spans) && a in spans && b in spans && a.id == b.id
    ensures a == b
  {
  }

  lemma {:induction false} DepthUnique(spans: seq<Span>, s: Span, d: nat, e: nat)
    requires DistinctIds(spans) && RootedAt(spans, s, d) && RootedAt(spans, s, e)
    ensures d == e
    decreases d
  {
    if d != 0 && e != 0 {
      var p :| p in spans && ParentIn(Ids(spans), s) == Some(p.id) && RootedAt(spans, p, d - 1);
      var q :| q in spans && ParentIn(Ids(spans), s) == Some(q.id) && RootedAt(spans, q, e - 1);
      SameId(spans, p, q);
      DepthUnique(spans, p, d - 1, e - 1);
    }
  }

  /** Climbing k steps from a span below x adds k to x's depth. */
  lemma {:induction false} AboveDepth(spans: seq<Span>, s: Span, k: nat, x: Span, d: nat)
    requires Above(spans, s, k, x) && RootedAt(spans, x, d)
    ensures RootedAt(spans, s, k + d)
    decreases k
  {
    if k != 0 {
      var p :| p in spans && ParentIn(Ids(spans), s) == Some(p.id) && Above(spans, p, k - 1, x);
      AboveDepth(spans, p, k - 1, x, d);
    }
  }

  lemma {:induction false} AboveUnique(spans: seq<Span>, s: Span, k: nat, x: Span, y: Span)
    requires DistinctIds(spans) && Above(spans, s, k, x) && Above(spans, s, k, y)
    ensures x == y
    decreases k
  {
    if k != 0 {
      var p :| p in spans && ParentIn(Ids(spans), s) == Some(p.id) && Above(spans, p, k - 1, x);
      var q :| q in spans && ParentIn(Ids(spans), s) == Some(q.id) && Above(spans, q, k - 1, y);
      SameId(spans, p, q);
      AboveUnique(spans, p, k - 1, x, y);
    }
  }

  lemma {:induction false} AboveTrans(spans: seq<Span>, s: Span, k: nat, x: Span, j: nat, y: Span)
    requires Above(spans, s, k, x) && Above(spans, x, j, y)
    ensures Above(spans, s, k + j, y)
    decreases k
  {
    if k != 0 {
      var p :| p in spans && ParentIn(Ids(spans), s) == Some(p.id) && Above(spans, p, k - 1, x);
      AboveTrans(spans, p, k - 1, x, j, y);
    }
  }

  lemma BelowTrans(spans: seq<Span>, s: Span, x: Span, y: Span)
    requires Below(spans, s, x) && Below(spans, x, y)
    ensures Below(spans, s, y)
  {
    var k: nat :| Above(spans, s, k, x);
    var j: nat :| Above(spans, x, j, y);
    AboveTrans(spans, s, k, x, j, y);
  }

  /** The last step of a climb that ends at x comes from a child of x. */
  lemma {:induction false} AboveVia(spans: seq<Span>, s: Span, k: nat, x: Span) returns (c: Span)
    requires s in spans && x in spans && k > 0 && Above(spans, s, k, x)
    ensures c in spans && ParentIn(Ids(spans), c) == Some(x.id) && Above(spans, s, k - 1, c)
    decreases k
  {
    var p :| p in spans && ParentIn(Ids(spans), s) == Some(p.id) && Above(spans, p, k - 1, x);
    if k == 1 {
      c := s;
    } else {
      c := AboveVia(spans, p, k - 1, x);
    }
  }

  lemma ChildBelow(spans: seq<Span>, c: Span, x: Span)
    requires c in spans && x in spans && ParentIn(Ids(spans), c) == Some(x.id)
    ensures Below(spans, c, x)
  {
    assert Above(spans, x, 0, x);
    assert Above(spans, c, 1, x);
  }

  /** Two different spans at the same depth have disjoint subtrees. */
  lemma SiblingsApart(spans: seq<Span>, s: Span, x: Span, y: Span, d: nat)
    requires DistinctIds(spans) && RootedAt(spans, x, d) && RootedAt(spans, y, d)
    requires Below(spans, s, x) && Below(spans, s, y)
    ensures x == y
  {
    hide Above, RootedAt, DistinctIds;
    var k: nat :| Above(spans, s, k, x);
    var j: nat :| Above(spans, s, j, y);
    AboveDepth(spans, s, k, x, d);
    AboveDepth(spans, s, j, y, d);
    DepthUnique(spans, s, k + d, j + d);
    AboveUnique(spans, s, k, x, y);
  }

  /** A rooted span is below itself only in zero steps: nothing under a child of x is above x. */
  lemma NotBelowChild(spans: seq<Span>, c: Span, x: Span, d: nat)
    requires DistinctIds(spans) && RootedAt(spans, x, d) && RootedAt(spans, c, d + 1)
    ensures !Below(spans, x, c)
  {
    if Below(spans, x, c) {
      var k: nat :| Above(spans, x, k, c);
      AboveDepth(spans, x, k, c, d + 1);
      DepthUnique(spans, x, d, k + d + 1);
    }
  }

  /** The subtree of s is s and the subtrees of its children. */
  lemma BelowCases(spans: seq<Span>, x: Span, s: Span)
    requires DistinctIds(spans) && x in spans && s in spans
    ensures Below(spans, x, s) <==> x == s || exists c <- Kids(spans, Some(s.id)) :: Below(spans, x, c)
  {
    KidsElements(spans, Some(s.id));
    assert Above(spans, s, 0, s);
    if Below(spans, x, s) && x != s {
      var k: nat :| Above(spans, x, k, s);
      var c := AboveVia(spans, x, k, s);
      assert Below(spans, x, c);
    }
    forall c <- Kids(spans, Some(s.id)) | Below(spans, x, c) ensures Below(spans, x, s) {
      ChildBelow(spans, c, s);
      BelowTrans(spans, x, c, s);
    }
  }

  lemma {:induction false} UnderDistinct(ids: set<string>, spans: seq<Span>, parent: Option<string>)
    requires DistinctIds(spans)
    ensures Sorting.Distinct(Under(ids, spans, parent))
  {
    if spans != [] {
      var init, last := spans[..|spans| - 1], spans[|spans| - 1];
      UnderDistinct(ids, init, parent);
      UnderElements(ids, init, parent, last);
      assert last !in init;
    }
  }

  lemma KidsDistinct(spans: seq<Span>, parent: Option<string>)
    requires DistinctIds(spans)
    ensures Sorting.Distinct(Kids(spans, parent))
  {
    var under := Under(Ids(spans), spans, parent);
    UnderDistinct(Ids(spans), spans, parent);
    Sorting.SortMultiset(under, StartLe);
    Sorting.DistinctPermutation(under, Kids(spans, parent));
  }

  // ---------------------------------------------------------------------
  // The reference: an ordered forest, flattened

  datatype Tree = Node(span: Span, kids: seq<Tree>)

  /** t is the tree under its span: its children are exactly the span's sorted children. */
  ghost predicate IsTree(spans: seq<Span>, t: Tree) {
    var kids := Kids(spans, Some(t.span.id));
    && t.span in spans
    && |t.kids| == |kids|
    && forall i :: 0 <= i < |t.kids| ==> t.kids[i].span == kids[i] && IsTree(spans, t.kids[i])
  }

  ghost predicate IsForest(spans: seq<Span>, ts: seq<Tree>, list: seq<Span>) {
    |ts| == |list| && forall i :: 0 <= i < |ts| ==> ts[i].span == list[i] && IsTree(spans, ts[i])
  }

  function Flatten(t: Tree, depth: nat): seq<Row>
    decreases t, 0
  {
    [Row(t.span, depth)] + FlattenAll(t.kids, depth + 1)
  }

  function FlattenAll(ts: seq<Tree>, depth: nat): seq<Row>
    decreases ts, 1
  {
    if ts == [] then [] else Flatten(ts[0], depth) + FlattenAll(ts[1..], depth)
  }

  /** Where a walk may start: spans at depth d, pairwise different, with unvisited subtrees. */
  ghost predicate Clear(spans: seq<Span>, list: seq<Span>, d: nat, visited: set<string>) {
    && Sorting.Distinct(list)
    && (forall c <- list :: c in spans && RootedAt(spans, c, d))
    && (forall x <- spans, c <- list :: x.id in visited ==> !Below(spans, x, c))
  }

  ghost predicate BelowAny(spans: seq<Span>, x: Span, list: seq<Span>) {
    exists c <- list :: Below(spans, x, c)
  }

  /** After a walk over list, exactly the old visited spans and the subtrees of list are visited. */
  ghost predicate Covered(spans: seq<Span>, list: seq<Span>, before: set<string>, after: set<string>) {
    forall x <- spans :: x.id in after <==> x.id in before || BelowAny(spans, x, list)
  }

  /** The children of an unvisited rooted span are clear once the span itself is marked. */
  lemma KidsClear(spans: seq<Span>, s: Span, d: nat, visited: set<string>)
    requires DistinctIds(spans) && Clear(spans, [s], d, visited)
    ensures Clear(spans, Kids(spans, Some(s.id)), d + 1, visited + {s.id})
  {
    var kids := Kids(spans, Some(s.id));
    assert s in [s];
    KidsElements(spans, Some(s.id));
    KidsDistinct(spans, Some(s.id));
    forall c <- kids ensures RootedAt(spans, c, d + 1) {
    }
    forall x <- spans, c <- kids | x.id in visited + {s.id} ensures !Below(spans, x, c) {
      if x.id == s.id {
        SameId(spans, x, s);
        NotBelowChild(spans, c, s, d);
      } else if Below(spans, x, c) {
        ChildBelow(spans, c, s);
        BelowTrans(spans, x, c, s);
      }
    }
  }

  lemma RestClear(spans: seq<Span>, list: seq<Span>, d: nat, visited: set<string>, v1: set<string>)
    requires DistinctIds(spans) && list != [] && Clear(spans, list, d, visited)
    requires Covered(spans, [list[0]], visited, v1)
    ensures Clear(spans, list[1..], d, v1)
  {
    forall x <- spans, c <- list[1..] | x.id in v1 ensures !Below(spans, x, c) {
      if Below(spans, x, c) {
        assert c in list;
        assert BelowAny(spans, x, [list[0]]);
        SiblingsApart(spans, x, list[0], c, d);
      }
    }
  }

  lemma CoveredSpan(spans: seq<Span>, s: Span, visited: set<string>, after: set<string>)
    requires DistinctIds(spans) && s in spans
    requires Covered(spans, Kids(spans, Some(s.id)), visited + {s.id}, after)
    ensures Covered(spans, [s], visited, after)
  {
    forall x <- spans ensures x.id in after <==> x.id in visited || BelowAny(spans, x, [s]) {
      BelowCases(spans, x, s);
      assert BelowAny(spans, x, [s]) <==> Below(spans, x, s) by { assert s in [s]; }
      if x.id == s.id {
        SameId(spans, x, s);
      }
    }
  }

  lemma CoveredTwo(spans: seq<Span>, list: seq<Span>, visited: set<string>, v1: set<string>, v2: set<string>)
    requires list != []
    requires Covered(spans, [list[0]], visited, v1) && Covered(spans, list[1..], v1, v2)
    ensures Covered(spans, list, visited, v2)
  {
    forall x <- spans ensures x.id in v2 <==> x.id in visited || BelowAny(spans, x, list) {
      assert BelowAny(spans, x, list) <==> BelowAny(spans, x, [list[0]]) || BelowAny(spans, x, list[1..]) by {
        assert list == [list[0]] + list[1..];
        assert forall c :: c in list <==> c in [list[0]] || c in list[1..];
      }
    }
  }

  /** From a rooted span the walk never meets a visited span: it emits the whole tree. */
  lemma {:induction false} WalkTree(spans: seq<Span>, s: Span, d: nat, visited: set<string>) returns (t: Tree)
    requires DistinctIds(spans) && s in spans && Clear(spans, [s], d, visited)
    ensures IsTree(spans, t) && t.span == s
    ensures Walk(spans, s, d, visited).1 == Flatten(t, d)
    ensures Covered(spans, [s], visited, Walk(spans, s, d, visited).0)
    decreases |Ids(spans) - visited|, 0
  {
    hide Clear, Covered, Kids;
    SelfClear(spans, s, d, visited);
    assert s.id in Ids(spans) - visited;
    Shrinks(Ids(spans) - (visited + {s.id}), Ids(spans) - visited);
    KidsElements(spans, Some(s.id));
    KidsClear(spans, s, d, visited);
    var kids := WalkForest(spans, Kids(spans, Some(s.id)), d + 1, visited + {s.id});
    CoveredSpan(spans, s, visited, Walk(spans, s, d, visited).0);
    t := Node(s, kids);
  }

  lemma SelfClear(spans: seq<Span>, s: Span, d: nat, visited: set<string>)
    requires s in spans && Clear(spans, [s], d, visited)
    ensures s.id !in visited
  {
    assert s in [s];
    assert Above(spans, s, 0, s);
    assert Below(spans, s, s);
  }

  lemma {:induction false} WalkForest(spans: seq<Span>, list: seq<Span>, d: nat, visited: set<string>)
    returns (ts: seq<Tree>)
    requires DistinctIds(spans) && (forall c <- list :: c in spans) && Clear(spans, list, d, visited)
    ensures IsForest(spans, ts, list)
    ensures WalkAll(spans, list, d, visited).1 == FlattenAll(ts, d)
    ensures Covered(spans, list, visited, WalkAll(spans, list, d, visited).0)
    decreases |Ids(spans) - visited|, 1 + |list|
  {
    hide Covered, IsTree, Kids, Ids, Clear, DistinctIds, Walk;
    if list == [] {
      CoveredNone(spans, visited);
      ts := [];
    } else {
      FirstClear(spans, list, d, visited);
      var t := WalkTree(spans, list[0], d, visited);
      var v1 := Walk(spans, list[0], d, visited).0;
      Shrinks(Ids(spans) - v1, Ids(spans) - visited);
      RestClear(spans, list, d, visited, v1);
      var rest := WalkForest(spans, list[1..], d, v1);
      CoveredTwo(spans, list, visited, v1, WalkAll(spans, list, d, visited).0);
      ts := [t] + rest;
      assert ts[1..] == rest;
    }
  }

  lemma CoveredNone(spans: seq<Span>, visited: set<string>)
    ensures Covered(spans, [], visited, visited)
  {
  }

  lemma FirstClear(spans: seq<Span>, list: seq<Span>, d: nat, visited: set<string>)
    requires list != [] && Clear(spans, list, d, visited)
    ensures Clear(spans, [list[0]], d, visited)
  {
    assert list[0] in list;
  }

  // ---------------------------------------------------------------------
  // What the rows of a forest say

  /** A forest whose trees sit at depth d, one per span of list. */
  ghost predicate Planted(spans: seq<Span>, ts: seq<Tree>, list: seq<Span>, d: nat) {
    && IsForest(spans, ts, list)
    && Sorting.Distinct(list)
    && forall c <- list :: c in spans && RootedAt(spans, c, d)
  }

  lemma PlantedKids(spans: seq<Span>, t: Tree, d: nat)
    requires DistinctIds(spans) && IsTree(spans, t) && RootedAt(spans, t.span, d)
    ensures Planted(spans, t.kids, Kids(spans, Some(t.span.id)), d + 1)
  {
    hide DistinctIds, Kids;
    KidsElements(spans, Some(t.span.id));
    KidsDistinct(spans, Some(t.span.id));
  }

  lemma PlantedRest(spans: seq<Span>, ts: seq<Tree>, list: seq<Span>, d: nat)
    requires Planted(spans, ts, list, d) && ts != []
    ensures Planted(spans, ts[1..], list[1..], d)
    ensures IsTree(spans, ts[0]) && ts[0].span == list[0] && list[0] in spans && RootedAt(spans, list[0], d)
    ensures |list| == |ts| && list[0] !in list[1..]
  {
    hide IsTree, RootedAt;
    assert list[0] in list;
    forall c <- list[1..] ensures c in list {
    }
  }

  /** A row's depth is right, and its span lies in the subtree of list. */
  ghost predicate Placed(spans: seq<Span>, list: seq<Span>, r: Row) {
    r.span in spans && RootedAt(spans, r.span, r.depth) && BelowAny(spans, r.span, list)
  }

  lemma PlacedKid(spans: seq<Span>, s: Span, r: Row)
    requires DistinctIds(spans) && s in spans && Placed(spans, Kids(spans, Some(s.id)), r)
    ensures Placed(spans, [s], r)
  {
    BelowCases(spans, r.span, s);
    assert s in [s];
  }

  lemma PlacedOne(spans: seq<Span>, list: seq<Span>, list': seq<Span>, r: Row)
    requires Placed(spans, list, r) && forall c <- list :: c in list'
    ensures Placed(spans, list', r)
  {
  }

  lemma {:induction false} ForestSound(spans: seq<Span>, ts: seq<Tree>, list: seq<Span>, d: nat)
    requires DistinctIds(spans) && Planted(spans, ts, list, d)
    ensures forall r <- FlattenAll(ts, d) :: Placed(spans, list, r)
    decreases ts
  {
    if ts != [] {
      hide Placed, Planted, DistinctIds, IsTree, RootedAt;
      PlantedRest(spans, ts, list, d);
      TreeSound(spans, ts[0], d);
      ForestSound(spans, ts[1..], list[1..], d);
      forall r <- FlattenAll(ts, d) ensures Placed(spans, list, r) {
        if r in Flatten(ts[0], d) {
          PlacedOne(spans, [list[0]], list, r);
        } else {
          PlacedOne(spans, list[1..], list, r);
        }
      }
    }
  }

  lemma {:induction false} TreeSound(spans: seq<Span>, t: Tree, d: nat)
    requires DistinctIds(spans) && IsTree(spans, t) && RootedAt(spans, t.span, d)
    ensures forall r <- Flatten(t, d) :: Placed(spans, [t.span], r)
    decreases t
  {
    hide DistinctIds, Placed, Kids;
    PlantedKids(spans, t, d);
    ForestSound(spans, t.kids, Kids(spans, Some(t.span.id)), d + 1);
    forall r <- Flatten(t, d) ensures Placed(spans, [t.span], r) {
      if r == Row(t.span, d) {
        RootPlaced(spans, t.span, d);
      } else {
        PlacedKid(spans, t.span, r);
      }
    }
  }

  lemma RootPlaced(spans: seq<Span>, s: Span, d: nat)
    requires s in spans && RootedAt(spans, s, d)
    ensures Placed(spans, [s], Row(s, d))
  {
    assert Above(spans, s, 0, s);
    assert Below(spans, s, s);
    assert s in [s];
  }

  ghost predicate Listed(rows: seq<Row>, x: Span) {
    exists r <- rows :: r.span == x
  }

  lemma {:induction false} ForestComplete(spans: seq<Span>, ts: seq<Tree>, list: seq<Span>, d: nat, x: Span)
    requires DistinctIds(spans) && Planted(spans, ts, list, d) && x in spans && BelowAny(spans, x, list)
    ensures Listed(FlattenAll(ts, d), x)
    decreases ts
  {
    hide DistinctIds, IsTree, RootedAt, Below;
    var c :| c in list && Below(spans, x, c);
    assert list != [];
    PlantedRest(spans, ts, list, d);
    if c == list[0] {
      TreeComplete(spans, ts[0], d, x);
      var r :| r in Flatten(ts[0], d) && r.span == x;
      assert r in FlattenAll(ts, d);
    } else {
      assert c in list[1..];
      ForestComplete(spans, ts[1..], list[1..], d, x);
      var r :| r in FlattenAll(ts[1..], d) && r.span == x;
      assert r in FlattenAll(ts, d);
    }
  }

  lemma {:induction false} TreeComplete(spans: seq<Span>, t: Tree, d: nat, x: Span)
    requires DistinctIds(spans) && IsTree(spans, t) && RootedAt(spans, t.span, d)
    requires x in spans && Below(spans, x, t.span)
    ensures Listed(Flatten(t, d), x)
    decreases t
  {
    hide DistinctIds, Kids, Below, RootedAt;
    BelowCases(spans, x, t.span);
    if x == t.span {
      assert Row(x, d) in Flatten(t, d);
    } else {
      PlantedKids(spans, t, d);
      ForestComplete(spans, t.kids, Kids(spans, Some(t.span.id)), d + 1, x);
      var r :| r in FlattenAll(t.kids, d + 1) && r.span == x;
      assert r in Flatten(t, d);
    }
  }

  ghost predicate DistinctRows(rows: seq<Row>) {
    forall i, j :: 0 <= i < j < |rows| ==> rows[i].span != rows[j].span
  }

  /** Rows placed under different siblings never show the same span, nor spans of each other's subtree. */
  lemma PlacedApart(spans: seq<Span>, list: seq<Span>, d: nat, a: Row, b: Row)
    requires DistinctIds(spans) && list != [] && list[0] !in list[1..]
    requires forall c <- list :: RootedAt(spans, c, d)
    requires Placed(spans, [list[0]], a) && Placed(spans, list[1..], b)
    ensures !Below(spans, b.span, a.span) && !Below(spans, a.span, b.span)
  {
    hide DistinctIds, RootedAt;
    assert Below(spans, a.span, list[0]);
    var c :| c in list[1..] && Below(spans, b.span, c);
    assert c in list && list[0] in list;
    if Below(spans, b.span, a.span) {
      BelowTrans(spans, b.span, a.span, list[0]);
      SiblingsApart(spans, b.span, list[0], c, d);
    }
    if Below(spans, a.span, b.span) {
      BelowTrans(spans, a.span, b.span, c);
      SiblingsApart(spans, a.span, list[0], c, d);
    }
  }

  /** The row of a span never lies below a row of one of its children's subtrees. */
  lemma RootApart(spans: seq<Span>, s: Span, d: nat, r: Row)
    requires DistinctIds(spans) && s in spans && RootedAt(spans, s, d) && Placed(spans, Kids(spans, Some(s.id)), r)
    ensures !Below(spans, s, r.span)
  {
    if Below(spans, s, r.span) {
      var c :| c in Kids(spans, Some(s.id)) && Below(spans, r.span, c);
      KidsElements(spans, Some(s.id));
      BelowTrans(spans, s, r.span, c);
      assert RootedAt(spans, c, d + 1);
      NotBelowChild(spans, c, s, d);
    }
  }

  lemma SelfBelow(spans: seq<Span>, s: Span)
    ensures Below(spans, s, s)
  {
    assert Above(spans, s, 0, s);
  }

  /** rows[i..m] is the subtree of rows[i]: it holds every row below it and no other. */
  ghost predicate Block(spans: seq<Span>, rows: seq<Row>, i: nat, m: nat) {
    && i < m <= |rows|
    && forall j :: 0 <= j < |rows| ==> (i <= j < m <==> Below(spans, rows[j].span, rows[i].span))
  }

  /** Everything below any row of `near` is within `near`: no row of `far` is below it. */
  ghost predicate Apart(spans: seq<Span>, near: seq<Row>, far: seq<Row>) {
    forall a <- near, b <- far :: !Below(spans, b.span, a.span)
  }

  lemma BlockLeft(spans: seq<Span>, near: seq<Row>, far: seq<Row>, i: nat, m: nat)
    requires Block(spans, near, i, m) && Apart(spans, near, far)
    ensures Block(spans, near + far, i, m)
  {
    var rows := near + far;
    forall j | 0 <= j < |rows| ensures i <= j < m <==> Below(spans, rows[j].span, rows[i].span) {
      if j >= |near| {
        assert rows[j] in far && rows[i] in near;
      }
    }
  }

  lemma BlockRight(spans: seq<Span>, far: seq<Row>, near: seq<Row>, i: nat, m: nat)
    requires Block(spans, near, i, m) && Apart(spans, near, far)
    ensures Block(spans, far + near, |far| + i, |far| + m)
  {
    var rows := far + near;
    forall j | 0 <= j < |rows| ensures |far| + i <= j < |far| + m <==> Below(spans, rows[j].span, rows[|far| + i].span) {
      if j < |far| {
        assert rows[j] in far && rows[|far| + i] in near;
      }
    }
  }

  /** The rows of the first tree and of the others keep apart. */
  lemma ForestApart(spans: seq<Span>, ts: seq<Tree>, list: seq<Span>, d: nat)
    requires DistinctIds(spans) && Planted(spans, ts, list, d) && ts != []
    ensures Apart(spans, Flatten(ts[0], d), FlattenAll(ts[1..], d))
    ensures Apart(spans, FlattenAll(ts[1..], d), Flatten(ts[0], d))
  {
    hide DistinctIds, IsTree, RootedAt, Placed, Below, Flatten, FlattenAll;
    PlantedRest(spans, ts, list, d);
    TreeSound(spans, ts[0], d);
    ForestSound(spans, ts[1..], list[1..], d);
    forall a <- Flatten(ts[0], d), b <- FlattenAll(ts[1..], d)
      ensures !Below(spans, b.span, a.span) && !Below(spans, a.span, b.span)
    {
      PlacedApart(spans, list, d, a, b);
    }
  }

  lemma TreeApart(spans: seq<Span>, t: Tree, d: nat)
    requires DistinctIds(spans) && IsTree(spans, t) && RootedAt(spans, t.span, d)
    ensures Apart(spans, FlattenAll(t.kids, d + 1), [Row(t.span, d)])
  {
    hide DistinctIds, RootedAt, Placed, Below, Kids;
    PlantedKids(spans, t, d);
    ForestSound(spans, t.kids, Kids(spans, Some(t.span.id)), d + 1);
    forall a <- FlattenAll(t.kids, d + 1) ensures !Below(spans, t.span, a.span) {
      RootApart(spans, t.span, d, a);
    }
  }

  lemma {:induction false} ForestBlock(spans: seq<Span>, ts: seq<Tree>, list: seq<Span>, d: nat, i: nat) returns (m: nat)
    requires DistinctIds(spans) && Planted(spans, ts, list, d) && i < |FlattenAll(ts, d)|
    ensures Block(spans, FlattenAll(ts, d), i, m)
    decreases ts
  {
    hide DistinctIds, Planted, IsTree, RootedAt, Block, Apart, Flatten;
    PlantedRest(spans, ts, list, d);
    ForestApart(spans, ts, list, d);
    var first, rest := Flatten(ts[0], d), FlattenAll(ts[1..], d);
    if i < |first| {
      m := TreeBlock(spans, ts[0], d, i);
      BlockLeft(spans, first, rest, i, m);
    } else {
      var n := ForestBlock(spans, ts[1..], list[1..], d, i - |first|);
      BlockRight(spans, first, rest, i - |first|, n);
      m := |first| + n;
    }
  }

  lemma {:induction false} TreeBlock(spans: seq<Span>, t: Tree, d: nat, i: nat) returns (m: nat)
    requires DistinctIds(spans) && IsTree(spans, t) && RootedAt(spans, t.span, d) && i < |Flatten(t, d)|
    ensures Block(spans, Flatten(t, d), i, m)
    decreases t
  {
    hide DistinctIds, RootedAt, Apart, FlattenAll;
    if i == 0 {
      TreeSound(spans, t, d);
      m := |Flatten(t, d)|;
      forall j | 0 <= j < m ensures Below(spans, Flatten(t, d)[j].span, t.span) {
        assert Placed(spans, [t.span], Flatten(t, d)[j]);
      }
    } else {
      PlantedKids(spans, t, d);
      TreeApart(spans, t, d);
      var n := ForestBlock(spans, t.kids, Kids(spans, Some(t.span.id)), d + 1, i - 1);
      BlockRight(spans, [Row(t.span, d)], FlattenAll(t.kids, d + 1), i - 1, n);
      m := n + 1;
    }
  }

  lemma DistinctConcat(spans: seq<Span>, a: seq<Row>, b: seq<Row>)
    requires DistinctRows(a) && DistinctRows(b) && Apart(spans, a, b)
    ensures DistinctRows(a + b)
  {
    var rows := a + b;
    forall i, j | 0 <= i < |a| <= j < |rows| ensures rows[i].span != rows[j].span {
      SelfBelow(spans, rows[i].span);
      assert rows[i] in a && rows[j] in b;
    }
  }

  lemma {:induction false} ForestDistinct(spans: seq<Span>, ts: seq<Tree>, list: seq<Span>, d: nat)
    requires DistinctIds(spans) && Planted(spans, ts, list, d)
    ensures DistinctRows(FlattenAll(ts, d))
    decreases ts
  {
    if ts != [] {
      hide DistinctIds, Planted, IsTree, RootedAt, Apart, Flatten, DistinctRows;
      PlantedRest(spans, ts, list, d);
      ForestApart(spans, ts, list, d);
      TreeDistinct(spans, ts[0], d);
      ForestDistinct(spans, ts[1..], list[1..], d);
      DistinctConcat(spans, Flatten(ts[0], d), FlattenAll(ts[1..], d));
    }
  }

  lemma {:induction false} TreeDistinct(spans: seq<Span>, t: Tree, d: nat)
    requires DistinctIds(spans) && IsTree(spans, t) && RootedAt(spans, t.span, d)
    ensures DistinctRows(Flatten(t, d))
    decreases t
  {
    hide DistinctIds, RootedAt, FlattenAll;
    PlantedKids(spans, t, d);
    TreeApart(spans, t, d);
    var rest := FlattenAll(t.kids, d + 1);
    ForestDistinct(spans, t.kids, Kids(spans, Some(t.span.id)), d + 1);
    forall r <- rest ensures r.span != t.span {
      SelfBelow(spans, t.span);
    }
  }

  // ---------------------------------------------------------------------
  // The whole listing

  lemma {:induction false} LeftoverRows(spans: seq<Span>, visited: set<string>, r: Row)
    requires DistinctIds(spans)
    ensures r in Leftover(spans, visited) <==> r.span in spans && r.span.id !in visited && r.depth == 0
    ensures DistinctRows(Leftover(spans, visited))
    decreases |spans|
  {
    if spans != [] {
      var s, rest := spans[0], spans[1..];
      var v := if s.id in visited then visited else visited + {s.id};
      assert s.id !in Ids(rest);
      LeftoverRows(rest, v, r);
      assert spans == [s] + rest;
      forall x <- Leftover(rest, v) ensures x.span != s {
        LeftoverRows(rest, v, x);
      }
    }
  }

  /** The roots are where the walk may start, and a span is rooted exactly when it is below one. */
  lemma RootsClear(spans: seq<Span>)
    requires DistinctIds(spans)
    ensures Clear(spans, Kids(spans, None), 0, {})
  {
    KidsElements(spans, None);
    KidsDistinct(spans, None);
  }

  lemma {:induction false} RootedBelow(spans: seq<Span>, x: Span, d: nat) returns (r: Span)
    requires x in spans && RootedAt(spans, x, d)
    ensures r in spans && IsRoot(spans, r) && Above(spans, x, d, r)
    decreases d
  {
    if d == 0 {
      r := x;
    } else {
      var p :| p in spans && ParentIn(Ids(spans), x) == Some(p.id) && RootedAt(spans, p, d - 1);
      r := RootedBelow(spans, p, d - 1);
    }
  }

  lemma RootedIff(spans: seq<Span>, x: Span)
    requires x in spans
    ensures Rooted(spans, x) <==> BelowAny(spans, x, Kids(spans, None))
  {
    hide Kids;
    KidsElements(spans, None);
    if Rooted(spans, x) {
      var d: nat :| RootedAt(spans, x, d);
      var r := RootedBelow(spans, x, d);
      assert Below(spans, x, r);
    }
    if BelowAny(spans, x, Kids(spans, None)) {
      var r :| r in Kids(spans, None) && Below(spans, x, r);
      var k: nat :| Above(spans, x, k, r);
      AboveDepth(spans, x, k, r, 0);
    }
  }

  /** The listing is a flattened forest of all rooted spans, then the unrooted ones at depth 0. */
  lemma RowsShape(spans: seq<Span>) returns (forest: seq<Tree>, rest: seq<Row>)
    requires DistinctIds(spans)
    ensures Planted(spans, forest, Kids(spans, None), 0)
    ensures Rows(spans) == FlattenAll(forest, 0) + rest
    ensures DistinctRows(rest)
    ensures forall r :: r in rest <==> r.span in spans && !Rooted(spans, r.span) && r.depth == 0
  {
    hide Kids, DistinctIds;
    KidsElements(spans, None);
    RootsClear(spans);
    forest := WalkForest(spans, Kids(spans, None), 0, {});
    var v := WalkAll(spans, Kids(spans, None), 0, {}).0;
    rest := Leftover(spans, v);
    forall r ensures r in rest <==> r.span in spans && !Rooted(spans, r.span) && r.depth == 0 {
      LeftoverRows(spans, v, r);
      if r.span in spans {
        RootedIff(spans, r.span);
      }
    }
    assert DistinctRows(rest) by { LeftoverRows(spans, v, Row(Span("", None, 0), 0)); }
  }

  function SpansOf(rows: seq<Row>): seq<Span> {
    seq(|rows|, i requires 0 <= i < |rows| => rows[i].span)
  }

  /** Every row is right: depth is the number of parent steps to a root, or 0 where none is reachable. */
  lemma DepthsRight(spans: seq<Span>, r: Row)
    requires DistinctIds(spans) && r in Rows(spans)
    ensures r.span in spans
    ensures if Rooted(spans, r.span) then RootedAt(spans, r.span, r.depth) else r.depth == 0
  {
    hide Kids, DistinctIds, Rows, RootedAt;
    var forest, rest := RowsShape(spans);
    ForestSound(spans, forest, Kids(spans, None), 0);
    if r in FlattenAll(forest, 0) {
      assert Placed(spans, Kids(spans, None), r);
    }
  }

  lemma UnrootedApart(spans: seq<Span>, x: Span, y: Span)
    requires Rooted(spans, x) && !Rooted(spans, y)
    ensures !Below(spans, y, x)
  {
    if Below(spans, y, x) {
      var d: nat :| RootedAt(spans, x, d);
      var k: nat :| Above(spans, y, k, x);
      AboveDepth(spans, y, k, x, d);
    }
  }

  lemma ForestRestApart(spans: seq<Span>, forest: seq<Tree>, rest: seq<Row>)
    requires DistinctIds(spans) && Planted(spans, forest, Kids(spans, None), 0)
    requires forall r <- rest :: !Rooted(spans, r.span)
    ensures Apart(spans, FlattenAll(forest, 0), rest)
  {
    hide Kids, DistinctIds, FlattenAll;
    ForestSound(spans, forest, Kids(spans, None), 0);
    forall a <- FlattenAll(forest, 0), b <- rest ensures !Below(spans, b.span, a.span) {
      assert Placed(spans, Kids(spans, None), a);
      UnrootedApart(spans, a.span, b.span);
    }
  }

  /** Every span is listed exactly once, cycles, self-parents and orphans included. */
  lemma EverySpanOnce(spans: seq<Span>)
    requires DistinctIds(spans)
    ensures multiset(SpansOf(Rows(spans))) == multiset(spans)
  {
    hide Kids, Rows, FlattenAll;
    var forest, rest := RowsShape(spans);
    var tree := FlattenAll(forest, 0);
    ForestDistinct(spans, forest, Kids(spans, None), 0);
    ForestRestApart(spans, forest, rest);
    DistinctConcat(spans, tree, rest);
    var listed := SpansOf(Rows(spans));
    forall x ensures x in listed <==> x in spans {
      if x in listed {
        var i :| 0 <= i < |listed| && listed[i] == x;
        DepthsRight(spans, Rows(spans)[i]);
      }
      if x in spans {
        AllListed(spans, forest, rest, x);
      }
    }
    assert Sorting.Distinct(spans);
    Sorting.DistinctSame(listed, spans);
  }

  lemma AllListed(spans: seq<Span>, forest: seq<Tree>, rest: seq<Row>, x: Span)
    requires DistinctIds(spans) && Planted(spans, forest, Kids(spans, None), 0) && x in spans
    requires forall r :: r in rest <==> r.span in spans && !Rooted(spans, r.span) && r.depth == 0
    ensures x in SpansOf(FlattenAll(forest, 0) + rest)
  {
    hide Kids, DistinctIds, FlattenAll, Planted;
    var rows := FlattenAll(forest, 0) + rest;
    var r: Row;
    if Rooted(spans, x) {
      RootedIff(spans, x);
      ForestComplete(spans, forest, Kids(spans, None), 0, x);
      r :| r in FlattenAll(forest, 0) && r.span == x;
    } else {
      r := Row(x, 0);
      assert r in rest;
    }
    assert r in rows;
    var i :| 0 <= i < |rows| && rows[i] == r;
    assert SpansOf(rows)[i] == x;
  }

  /** The subtree of a rooted span is one contiguous block that starts at its row. */
  lemma SubtreesContiguous(spans: seq<Span>, i: nat) returns (m: nat)
    requires DistinctIds(spans) && i < |Rows(spans)| && Rooted(spans, Rows(spans)[i].span)
    ensures Block(spans, Rows(spans), i, m)
  {
    hide Kids, DistinctIds, Rows, FlattenAll, Block, Planted;
    var forest, rest := RowsShape(spans);
    var tree := FlattenAll(forest, 0);
    assert forall j :: |tree| <= j < |Rows(spans)| ==> Rows(spans)[j] == rest[j - |tree|];
    ForestRestApart(spans, forest, rest);
    m := ForestBlock(spans, forest, Kids(spans, None), 0, i);
    BlockLeft(spans, tree, rest, i, m);
  }

  // ---------------------------------------------------------------------
  // The code: index by parent, sort the siblings, walk with a visited set

  function KidsIn(childrenOf: map<string, seq<Span>>, id: string): seq<Span> {
    if id in childrenOf then childrenOf[id] else []
  }

  method IndexByParent(spans: seq<Span>) returns (childrenOf: map<string, seq<Span>>, roots: seq<Span>)
    ensures roots == Under(Ids(spans), spans, None)
    ensures forall id :: KidsIn(childrenOf, id) == Under(Ids(spans), spans, Some(id))
  {
    var byId := Ids(spans);
    childrenOf, roots := map[], [];
    for i := 0 to |spans|
      invariant roots == Under(byId, spans[..i], None)
      invariant forall id :: KidsIn(childrenOf, id) == Under(byId, spans[..i], Some(id))
    {
      var span := spans[i];
      assert spans[..i + 1][..i] == spans[..i];
      if span.parent.Some? && span.parent.value != span.id && span.parent.value in byId {
        var siblings := KidsIn(childrenOf, span.parent.value);
        childrenOf := childrenOf[span.parent.value := siblings + [span]];
      } else {
        roots := roots + [span];
      }
    }
    assert spans[..|spans|] == spans;
  }

  method SortSiblings(childrenOf: map<string, seq<Span>>) returns (sorted: map<string, seq<Span>>)
    ensures forall id :: KidsIn(sorted, id) == Sorting.Sort(KidsIn(childrenOf, id), StartLe)
  {
    sorted := childrenOf;
    var todo := childrenOf.Keys;
    while todo != {}
      invariant todo <= childrenOf.Keys == sorted.Keys
      invariant forall id <- childrenOf ::
                  sorted[id] == if id in todo then childrenOf[id] else Sorting.Sort(childrenOf[id], StartLe)
      decreases todo
    {
      var id :| id in todo;
      sorted := sorted[id := Sorting.Sort(sorted[id], StartLe)];
      todo := todo - {id};
    }
  }

  /** childrenOf holds every span's sorted children. */
  ghost predicate Indexed(spans: seq<Span>, childrenOf: map<string, seq<Span>>) {
    forall id :: KidsIn(childrenOf, id) == Kids(spans, Some(id))
  }

  /** Visits one span and, through WalkEach, its children. */
  method WalkFrom(spans: seq<Span>, childrenOf: map<string, seq<Span>>, span: Span, depth: nat,
                  visited: set<string>, ordered: seq<Row>)
    returns (visited': set<string>, ordered': seq<Row>)
    requires span in spans && Indexed(spans, childrenOf)
    ensures visited' == Walk(spans, span, depth, visited).0
    ensures ordered' == ordered + Walk(spans, span, depth, visited).1
    decreases |Ids(spans) - visited|, 0
  {
    hide Kids, Walk, WalkAll;
    WalkUnfold(spans, span, depth, visited);
    visited', ordered' := visited, ordered;
    if span.id in visited {
      return;
    }
    assert span.id in Ids(spans) - visited;
    Shrinks(Ids(spans) - (visited + {span.id}), Ids(spans) - visited);
    visited', ordered' := visited + {span.id}, ordered + [Row(span, depth)];
    visited', ordered' := WalkEach(spans, childrenOf, KidsIn(childrenOf, span.id), depth + 1, visited', ordered');
  }

  /** The loop over a list of siblings. */
  method WalkEach(spans: seq<Span>, childrenOf: map<string, seq<Span>>, list: seq<Span>, depth: nat,
                  visited: set<string>, ordered: seq<Row>)
    returns (visited': set<string>, ordered': seq<Row>)
    requires (forall s <- list :: s in spans) && Indexed(spans, childrenOf)
    ensures visited' == WalkAll(spans, list, depth, visited).0
    ensures ordered' == ordered + WalkAll(spans, list, depth, visited).1
    decreases |Ids(spans) - visited|, 1 + |list|
  {
    WalkNone(spans, depth, visited);
    hide Kids, Walk, WalkAll, Indexed, Ids;
    visited', ordered' := visited, ordered;
    for i := 0 to |list|
      invariant visited <= visited'
      invariant visited' == WalkAll(spans, list[..i], depth, visited).0
      invariant ordered' == ordered + WalkAll(spans, list[..i], depth, visited).1
    {
      Shrinks(Ids(spans) - visited', Ids(spans) - visited);
      WalkAllAppend(spans, list[..i], list[i], depth, visited);
      assert list[..i] + [list[i]] == list[..i + 1];
      visited', ordered' := WalkFrom(spans, childrenOf, list[i], depth, visited', ordered');
    }
    assert list[..|list|] == list;
  }

  lemma WalkNone(spans: seq<Span>, depth: nat, visited: set<string>)
    ensures WalkAll(spans, [], depth, visited) == (visited, [])
  {
  }

  lemma {:induction false} WalkAllAppend(spans: seq<Span>, list: seq<Span>, s: Span, depth: nat, visited: set<string>)
    requires (forall x <- list :: x in spans) && s in spans
    ensures var (v, rows) := WalkAll(spans, list, depth, visited);
            var (v', rows') := Walk(spans, s, depth, v);
            WalkAll(spans, list + [s], depth, visited) == (v', rows + rows')
    decreases |list|
  {
    hide Walk;
    if list == [] {
      assert list + [s] == [s] && [s][1..] == [];
      var (v', rows') := Walk(spans, s, depth, visited);
      WalkNone(spans, depth, v');
      assert WalkAll(spans, [s], depth, visited) == (v', rows' + []);
      assert rows' + [] == rows' == [] + rows';
    } else {
      assert (list + [s])[1..] == list[1..] + [s];
      var (v0, rows0) := Walk(spans, list[0], depth, visited);
      WalkAllAppend(spans, list[1..], s, depth, v0);
      var (v1, rows1) := WalkAll(spans, list[1..], depth, v0);
      assert rows0 + (rows1 + Walk(spans, s, depth, v1).1) == (rows0 + rows1) + Walk(spans, s, depth, v1).1;
    }
  }

  lemma WalkUnfold(spans: seq<Span>, s: Span, depth: nat, visited: set<string>)
    requires s in spans
    ensures s.id in visited ==> Walk(spans, s, depth, visited) == (visited, [])
    ensures forall k <- Kids(spans, Some(s.id)) :: k in spans
    ensures s.id !in visited ==>
              var all := WalkAll(spans, Kids(spans, Some(s.id)), depth + 1, visited + {s.id});
              Walk(spans, s, depth, visited) == (all.0, [Row(s, depth)] + all.1)
  {
    KidsElements(spans, Some(s.id));
  }

  /** Spans left unvisited surface as roots, in input order. */
  method AppendLeftover(spans: seq<Span>, visited: set<string>, ordered: seq<Row>) returns (ordered': seq<Row>)
    ensures ordered' == ordered + Leftover(spans, visited)
  {
    var seen := visited;
    ordered' := ordered;
    for i := 0 to |spans|
      invariant ordered' + Leftover(spans[i..], seen) == ordered + Leftover(spans, visited)
    {
      assert spans[i..][1..] == spans[i + 1..];
      if spans[i].id !in seen {
        seen := seen + {spans[i].id};
        ordered' := ordered' + [Row(spans[i], 0)];
      }
    }
  }

  method BuildSpanTree(spans: seq<Span>) returns (ordered: seq<Row>)
    ensures ordered == Rows(spans)
  {
    hide Walk, WalkAll, Leftover, Under, Ids, Sorting.Sort, KidsIn;
    var childrenOf, roots := IndexByParent(spans);
    roots := Sorting.Sort(roots, StartLe);
    childrenOf := SortSiblings(childrenOf);
    assert roots == Kids(spans, None) && Indexed(spans, childrenOf);
    KidsElements(spans, None);
    var visited;
    visited, ordered := WalkEach(spans, childrenOf, roots, 0, {}, []);
    ordered := AppendLeftover(spans, visited, ordered);
  }
}
