/**
 * The grid's objects: dots, the edges each cell builds between its corner dots,
 * the cells themselves, a piece's dot sensors and the sticks (shape edges)
 * between consecutive sensors. These are the objects the game updates in place,
 * so they are classes; the lists they grow are `seq` fields that are reassigned.
 */
module Board {
  import opened Common
  import Tags
  import CellFill

  /**
   * A lattice point. Awake creates its two lists empty; the grid builder gives
   * it its id and integer coordinates, which do not change afterwards.
   */
  class Dot {
    const id: Int32
    const x: int
    const y: int
    var Cells: seq<Cell>
    var Edges: seq<Edge>

    constructor (id: Int32, x: int, y: int)
      ensures this.id == id && this.x == x && this.y == y
      ensures Cells == [] && Edges == []
    {
      this.id, this.x, this.y := id, x, y;
      Cells, Edges := [], [];
    }
  }

  /** The two dots of an edge, in either order. */
  predicate Joins(e: Edge, a: Dot, b: Dot)
  {
    (e.d1 == a && e.d2 == b) || (e.d1 == b && e.d2 == a)
  }

  /**
   * An edge between two dots, stored with the smaller id first. `filled` is set
   * when a piece covers it; `stickAttached` stands for `stickSprite != null`,
   * the visual handle of the stick lying on it.
   */
  class Edge {
    const d1: Dot
    const d2: Dot
    const tag: string
    var filled: bool
    var stickAttached: bool
    /** The cell that built the edge (the third argument of `new Edge(d, m, this)` in DefineEdges). */
    ghost const owner: Cell?

    constructor (dot1: Dot, dot2: Dot, ghost owner: Cell?)
      modifies dot1, dot2
      ensures if dot1.id < dot2.id then d1 == dot1 && d2 == dot2 else d1 == dot2 && d2 == dot1
      ensures d1.id <= d2.id
      ensures tag == Tags.Tag(d1.id as int, d2.id as int)
      ensures !filled && !stickAttached && this.owner == owner
      ensures dot1.Edges == old(dot1.Edges) + TouchOne(this, dot1)
      ensures dot2.Edges == old(dot2.Edges) + TouchOne(this, dot2)
      ensures dot1.Cells == old(dot1.Cells) && dot2.Cells == old(dot2.Cells)
    {
      var a, b := dot1, dot2;
      if dot1.id >= dot2.id {
        a, b := dot2, dot1;
      }
      d1, d2 := a, b;
      tag := Tags.Tag(a.id as int, b.id as int);
      filled, stickAttached := false, false;
      this.owner := owner;
      new;
      a.Edges := a.Edges + [this];
      b.Edges := b.Edges + [this];
    }

    /** The dot's id is the id of one of this edge's ends. */
    predicate HasEnd(d: Dot)
    {
      d.id == d1.id || d.id == d2.id
    }

    /**
     * Fills the edge when both arguments' ids are ends of it. Each argument is
     * matched on its own, so passing the same end twice also fills. A filled
     * edge is never unfilled here.
     */
    method TryFill(d: Dot, e: Dot)
      modifies this`filled
      ensures filled == (old(filled) || (HasEnd(d) && HasEnd(e)))
    {
      if filled {
        return;
      }
      var counter := 0;
      if d.id == d1.id || d.id == d2.id {
        counter := counter + 1;
      }
      if e.id == d1.id || e.id == d2.id {
        counter := counter + 1;
      }
      if counter == 2 {
        filled := true;
      }
    }
  }

  /** The edges of `es` the way `Edge`'s constructor lists them on dot `d`. */
  function Touching(es: seq<Edge>, d: Dot): seq<Edge>
  {
    if es == [] then []
    else
      var e := es[|es| - 1];
      Touching(es[..|es| - 1], d) + TouchOne(e, d)
  }

  lemma {:induction false} TouchingAppend(a: seq<Edge>, b: seq<Edge>, d: Dot)
    ensures Touching(a + b, d) == Touching(a, d) + Touching(b, d)
    decreases |b|
  {
    if b == [] {
      assert a + b == a;
    } else {
      var e := b[|b| - 1];
      assert (a + b)[..|a + b| - 1] == a + b[..|b| - 1];
      TouchingAppend(a, b[..|b| - 1], d);
    }
  }

  /** No edge of `es` is filled or carries a stick, as a new edge is. */
  ghost predicate Blank(es: seq<Edge>)
    reads es
  {
    forall e :: e in es ==> !e.filled && !e.stickAttached
  }

  /** `d` is joined to the first other dot of `dots` on its column and on its row. */
  ghost predicate JoinedToMatches(dots: seq<Dot>, es: seq<Edge>, d: Dot)
  {
    && (FirstMatch(dots, d, true).Some? ==> Joined(es, d, FirstMatch(dots, d, true).value))
    && (FirstMatch(dots, d, false).Some? ==> Joined(es, d, FirstMatch(dots, d, false).value))
  }

  lemma JoinedGrows(es: seq<Edge>, more: seq<Edge>, d: Dot, m: Option<Dot>)
    requires es <= more && (m.Some? ==> Joined(es, d, m.value))
    ensures m.Some? ==> Joined(more, d, m.value)
  {
    if m.Some? {
      var e :| e in es && Joins(e, d, m.value);
      assert e in more;
    }
  }

  /** The first `n` dots of `dots` are joined to their matches. */
  ghost predicate CornersJoined(dots: seq<Dot>, es: seq<Edge>, n: int)
  {
    forall k {:trigger JoinedToMatches(dots, es, dots[k])} :: 0 <= k < n && k < |dots| ==> JoinedToMatches(dots, es, dots[k])
  }

  lemma CornersJoinedGrows(dots: seq<Dot>, es: seq<Edge>, more: seq<Edge>, n: int)
    requires es <= more && CornersJoined(dots, es, n) && 0 <= n < |dots| && JoinedToMatches(dots, more, dots[n])
    ensures CornersJoined(dots, more, n + 1)
  {
    forall k | 0 <= k < n
      ensures JoinedToMatches(dots, more, dots[k])
    {
      JoinedToMatchesGrows(dots, es, more, dots[k]);
    }
  }

  lemma CornersJoinedAll(dots: seq<Dot>, es: seq<Edge>)
    requires CornersJoined(dots, es, |dots|)
    ensures forall d {:trigger JoinedToMatches(dots, es, d)} :: d in dots ==> JoinedToMatches(dots, es, d)
  {
    forall d | d in dots
      ensures JoinedToMatches(dots, es, d)
    {
      var k :| 0 <= k < |dots| && dots[k] == d;
      assert JoinedToMatches(dots, es, dots[k]);
    }
  }

  lemma JoinedToMatchesGrows(dots: seq<Dot>, es: seq<Edge>, more: seq<Edge>, d: Dot)
    requires es <= more && JoinedToMatches(dots, es, d)
    ensures JoinedToMatches(dots, more, d)
  {
    JoinedGrows(es, more, d, FirstMatch(dots, d, true));
    JoinedGrows(es, more, d, FirstMatch(dots, d, false));
  }

  /** Each dot lists its original edges followed by the edges of `es` that touch it. */
  ghost predicate Listed(dots: seq<Dot>, es: seq<Edge>, listed: map<Dot, seq<Edge>>, cells: map<Dot, seq<Cell>>)
    reads dots
  {
    forall d :: d in dots ==>
      d in listed && d in cells && d.Edges == listed[d] + Touching(es, d) && d.Cells == cells[d]
  }

  function TouchOne(e: Edge, d: Dot): seq<Edge>
  {
    (if e.d1 == d then [e] else []) + (if e.d2 == d then [e] else [])
  }

  lemma ListedStep(start: seq<Edge>, es: seq<Edge>, e: Edge, d: Dot, before: seq<Edge>, after: seq<Edge>)
    requires before == start + Touching(es, d)
    requires after == before + TouchOne(e, d)
    ensures after == start + Touching(es + [e], d)
  {
    assert (es + [e])[..|es|] == es;
  }

  lemma WellBuiltStep(dots: seq<Dot>, es: seq<Edge>, e: Edge, a: Dot, b: Dot)
    requires WellBuilt(dots, es) && e !in es && !Joined(es, a, b) && Joins(e, a, b)
    requires a in dots && b in dots && a != b && (a.x == b.x || a.y == b.y)
    ensures WellBuilt(dots, es + [e])
  {
    assert (es + [e])[..|es|] == es;
    assert !Joined(es, e.d1, e.d2);
  }

  /** The edge `e` is one a cell may add after `es`: between two different corners on a common column or row, new, and joining a new pair. */
  ghost predicate FitsAfter(dots: seq<Dot>, es: seq<Edge>, e: Edge)
  {
    && e.d1 in dots && e.d2 in dots && e.d1 != e.d2 && (e.d1.x == e.d2.x || e.d1.y == e.d2.y)
    && e !in es && !Joined(es, e.d1, e.d2)
  }

  /** The shape of a cell's edge list, built one edge at a time (see WellBuiltShape). */
  ghost predicate WellBuilt(dots: seq<Dot>, es: seq<Edge>)
  {
    es == [] || (WellBuilt(dots, es[..|es| - 1]) && FitsAfter(dots, es[..|es| - 1], es[|es| - 1]))
  }

  /**
   * A well-built edge list holds distinct objects, each between two different
   * corners on a common column or row, and no pair of corners is joined twice.
   */
  lemma {:induction false} WellBuiltShape(dots: seq<Dot>, es: seq<Edge>)
    requires WellBuilt(dots, es)
    ensures Distinct(es)
    ensures forall e :: e in es ==> e.d1 in dots && e.d2 in dots && e.d1 != e.d2 && (e.d1.x == e.d2.x || e.d1.y == e.d2.y)
    ensures forall i, j :: 0 <= i < j < |es| ==> !Joins(es[j], es[i].d1, es[i].d2)
  {
    if es != [] {
      var front, last := es[..|es| - 1], es[|es| - 1];
      WellBuiltShape(dots, front);
      assert es == front + [last];
      forall i, j | 0 <= i < j < |es|
        ensures !Joins(es[j], es[i].d1, es[i].d2)
      {
        if j == |es| - 1 {
          assert es[i] in front;
        } else {
          assert es[i] == front[i] && es[j] == front[j];
        }
      }
    }
  }

  /** `List.Find`: the first dot of `ds` other than `d` on the same column (`sameX`) or row. */
  function FirstMatch(ds: seq<Dot>, d: Dot, sameX: bool): (m: Option<Dot>)
    ensures m.Some? ==> m.value in ds && m.value != d
    ensures m.Some? ==> if sameX then m.value.x == d.x else m.value.y == d.y
    ensures m.None? ==> forall n :: n in ds && n != d ==> if sameX then n.x != d.x else n.y != d.y
  {
    if ds == [] then None
    else if ds[0] != d && (if sameX then ds[0].x == d.x else ds[0].y == d.y) then Some(ds[0])
    else FirstMatch(ds[1..], d, sameX)
  }

  /** `edges.Any(...)`: some edge of `es` joins `a` and `b`. */
  predicate Joined(es: seq<Edge>, a: Dot, b: Dot)
  {
    exists e :: e in es && Joins(e, a, b)
  }

  function FilledFlags(es: seq<Edge>): (r: seq<bool>)
    reads es
    ensures |r| == |es| && forall i {:trigger r[i]} :: 0 <= i < |es| ==> r[i] == es[i].filled
  {
    if es == [] then [] else FilledFlags(es[..|es| - 1]) + [es[|es| - 1].filled]
  }

  function StickFlags(es: seq<Edge>): (r: seq<bool>)
    reads es
    ensures |r| == |es| && forall i {:trigger r[i]} :: 0 <= i < |es| ==> r[i] == es[i].stickAttached
  {
    if es == [] then [] else StickFlags(es[..|es| - 1]) + [es[|es| - 1].stickAttached]
  }

  lemma FilledFlagsFrom(es: seq<Edge>, before: seq<bool>, idx: seq<nat>)
    requires |before| == |es| && forall j :: 0 <= j < |es| ==> es[j].filled == (before[j] || j in idx)
    ensures FilledFlags(es) == CellFill.SetTrue(before, idx)
  {
  }

  lemma StickFlagsFrom(es: seq<Edge>, before: seq<bool>, idx: seq<nat>)
    requires |before| == |es| && forall j :: 0 <= j < |es| ==> es[j].stickAttached == (before[j] || j in idx)
    ensures StickFlags(es) == CellFill.SetTrue(before, idx)
  {
  }

  /** `n` copies of cell `c`. */
  /** One more registration of `c` after the `n` already made. */
  lemma RepeatStep(start: seq<Cell>, cur: seq<Cell>, c: Cell, n: nat)
    requires cur == start + Repeat(c, n)
    ensures cur + [c] == start + Repeat(c, n + 1)
  {
    assert Repeat(c, n + 1) == Repeat(c, n) + [c];
  }

  /** Counting one more entry of `s` adds one to that entry's multiplicity and leaves the others. */
  lemma PrefixCount<T>(s: seq<T>, i: nat)
    requires i < |s|
    ensures multiset(s[..i + 1]) == multiset(s[..i]) + multiset{s[i]}
  {
    assert s[..i + 1] == s[..i] + [s[i]];
  }

  function Repeat(c: Cell, n: nat): (r: seq<Cell>)
    ensures |r| == n && forall i :: 0 <= i < n ==> r[i] == c
  {
    if n == 0 then [] else Repeat(c, n - 1) + [c]
  }

  /** Is edge `e` one that FillEdges must fill for these dots and edge tags. */
  predicate Targeted(e: Edge, targetDots: seq<Dot>, targetEdges: set<string>)
  {
    e.d1 in targetDots && e.d2 in targetDots &&
    (e.tag in targetEdges || Tags.ReverseTag(e.tag) in targetEdges)
  }

  function TargetMask(es: seq<Edge>, targetDots: seq<Dot>, targetEdges: set<string>): (r: seq<bool>)
    ensures |r| == |es| && forall i {:trigger r[i]} :: 0 <= i < |es| ==> r[i] == Targeted(es[i], targetDots, targetEdges)
  {
    seq(|es|, i requires 0 <= i < |es| => Targeted(es[i], targetDots, targetEdges))
  }

  /** Does some stick carry this edge tag, in either order. */
  predicate HasStickFor(stickTags: seq<string>, tag: string)
  {
    exists j :: 0 <= j < |stickTags| && (stickTags[j] == tag || stickTags[j] == Tags.ReverseTag(tag))
  }

  function StickMask(es: seq<Edge>, stickTags: seq<string>): (r: seq<bool>)
    ensures |r| == |es| && forall i {:trigger r[i]} :: 0 <= i < |es| ==> r[i] == HasStickFor(stickTags, es[i].tag)
  {
    seq(|es|, i requires 0 <= i < |es| => HasStickFor(stickTags, es[i].tag))
  }

  function StickTags(sticks: seq<ShapeEdge>): (r: seq<string>)
    reads sticks
    ensures |r| == |sticks| && forall j {:trigger r[j]} :: 0 <= j < |sticks| ==> r[j] == sticks[j].currentEdgeTag
  {
    if sticks == [] then [] else StickTags(sticks[..|sticks| - 1]) + [sticks[|sticks| - 1].currentEdgeTag]
  }

  /**
   * `sticks.Find(...)` on the sticks' current tags: the position of the first
   * stick whose tag is `tag` or its reverse.
   */
  function FindTag(stickTags: seq<string>, tag: string): (r: Option<nat>)
    ensures r.Some? <==> HasStickFor(stickTags, tag)
    ensures r.Some? ==> r.value < |stickTags|
    ensures r.Some? ==> stickTags[r.value] == tag || stickTags[r.value] == Tags.ReverseTag(tag)
  {
    if stickTags == [] then None
    else if stickTags[0] == tag || stickTags[0] == Tags.ReverseTag(tag) then Some(0)
    else
      var r := FindTag(stickTags[1..], tag);
      if r.Some? then Some(r.value + 1)
      else
        assert forall j :: 1 <= j < |stickTags| ==> stickTags[j] == stickTags[1..][j - 1];
        None
  }

  /** FillEdges' first loop: tag every stick whose two sensors are snapped. */
  method TagSticks(sticks: seq<ShapeEdge>)
    modifies sticks
    ensures forall s :: s in sticks ==> s.currentEdgeTag == StickTagFor(s, old(s.currentEdgeTag))
  {
    for k := 0 to |sticks|
      invariant forall s :: s in sticks ==>
        s.currentEdgeTag == if s in sticks[..k] then StickTagFor(s, old(s.currentEdgeTag)) else old(s.currentEdgeTag)
    {
      var s := sticks[k];
      TagStick(s);
      assert sticks[..k + 1] == sticks[..k] + [s];
    }
    assert sticks[..|sticks|] == sticks;
  }

  /** One stick of the tagging loop: it takes its sensors' snap dots as its tag when both have one. */
  method TagStick(s: ShapeEdge)
    modifies s
    ensures s.currentEdgeTag == StickTagFor(s, old(s.currentEdgeTag))
  {
    if s.d1.snapTarget != null && s.d2.snapTarget != null {
      s.currentEdgeTag := Tags.Tag(s.d1.snapTarget.id as int, s.d2.snapTarget.id as int);
    }
  }

  /**
   * Once tagged, the sticks carry the tags tagging gave them, and tagging
   * them again would change nothing.
   */
  twostate lemma TaggingSettles(sticks: seq<ShapeEdge>)
    requires forall s :: s in sticks ==> unchanged(s.d1, s.d2) && s.currentEdgeTag == StickTagFor(s, old(s.currentEdgeTag))
    ensures StickTags(sticks) == old(TagsAfterTagging(sticks)) == TagsAfterTagging(sticks)
  {
    forall i | 0 <= i < |sticks|
      ensures StickTags(sticks)[i] == old(TagsAfterTagging(sticks))[i] == TagsAfterTagging(sticks)[i]
    {
      assert sticks[i] in sticks;
    }
  }

  /** The tags FillEdges gives the sticks, from their current tags. */
  function TagsAfterTagging(sticks: seq<ShapeEdge>): (r: seq<string>)
    reads sticks, set s | s in sticks :: s.d1, set s | s in sticks :: s.d2
    ensures |r| == |sticks|
    ensures forall i {:trigger r[i]} :: 0 <= i < |sticks| ==> r[i] == StickTagFor(sticks[i], sticks[i].currentEdgeTag)
  {
    seq(|sticks|, i reads sticks, set s | s in sticks :: s.d1, set s | s in sticks :: s.d2
                    requires 0 <= i < |sticks| => StickTagFor(sticks[i], sticks[i].currentEdgeTag))
  }

  /** The tag FillEdges gives a stick: its sensors' snap dots, when both have one. */
  function StickTagFor(s: ShapeEdge, previous: string): string
    reads s.d1, s.d2
  {
    if s.d1.snapTarget != null && s.d2.snapTarget != null then
      Tags.Tag(s.d1.snapTarget.id as int, s.d2.snapTarget.id as int)
    else previous
  }

  /** `new Edge(a, b, cell)` for a cell with corners `dots` and edge list `es`. */
  method NewEdge(dots: seq<Dot>, es: seq<Edge>, a: Dot, b: Dot, ghost owner: Cell,
                 ghost listed: map<Dot, seq<Edge>>, ghost cells: map<Dot, seq<Cell>>) returns (e: Edge)
    requires a in dots && b in dots && a != b && Listed(dots, es, listed, cells)
    modifies a, b
    ensures fresh(e) && !e.filled && !e.stickAttached && Joins(e, a, b) && e.owner == owner
    ensures Listed(dots, es + [e], listed, cells)
  {
    label before:
    e := new Edge(a, b, owner);
    forall d | d in dots
      ensures d in listed && d in cells && d.Edges == listed[d] + Touching(es + [e], d) && d.Cells == cells[d]
    {
      ListedStep(listed[d], es, e, d, old@before(d.Edges), d.Edges);
    }
  }

  /**
   * A grid cell: its corner dots, the edges it builds between them, the
   * number of those edges not yet filled and whether it is complete.
   */
  class Cell {
    const id: int
    const dots: seq<Dot>
    var edges: seq<Edge>
    var completed: bool
    var edgesCount: int

    constructor (id: int, dots: seq<Dot>)
      ensures this.id == id && this.dots == dots
      ensures edges == [] && !completed && edgesCount == 0
    {
      this.id, this.dots := id, dots;
      edges, completed, edgesCount := [], false, 0;
    }

    /** The cell's edges are distinct objects, all built by this cell. */
    ghost predicate Valid()
      reads this`edges
    {
      Distinct(edges) && Owns(edges)
    }

    /** Every edge of `es` was built by this cell. */
    ghost predicate Owns(es: seq<Edge>)
    {
      forall e :: e in es ==> e.owner == this
    }

    /** The cell as CellFill sees it. */
    ghost function State(): CellFill.CellState
      reads this, edges
    {
      CellFill.CellState(FilledFlags(edges), StickFlags(edges), edgesCount, completed)
    }

    /** Registers the cell with each corner dot (once per listing), then defines its edges. */
    method Start()
      modifies this`edges, this`edgesCount, dots
      ensures forall d :: d in dots ==> d.Cells == old(d.Cells) + Repeat(this, multiset(dots)[d])
      ensures forall d :: d in dots ==> d.Edges == old(d.Edges) + Touching(edges, d)
      ensures EdgesDefined() && Blank(edges)
      ensures Valid() && edgesCount == |edges| && completed == old(completed)
    {
      Register();
      DefineEdges();
    }

    /** The first loop of Start: `dot.Cells.Add(this)` for each corner. */
    method Register()
      modifies dots
      ensures forall d :: d in dots ==> d.Cells == old(d.Cells) + Repeat(this, multiset(dots)[d])
      ensures forall d :: d in dots ==> d.Edges == old(d.Edges)
    {
      for i := 0 to |dots|
        invariant forall d :: d in dots ==> d.Cells == old(d.Cells) + Repeat(this, multiset(dots[..i])[d])
        invariant forall d :: d in dots ==> d.Edges == old(d.Edges)
      {
        var c := dots[i];
        PrefixCount(dots, i);
        RepeatStep(old(c.Cells), c.Cells, this, multiset(dots[..i])[c]);
        c.Cells := c.Cells + [this];
      }
      assert dots[..|dots|] == dots;
    }

    /**
     * What DefineEdges leaves: every edge joins two different corner dots on
     * a common column or row, no two edges join the same pair, and each
     * corner is joined to the first other corner on its column and on its row.
     */
    ghost predicate EdgesDefined()
      reads this
    {
      WellBuilt(dots, edges) &&
      forall d {:trigger JoinedToMatches(dots, edges, d)} :: d in dots ==> JoinedToMatches(dots, edges, d)
    }

    /** Builds the cell's own edges between its corners and sets the counter to their number. */
    method DefineEdges()
      modifies this`edges, this`edgesCount, dots
      ensures EdgesDefined() && Blank(edges)
      ensures Valid() && edgesCount == |edges|
      ensures forall d :: d in dots ==> d.Edges == old(d.Edges) + Touching(edges, d) && d.Cells == old(d.Cells)
    {
      JoinCorners();
      edgesCount := |edges|;
      WellBuiltShape(dots, edges);
    }

    /** The loop of DefineEdges: for each corner, join it to its column match, then to its row match. */
    method JoinCorners()
      modifies this`edges, dots
      ensures EdgesDefined() && Blank(edges) && Owns(edges)
      ensures forall d :: d in dots ==> d.Edges == old(d.Edges) + Touching(edges, d) && d.Cells == old(d.Cells)
    {
      ghost var listed := map d | d in dots :: d.Edges;
      ghost var cells := map d | d in dots :: d.Cells;
      edges := [];
      for i := 0 to |dots|
        invariant WellBuilt(dots, edges) && Listed(dots, edges, listed, cells) && Blank(edges) && Owns(edges)
        invariant CornersJoined(dots, edges, i)
      {
        ghost var before := edges;
        var d := dots[i];
        var xMatch := FirstMatch(dots, d, true);
        JoinIfNew(d, xMatch, listed, cells);
        ghost var mid := edges;
        var yMatch := FirstMatch(dots, d, false);
        JoinIfNew(d, yMatch, listed, cells);
        JoinedGrows(mid, edges, d, xMatch);
        CornersJoinedGrows(dots, before, edges, i);
      }
      CornersJoinedAll(dots, edges);
    }

    /** `edges.Any(...)` followed, when it finds nothing, by `edges.Add(new Edge(a, m, this))`. */
    method JoinIfNew(a: Dot, m: Option<Dot>, ghost listed: map<Dot, seq<Edge>>, ghost cells: map<Dot, seq<Cell>>)
      requires a in dots && WellBuilt(dots, edges) && Listed(dots, edges, listed, cells) && Blank(edges) && Owns(edges)
      requires m.Some? ==> m.value in dots && m.value != a && (m.value.x == a.x || m.value.y == a.y)
      modifies this`edges, dots
      ensures WellBuilt(dots, edges) && Listed(dots, edges, listed, cells) && Blank(edges) && Owns(edges)
      ensures old(edges) <= edges
      ensures m.Some? ==> Joined(edges, a, m.value)
    {
      if m.Some? && !Joined(edges, a, m.value) {
        var e := AddEdge(a, m.value, listed, cells);
        assert e in edges;
      }
    }

    method AddEdge(a: Dot, b: Dot, ghost listed: map<Dot, seq<Edge>>, ghost cells: map<Dot, seq<Cell>>) returns (e: Edge)
      requires a in dots && b in dots && a != b && (a.x == b.x || a.y == b.y)
      requires !Joined(edges, a, b) && WellBuilt(dots, edges) && Listed(dots, edges, listed, cells)
      modifies this`edges, a, b
      ensures WellBuilt(dots, edges) && Listed(dots, edges, listed, cells)
      ensures edges == old(edges) + [e]
      ensures fresh(e) && !e.filled && !e.stickAttached && Joins(e, a, b) && e.owner == this
    {
      e := NewEdge(dots, edges, a, b, this, listed, cells);
      WellBuiltStep(dots, edges, e, a, b);
      edges := edges + [e];
    }

    /**
     * Fills the targeted edges of this cell for a dropped piece: an edge is
     * targeted when both its dots are among `targetDots` and its tag, in
     * either order, is among `targetEdges`. It first tags each stick with its
     * sensors' snap dots, then refuses if a targeted edge is already filled,
     * then fills and counts the targeted edges one by one, attaching the
     * matching stick; a targeted edge with no matching stick ends the call
     * with `false` after it was filled and counted. On success the cell
     * completes when no edge is left and `blast` reports the call to
     * `GridManager.IsTimeToBlast`.
     */
    method FillEdges(targetDots: seq<Dot>, targetEdges: set<string>, sticks: seq<ShapeEdge>)
      returns (ok: bool, blast: bool)
      requires Valid()
      modifies this`edgesCount, this`completed, edges, sticks
      ensures forall s :: s in sticks ==> s.currentEdgeTag == StickTagFor(s, old(s.currentEdgeTag))
      ensures StickTags(sticks) == old(TagsAfterTagging(sticks)) == TagsAfterTagging(sticks)
      ensures var o := CellFill.Fill(old(State()), TargetMask(edges, targetDots, targetEdges),
                                     StickMask(edges, StickTags(sticks)));
        ok == o.ok && blast == o.blast && State() == o.state
    {
      TagSticks(sticks);
      TaggingSettles(sticks);
      assert State() == old(State());
      var stickTags := StickTags(sticks);
      ok, blast := FillCell(targetDots, targetEdges, stickTags);
      assert StickTags(sticks) == stickTags;
    }

    /**
     * FillEdges after the sticks are tagged, given the sticks' tags: refuse on
     * a filled target, else fill the targets and complete the cell if no edge
     * is left.
     */
    method FillCell(targetDots: seq<Dot>, targetEdges: set<string>, stickTags: seq<string>)
      returns (ok: bool, blast: bool)
      requires Valid()
      modifies this`edgesCount, this`completed, edges
      ensures var o := CellFill.Fill(old(State()), TargetMask(edges, targetDots, targetEdges),
                                     StickMask(edges, stickTags));
        ok == o.ok && blast == o.blast && State() == o.state
    {
      ghost var s0 := State();
      ghost var mask, hasStick := TargetMask(edges, targetDots, targetEdges), StickMask(edges, stickTags);
      var conflict, toFill := CollectTargets(targetDots, targetEdges);
      if conflict {
        CellFill.FillConflictChangesNothing(s0, mask, hasStick);
        return false, false;
      }
      ghost var m, n;
      ok, m, n := FillTargets(toFill, stickTags);
      blast := false;
      if ok && edgesCount == 0 {
        completed := true;
        blast := true;
      }
      FilledFlagsFrom(edges, s0.filled, toFill[..n]);
      StickFlagsFrom(edges, s0.stick, toFill[..m]);
      CellFill.FillResult(s0, mask, hasStick, toFill, m, n, State(), ok, blast);
    }

    /**
     * FillEdges' scan of the cell's edges: whether a targeted edge is already
     * filled, and otherwise the positions of the targeted edges in order.
     */
    method CollectTargets(targetDots: seq<Dot>, targetEdges: set<string>) returns (conflict: bool, toFill: seq<nat>)
      ensures var mask := TargetMask(edges, targetDots, targetEdges);
        && conflict == CellFill.Conflict(State(), mask)
        && (!conflict ==> toFill == CellFill.Indices(mask))
    {
      ghost var mask := TargetMask(edges, targetDots, targetEdges);
      ghost var filled := FilledFlags(edges);
      toFill := [];
      for i := 0 to |edges|
        invariant toFill == CellFill.Indices(mask[..i])
        invariant forall j :: 0 <= j < i && mask[j] ==> !filled[j]
      {
        CellFill.IndicesStep(mask, i);
        var e := edges[i];
        if Targeted(e, targetDots, targetEdges) {
          if e.filled {
            assert mask[i] && filled[i];
            return true, [];
          }
          toFill := toFill + [i];
        }
      }
      assert mask[..|edges|] == mask && State().filled == filled;
      conflict := false;
    }

    /**
     * FillEdges' fill loop over the positions `toFill`: each edge is filled
     * and counted, then given its stick; the loop stops at the first edge
     * for which no stick carries its tag.
     */
    method FillTargets(toFill: seq<nat>, stickTags: seq<string>) returns (ok: bool, ghost m: nat, ghost n: nat)
      requires Valid() && forall k :: 0 <= k < |toFill| ==> toFill[k] < |edges|
      modifies this`edgesCount, edges
      ensures m == CellFill.FirstMissing(toFill, StickMask(edges, stickTags))
      ensures n == if m < |toFill| then m + 1 else |toFill|
      ensures ok == (m == |toFill|) && n <= |toFill|
      ensures forall j :: 0 <= j < |edges| ==> edges[j].filled == (old(edges[j].filled) || j in toFill[..n])
      ensures forall j :: 0 <= j < |edges| ==> edges[j].stickAttached == (old(edges[j].stickAttached) || j in toFill[..m])
      ensures edgesCount == old(edgesCount) - n
    {
      ghost var hasStick := StickMask(edges, stickTags);
      for k := 0 to |toFill|
        invariant forall j :: 0 <= j < |edges| ==> edges[j].filled == (old(edges[j].filled) || j in toFill[..k])
        invariant forall j :: 0 <= j < |edges| ==> edges[j].stickAttached == (old(edges[j].stickAttached) || j in toFill[..k])
        invariant edgesCount == old(edgesCount) - k
        invariant forall j :: 0 <= j < k ==> hasStick[toFill[j]]
      {
        var i := toFill[k];
        var found := FillOne(i, stickTags);
        assert toFill[..k + 1] == toFill[..k] + [i];
        if !found {
          CellFill.FirstMissingAt(toFill, hasStick, k);
          return false, k, k + 1;
        }
      }
      assert toFill[..|toFill|] == toFill;
      CellFill.FirstMissingAt(toFill, hasStick, |toFill|);
      ok, m, n := true, |toFill|, |toFill|;
    }

    /**
     * One pass of FillEdges' fill loop on the cell's `i`th edge: fill it,
     * count it, look for a stick carrying its tag and attach that stick.
     */
    method FillOne(i: nat, stickTags: seq<string>) returns (found: bool)
      requires Valid() && i < |edges|
      modifies edges[i], this`edgesCount
      ensures found == HasStickFor(stickTags, edges[i].tag)
      ensures edgesCount == old(edgesCount) - 1
      ensures forall j :: 0 <= j < |edges| ==> edges[j].filled == (old(edges[j].filled) || j == i)
      ensures forall j :: 0 <= j < |edges| ==> edges[j].stickAttached == (old(edges[j].stickAttached) || (found && j == i))
    {
      var e := edges[i];
      e.filled := true;
      edgesCount := edgesCount - 1;
      found := FindTag(stickTags, e.tag).Some?;
      if found {
        e.stickAttached := true;
      }
      forall j | 0 <= j < |edges| && j != i
        ensures edges[j] != e
      {
        DistinctAt(edges, i, j);
      }
    }

    /** Recounts the cell from the sticks attached to its edges. */
    method UpdateState()
      modifies this`completed, this`edgesCount
      ensures State() == CellFill.Recount(old(State()))
      ensures completed <==> edgesCount == 0
    {
      var filledCount := CellFill.CountTrue(StickFlags(edges));
      completed := filledCount == |edges|;
      edgesCount := |edges| - filledCount;
    }
  }

  /**
   * A piece's sensor: the dot it currently snaps to (set by the dots' trigger
   * callbacks), whether it has one, and the snap position (an opaque value).
   */
  class DotSensor {
    var snapPosition: Vec3
    var SnapTargetAvailable: bool
    var snapTarget: Dot?
    var colliderEnabled: bool
    const localCoordinate: Offset

    constructor (localCoordinate: Offset)
      ensures this.localCoordinate == localCoordinate
      ensures snapTarget == null && !SnapTargetAvailable && colliderEnabled
    {
      this.localCoordinate := localCoordinate;
      snapPosition := Vec3(0.0, 0.0, 0.0);
      SnapTargetAvailable, snapTarget := false, null;
      colliderEnabled := true;
    }

    /** The availability flag agrees with the target, as SpecifySnapTarget leaves it. */
    ghost predicate Valid()
      reads this`SnapTargetAvailable, this`snapTarget
    {
      SnapTargetAvailable == (snapTarget != null)
    }

    method SetSnapPosition(p: Vec3)
      modifies this`snapPosition
      ensures GetSnapPosition() == p
    {
      snapPosition := p;
    }

    function GetSnapPosition(): Vec3
      reads this
    {
      snapPosition
    }

    method SpecifySnapTarget(target: Dot?)
      modifies this`snapTarget, this`SnapTargetAvailable
      ensures snapTarget == target
      ensures SnapTargetAvailable == (target != null)
      ensures Valid()
    {
      snapTarget := target;
      SnapTargetAvailable := target != null;
    }

    method SetColliderState(state: bool)
      modifies this`colliderEnabled
      ensures colliderEnabled == state
    {
      colliderEnabled := state;
    }
  }

  /**
   * A stick of a piece, between two consecutive sensors. `currentEdgeTag`
   * (empty until first set) names the grid edge the stick lies on.
   */
  class ShapeEdge {
    const d1: DotSensor
    const d2: DotSensor
    var currentEdgeTag: string

    constructor (d1: DotSensor, d2: DotSensor)
      ensures this.d1 == d1 && this.d2 == d2 && currentEdgeTag == ""
    {
      this.d1, this.d2 := d1, d2;
      currentEdgeTag := "";
    }
  }
}
