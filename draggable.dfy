/**
 * A piece in the tray (`Draggable`): its dot sensors, the sticks between
 * consecutive sensors, the placement check and what a drop does to the grid.
 */
module Pieces {
  import opened Common
  import CellFill
  import Board
  import Placement

  // ---------------------------------------------------------------------------
  // What a drop targets

  /** `set.UnionWith(cs)` on a set kept as a list in order of first insertion. */
  function UnionWith(acc: seq<Board.Cell>, cs: seq<Board.Cell>): seq<Board.Cell>
    decreases |cs|
  {
    if cs == [] then acc
    else UnionWith(if cs[0] in acc then acc else acc + [cs[0]], cs[1..])
  }

  /** The union holds exactly the members of both, and adds no duplicate. */
  lemma {:induction false} UnionWithMembers(acc: seq<Board.Cell>, cs: seq<Board.Cell>)
    ensures forall c :: c in UnionWith(acc, cs) ==> c in acc || c in cs
    ensures forall c :: c in acc ==> c in UnionWith(acc, cs)
    ensures forall c :: c in cs ==> c in UnionWith(acc, cs)
    ensures Distinct(acc) ==> Distinct(UnionWith(acc, cs))
    decreases |cs|
  {
    if cs != [] {
      var next := if cs[0] in acc then acc else acc + [cs[0]];
      UnionWithMembers(next, cs[1..]);
      if cs[0] !in acc {
        assert next[..|next| - 1] == acc;
      }
      forall c | c in cs
        ensures c in UnionWith(acc, cs)
      {
        if c != cs[0] {
          assert c in cs[1..];
        }
      }
    }
  }

  /** The cells of the snap dots, each once, in the order Drop meets them. */
  function CellsOf(ds: seq<Board.Dot>): (r: seq<Board.Cell>)
    reads ds
  {
    if ds == [] then [] else UnionWith(CellsOf(ds[..|ds| - 1]), ds[|ds| - 1].Cells)
  }

  /** Drop's cell targets are exactly the cells of the snap dots, none twice. */
  lemma {:induction false} CellsOfUnion(ds: seq<Board.Dot>)
    ensures Distinct(CellsOf(ds))
    ensures forall c :: c in CellsOf(ds) ==> exists i :: 0 <= i < |ds| && c in ds[i].Cells
    ensures forall i, c :: 0 <= i < |ds| && c in ds[i].Cells ==> c in CellsOf(ds)
  {
    if ds != [] {
      var front := ds[..|ds| - 1];
      CellsOfUnion(front);
      UnionWithMembers(CellsOf(front), ds[|ds| - 1].Cells);
      forall c
        ensures c in CellsOf(ds) <==> exists i :: 0 <= i < |ds| && c in ds[i].Cells
      {
        if c in CellsOf(front) {
          var i :| 0 <= i < |front| && c in front[i].Cells;
          assert ds[i] == front[i];
        }
        if exists i :: 0 <= i < |ds| && c in ds[i].Cells {
          var i :| 0 <= i < |ds| && c in ds[i].Cells;
          if i < |front| {
            assert front[i] == ds[i];
          }
        }
      }
    }
  }

  /** The edge keys `"id_i,id_{i+1}"` of consecutive snap dots. */
  function ConsecutiveKeys(ds: seq<Board.Dot>): set<string>
  {
    if |ds| < 2 then {}
    else ConsecutiveKeys(ds[..|ds| - 1]) + {Placement.Key(ds[|ds| - 2], ds[|ds| - 1])}
  }

  /** Drop's key set holds the key of each consecutive pair, in its order, and nothing else. */
  lemma {:induction false} ConsecutiveKeysMembers(ds: seq<Board.Dot>)
    ensures forall i :: 0 <= i < |ds| - 1 ==> Placement.Key(ds[i], ds[i + 1]) in ConsecutiveKeys(ds)
    ensures forall k :: k in ConsecutiveKeys(ds) ==> exists i :: 0 <= i < |ds| - 1 && k == Placement.Key(ds[i], ds[i + 1])
  {
    if |ds| >= 2 {
      var front := ds[..|ds| - 1];
      ConsecutiveKeysMembers(front);
      forall i | 0 <= i < |front| - 1
        ensures Placement.Key(front[i], front[i + 1]) == Placement.Key(ds[i], ds[i + 1])
      {
      }
    }
  }

  /**
   * What Drop's loop does to one cell, as values: a completed cell is
   * skipped (and lets the loop go on), any other gets FillEdges' outcome.
   */
  ghost function TryCell(s: CellFill.CellState, es: seq<Board.Edge>, ts: seq<Board.Dot>, keys: set<string>,
                         stickTags: seq<string>): (o: CellFill.Outcome)
    requires s.WellFormed() && |s.filled| == |es|
    ensures s.completed ==> o == CellFill.Outcome(true, s, false)
  {
    if s.completed then CellFill.Outcome(true, s, false)
    else CellFill.Fill(s, Board.TargetMask(es, ts, keys), Board.StickMask(es, stickTags))
  }

  /** The cells are distinct and each is valid; edges of different cells are then different objects. */
  ghost predicate Apart(cells: seq<Board.Cell>)
    reads cells
  {
    Distinct(cells) && forall c :: c in cells ==> c.Valid()
  }

  /** Every edge object of the given cells. */
  ghost function EdgesOf(cells: seq<Board.Cell>): (r: set<Board.Edge>)
    reads cells
    ensures forall k, e :: 0 <= k < |cells| && e in cells[k].edges ==> e in r
  {
    set c, e | c in cells && e in c.edges :: e
  }

  /** The sensors' snap dots. */
  ghost function SnapDots(sensors: seq<Board.DotSensor>): set<Board.Dot>
    reads sensors
  {
    set s | s in sensors && s.snapTarget != null :: s.snapTarget as Board.Dot
  }

  /** The cells a drop over the sensors' current snap dots would target (none when a sensor has no snap dot). */
  ghost function DropCells(sensors: seq<Board.DotSensor>): seq<Board.Cell>
    reads sensors, SnapDots(sensors)
  {
    match Placement.Gather(Placement.SnapTargets(sensors))
    case None => []
    case Some(ts) => CellsOf(ts)
  }

  /** The cells' states, in order. */
  ghost function States(cells: seq<Board.Cell>): (r: seq<CellFill.CellState>)
    reads cells, EdgesOf(cells)
    ensures |r| == |cells| && forall k {:trigger r[k]} :: 0 <= k < |cells| ==> r[k] == cells[k].State()
  {
    seq(|cells|, k reads cells, EdgesOf(cells) requires 0 <= k < |cells| => cells[k].State())
  }

  /** Every state fits its cell's edge list. */
  ghost predicate Shaped(states: seq<CellFill.CellState>, es: seq<seq<Board.Edge>>)
  {
    |states| == |es| && forall k :: 0 <= k < |states| ==> states[k].WellFormed() && |states[k].filled| == |es[k]|
  }

  /** The edge lists of the cells, in order. */
  ghost function EdgeLists(cells: seq<Board.Cell>): (r: seq<seq<Board.Edge>>)
    reads cells
    ensures |r| == |cells| && forall j {:trigger r[j]} :: 0 <= j < |cells| ==> r[j] == cells[j].edges
  {
    seq(|cells|, j reads cells requires 0 <= j < |cells| => cells[j].edges)
  }

  /** A cell's state always fits its edge list. */
  lemma StatesShaped(cells: seq<Board.Cell>)
    ensures Shaped(States(cells), EdgeLists(cells))
  {
  }

  /** What each cell answers when Drop reaches it, given the cells' states and edge lists. */
  ghost function AnswersOf(states: seq<CellFill.CellState>, es: seq<seq<Board.Edge>>, ts: seq<Board.Dot>,
                           keys: set<string>, T: seq<string>): (r: seq<CellFill.Outcome>)
    requires Shaped(states, es)
    ensures |r| == |states|
    ensures forall k {:trigger TryCell(states[k], es[k], ts, keys, T)} :: 0 <= k < |states| ==>
      r[k] == TryCell(states[k], es[k], ts, keys, T)
  {
    seq(|states|, k requires 0 <= k < |states| => TryCell(states[k], es[k], ts, keys, T))
  }

  /** The position of the first refusal, or `|answers|` when every cell accepts. */
  function FirstRefusal(answers: seq<CellFill.Outcome>): (f: nat)
    ensures f <= |answers|
    ensures f < |answers| ==> !answers[f].ok
    ensures forall k :: 0 <= k < f ==> answers[k].ok
  {
    if answers == [] then 0
    else if !answers[0].ok then 0
    else 1 + FirstRefusal(answers[1..])
  }

  /** The first refusal is at `k` when every answer before `k` accepts and the one at `k` (if any) refuses. */
  lemma FirstRefusalAt(answers: seq<CellFill.Outcome>, k: nat)
    requires k <= FirstRefusal(answers) && k < |answers| && !answers[k].ok
    ensures FirstRefusal(answers) == k
  {
  }

  /** An accepting answer at `k` moves the first refusal past `k`. */
  lemma FirstRefusalPast(answers: seq<CellFill.Outcome>, k: nat)
    requires k <= FirstRefusal(answers) && k < |answers| && answers[k].ok
    ensures k + 1 <= FirstRefusal(answers)
  {
  }

  /** How many cells Drop's loop handles: up to and including the first refusal. */
  function Handled(answers: seq<CellFill.Outcome>): (n: nat)
    ensures n <= |answers|
  {
    var f := FirstRefusal(answers);
    if f < |answers| then f + 1 else f
  }

  /** The first `n` cells take the state their answer gives; the rest keep theirs. */
  function Mix(before: seq<CellFill.CellState>, answers: seq<CellFill.Outcome>, n: nat): (r: seq<CellFill.CellState>)
    requires |answers| == |before|
    ensures |r| == |before|
    ensures forall j {:trigger r[j]} :: 0 <= j < |before| ==> r[j] == if j < n then answers[j].state else before[j]
  {
    seq(|before|, j requires 0 <= j < |before| => if j < n then answers[j].state else before[j])
  }

  /** Handling cell `k` moves the mix on by one. */
  lemma MixStep(before: seq<CellFill.CellState>, answers: seq<CellFill.Outcome>, k: nat,
                pre: seq<CellFill.CellState>, post: seq<CellFill.CellState>)
    requires |answers| == |before| && k < |before| && pre == Mix(before, answers, k)
    requires |post| == |pre| && post[k] == answers[k].state
    requires forall j :: 0 <= j < |pre| && j != k ==> post[j] == pre[j]
    ensures post == Mix(before, answers, k + 1)
  {
  }

  /**
   * One pass of Drop's cell loop: a completed cell is skipped, any other is
   * asked to fill its part of the drop, which first re-tags the sticks.
   */
  method TryFillCell(c: Board.Cell, ts: seq<Board.Dot>, keys: set<string>, sticks: seq<Board.ShapeEdge>,
                     ghost T: seq<string>, ghost o: CellFill.Outcome) returns (ok: bool)
    requires c.Valid() && Board.TagsAfterTagging(sticks) == T
    requires o == TryCell(c.State(), c.edges, ts, keys, T)
    modifies c, c.edges, sticks
    ensures ok == o.ok && c.State() == o.state && c.edges == old(c.edges)
    ensures Board.TagsAfterTagging(sticks) == T
  {
    if c.completed {
      return true;
    }
    var blast;
    ok, blast := c.FillEdges(ts, keys, sticks);
  }

  /** TryFillCell on cell `k` of a list: the other cells, whose edges are their own, are left alone. */
  method FillStep(cells: seq<Board.Cell>, k: nat, ts: seq<Board.Dot>, keys: set<string>, sticks: seq<Board.ShapeEdge>,
                  ghost T: seq<string>, ghost o: CellFill.Outcome) returns (ok: bool)
    requires Apart(cells) && k < |cells| && Board.TagsAfterTagging(sticks) == T
    requires o == TryCell(cells[k].State(), cells[k].edges, ts, keys, T)
    modifies cells[k], cells[k].edges, sticks
    ensures ok == o.ok && cells[k].State() == o.state && cells[k].edges == old(cells[k].edges)
    ensures forall j :: 0 <= j < |cells| && j != k ==> cells[j].State() == old(cells[j].State())
    ensures Board.TagsAfterTagging(sticks) == T
  {
    var c := cells[k];
    ok := TryFillCell(c, ts, keys, sticks, T, o);
    forall j | 0 <= j < |cells| && j != k
      ensures cells[j].State() == old(cells[j].State())
    {
      var d := cells[j];
      DistinctAt(cells, j, k);
      assert d in cells && c in cells;
      assert d.Owns(d.edges) && c.Owns(c.edges);
      assert forall e :: e in d.edges ==> e !in c.edges;
      forall e | e in d.edges
        ensures unchanged(e)
      {
        assert e !in c.edges;
        assert e as object !in sticks;
      }
      StateUnchanged(d);
    }
  }

  /** FillStep on cell `k` as Drop's loop sees it: the mix of handled and untouched states moves on by one. */
  method Pass(cells: seq<Board.Cell>, k: nat, ts: seq<Board.Dot>, keys: set<string>, sticks: seq<Board.ShapeEdge>,
              ghost T: seq<string>, ghost before: seq<CellFill.CellState>, ghost es: seq<seq<Board.Edge>>,
              ghost a: seq<CellFill.Outcome>, ghost sensors: seq<Board.DotSensor>) returns (ok: bool)
    requires Apart(cells) && k < |cells| == |a| == |before| && Board.TagsAfterTagging(sticks) == T
    requires States(cells) == Mix(before, a, k) && EdgeLists(cells) == es
    requires before[k].WellFormed() && |before[k].filled| == |es[k]| && a[k] == TryCell(before[k], es[k], ts, keys, T)
    modifies cells[k], cells[k].edges, sticks
    ensures ok == a[k].ok && States(cells) == Mix(before, a, k + 1) && EdgeLists(cells) == es && Apart(cells)
    ensures Board.TagsAfterTagging(sticks) == T && unchanged(sensors)
  {
    ghost var pre := States(cells);
    assert cells[k].State() == before[k] by {
      assert pre[k] == Mix(before, a, k)[k];
    }
    ok := FillStep(cells, k, ts, keys, sticks, T, a[k]);
    MixStep(before, a, k, pre, States(cells));
  }

  /** Cells whose own fields and edges did not change are in the same states. */
  twostate lemma StatesKept(cells: seq<Board.Cell>)
    requires forall j :: 0 <= j < |cells| ==> unchanged(cells[j]) && forall e :: e in cells[j].edges ==> unchanged(e)
    ensures States(cells) == old(States(cells))
  {
    forall j | 0 <= j < |cells|
      ensures cells[j].State() == old(cells[j].State())
    {
      StateUnchanged(cells[j]);
    }
  }

  /** A cell whose own fields and edges did not change is in the same state. */
  twostate lemma StateUnchanged(c: Board.Cell)
    requires unchanged(c) && forall e :: e in c.edges ==> unchanged(e)
    ensures c.State() == old(c.State())
  {
    forall i | 0 <= i < |c.edges|
      ensures c.edges[i].filled == old(c.edges[i].filled) && c.edges[i].stickAttached == old(c.edges[i].stickAttached)
    {
      assert c.edges[i] in c.edges;
    }
    assert Board.FilledFlags(c.edges) == old(Board.FilledFlags(c.edges));
    assert Board.StickFlags(c.edges) == old(Board.StickFlags(c.edges));
  }

  /** Stick `s` is a new stick linking sensors `k` and `k + 1`. */
  ghost predicate Linked(s: Board.ShapeEdge, sensors: seq<Board.DotSensor>, k: int)
    reads s
  {
    0 <= k < |sensors| - 1 && s.d1 == sensors[k] && s.d2 == sensors[k + 1] && s.currentEdgeTag == ""
  }

  /** One stick per pair of consecutive sensors, stick `k` linking sensors `k` and `k + 1`. */
  ghost predicate Links(ss: seq<Board.ShapeEdge>, sensors: seq<Board.DotSensor>)
    reads ss
  {
    |ss| == (if |sensors| == 0 then 0 else |sensors| - 1) && forall k :: 0 <= k < |ss| ==> Linked(ss[k], sensors, k)
  }

  /** Each sensor's snap position, snap dot and availability flag, in sensor order. */
  function Aims(sensors: seq<Board.DotSensor>): (r: seq<(Vec3, Board.Dot?, bool)>)
    reads sensors
    ensures |r| == |sensors| && forall i {:trigger r[i]} :: 0 <= i < |sensors| ==>
      r[i] == (sensors[i].snapPosition, sensors[i].snapTarget, sensors[i].SnapTargetAvailable)
  {
    seq(|sensors|, i reads sensors requires 0 <= i < |sensors| =>
      (sensors[i].snapPosition, sensors[i].snapTarget, sensors[i].SnapTargetAvailable))
  }

  /**
   * Whether each sensor takes part in collisions, in sensor order. With Aims
   * this covers every field of a sensor that can change.
   */
  function Colliders(sensors: seq<Board.DotSensor>): (r: seq<bool>)
    reads sensors
    ensures |r| == |sensors| && forall i {:trigger r[i]} :: 0 <= i < |sensors| ==> r[i] == sensors[i].colliderEnabled
  {
    seq(|sensors|, i reads sensors requires 0 <= i < |sensors| => sensors[i].colliderEnabled)
  }

  /**
   * A piece: the sensors under its dots, the sticks Start builds between
   * consecutive sensors, the sticks (set up with the piece) that FillEdges
   * receives, whether the placement ghost is showing, and whether the piece
   * still takes pointer input.
   */
  class Draggable {
    const dotSensors: seq<Board.DotSensor>
    var edges: seq<Board.ShapeEdge>
    const shapeEdges: seq<Board.ShapeEdge>
    var ghostActive: bool
    var colliderEnabled: bool
    /** `data.id`: the shape this piece is an instance of. */
    const dataId: int

    constructor (dataId: int, dotSensors: seq<Board.DotSensor>, shapeEdges: seq<Board.ShapeEdge>)
      ensures this.dataId == dataId && this.dotSensors == dotSensors && this.shapeEdges == shapeEdges
      ensures edges == [] && !ghostActive && colliderEnabled
    {
      this.dataId, this.dotSensors, this.shapeEdges := dataId, dotSensors, shapeEdges;
      edges, ghostActive, colliderEnabled := [], false, true;
    }

    /** Start: one new stick per pair of consecutive sensors, appended in sensor order. */
    method Start()
      modifies this`edges
      ensures |old(edges)| <= |edges| && edges[..|old(edges)|] == old(edges)
      ensures Links(edges[|old(edges)|..], dotSensors)
      ensures forall s :: s in edges[|old(edges)|..] ==> fresh(s)
    {
      ghost var added: seq<Board.ShapeEdge> := [];
      var i := 0;
      while i < |dotSensors| - 1
        invariant 0 <= i <= if |dotSensors| == 0 then 0 else |dotSensors| - 1
        invariant edges == old(edges) + added && |added| == i
        invariant forall k :: 0 <= k < i ==> Linked(added[k], dotSensors, k)
        invariant forall s :: s in added ==> fresh(s)
      {
        var edge := new Board.ShapeEdge(dotSensors[i], dotSensors[i + 1]);
        edges, added := edges + [edge], added + [edge];
        i := i + 1;
      }
      assert edges[|old(edges)|..] == added;
    }

    /**
     * The placement check on the sensors' current snap dots: gather them
     * (refusing if one is missing), then look up the edge between each
     * consecutive pair under both key orders. Nothing is written.
     */
    method IsCandidatePlaceAvailable(lookup: Placement.Lookup) returns (ok: bool)
      ensures ok == Placement.CanPlace(Placement.SnapTargets(dotSensors), lookup)
    {
      ghost var ts := Placement.SnapTargets(dotSensors);
      var snapTargets: seq<Board.Dot> := [];
      for i := 0 to |dotSensors|
        invariant snapTargets == ts[..i]
      {
        var sensor := dotSensors[i];
        if sensor.snapTarget == null {
          Placement.MissingTargetRefuses(ts, i, lookup);
          return false;
        }
        assert ts[..i + 1] == snapTargets + [sensor.snapTarget];
        snapTargets := snapTargets + [sensor.snapTarget];
      }
      assert snapTargets == ts;
      var i := 0;
      while i < |snapTargets| - 1
        invariant 0 <= i <= |snapTargets|
        invariant forall j :: 0 <= j < i && j < |snapTargets| - 1 ==> !Placement.Blocked(lookup, snapTargets[j], snapTargets[j + 1])
      {
        var current, next := snapTargets[i], snapTargets[i + 1];
        var edge := lookup(current, Placement.Key(current, next));
        var edgeAlternative := lookup(current, Placement.Key(next, current));
        if Placement.IsFilled(edge) || Placement.IsFilled(edgeAlternative) {
          Placement.FilledPairRefuses(snapTargets, i, lookup);
          return false;
        }
        i := i + 1;
      }
      return true;
    }

    /**
     * `UnhighlightSensors` as BackToStart uses it: the ghost is hidden. The
     * sensors' `ResetSensor`, which DotSensor does not declare, is taken to
     * leave them as they are.
     */
    method BackToStart()
      modifies this
      ensures !ghostActive && edges == old(edges) && colliderEnabled == old(colliderEnabled)
      ensures unchanged(dotSensors)
      ensures Board.TagsAfterTagging(shapeEdges) == old(Board.TagsAfterTagging(shapeEdges))
    {
      ghostActive := false;
    }

    /**
     * Drop's first loop: refuses as soon as a sensor reports no snap target,
     * otherwise lists the snap dots and gathers their cells.
     */
    method GatherTargets() returns (ok: bool, snapTargets: seq<Board.Dot>, cellTargets: seq<Board.Cell>)
      requires forall i :: 0 <= i < |dotSensors| ==> dotSensors[i].Valid()
      ensures ok == Placement.AllSnapped(Placement.SnapTargets(dotSensors))
      ensures ok ==> snapTargets == Placement.SnapTargets(dotSensors) && cellTargets == CellsOf(snapTargets)
    {
      ghost var ts := Placement.SnapTargets(dotSensors);
      snapTargets, cellTargets := [], [];
      for i := 0 to |dotSensors|
        invariant snapTargets == ts[..i]
        invariant cellTargets == CellsOf(snapTargets)
      {
        var sensor := dotSensors[i];
        if !sensor.SnapTargetAvailable {
          assert sensor.snapTarget == null && ts[i] == null;
          return false, [], [];
        }
        var currentDot: Board.Dot := sensor.snapTarget;
        assert ts[..i + 1] == snapTargets + [currentDot];
        assert CellsOf(snapTargets + [currentDot]) == UnionWith(cellTargets, currentDot.Cells) by {
          assert (snapTargets + [currentDot])[..i] == snapTargets;
        }
        snapTargets := snapTargets + [currentDot];
        cellTargets := UnionWith(cellTargets, currentDot.Cells);
      }
      ok := true;
    }

    /** Drop's second loop: the keys of consecutive snap dots. */
    static method EdgeTargets(snapTargets: seq<Board.Dot>) returns (keys: set<string>)
      ensures keys == ConsecutiveKeys(snapTargets)
    {
      keys := {};
      var i := 0;
      while i < |snapTargets| - 1
        invariant 0 <= i <= if |snapTargets| == 0 then 0 else |snapTargets| - 1
        invariant keys == ConsecutiveKeys(snapTargets[..if |snapTargets| == 0 then 0 else i + 1])
      {
        assert snapTargets[..i + 2][..i + 1] == snapTargets[..i + 1];
        keys := keys + {Placement.Key(snapTargets[i], snapTargets[i + 1])};
        i := i + 1;
      }
      assert |snapTargets| > 0 ==> snapTargets[..i + 1] == snapTargets;
    }

    /**
     * Drop's cell loop: each target cell in turn, stopping at the first one
     * that refuses. Cells handled before it keep what they filled.
     */
    method FillCells(cells: seq<Board.Cell>, ts: seq<Board.Dot>, keys: set<string>, ghost T: seq<string>,
                     ghost before: seq<CellFill.CellState>, ghost es: seq<seq<Board.Edge>>) returns (ok: bool)
      requires Apart(cells) && Board.TagsAfterTagging(shapeEdges) == T
      requires before == States(cells) && es == EdgeLists(cells) && Shaped(before, es)
      modifies cells, EdgesOf(cells), shapeEdges
      ensures var a := AnswersOf(before, es, ts, keys, T);
        ok == (FirstRefusal(a) == |cells|) && States(cells) == Mix(before, a, Handled(a))
      ensures Board.TagsAfterTagging(shapeEdges) == T
      ensures unchanged(dotSensors)
    {
      ghost var a := AnswersOf(before, es, ts, keys, T);
      var k := 0;
      while k < |cells|
        invariant 0 <= k <= |cells|
        invariant k <= FirstRefusal(a)
        invariant States(cells) == Mix(before, a, k)
        invariant Board.TagsAfterTagging(shapeEdges) == T
        invariant unchanged(dotSensors)
        invariant EdgeLists(cells) == es && Apart(cells)
      {
        assert a[k] == TryCell(before[k], es[k], ts, keys, T);
        var cellOk := Pass(cells, k, ts, keys, shapeEdges, T, before, es, a, dotSensors);
        if !cellOk {
          FirstRefusalAt(a, k);
          return false;
        }
        FirstRefusalPast(a, k);
        k := k + 1;
      }
      return true;
    }

    /** Sticks whose sensors keep their snap dots keep the tags tagging would give them. */
    twostate lemma TagsFollowTargets(sticks: seq<Board.ShapeEdge>)
      requires forall s :: s in sticks ==> unchanged(s)
      requires forall s :: s in sticks ==> (s.d1 in dotSensors || unchanged(s.d1)) && (s.d2 in dotSensors || unchanged(s.d2))
      requires Aims(dotSensors) == old(Aims(dotSensors))
      ensures Board.TagsAfterTagging(sticks) == old(Board.TagsAfterTagging(sticks))
    {
      forall i | 0 <= i < |sticks|
        ensures Board.TagsAfterTagging(sticks)[i] == old(Board.TagsAfterTagging(sticks))[i]
      {
        assert sticks[i] in sticks;
        if sticks[i].d1 in dotSensors { KeepsAim(sticks[i].d1); }
        if sticks[i].d2 in dotSensors { KeepsAim(sticks[i].d2); }
      }
    }

    /** A sensor of the piece whose aim is kept keeps its snap dot. */
    twostate lemma KeepsAim(d: Board.DotSensor)
      requires d in dotSensors && Aims(dotSensors) == old(Aims(dotSensors))
      ensures d.snapTarget == old(d.snapTarget)
    {
      var j :| 0 <= j < |dotSensors| && dotSensors[j] == d;
      assert Aims(dotSensors)[j] == old(Aims(dotSensors))[j];
    }

    /** After a successful drop no sensor takes part in collisions any more. */
    method DisableSensors()
      modifies dotSensors
      ensures forall s :: s in dotSensors ==> !s.colliderEnabled
      ensures Aims(dotSensors) == old(Aims(dotSensors))
    {
      for i := 0 to |dotSensors|
        invariant forall s :: s in dotSensors[..i] ==> !s.colliderEnabled
        invariant Aims(dotSensors) == old(Aims(dotSensors))
      {
        dotSensors[i].SetColliderState(false);
        assert dotSensors[..i + 1] == dotSensors[..i] + [dotSensors[i]];
      }
      assert dotSensors[..|dotSensors|] == dotSensors;
    }

    /** The end of a successful drop: the piece stops taking input and its ghost is hidden. */
    method Settle()
      modifies this, dotSensors
      ensures !ghostActive && !colliderEnabled && edges == old(edges)
      ensures forall s :: s in dotSensors ==> !s.colliderEnabled
      ensures Aims(dotSensors) == old(Aims(dotSensors))
      ensures unchanged(shapeEdges) && Board.TagsAfterTagging(shapeEdges) == old(Board.TagsAfterTagging(shapeEdges))
    {
      colliderEnabled := false;
      DisableSensors();
      ghostActive := false;
      TagsFollowTargets(shapeEdges);
    }

    /**
     * Drop once every sensor has a snap dot: fill each target cell that is
     * not already completed; on success the piece is placed and stops taking
     * input, otherwise it goes back to the tray. `aims` and `colliders` are
     * the sensors as Drop found them: a placed piece's sensors keep their
     * snap dots, a refused piece's sensors are left exactly as they were.
     */
    method Place(snapTargets: seq<Board.Dot>, cellTargets: seq<Board.Cell>, ghost T: seq<string>,
                 ghost before: seq<CellFill.CellState>, ghost es: seq<seq<Board.Edge>>,
                 ghost aims: seq<(Vec3, Board.Dot?, bool)>, ghost colliders: seq<bool>) returns (placed: bool)
      requires Apart(cellTargets) && Board.TagsAfterTagging(shapeEdges) == T
      requires before == States(cellTargets) && es == EdgeLists(cellTargets) && Shaped(before, es)
      requires aims == Aims(dotSensors) && colliders == Colliders(dotSensors)
      modifies this, dotSensors, cellTargets, EdgesOf(cellTargets), shapeEdges
      ensures !ghostActive && edges == old(edges)
      ensures var a := AnswersOf(before, es, snapTargets, ConsecutiveKeys(snapTargets), T);
        placed == (FirstRefusal(a) == |cellTargets|) && States(cellTargets) == Mix(before, a, Handled(a))
      ensures Aims(dotSensors) == aims
      ensures placed ==> !colliderEnabled && forall s :: s in dotSensors ==> !s.colliderEnabled
      ensures !placed ==> colliderEnabled == old(colliderEnabled) && Colliders(dotSensors) == colliders
      ensures Board.TagsAfterTagging(shapeEdges) == T
    {
      var edgeTargets := EdgeTargets(snapTargets);
      var filled := FillCells(cellTargets, snapTargets, edgeTargets, T, before, es);
      assert Aims(dotSensors) == aims && Colliders(dotSensors) == colliders && colliderEnabled == old(colliderEnabled);
      label Filled:
      Conclude(filled);
      placed := filled;
      StatesKept@Filled(cellTargets);
    }

    /** The end of a drop: a filled piece settles, a refused one goes back to the tray. */
    method Conclude(filled: bool)
      modifies this, dotSensors
      ensures !ghostActive && edges == old(edges) && Aims(dotSensors) == old(Aims(dotSensors))
      ensures Board.TagsAfterTagging(shapeEdges) == old(Board.TagsAfterTagging(shapeEdges))
      ensures filled ==> !colliderEnabled && forall s :: s in dotSensors ==> !s.colliderEnabled
      ensures !filled ==> colliderEnabled == old(colliderEnabled) && Colliders(dotSensors) == old(Colliders(dotSensors))
    {
      if filled {
        Settle();
      } else {
        BackToStart();
      }
    }

    /**
     * Drop: nothing happens to the grid unless the ghost is showing and
     * every sensor is over a dot; then the piece is placed as Place says.
     */
    method Drop() returns (placed: bool)
      requires forall i :: 0 <= i < |dotSensors| ==> dotSensors[i].Valid()
      requires Apart(DropCells(dotSensors))
      modifies this, dotSensors, DropCells(dotSensors), EdgesOf(DropCells(dotSensors)), shapeEdges
      ensures !ghostActive && edges == old(edges)
      ensures !old(ghostActive) || !old(Placement.AllSnapped(Placement.SnapTargets(dotSensors))) ==>
        && !placed && unchanged(old(DropCells(dotSensors)))
        && unchanged(old(EdgesOf(DropCells(dotSensors)))) && unchanged(shapeEdges)
      ensures old(ghostActive) && old(Placement.AllSnapped(Placement.SnapTargets(dotSensors))) ==>
        var ts := old(Placement.Gather(Placement.SnapTargets(dotSensors)).value);
        var cells := old(DropCells(dotSensors));
        var a := AnswersOf(old(States(cells)), old(EdgeLists(cells)), ts, ConsecutiveKeys(ts),
                           old(Board.TagsAfterTagging(shapeEdges)));
        placed == (FirstRefusal(a) == |cells|) && States(cells) == Mix(old(States(cells)), a, Handled(a))
      ensures Aims(dotSensors) == old(Aims(dotSensors))
      ensures placed ==> !colliderEnabled && forall s :: s in dotSensors ==> !s.colliderEnabled
      ensures !placed ==> colliderEnabled == old(colliderEnabled) && Colliders(dotSensors) == old(Colliders(dotSensors))
      ensures Board.TagsAfterTagging(shapeEdges) == old(Board.TagsAfterTagging(shapeEdges))
    {
      ghost var cells := DropCells(dotSensors);
      ghost var edgeSet := EdgesOf(cells);
      if !ghostActive {
        BackToStart();
        return false;
      }
      placed := DropShowing();
    }

    /** Drop with the ghost showing: gather the snap dots, then place the piece or send it back. */
    method DropShowing() returns (placed: bool)
      requires ghostActive
      requires forall i :: 0 <= i < |dotSensors| ==> dotSensors[i].Valid()
      requires Apart(DropCells(dotSensors))
      modifies this, dotSensors, DropCells(dotSensors), EdgesOf(DropCells(dotSensors)), shapeEdges
      ensures !ghostActive && edges == old(edges)
      ensures !old(Placement.AllSnapped(Placement.SnapTargets(dotSensors))) ==>
        && !placed && unchanged(old(DropCells(dotSensors)))
        && unchanged(old(EdgesOf(DropCells(dotSensors)))) && unchanged(shapeEdges)
      ensures old(Placement.AllSnapped(Placement.SnapTargets(dotSensors))) ==>
        var ts := old(Placement.Gather(Placement.SnapTargets(dotSensors)).value);
        var cells := old(DropCells(dotSensors));
        var a := AnswersOf(old(States(cells)), old(EdgeLists(cells)), ts, ConsecutiveKeys(ts),
                           old(Board.TagsAfterTagging(shapeEdges)));
        placed == (FirstRefusal(a) == |cells|) && States(cells) == Mix(old(States(cells)), a, Handled(a))
      ensures Aims(dotSensors) == old(Aims(dotSensors))
      ensures placed ==> !colliderEnabled && forall s :: s in dotSensors ==> !s.colliderEnabled
      ensures !placed ==> colliderEnabled == old(colliderEnabled) && Colliders(dotSensors) == old(Colliders(dotSensors))
      ensures Board.TagsAfterTagging(shapeEdges) == old(Board.TagsAfterTagging(shapeEdges))
    {
      ghost var cells := DropCells(dotSensors);
      ghost var T, before, es := Board.TagsAfterTagging(shapeEdges), States(cells), EdgeLists(cells);
      StatesShaped(cells);
      ghost var targets := Placement.SnapTargets(dotSensors);
      ghost var aims, colliders := Aims(dotSensors), Colliders(dotSensors);
      var ok, snapTargets, cellTargets := GatherTargets();
      assert Placement.SnapTargets(dotSensors) == targets && DropCells(dotSensors) == cells;
      assert Aims(dotSensors) == aims && Colliders(dotSensors) == colliders;
      if !ok {
        BackToStart();
        return false;
      }
      assert Placement.Gather(targets).value == snapTargets;
      assert cellTargets == cells;
      assert Board.TagsAfterTagging(shapeEdges) == T && States(cells) == before && EdgeLists(cells) == es;
      assert Apart(cells);
      placed := Place(snapTargets, cellTargets, T, before, es, aims, colliders);
    }
  }
}
