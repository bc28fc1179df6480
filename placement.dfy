/**
 * Placement legality: whether a piece whose sensors sit over the given snap
 * dots may be dropped. Every sensor must have a snap dot, and no two
 * consecutive snap dots may already be joined by a filled grid edge, looked
 * up under either id order. Both `Draggable.IsCandidatePlaceAvailable` and
 * `FailCheckUnit.IsCandidatePlaceAvailable` decide this question.
 */
module Placement {
  import opened Common
  import Tags
  import Board

  /**
   * What `GridManager.GetEdge(dot, key)` answers: no edge under that key, or
   * an edge and whether it is filled. The grid manager's lookup itself is not
   * part of this model; it is a parameter of the checks.
   */
  datatype EdgeLookup = NoEdge | Found(filled: bool)

  type Lookup = (Board.Dot, string) -> EdgeLookup

  /** `edge != null && edge.filled`. */
  predicate IsFilled(r: EdgeLookup)
  {
    r.Found? && r.filled
  }

  /** The key `current.id + "," + next.id`. */
  function Key(a: Board.Dot, b: Board.Dot): string
  {
    Tags.Tag(a.id as int, b.id as int)
  }

  /** The pair is blocked when the edge under either key order is filled. */
  predicate Blocked(lookup: Lookup, a: Board.Dot, b: Board.Dot)
  {
    IsFilled(lookup(a, Key(a, b))) || IsFilled(lookup(a, Key(b, a)))
  }

  /** Every sensor has a snap dot. */
  predicate AllSnapped(targets: seq<Board.Dot?>)
  {
    forall i :: 0 <= i < |targets| ==> targets[i] != null
  }

  /** The legality rule, stated over the sensors' snap dots in sensor order. */
  predicate CanPlace(targets: seq<Board.Dot?>, lookup: Lookup)
  {
    && AllSnapped(targets)
    && forall i :: 0 <= i < |targets| - 1 ==> !Blocked(lookup, targets[i], targets[i + 1])
  }

  /** The sensors' snap dots, in sensor order. */
  function SnapTargets(sensors: seq<Board.DotSensor>): (ts: seq<Board.Dot?>)
    reads sensors
    ensures |ts| == |sensors| && forall i {:trigger ts[i]} :: 0 <= i < |sensors| ==> ts[i] == sensors[i].snapTarget
  {
    seq(|sensors|, i reads sensors requires 0 <= i < |sensors| => sensors[i].snapTarget)
  }

  /**
   * The first loop of IsCandidatePlaceAvailable: the snap dots gathered into
   * a list, or None as soon as a sensor has none.
   */
  function Gather(targets: seq<Board.Dot?>): (r: Option<seq<Board.Dot>>)
    ensures r.Some? <==> AllSnapped(targets)
    ensures r.Some? ==> r.value == targets
  {
    if targets == [] then Some([])
    else if targets[0] == null then None
    else
      var d: Board.Dot := targets[0];
      match Gather(targets[1..])
      case None => None
      case Some(rest) => Some([d] + rest)
  }

  /** The second loop, from position `i` on: no consecutive pair is blocked. */
  function PairsFree(ts: seq<Board.Dot>, i: nat, lookup: Lookup): (r: bool)
    decreases |ts| - i
    ensures r <==> forall j :: i <= j < |ts| - 1 ==> !Blocked(lookup, ts[j], ts[j + 1])
  {
    if i + 1 >= |ts| then true
    else if Blocked(lookup, ts[i], ts[i + 1]) then false
    else PairsFree(ts, i + 1, lookup)
  }

  /** The check in the shape the source writes it: gather first, then scan the pairs. */
  function Check(targets: seq<Board.Dot?>, lookup: Lookup): (r: bool)
    ensures r == CanPlace(targets, lookup)
  {
    match Gather(targets)
    case None => false
    case Some(ts) => PairsFree(ts, 0, lookup)
  }

  /** A sensor without a snap dot refuses the placement, whatever the edges say. */
  lemma MissingTargetRefuses(targets: seq<Board.Dot?>, i: nat, lookup: Lookup)
    requires i < |targets| && targets[i] == null
    ensures !CanPlace(targets, lookup)
  {
  }

  /**
   * The refusal for a missing snap dot comes before any edge lookup: the
   * answer is then the same under every lookup.
   */
  lemma MissingTargetIgnoresEdges(targets: seq<Board.Dot?>, lookup1: Lookup, lookup2: Lookup)
    requires !AllSnapped(targets)
    ensures Check(targets, lookup1) == Check(targets, lookup2) == false
  {
  }

  /** A filled edge between two consecutive snap dots, under either key, refuses the placement. */
  lemma FilledPairRefuses(targets: seq<Board.Dot?>, i: nat, lookup: Lookup)
    requires i + 1 < |targets| && targets[i] != null && targets[i + 1] != null
    requires IsFilled(lookup(targets[i], Key(targets[i], targets[i + 1])))
          || IsFilled(lookup(targets[i], Key(targets[i + 1], targets[i])))
    ensures !CanPlace(targets, lookup)
  {
    assert Blocked(lookup, targets[i], targets[i + 1]);
  }

  /** A piece with a single sensor fits wherever that sensor has a snap dot. */
  lemma SingleSensorFits(d: Board.Dot, lookup: Lookup)
    ensures CanPlace([d], lookup)
  {
  }
}
