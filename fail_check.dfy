/**
 * The end-of-game search (FailCheckUnit, FailCheckManager). Every shape has
 * an invisible twin, a unit, with the same sensors. For each piece left in
 * the tray the search moves the piece's unit over every candidate dot: the
 * anchor sensor onto the dot, every other sensor onto the dot at its local
 * offset, and then asks the placement check. The game is lost when no piece
 * fits anywhere.
 */
module FailCheck {
  import opened Common
  import Board
  import Placement
  import Pieces

  /** `Dot.GetDotWithOffset`: the dot at a lattice offset from a dot, if the grid has one. */
  type OffsetDot = (Board.Dot, Offset) -> Option<Board.Dot>

  /** The sensors' local coordinates, in sensor order. */
  function Offsets(sensors: seq<Board.DotSensor>): (r: seq<Offset>)
    ensures |r| == |sensors|
    ensures forall i {:trigger r[i]} :: 0 <= i < |sensors| ==> r[i] == sensors[i].localCoordinate
  {
    seq(|sensors|, i requires 0 <= i < |sensors| => sensors[i].localCoordinate)
  }

  // ---------------------------------------------------------------------------
  // Where a unit's sensors belong when its anchor is on a dot

  /** The dot a sensor with offset `o` belongs on when the anchor is on `dot`. */
  function Landing(dot: Board.Dot, o: Offset, offsetDot: OffsetDot): Option<Board.Dot>
  {
    if o == ZeroOffset then Some(dot) else offsetDot(dot, o)
  }

  /**
   * The snap dots of a unit whose anchor is on `dot`: every sensor on the dot
   * at its offset, or None when the grid lacks one of them.
   */
  function PlaceAt(offsets: seq<Offset>, dot: Board.Dot, offsetDot: OffsetDot): (r: Option<seq<Board.Dot>>)
    ensures r.Some? <==> forall i :: 0 <= i < |offsets| ==> Landing(dot, offsets[i], offsetDot).Some?
    ensures r.Some? ==> |r.value| == |offsets|
    ensures r.Some? ==> forall i :: 0 <= i < |offsets| ==> r.value[i] == Landing(dot, offsets[i], offsetDot).value
  {
    if offsets == [] then Some([])
    else
      match (Landing(dot, offsets[0], offsetDot), PlaceAt(offsets[1..], dot, offsetDot))
      case (Some(d), Some(rest)) => Some([d] + rest)
      case _ => None
  }

  /** A unit fits at `dot` when every sensor lands on a dot and the placement check accepts those dots. */
  predicate Fits(offsets: seq<Offset>, dot: Board.Dot, offsetDot: OffsetDot, lookup: Placement.Lookup)
  {
    match PlaceAt(offsets, dot, offsetDot)
    case None => false
    case Some(ts) => Placement.CanPlace(ts, lookup)
  }

  // ---------------------------------------------------------------------------
  // The moves as FailCheckManager.IsFailed writes them

  /**
   * Sensors `i` onward of one move as written: a sensor at offset zero is
   * skipped, any other goes to the dot at its offset, and the first missing
   * offset dot ends the moves, leaving the remaining sensors where they were.
   */
  function MovesAsWritten(targets: seq<Board.Dot?>, offsets: seq<Offset>, dot: Board.Dot,
                          offsetDot: OffsetDot, i: nat): (r: seq<Board.Dot?>)
    requires |targets| == |offsets|
    ensures |r| == |targets|
    decreases |offsets| - i
  {
    if i >= |offsets| then targets
    else if offsets[i] == ZeroOffset then MovesAsWritten(targets, offsets, dot, offsetDot, i + 1)
    else
      match offsetDot(dot, offsets[i])
      case None => targets
      case Some(n) => MovesAsWritten(targets[i := n], offsets, dot, offsetDot, i + 1)
  }

  /** The sensors' snap dots after the unit is moved onto `dot` as written: the anchor (sensor 0) first, then the moves. */
  function RepositionAsWritten(targets: seq<Board.Dot?>, offsets: seq<Offset>, dot: Board.Dot,
                               offsetDot: OffsetDot): (r: seq<Board.Dot?>)
    requires |targets| == |offsets| > 0
    ensures |r| == |targets|
  {
    MovesAsWritten(targets[0 := dot], offsets, dot, offsetDot, 0)
  }

  /** The inner loop of IsFailed as written, for one unit: move onto each candidate in turn, stop at the first the check accepts. */
  function ScanAsWritten(targets: seq<Board.Dot?>, offsets: seq<Offset>, dots: seq<Board.Dot>,
                         offsetDot: OffsetDot, lookup: Placement.Lookup): (found: bool)
    requires |targets| == |offsets| > 0
    ensures dots == [] ==> !found
    decreases |dots|
  {
    if dots == [] then false
    else
      var moved := RepositionAsWritten(targets, offsets, dots[0], offsetDot);
      Placement.CanPlace(moved, lookup) || ScanAsWritten(moved, offsets, dots[1..], offsetDot, lookup)
  }

  /** Sensors before `i`, and sensors at offset zero, keep their dots. */
  lemma {:induction false} MovesKeep(targets: seq<Board.Dot?>, offsets: seq<Offset>, dot: Board.Dot,
                                     offsetDot: OffsetDot, i: nat, k: nat)
    requires |targets| == |offsets| && k < |targets| && (k < i || offsets[k] == ZeroOffset)
    ensures MovesAsWritten(targets, offsets, dot, offsetDot, i)[k] == targets[k]
    decreases |offsets| - i
  {
    if i < |offsets| {
      if offsets[i] == ZeroOffset {
        MovesKeep(targets, offsets, dot, offsetDot, i + 1, k);
      } else if offsetDot(dot, offsets[i]).Some? {
        MovesKeep(targets[i := offsetDot(dot, offsets[i]).value], offsets, dot, offsetDot, i + 1, k);
      }
    }
  }

  /** A missing offset dot at sensor `m` stops the moves: sensor `m` and every later one keep their dots. */
  lemma {:induction false} MovesStop(targets: seq<Board.Dot?>, offsets: seq<Offset>, dot: Board.Dot,
                                     offsetDot: OffsetDot, i: nat, m: nat, k: nat)
    requires |targets| == |offsets| && i <= m <= k < |offsets|
    requires offsets[m] != ZeroOffset && offsetDot(dot, offsets[m]).None?
    ensures MovesAsWritten(targets, offsets, dot, offsetDot, i)[k] == targets[k]
    decreases |offsets| - i
  {
    if i < m {
      if offsets[i] == ZeroOffset {
        MovesStop(targets, offsets, dot, offsetDot, i + 1, m, k);
      } else if offsetDot(dot, offsets[i]).Some? {
        MovesStop(targets[i := offsetDot(dot, offsets[i]).value], offsets, dot, offsetDot, i + 1, m, k);
      }
    }
  }

  /** Where every offset dot from sensor `i` on exists, each such sensor ends on the dot at its offset. */
  lemma {:induction false} MovesPlace(targets: seq<Board.Dot?>, offsets: seq<Offset>, dot: Board.Dot,
                                      offsetDot: OffsetDot, i: nat, k: nat)
    requires |targets| == |offsets| && i <= k < |offsets| && offsets[k] != ZeroOffset
    requires forall j :: i <= j < |offsets| ==> Landing(dot, offsets[j], offsetDot).Some?
    ensures MovesAsWritten(targets, offsets, dot, offsetDot, i)[k] == Landing(dot, offsets[k], offsetDot).value
    decreases |offsets| - i
  {
    assert Landing(dot, offsets[i], offsetDot).Some?;
    if offsets[i] == ZeroOffset {
      MovesPlace(targets, offsets, dot, offsetDot, i + 1, k);
    } else if i == k {
      MovesKeep(targets[i := offsetDot(dot, offsets[i]).value], offsets, dot, offsetDot, i + 1, k);
    } else {
      MovesPlace(targets[i := offsetDot(dot, offsets[i]).value], offsets, dot, offsetDot, i + 1, k);
    }
  }

  /**
   * As written, when the dot at sensor `m`'s offset is missing, sensor `m`
   * and every later sensor keep the snap dots of the unit's previous
   * position.
   */
  lemma StaleAfterMissing(targets: seq<Board.Dot?>, offsets: seq<Offset>, dot: Board.Dot,
                          offsetDot: OffsetDot, m: nat, k: nat)
    requires |targets| == |offsets| && 0 < m <= k < |offsets|
    requires offsets[m] != ZeroOffset && offsetDot(dot, offsets[m]).None?
    ensures RepositionAsWritten(targets, offsets, dot, offsetDot)[k] == targets[k]
  {
    MovesStop(targets[0 := dot], offsets, dot, offsetDot, 0, m, k);
  }

  /**
   * As written, a sensor other than the anchor whose local coordinate is zero
   * is never moved.
   */
  lemma ZeroOffsetStays(targets: seq<Board.Dot?>, offsets: seq<Offset>, dot: Board.Dot,
                        offsetDot: OffsetDot, k: nat)
    requires |targets| == |offsets| && 0 < k < |offsets| && offsets[k] == ZeroOffset
    ensures RepositionAsWritten(targets, offsets, dot, offsetDot)[k] == targets[k]
  {
    MovesKeep(targets[0 := dot], offsets, dot, offsetDot, 0, k);
  }

  /**
   * Where every offset dot exists, the moves as written leave the anchor on
   * the dot and every other sensor on the dot at its offset: exactly the
   * corrected placement.
   */
  lemma AgreesWhenAllFound(targets: seq<Board.Dot?>, offsets: seq<Offset>, dot: Board.Dot, offsetDot: OffsetDot)
    requires |targets| == |offsets| > 0 && offsets[0] == ZeroOffset
    requires forall i :: 0 < i < |offsets| ==> offsets[i] != ZeroOffset
    requires PlaceAt(offsets, dot, offsetDot).Some?
    ensures RepositionAsWritten(targets, offsets, dot, offsetDot) == PlaceAt(offsets, dot, offsetDot).value
  {
    var r := RepositionAsWritten(targets, offsets, dot, offsetDot);
    var p := PlaceAt(offsets, dot, offsetDot).value;
    forall k | 0 <= k < |offsets|
      ensures r[k] == p[k]
    {
      if k == 0 {
        MovesKeep(targets[0 := dot], offsets, dot, offsetDot, 0, 0);
      } else {
        MovesPlace(targets[0 := dot], offsets, dot, offsetDot, 0, k);
      }
    }
  }

  /**
   * The stale sensors let the search as written accept a unit that fits
   * nowhere. A two-sensor unit (anchor, then a sensor one step right) is
   * tried at `d1` and then at `d2`. At `d1` both sensors move, but the edge
   * between `d1` and `e` is filled, so the check refuses. `d2` has no dot to
   * its right, so the second sensor stays on `e`, and since `d2` and `e` are
   * not joined by a filled edge the check accepts. The unit fits at neither
   * dot, yet the search reports a fit and the game goes on.
   */
  lemma StaleSensorAccepts(targets: seq<Board.Dot?>, d1: Board.Dot, d2: Board.Dot, e: Board.Dot,
                           offsetDot: OffsetDot, lookup: Placement.Lookup)
    requires |targets| == 2
    requires offsetDot(d1, Offset(1, 0)) == Some(e) && offsetDot(d2, Offset(1, 0)).None?
    requires Placement.IsFilled(lookup(d1, Placement.Key(d1, e)))
    requires !Placement.IsFilled(lookup(d2, Placement.Key(d2, e))) && !Placement.IsFilled(lookup(d2, Placement.Key(e, d2)))
    ensures !Fits([ZeroOffset, Offset(1, 0)], d1, offsetDot, lookup)
    ensures !Fits([ZeroOffset, Offset(1, 0)], d2, offsetDot, lookup)
    ensures ScanAsWritten(targets, [ZeroOffset, Offset(1, 0)], [d1, d2], offsetDot, lookup)
  {
    var offsets := [ZeroOffset, Offset(1, 0)];
    assert offsets[0] == ZeroOffset && offsets[1] != ZeroOffset;
    var t1 := targets[0 := d1];
    assert MovesAsWritten(t1, offsets, d1, offsetDot, 1) == MovesAsWritten(t1[1 := e], offsets, d1, offsetDot, 2);
    var at1 := RepositionAsWritten(targets, offsets, d1, offsetDot);
    assert at1 == t1[1 := e] == [d1, e];
    Placement.FilledPairRefuses(at1, 0, lookup);
    var t2 := at1[0 := d2];
    assert MovesAsWritten(t2, offsets, d2, offsetDot, 1) == t2;
    var at2 := RepositionAsWritten(at1, offsets, d2, offsetDot);
    assert at2 == [d2, e];
    assert Placement.CanPlace(at2, lookup) by {
      assert !Placement.Blocked(lookup, d2, e);
    }
    assert [d1, d2][1..] == [d2];
    assert PlaceAt(offsets, d2, offsetDot).None? by {
      assert Landing(d2, offsets[1], offsetDot).None?;
    }
  }

  /**
   * The inner loop of IsFailed with the game's timing. Snap targets change
   * only in the dots' trigger callbacks, which run during the wait before
   * each try; the check that follows a move therefore reads the targets of
   * the unit's previous position. `seen` is what the sensors report when the
   * next try begins, and also the dots they were last moved onto.
   */
  function ScanLagged(seen: seq<Board.Dot?>, offsets: seq<Offset>, dots: seq<Board.Dot>,
                      offsetDot: OffsetDot, lookup: Placement.Lookup): (found: bool)
    requires |seen| == |offsets| > 0
    ensures dots == [] ==> !found
    ensures Placement.CanPlace(seen, lookup) && dots != [] ==> found
    decreases |dots|
  {
    if dots == [] then false
    else
      Placement.CanPlace(seen, lookup)
      || ScanLagged(RepositionAsWritten(seen, offsets, dots[0], offsetDot), offsets, dots[1..], offsetDot, lookup)
  }

  /**
   * The same stale sensor under the game's timing. The unit starts off the
   * grid (its second sensor reports no dot) and is tried at `d1`, `d2` and
   * `d3`. The check at `d1` reads the starting targets and refuses; the
   * check at `d2` reads `d1` and `e`, joined by a filled edge, and refuses;
   * the check at `d3` reads `d2` and `e`, left there because `d2` has no dot
   * to its right, and accepts. With only `d1` and `d2` the search refuses.
   * The unit fits at none of the three dots.
   */
  lemma StaleSensorAcceptsLagged(targets: seq<Board.Dot?>, d1: Board.Dot, d2: Board.Dot, d3: Board.Dot,
                                 e: Board.Dot, offsetDot: OffsetDot, lookup: Placement.Lookup)
    requires |targets| == 2 && targets[1] == null
    requires offsetDot(d1, Offset(1, 0)) == Some(e)
    requires offsetDot(d2, Offset(1, 0)).None? && offsetDot(d3, Offset(1, 0)).None?
    requires Placement.IsFilled(lookup(d1, Placement.Key(d1, e)))
    requires !Placement.IsFilled(lookup(d2, Placement.Key(d2, e))) && !Placement.IsFilled(lookup(d2, Placement.Key(e, d2)))
    ensures !Fits([ZeroOffset, Offset(1, 0)], d1, offsetDot, lookup)
    ensures !Fits([ZeroOffset, Offset(1, 0)], d2, offsetDot, lookup)
    ensures !Fits([ZeroOffset, Offset(1, 0)], d3, offsetDot, lookup)
    ensures !ScanLagged(targets, [ZeroOffset, Offset(1, 0)], [d1, d2], offsetDot, lookup)
    ensures ScanLagged(targets, [ZeroOffset, Offset(1, 0)], [d1, d2, d3], offsetDot, lookup)
  {
    var offsets := [ZeroOffset, Offset(1, 0)];
    StaleMoves(targets, d1, d2, e, offsetDot);
    Placement.MissingTargetRefuses(targets, 1, lookup);
    Placement.FilledPairRefuses([d1, e], 0, lookup);
    LaggedRefusesSecond(targets, offsets, d1, d2, e, offsetDot, lookup);
    LaggedAcceptsThird(targets, offsets, d1, d2, d3, e, offsetDot, lookup);
    NoLandingNoFit(offsets, d2, offsetDot, lookup);
    NoLandingNoFit(offsets, d3, offsetDot, lookup);
    LandsOnBoth(offsets, d1, offsetDot, d1, e);
  }

  /** The lagged scan over d1 and d2: the first check sees the missing target, the second the filled d1-e. */
  lemma LaggedRefusesSecond(targets: seq<Board.Dot?>, offsets: seq<Offset>, d1: Board.Dot, d2: Board.Dot,
                            e: Board.Dot, offsetDot: OffsetDot, lookup: Placement.Lookup)
    requires |targets| == |offsets| == 2
    requires !Placement.CanPlace(targets, lookup) && !Placement.CanPlace([d1, e], lookup)
    requires RepositionAsWritten(targets, offsets, d1, offsetDot) == [d1, e]
    requires RepositionAsWritten([d1, e], offsets, d2, offsetDot) == [d2, e]
    ensures !ScanLagged(targets, offsets, [d1, d2], offsetDot, lookup)
  {
    assert [d1, d2][1..] == [d2] && [d2][1..] == [];
    assert ScanLagged([d1, e], offsets, [d2], offsetDot, lookup) == ScanLagged([d2, e], offsets, [], offsetDot, lookup);
  }

  /** The lagged scan over d1, d2 and d3: the third check reads the stale d2-e and accepts. */
  lemma LaggedAcceptsThird(targets: seq<Board.Dot?>, offsets: seq<Offset>, d1: Board.Dot, d2: Board.Dot,
                           d3: Board.Dot, e: Board.Dot, offsetDot: OffsetDot, lookup: Placement.Lookup)
    requires |targets| == |offsets| == 2
    requires !Placement.IsFilled(lookup(d2, Placement.Key(d2, e))) && !Placement.IsFilled(lookup(d2, Placement.Key(e, d2)))
    requires RepositionAsWritten(targets, offsets, d1, offsetDot) == [d1, e]
    requires RepositionAsWritten([d1, e], offsets, d2, offsetDot) == [d2, e]
    ensures ScanLagged(targets, offsets, [d1, d2, d3], offsetDot, lookup)
  {
    assert Placement.CanPlace([d2, e], lookup) by {
      assert !Placement.Blocked(lookup, d2, e);
    }
    assert [d1, d2, d3][1..] == [d2, d3] && [d2, d3][1..] == [d3];
    assert ScanLagged([d1, e], offsets, [d2, d3], offsetDot, lookup) == ScanLagged([d2, e], offsets, [d3], offsetDot, lookup);
  }

  /** A two-sensor unit whose sensors land on `a` and `b` is placed on exactly those dots. */
  lemma LandsOnBoth(offsets: seq<Offset>, d: Board.Dot, offsetDot: OffsetDot, a: Board.Dot, b: Board.Dot)
    requires |offsets| == 2
    requires Landing(d, offsets[0], offsetDot) == Some(a) && Landing(d, offsets[1], offsetDot) == Some(b)
    ensures PlaceAt(offsets, d, offsetDot) == Some([a, b])
  {
    assert forall i :: 0 <= i < |offsets| ==> Landing(d, offsets[i], offsetDot).Some? by {
      forall i | 0 <= i < |offsets| ensures Landing(d, offsets[i], offsetDot).Some? {
        assert i == 0 || i == 1;
      }
    }
    var v := PlaceAt(offsets, d, offsetDot).value;
    assert v == [a, b];
  }

  /** The moves behind both stale-sensor examples: onto `d1` both sensors move, onto `d2` only the anchor. */
  lemma StaleMoves(targets: seq<Board.Dot?>, d1: Board.Dot, d2: Board.Dot, e: Board.Dot, offsetDot: OffsetDot)
    requires |targets| == 2
    requires offsetDot(d1, Offset(1, 0)) == Some(e) && offsetDot(d2, Offset(1, 0)).None?
    ensures RepositionAsWritten(targets, [ZeroOffset, Offset(1, 0)], d1, offsetDot) == [d1, e]
    ensures RepositionAsWritten([d1, e], [ZeroOffset, Offset(1, 0)], d2, offsetDot) == [d2, e]
  {
    var offsets := [ZeroOffset, Offset(1, 0)];
    assert offsets[0] == ZeroOffset && offsets[1] != ZeroOffset;
    var t1 := targets[0 := d1];
    assert MovesAsWritten(t1, offsets, d1, offsetDot, 1) == MovesAsWritten(t1[1 := e], offsets, d1, offsetDot, 2);
    assert t1[1 := e] == [d1, e];
    var t2 := [d1, e][0 := d2];
    assert MovesAsWritten(t2, offsets, d2, offsetDot, 1) == t2;
  }

  /** A unit whose second sensor has no dot at its offset does not fit. */
  lemma NoLandingNoFit(offsets: seq<Offset>, d: Board.Dot, offsetDot: OffsetDot, lookup: Placement.Lookup)
    requires |offsets| == 2 && offsets[1] != ZeroOffset && offsetDot(d, offsets[1]).None?
    ensures !Fits(offsets, d, offsetDot, lookup)
  {
    assert Landing(d, offsets[1], offsetDot).None?;
  }

  // ---------------------------------------------------------------------------
  // The corrected move, sensor by sensor

  /**
   * How many sensors, from the anchor on, land on a dot when the anchor is on
   * `dot`: the corrected move stops at the first one that does not.
   */
  function Reached(offsets: seq<Offset>, dot: Board.Dot, offsetDot: OffsetDot): (m: nat)
    ensures m <= |offsets|
    ensures forall j :: 0 <= j < m ==> Landing(dot, offsets[j], offsetDot).Some?
    ensures m < |offsets| ==> Landing(dot, offsets[m], offsetDot).None?
  {
    if offsets == [] || Landing(dot, offsets[0], offsetDot).None? then 0
    else
      var r := Reached(offsets[1..], dot, offsetDot);
      assert forall j :: 1 <= j <= r ==> offsets[j] == offsets[1..][j - 1];
      1 + r
  }

  /** The sensor snaps to its landing dot for an anchor on `dot`, and reports a target. */
  predicate Landed(s: Board.DotSensor, dot: Board.Dot, offsetDot: OffsetDot)
    reads s
  {
    && Landing(dot, s.localCoordinate, offsetDot).Some?
    && s.snapTarget == Landing(dot, s.localCoordinate, offsetDot).value
    && s.SnapTargetAvailable
  }

  /** The sensor's target and its availability flag are as they were. */
  twostate predicate Kept(s: Board.DotSensor)
    reads s
  {
    s.snapTarget == old(s.snapTarget) && s.SnapTargetAvailable == old(s.SnapTargetAvailable)
  }

  /** The sensor's snap position and collider are as they were. */
  twostate predicate Still(s: Board.DotSensor)
    reads s
  {
    s.snapPosition == old(s.snapPosition) && s.colliderEnabled == old(s.colliderEnabled)
  }

  /**
   * The sensors after the corrected move onto `dot`: the first `Reached`
   * of them snap to their landing dots, the others keep their targets, and
   * no snap position or collider changes.
   */
  twostate predicate MovedTo(sensors: seq<Board.DotSensor>, dot: Board.Dot, offsetDot: OffsetDot)
    reads sensors
  {
    var m := Reached(Offsets(sensors), dot, offsetDot);
    forall j :: 0 <= j < |sensors| ==>
      Still(sensors[j]) && if j < m then Landed(sensors[j], dot, offsetDot) else Kept(sensors[j])
  }

  // ---------------------------------------------------------------------------
  // FailCheckUnit

  class FailCheckUnit {
    const id: int
    const dotSensors: seq<Board.DotSensor>

    /** Awake: the unit's sensors, in hierarchy order; the first child is the anchor. */
    constructor (id: int, dotSensors: seq<Board.DotSensor>)
      ensures this.id == id && this.dotSensors == dotSensors
    {
      this.id, this.dotSensors := id, dotSensors;
    }

    /**
     * The shape of a unit prefab: the anchor (first child, so first sensor)
     * sits at local coordinate zero, every other sensor at a non-zero one,
     * and no sensor is listed twice.
     */
    ghost predicate Valid()
    {
      && |dotSensors| > 0
      && Distinct(dotSensors)
      && dotSensors[0].localCoordinate == ZeroOffset
      && forall i :: 0 < i < |dotSensors| ==> dotSensors[i].localCoordinate != ZeroOffset
    }

    /**
     * The placement check on the sensors' current snap dots: gather them
     * (refusing if one is missing), then look up the edge between each
     * consecutive pair under both key orders.
     */
    method IsCandidatePlaceAvailable(lookup: Placement.Lookup) returns (ok: bool)
      ensures ok == Placement.CanPlace(Placement.SnapTargets(dotSensors), lookup)
    {
      ghost var ts := Placement.SnapTargets(dotSensors);
      var snapTargets: seq<Board.Dot> := [];
      for i := 0 to |dotSensors|
        invariant snapTargets == ts[..i]
      {
        var sensor := dotSensors[i];
        if sensor.snapTarget == null {
          Placement.MissingTargetRefuses(ts, i, lookup);
          return false;
        }
        assert ts[..i + 1] == snapTargets + [sensor.snapTarget];
        snapTargets := snapTargets + [sensor.snapTarget];
      }
      assert snapTargets == ts;
      var i := 0;
      while i < |snapTargets| - 1
        invariant 0 <= i <= |snapTargets|
        invariant forall j :: 0 <= j < i && j < |snapTargets| - 1 ==> !Placement.Blocked(lookup, snapTargets[j], snapTargets[j + 1])
      {
        var current, next := snapTargets[i], snapTargets[i + 1];
        var edge := lookup(current, Placement.Key(current, next));
        var edgeAlternative := lookup(current, Placement.Key(next, current));
        if Placement.IsFilled(edge) || Placement.IsFilled(edgeAlternative) {
          Placement.FilledPairRefuses(snapTargets, i, lookup);
          return false;
        }
        i := i + 1;
      }
      return true;
    }

    /**
     * The move onto a candidate dot, corrected: the anchor onto the dot,
     * then each sensor with a non-zero offset onto the dot at that offset; a
     * missing offset dot means the unit cannot stand there, and the sensors
     * from that one on stay where they were.
     */
    method MoveTo(dot: Board.Dot, offsetDot: OffsetDot) returns (placed: bool)
      requires Valid()
      modifies dotSensors
      ensures placed == PlaceAt(Offsets(dotSensors), dot, offsetDot).Some?
      ensures placed == (Reached(Offsets(dotSensors), dot, offsetDot) == |dotSensors|)
      ensures placed ==> Placement.SnapTargets(dotSensors) == PlaceAt(Offsets(dotSensors), dot, offsetDot).value
      ensures MovedTo(dotSensors, dot, offsetDot)
      ensures placed ==> forall s :: s in dotSensors ==> s.Valid()
      ensures forall s :: s in dotSensors && old(s.Valid()) ==> s.Valid()
    {
      dotSensors[0].SpecifySnapTarget(dot);
      ghost var m := Reached(Offsets(dotSensors), dot, offsetDot);
      for i := 0 to |dotSensors|
        invariant i <= m
        invariant dotSensors[0].snapTarget == dot && dotSensors[0].SnapTargetAvailable
        invariant forall j :: 0 <= j < i ==> Landed(dotSensors[j], dot, offsetDot)
        invariant forall j :: 0 < j < |dotSensors| && i <= j ==> Kept(dotSensors[j])
        invariant forall j :: 0 <= j < |dotSensors| ==> Still(dotSensors[j])
      {
        var sensor := dotSensors[i];
        assert Offsets(dotSensors)[i] == sensor.localCoordinate;
        if sensor.localCoordinate != ZeroOffset {
          var next := offsetDot(dot, sensor.localCoordinate);
          if next.None? {
            return false;
          }
          forall j | 0 <= j < |dotSensors| && j != i
            ensures dotSensors[j] != sensor
          {
            if j < i { DistinctAt(dotSensors, i, j); } else { DistinctAt(dotSensors, j, i); }
          }
          sensor.SpecifySnapTarget(next.value);
        }
      }
      ghost var offsets := Offsets(dotSensors);
      ghost var ts := PlaceAt(offsets, dot, offsetDot).value;
      forall j | 0 <= j < |dotSensors|
        ensures Placement.SnapTargets(dotSensors)[j] == ts[j]
      {
      }
      return true;
    }

    /** One candidate dot of the search, corrected: move the unit there and ask the check. */
    method TryAt(dot: Board.Dot, offsetDot: OffsetDot, lookup: Placement.Lookup) returns (ok: bool)
      requires Valid()
      modifies dotSensors
      ensures ok == Fits(Offsets(dotSensors), dot, offsetDot, lookup)
      ensures MovedTo(dotSensors, dot, offsetDot)
    {
      var placed := MoveTo(dot, offsetDot);
      if !placed {
        return false;
      }
      ok := IsCandidatePlaceAvailable(lookup);
    }
  }

  // ---------------------------------------------------------------------------
  // FailCheckManager

  /** `units.Find(u => u.id == id)`: the first unit with that id, if any. */
  function FindUnit(units: seq<FailCheckUnit>, id: int): (r: Option<FailCheckUnit>)
    ensures r.None? <==> forall k :: 0 <= k < |units| ==> units[k].id != id
    ensures r.Some? ==> exists k :: 0 <= k < |units| && units[k] == r.value && units[k].id == id
                                      && forall j :: 0 <= j < k ==> units[j].id != id
  {
    if units == [] then None
    else if units[0].id == id then Some(units[0])
    else
      var r := FindUnit(units[1..], id);
      assert r.Some? ==> exists k :: 0 <= k < |units| && units[k] == r.value && units[k].id == id
                                      && forall j :: 0 <= j < k ==> units[j].id != id by {
        if r.Some? {
          var k :| 0 <= k < |units[1..]| && units[1..][k] == r.value && units[1..][k].id == id
                   && forall j :: 0 <= j < k ==> units[1..][j].id != id;
          assert units[k + 1] == r.value;
          assert forall j :: 0 < j < k + 1 ==> units[j].id != id by {
            forall j | 0 < j < k + 1 ensures units[j].id != id { assert units[j] == units[1..][j - 1]; }
          }
        }
      }
      r
  }

  /** A unit fits at some candidate dot. */
  predicate FitsSomewhere(unit: FailCheckUnit, candidates: seq<Board.Dot>, offsetDot: OffsetDot, lookup: Placement.Lookup)
  {
    exists j :: 0 <= j < |candidates| && Fits(Offsets(unit.dotSensors), candidates[j], offsetDot, lookup)
  }

  /** The piece's unit fits at some candidate dot. */
  predicate PieceFits(units: seq<FailCheckUnit>, piece: Pieces.Draggable, candidates: seq<Board.Dot>,
                      offsetDot: OffsetDot, lookup: Placement.Lookup)
  {
    match FindUnit(units, piece.dataId)
    case None => false
    case Some(u) => FitsSomewhere(u, candidates, offsetDot, lookup)
  }

  /** No piece of the tray fits at any candidate dot: the game is lost. */
  predicate NoneFits(units: seq<FailCheckUnit>, pieces: seq<Pieces.Draggable>, candidates: seq<Board.Dot>,
                     offsetDot: OffsetDot, lookup: Placement.Lookup)
  {
    forall i :: 0 <= i < |pieces| ==> !PieceFits(units, pieces[i], candidates, offsetDot, lookup)
  }

  /** Every sensor of every unit. */
  function Sensors(units: seq<FailCheckUnit>): (r: set<Board.DotSensor>)
    ensures forall u, s :: u in units && s in u.dotSensors ==> s in r
  {
    set u, s | u in units && s in u.dotSensors :: s
  }

  class FailCheckManager {
    var units: seq<FailCheckUnit>
    /** How many times `onFail` has been invoked. */
    var onFailCount: nat

    /** Start: the units found in the scene. */
    constructor (units: seq<FailCheckUnit>)
      ensures this.units == units && onFailCount == 0
    {
      this.units, onFailCount := units, 0;
    }

    /**
     * The inner loop of IsFailed, corrected: try the unit at each candidate
     * dot in turn and stop at the first fit.
     */
    method TryCandidates(unit: FailCheckUnit, candidates: seq<Board.Dot>,
                         offsetDot: OffsetDot, lookup: Placement.Lookup) returns (found: bool)
      requires unit.Valid()
      modifies unit.dotSensors
      ensures found == FitsSomewhere(unit, candidates, offsetDot, lookup)
    {
      for d := 0 to |candidates|
        invariant forall j :: 0 <= j < d ==> !Fits(Offsets(unit.dotSensors), candidates[j], offsetDot, lookup)
      {
        var fits := unit.TryAt(candidates[d], offsetDot, lookup);
        if fits {
          return true;
        }
      }
      return false;
    }

    /**
     * IsFailed, corrected: for each piece in turn, try its unit at every
     * candidate dot and stop at the first fit. The game is lost, and
     * `onFail` invoked once, exactly when no piece fits anywhere.
     */
    method IsFailed(piecesInTray: seq<Pieces.Draggable>, candidates: seq<Board.Dot>,
                    offsetDot: OffsetDot, lookup: Placement.Lookup) returns (failed: bool)
      requires forall u :: u in units ==> u.Valid()
      requires candidates != [] ==> forall p :: p in piecesInTray ==> FindUnit(units, p.dataId).Some?
      modifies this, Sensors(units)
      ensures units == old(units)
      ensures failed == NoneFits(units, piecesInTray, candidates, offsetDot, lookup)
      ensures onFailCount == old(onFailCount) + (if failed then 1 else 0)
    {
      failed := true;
      var pieces := piecesInTray;
      for p := 0 to |pieces|
        invariant units == old(units) && onFailCount == old(onFailCount)
        invariant failed
        invariant forall i :: 0 <= i < p ==> !PieceFits(units, pieces[i], candidates, offsetDot, lookup)
      {
        var targetUnit := FindUnit(units, pieces[p].dataId);
        if candidates != [] {
          assert pieces[p] in piecesInTray;
          var unit := targetUnit.value;
          assert unit in units;
          var found := TryCandidates(unit, candidates, offsetDot, lookup);
          if found {
            failed := false;
            break;
          }
        }
      }
      if failed {
        onFailCount := onFailCount + 1;
      }
    }
  }
}
