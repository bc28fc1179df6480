/**
 * The value-level meaning of Cell.FillEdges and Cell.UpdateState.
 *
 * A cell is seen as one flag pair per bounding edge (is the edge `filled`, is a
 * stick sprite attached to it), its `edgesCount` counter and its `completed`
 * flag. `Fill` says what one FillEdges call does to that view, given which edges
 * the call targets and which of them a shape stick matches; `Recount` says what
 * UpdateState does.
 */
module CellFill {

  datatype CellState = CellState(filled: seq<bool>, stick: seq<bool>, edgesCount: int, completed: bool)
  {
    predicate WellFormed()
    {
      |filled| == |stick|
    }
  }

  function CountTrue(s: seq<bool>): (n: nat)
    ensures n <= |s|
  {
    if s == [] then 0 else CountTrue(s[..|s| - 1]) + (if s[|s| - 1] then 1 else 0)
  }

  /** Positions of the `true` entries of `mask`, in ascending order. */
  function Indices(mask: seq<bool>): (r: seq<nat>)
    ensures |r| == CountTrue(mask)
    ensures forall k :: 0 <= k < |r| ==> r[k] < |mask| && mask[r[k]]
    ensures forall i :: 0 <= i < |mask| && mask[i] ==> i in r
  {
    if mask == [] then []
    else Indices(mask[..|mask| - 1]) + (if mask[|mask| - 1] then [|mask| - 1] else [])
  }

  /** Scanning one more position adds it exactly when it is marked. */
  lemma IndicesStep(mask: seq<bool>, i: nat)
    requires i < |mask|
    ensures Indices(mask[..i + 1]) == Indices(mask[..i]) + (if mask[i] then [i] else [])
  {
    assert mask[..i + 1][..i] == mask[..i];
  }

  /** The marked positions come out in increasing order, hence without repetition. */
  lemma {:induction false} IndicesSorted(mask: seq<bool>)
    ensures forall k, l :: 0 <= k < l < |Indices(mask)| ==> Indices(mask)[k] < Indices(mask)[l]
  {
    if mask != [] {
      IndicesSorted(mask[..|mask| - 1]);
    }
  }

  /** Position (in `targets`) of the first target that no stick matches, or |targets|. */
  function FirstMissing(targets: seq<nat>, hasStick: seq<bool>): (m: nat)
    requires forall k :: 0 <= k < |targets| ==> targets[k] < |hasStick|
    ensures m <= |targets|
    ensures forall k :: 0 <= k < m ==> hasStick[targets[k]]
    ensures m < |targets| ==> !hasStick[targets[m]]
  {
    if targets == [] then 0
    else if !hasStick[targets[0]] then 0
    else 1 + FirstMissing(targets[1..], hasStick)
  }

  /** `flags` with every position listed in `idx` set. */
  function SetTrue(flags: seq<bool>, idx: seq<nat>): (r: seq<bool>)
    ensures |r| == |flags|
  {
    seq(|flags|, i requires 0 <= i < |flags| => flags[i] || i in idx)
  }

  /** FirstMissing is the position of the first target without a stick. */
  lemma FirstMissingAt(targets: seq<nat>, hasStick: seq<bool>, k: nat)
    requires forall i :: 0 <= i < |targets| ==> targets[i] < |hasStick|
    requires k <= |targets| && forall j :: 0 <= j < k ==> hasStick[targets[j]]
    requires k < |targets| ==> !hasStick[targets[k]]
    ensures FirstMissing(targets, hasStick) == k
  {
    var m := FirstMissing(targets, hasStick);
    assert m < |targets| ==> !hasStick[targets[m]];
    assert forall j :: 0 <= j < m ==> hasStick[targets[j]];
  }

  /** Some targeted edge is already filled: FillEdges' early `return false`. */
  predicate Conflict(s: CellState, targeted: seq<bool>)
    requires |targeted| == |s.filled|
  {
    exists i :: 0 <= i < |targeted| && targeted[i] && s.filled[i]
  }

  datatype Outcome = Outcome(ok: bool, state: CellState, blast: bool)

  /**
   * One FillEdges call. A conflict changes nothing. Otherwise the targeted
   * edges are filled one after the other, each decrementing the counter, and
   * each then gets its stick; the first targeted edge with no matching stick
   * stops the call after it was filled and counted, and before its stick.
   * Only a call that gets through sets `completed` (when the counter is 0) and
   * asks for a blast check.
   */
  function Fill(s: CellState, targeted: seq<bool>, hasStick: seq<bool>): (o: Outcome)
    requires s.WellFormed() && |targeted| == |s.filled| && |hasStick| == |s.filled|
    ensures o.state.WellFormed() && |o.state.filled| == |s.filled|
  {
    if Conflict(s, targeted) then Outcome(false, s, false)
    else
      var t := Indices(targeted);
      var m := FirstMissing(t, hasStick);
      var n := if m < |t| then m + 1 else |t|;
      var count := s.edgesCount - n;
      var ok := m == |t|;
      Outcome(ok,
              CellState(SetTrue(s.filled, t[..n]), SetTrue(s.stick, t[..m]), count,
                        s.completed || (ok && count == 0)),
              ok && count == 0)
  }

  /**
   * Fill's outcome when no targeted edge is already filled, in terms of the
   * fill loop's stopping point `m` (the first target without a stick) and
   * the number `n` of targets it filled.
   */
  lemma FillResult(s: CellState, targeted: seq<bool>, hasStick: seq<bool>, t: seq<nat>, m: nat, n: nat,
                   after: CellState, ok: bool, blast: bool)
    requires s.WellFormed() && |targeted| == |s.filled| && |hasStick| == |s.filled|
    requires !Conflict(s, targeted) && t == Indices(targeted) && m == FirstMissing(t, hasStick)
    requires n == if m < |t| then m + 1 else |t|
    requires ok == (m == |t|) && blast == (ok && s.edgesCount - n == 0)
    requires after.filled == SetTrue(s.filled, t[..n]) && after.stick == SetTrue(s.stick, t[..m])
    requires after.edgesCount == s.edgesCount - n && after.completed == (s.completed || blast)
    ensures Fill(s, targeted, hasStick) == Outcome(ok, after, blast)
  {
  }

  /** UpdateState: recount from the attached sticks. */
  function Recount(s: CellState): (r: CellState)
    ensures r.filled == s.filled && r.stick == s.stick
    ensures r.edgesCount == |s.stick| - CountTrue(s.stick)
    ensures r.completed <==> r.edgesCount == 0
  {
    var sticks := CountTrue(s.stick);
    s.(edgesCount := |s.stick| - sticks, completed := sticks == |s.stick|)
  }

  /** The counter counts the unfilled edges. */
  predicate Counted(s: CellState)
  {
    s.edgesCount == |s.filled| - CountTrue(s.filled)
  }

  /** The cell invariant `completed == (edgesCount == 0)`. */
  predicate CompletionAgrees(s: CellState)
  {
    s.completed <==> s.edgesCount == 0
  }

  /** Every filled edge carries a stick and every stick sits on a filled edge. */
  predicate Synced(s: CellState)
    requires s.WellFormed()
  {
    s.filled == s.stick
  }

  // ---------------------------------------------------------------------------
  // Counting facts

  lemma {:induction false} CountTrueUpdate(f: seq<bool>, i: nat)
    requires i < |f| && !f[i]
    ensures CountTrue(f[i := true]) == CountTrue(f) + 1
  {
    var g := f[i := true];
    if i == |f| - 1 {
      assert g[..|g| - 1] == f[..|f| - 1];
    } else {
      assert g[..|g| - 1] == f[..|f| - 1][i := true];
      CountTrueUpdate(f[..|f| - 1], i);
    }
  }

  lemma {:induction false} CountTrueAllFalse(f: seq<bool>)
    requires forall i :: 0 <= i < |f| ==> !f[i]
    ensures CountTrue(f) == 0
  {
    if f != [] {
      CountTrueAllFalse(f[..|f| - 1]);
    }
  }

  /** Setting |idx| distinct unset positions adds |idx| to the count. */
  lemma {:induction false} SetTrueCount(flags: seq<bool>, idx: seq<nat>)
    requires forall k :: 0 <= k < |idx| ==> idx[k] < |flags| && !flags[idx[k]]
    requires forall k, l :: 0 <= k < l < |idx| ==> idx[k] < idx[l]
    ensures CountTrue(SetTrue(flags, idx)) == CountTrue(flags) + |idx|
  {
    if idx == [] {
      assert SetTrue(flags, idx) == flags;
    } else {
      var front := idx[..|idx| - 1];
      var last := idx[|idx| - 1];
      SetTrueCount(flags, front);
      var g := SetTrue(flags, front);
      assert !g[last] by {
        assert last !in front;
      }
      assert SetTrue(flags, idx) == g[last := true] by {
        forall i | 0 <= i < |flags|
          ensures SetTrue(flags, idx)[i] == g[last := true][i]
        {
          assert i in idx <==> i in front || i == last;
        }
      }
      CountTrueUpdate(g, last);
    }
  }

  lemma PrefixSorted(t: seq<nat>, n: nat, bound: nat)
    requires n <= |t|
    requires forall k :: 0 <= k < |t| ==> t[k] < bound
    requires forall k, l :: 0 <= k < l < |t| ==> t[k] < t[l]
    ensures forall k :: 0 <= k < n ==> t[..n][k] < bound
    ensures forall k, l :: 0 <= k < l < n ==> t[..n][k] < t[..n][l]
  {
  }

  // ---------------------------------------------------------------------------
  // What a FillEdges call does

  /** A conflicting call changes nothing and reports failure. */
  lemma FillConflictChangesNothing(s: CellState, targeted: seq<bool>, hasStick: seq<bool>)
    requires s.WellFormed() && |targeted| == |s.filled| && |hasStick| == |s.filled|
    requires Conflict(s, targeted)
    ensures Fill(s, targeted, hasStick) == Outcome(false, s, false)
  {
  }

  /**
   * A call succeeds exactly when no targeted edge is filled and every targeted
   * edge has a stick; it then fills and decorates exactly the targeted edges,
   * lowers the counter by their number, and completes the cell when the
   * counter reaches 0 (never un-completing it).
   */
  lemma {:induction false} FillSuccess(s: CellState, targeted: seq<bool>, hasStick: seq<bool>)
    requires s.WellFormed() && |targeted| == |s.filled| && |hasStick| == |s.filled|
    ensures var o := Fill(s, targeted, hasStick);
      o.ok <==> !Conflict(s, targeted) && forall i :: 0 <= i < |targeted| && targeted[i] ==> hasStick[i]
    ensures var o := Fill(s, targeted, hasStick);
      o.ok ==>
        && (forall i :: 0 <= i < |s.filled| ==> o.state.filled[i] == (s.filled[i] || targeted[i]))
        && (forall i :: 0 <= i < |s.stick| ==> o.state.stick[i] == (s.stick[i] || targeted[i]))
        && o.state.edgesCount == s.edgesCount - CountTrue(targeted)
        && o.state.completed == (s.completed || o.state.edgesCount == 0)
        && o.blast == (o.state.edgesCount == 0)
  {
    var o := Fill(s, targeted, hasStick);
    if !Conflict(s, targeted) {
      var t := Indices(targeted);
      var m := FirstMissing(t, hasStick);
      if m < |t| {
        assert targeted[t[m]] && !hasStick[t[m]];
      } else {
        assert t[..|t|] == t;
        forall i | 0 <= i < |targeted| && targeted[i]
          ensures hasStick[i]
        {
          assert i in t;
          var k :| 0 <= k < |t| && t[k] == i;
        }
      }
    }
  }

  /**
   * A call that passes the conflict check but meets an edge with no stick
   * still leaves the edges it filled filled and counted (no rollback), does
   * not complete the cell and asks for no blast.
   */
  lemma {:induction false} FillStopsWithoutRollback(s: CellState, targeted: seq<bool>, hasStick: seq<bool>)
    requires s.WellFormed() && |targeted| == |s.filled| && |hasStick| == |s.filled|
    requires !Conflict(s, targeted)
    requires exists i :: 0 <= i < |targeted| && targeted[i] && !hasStick[i]
    ensures var o := Fill(s, targeted, hasStick);
      && !o.ok && !o.blast
      && o.state.completed == s.completed
      && o.state.edgesCount < s.edgesCount
      && (exists i :: 0 <= i < |targeted| && targeted[i] && !hasStick[i] && o.state.filled[i] && o.state.stick[i] == s.stick[i])
      && (forall i :: 0 <= i < |targeted| && !targeted[i] ==> o.state.filled[i] == s.filled[i] && o.state.stick[i] == s.stick[i])
  {
    FillSuccess(s, targeted, hasStick);
    IndicesSorted(targeted);
    var t := Indices(targeted);
    var m := FirstMissing(t, hasStick);
    var o := Fill(s, targeted, hasStick);
    assert m < |t|;
    var i := t[m];
    assert i in t[..m + 1];
    assert i !in t[..m];
    assert o.state.filled[i] && o.state.stick[i] == s.stick[i] by {
      assert SetTrue(s.stick, t[..m])[i] == (s.stick[i] || i in t[..m]);
    }
  }

  /** Every call, even one that stops half way, keeps the counter counting the unfilled edges. */
  lemma {:induction false} FillKeepsCounted(s: CellState, targeted: seq<bool>, hasStick: seq<bool>)
    requires s.WellFormed() && |targeted| == |s.filled| && |hasStick| == |s.filled|
    requires Counted(s)
    ensures Counted(Fill(s, targeted, hasStick).state)
  {
    if !Conflict(s, targeted) {
      var t := Indices(targeted);
      var m := FirstMissing(t, hasStick);
      var n := if m < |t| then m + 1 else |t|;
      IndicesSorted(targeted);
      PrefixSorted(t, n, |targeted|);
      assert forall k :: 0 <= k < n ==> !s.filled[t[..n][k]] by {
        forall k | 0 <= k < n
          ensures !s.filled[t[..n][k]]
        {
          assert targeted[t[k]];
        }
      }
      SetTrueCount(s.filled, t[..n]);
      var ok := m == |t|;
      var after := CellState(SetTrue(s.filled, t[..n]), SetTrue(s.stick, t[..m]), s.edgesCount - n,
                             s.completed || (ok && s.edgesCount - n == 0));
      FillResult(s, targeted, hasStick, t, m, n, after, ok, ok && s.edgesCount - n == 0);
    }
  }

  /**
   * A call that reports success, or fails at the conflict check, keeps the
   * cell invariant `completed == (edgesCount == 0)` and keeps fills and
   * sticks in step.
   */
  lemma {:induction false} FillKeepsInvariant(s: CellState, targeted: seq<bool>, hasStick: seq<bool>)
    requires s.WellFormed() && |targeted| == |s.filled| && |hasStick| == |s.filled|
    requires Counted(s) && CompletionAgrees(s) && Synced(s)
    ensures var o := Fill(s, targeted, hasStick);
      (o.ok || Conflict(s, targeted)) ==>
        Counted(o.state) && CompletionAgrees(o.state) && Synced(o.state)
  {
    FillKeepsCounted(s, targeted, hasStick);
    FillSuccess(s, targeted, hasStick);
    var o := Fill(s, targeted, hasStick);
    if o.ok {
      assert o.state.filled == o.state.stick;
      if o.state.edgesCount != 0 {
        assert s.edgesCount != 0;
      }
    }
  }

  /**
   * A fill that stops at a missing stick can break the cell invariant: the
   * last edge of a one-edge cell is filled and counted, the counter reaches 0,
   * and the cell stays uncompleted.
   */
  lemma MissingStickBreaksInvariant()
    ensures var s := CellState([false], [false], 1, false);
      var o := Fill(s, [true], [false]);
      && Counted(s) && CompletionAgrees(s) && Synced(s)
      && !o.ok && o.state.edgesCount == 0 && !o.state.completed
      && !CompletionAgrees(o.state)
  {
    var s := CellState([false], [false], 1, false);
    assert CountTrue([false]) == 0 by { CountTrueAllFalse([false]); }
    assert Indices([true]) == [0];
    assert FirstMissing([0], [false]) == 0;
  }

  // ---------------------------------------------------------------------------
  // What UpdateState does

  /** Recounting a cell whose fills and sticks are in step and whose counter is right changes nothing. */
  lemma RecountKeepsConsistentCell(s: CellState)
    requires s.WellFormed() && Synced(s) && Counted(s) && CompletionAgrees(s)
    ensures Recount(s) == s
  {
  }

  /** Recounting twice is recounting once. */
  lemma RecountIdempotent(s: CellState)
    ensures Recount(Recount(s)) == Recount(s)
  {
  }
}
