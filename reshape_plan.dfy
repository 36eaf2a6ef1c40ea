/**
 * What the reshape emitter produces for a recognized reshape, as functions of
 * the reshape record and the temporary counter. Two fold clauses become one
 * grouped reshape. One fold clause is expanded on its side; when the expanded
 * index lists are in different orders a transpose through a fresh temporary
 * is added: after the reshape when the fold name is on the right-hand side,
 * before it when it is on the left-hand side.
 */
module ReshapePlan {
  import opened Wrappers
  import opened Seqs
  import opened Records
  import opened IndexAlgebra
  import opened SymbolTable

  datatype FoldSide = FoldOnLhs | FoldOnRhs

  /** What the single-clause emitter derives before emitting anything: the
      side of the fold name, both index lists with the fold name expanded,
      the positions of the constituents in the expanded output, the other
      positions, and whether a transpose is needed. */
  datatype FoldLayout = FoldLayout(
    side: FoldSide,
    lhsExpanded: seq<string>,
    rhsExpanded: seq<string>,
    toReshape: seq<nat>,
    notToReshape: seq<nat>,
    transpose: bool)

  /** The checks and derivations of the single-clause emitter, in its order:
      the fold name on exactly one side, the constituents on the other side,
      the constituents still present after expansion, equal lengths. */
  function Analyze(ri: ReshapeInfo): (r: Result<FoldLayout, ErrorKind>)
    requires |ri.newVar| == 1 && |ri.oldVars| == 1
    ensures var f, olds := ri.newVar[0], ri.oldVars[0];
            && ((f in ri.lhsIndexes) == (f in ri.rhsIndexes) ==> r == Err(FoldNotOnOneSide))
            && (f in ri.lhsIndexes && f !in ri.rhsIndexes && !FindAll(olds, ri.rhsIndexes) ==> r == Err(FoldNamesOnWrongSide))
            && (f in ri.rhsIndexes && f !in ri.lhsIndexes && !FindAll(olds, ri.lhsIndexes) ==> r == Err(FoldNamesOnWrongSide))
    ensures r.Ok? ==>
              var f, olds, lay := ri.newVar[0], ri.oldVars[0], r.value;
              && (lay.side == FoldOnLhs <==> f in ri.lhsIndexes)
              && (lay.side == FoldOnRhs <==> f in ri.rhsIndexes)
              && lay.lhsExpanded == (if lay.side == FoldOnLhs then Substituted(ri.lhsIndexes, f, olds) else ri.lhsIndexes)
              && lay.rhsExpanded == (if lay.side == FoldOnRhs then Substituted(ri.rhsIndexes, f, olds) else ri.rhsIndexes)
              && |lay.lhsExpanded| == |lay.rhsExpanded|
              && FindAll(olds, lay.lhsExpanded)
              && FindAll(olds, if lay.side == FoldOnLhs then lay.rhsExpanded else ri.lhsIndexes)
              && |lay.toReshape| == |olds|
              && (forall q :: 0 <= q < |olds| ==> lay.toReshape[q] < |lay.lhsExpanded| && lay.lhsExpanded[lay.toReshape[q]] == olds[q])
              && (forall x: nat :: x in lay.notToReshape <==> x < |lay.lhsExpanded| && x !in lay.toReshape)
              && (lay.transpose <==> !Consecutive(Ordering(lay.lhsExpanded, lay.rhsExpanded)))
    ensures r.Err? ==> r.error in {FoldNotOnOneSide, FoldNamesOnWrongSide, FoldNamesLost, IndexCountMismatch}
  {
    var f, olds := ri.newVar[0], ri.oldVars[0];
    var onLhs, onRhs := f in ri.lhsIndexes, f in ri.rhsIndexes;
    if onLhs == onRhs then Err(FoldNotOnOneSide)
    else if onRhs && !FindAll(olds, ri.lhsIndexes) then Err(FoldNamesOnWrongSide)
    else if onLhs && !FindAll(olds, ri.rhsIndexes) then Err(FoldNamesOnWrongSide)
    else
      var lc := if onLhs then Substituted(ri.lhsIndexes, f, olds) else ri.lhsIndexes;
      var rc := if onRhs then Substituted(ri.rhsIndexes, f, olds) else ri.rhsIndexes;
      if !FindAll(olds, lc) then Err(FoldNamesLost)
      else if |lc| != |rc| then Err(IndexCountMismatch)
      else
        Ok(Layout(if onLhs then FoldOnLhs else FoldOnRhs, olds, lc, rc))
  }

  /** The layout derived from expanded index lists that passed Analyze's checks. */
  function Layout(side: FoldSide, olds: seq<string>, lc: seq<string>, rc: seq<string>): (lay: FoldLayout)
    requires FindAll(olds, lc)
    ensures lay.side == side && lay.lhsExpanded == lc && lay.rhsExpanded == rc
    ensures |lay.toReshape| == |olds|
    ensures forall q :: 0 <= q < |olds| ==> lay.toReshape[q] < |lc| && lc[lay.toReshape[q]] == olds[q]
    ensures forall x: nat :: x in lay.notToReshape <==> x < |lc| && x !in lay.toReshape
    ensures lay.transpose <==> !Consecutive(Ordering(lc, rc))
  {
    var toReshape := GroupPositions(olds, lc);
    assert forall q :: 0 <= q < |olds| ==> toReshape[q] < |lc| && lc[toReshape[q]] == olds[q] by {
      forall q | 0 <= q < |olds| ensures toReshape[q] < |lc| && lc[toReshape[q]] == olds[q] {
        assert olds[q] in lc;
      }
    }
    FoldLayout(side, lc, rc, toReshape, Unreshaped(|lc|, toReshape), !Consecutive(Ordering(lc, rc)))
  }

  /** `len` consecutive positions starting at `start`. */
  function Block(start: nat, len: nat): (r: seq<nat>)
    ensures |r| == len && forall q :: 0 <= q < len ==> r[q] == start + q
  {
    seq(len, q requires 0 <= q < len => start + q)
  }

  /** The position of the fold name in the right-hand-side indices. */
  function RhsFoldStart(ri: ReshapeInfo): nat
    requires |ri.newVar| == 1
  {
    IndexOf(ri.rhsIndexes, ri.newVar[0])
  }

  /** The block of the expanded right-hand side that a right-hand-side fold
      reshapes, as written: as many positions as the right-hand side has
      indices. */
  function RhsFoldBlockAsWritten(ri: ReshapeInfo): (b: seq<nat>)
    requires |ri.newVar| == 1
    ensures |b| == |ri.rhsIndexes|
    ensures forall q :: 0 <= q < |b| ==> b[q] == IndexOf(ri.rhsIndexes, ri.newVar[0]) + q
  {
    Block(RhsFoldStart(ri), |ri.rhsIndexes|)
  }

  /** The block as intended: one position per constituent of the fold. */
  function RhsFoldBlock(ri: ReshapeInfo): (b: seq<nat>)
    requires |ri.newVar| == 1 && |ri.oldVars| == 1
    ensures |b| == |ri.oldVars[0]|
    ensures forall q :: 0 <= q < |b| ==> b[q] == IndexOf(ri.rhsIndexes, ri.newVar[0]) + q
  {
    Block(RhsFoldStart(ri), |ri.oldVars[0]|)
  }

  /** The transpose permutation as written: for each expanded right-hand-side
      index, its position in the expanded output. It rearranges the output
      indices into the input indices, the inverse of what a transpose step
      expects. */
  function TransposeOrderingAsWritten(lay: FoldLayout): (p: seq<nat>)
    ensures forall q :: 0 <= q < |p| ==> p[q] < |lay.lhsExpanded|
    ensures Distinct(lay.lhsExpanded) && |lay.rhsExpanded| == |lay.lhsExpanded| &&
            (forall i :: 0 <= i < |lay.rhsExpanded| ==> lay.rhsExpanded[i] in lay.lhsExpanded) ==>
              |p| == |lay.lhsExpanded| && Reordered(lay.lhsExpanded, p) == lay.rhsExpanded
  {
    if Distinct(lay.lhsExpanded) && |lay.rhsExpanded| == |lay.lhsExpanded| &&
       (forall i :: 0 <= i < |lay.rhsExpanded| ==> lay.rhsExpanded[i] in lay.lhsExpanded)
    then
      ReorderRoundTrip(lay.lhsExpanded, lay.rhsExpanded);
      Ordering(lay.lhsExpanded, lay.rhsExpanded)
    else Ordering(lay.lhsExpanded, lay.rhsExpanded)
  }

  /** The transpose permutation as the transpose recognizer defines it: for
      each output position, the input position it is read from. It
      rearranges the input indices into the output indices. */
  function TransposeOrdering(lay: FoldLayout): (p: seq<nat>)
    ensures forall q :: 0 <= q < |p| ==> p[q] < |lay.rhsExpanded|
    ensures Distinct(lay.rhsExpanded) && |lay.lhsExpanded| == |lay.rhsExpanded| &&
            (forall i :: 0 <= i < |lay.lhsExpanded| ==> lay.lhsExpanded[i] in lay.rhsExpanded) ==>
              |p| == |lay.rhsExpanded| && Reordered(lay.rhsExpanded, p) == lay.lhsExpanded
  {
    if Distinct(lay.rhsExpanded) && |lay.lhsExpanded| == |lay.rhsExpanded| &&
       (forall i :: 0 <= i < |lay.lhsExpanded| ==> lay.lhsExpanded[i] in lay.rhsExpanded)
    then
      ReorderRoundTrip(lay.rhsExpanded, lay.lhsExpanded);
      Ordering(lay.rhsExpanded, lay.lhsExpanded)
    else Ordering(lay.rhsExpanded, lay.lhsExpanded)
  }

  /** The steps of a single-clause reshape, given the reshape block used for
      a right-hand-side fold and the transpose permutation; `n` is the
      temporary counter. */
  function Assemble(ri: ReshapeInfo, lay: FoldLayout, rhsBlock: seq<nat>, perm: seq<nat>, n: nat): (r: Result<seq<Step>, ErrorKind>)
    ensures r.Err? ==> r.error == EmptyReshapeGroup || r.error == NoZeroDimension
    ensures r.Ok? ==> |r.value| == if lay.transpose then 2 else 1
    ensures r.Ok? && lay.side == FoldOnRhs ==>
              r.value[0].ReshapeStep? && r.value[0].reshapeMap.toReshape == rhsBlock
    ensures r.Ok? && lay.side == FoldOnLhs ==>
              var last := r.value[|r.value| - 1];
              last.ReshapeStep? && last.reshapeMap.toReshape == lay.toReshape
    ensures r.Ok? && lay.transpose ==>
              var t := if lay.side == FoldOnRhs then r.value[1] else r.value[0];
              t.TransposeStep? && t.tr.permutation == perm
  {
    var tmp := TmpName(n);
    match lay.side
    case FoldOnRhs =>
      var m := GetReshapeMap(rhsBlock, Unreshaped(|lay.rhsExpanded|, rhsBlock));
      if m.Err? then Err(m.error)
      else if lay.transpose then
        Ok([ReshapeStep(ri.rhs, tmp, m.value), TransposeStep(TransposeInfo(ri.lhs, tmp, perm))])
      else Ok([ReshapeStep(ri.rhs, ri.lhs, m.value)])
    case FoldOnLhs =>
      var m := GetReshapeMap(lay.toReshape, lay.notToReshape);
      if m.Err? then Err(m.error)
      else if lay.transpose then
        Ok([TransposeStep(TransposeInfo(tmp, ri.rhs, perm)), ReshapeStep(tmp, ri.lhs, m.value)])
      else Ok([ReshapeStep(ri.rhs, ri.lhs, m.value)])
  }

  /** The reshape emitter on record `ri` with temporary counter `n`;
      `asWritten` selects the source's block length and permutation instead
      of the intended ones. */
  function Plan(ri: ReshapeInfo, n: nat, asWritten: bool): (r: Result<seq<Step>, ErrorKind>)
    requires |ri.newVar| == |ri.oldVars|
    ensures r.Err? ==>
              r.error in {FoldNotOnOneSide, FoldNamesOnWrongSide, FoldNamesLost, IndexCountMismatch,
                          EmptyReshapeGroup, NoZeroDimension, UnsupportedWhereCount}
    ensures r.Ok? ==> |r.value| == 1 + TempsUsed(ri)
  {
    if |ri.newVar| == 2 then
      match GetReshapeGroup(ri.newVar, ri.oldVars, ri.lhsIndexes, ri.rhsIndexes)
      case Err(e) => Err(e)
      case Ok(groups) => Ok([GroupedReshapeStep(ri.rhs, ri.lhs, groups)])
    else if |ri.newVar| != 1 then Err(UnsupportedWhereCount)
    else
      match Analyze(ri)
      case Err(e) => Err(e)
      case Ok(lay) =>
        if asWritten then Assemble(ri, lay, RhsFoldBlockAsWritten(ri), TransposeOrderingAsWritten(lay), n)
        else Assemble(ri, lay, RhsFoldBlock(ri), TransposeOrdering(lay), n)
  }

  /** The reshape emitter as written. It agrees with the corrected plan
      except on right-hand-side folds and on transposes, where it uses the
      written block length and permutation. */
  function PlanReshapeAsWritten(ri: ReshapeInfo, n: nat): (r: Result<seq<Step>, ErrorKind>)
    requires |ri.newVar| == |ri.oldVars|
    ensures (|ri.newVar| != 1 || Analyze(ri).Err? ||
             (Analyze(ri).value.side == FoldOnLhs && !Analyze(ri).value.transpose)) ==> r == PlanReshape(ri, n)
    ensures r.Ok? && |ri.newVar| == 1 && Analyze(ri).Ok? && Analyze(ri).value.side == FoldOnRhs ==>
              |r.value| >= 1 && r.value[0].ReshapeStep? && r.value[0].reshapeMap.toReshape == RhsFoldBlockAsWritten(ri)
    ensures r.Ok? && |ri.newVar| == 1 && Analyze(ri).Ok? && Analyze(ri).value.transpose ==>
              var lay := Analyze(ri).value;
              |r.value| == 2 &&
              var t := if lay.side == FoldOnRhs then r.value[1] else r.value[0];
              t.TransposeStep? && t.tr.permutation == TransposeOrderingAsWritten(lay)
  {
    Plan(ri, n, true)
  }

  /** The reshape emitter, corrected: a right-hand-side fold reshapes one
      position per constituent, and the transpose carries the permutation
      the transpose recognizer would compute. */
  function PlanReshape(ri: ReshapeInfo, n: nat): (r: Result<seq<Step>, ErrorKind>)
    requires |ri.newVar| == |ri.oldVars|
    ensures r.Ok? && |ri.newVar| == 1 && Analyze(ri).Ok? && Analyze(ri).value.side == FoldOnRhs ==>
              |r.value| >= 1 && r.value[0].ReshapeStep? && r.value[0].reshapeMap.toReshape == RhsFoldBlock(ri)
    ensures r.Ok? && |ri.newVar| == 1 && Analyze(ri).Ok? && Analyze(ri).value.transpose ==>
              var lay := Analyze(ri).value;
              |r.value| == 2 &&
              var t := if lay.side == FoldOnRhs then r.value[1] else r.value[0];
              t.TransposeStep? && t.tr.permutation == TransposeOrdering(lay)
  {
    Plan(ri, n, false)
  }

  /** The temporaries a single-clause reshape draws: one exactly when it
      transposes (drawn before the reshape map is checked). */
  function TempsUsed(ri: ReshapeInfo): (r: nat)
    requires |ri.newVar| == |ri.oldVars|
    ensures r <= 1
  {
    if |ri.newVar| == 1 && Analyze(ri).Ok? && Analyze(ri).value.transpose then 1 else 0
  }

  // ---------------------------------------------------------------------
  // Properties of the plan

  /** Reshape and transpose steps move data from one array to another. */
  predicate Moves(s: Step)
  {
    s.ReshapeStep? || s.GroupedReshapeStep? || s.TransposeStep?
  }

  function Src(s: Step): string
    requires Moves(s)
  {
    if s.TransposeStep? then s.tr.rhs else s.src
  }

  function Dst(s: Step): string
    requires Moves(s)
  {
    if s.TransposeStep? then s.tr.lhs else s.dst
  }

  /** The steps form a pipeline from array `from` to array `to`. */
  predicate Chains(steps: seq<Step>, from: string, to: string)
  {
    && |steps| > 0
    && (forall q :: 0 <= q < |steps| ==> Moves(steps[q]))
    && Src(steps[0]) == from && Dst(steps[|steps| - 1]) == to
    && forall q :: 0 <= q < |steps| - 1 ==> Dst(steps[q]) == Src(steps[q + 1])
  }

  /** Unsupported clause counts and misplaced fold names are rejected. */
  lemma ReshapeRejects(ri: ReshapeInfo, n: nat)
    requires |ri.newVar| == |ri.oldVars|
    ensures |ri.newVar| != 1 && |ri.newVar| != 2 ==> PlanReshape(ri, n) == Err(UnsupportedWhereCount)
    ensures |ri.newVar| == 2 ==>
              (PlanReshape(ri, n).Ok? <==>
               forall i :: 0 <= i < 2 ==> (ri.newVar[i] in ri.lhsIndexes) != (ri.newVar[i] in ri.rhsIndexes))
    ensures |ri.newVar| == 1 && (ri.newVar[0] in ri.lhsIndexes) == (ri.newVar[0] in ri.rhsIndexes) ==>
              PlanReshape(ri, n) == Err(FoldNotOnOneSide)
    ensures (|ri.newVar| == 1 && ri.newVar[0] in ri.lhsIndexes && ri.newVar[0] !in ri.rhsIndexes &&
             !FindAll(ri.oldVars[0], ri.rhsIndexes)) ==> PlanReshape(ri, n) == Err(FoldNamesOnWrongSide)
    ensures (|ri.newVar| == 1 && ri.newVar[0] in ri.rhsIndexes && ri.newVar[0] !in ri.lhsIndexes &&
             !FindAll(ri.oldVars[0], ri.lhsIndexes)) ==> PlanReshape(ri, n) == Err(FoldNamesOnWrongSide)
  {
  }

  /** The steps assembled for a layout are a pipeline through the temporary
      exactly when the layout asks for a transpose. */
  lemma AssembleChains(ri: ReshapeInfo, lay: FoldLayout, rhsBlock: seq<nat>, perm: seq<nat>, n: nat)
    requires Assemble(ri, lay, rhsBlock, perm, n).Ok?
    ensures var steps := Assemble(ri, lay, rhsBlock, perm, n).value;
            && Chains(steps, ri.rhs, ri.lhs)
            && |steps| == (if lay.transpose then 2 else 1)
            && (|steps| == 2 ==> Dst(steps[0]) == TmpName(n) &&
                                 (steps[1].TransposeStep? <==> lay.side == FoldOnRhs) &&
                                 (steps[0].TransposeStep? <==> lay.side == FoldOnLhs))
  {
  }

  /** A successful plan, as written or corrected, is a pipeline from the
      input array to the output array: one step, or two steps through the temporary drawn from the
      counter; with two steps the transpose comes second exactly when the
      fold name is on the right-hand side. */
  lemma ReshapeChains(ri: ReshapeInfo, n: nat, asWritten: bool)
    requires |ri.newVar| == |ri.oldVars|
    requires Plan(ri, n, asWritten).Ok?
    ensures var steps := Plan(ri, n, asWritten).value;
            && Chains(steps, ri.rhs, ri.lhs)
            && |steps| == 1 + TempsUsed(ri)
            && (|steps| == 2 ==> Dst(steps[0]) == TmpName(n) &&
                                 (steps[1].TransposeStep? <==> ri.newVar[0] in ri.rhsIndexes) &&
                                 (steps[0].TransposeStep? <==> ri.newVar[0] in ri.lhsIndexes))
  {
    if |ri.newVar| == 2 {
      var steps := Plan(ri, n, asWritten).value;
      assert |steps| == 1 && steps[0].GroupedReshapeStep?;
    } else {
      var lay := Analyze(ri).value;
      if asWritten {
        AssembleChains(ri, lay, RhsFoldBlockAsWritten(ri), TransposeOrderingAsWritten(lay), n);
      } else {
        AssembleChains(ri, lay, RhsFoldBlock(ri), TransposeOrdering(lay), n);
      }
    }
  }

  /** With distinct expanded output indices that the expanded input indices
      permute, a transpose is added exactly when the two orders differ. */
  lemma TransposeIffReordered(ri: ReshapeInfo)
    requires |ri.newVar| == 1 && |ri.oldVars| == 1 && Analyze(ri).Ok?
    requires var lay := Analyze(ri).value;
             Distinct(lay.lhsExpanded) && forall i :: 0 <= i < |lay.rhsExpanded| ==> lay.rhsExpanded[i] in lay.lhsExpanded
    ensures var lay := Analyze(ri).value;
            lay.transpose <==> lay.lhsExpanded != lay.rhsExpanded
  {
    var lay := Analyze(ri).value;
    ConsecutiveIffSameOrder(lay.lhsExpanded, lay.rhsExpanded);
  }

  /** The transpose of a fold rearranges the expanded input indices into the
      expanded output indices (permutation entry d names the input position
      that output position d is read from). */
  lemma FoldTransposeRearranges(ri: ReshapeInfo)
    requires |ri.newVar| == 1 && |ri.oldVars| == 1 && Analyze(ri).Ok?
    requires var lay := Analyze(ri).value;
             Distinct(lay.rhsExpanded) && forall i :: 0 <= i < |lay.lhsExpanded| ==> lay.lhsExpanded[i] in lay.rhsExpanded
    ensures var lay := Analyze(ri).value;
            |TransposeOrdering(lay)| == |lay.rhsExpanded| &&
            Reordered(lay.rhsExpanded, TransposeOrdering(lay)) == lay.lhsExpanded
  {
    var lay := Analyze(ri).value;
    ReorderRoundTrip(lay.rhsExpanded, lay.lhsExpanded);
  }

  /** A right-hand-side fold reshapes exactly the block where its
      constituents land in the expanded input, and leaves the rest, when the
      fold name occurs once and is not one of its own constituents. */
  lemma RhsFoldBlockIsConstituents(ri: ReshapeInfo, k: nat)
    requires |ri.newVar| == 1 && |ri.oldVars| == 1
    requires k < |ri.rhsIndexes| && ri.rhsIndexes[k] == ri.newVar[0]
    requires ri.newVar[0] !in ri.rhsIndexes[..k] && ri.newVar[0] !in ri.rhsIndexes[k + 1..]
    requires ri.newVar[0] !in ri.oldVars[0]
    ensures var expanded := Substituted(ri.rhsIndexes, ri.newVar[0], ri.oldVars[0]);
            var block := RhsFoldBlock(ri);
            && expanded == ri.rhsIndexes[..k] + ri.oldVars[0] + ri.rhsIndexes[k + 1..]
            && (forall q :: 0 <= q < |block| ==> block[q] < |expanded| && expanded[block[q]] == ri.oldVars[0][q])
            && (forall x: nat :: x in Unreshaped(|expanded|, block) <==>
                  x < |expanded| && (x < k || x >= k + |ri.oldVars[0]|))
  {
    var f, olds := ri.newVar[0], ri.oldVars[0];
    SubstitutedSingle(ri.rhsIndexes, f, olds, k);
    var expanded := Substituted(ri.rhsIndexes, f, olds);
    assert RhsFoldStart(ri) == k by {
      assert f !in ri.rhsIndexes[..k];
      forall j | 0 <= j < k ensures ri.rhsIndexes[j] != f {
        assert ri.rhsIndexes[j] == ri.rhsIndexes[..k][j];
      }
    }
    var block := RhsFoldBlock(ri);
    forall q | 0 <= q < |block| ensures block[q] < |expanded| && expanded[block[q]] == olds[q] {
      assert expanded[k + q] == (ri.rhsIndexes[..k] + olds + ri.rhsIndexes[k + 1..])[k + q];
    }
    forall x: nat ensures x in block <==> k <= x < k + |olds| {
      if k <= x < k + |olds| {
        assert block[x - k] == x;
      }
    }
  }

  /** With distinct source names, each ordering entry is the one position
      of the source holding the destination's name. */
  lemma OrderingPinned(source: seq<string>, dest: seq<string>)
    requires Distinct(source)
    requires forall i :: 0 <= i < |dest| ==> dest[i] in source
    ensures |Ordering(source, dest)| == |dest|
    ensures forall i, j :: 0 <= i < |dest| && 0 <= j < |source| && source[j] == dest[i] ==>
              Ordering(source, dest)[i] == j
  {
    OrderingOfPermutation(source, dest);
  }

  // ---------------------------------------------------------------------
  // Where the source departs from its evident intent

  /** The complements used by the two examples below. */
  lemma SmallComplements()
    ensures Unreshaped(3, [0, 1]) == [2]
    ensures Unreshaped(4, [0, 1]) == [2, 3]
    ensures Unreshaped(4, [0, 1, 2]) == [3]
  {
    var two: seq<nat>, three: seq<nat> := [0, 1], [0, 1, 2];
    assert 0 in two && 1 in two && 2 !in two && 3 !in two;
    assert 0 in three && 1 in three && 2 in three && 3 !in three;
    assert Unreshaped(0, two) == [] && Unreshaped(0, three) == [];
    assert Unreshaped(1, two) == Unreshaped(0, two) && Unreshaped(1, three) == Unreshaped(0, three);
    assert Unreshaped(2, two) == Unreshaped(1, two) && Unreshaped(2, three) == Unreshaped(1, three);
    assert Unreshaped(3, two) == Unreshaped(2, two) + [2];
    assert Unreshaped(3, three) == Unreshaped(2, three);
    assert Unreshaped(4, two) == Unreshaped(3, two) + [3];
    assert Unreshaped(4, three) == Unreshaped(3, three) + [3];
  }

  /** A single-clause plan once the layout is known. */
  lemma PlanOfLayout(ri: ReshapeInfo, n: nat, lay: FoldLayout)
    requires |ri.newVar| == 1 && |ri.oldVars| == 1 && Analyze(ri) == Ok(lay)
    ensures PlanReshapeAsWritten(ri, n) ==
              Assemble(ri, lay, RhsFoldBlockAsWritten(ri), Ordering(lay.lhsExpanded, lay.rhsExpanded), n)
    ensures PlanReshape(ri, n) ==
              Assemble(ri, lay, RhsFoldBlock(ri), Ordering(lay.rhsExpanded, lay.lhsExpanded), n)
  {
  }

  /** `C(a, c, x, y) = A(f, x, y) where f = a * c`. */
  function RhsFoldStatement(C: string, A: string, a: string, c: string, x: string, y: string, f: string): ReshapeInfo
  {
    ReshapeInfo(C, A, [a, c, x, y], [f, x, y], [f], [[a, c]])
  }

  /** Four different names make a list without repetitions. */
  lemma DistinctFour(a: string, c: string, x: string, y: string)
    requires a != c && a != x && a != y && c != x && c != y && x != y
    ensures Distinct([a, c, x, y])
  {
    var s := [a, c, x, y];
    forall p, q | 0 <= p < q < 4 ensures s[p] != s[q] {
      if p == 0 {
        assert q == 1 || q == 2 || q == 3;
      } else {
        assert p == 1 || p == 2;
      }
    }
  }

  /** With five different names the fold is on the right and both sides
      expand to (a, c, x, y), so no transpose is needed. */
  lemma RhsFoldExampleLayout(C: string, A: string, a: string, c: string, x: string, y: string, f: string)
    requires a != c && a != x && a != y && c != x && c != y && x != y
    requires f != a && f != c && f != x && f != y
    ensures Analyze(RhsFoldStatement(C, A, a, c, x, y, f)) ==
              Ok(FoldLayout(FoldOnRhs, [a, c, x, y], [a, c, x, y], [0, 1], [2, 3], false))
  {
    var R, rc := [f, x, y], [a, c, x, y];
    assert R[..0] == [] && R[1..] == [x, y];
    SubstitutedSingle(R, f, [a, c], 0);
    assert Substituted(R, f, [a, c]) == rc;
    assert IndexOf(rc, a) == 0 && IndexOf(rc, c) == 1;
    assert GroupPositions([a, c], rc) == [0, 1];
    assert f !in rc && f in R;
    assert a in rc && c in rc;
    assert FindAll([a, c], rc);
    SmallComplements();
    DistinctFour(a, c, x, y);
    ConsecutiveIffSameOrder(rc, rc);
  }

  /** The fold name is the first input index, so both blocks start at 0. */
  lemma RhsFoldExampleBlocks(C: string, A: string, a: string, c: string, x: string, y: string, f: string)
    ensures RhsFoldBlockAsWritten(RhsFoldStatement(C, A, a, c, x, y, f)) == [0, 1, 2]
    ensures RhsFoldBlock(RhsFoldStatement(C, A, a, c, x, y, f)) == [0, 1]
  {
    assert RhsFoldStart(RhsFoldStatement(C, A, a, c, x, y, f)) == 0;
    var b3, b2 := Block(0, 3), Block(0, 2);
    assert |b3| == 3 && b3[0] == 0 && b3[1] == 1 && b3[2] == 2;
    Triple(b3, 0, 1, 2);
    assert |b2| == 2 && b2[0] == 0 && b2[1] == 1;
    assert b2 == [0, 1];
  }

  /** The expanded input is (a, c, x, y). As written the reshape block is as
      long as the input's index list, so it takes x as a constituent of the
      fold and leaves only y. */
  lemma RhsFoldBlockCounterexample(C: string, A: string, a: string, c: string, x: string, y: string, f: string, n: nat)
    requires a != c && a != x && a != y && c != x && c != y && x != y
    requires f != a && f != c && f != x && f != y
    ensures RhsFoldBlockAsWritten(RhsFoldStatement(C, A, a, c, x, y, f)) == [0, 1, 2]
    ensures PlanReshapeAsWritten(RhsFoldStatement(C, A, a, c, x, y, f), n) ==
              Ok([ReshapeStep(A, C, ReshapeMap([0, 1, 2], [3], true))])
  {
    var ri := RhsFoldStatement(C, A, a, c, x, y, f);
    var lay := FoldLayout(FoldOnRhs, [a, c, x, y], [a, c, x, y], [0, 1], [2, 3], false);
    RhsFoldExampleLayout(C, A, a, c, x, y, f);
    PlanOfLayout(ri, n, lay);
    RhsFoldExampleBlocks(C, A, a, c, x, y, f);
    SmallComplements();
    assert GetReshapeMap([0, 1, 2], [3]) == Ok(ReshapeMap([0, 1, 2], [3], true));
    AssembleRhsPlain(ri, lay, [0, 1, 2], Ordering(lay.lhsExpanded, lay.rhsExpanded), n);
  }

  /** With the intended block exactly a and c are folded. */
  lemma RhsFoldBlockExample(C: string, A: string, a: string, c: string, x: string, y: string, f: string, n: nat)
    requires a != c && a != x && a != y && c != x && c != y && x != y
    requires f != a && f != c && f != x && f != y
    ensures RhsFoldBlock(RhsFoldStatement(C, A, a, c, x, y, f)) == [0, 1]
    ensures PlanReshape(RhsFoldStatement(C, A, a, c, x, y, f), n) ==
              Ok([ReshapeStep(A, C, ReshapeMap([0, 1], [2, 3], true))])
  {
    var ri := RhsFoldStatement(C, A, a, c, x, y, f);
    var lay := FoldLayout(FoldOnRhs, [a, c, x, y], [a, c, x, y], [0, 1], [2, 3], false);
    RhsFoldExampleLayout(C, A, a, c, x, y, f);
    PlanOfLayout(ri, n, lay);
    RhsFoldExampleBlocks(C, A, a, c, x, y, f);
    SmallComplements();
    assert GetReshapeMap([0, 1], [2, 3]) == Ok(ReshapeMap([0, 1], [2, 3], true));
    AssembleRhsPlain(ri, lay, [0, 1], Ordering(lay.rhsExpanded, lay.lhsExpanded), n);
  }

  /** `C(f, y) = A(y, a, c) where f = a * c`. */
  function TransposeStatement(C: string, A: string, a: string, c: string, y: string, f: string): ReshapeInfo
  {
    ReshapeInfo(C, A, [f, y], [y, a, c], [f], [[a, c]])
  }

  lemma Triple(s: seq<nat>, x: nat, y: nat, z: nat)
    requires |s| == 3 && s[0] == x && s[1] == y && s[2] == z
    ensures s == [x, y, z]
  {
  }

  /** Both orderings between (a, c, y) and (y, a, c). */
  lemma TransposeExampleOrderings(a: string, c: string, y: string)
    requires a != c && a != y && c != y
    ensures Ordering([a, c, y], [y, a, c]) == [2, 0, 1]
    ensures Ordering([y, a, c], [a, c, y]) == [1, 2, 0]
  {
    var lc, rc := [a, c, y], [y, a, c];
    assert Distinct(lc) && Distinct(rc);
    OrderingPinned(lc, rc);
    OrderingPinned(rc, lc);
    var o1, o2 := Ordering(lc, rc), Ordering(rc, lc);
    assert lc[2] == rc[0] && lc[0] == rc[1] && lc[1] == rc[2];
    assert |o1| == 3 && o1[0] == 2 && o1[1] == 0 && o1[2] == 1;
    Triple(o1, 2, 0, 1);
    assert |o2| == 3 && o2[0] == 1 && o2[1] == 2 && o2[2] == 0;
    Triple(o2, 1, 2, 0);
  }

  /** The as-written permutation of the example is not a progression. */
  lemma BrokenProgression()
    ensures !Consecutive([2, 0, 1])
  {
    var t: seq<nat> := [2, 0, 1];
    assert t[1] != t[0] + 1;
  }

  /** The output (f, y) expands to (a, c, y), where a and c sit at
      positions 0 and 1. */
  lemma TransposeExampleExpansion(a: string, c: string, y: string, f: string)
    requires a != c && a != y && c != y && f != a && f != c && f != y
    ensures Substituted([f, y], f, [a, c]) == [a, c, y]
    ensures GroupPositions([a, c], [a, c, y]) == [0, 1]
    ensures FindAll([a, c], [a, c, y]) && FindAll([a, c], [y, a, c])
  {
    var L, lc := [f, y], [a, c, y];
    assert L[..0] == [] && L[1..] == [y];
    SubstitutedSingle(L, f, [a, c], 0);
    assert IndexOf(lc, a) == 0 && IndexOf(lc, c) == 1;
    assert a in [y, a, c] && c in [y, a, c];
  }

  /** With four different names the fold is on the left; the output expands
      to (a, c, y) and the input (y, a, c) is in another order, so a
      transpose is needed. */
  lemma TransposeExampleLayout(C: string, A: string, a: string, c: string, y: string, f: string)
    requires a != c && a != y && c != y && f != a && f != c && f != y
    ensures Analyze(TransposeStatement(C, A, a, c, y, f)) ==
              Ok(FoldLayout(FoldOnLhs, [a, c, y], [y, a, c], [0, 1], [2], true))
  {
    TransposeExampleExpansion(a, c, y, f);
    assert f in [f, y] && f !in [y, a, c];
    SmallComplements();
    TransposeExampleOrderings(a, c, y);
    BrokenProgression();
  }

  /** A left-hand-side fold that transposes: the transpose into the
      temporary, then the reshape out of it. */
  lemma AssembleLhsTransposed(ri: ReshapeInfo, lay: FoldLayout, rhsBlock: seq<nat>, perm: seq<nat>, n: nat)
    requires lay.side == FoldOnLhs && lay.transpose
    requires GetReshapeMap(lay.toReshape, lay.notToReshape).Ok?
    ensures Assemble(ri, lay, rhsBlock, perm, n) ==
              Ok([TransposeStep(TransposeInfo(TmpName(n), ri.rhs, perm)),
                  ReshapeStep(TmpName(n), ri.lhs, GetReshapeMap(lay.toReshape, lay.notToReshape).value)])
  {
  }

  /** A right-hand-side fold without a transpose is one reshape straight
      into the output. */
  lemma AssembleRhsPlain(ri: ReshapeInfo, lay: FoldLayout, rhsBlock: seq<nat>, perm: seq<nat>, n: nat)
    requires lay.side == FoldOnRhs && !lay.transpose
    requires GetReshapeMap(rhsBlock, Unreshaped(|lay.rhsExpanded|, rhsBlock)).Ok?
    ensures Assemble(ri, lay, rhsBlock, perm, n) ==
              Ok([ReshapeStep(ri.rhs, ri.lhs, GetReshapeMap(rhsBlock, Unreshaped(|lay.rhsExpanded|, rhsBlock)).value)])
  {
  }

  /** How the transpose recognizer reads the two candidate permutations on
      the input (y, a, c). */
  lemma ExampleReadings(a: string, c: string, y: string)
    ensures Reordered([y, a, c], [2, 0, 1]) == [c, y, a]
    ensures Reordered([y, a, c], [1, 2, 0]) == [a, c, y]
  {
    var src := [y, a, c];
    var r1, r2 := Reordered(src, [2, 0, 1]), Reordered(src, [1, 2, 0]);
    assert r1[0] == c && r1[1] == y && r1[2] == a;
    assert r2[0] == a && r2[1] == c && r2[2] == y;
  }

  /** The input is transposed into (a, c, y) before the fold. As written the
      permutation is (2, 0, 1), which read as the transpose recognizer reads
      permutations gives (c, y, a), not (a, c, y). */
  lemma TransposeOrderingCounterexample(C: string, A: string, a: string, c: string, y: string, f: string, n: nat)
    requires a != c && a != y && c != y && f != a && f != c && f != y
    ensures Reordered([y, a, c], [2, 0, 1]) != [a, c, y]
    ensures PlanReshapeAsWritten(TransposeStatement(C, A, a, c, y, f), n) ==
              Ok([TransposeStep(TransposeInfo(TmpName(n), A, [2, 0, 1])),
                  ReshapeStep(TmpName(n), C, ReshapeMap([0, 1], [2], true))])
  {
    var ri := TransposeStatement(C, A, a, c, y, f);
    var lay := FoldLayout(FoldOnLhs, [a, c, y], [y, a, c], [0, 1], [2], true);
    TransposeExampleLayout(C, A, a, c, y, f);
    PlanOfLayout(ri, n, lay);
    TransposeExampleOrderings(a, c, y);
    ExampleReadings(a, c, y);
    assert [c, y, a][0] != [a, c, y][0];
    assert GetReshapeMap([0, 1], [2]) == Ok(ReshapeMap([0, 1], [2], true));
    AssembleLhsTransposed(ri, lay, RhsFoldBlockAsWritten(ri), [2, 0, 1], n);
  }

  /** With the intended permutation (1, 2, 0) the input is read as (a, c, y). */
  lemma TransposeOrderingExample(C: string, A: string, a: string, c: string, y: string, f: string, n: nat)
    requires a != c && a != y && c != y && f != a && f != c && f != y
    ensures Reordered([y, a, c], [1, 2, 0]) == [a, c, y]
    ensures PlanReshape(TransposeStatement(C, A, a, c, y, f), n) ==
              Ok([TransposeStep(TransposeInfo(TmpName(n), A, [1, 2, 0])),
                  ReshapeStep(TmpName(n), C, ReshapeMap([0, 1], [2], true))])
  {
    var ri := TransposeStatement(C, A, a, c, y, f);
    var lay := FoldLayout(FoldOnLhs, [a, c, y], [y, a, c], [0, 1], [2], true);
    TransposeExampleLayout(C, A, a, c, y, f);
    PlanOfLayout(ri, n, lay);
    TransposeExampleOrderings(a, c, y);
    ExampleReadings(a, c, y);
    assert GetReshapeMap([0, 1], [2]) == Ok(ReshapeMap([0, 1], [2], true));
    AssembleLhsTransposed(ri, lay, RhsFoldBlock(ri), [1, 2, 0], n);
  }
}
