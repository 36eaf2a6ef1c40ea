/**
 * The emitter of one statement: it tries the recognizers in priority order
 * (matmul, matvec, reshape, transpose, convolution) and appends the builder
 * steps of the first that matches; a statement no recognizer accepts is an
 * error. Temporaries come from a symbol table shared by all emitters.
 */
module Emitter {
  import opened Wrappers
  import opened Tree
  import opened Records
  import opened IndexAlgebra
  import opened SymbolTable
  import opened Recognizers
  import opened ReshapePlan
  import opened Seqs
  import opened Matchers

  /** The steps emitted for statement `c` with the temporary counter at `n`,
      or the error that aborts it. */
  function Lower(c: Comprehension, n: nat): (r: Result<seq<Step>, ErrorKind>)
    ensures r.Ok? ==> |r.value| == 1 + Drawn(c)
  {
    match MatchMatMul(c)
    case Err(e) => Err(e)
    case Ok(Some(mm)) => Ok([MatMulStep(mm)])
    case Ok(None) =>
      match MatchMatVec(c)
      case Some(mv) => Ok([MatVecStep(mv)])
      case None =>
        match MatchReshape(c)
        case Err(e) => Err(e)
        case Ok(Some(ri)) => PlanReshape(ri, n)
        case Ok(None) =>
          match MatchTranspose(c)
          case Err(e) => Err(e)
          case Ok(Some(tr)) => Ok([TransposeStep(tr)])
          case Ok(None) =>
            match MatchConv(c)
            case Err(e) => Err(e)
            case Ok(Some(cv)) => Ok([ConvStep(cv)])
            case Ok(None) => Err(UnknownBuilder)
  }

  /** The temporaries drawn while emitting `c`: only a reshape draws any,
      and at most one. */
  function Drawn(c: Comprehension): (r: nat)
    ensures r <= 1
    ensures r == 1 ==>
              && MatchMatMul(c) == Ok(None) && MatchMatVec(c).None?
              && MatchReshape(c).Ok? && MatchReshape(c).value.Some?
  {
    if MatchMatMul(c) != Ok(None) || MatchMatVec(c).Some? then 0
    else match MatchReshape(c)
      case Ok(Some(ri)) => TempsUsed(ri)
      case _ => 0
  }

  /** `now` is `before` extended by the steps of `r`, or unchanged with the
      error of `r` reported. */
  predicate Emits(r: Result<seq<Step>, ErrorKind>, err: Option<ErrorKind>, now: seq<Step>, before: seq<Step>)
  {
    && (r.Ok? ==> err == None && now == before + r.value)
    && (r.Err? ==> err == Some(r.error) && now == before)
  }

  /** "Unknown builder" is reported exactly when every recognizer declines:
      no recognizer error and no reshape plan error is ever reported as it. */
  lemma LowerUnknownIffNoneMatch(c: Comprehension, n: nat)
    ensures Lower(c, n) == Err(UnknownBuilder) <==>
              && MatchMatMul(c) == Ok(None) && MatchMatVec(c).None?
              && MatchReshape(c) == Ok(None) && MatchTranspose(c) == Ok(None)
              && MatchConv(c) == Ok(None)
  {
  }

  /** A statement the reshape recognizer takes is never also a transpose:
      the one needs different index counts on the two sides, the other
      equal ones. */
  lemma ReshapeExcludesTranspose(c: Comprehension)
    requires MatchReshape(c).Ok? && MatchReshape(c).value.Some?
    ensures MatchTranspose(c) == Ok(None)
  {
    var ri := MatchReshape(c).value.value;
    assert |ri.rhsIndexes| == |c.rhs.args|;
  }

  /** A canonical matrix-matrix product lowers to one matmul step in its
      orientation, although the convolution heuristic, tried last, would take
      it too; more than one fold clause aborts instead. */
  lemma LowerMatMulStatement(C: string, A: string, B: string, i: string, j: string, k: string,
                             ta: Trans, tb: Trans, wheres: seq<FoldClause>, n: nat)
    requires i != j && j != k && i != k
    requires i != Unassigned && j != Unassigned && k != Unassigned
    requires C != A && C != B
    ensures var c := MatMulStatement(C, A, B, i, j, k, ta, tb, wheres);
            && MatchConv(c) == Ok(Some(ConvInfo(C, A, B)))
            && Drawn(c) == 0
            && Lower(c, n) ==
                 if |wheres| > 1 then Err(MultipleWhereClauses)
                 else Ok([MatMulStep(MatMulInfo(C, A, B, i, j, k, ta, tb, "1", "1",
                                                Folded(wheres, i), Folded(wheres, j), Folded(wheres, k)))])
  {
    MatMulOrientation(C, A, B, i, j, k, ta, tb, wheres);
  }

  /** A canonical matrix-vector product, with or without a scalar factor,
      lowers to one matvec step; it draws no temporary. */
  lemma LowerMatVecStatement(x: string, A: string, y: string, i: string, j: string, ta: Trans,
                             scalar: Option<Expr>, wheres: seq<FoldClause>, n: nat)
    requires i != j && i != Unassigned && j != Unassigned
    requires x != A && x != y
    ensures var c := MatVecStatement(x, A, y, i, j, ta, scalar, wheres);
            && Drawn(c) == 0
            && Lower(c, n) == Ok([MatVecStep(MatVecInfo(x, A, y, ta, if scalar.Some? then "alpha" else "1", "1"))])
  {
    MatVecOrientation(x, A, y, i, j, ta, scalar, wheres);
  }

  /** `out(idx) = inp(src)` with distinct input indices, the output indices
      a rearrangement of them, lowers to one transpose step whose permutation
      rearranges the input indices into the output indices. */
  lemma LowerTransposeStatement(out: string, inp: string, idx: seq<string>, src: seq<string>, n: nat)
    requires Distinct(src) && |idx| == |src|
    requires forall q :: 0 <= q < |idx| ==> idx[q] in src
    ensures var c := Comprehension(out, idx, Overwrite, Apply(inp, Idents(src)), []);
            && Lower(c, n) == Ok([TransposeStep(TransposeInfo(out, inp, Ordering(src, idx)))])
            && |Ordering(src, idx)| == |src|
            && Reordered(src, Ordering(src, idx)) == idx
  {
    var c := Comprehension(out, idx, Overwrite, Apply(inp, Idents(src)), []);
    TransposeStatementMatches(out, inp, idx, src);
    assert MatchMatMul(c) == Ok(None) && MatchMatVec(c).None?;
    ReorderRoundTrip(src, idx);
  }

  /** `out(idx) = inp(src) where ...` with different index counts lowers to
      the reshape plan of its record, and draws what that plan draws. */
  lemma LowerReshapeStatement(out: string, inp: string, idx: seq<string>, src: seq<string>,
                              wheres: seq<FoldClause>, n: nat)
    requires |idx| != |src|
    requires forall i :: 0 <= i < |wheres| ==> |IdentsOf(wheres[i].rhs)| >= 2
    ensures var c := Comprehension(out, idx, Overwrite, Apply(inp, Idents(src)), wheres);
            var ri := ReshapeInfo(out, inp, idx, src, NewVars(wheres), ClauseNames(wheres));
            && Lower(c, n) == PlanReshape(ri, n)
            && Drawn(c) == TempsUsed(ri)
  {
    var c := Comprehension(out, idx, Overwrite, Apply(inp, Idents(src)), wheres);
    var ri := ReshapeInfo(out, inp, idx, src, NewVars(wheres), ClauseNames(wheres));
    ReshapeStatementMatches(out, inp, idx, src, wheres);
    OverwriteDeclinesProducts(c);
    LowerOfReshape(c, ri, n);
  }

  /** Once the product recognizers decline, a recognized reshape is lowered
      by its plan. */
  lemma LowerOfReshape(c: Comprehension, ri: ReshapeInfo, n: nat)
    requires MatchMatMul(c) == Ok(None) && MatchMatVec(c).None?
    requires MatchReshape(c) == Ok(Some(ri))
    ensures Lower(c, n) == PlanReshape(ri, n)
    ensures Drawn(c) == TempsUsed(ri)
  {
  }

  /** `C(a, c, x, y) = A(f, x, y) where f = a * c` lowers to the plan of the
      right-hand-side fold record the worked examples use. */
  lemma LowerRhsFoldStatement(C: string, A: string, a: string, c: string, x: string, y: string, f: string, n: nat)
    ensures var st := Comprehension(C, [a, c, x, y], Overwrite, Apply(A, Idents([f, x, y])), [FoldClause(f, ProductOf([a, c]))]);
            Lower(st, n) == PlanReshape(RhsFoldStatement(C, A, a, c, x, y, f), n)
  {
    var wheres := [FoldClause(f, ProductOf([a, c]))];
    IdentsOfProduct([a, c]);
    assert NewVars(wheres) == [f];
    assert ClauseNames(wheres) == [[a, c]];
    LowerReshapeStatement(C, A, [a, c, x, y], [f, x, y], wheres, n);
  }

  /** `C(f, y) = A(y, a, c) where f = a * c` lowers to the plan of the
      transposing left-hand-side fold record the worked examples use. */
  lemma LowerTransposeFoldStatement(C: string, A: string, a: string, c: string, y: string, f: string, n: nat)
    ensures var st := Comprehension(C, [f, y], Overwrite, Apply(A, Idents([y, a, c])), [FoldClause(f, ProductOf([a, c]))]);
            Lower(st, n) == PlanReshape(TransposeStatement(C, A, a, c, y, f), n)
  {
    var wheres := [FoldClause(f, ProductOf([a, c]))];
    IdentsOfProduct([a, c]);
    assert NewVars(wheres) == [f];
    assert ClauseNames(wheres) == [[a, c]];
    LowerReshapeStatement(C, A, [f, y], [y, a, c], wheres, n);
  }

  /** `out(i, j) += f(..) + img(..)` is taken by the convolution heuristic
      alone, once every other recognizer has declined it. */
  lemma LowerConvStatement(out: string, f: string, fArgs: seq<Expr>, img: string, imgArgs: seq<Expr>,
                           i: string, j: string, wheres: seq<FoldClause>, n: nat)
    ensures var c := Comprehension(out, [i, j], Accumulate, Add(Apply(f, fArgs), Apply(img, imgArgs)), wheres);
            Lower(c, n) == Ok([ConvStep(ConvInfo(out, f, img))])
  {
    var c := Comprehension(out, [i, j], Accumulate, Add(Apply(f, fArgs), Apply(img, imgArgs)), wheres);
    MatMulDeclinesNonProduct(c);
  }

  /** The derivations of the single-clause reshape emitter, step by step:
      the side checks, the substitution, the constituent positions, the
      complement and the transpose decision. */
  method AnalyzeFold(ri: ReshapeInfo) returns (res: Result<FoldLayout, ErrorKind>)
    requires |ri.newVar| == 1 && |ri.oldVars| == 1
    ensures res == Analyze(ri)
  {
    var f, olds := ri.newVar[0], ri.oldVars[0];
    var onLhs, onRhs := f in ri.lhsIndexes, f in ri.rhsIndexes;
    if onLhs == onRhs {
      return Err(FoldNotOnOneSide);
    }
    if onRhs && !FindAll(olds, ri.lhsIndexes) {
      return Err(FoldNamesOnWrongSide);
    }
    if onLhs && !FindAll(olds, ri.rhsIndexes) {
      return Err(FoldNamesOnWrongSide);
    }
    var lc, rc := ri.lhsIndexes, ri.rhsIndexes;
    if onLhs {
      lc := Substitute(lc, f, olds);
    } else {
      rc := Substitute(rc, f, olds);
    }
    var found := FoldPositions(olds, lc);
    if found.None? {
      return Err(FoldNamesLost);
    }
    var toReshape := found.value;
    if |lc| != |rc| {
      return Err(IndexCountMismatch);
    }
    var notToReshape := NotToReshape(|lc|, toReshape);
    var ordering := GetOrdering(lc, rc);
    var consecutive := IsConsecutive(ordering);
    res := Ok(FoldLayout(if onLhs then FoldOnLhs else FoldOnRhs, lc, rc, toReshape, notToReshape, !consecutive));
  }

  /** The position of each constituent in the expanded output, looked up
      one at a time; none when a constituent is missing. */
  method FoldPositions(olds: seq<string>, lc: seq<string>) returns (res: Option<seq<nat>>)
    ensures res.Some? <==> FindAll(olds, lc)
    ensures res.Some? ==> res.value == GroupPositions(olds, lc)
  {
    var toReshape: seq<nat> := [];
    for q := 0 to |olds|
      invariant |toReshape| == q
      invariant forall p :: 0 <= p < q ==> olds[p] in lc && toReshape[p] == IndexOf(lc, olds[p])
    {
      var pos := IndexOf(lc, olds[q]);
      if pos == |lc| {
        return None;
      }
      toReshape := toReshape + [pos];
    }
    return Some(toReshape);
  }

  /** `len` consecutive positions from `start`, built by appending. */
  method MakeBlock(start: nat, len: nat) returns (block: seq<nat>)
    ensures block == Block(start, len)
  {
    block := [];
    for q := 0 to len
      invariant block == Block(start, q)
    {
      block := block + [start + q];
    }
  }

  /** The emitter of one statement, with the builder steps emitted so far
      and the symbol table it draws temporaries from. */
  class Emitter {
    const comprehension: Comprehension
    const symbols: SymbolTableMap
    var emitted: seq<Step>

    constructor (c: Comprehension, table: SymbolTableMap)
      ensures comprehension == c && symbols == table && emitted == []
    {
      comprehension := c;
      symbols := table;
      emitted := [];
    }

    /** The reshape emitter: two fold clauses give one grouped reshape; one
        fold clause gives a reshape, with a transpose through a fresh
        temporary when the expanded index lists are in different orders. */
    method EmitReshape(ri: ReshapeInfo) returns (err: Option<ErrorKind>)
      requires |ri.newVar| == |ri.oldVars|
      requires symbols.Valid()
      modifies this, symbols
      ensures symbols.Valid()
      ensures symbols.nextId == old(symbols.nextId) + TempsUsed(ri)
      ensures Emits(PlanReshape(ri, old(symbols.nextId)), err, emitted, old(emitted))
    {
      var n := symbols.nextId;
      if |ri.newVar| == 2 {
        var groups := GetReshapeGroup(ri.newVar, ri.oldVars, ri.lhsIndexes, ri.rhsIndexes);
        if groups.Err? {
          return Some(groups.error);
        }
        emitted := emitted + [GroupedReshapeStep(ri.rhs, ri.lhs, groups.value)];
        return None;
      }
      if |ri.newVar| != 1 {
        return Some(UnsupportedWhereCount);
      }
      var layout := AnalyzeFold(ri);
      if layout.Err? {
        return Some(layout.error);
      }
      var lay := layout.value;
      PlanOfLayout(ri, n, lay);
      if lay.side == FoldOnRhs {
        err := EmitFoldOnRhs(ri, lay);
      } else {
        assert Assemble(ri, lay, RhsFoldBlock(ri), TransposeOrdering(lay), n) ==
               Assemble(ri, lay, [], TransposeOrdering(lay), n);
        err := EmitFoldOnLhs(ri, lay);
      }
    }

    /** A fold named on the right-hand side: the input is reshaped, into a
        fresh temporary when a transpose must follow, and the temporary is
        then transposed into the output. */
    method EmitFoldOnRhs(ri: ReshapeInfo, lay: FoldLayout) returns (err: Option<ErrorKind>)
      requires |ri.newVar| == 1 && |ri.oldVars| == 1 && lay.side == FoldOnRhs
      requires |lay.rhsExpanded| == |lay.lhsExpanded|
      requires symbols.Valid()
      modifies this, symbols
      ensures symbols.Valid()
      ensures symbols.nextId == old(symbols.nextId) + (if lay.transpose then 1 else 0)
      ensures Emits(Assemble(ri, lay, RhsFoldBlock(ri), TransposeOrdering(lay), old(symbols.nextId)),
                    err, emitted, old(emitted))
    {
      var block := MakeBlock(IndexOf(ri.rhsIndexes, ri.newVar[0]), |ri.oldVars[0]|);
      var rest := NotToReshape(|lay.rhsExpanded|, block);
      var dest := ri.lhs;
      if lay.transpose {
        dest := symbols.GetNextVariable();
      }
      var m := GetReshapeMap(block, rest);
      if m.Err? {
        return Some(m.error);
      }
      var steps := [ReshapeStep(ri.rhs, dest, m.value)];
      if lay.transpose {
        var perm := GetOrdering(lay.rhsExpanded, lay.lhsExpanded);
        var last := symbols.GetLastEmittedVariable();
        steps := steps + [TransposeStep(TransposeInfo(ri.lhs, last, perm))];
      }
      emitted := emitted + steps;
      return None;
    }

    /** A fold named on the left-hand side: when a transpose is needed the
        input is first transposed into a fresh temporary, which is then
        reshaped into the output. */
    method EmitFoldOnLhs(ri: ReshapeInfo, lay: FoldLayout) returns (err: Option<ErrorKind>)
      requires lay.side == FoldOnLhs
      requires |lay.rhsExpanded| == |lay.lhsExpanded|
      requires symbols.Valid()
      modifies this, symbols
      ensures symbols.Valid()
      ensures symbols.nextId == old(symbols.nextId) + (if lay.transpose then 1 else 0)
      ensures Emits(Assemble(ri, lay, [], TransposeOrdering(lay), old(symbols.nextId)), err, emitted, old(emitted))
    {
      var src := ri.rhs;
      var steps := [];
      if lay.transpose {
        var tmp := symbols.GetNextVariable();
        var perm := GetOrdering(lay.rhsExpanded, lay.lhsExpanded);
        steps := [TransposeStep(TransposeInfo(tmp, ri.rhs, perm))];
        src := symbols.GetLastEmittedVariable();
      }
      var m := GetReshapeMap(lay.toReshape, lay.notToReshape);
      if m.Err? {
        return Some(m.error);
      }
      steps := steps + [ReshapeStep(src, ri.lhs, m.value)];
      emitted := emitted + steps;
      return None;
    }

    /** Tries the recognizers in priority order and emits the steps of the
        first that matches; reports "unknown builder" when none does. */
    method EmitHow() returns (err: Option<ErrorKind>)
      requires symbols.Valid()
      modifies this, symbols
      ensures symbols.Valid()
      ensures symbols.nextId == old(symbols.nextId) + Drawn(comprehension)
      ensures Emits(Lower(comprehension, old(symbols.nextId)), err, emitted, old(emitted))
    {
      var c := comprehension;
      var mm := MatchMatMul(c);
      if mm.Err? {
        return Some(mm.error);
      }
      if mm.value.Some? {
        emitted := emitted + [MatMulStep(mm.value.value)];
        return None;
      }
      var mv := MatchMatVec(c);
      if mv.Some? {
        emitted := emitted + [MatVecStep(mv.value)];
        return None;
      }
      var rs := MatchReshape(c);
      if rs.Err? {
        return Some(rs.error);
      }
      if rs.value.Some? {
        err := EmitReshape(rs.value.value);
        return;
      }
      var tr := MatchTranspose(c);
      if tr.Err? {
        return Some(tr.error);
      }
      if tr.value.Some? {
        emitted := emitted + [TransposeStep(tr.value.value)];
        return None;
      }
      var cv := MatchConv(c);
      if cv.Err? {
        return Some(cv.error);
      }
      if cv.value.Some? {
        emitted := emitted + [ConvStep(cv.value.value)];
        return None;
      }
      return Some(UnknownBuilder);
    }
  }
}
