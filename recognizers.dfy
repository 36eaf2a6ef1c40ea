/**
 * The canonical-form recognizers. Each shape recognizer opens a fresh binding
 * context, registers its placeholders in construction order, matches the
 * right-hand side against a fixed pattern and then checks the output array
 * and indices against the bindings.
 */
module Recognizers {
  import opened Wrappers
  import opened Tree
  import opened Matchers
  import opened Records
  import opened IndexAlgebra

  // Placeholder ids of a matmul shape, in construction order (_A, _B, _i, _j, _k).
  const IdA: nat := 0
  const IdB: nat := 1
  const IdI: nat := 2
  const IdJ: nat := 3
  const IdK: nat := 4

  // Placeholder ids of a matvec shape, in construction order (_y, _A, _i, _j).
  const VecY: nat := 0
  const VecA: nat := 1
  const VecI: nat := 2
  const VecJ: nat := 3

  /** The fold variable used when there is no where clause. */
  const NoLetVar: string := "nullptr"

  const Free := AssignedMatch(Unassigned)

  /** The fresh context of a matmul shape recognizer: its five placeholders,
      none bound. */
  function MatMulContext(): Bindings
  {
    map[IdA := Free, IdB := Free, IdI := Free, IdJ := Free, IdK := Free]
  }

  /** The fresh context of a matvec shape recognizer. */
  function MatVecContext(): Bindings
  {
    map[VecY := Free, VecA := Free, VecI := Free, VecJ := Free]
  }

  /** The fresh matmul context is what registering its placeholders in
      construction order into an empty context gives. */
  lemma MatMulContextRegistered()
    ensures MatMulContext() == RegisterAll(map[], [IdA, IdB, IdI, IdJ, IdK])
  {
    var ids := [IdA, IdB, IdI, IdJ, IdK];
    var r := RegisterAll(map[], ids);
    assert r.Keys == MatMulContext().Keys by {
      assert forall q :: q in r <==> q in ids;
    }
    forall k | k in r
      ensures r[k] == MatMulContext()[k]
    {
    }
  }

  /** The fresh matvec context is what registering its placeholders in
      construction order into an empty context gives. */
  lemma MatVecContextRegistered()
    ensures MatVecContext() == RegisterAll(map[], [VecY, VecA, VecI, VecJ])
  {
    var ids := [VecY, VecA, VecI, VecJ];
    var r := RegisterAll(map[], ids);
    assert r.Keys == MatVecContext().Keys by {
      assert forall q :: q in r <==> q in ids;
    }
    forall k | k in r
      ensures r[k] == MatVecContext()[k]
    {
    }
  }

  /** The product of two accesses, optionally behind a leading wildcard factor. */
  function ProductPattern(a: ArrayPattern, b: ArrayPattern, withAlpha: bool): (p: Pattern)
    ensures PatternIds(p) == ArrayIds(a) + ArrayIds(b)
    ensures WellFormed(p) <==> |a.indices| > 0 && |b.indices| > 0
    ensures !withAlpha ==> p == MMul(Access(a), Access(b))
    ensures withAlpha ==> p == MMul(AnyValue, MMul(Access(a), Access(b)))
  {
    var product := MMul(Access(a), Access(b));
    assert PatternIds(product) == ArrayIds(a) + ArrayIds(b);
    assert WellFormed(product) == (|a.indices| > 0 && |b.indices| > 0);
    if withAlpha then
      var p := MMul(AnyValue, product);
      assert PatternIds(p) == PatternIds(AnyValue) + PatternIds(product);
      assert WellFormed(p) == (WellFormed(AnyValue) && WellFormed(product));
      p
    else product
  }

  /** What a matmul shape recognizer fills in. */
  datatype MatMulShapeMatch = MatMulShapeMatch(
    C: string, A: string, B: string, m: string, n: string, k: string,
    alpha: string, beta: string)

  /** A shape result that, when present, names the statement's output,
      distinct from both inputs, has the statement's two output indices as
      m and n, and a unit beta. */
  predicate Fits(c: Comprehension, x: Option<MatMulShapeMatch>)
  {
    x.Some? ==>
      var s := x.value;
      s.C == c.ident && s.C != s.A && s.C != s.B && c.indices == [s.m, s.n] && s.beta == "1"
  }

  predicate IsMatMulIndexId(q: nat) { q == IdI || q == IdJ || q == IdK }

  /** One matmul shape: `A[aIdx] * B[bIdx]` (behind a wildcard when
      `withAlpha`), then C distinct from A and B, two output indices, and
      those equal to the names bound to i and j. */
  function MatMulShape(c: Comprehension, aIdx: seq<nat>, bIdx: seq<nat>, withAlpha: bool): (r: Option<MatMulShapeMatch>)
    requires |aIdx| == 2 && |bIdx| == 2
    requires IsMatMulIndexId(aIdx[0]) && IsMatMulIndexId(aIdx[1])
    requires IsMatMulIndexId(bIdx[0]) && IsMatMulIndexId(bIdx[1])
    ensures Fits(c, r)
    ensures r.Some? ==> r.value.alpha == (if withAlpha then "alpha" else "1")
  {
    var pattern := ProductPattern(ArrayPattern(IdA, aIdx), ArrayPattern(IdB, bIdx), withAlpha);
    assert PatternIds(pattern) <= MatMulContext().Keys by {
      assert MatMulContext().Keys == {IdA, IdB, IdI, IdJ, IdK};
      assert ArrayIds(ArrayPattern(IdA, aIdx)) == {IdA, aIdx[0], aIdx[1]};
      assert ArrayIds(ArrayPattern(IdB, bIdx)) == {IdB, bIdx[0], bIdx[1]};
    }
    var u := Match(pattern, c.rhs, MatMulContext());
    if !u.ok then None
    else
      var b := u.bindings;
      ReadMatMul(c, b[IdA].value, b[IdB].value, b[IdI].value, b[IdJ].value, b[IdK].value, withAlpha)
  }

  /** Every matmul shape needs a product at the root (behind the scalar's
      product when it has one), so none matches any other root. */
  lemma MatMulShapeNeedsProduct(c: Comprehension, aIdx: seq<nat>, bIdx: seq<nat>, withAlpha: bool)
    requires |aIdx| == 2 && |bIdx| == 2
    requires IsMatMulIndexId(aIdx[0]) && IsMatMulIndexId(aIdx[1])
    requires IsMatMulIndexId(bIdx[0]) && IsMatMulIndexId(bIdx[1])
    requires !c.rhs.Mul?
    ensures MatMulShape(c, aIdx, bIdx, withAlpha).None?
  {
    var pa, pb := ArrayPattern(IdA, aIdx), ArrayPattern(IdB, bIdx);
    var m0 := MatMulContext();
    assert ArrayIds(pa) <= m0.Keys && ArrayIds(pb) <= m0.Keys by {
      assert m0.Keys == {IdA, IdB, IdI, IdJ, IdK};
      assert ArrayIds(pa) == {IdA, aIdx[0], aIdx[1]};
      assert ArrayIds(pb) == {IdB, bIdx[0], bIdx[1]};
    }
    var product := ProductPattern(pa, pb, false);
    if withAlpha {
      assert ProductPattern(pa, pb, true) == Binary(MulOp, AnyValue, product);
      BinaryMatchShape(MulOp, AnyValue, product, c.rhs, m0);
    } else {
      assert product == Binary(MulOp, Access(pa), Access(pb));
      BinaryMatchShape(MulOp, Access(pa), Access(pb), c.rhs, m0);
    }
  }

  /** The matmul recognizer declines a statement whose right-hand side is
      not a product. */
  lemma MatMulDeclinesNonProduct(c: Comprehension)
    requires !c.rhs.Mul?
    ensures MatchMatMul(c) == Ok(None)
  {
    MatMulShapeNeedsProduct(c, [IdI, IdK], [IdK, IdJ], false);
    MatMulShapeNeedsProduct(c, [IdI, IdK], [IdK, IdJ], true);
    MatMulShapeNeedsProduct(c, [IdK, IdI], [IdK, IdJ], false);
    MatMulShapeNeedsProduct(c, [IdI, IdK], [IdJ, IdK], false);
    MatMulShapeNeedsProduct(c, [IdK, IdI], [IdJ, IdK], false);
  }

  /** The checks a matmul shape makes after its pattern matched, on the
      names bound to A, B, i, j and k. */
  function ReadMatMul(c: Comprehension, A: string, B: string, m: string, n: string, k: string,
                      withAlpha: bool): (r: Option<MatMulShapeMatch>)
    ensures r.Some? <==> c.ident != A && c.ident != B && c.indices == [m, n]
    ensures r.Some? ==> r.value == MatMulShapeMatch(c.ident, A, B, m, n, k,
                                                    if withAlpha then "alpha" else "1", "1")
  {
    if c.ident == A || c.ident == B then None
    else if |c.indices| != 2 then None
    else if c.indices[0] != m || c.indices[1] != n then None
    else Some(MatMulShapeMatch(c.ident, A, B, m, n, k, if withAlpha then "alpha" else "1", "1"))
  }

  function IsNN(c: Comprehension): Option<MatMulShapeMatch> { MatMulShape(c, [IdI, IdK], [IdK, IdJ], false) }
  function IsNNWithAlpha(c: Comprehension): Option<MatMulShapeMatch> { MatMulShape(c, [IdI, IdK], [IdK, IdJ], true) }
  function IsTN(c: Comprehension): Option<MatMulShapeMatch> { MatMulShape(c, [IdK, IdI], [IdK, IdJ], false) }
  function IsNT(c: Comprehension): Option<MatMulShapeMatch> { MatMulShape(c, [IdI, IdK], [IdJ, IdK], false) }
  function IsTT(c: Comprehension): Option<MatMulShapeMatch> { MatMulShape(c, [IdK, IdI], [IdJ, IdK], false) }

  /** The number of physical dimensions folded into the axis `axis`. */
  function FoldCount(letVar: string, letSize: int, axis: string): int
  {
    if letVar == axis then letSize - 1 else 1
  }

  /** The matmul recognizer: `+=`, two output indices, then every shape is
      tried (NN, or else NN behind a scalar; then TN, NT and TT, each
      regardless of the others). The transpose flags collect the shapes that
      matched; the names come from the last shape that matched. A matched
      statement with more than one where clause is an error; one clause sets
      the fold count of the axis it names to its number of identifiers. */
  function MatchMatMul(c: Comprehension): (r: Result<Option<MatMulInfo>, ErrorKind>)
    ensures r.Ok? && r.value.Some? ==>
              var mm := r.value.value;
              && c.assign == Accumulate && |c.indices| == 2 && |c.wheres| <= 1
              && mm.C == c.ident && mm.C != mm.A && mm.C != mm.B
              && c.indices == [mm.m, mm.n] && mm.beta == "1"
    ensures r.Err? ==> r.error == MultipleWhereClauses && |c.wheres| > 1
  {
    if c.assign != Accumulate then Ok(None)
    else if |c.indices| != 2 then Ok(None)
    else
      var nn := IsNN(c);
      var first := if nn.Some? then nn else IsNNWithAlpha(c);
      CombineShapes(c, first, IsTN(c), IsNT(c), IsTT(c))
  }

  /** How the matmul recognizer combines its shape results: no match when
      none matched; an error for more than one where clause; otherwise the
      transpose flags of every shape that matched and the names of the last. */
  function CombineShapes(c: Comprehension, first: Option<MatMulShapeMatch>, tn: Option<MatMulShapeMatch>,
                         nt: Option<MatMulShapeMatch>, tt: Option<MatMulShapeMatch>): (r: Result<Option<MatMulInfo>, ErrorKind>)
    ensures r.Ok? && r.value.None? <==> first.None? && tn.None? && nt.None? && tt.None?
    ensures r.Err? <==> (first.Some? || tn.Some? || nt.Some? || tt.Some?) && |c.wheres| > 1
    ensures r.Err? ==> r.error == MultipleWhereClauses
    ensures r.Ok? && r.value.Some? ==>
              && r.value.value.transa == (if tn.Some? || tt.Some? then T else N)
              && r.value.value.transb == (if nt.Some? || tt.Some? then T else N)
    ensures r.Ok? && r.value.Some? && Fits(c, first) && Fits(c, tn) && Fits(c, nt) && Fits(c, tt) ==>
              var mm := r.value.value;
              mm.C == c.ident && mm.C != mm.A && mm.C != mm.B && c.indices == [mm.m, mm.n] && mm.beta == "1"
  {
    if first.None? && tn.None? && nt.None? && tt.None? then Ok(None)
    else if |c.wheres| > 1 then Err(MultipleWhereClauses)
    else
      var last := if tt.Some? then tt.value else if nt.Some? then nt.value
                  else if tn.Some? then tn.value else first.value;
      var letSize := if |c.wheres| == 1 then 1 + |IdentsOf(c.wheres[0].rhs)| else 1;
      var letVar := if |c.wheres| == 1 then c.wheres[0].newName else NoLetVar;
      Ok(Some(MatMulInfo(last.C, last.A, last.B, last.m, last.n, last.k,
                         if tn.Some? || tt.Some? then T else N,
                         if nt.Some? || tt.Some? then T else N,
                         last.alpha, last.beta,
                         FoldCount(letVar, letSize, last.m),
                         FoldCount(letVar, letSize, last.n),
                         FoldCount(letVar, letSize, last.k))))
  }

  /** One matvec shape: `A[aIdx] * y[j]` (behind a wildcard when `withAlpha`),
      x distinct from A and y, one output index equal to the name bound to i. */
  function MatVecShape(c: Comprehension, aIdx: seq<nat>, trans: Trans, withAlpha: bool): (r: Option<MatVecInfo>)
    requires |aIdx| == 2 && (aIdx[0] == VecI || aIdx[0] == VecJ) && (aIdx[1] == VecI || aIdx[1] == VecJ)
    ensures r.Some? ==> r.value.x == c.ident && r.value.x != r.value.A && r.value.x != r.value.y
    ensures r.Some? ==> |c.indices| == 1 && r.value.transa == trans
    ensures r.Some? ==> r.value.alpha == (if withAlpha then "alpha" else "1") && r.value.beta == "1"
  {
    var pattern := ProductPattern(ArrayPattern(VecA, aIdx), ArrayPattern(VecY, [VecJ]), withAlpha);
    assert PatternIds(pattern) <= MatVecContext().Keys by {
      assert MatVecContext().Keys == {VecY, VecA, VecI, VecJ};
      assert ArrayIds(ArrayPattern(VecA, aIdx)) == {VecA, aIdx[0], aIdx[1]};
      assert ArrayIds(ArrayPattern(VecY, [VecJ])) == {VecY, VecJ};
    }
    var u := Match(pattern, c.rhs, MatVecContext());
    if !u.ok then None
    else ReadMatVec(c, u.bindings[VecA].value, u.bindings[VecY].value, u.bindings[VecI].value, trans, withAlpha)
  }

  /** The checks a matvec shape makes after its pattern matched, on the names
      bound to A, y and i. */
  function ReadMatVec(c: Comprehension, A: string, y: string, m: string, trans: Trans, withAlpha: bool): (r: Option<MatVecInfo>)
    ensures r.Some? <==> c.ident != A && c.ident != y && c.indices == [m]
    ensures r.Some? ==> r.value == MatVecInfo(c.ident, A, y, trans, if withAlpha then "alpha" else "1", "1")
  {
    if c.ident == A || c.ident == y then None
    else if |c.indices| != 1 then None
    else if c.indices[0] != m then None
    else Some(MatVecInfo(c.ident, A, y, trans, if withAlpha then "alpha" else "1", "1"))
  }

  function IsN(c: Comprehension): Option<MatVecInfo> { MatVecShape(c, [VecI, VecJ], N, false) }
  function IsT(c: Comprehension): Option<MatVecInfo> { MatVecShape(c, [VecJ, VecI], T, false) }
  function IsNWithConstantAlpha(c: Comprehension): Option<MatVecInfo> { MatVecShape(c, [VecI, VecJ], N, true) }
  function IsTWithConstantAlpha(c: Comprehension): Option<MatVecInfo> { MatVecShape(c, [VecJ, VecI], T, true) }

  /** The matvec recognizer: `+=`, one output index, then the first of N, T,
      N behind a scalar and T behind a scalar that matches. */
  function MatchMatVec(c: Comprehension): (r: Option<MatVecInfo>)
    ensures r.Some? ==> c.assign == Accumulate && |c.indices| == 1
    ensures r.Some? ==> r.value.x == c.ident && r.value.x != r.value.A && r.value.x != r.value.y
    ensures r.Some? ==> r.value.beta == "1" && (r.value.alpha == "1" || r.value.alpha == "alpha")
  {
    if c.assign != Accumulate then None
    else if |c.indices| != 1 then None
    else
      var n := IsN(c);
      if n.Some? then n
      else
        var t := IsT(c);
        if t.Some? then t
        else
          var na := IsNWithConstantAlpha(c);
          if na.Some? then na else IsTWithConstantAlpha(c)
  }

  /** The identifier lists of the fold clauses, in clause order; a clause with
      fewer than two identifiers is an error. */
  function FoldClauses(ws: seq<FoldClause>): (r: Result<seq<seq<string>>, ErrorKind>)
    ensures r.Ok? ==> |r.value| == |ws|
    ensures r.Ok? ==> forall i :: 0 <= i < |ws| ==> r.value[i] == IdentsOf(ws[i].rhs) && |r.value[i]| >= 2
    ensures r.Err? <==> exists i :: 0 <= i < |ws| && |IdentsOf(ws[i].rhs)| < 2
    ensures r.Err? ==> r.error == WhereNeedsTwoNames
  {
    if ws == [] then Ok([])
    else
      var names := IdentsOf(ws[0].rhs);
      if |names| < 2 then Err(WhereNeedsTwoNames)
      else match FoldClauses(ws[1..])
        case Err(e) => (assert exists i :: 1 <= i < |ws| && |IdentsOf(ws[i].rhs)| < 2; Err(e))
        case Ok(rest) => Ok([names] + rest)
  }

  function NewVars(ws: seq<FoldClause>): (r: seq<string>)
    ensures |r| == |ws| && forall i :: 0 <= i < |ws| ==> r[i] == ws[i].newName
  {
    seq(|ws|, i requires 0 <= i < |ws| => ws[i].newName)
  }

  /** A plain assignment `=` is neither a matmul nor a matvec: both need `+=`. */
  lemma OverwriteDeclinesProducts(c: Comprehension)
    requires c.assign == Overwrite
    ensures MatchMatMul(c) == Ok(None) && MatchMatVec(c).None?
  {
  }

  /** The identifier lists of fold clauses that all name two or more. */
  function ClauseNames(ws: seq<FoldClause>): (r: seq<seq<string>>)
    ensures |r| == |ws| && forall i :: 0 <= i < |ws| ==> r[i] == IdentsOf(ws[i].rhs)
  {
    seq(|ws|, i requires 0 <= i < |ws| => IdentsOf(ws[i].rhs))
  }

  /** The reshape recognizer: `=`, exactly one application node in the
      right-hand side, which must be the right-hand side itself, and index
      counts that differ. Every fold clause must name at least two indices. */
  function MatchReshape(c: Comprehension): (r: Result<Option<ReshapeInfo>, ErrorKind>)
    ensures r.Ok? && r.value.Some? ==>
              var ri := r.value.value;
              && c.assign == Overwrite && c.rhs.Apply? && CountApply(c.rhs) == 1
              && ri.lhs == c.ident && ri.rhs == c.rhs.name
              && ri.lhsIndexes == c.indices && |ri.lhsIndexes| != |ri.rhsIndexes|
              && AllIdents(c.rhs.args) && ri.rhsIndexes == Names(c.rhs.args)
              && |ri.newVar| == |ri.oldVars| == |c.wheres|
              && forall i :: 0 <= i < |c.wheres| ==>
                   && ri.newVar[i] == c.wheres[i].newName
                   && ri.oldVars[i] == IdentsOf(c.wheres[i].rhs) && |ri.oldVars[i]| >= 2
    ensures r == Ok(None) <==>
              c.assign != Overwrite || CountApply(c.rhs) != 1 || (c.rhs.Apply? && |c.indices| == |c.rhs.args|)
    ensures r.Err? ==> c.assign == Overwrite && CountApply(c.rhs) == 1
    ensures r.Err? ==> r.error == NotAnApplication || r.error == WhereNeedsTwoNames
  {
    if c.assign != Overwrite then Ok(None)
    else if CountApply(c.rhs) != 1 then Ok(None)
    else if !c.rhs.Apply? then Err(NotAnApplication)
    else if |c.indices| == |c.rhs.args| then Ok(None)
    else if !AllIdents(c.rhs.args) then Err(NotAnApplication)
    else
      match FoldClauses(c.wheres)
      case Err(e) => Err(e)
      case Ok(oldVars) =>
        Ok(Some(ReshapeInfo(c.ident, c.rhs.name, c.indices, Names(c.rhs.args), NewVars(c.wheres), oldVars)))
  }

  /** The transpose recognizer: `=`, one application node which is the
      right-hand side, equal index counts, no where clause, and every output
      index among the input indices. The permutation lists, per output
      position, the input positions holding that name. */
  function MatchTranspose(c: Comprehension): (r: Result<Option<TransposeInfo>, ErrorKind>)
    ensures r.Ok? && r.value.Some? ==>
              && c.assign == Overwrite && c.rhs.Apply? && AllIdents(c.rhs.args)
              && |c.wheres| == 0 && |c.indices| == |c.rhs.args|
              && FindAll(c.indices, Names(c.rhs.args))
              && r.value.value.lhs == c.ident && r.value.value.rhs == c.rhs.name
    ensures r.Err? ==> r.error == NotAnApplication
  {
    if c.assign != Overwrite then Ok(None)
    else if CountApply(c.rhs) != 1 then Ok(None)
    else if !c.rhs.Apply? then Err(NotAnApplication)
    else if |c.indices| != |c.rhs.args| then Ok(None)
    else if |c.wheres| != 0 then Ok(None)
    else if !AllIdents(c.rhs.args) then Err(NotAnApplication)
    else
      var rhsNames := Names(c.rhs.args);
      if !FindAll(c.indices, rhsNames) then Ok(None)
      else Ok(Some(TransposeInfo(c.ident, c.rhs.name, Ordering(rhsNames, c.indices))))
  }

  /** `out(idx) = inp(src)` with every output index among the input
      indices is no reshape (equal index counts) and is a transpose. */
  lemma TransposeStatementMatches(out: string, inp: string, idx: seq<string>, src: seq<string>)
    requires |idx| == |src|
    requires forall q :: 0 <= q < |idx| ==> idx[q] in src
    ensures var c := Comprehension(out, idx, Overwrite, Apply(inp, Idents(src)), []);
            && MatchReshape(c) == Ok(None)
            && MatchTranspose(c) == Ok(Some(TransposeInfo(out, inp, Ordering(src, idx))))
  {
    var c := Comprehension(out, idx, Overwrite, Apply(inp, Idents(src)), []);
    IdentsHoldNoApply(src);
    assert CountApply(c.rhs) == 1;
    assert Names(c.rhs.args) == src;
    assert FindAll(idx, src);
  }

  /** Fold clauses that all name two or more identifiers are read without
      error, as their identifier lists. */
  lemma FoldClausesOfWideClauses(ws: seq<FoldClause>)
    requires forall i :: 0 <= i < |ws| ==> |IdentsOf(ws[i].rhs)| >= 2
    ensures FoldClauses(ws) == Ok(ClauseNames(ws))
  {
    assert FoldClauses(ws).Ok?;
    assert FoldClauses(ws).value == ClauseNames(ws);
  }

  /** `out(idx) = inp(src) where ...` with different index counts and fold
      clauses of two or more names is a reshape, recorded with the clauses'
      new names and identifier lists. */
  lemma ReshapeStatementMatches(out: string, inp: string, idx: seq<string>, src: seq<string>, wheres: seq<FoldClause>)
    requires |idx| != |src|
    requires forall i :: 0 <= i < |wheres| ==> |IdentsOf(wheres[i].rhs)| >= 2
    ensures var c := Comprehension(out, idx, Overwrite, Apply(inp, Idents(src)), wheres);
            MatchReshape(c) == Ok(Some(ReshapeInfo(out, inp, idx, src, NewVars(wheres), ClauseNames(wheres))))
  {
    var args := Idents(src);
    var c := Comprehension(out, idx, Overwrite, Apply(inp, args), wheres);
    IdentsHoldNoApply(src);
    assert CountApply(c.rhs) == 1;
    assert |idx| != |args| && AllIdents(args) && Names(args) == src;
    FoldClausesOfWideClauses(wheres);
    assert MatchReshape(c) == Ok(Some(ReshapeInfo(out, inp, idx, Names(args), NewVars(wheres), ClauseNames(wheres))));
  }

  /** A recognized transpose whose input indices are all different carries a
      permutation that rearranges the input indices into the output indices. */
  lemma TransposePermutation(c: Comprehension)
    requires MatchTranspose(c).Ok? && MatchTranspose(c).value.Some?
    requires Seqs.Distinct(Names(c.rhs.args))
    ensures var t := MatchTranspose(c).value.value;
            |t.permutation| == |c.indices| &&
            Reordered(Names(c.rhs.args), t.permutation) == c.indices
  {
    ReorderRoundTrip(Names(c.rhs.args), c.indices);
  }

  /** The convolution heuristic: `+=` and two output indices; the two
      children of the root are read as applications (filter first, image
      second). A root without two application children is an error. */
  function MatchConv(c: Comprehension): (r: Result<Option<ConvInfo>, ErrorKind>)
    ensures r.Ok? && r.value.Some? ==>
              && c.assign == Accumulate && |c.indices| == 2
              && (c.rhs.Add? || c.rhs.Mul?) && c.rhs.left.Apply? && c.rhs.right.Apply?
              && r.value.value == ConvInfo(c.ident, c.rhs.left.name, c.rhs.right.name)
    ensures (r.Ok? ==> r.value.Some?) <==> c.assign == Accumulate && |c.indices| == 2
    ensures r.Err? ==> r.error == NotAnApplication
  {
    if c.assign != Accumulate then Ok(None)
    else if |c.indices| != 2 then Ok(None)
    else if !(c.rhs.Add? || c.rhs.Mul?) then Err(NotAnApplication)
    else if !c.rhs.left.Apply? || !c.rhs.right.Apply? then Err(NotAnApplication)
    else Ok(Some(ConvInfo(c.ident, c.rhs.left.name, c.rhs.right.name)))
  }

  // ---------------------------------------------------------------------
  // What the recognizers make of the canonical statements

  /** A product of two applications of two identifiers each. */
  function Product(A: string, a1: string, a2: string, B: string, b1: string, b2: string): Expr
  {
    Mul(Apply(A, [Ident(a1), Ident(a2)]), Apply(B, [Ident(b1), Ident(b2)]))
  }

  /** The product pattern matches the left access first and, only when that
      succeeds, the right access against the bindings it leaves. */
  lemma ProductSteps(pa: ArrayPattern, pb: ArrayPattern, e: Expr, b: Bindings)
    requires |pa.indices| > 0 && |pb.indices| > 0
    requires ArrayIds(pa) <= b.Keys && ArrayIds(pb) <= b.Keys
    ensures Match(ProductPattern(pa, pb, false), e, b) ==
              if !e.Mul? then Unification(false, b)
              else
                var u := AccessMatch(pa, e.left, b);
                if !u.ok then u else AccessMatch(pb, e.right, u.bindings)
  {
    assert ProductPattern(pa, pb, false) == Binary(MulOp, Access(pa), Access(pb));
  }

  /** The canonical matmul statement `C(i, j) += A(..) * B(..) where ...`
      with A and B in the given orientations. */
  function MatMulStatement(C: string, A: string, B: string, i: string, j: string, k: string,
                           ta: Trans, tb: Trans, wheres: seq<FoldClause>): Comprehension
  {
    var aArgs := if ta == N then (i, k) else (k, i);
    var bArgs := if tb == N then (k, j) else (j, k);
    Comprehension(C, [i, j], Accumulate, Product(A, aArgs.0, aArgs.1, B, bArgs.0, bArgs.1), wheres)
  }

  /** The fold count the recognizer reports for an axis. */
  function Folded(wheres: seq<FoldClause>, axis: string): int
  {
    if |wheres| == 1 && wheres[0].newName == axis then |IdentsOf(wheres[0].rhs)| else 1
  }

  /** A placeholder bound to `x` accepts `y`: x is the sentinel or equals y. */
  predicate Agree(x: string, y: string) { x == Unassigned || x == y }

  /** The NN product pattern on `A(a1, a2) * B(b1, b2)`: it matches exactly
      when the two names read for k (a2 and b1) agree, and then binds A, B,
      i, j and k. */
  lemma NNProductMatch(A: string, a1: string, a2: string, B: string, b1: string, b2: string)
    ensures var r := Match(ProductPattern(ArrayPattern(IdA, [IdI, IdK]), ArrayPattern(IdB, [IdK, IdJ]), false),
                           Product(A, a1, a2, B, b1, b2), MatMulContext());
            && (r.ok <==> Agree(a2, b1))
            && (r.ok ==> && r.bindings[IdA].value == A && r.bindings[IdB].value == B
                         && r.bindings[IdI].value == a1 && r.bindings[IdJ].value == b2
                         && r.bindings[IdK].value == b1)
  {
    var e := Product(A, a1, a2, B, b1, b2);
    var m0 := MatMulContext();
    var pa, pb := ArrayPattern(IdA, [IdI, IdK]), ArrayPattern(IdB, [IdK, IdJ]);
    assert ArrayIds(pa) == {IdA, IdI, IdK} && ArrayIds(pb) == {IdB, IdK, IdJ};
    ProductSteps(pa, pb, e, m0);
    AccessMatchTwo(IdA, IdI, IdK, A, a1, a2, m0);
    var m1 := m0[IdI := AssignedMatch(a1)][IdK := AssignedMatch(a2)][IdA := AssignedMatch(A)];
    AccessMatchTwo(IdB, IdK, IdJ, B, b1, b2, m1);
    var m2 := m1[IdK := AssignedMatch(b1)][IdJ := AssignedMatch(b2)][IdB := AssignedMatch(B)];
    var u1 := AccessMatch(pa, e.left, m0);
    assert u1.ok && u1.bindings == m1;
    var u2 := AccessMatch(pb, e.right, m1);
    assert Match(ProductPattern(pa, pb, false), e, m0) == u2;
    if Agree(a2, b1) {
      assert u2.ok && u2.bindings == m2;
    } else {
      assert !u2.ok;
    }
  }

  /** NN on `A(a1, a2) * B(b1, b2)`: the shared index k must agree (a2, b1). */
  lemma NNOnProduct(c: Comprehension, A: string, a1: string, a2: string, B: string, b1: string, b2: string)
    requires c.rhs == Product(A, a1, a2, B, b1, b2)
    ensures IsNN(c) == if Agree(a2, b1) then ReadMatMul(c, A, B, a1, b2, b1, false) else None
  {
    NNProductMatch(A, a1, a2, B, b1, b2);
  }

  /** TN reads A as (k, i): the shared index is (a1, b1). */
  lemma TNOnProduct(c: Comprehension, A: string, a1: string, a2: string, B: string, b1: string, b2: string)
    requires c.rhs == Product(A, a1, a2, B, b1, b2)
    ensures IsTN(c) == if Agree(a1, b1) then ReadMatMul(c, A, B, a2, b2, b1, false) else None
  {
    var m0 := MatMulContext();
    var pa, pb := ArrayPattern(IdA, [IdK, IdI]), ArrayPattern(IdB, [IdK, IdJ]);
    assert ArrayIds(pa) == {IdA, IdK, IdI} && ArrayIds(pb) == {IdB, IdK, IdJ};
    ProductSteps(pa, pb, c.rhs, m0);
    AccessMatchTwo(IdA, IdK, IdI, A, a1, a2, m0);
    var m1 := m0[IdK := AssignedMatch(a1)][IdI := AssignedMatch(a2)][IdA := AssignedMatch(A)];
    AccessMatchTwo(IdB, IdK, IdJ, B, b1, b2, m1);
    var m2 := m1[IdK := AssignedMatch(b1)][IdJ := AssignedMatch(b2)][IdB := AssignedMatch(B)];
    var u1 := AccessMatch(pa, c.rhs.left, m0);
    assert u1.ok && u1.bindings == m1;
    var u2 := AccessMatch(pb, c.rhs.right, m1);
    assert Match(ProductPattern(pa, pb, false), c.rhs, m0) == u2;
    if Agree(a1, b1) {
      assert u2.ok && u2.bindings == m2;
    } else {
      assert !u2.ok;
    }
    assert m2[IdA].value == A && m2[IdB].value == B;
  }

  /** NT reads B as (j, k): the shared index is (a2, b2). */
  lemma NTOnProduct(c: Comprehension, A: string, a1: string, a2: string, B: string, b1: string, b2: string)
    requires c.rhs == Product(A, a1, a2, B, b1, b2)
    ensures IsNT(c) == if Agree(a2, b2) then ReadMatMul(c, A, B, a1, b1, b2, false) else None
  {
    var m0 := MatMulContext();
    var pa, pb := ArrayPattern(IdA, [IdI, IdK]), ArrayPattern(IdB, [IdJ, IdK]);
    assert ArrayIds(pa) == {IdA, IdI, IdK} && ArrayIds(pb) == {IdB, IdJ, IdK};
    ProductSteps(pa, pb, c.rhs, m0);
    AccessMatchTwo(IdA, IdI, IdK, A, a1, a2, m0);
    var m1 := m0[IdI := AssignedMatch(a1)][IdK := AssignedMatch(a2)][IdA := AssignedMatch(A)];
    AccessMatchTwo(IdB, IdJ, IdK, B, b1, b2, m1);
    var m2 := m1[IdJ := AssignedMatch(b1)][IdK := AssignedMatch(b2)][IdB := AssignedMatch(B)];
    var u1 := AccessMatch(pa, c.rhs.left, m0);
    assert u1.ok && u1.bindings == m1;
    var u2 := AccessMatch(pb, c.rhs.right, m1);
    assert Match(ProductPattern(pa, pb, false), c.rhs, m0) == u2;
    if Agree(a2, b2) {
      assert u2.ok && u2.bindings == m2;
    } else {
      assert !u2.ok;
    }
    assert m2[IdA].value == A && m2[IdB].value == B;
  }

  /** TT reads A as (k, i) and B as (j, k): the shared index is (a1, b2). */
  lemma TTOnProduct(c: Comprehension, A: string, a1: string, a2: string, B: string, b1: string, b2: string)
    requires c.rhs == Product(A, a1, a2, B, b1, b2)
    ensures IsTT(c) == if Agree(a1, b2) then ReadMatMul(c, A, B, a2, b1, b2, false) else None
  {
    var m0 := MatMulContext();
    var pa, pb := ArrayPattern(IdA, [IdK, IdI]), ArrayPattern(IdB, [IdJ, IdK]);
    assert ArrayIds(pa) == {IdA, IdK, IdI} && ArrayIds(pb) == {IdB, IdJ, IdK};
    ProductSteps(pa, pb, c.rhs, m0);
    AccessMatchTwo(IdA, IdK, IdI, A, a1, a2, m0);
    var m1 := m0[IdK := AssignedMatch(a1)][IdI := AssignedMatch(a2)][IdA := AssignedMatch(A)];
    AccessMatchTwo(IdB, IdJ, IdK, B, b1, b2, m1);
    var m2 := m1[IdJ := AssignedMatch(b1)][IdK := AssignedMatch(b2)][IdB := AssignedMatch(B)];
    var u1 := AccessMatch(pa, c.rhs.left, m0);
    assert u1.ok && u1.bindings == m1;
    var u2 := AccessMatch(pb, c.rhs.right, m1);
    assert Match(ProductPattern(pa, pb, false), c.rhs, m0) == u2;
    if Agree(a1, b2) {
      assert u2.ok && u2.bindings == m2;
    } else {
      assert !u2.ok;
    }
    assert m2[IdA].value == A && m2[IdB].value == B;
  }

  /** NN behind a scalar is never taken for a plain product of two
      applications: its right factor must itself be a product. */
  lemma NNWithAlphaOnPlainProduct(c: Comprehension, A: string, a1: string, a2: string, B: string, b1: string, b2: string)
    requires c.rhs == Product(A, a1, a2, B, b1, b2)
    ensures IsNNWithAlpha(c).None?
  {
    var m0 := MatMulContext();
    var pa, pb := ArrayPattern(IdA, [IdI, IdK]), ArrayPattern(IdB, [IdK, IdJ]);
    assert ArrayIds(pa) <= m0.Keys && ArrayIds(pb) <= m0.Keys;
    var product := ProductPattern(pa, pb, false);
    assert ProductPattern(pa, pb, true) == Binary(MulOp, AnyValue, product);
    BinaryMatchShape(MulOp, AnyValue, product, c.rhs, m0);
    BinaryMatchShape(MulOp, Access(pa), Access(pb), c.rhs.right, m0);
  }

  /** NN behind a scalar: any left factor, then NN on the right factor; the
      reported alpha is the fixed name "alpha", whatever the factor is. */
  lemma NNWithAlphaOnProduct(c: Comprehension, s: Expr, A: string, a1: string, a2: string, B: string, b1: string, b2: string)
    requires c.rhs == Mul(s, Product(A, a1, a2, B, b1, b2))
    ensures IsNNWithAlpha(c) == if Agree(a2, b1) then ReadMatMul(c, A, B, a1, b2, b1, true) else None
  {
    var m0 := MatMulContext();
    var pa, pb := ArrayPattern(IdA, [IdI, IdK]), ArrayPattern(IdB, [IdK, IdJ]);
    var product := ProductPattern(pa, pb, false);
    assert ProductPattern(pa, pb, true) == Binary(MulOp, AnyValue, product);
    assert Match(ProductPattern(pa, pb, true), c.rhs, m0) == Match(product, c.rhs.right, m0);
    NNProductMatch(A, a1, a2, B, b1, b2);
  }

  /** On a canonical matmul statement with distinct index names exactly the
      shape of its orientation matches. */
  lemma OrientationShapes(C: string, A: string, B: string, i: string, j: string, k: string,
                          ta: Trans, tb: Trans, wheres: seq<FoldClause>)
    requires i != j && j != k && i != k
    requires i != Unassigned && j != Unassigned && k != Unassigned
    requires C != A && C != B
    ensures var c := MatMulStatement(C, A, B, i, j, k, ta, tb, wheres);
            var shape := Some(MatMulShapeMatch(C, A, B, i, j, k, "1", "1"));
            && IsNN(c) == (if ta == N && tb == N then shape else None)
            && (IsNN(c).None? ==> IsNNWithAlpha(c).None?)
            && IsTN(c) == (if ta == T && tb == N then shape else None)
            && IsNT(c) == (if ta == N && tb == T then shape else None)
            && IsTT(c) == (if ta == T && tb == T then shape else None)
  {
    var c := MatMulStatement(C, A, B, i, j, k, ta, tb, wheres);
    var rhs := c.rhs;
    var a1, a2, b1, b2 := rhs.left.args[0].name, rhs.left.args[1].name, rhs.right.args[0].name, rhs.right.args[1].name;
    assert rhs == Product(A, a1, a2, B, b1, b2);
    NNOnProduct(c, A, a1, a2, B, b1, b2);
    NNWithAlphaOnPlainProduct(c, A, a1, a2, B, b1, b2);
    TNOnProduct(c, A, a1, a2, B, b1, b2);
    NTOnProduct(c, A, a1, a2, B, b1, b2);
    TTOnProduct(c, A, a1, a2, B, b1, b2);
  }

  /** A canonical matmul statement `C(m,n) += A(..) * B(..)`, in every
      orientation: a canonical matmul statement with distinct index names and an output distinct from
      its inputs is recognized with exactly the transpose flags of its
      orientation, unit scalars, and fold counts taken from its where clause;
      more than one where clause is rejected. */
  lemma MatMulOrientation(C: string, A: string, B: string, i: string, j: string, k: string,
                          ta: Trans, tb: Trans, wheres: seq<FoldClause>)
    requires i != j && j != k && i != k
    requires i != Unassigned && j != Unassigned && k != Unassigned
    requires C != A && C != B
    ensures MatchMatMul(MatMulStatement(C, A, B, i, j, k, ta, tb, wheres)) ==
              if |wheres| > 1 then Err(MultipleWhereClauses)
              else Ok(Some(MatMulInfo(C, A, B, i, j, k, ta, tb, "1", "1",
                                      Folded(wheres, i), Folded(wheres, j), Folded(wheres, k))))
  {
    var c := MatMulStatement(C, A, B, i, j, k, ta, tb, wheres);
    OrientationShapes(C, A, B, i, j, k, ta, tb, wheres);
    var first := if IsNN(c).Some? then IsNN(c) else IsNNWithAlpha(c);
    assert MatchMatMul(c) == CombineShapes(c, first, IsTN(c), IsNT(c), IsTT(c));
    CombineSingle(c, MatMulShapeMatch(C, A, B, i, j, k, "1", "1"), ta, tb);
  }

  /** The fold count of an axis other than the sentinel is the one the
      recognizer reports. */
  lemma FoldCountIsFolded(wheres: seq<FoldClause>, axis: string)
    requires axis != NoLetVar
    ensures var letSize := if |wheres| == 1 then 1 + |IdentsOf(wheres[0].rhs)| else 1;
            var letVar := if |wheres| == 1 then wheres[0].newName else NoLetVar;
            FoldCount(letVar, letSize, axis) == Folded(wheres, axis)
  {
  }

  /** Combining when exactly the shape of one orientation matched. */
  lemma CombineSingle(c: Comprehension, s: MatMulShapeMatch, ta: Trans, tb: Trans)
    requires s.m != NoLetVar && s.n != NoLetVar && s.k != NoLetVar
    ensures CombineShapes(c, if ta == N && tb == N then Some(s) else None,
                          if ta == T && tb == N then Some(s) else None,
                          if ta == N && tb == T then Some(s) else None,
                          if ta == T && tb == T then Some(s) else None) ==
              if |c.wheres| > 1 then Err(MultipleWhereClauses)
              else Ok(Some(MatMulInfo(s.C, s.A, s.B, s.m, s.n, s.k, ta, tb, s.alpha, s.beta,
                                      Folded(c.wheres, s.m), Folded(c.wheres, s.n), Folded(c.wheres, s.k))))
  {
    FoldCountIsFolded(c.wheres, s.m);
    FoldCountIsFolded(c.wheres, s.n);
    FoldCountIsFolded(c.wheres, s.k);
  }

  /** A shape without a scalar needs an application on the right of the root
      product, so it never matches `s * (...)` with a product on the right. */
  lemma PlainShapeOnScaled(c: Comprehension, aIdx: seq<nat>, bIdx: seq<nat>)
    requires |aIdx| == 2 && |bIdx| == 2
    requires IsMatMulIndexId(aIdx[0]) && IsMatMulIndexId(aIdx[1])
    requires IsMatMulIndexId(bIdx[0]) && IsMatMulIndexId(bIdx[1])
    requires c.rhs.Mul? && c.rhs.right.Mul?
    ensures MatMulShape(c, aIdx, bIdx, false).None?
  {
    var m0 := MatMulContext();
    var pa, pb := ArrayPattern(IdA, aIdx), ArrayPattern(IdB, bIdx);
    assert ArrayIds(pa) == {IdA, aIdx[0], aIdx[1]} && ArrayIds(pb) == {IdB, bIdx[0], bIdx[1]};
    assert ProductPattern(pa, pb, false) == Binary(MulOp, Access(pa), Access(pb));
    BinaryMatchShape(MulOp, Access(pa), Access(pb), c.rhs, m0);
    var u := Match(Access(pa), c.rhs.left, m0);
    assert !AccessMatch(pb, c.rhs.right, u.bindings).ok;
  }

  /** The scaled form `s * (A(..) * B(..))` of a canonical matmul statement. */
  function ScaledMatMulStatement(C: string, A: string, B: string, i: string, j: string, k: string,
                                 ta: Trans, tb: Trans, s: Expr, wheres: seq<FoldClause>): Comprehension
  {
    var plain := MatMulStatement(C, A, B, i, j, k, ta, tb, wheres);
    plain.(rhs := Mul(s, plain.rhs))
  }

  /** On the scaled form only NN behind a scalar can match, and it does in
      the NN orientation. */
  lemma ScaledShapes(C: string, A: string, B: string, i: string, j: string, k: string,
                     ta: Trans, tb: Trans, s: Expr, wheres: seq<FoldClause>)
    requires i != j && j != k && i != k
    requires i != Unassigned && j != Unassigned && k != Unassigned
    requires C != A && C != B
    ensures var c := ScaledMatMulStatement(C, A, B, i, j, k, ta, tb, s, wheres);
            && IsNN(c).None? && IsTN(c).None? && IsNT(c).None? && IsTT(c).None?
            && IsNNWithAlpha(c) == if ta == N && tb == N then Some(MatMulShapeMatch(C, A, B, i, j, k, "alpha", "1")) else None
  {
    var c := ScaledMatMulStatement(C, A, B, i, j, k, ta, tb, s, wheres);
    var p := c.rhs.right;
    var a1, a2, b1, b2 := p.left.args[0].name, p.left.args[1].name, p.right.args[0].name, p.right.args[1].name;
    assert c.rhs == Mul(s, Product(A, a1, a2, B, b1, b2));
    PlainShapeOnScaled(c, [IdI, IdK], [IdK, IdJ]);
    PlainShapeOnScaled(c, [IdK, IdI], [IdK, IdJ]);
    PlainShapeOnScaled(c, [IdI, IdK], [IdJ, IdK]);
    PlainShapeOnScaled(c, [IdK, IdI], [IdJ, IdK]);
    NNWithAlphaOnProduct(c, s, A, a1, a2, B, b1, b2);
  }

  /** A matmul statement behind a scalar factor is recognized only in the
      NN orientation, with alpha the fixed name "alpha" whatever the factor;
      the other orientations have no scaled shape and are not recognized. */
  lemma MatMulWithAlpha(C: string, A: string, B: string, i: string, j: string, k: string,
                        ta: Trans, tb: Trans, s: Expr, wheres: seq<FoldClause>)
    requires i != j && j != k && i != k
    requires i != Unassigned && j != Unassigned && k != Unassigned
    requires C != A && C != B
    ensures MatchMatMul(ScaledMatMulStatement(C, A, B, i, j, k, ta, tb, s, wheres)) ==
              if ta != N || tb != N then Ok(None)
              else if |wheres| > 1 then Err(MultipleWhereClauses)
              else Ok(Some(MatMulInfo(C, A, B, i, j, k, N, N, "alpha", "1",
                                      Folded(wheres, i), Folded(wheres, j), Folded(wheres, k))))
  {
    var c := ScaledMatMulStatement(C, A, B, i, j, k, ta, tb, s, wheres);
    ScaledShapes(C, A, B, i, j, k, ta, tb, s, wheres);
    assert MatchMatMul(c) == CombineShapes(c, IsNNWithAlpha(c), None, None, None);
    if ta == N && tb == N {
      CombineSingle(c, MatMulShapeMatch(C, A, B, i, j, k, "alpha", "1"), N, N);
    }
  }

  /** A matrix-vector product `A(a1, a2) * y(y1)`. */
  function VecProduct(A: string, a1: string, a2: string, y: string, y1: string): Expr
  {
    Mul(Apply(A, [Ident(a1), Ident(a2)]), Apply(y, [Ident(y1)]))
  }

  /** The matvec product pattern on a matrix-vector product, from the fresh
      context: the vector's index must agree with the matrix position read
      as j. */
  lemma VecProductMatch(aIdx: seq<nat>, A: string, a1: string, a2: string, y: string, y1: string)
    requires aIdx == [VecI, VecJ] || aIdx == [VecJ, VecI]
    ensures var pa, pb := ArrayPattern(VecA, aIdx), ArrayPattern(VecY, [VecJ]);
            var r := Match(ProductPattern(pa, pb, false), VecProduct(A, a1, a2, y, y1), MatVecContext());
            var jName := if aIdx == [VecI, VecJ] then a2 else a1;
            var iName := if aIdx == [VecI, VecJ] then a1 else a2;
            && (r.ok <==> Agree(jName, y1))
            && (r.ok ==> r.bindings[VecA].value == A && r.bindings[VecY].value == y && r.bindings[VecI].value == iName)
  {
    var m0 := MatVecContext();
    var pa, pb := ArrayPattern(VecA, aIdx), ArrayPattern(VecY, [VecJ]);
    assert ArrayIds(pa) == {VecA, VecI, VecJ} && ArrayIds(pb) == {VecY, VecJ};
    ProductSteps(pa, pb, VecProduct(A, a1, a2, y, y1), m0);
    var p, q := aIdx[0], aIdx[1];
    assert aIdx == [p, q];
    AccessMatchTwo(VecA, p, q, A, a1, a2, m0);
    var m1 := m0[p := AssignedMatch(a1)][q := AssignedMatch(a2)][VecA := AssignedMatch(A)];
    AccessMatchOne(VecY, VecJ, y, y1, m1);
  }

  /** A matvec shape on a plain matrix-vector product: the shape without a
      scalar matches when the vector index agrees with j; the shape with one
      needs a product on the right of the root and never matches. */
  lemma VecShapeOnPlain(c: Comprehension, aIdx: seq<nat>, trans: Trans, withAlpha: bool,
                        A: string, a1: string, a2: string, y: string, y1: string)
    requires aIdx == [VecI, VecJ] || aIdx == [VecJ, VecI]
    requires c.rhs == VecProduct(A, a1, a2, y, y1)
    ensures var jName := if aIdx == [VecI, VecJ] then a2 else a1;
            var iName := if aIdx == [VecI, VecJ] then a1 else a2;
            MatVecShape(c, aIdx, trans, withAlpha) ==
              if withAlpha then None
              else if Agree(jName, y1) then ReadMatVec(c, A, y, iName, trans, false)
              else None
  {
    if withAlpha {
      ScaledVecShapeOnPlain(c, aIdx, trans, A, a1, a2, y, y1);
    } else {
      PlainVecShapeOnPlain(c, aIdx, trans, A, a1, a2, y, y1);
    }
  }

  lemma PlainVecShapeOnPlain(c: Comprehension, aIdx: seq<nat>, trans: Trans,
                             A: string, a1: string, a2: string, y: string, y1: string)
    requires aIdx == [VecI, VecJ] || aIdx == [VecJ, VecI]
    requires c.rhs == VecProduct(A, a1, a2, y, y1)
    ensures var jName := if aIdx == [VecI, VecJ] then a2 else a1;
            var iName := if aIdx == [VecI, VecJ] then a1 else a2;
            MatVecShape(c, aIdx, trans, false) ==
              if Agree(jName, y1) then ReadMatVec(c, A, y, iName, trans, false) else None
  {
    VecProductMatch(aIdx, A, a1, a2, y, y1);
  }

  lemma ScaledVecShapeOnPlain(c: Comprehension, aIdx: seq<nat>, trans: Trans,
                              A: string, a1: string, a2: string, y: string, y1: string)
    requires aIdx == [VecI, VecJ] || aIdx == [VecJ, VecI]
    requires c.rhs == VecProduct(A, a1, a2, y, y1)
    ensures MatVecShape(c, aIdx, trans, true).None?
  {
    var m0 := MatVecContext();
    var pa, pb := ArrayPattern(VecA, aIdx), ArrayPattern(VecY, [VecJ]);
    assert ArrayIds(pa) == {VecA, VecI, VecJ} && ArrayIds(pb) == {VecY, VecJ};
    var product := ProductPattern(pa, pb, false);
    assert ProductPattern(pa, pb, true) == Binary(MulOp, AnyValue, product);
    BinaryMatchShape(MulOp, AnyValue, product, c.rhs, m0);
    ProductSteps(pa, pb, c.rhs.right, m0);
  }

  /** A matvec shape on `s * (A(a1, a2) * y(y1))`: the shape with a scalar
      matches when the vector index agrees with j; the shape without one
      needs an application on the right of the root and never matches. */
  lemma VecShapeOnScaled(c: Comprehension, aIdx: seq<nat>, trans: Trans, withAlpha: bool, s: Expr,
                         A: string, a1: string, a2: string, y: string, y1: string)
    requires aIdx == [VecI, VecJ] || aIdx == [VecJ, VecI]
    requires c.rhs == Mul(s, VecProduct(A, a1, a2, y, y1))
    ensures var jName := if aIdx == [VecI, VecJ] then a2 else a1;
            var iName := if aIdx == [VecI, VecJ] then a1 else a2;
            MatVecShape(c, aIdx, trans, withAlpha) ==
              if !withAlpha then None
              else if Agree(jName, y1) then ReadMatVec(c, A, y, iName, trans, true)
              else None
  {
    if withAlpha {
      ScaledVecShapeOnScaled(c, aIdx, trans, s, A, a1, a2, y, y1);
    } else {
      PlainVecShapeOnScaled(c, aIdx, trans, s, A, a1, a2, y, y1);
    }
  }

  lemma ScaledVecShapeOnScaled(c: Comprehension, aIdx: seq<nat>, trans: Trans, s: Expr,
                               A: string, a1: string, a2: string, y: string, y1: string)
    requires aIdx == [VecI, VecJ] || aIdx == [VecJ, VecI]
    requires c.rhs == Mul(s, VecProduct(A, a1, a2, y, y1))
    ensures var jName := if aIdx == [VecI, VecJ] then a2 else a1;
            var iName := if aIdx == [VecI, VecJ] then a1 else a2;
            MatVecShape(c, aIdx, trans, true) ==
              if Agree(jName, y1) then ReadMatVec(c, A, y, iName, trans, true) else None
  {
    var m0 := MatVecContext();
    var pa, pb := ArrayPattern(VecA, aIdx), ArrayPattern(VecY, [VecJ]);
    var product := ProductPattern(pa, pb, false);
    VecProductMatch(aIdx, A, a1, a2, y, y1);
    assert ProductPattern(pa, pb, true) == Binary(MulOp, AnyValue, product);
    assert Match(ProductPattern(pa, pb, true), c.rhs, m0) == Match(product, c.rhs.right, m0);
  }

  lemma PlainVecShapeOnScaled(c: Comprehension, aIdx: seq<nat>, trans: Trans, s: Expr,
                              A: string, a1: string, a2: string, y: string, y1: string)
    requires aIdx == [VecI, VecJ] || aIdx == [VecJ, VecI]
    requires c.rhs == Mul(s, VecProduct(A, a1, a2, y, y1))
    ensures MatVecShape(c, aIdx, trans, false).None?
  {
    var m0 := MatVecContext();
    var pa, pb := ArrayPattern(VecA, aIdx), ArrayPattern(VecY, [VecJ]);
    assert ArrayIds(pa) == {VecA, VecI, VecJ} && ArrayIds(pb) == {VecY, VecJ};
    ProductSteps(pa, pb, c.rhs, m0);
    var u := AccessMatch(pa, c.rhs.left, m0);
    assert !AccessMatch(pb, c.rhs.right, u.bindings).ok;
  }

  /** The canonical matvec statement `x(i) += A(..) * y(j)`, optionally
      behind a scalar factor, with A in the given orientation. */
  function MatVecStatement(x: string, A: string, y: string, i: string, j: string, ta: Trans,
                           scalar: Option<Expr>, wheres: seq<FoldClause>): Comprehension
  {
    var product := if ta == N then VecProduct(A, i, j, y, j) else VecProduct(A, j, i, y, j);
    var rhs := if scalar.Some? then Mul(scalar.value, product) else product;
    Comprehension(x, [i], Accumulate, rhs, wheres)
  }

  /** A canonical matvec statement `x(i) += A(..) * y(j)`, for both
      orientations, with or without a scalar factor: a canonical matvec statement with distinct index names
      and an output distinct from its inputs is recognized with the
      orientation of A; alpha is "alpha" exactly when a scalar is present.
      Where clauses play no part. */
  lemma MatVecOrientation(x: string, A: string, y: string, i: string, j: string, ta: Trans,
                          scalar: Option<Expr>, wheres: seq<FoldClause>)
    requires i != j && i != Unassigned && j != Unassigned
    requires x != A && x != y
    ensures MatchMatVec(MatVecStatement(x, A, y, i, j, ta, scalar, wheres)) ==
              Some(MatVecInfo(x, A, y, ta, if scalar.Some? then "alpha" else "1", "1"))
  {
    var c := MatVecStatement(x, A, y, i, j, ta, scalar, wheres);
    var s := if scalar.Some? then scalar.value else Ident(x);
    var a1, a2 := if ta == N then i else j, if ta == N then j else i;
    assert c.rhs == VecProduct(A, a1, a2, y, j) || c.rhs == Mul(s, VecProduct(A, a1, a2, y, j));
    assert scalar.Some? <==> c.rhs == Mul(s, VecProduct(A, a1, a2, y, j));
    if scalar.Some? {
      VecShapeOnScaled(c, [VecI, VecJ], N, false, s, A, a1, a2, y, j);
      VecShapeOnScaled(c, [VecJ, VecI], T, false, s, A, a1, a2, y, j);
      VecShapeOnScaled(c, [VecI, VecJ], N, true, s, A, a1, a2, y, j);
      VecShapeOnScaled(c, [VecJ, VecI], T, true, s, A, a1, a2, y, j);
    } else {
      VecShapeOnPlain(c, [VecI, VecJ], N, false, A, a1, a2, y, j);
      VecShapeOnPlain(c, [VecJ, VecI], T, false, A, a1, a2, y, j);
      VecShapeOnPlain(c, [VecI, VecJ], N, true, A, a1, a2, y, j);
      VecShapeOnPlain(c, [VecJ, VecI], T, true, A, a1, a2, y, j);
    }
  }
}
