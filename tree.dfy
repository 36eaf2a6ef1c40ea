/**
 * The expression tree and the comprehension (one tensor statement) that the
 * matchers and recognizers read. The parser that builds them is not part of
 * this model; only the node kinds the core inspects are represented.
 */
module Tree {

  /** A right-hand-side node: binary `+`, binary `*`, an array application
      `name(args...)` or a plain identifier. */
  datatype Expr =
    | Add(left: Expr, right: Expr)
    | Mul(left: Expr, right: Expr)
    | Apply(name: string, args: seq<Expr>)
    | Ident(name: string)

  /** `=` overwrites the output, `+=` accumulates into it. */
  datatype AssignKind = Overwrite | Accumulate

  /** A `where` clause `newName = old1 * old2 * ...`; the right-hand side is kept
      as a tree, as the recognizers walk it. */
  datatype FoldClause = FoldClause(newName: string, rhs: Expr)

  /** One statement `ident(indices) op rhs where ...`. */
  datatype Comprehension = Comprehension(
    ident: string,
    indices: seq<string>,
    assign: AssignKind,
    rhs: Expr,
    wheres: seq<FoldClause>)

  /** The identifiers met by a preorder walk of `e`. An application's array name
      is itself an identifier subtree of the application node, so it is met
      before the arguments. */
  function IdentsOf(e: Expr): (r: seq<string>)
    ensures e.Ident? ==> r == [e.name]
    ensures e.Apply? ==> |r| >= 1 && r[0] == e.name
  {
    match e
    case Add(l, r) => IdentsOf(l) + IdentsOf(r)
    case Mul(l, r) => IdentsOf(l) + IdentsOf(r)
    case Apply(n, args) => [n] + IdentsOfAll(args)
    case Ident(n) => [n]
  }

  function IdentsOfAll(es: seq<Expr>): seq<string>
  {
    if es == [] then [] else IdentsOf(es[0]) + IdentsOfAll(es[1..])
  }

  /** The number of application nodes in `e`, nested ones included. */
  function CountApply(e: Expr): nat
  {
    match e
    case Add(l, r) => CountApply(l) + CountApply(r)
    case Mul(l, r) => CountApply(l) + CountApply(r)
    case Apply(_, args) => 1 + CountApplyAll(args)
    case Ident(_) => 0
  }

  function CountApplyAll(es: seq<Expr>): nat
  {
    if es == [] then 0 else CountApply(es[0]) + CountApplyAll(es[1..])
  }

  /** True when every expression of `es` is a plain identifier. */
  predicate AllIdents(es: seq<Expr>)
  {
    forall i :: 0 <= i < |es| ==> es[i].Ident?
  }

  /** The names of a list of identifiers. */
  function Names(es: seq<Expr>): (r: seq<string>)
    requires AllIdents(es)
    ensures |r| == |es|
    ensures forall i :: 0 <= i < |es| ==> r[i] == es[i].name
  {
    if es == [] then [] else [es[0].name] + Names(es[1..])
  }

  /** A list of identifiers holds no application node. */
  lemma {:induction false} IdentsHoldNoApply(ns: seq<string>)
    ensures CountApplyAll(Idents(ns)) == 0
  {
    if ns != [] {
      IdentsHoldNoApply(ns[1..]);
      assert Idents(ns)[1..] == Idents(ns[1..]);
    }
  }

  /** Identifiers for a list of names (the inverse of Names). */
  function Idents(ns: seq<string>): (r: seq<Expr>)
    ensures |r| == |ns| && AllIdents(r)
    ensures Names(r) == ns
  {
    if ns == [] then [] else [Ident(ns[0])] + Idents(ns[1..])
  }

  /** The product `n0 * n1 * ... ` of plain identifiers, associating to the
      left as a fold clause `f = a * c * d` is parsed. */
  function ProductOf(ns: seq<string>): Expr
    requires |ns| >= 1
  {
    if |ns| == 1 then Ident(ns[0]) else Mul(ProductOf(ns[..|ns| - 1]), Ident(ns[|ns| - 1]))
  }

  /** Reading a fold clause's right-hand side gives back its identifiers in
      the order they are written; `f = a * c` reads as `[a, c]`. */
  lemma {:induction false} IdentsOfProduct(ns: seq<string>)
    requires |ns| >= 1
    ensures IdentsOf(ProductOf(ns)) == ns
  {
    if |ns| > 1 {
      var init := ns[..|ns| - 1];
      IdentsOfProduct(init);
      assert init + [ns[|ns| - 1]] == ns;
    }
  }
}
