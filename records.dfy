/**
 * The records a recognizer fills on success, the abstract builder steps the
 * emitter produces, and the errors that abort a run.
 */
module Records {
  import opened Tree

  /** Orientation of an operand: as stored (N) or transposed (T). */
  datatype Trans = N | T

  datatype MatMulInfo = MatMulInfo(
    C: string, A: string, B: string,
    m: string, n: string, k: string,
    transa: Trans, transb: Trans,
    alpha: string, beta: string,
    dimensionsForM: int, dimensionsForN: int, dimensionsForK: int)

  datatype MatVecInfo = MatVecInfo(
    x: string, A: string, y: string,
    transa: Trans,
    alpha: string, beta: string)

  /** A reshape candidate: both array names, both index lists and the fold
      clauses (new name, old names). */
  datatype ReshapeInfo = ReshapeInfo(
    lhs: string, rhs: string,
    lhsIndexes: seq<string>, rhsIndexes: seq<string>,
    newVar: seq<string>, oldVars: seq<seq<string>>)

  /** A permutation from `rhs` to `lhs`. */
  datatype TransposeInfo = TransposeInfo(lhs: string, rhs: string, permutation: seq<nat>)

  datatype ConvInfo = ConvInfo(out: string, filt: string, img: string)

  /** The reshape map: the dimension positions that collapse into the folded
      dimension, those that stay, and whether the folded block is written first
      (it is exactly when it holds position 0). */
  datatype ReshapeMap = ReshapeMap(toReshape: seq<nat>, notToReshape: seq<nat>, foldedFirst: bool)

  /** One emitted builder invocation. */
  datatype Step =
    | MatMulStep(mm: MatMulInfo)
    | MatVecStep(mv: MatVecInfo)
    | ReshapeStep(src: string, dst: string, reshapeMap: ReshapeMap)
    | GroupedReshapeStep(src: string, dst: string, groups: seq<seq<nat>>)
    | TransposeStep(tr: TransposeInfo)
    | ConvStep(conv: ConvInfo)

  /** Why a run aborts. */
  datatype ErrorKind =
    | MultipleWhereClauses        // matmul with more than one where clause
    | WhereNeedsTwoNames          // a fold clause naming fewer than two indices
    | FoldNotOnOneSide            // the fold name on neither or both sides
    | FoldNamesOnWrongSide        // the constituents missing from the other side
    | NotAnApplication            // a node read as an application or identifier is not one
    | UnsupportedWhereCount       // a reshape with neither one nor two fold clauses
    | FoldNamesLost               // a constituent missing after substitution
    | IndexCountMismatch          // the substituted index lists differ in length
    | EmptyReshapeGroup           // a reshape map with an empty group
    | NoZeroDimension             // a reshape map without position 0
    | UnknownBuilder              // no recognizer matched

  /** A fatal error with the statement it was raised for. */
  datatype Error = Error(kind: ErrorKind, stmt: Comprehension)
}
