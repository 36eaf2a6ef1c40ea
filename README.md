# TacticsDSL builder emitter in Dafny

This project models the core of the TacticsDSL builder emitter. The emitter
takes one tensor comprehension at a time, such as `C(i,j) += A(i,k) * B(k,j)`
or `C(f,y) = A(y,a,c) where f = a * c`. It recognises which primitive the
statement is and lowers it to a short sequence of builder steps: matmul,
matvec, reshape, transpose or convolution. The model covers:

- **Unification engine** (`matchers.dfy`, module `Matchers`).
  - A binding context maps placeholder ids to an `AssignedMatch`. The string
    `"nullptr"` marks an unbound placeholder, as in the source.
  - Placeholders draw their ids from a counter.
  - Structural matchers cover the binary `+`/`*` matcher, the wildcard and
    the array-access matcher.
  - The matchers are functions from (pattern, tree, bindings) to
    (success, bindings).
  - The classes `MatchingContext`, `PlaceholderIds`, `ArrayPlaceholder` and
    `OpAccessMatch` update their state in place. Each is proved equal to
    those functions.
- **Expression trees** (`tree.dfy`): `Add`, `Mul`, `Apply` and `Ident`, and
  the comprehension record.
- **Builder records** (`records.dfy`): the info records of `emitter.h`, the
  emitted steps and the error kinds that abort a statement.
- **Temporary names** (`symbol_table.dfy`): the symbol table's `tmp<N>`
  counter.
- **Index helpers** (`index_algebra.dfy`): `find`, `substitute`,
  `getOrdering`, `isConsecutive`, `reorder`, the reshape-group helpers and
  `getReshapeMap`. Each is written as a specification function, plus a
  method with a loop where the source has one.
- **Recognizers** (`recognizers.dfy`): the nine matmul/matvec shape
  recognizers, `matchMatMul`, `matchMatVec`, `matchReshape`,
  `matchTranspose` and `matchConv`.
- **Reshape planner** (`reshape_plan.dfy`): the single-clause reshape emitter
  as a function from the reshape record to the steps it emits.
- **Emitter** (`emitter.dfy`): the `Emitter` class with `EmitHow`,
  `EmitReshape` and its two fold cases, each proved against `Lower` and
  `PlanReshape`. For single-clause reshapes these emit the corrected plan
  described under Findings; `PlanReshapeAsWritten` is the code as written.

A fatal `ErrorReport` or a failed `assert` of the source becomes an `Err`
value with an `ErrorKind`. Success and failure are both described by the
`Emits` predicate. On success the new steps are appended to `emitted`. On
error `emitted` is unchanged and the error is returned.

Three behaviours of the code are worth naming, because a reader might expect
otherwise:

- **Fold count.** A matmul fold clause `k = a * b` is counted by
  `emitter.cpp:339-355`: `letSize` starts at 1, gains one per identifier and
  then loses one. The count is the number of identifiers in the fold clause
  (`Recognizers.FoldCountIsFolded`).
- **Convolution.** `matchConv` (`emitter.cpp:839-850`) reads the two children
  of whatever binary node the right-hand side is, so a sum is accepted as
  well as a product (`Emitter.LowerConvStatement`). A child that is not an
  application is the `NotAnApplication` error.
- **No rollback.** A failed access match does not roll back the bindings it
  made before failing (`Matchers.FailedMatchKeepsBindings`).

## Model

| member | source | states |
|---|---|---|
| Matchers.Register | dsl/matchers.cpp:13-15 | registering an id adds exactly that key; a new id is unassigned and a known id keeps its value (map insert does not overwrite) |
| Matchers.RegisterAll | dsl/matchers.cpp:60-65 | registering a list of placeholders knows exactly those ids plus the old ones, keeps old values and leaves every new id unassigned |
| Matchers.Assign | dsl/matchers.cpp:17-32 | succeeds iff the placeholder is unassigned or already holds the value; on success it holds the value; no other id changes; a bound id is never overwritten; the result extends the input bindings |
| Matchers.AssignIdempotent | dsl/matchers.cpp:17-32 | assigning the same value twice succeeds the second time and changes nothing |
| Matchers.AssignConflict | dsl/matchers.cpp:26-31 | assigning a different value to a bound placeholder fails and leaves the bindings as they were |
| Matchers.SentinelBindingIsForgotten | dsl/matchers.h:19 | binding a placeholder to the text "nullptr" leaves it unassigned, so a later different value is still accepted |
| Matchers.ExtendsTransitive | dsl/matchers.cpp:17-32 | binding-only growth of a context composes |
| Matchers.OpcodeChar | dsl/matchers.h:10-13 | the Add opcode is '+' and the Mul opcode is '*' |
| Matchers.MAdd | dsl/matchers.h:129-133 | m_Add builds a binary matcher on '+' with the given operands |
| Matchers.MMul | dsl/matchers.h:134-138 | m_Mul builds a binary matcher on '*' with the given operands |
| Matchers.UnifyIndices | dsl/matchers.cpp:82-90 | the argument loop only binds the listed index placeholders, only extends the context, and succeeds only on identifier arguments |
| Matchers.UnifyIndicesBinds | dsl/matchers.cpp:82-90 | after a successful loop every index placeholder holds the name of its argument |
| Matchers.UnifyIndicesOk | dsl/matchers.cpp:82-90 | with distinct placeholders the loop succeeds iff every argument is compatible with the context it started from |
| Matchers.UnifyIndicesSound | dsl/matchers.cpp:82-90 | a successful loop implies every argument was compatible with the starting context |
| Matchers.UnifyIndicesComplete | dsl/matchers.cpp:82-90 | if every argument is compatible with the starting context the loop succeeds |
| Matchers.AssignLeavesOthers | dsl/matchers.cpp:86-89 | binding one index placeholder does not change whether the later distinct placeholders are compatible |
| Matchers.AccessMatch | dsl/matchers.cpp:72-97 | an access match succeeds only on an application with as many identifier arguments as placeholders, then binds the array name and every index name, touches no other placeholder and only extends the context |
| Matchers.AccessMatchOk | dsl/matchers.cpp:72-97 | on an application of the right arity with identifier arguments, the match succeeds iff every index and the array name are compatible with the context |
| Matchers.AccessMatchTwo | dsl/matchers.cpp:72-97 | for a two-index access: success iff the three names are compatible, and the resulting context is the input with exactly those three bindings |
| Matchers.AccessMatchOne | dsl/matchers.cpp:72-97 | for a one-index access: success iff the two names are compatible, and the resulting context is the input with exactly those two bindings |
| Matchers.Match | dsl/matchers.h:83-87 | matching any pattern only extends the context and never touches a placeholder outside the pattern |
| Matchers.BinaryMatchShape | dsl/matchers.h:83-87 | a binary matcher fails without binding on a different opcode, returns the left failure unchanged, and succeeds iff the opcode agrees and both operands match in sequence |
| Matchers.FailedMatchKeepsBindings | dsl/matchers.h:83-87 | a product whose right operand fails still keeps the bindings made by the left operand (no rollback) |
| Matchers.MatchingContext.constructor | dsl/matchers.h:35 | a new context is empty |
| Matchers.MatchingContext.RegisterPlaceholder | dsl/matchers.cpp:13-15 | the context map becomes Register of the old one |
| Matchers.MatchingContext.AssignToPlaceholder | dsl/matchers.cpp:17-32 | result and new map are Assign of the old map; success iff compatible; a failure changes nothing |
| Matchers.MatchingContext.GetValueForId | dsl/matchers.cpp:51-58 | found iff the id is registered; the value is the stored one when found, the caller's value otherwise |
| Matchers.ContextSlot.constructor | dsl/matchers.cpp:8-11 | the active-context slot starts empty |
| Matchers.AccessPatternContext.constructor | dsl/matchers.h:63-67 | requires no active context; installs a fresh empty context as the active one |
| Matchers.AccessPatternContext.Release | dsl/matchers.h:68 | the active-context slot is cleared |
| Matchers.AccessPatternContext.Get | dsl/matchers.cpp:43-49 | a registered placeholder reads back its stored value |
| Matchers.PlaceholderIds.constructor | dsl/matchers.cpp:6 | the id counter starts at zero with no ids issued |
| Matchers.PlaceholderIds.NewPlaceholder | dsl/matchers.cpp:60-65 | each placeholder takes the next id, larger than every earlier one, and registers it in the active context |
| Matchers.ArrayPlaceholder.constructor | dsl/matchers.h:98 | an array placeholder takes a fresh id, registers it, and has no index placeholders |
| Matchers.ArrayPlaceholder.Indexed | dsl/matchers.h:99-104 | calling the placeholder replaces its index list with the given one and returns a copy with that list |
| Matchers.OpAccessMatch.constructor | dsl/matchers.h:114 | the matcher holds the given array placeholder |
| Matchers.OpAccessMatch.Match | dsl/matchers.cpp:72-97 | the in-place match returns and leaves exactly what AccessMatch computes from the old context |
| Tree.IdentsOf | dsl/emitter.cpp:21-26 | the pre-order identifier walk yields an identifier's own name, and an application's name first |
| Tree.IdentsOfProduct | dsl/emitter.cpp:21-26 | a fold clause `f = a * c * ...` is read back as its identifiers in written order, so `f = a * c` gives [a, c] |
| SymbolTable.NatToString | dsl/emitter.cpp:10 | decimal rendering: non-empty, one digit exactly below ten, last digit is n mod 10 |
| SymbolTable.NatToStringInjective | dsl/emitter.cpp:10 | different numbers render differently |
| SymbolTable.TmpNameInjective | dsl/emitter.cpp:9-13 | "tmp" names are equal iff their counters are |
| SymbolTable.SymbolTableMap.constructor | dsl/emitter.h:75 | the counter starts at zero and the last emitted name is empty |
| SymbolTable.SymbolTableMap.GetNextVariable | dsl/emitter.cpp:9-13 | returns tmp of the counter, increments it, records the name as last emitted, and the name differs from every earlier one |
| SymbolTable.SymbolTableMap.GetLastEmittedVariable | dsl/emitter.cpp:15-17 | the last emitted name is the most recently drawn temporary, or empty before any |
| IndexAlgebra.FindAll | dsl/emitter.cpp:494-500 | true iff every target occurs in the list |
| IndexAlgebra.IndexOf | dsl/emitter.cpp:605-606 | the distance to the first occurrence, or the length when absent |
| IndexAlgebra.FindFirst | dsl/emitter.cpp:506 | the search loop returns IndexOf |
| IndexAlgebra.RemoveAll | dsl/emitter.cpp:510 | erase-remove deletes every copy of the name, keeps every other name and never grows the list |
| IndexAlgebra.RemoveAllAbsent | dsl/emitter.cpp:510 | erasing an absent name changes nothing |
| IndexAlgebra.RemoveAllConcat | dsl/emitter.cpp:510 | erasing distributes over concatenation |
| IndexAlgebra.EraseAll | dsl/emitter.cpp:510 | the erase loop computes RemoveAll |
| IndexAlgebra.SubstitutedPresent | dsl/emitter.cpp:504-511 | substitution inserts the replacement before the first occurrence and then erases every occurrence, including any in the replacement |
| IndexAlgebra.SubstitutedParts | dsl/emitter.cpp:504-511 | an absent name leaves the list unchanged; otherwise the layout above; the name never survives; the other names are exactly those of the list and the replacement |
| IndexAlgebra.SubstitutedMembers | dsl/emitter.cpp:504-511 | after substituting a present name, any other name occurs iff it was in the list or the replacement |
| IndexAlgebra.SubstitutedSingle | dsl/emitter.cpp:504-511 | with a single occurrence not in the replacement, the name is replaced in place and the length grows by the replacement length minus one |
| IndexAlgebra.Substitute | dsl/emitter.cpp:504-511 | the in-place substitution computes Substituted |
| IndexAlgebra.Positions | dsl/emitter.cpp:518-521 | every position the inner loop pushes for a name holds that name |
| IndexAlgebra.Ordering | dsl/emitter.cpp:514-523 | every entry of the ordering is a valid source position |
| IndexAlgebra.PositionsDistinct | dsl/emitter.cpp:518-521 | in a list without repetition a present name contributes exactly its one position |
| IndexAlgebra.PositionsAbsent | dsl/emitter.cpp:518-521 | an absent name contributes nothing |
| IndexAlgebra.OrderingOfPermutation | dsl/emitter.cpp:514-523 | for a repetition-free source containing the destination names, the ordering has one entry per destination name and points at that name in the source |
| IndexAlgebra.GetOrdering | dsl/emitter.cpp:514-523 | the nested loops compute Ordering |
| IndexAlgebra.IsConsecutive | dsl/emitter.cpp:525-534 | the early-exit loop answers Consecutive |
| IndexAlgebra.ConsecutiveFrom | dsl/emitter.cpp:525-534 | a consecutive ordering is its first entry plus the position |
| IndexAlgebra.ConsecutiveBasics | dsl/emitter.cpp:525-534 | empty and one-entry orderings and every identity range are consecutive |
| IndexAlgebra.ConsecutiveIffSameOrder | dsl/emitter.cpp:711-715 | for a repetition-free source of equal length holding the destination names, the ordering is consecutive iff the two lists are equal, so the transpose test fires exactly on a reordering |
| IndexAlgebra.ConsecutiveMeansSame | dsl/emitter.cpp:525-534 | a consecutive position map of full length between equal-length lists is the identity, so the lists are equal |
| IndexAlgebra.SameMeansIdentity | dsl/emitter.cpp:514-534 | the ordering of a repetition-free list against itself is consecutive |
| IndexAlgebra.Reordered | dsl/emitter.cpp:536-543 | reordering keeps the length of the ordering |
| IndexAlgebra.Reorder | dsl/emitter.cpp:536-543 | the push loop computes Reordered |
| IndexAlgebra.ReorderRoundTrip | dsl/emitter.cpp:514-543 | reordering the source by its ordering towards a destination yields the destination |
| IndexAlgebra.GroupPositions | dsl/emitter.cpp:601-608 | one entry per old name, each its first position in the index list |
| IndexAlgebra.GetReshapeGroupImpl | dsl/emitter.cpp:601-608 | the loop computes GroupPositions, and every present name is found at its position |
| IndexAlgebra.GetReshapeGroup | dsl/emitter.cpp:610-631 | succeeds iff every fold name is on exactly one side, fails with FoldNotOnOneSide otherwise, and yields one group per clause |
| IndexAlgebra.GetReshapeGroupPositions | dsl/emitter.cpp:623-628 | each group holds the positions of its old names in the opposite side's original index list |
| IndexAlgebra.Unreshaped | dsl/emitter.cpp:705-709 | the complement holds exactly the positions below n not in the group, in increasing order |
| IndexAlgebra.NotToReshape | dsl/emitter.cpp:705-709 | the loop computes Unreshaped |
| IndexAlgebra.GetReshapeMap | dsl/emitter.cpp:545-599 | a map exists iff both groups are non-empty and one of them holds position 0; it keeps both groups and records which one holds 0 |
| IndexAlgebra.ZeroInGroupOrComplement | dsl/emitter.cpp:550-553 | with at least one position, 0 is in the group or its complement, so the zero-dimension assertion never fires on a complement |
| Recognizers.MatMulContextRegistered | dsl/emitter.cpp:62-67 | the matmul context is the empty context with A, B, i, j, k registered in that order |
| Recognizers.MatVecContextRegistered | dsl/emitter.cpp:190-194 | the matvec context is the empty context with y, A, i, j registered in that order |
| Recognizers.ProductPattern | dsl/emitter.cpp:68-70 | the product pattern, optionally under a wildcard factor, uses exactly the two arrays' placeholders and is well formed iff both have indices |
| Recognizers.MatMulShape | dsl/emitter.cpp:60-90 | a shape recognizer's result fits the statement: output name distinct from both inputs, output indices [m, n], alpha "alpha" exactly for the scaled variant |
| Recognizers.MatMulShapeNeedsProduct | dsl/emitter.cpp:70-72 | a right-hand side that is not a product matches no matmul shape |
| Recognizers.MatMulDeclinesNonProduct | dsl/emitter.cpp:305-332 | matchMatMul declines a statement whose right-hand side is not a product |
| Recognizers.ReadMatMul | dsl/emitter.cpp:73-89 | the record is filled iff the output differs from both inputs and its indices are [m, n]; it then names C, A, B, m, n, k, alpha and beta "1" |
| Recognizers.MatchMatMul | dsl/emitter.cpp:305-357 | a recognised matmul accumulates into a two-index output different from both inputs, with beta "1"; the only error is a second where clause |
| Recognizers.CombineShapes | dsl/emitter.cpp:312-356 | declines iff no shape matched, fails iff one matched with more than one where clause, and sets transa/transb from the orientations that matched |
| Recognizers.MatVecShape | dsl/emitter.cpp:188-215 | a matvec shape's result names the output, differs from both inputs, has one output index, the recognizer's transpose flag, alpha "alpha" exactly when scaled, and beta "1" |
| Recognizers.ReadMatVec | dsl/emitter.cpp:200-214 | the record is filled iff the output differs from both inputs and its single index is i |
| Recognizers.MatchMatVec | dsl/emitter.cpp:360-372 | a recognised matvec accumulates into a one-index output different from its inputs, with beta "1" and alpha "1" or "alpha" |
| Recognizers.FoldClauses | dsl/emitter.cpp:469-480 | each clause yields its identifiers; fails with WhereNeedsTwoNames iff some clause names fewer than two |
| Recognizers.FoldClausesOfWideClauses | dsl/emitter.cpp:469-480 | clauses that all name two or more identifiers are read without error, as their identifier lists |
| Recognizers.MatchReshape | dsl/emitter.cpp:436-482 | a recognised reshape overwrites, has one application on the right, takes the names and indices of both sides, index counts differ, and records per clause its new name and its identifier list (at least two names); no match exactly when the statement is not `=`, has not exactly one application, or has equal index counts; errors only for a non-identifier argument or a short clause |
| Recognizers.MatchTranspose | dsl/emitter.cpp:796-827 | a recognised transpose overwrites, has equal index counts, no where clause, every output index among the input's, and takes both array names |
| Recognizers.TransposeStatementMatches | dsl/emitter.cpp:796-827 | a plain transpose statement is not a reshape and yields the permutation Ordering(input indices, output indices) |
| Recognizers.ReshapeStatementMatches | dsl/emitter.cpp:436-482 | `out(idx) = inp(src) where ...` with different index counts and wide clauses is recognised as the reshape of exactly those names, indices, new names and identifier lists |
| Recognizers.OverwriteDeclinesProducts | dsl/emitter.cpp:306-307 | a `=` statement is neither a matmul nor a matvec, since both require `+=` |
| Recognizers.TransposePermutation | dsl/emitter.cpp:825 | the recognised permutation reorders the input indices into the output indices |
| Recognizers.MatchConv | dsl/emitter.cpp:839-850 | any accumulation into two indices is taken as a convolution of the two children's names, and fails only when a child is not an application |
| Recognizers.ProductSteps | dsl/matchers.h:83-87 | the product matcher checks '*', then matches the left access, then the right one on the left's bindings |
| Recognizers.NNProductMatch | dsl/emitter.cpp:60-72 | A(a1,a2)*B(b1,b2) matches A(i,k)*B(k,j) iff a2 and b1 agree; it binds A, B, i=a1, j=b2, k=b1 |
| Recognizers.NNOnProduct | dsl/emitter.cpp:60-90 | isNN on a product is the record read with m=a1, n=b2, k=b1 when the k indices agree, else no match |
| Recognizers.TNOnProduct | dsl/emitter.cpp:28-58 | isTN on a product reads m=a2, n=b2, k=b1 when a1 and b1 agree |
| Recognizers.NTOnProduct | dsl/emitter.cpp:124-154 | isNT on a product reads m=a1, n=b1, k=b2 when a2 and b2 agree |
| Recognizers.TTOnProduct | dsl/emitter.cpp:156-186 | isTT on a product reads m=a2, n=b1, k=b2 when a1 and b2 agree |
| Recognizers.NNWithAlphaOnPlainProduct | dsl/emitter.cpp:92-104 | the scaled recognizer rejects an unscaled product |
| Recognizers.NNWithAlphaOnProduct | dsl/emitter.cpp:92-122 | on s * product, isNNWithAlpha reads like isNN with alpha "alpha" |
| Recognizers.OrientationShapes | dsl/emitter.cpp:28-186 | on a statement written in orientation (ta, tb) exactly the matching recognizer fires |
| Recognizers.MatMulOrientation | dsl/emitter.cpp:305-357 | each of the four orientations yields transa/transb equal to its orientation, alpha "1", beta "1" and the fold counts, or the error for two where clauses |
| Recognizers.FoldCountIsFolded | dsl/emitter.cpp:339-355 | the letSize arithmetic equals the number of identifiers of the clause on the folded axis and 1 elsewhere |
| Recognizers.CombineSingle | dsl/emitter.cpp:312-356 | when exactly one orientation matched, the record carries that orientation's flags and the fold counts |
| Recognizers.PlainShapeOnScaled | dsl/emitter.cpp:60-72 | an unscaled matmul shape rejects a scaled product |
| Recognizers.ScaledShapes | dsl/emitter.cpp:28-186 | on a scaled statement only the NN-with-alpha recognizer can fire, and only in orientation NN |
| Recognizers.MatMulWithAlpha | dsl/emitter.cpp:305-357 | a scaled NN statement yields alpha "alpha"; scaled transposed orientations are not recognised as matmul |
| Recognizers.VecProductMatch | dsl/emitter.cpp:188-199 | A(a1,a2)*y(y1) matches iff the j index agrees with y1; it binds A, y and i |
| Recognizers.VecShapeOnPlain | dsl/emitter.cpp:188-302 | on an unscaled product only the unscaled matvec shapes can match, with the record read from i |
| Recognizers.PlainVecShapeOnPlain | dsl/emitter.cpp:188-215 | the unscaled shape on an unscaled product is the record when j agrees |
| Recognizers.ScaledVecShapeOnPlain | dsl/emitter.cpp:217-228 | a scaled shape rejects an unscaled product |
| Recognizers.VecShapeOnScaled | dsl/emitter.cpp:188-302 | on a scaled product only the scaled matvec shapes can match, with alpha "alpha" |
| Recognizers.ScaledVecShapeOnScaled | dsl/emitter.cpp:217-244 | the scaled shape on a scaled product is the record when j agrees |
| Recognizers.PlainVecShapeOnScaled | dsl/emitter.cpp:188-199 | an unscaled shape rejects a scaled product |
| Recognizers.MatVecOrientation | dsl/emitter.cpp:360-372 | x(i) += [s *] A(i,j or j,i) * y(j) is recognised with the orientation's flag and alpha "alpha" exactly when scaled |
| ReshapePlan.Analyze | dsl/emitter.cpp:673-715 | the side and constituent checks with their errors; the fold expanded on its side only; equal lengths; the group holds the constituent positions; the complement is exactly the other positions; transpose iff the ordering is not consecutive |
| ReshapePlan.Layout | dsl/emitter.cpp:697-715 | the group positions hold the constituents, the complement holds the rest, and transpose iff not consecutive |
| ReshapePlan.TempsUsed | dsl/emitter.cpp:732-750 | a reshape draws at most one temporary |
| ReshapePlan.RhsFoldBlockAsWritten | dsl/emitter.cpp:725-726 | as written: as many consecutive positions as the right-hand side has indices, from the fold name's position |
| ReshapePlan.RhsFoldBlock | dsl/emitter.cpp:725-726 | corrected: one consecutive position per constituent, from the fold name's position |
| ReshapePlan.TransposeOrderingAsWritten | dsl/emitter.cpp:711-715 | as written: entries are output positions, and for distinct output indices it rearranges the output indices into the input indices |
| ReshapePlan.TransposeOrdering | dsl/emitter.cpp:825 | corrected, with the transpose recognizer's convention: entries are input positions, and for distinct input indices it rearranges the input indices into the output indices |
| ReshapePlan.Assemble | dsl/emitter.cpp:717-768 | errors only from the reshape map; two steps exactly when transposing; a right-hand fold reshapes the given block, a left-hand fold the constituent group; the transpose carries the given permutation |
| ReshapePlan.PlanReshapeAsWritten | dsl/emitter.cpp:664-769 | as written: equal to the corrected plan except for right-hand folds and transposes, where it reshapes RhsFoldBlockAsWritten and transposes with TransposeOrderingAsWritten |
| ReshapePlan.PlanReshape | dsl/emitter.cpp:664-769 | corrected: a right-hand fold reshapes RhsFoldBlock and a transpose carries TransposeOrdering |
| ReshapePlan.ReshapeRejects | dsl/emitter.cpp:664-686 | the where-count, fold-side and constituent-side errors, and the two-clause path's success condition |
| ReshapePlan.Plan | dsl/emitter.cpp:664-769 | as written or corrected, a reshape fails only with one of the seven reshape error kinds, and a successful one has 1 + TempsUsed steps |
| ReshapePlan.AssembleChains | dsl/emitter.cpp:717-768 | the steps lead from the input array to the output array, through tmp<n> when transposing, with the transpose after a right-hand fold and before a left-hand fold |
| ReshapePlan.ReshapeChains | dsl/emitter.cpp:664-769 | every successful reshape plan, as written or corrected, is a chain from input to output of 1 + TempsUsed steps, ordered by the fold side |
| ReshapePlan.TransposeIffReordered | dsl/emitter.cpp:711-715 | a transpose is planned iff the expanded index lists differ |
| ReshapePlan.FoldTransposeRearranges | dsl/emitter.cpp:746-748 | the corrected transpose permutation reorders the expanded input indices into the expanded output indices |
| ReshapePlan.RhsFoldBlockIsConstituents | dsl/emitter.cpp:719-731 | the corrected right-hand fold block covers exactly the constituents' positions, and its complement is every other position |
| ReshapePlan.OrderingPinned | dsl/emitter.cpp:514-523 | in a repetition-free source each ordering entry is the one position holding the name |
| ReshapePlan.RhsFoldExampleLayout | dsl/emitter.cpp:688-715 | the layout of C(a,c,x,y) = A(f,x,y) where f = a*c |
| ReshapePlan.RhsFoldExampleBlocks | dsl/emitter.cpp:725-726 | on that statement the block as written is [0,1,2] and the intended one [0,1] |
| ReshapePlan.RhsFoldBlockCounterexample | dsl/emitter.cpp:725-726 | as written, that statement is reshaped with group [0,1,2] and complement [3] |
| ReshapePlan.RhsFoldBlockExample | dsl/emitter.cpp:725-726 | corrected, that statement is reshaped with group [0,1] and complement [2,3] |
| ReshapePlan.TransposeExampleOrderings | dsl/emitter.cpp:514-523 | the two orderings between [a,c,y] and [y,a,c] |
| ReshapePlan.BrokenProgression | dsl/emitter.cpp:525-534 | [2,0,1] is not consecutive |
| ReshapePlan.TransposeExampleExpansion | dsl/emitter.cpp:691-703 | the expansion and group of C(f,y) = A(y,a,c) where f = a*c |
| ReshapePlan.TransposeExampleLayout | dsl/emitter.cpp:688-715 | the layout of that statement: fold on the left, transpose needed |
| ReshapePlan.AssembleLhsTransposed | dsl/emitter.cpp:744-768 | a transposed left-hand fold is a transpose into tmp<n> followed by a reshape from it |
| ReshapePlan.AssembleRhsPlain | dsl/emitter.cpp:719-741 | a right-hand fold without transpose is one reshape from input to output |
| ReshapePlan.ExampleReadings | dsl/emitter.cpp:536-543 | reading [y,a,c] by [2,0,1] gives [c,y,a] and by [1,2,0] gives [a,c,y] |
| ReshapePlan.TransposeOrderingCounterexample | dsl/emitter.cpp:713 | as written, the transpose of that statement carries [2,0,1], which does not rebuild [a,c,y] |
| ReshapePlan.TransposeOrderingExample | dsl/emitter.cpp:713 | corrected, it carries [1,2,0], which does |
| Emitter.LowerUnknownIffNoneMatch | dsl/emitter.cpp:873-889 | "unknown builder" is reported exactly when all five recognizers decline |
| Emitter.Lower | dsl/emitter.cpp:873-889 | a successful statement emits one step, or two for a reshape that draws a temporary |
| Emitter.Drawn | dsl/emitter.cpp:873-889 | at most one temporary is drawn, and only by a statement that the product recognizers decline and the reshape recognizer takes |
| Emitter.LowerOfReshape | dsl/emitter.cpp:873-880 | once matmul and matvec decline, a recognised reshape lowers to its plan and draws what its plan draws |
| Emitter.LowerReshapeStatement | dsl/emitter.cpp:873-880 | `out(idx) = inp(src) where ...` with different index counts lowers to the reshape plan of its own record |
| Emitter.LowerRhsFoldStatement | dsl/emitter.cpp:873-880 | the statement `C(a,c,x,y) = A(f,x,y) where f = a * c` lowers to the plan of the right-hand fold record of the first finding |
| Emitter.LowerTransposeFoldStatement | dsl/emitter.cpp:873-880 | the statement `C(f,y) = A(y,a,c) where f = a * c` lowers to the plan of the transposing record of the second finding |
| Emitter.ReshapeExcludesTranspose | dsl/emitter.cpp:436-451 | a statement taken as a reshape is never a transpose |
| Emitter.LowerMatMulStatement | dsl/emitter.cpp:873-876 | a matmul statement, which convolution would also take, lowers to its matmul step because matmul is tried first |
| Emitter.LowerMatVecStatement | dsl/emitter.cpp:873-878 | a matvec statement lowers to one matvec step and draws no temporary |
| Emitter.LowerTransposeStatement | dsl/emitter.cpp:873-883 | a transpose statement lowers to one transpose step whose permutation rebuilds the output indices |
| Emitter.LowerConvStatement | dsl/emitter.cpp:873-886 | out(i,j) += f(..) + img(..) lowers to one convolution step |
| Emitter.AnalyzeFold | dsl/emitter.cpp:673-715 | the step-by-step emitter code computes Analyze |
| Emitter.FoldPositions | dsl/emitter.cpp:699-703 | the lookup loop finds every constituent iff all are present, and then yields their group positions |
| Emitter.MakeBlock | dsl/emitter.cpp:725-726 | the push loop builds the block of consecutive positions |
| Emitter.Emitter.constructor | dsl/emitter.h:88-89 | an emitter holds its statement and the shared symbol table and has emitted nothing |
| Emitter.Emitter.EmitReshape | dsl/emitter.cpp:664-769 | corrected: emits PlanReshape, or reports its error with nothing emitted, drawing TempsUsed temporaries |
| Emitter.Emitter.EmitFoldOnRhs | dsl/emitter.cpp:719-750 | corrected: emits the right-hand fold steps with RhsFoldBlock and TransposeOrdering (reshape, then transpose from the temporary) and draws a temporary exactly when transposing |
| Emitter.Emitter.EmitFoldOnLhs | dsl/emitter.cpp:743-768 | corrected: emits the left-hand fold steps with TransposeOrdering (transpose into the temporary, then reshape) and draws a temporary exactly when transposing |
| Emitter.Emitter.EmitHow | dsl/emitter.cpp:873-889 | corrected for reshapes: appends exactly the steps of Lower for the statement or reports its error, and advances the temporary counter by what the chosen recognizer draws |

## Left out

- Text output: the builder lines written to `raw_ostream`, `composeGroup`, `toString(Trans)`, `emitMatMul`/`emitMatVec`/`emitTranspose`/`emitConv` formatting and the string rendering of `getReshapeMap`. Steps are modelled as values carrying the same data; rendering is formatting only.
- `emitWhat` and `recursivelyEmitRhs`: they render the input statement as text. That is formatting, with no decision the emitter depends on.
- `MatchingContext::dump`, `m_Placeholder::dump` and `AccessPatternContext::dump` are console output.
- `thread_local` storage: the id counter, the active-context pointer and the symbol table are objects passed explicitly (`PlaceholderIds`, `ContextSlot`, `SymbolTableMap`). Other threads are not modelled.
- Recognizers: each recognizer starts from a fresh context whose placeholders have fixed ids in registration order (matmul A=0, B=1, i=2, j=3, k=4; matvec y=0, A=1, i=2, j=3). The program-wide counter gives them larger ids, and the results do not depend on the id values. `PlaceholderIds` models the counter itself.
- Bindings: contexts are `map<int, AssignedMatch>`; `size_t` keys are not bounded.
- Partial output before an error: when an `ErrorReport` or assertion fires after a builder line was already written, the model emits nothing for that statement. The temporary counter is still advanced as in the source.
- Error messages: each `ErrorReport` text is reduced to an `ErrorKind`. Assertion failures on arguments that are not applications are `NotAnApplication`.
- The parser, `tree.h`/`tree_views.h` and `main.cpp` are not part of this model. The tree is the closed type `Expr`. A comprehension's output indices and fold clauses are taken as already parsed.
- `SymbolTableMap::symbolTable_` (the tensor map) is never read or written by the core and is not modelled.
- Matchers.Match: its contract states only the frame and monotonicity. What it matches is stated per pattern by `BinaryMatchShape`, `ProductSteps` and the access-match lemmas.
- EmitReshape (Emitter.Emitter.EmitReshape): emits the corrected plan `PlanReshape`, not the code as written. For single-clause reshapes the two differ exactly as the two findings below describe; `PlanReshapeAsWritten` models the code as written and states where the two agree.
- EmitFoldOnRhs (Emitter.Emitter.EmitFoldOnRhs): builds the block of RhsFoldBlock, one position per constituent, where the source pushes `rhsIndexes.size()` positions; its permutation is TransposeOrdering, where the source passes `getOrdering(lhsIndexesCpy, rhsIndexesCpy)`.
- EmitFoldOnLhs (Emitter.Emitter.EmitFoldOnLhs): its permutation is TransposeOrdering, where the source passes `getOrdering(lhsIndexesCpy, rhsIndexesCpy)`.
- EmitHow (Emitter.Emitter.EmitHow): emits the corrected reshape steps through EmitReshape.
- Lower (Emitter.Lower): lowers a recognised reshape with `PlanReshape`, the corrected plan, rather than `PlanReshapeAsWritten`.
- Recognizers.MatchMatMul: its contract does not name the transpose flags. They are stated for every orientation by `MatMulOrientation` and `MatMulWithAlpha`.

## Findings

| source | as written | input that shows it | evidently intended | confidence | as-written member | corrected member |
|---|---|---|---|---|---|---|
| dsl/emitter.cpp:725-726 | for a fold on the right-hand side, the reshape group is `rhsIndexes.size()` positions from the fold's position | `C(a,c,x,y) = A(f,x,y) where f = a * c`: group [0,1,2], complement [3] | one position per constituent: group [0,1], complement [2,3] | not executed | ReshapePlan.RhsFoldBlockCounterexample | ReshapePlan.RhsFoldBlockExample |
| dsl/emitter.cpp:713 | the permutation handed to the transpose is `getOrdering(lhsIndexesCpy, rhsIndexesCpy)`; `matchTranspose` (line 825) builds a transpose's permutation the other way round, `getOrdering(rhs, lhs)` | `C(f,y) = A(y,a,c) where f = a * c`: permutation [2,0,1], which reads [y,a,c] as [c,y,a] | [1,2,0], which reads [y,a,c] as [a,c,y] | not executed | ReshapePlan.TransposeOrderingCounterexample | ReshapePlan.TransposeOrderingExample |

`PlanReshapeAsWritten`, `RhsFoldBlockAsWritten` and `TransposeOrderingAsWritten` are the code as written. `PlanReshape`, `RhsFoldBlock` and `TransposeOrdering` are the corrected half, and the emitter (`Lower` and the `Emitter` class) uses them. `RhsFoldBlockIsConstituents` and `FoldTransposeRearranges` prove the intended properties for every input. `LowerRhsFoldStatement` and `LowerTransposeFoldStatement` connect the two witness statements to those plans through the recognizers.
