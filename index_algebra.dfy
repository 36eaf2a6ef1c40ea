/**
 * The helpers the reshape planner works with: lookups and substitution on
 * index-name lists, the ordering between two index lists, the consecutive
 * test, reordering, and the position groups of a reshape map.
 */
module IndexAlgebra {
  import opened Wrappers
  import opened Seqs
  import opened Records

  // ---------------------------------------------------------------------
  // Lookups

  /** Every name of `targets` occurs in `xs` (the list form of find). */
  function FindAll(targets: seq<string>, xs: seq<string>): (r: bool)
    ensures r <==> forall i :: 0 <= i < |targets| ==> targets[i] in xs
  {
    if targets == [] then true
    else if targets[0] !in xs then false
    else FindAll(targets[1..], xs)
  }

  /** The position of the first occurrence of `x`, or |xs| when there is none
      (the distance from the start to what std::find returns). */
  function IndexOf(xs: seq<string>, x: string): (r: nat)
    ensures r <= |xs|
    ensures r < |xs| ==> xs[r] == x
    ensures forall j :: 0 <= j < r ==> xs[j] != x
  {
    if xs == [] then 0
    else if xs[0] == x then 0
    else 1 + IndexOf(xs[1..], x)
  }

  // ---------------------------------------------------------------------
  // Substitution

  /** `xs` without any occurrence of `x`, the others in their order. */
  function RemoveAll(xs: seq<string>, x: string): (r: seq<string>)
    ensures x !in r
    ensures forall y :: y != x ==> (y in r <==> y in xs)
    ensures |r| <= |xs|
  {
    if xs == [] then []
    else RemoveAll(xs[..|xs| - 1], x) + (if xs[|xs| - 1] == x then [] else [xs[|xs| - 1]])
  }

  lemma {:induction false} RemoveAllAbsent(xs: seq<string>, x: string)
    requires x !in xs
    ensures RemoveAll(xs, x) == xs
  {
    if xs != [] {
      RemoveAllAbsent(xs[..|xs| - 1], x);
      assert xs[..|xs| - 1] + [xs[|xs| - 1]] == xs;
    }
  }

  lemma {:induction false} RemoveAllConcat(a: seq<string>, b: seq<string>, x: string)
    ensures RemoveAll(a + b, x) == RemoveAll(a, x) + RemoveAll(b, x)
    decreases |b|
  {
    if b == [] {
      assert a + b == a;
    } else {
      var b' := b[..|b| - 1];
      var last := b[|b| - 1];
      var tail := if last == x then [] else [last];
      RemoveAllConcat(a, b', x);
      assert (a + b)[..|a + b| - 1] == a + b';
      assert (a + b)[|a + b| - 1] == last;
      assert RemoveAll(a + b, x) == RemoveAll(a + b', x) + tail;
      assert RemoveAll(b, x) == RemoveAll(b', x) + tail;
    }
  }

  /** Replaces the first occurrence of `what` in `target` by the names `with`
      and then removes every occurrence of `what` (also any inside `with`).
      A target without `what` is returned unchanged. */
  function Substituted(target: seq<string>, what: string, with: seq<string>): seq<string>
  {
    if what !in target then target
    else
      var k := IndexOf(target, what);
      RemoveAll(target[..k] + with + target[k..], what)
  }

  /** Substitution where `what` occurs: the names before its first
      occurrence, then `with`, then the rest, the last two without `what`. */
  lemma SubstitutedPresent(target: seq<string>, what: string, with: seq<string>)
    requires what in target
    ensures var k := IndexOf(target, what);
            Substituted(target, what, with) ==
              target[..k] + RemoveAll(with, what) + RemoveAll(target[k + 1..], what)
  {
    var k := IndexOf(target, what);
    var pre, post := target[..k], target[k + 1..];
    assert target[k..] == [what] + post;
    assert what !in pre;
    RemoveAllConcat(pre + with, [what] + post, what);
    RemoveAllConcat(pre, with, what);
    RemoveAllConcat([what], post, what);
    RemoveAllAbsent(pre, what);
    assert RemoveAll([what], what) == [];
    assert [] + RemoveAll(post, what) == RemoveAll(post, what);
  }

  /** What substitution does to the list: nothing without `what`; otherwise
      the names before the first `what`, then `with`, then the rest, each part
      in its own order and with `what` taken out. */
  lemma SubstitutedParts(target: seq<string>, what: string, with: seq<string>)
    ensures what !in target ==> Substituted(target, what, with) == target
    ensures what in target ==>
              var k := IndexOf(target, what);
              Substituted(target, what, with) ==
                target[..k] + RemoveAll(with, what) + RemoveAll(target[k + 1..], what)
    ensures what !in Substituted(target, what, with)
    ensures what in target ==>
              forall y :: y != what ==> (y in Substituted(target, what, with) <==> y in target || y in with)
  {
    if what in target {
      SubstitutedPresent(target, what, with);
      SubstitutedMembers(target, what, with);
    }
  }

  /** Substitution keeps every other name of `target` and adds those of
      `with`. */
  lemma SubstitutedMembers(target: seq<string>, what: string, with: seq<string>)
    requires what in target
    ensures forall y :: y != what ==> (y in Substituted(target, what, with) <==> y in target || y in with)
  {
    var k := IndexOf(target, what);
    var whole := target[..k] + with + target[k..];
    assert target == target[..k] + target[k..];
    forall y | y != what
      ensures y in whole <==> y in target || y in with
    {
      assert y in whole <==> y in target[..k] || y in with || y in target[k..];
    }
  }

  /** The case the planner relies on: `what` occurs once and `with` does not
      mention it. Then the names of `with` stand exactly where `what` stood,
      and the length grows by |with| - 1. */
  lemma SubstitutedSingle(target: seq<string>, what: string, with: seq<string>, k: nat)
    requires k < |target| && target[k] == what
    requires what !in target[..k] && what !in target[k + 1..] && what !in with
    ensures Substituted(target, what, with) == target[..k] + with + target[k + 1..]
    ensures |Substituted(target, what, with)| == |target| - 1 + |with|
  {
    SubstitutedParts(target, what, with);
    assert IndexOf(target, what) == k;
    RemoveAllAbsent(with, what);
    RemoveAllAbsent(target[k + 1..], what);
  }

  /** The linear search of std::find: the first position holding `x`, or
      |xs| when there is none. */
  method FindFirst(xs: seq<string>, x: string) returns (k: nat)
    ensures k == IndexOf(xs, x)
  {
    k := 0;
    while k < |xs| && xs[k] != x
      invariant k <= |xs|
      invariant forall j :: 0 <= j < k ==> xs[j] != x
    {
      k := k + 1;
    }
    IndexOfFirst(xs, x, k);
  }

  /** A position holding `x` (or the end) with no `x` before it is the one
      IndexOf finds. */
  lemma {:induction false} IndexOfFirst(xs: seq<string>, x: string, k: nat)
    requires k <= |xs| && (k < |xs| ==> xs[k] == x)
    requires forall j :: 0 <= j < k ==> xs[j] != x
    ensures IndexOf(xs, x) == k
  {
    if xs != [] && k > 0 {
      IndexOfFirst(xs[1..], x, k - 1);
    }
  }

  /** The erase-remove idiom: keeps every element other than `x`, in order. */
  method EraseAll(xs: seq<string>, x: string) returns (r: seq<string>)
    ensures r == RemoveAll(xs, x)
  {
    r := [];
    var i := 0;
    while i < |xs|
      invariant 0 <= i <= |xs|
      invariant r == RemoveAll(xs[..i], x)
    {
      assert xs[..i + 1][..i] == xs[..i];
      assert RemoveAll(xs[..i + 1], x) == r + (if xs[i] == x then [] else [xs[i]]);
      if xs[i] != x {
        r := r + [xs[i]];
      }
      i := i + 1;
    }
    assert xs[..i] == xs;
  }

  /** The in-place substitution: find the first `what`, insert `with` before
      it, then erase every `what`. */
  method Substitute(target: seq<string>, what: string, with: seq<string>) returns (r: seq<string>)
    ensures r == Substituted(target, what, with)
  {
    var k := FindFirst(target, what);
    if k == |target| {
      return target;
    }
    r := EraseAll(target[..k] + with + target[k..], what);
  }

  // ---------------------------------------------------------------------
  // Orderings

  /** The positions of `x` in `s`, in increasing order. */
  function Positions(s: seq<string>, x: string): (r: seq<nat>)
    ensures forall q :: 0 <= q < |r| ==> r[q] < |s| && s[r[q]] == x
  {
    if s == [] then []
    else Positions(s[..|s| - 1], x) + (if s[|s| - 1] == x then [|s| - 1] else [])
  }

  /** For each name of `dest` in turn, the positions in `source` holding it. */
  function Ordering(source: seq<string>, dest: seq<string>): (r: seq<nat>)
    ensures forall q :: 0 <= q < |r| ==> r[q] < |source|
  {
    if dest == [] then []
    else Ordering(source, dest[..|dest| - 1]) + Positions(source, dest[|dest| - 1])
  }

  /** In a list without repetitions a name that occurs has one position. */
  lemma {:induction false} PositionsDistinct(s: seq<string>, x: string)
    requires Distinct(s) && x in s
    ensures Positions(s, x) == [IndexOf(s, x)]
  {
    var n := |s| - 1;
    if s[n] == x {
      assert x !in s[..n];
      PositionsAbsent(s[..n], x);
      assert IndexOf(s, x) == n by {
        assert forall j :: 0 <= j < n ==> s[j] != x;
      }
    } else {
      assert x in s[..n];
      PositionsDistinct(s[..n], x);
      var k := IndexOf(s[..n], x);
      assert s[k] == x;
      assert IndexOf(s, x) == k;
    }
  }

  lemma {:induction false} PositionsAbsent(s: seq<string>, x: string)
    requires x !in s
    ensures Positions(s, x) == []
  {
    if s != [] {
      assert x !in s[..|s| - 1];
      PositionsAbsent(s[..|s| - 1], x);
    }
  }

  /** When `source` has no repetitions and every name of `dest` occurs in it,
      the ordering has one entry per destination position and that entry is
      where the destination's name sits in the source. */
  lemma {:induction false} OrderingOfPermutation(source: seq<string>, dest: seq<string>)
    requires Distinct(source)
    requires forall i :: 0 <= i < |dest| ==> dest[i] in source
    ensures |Ordering(source, dest)| == |dest|
    ensures forall i :: 0 <= i < |dest| ==> source[Ordering(source, dest)[i]] == dest[i]
  {
    if dest != [] {
      var d' := dest[..|dest| - 1];
      OrderingOfPermutation(source, d');
      PositionsDistinct(source, dest[|dest| - 1]);
    }
  }

  /** The loop form: for each destination position, scan the whole source. */
  method GetOrdering(source: seq<string>, dest: seq<string>) returns (ordering: seq<nat>)
    requires |source| == |dest|
    ensures ordering == Ordering(source, dest)
  {
    ordering := [];
    for i := 0 to |dest|
      invariant ordering == Ordering(source, dest[..i])
    {
      assert dest[..i + 1][..i] == dest[..i];
      ghost var before := ordering;
      for j := 0 to |source|
        invariant ordering == before + Positions(source[..j], dest[i])
      {
        assert source[..j + 1][..j] == source[..j];
        if dest[i] == source[j] {
          ordering := ordering + [j];
        }
      }
      assert source[..|source|] == source;
    }
    assert dest[..|dest|] == dest;
  }

  /** Each entry is one more than the one before. */
  predicate Consecutive(ordering: seq<nat>)
  {
    forall i :: 1 <= i < |ordering| ==> ordering[i] == ordering[i - 1] + 1
  }

  /** The loop form, stopping at the first break in the progression. */
  method IsConsecutive(ordering: seq<nat>) returns (r: bool)
    ensures r <==> Consecutive(ordering)
  {
    r := true;
    var i := 1;
    while i < |ordering|
      invariant 1 <= i <= |ordering| || |ordering| == 0
      invariant forall q :: 1 <= q < i && q < |ordering| ==> ordering[q] == ordering[q - 1] + 1
    {
      if ordering[i] != ordering[i - 1] + 1 {
        r := false;
        break;
      }
      i := i + 1;
    }
  }

  /** 0, 1, ..., n-1. */
  function Range(n: nat): (r: seq<nat>)
    ensures |r| == n && forall i :: 0 <= i < n ==> r[i] == i
  {
    seq(n, i => i)
  }

  lemma {:induction false} ConsecutiveFrom(ordering: seq<nat>, i: nat)
    requires Consecutive(ordering) && i < |ordering|
    ensures ordering[i] == ordering[0] + i
  {
    if i > 0 {
      ConsecutiveFrom(ordering, i - 1);
    }
  }

  /** Empty and one-element orderings are consecutive, and so is 0..n-1. */
  lemma ConsecutiveBasics(o: seq<nat>, n: nat)
    ensures |o| <= 1 ==> Consecutive(o)
    ensures Consecutive(Range(n))
  {
  }

  /** For two index lists that are permutations of one another (the source
      without repetitions), the ordering is consecutive exactly when the two
      lists are the same: a permutation step is needed precisely when the
      order differs. */
  lemma ConsecutiveIffSameOrder(source: seq<string>, dest: seq<string>)
    requires Distinct(source) && |source| == |dest|
    requires forall i :: 0 <= i < |dest| ==> dest[i] in source
    ensures Consecutive(Ordering(source, dest)) <==> source == dest
  {
    OrderingOfPermutation(source, dest);
    if Consecutive(Ordering(source, dest)) {
      ConsecutiveMeansSame(source, dest, Ordering(source, dest));
    }
    if source == dest {
      SameMeansIdentity(source);
    }
  }

  /** An ordering that picks `dest` out of `source` and is a consecutive run
      starting inside a list of the same length is the identity. */
  lemma ConsecutiveMeansSame(source: seq<string>, dest: seq<string>, o: seq<nat>)
    requires |source| == |dest| == |o|
    requires forall i :: 0 <= i < |o| ==> o[i] < |source| && source[o[i]] == dest[i]
    requires Consecutive(o)
    ensures source == dest
  {
    var n := |source|;
    if n > 0 {
      ConsecutiveFrom(o, n - 1);
      forall i | 0 <= i < n ensures dest[i] == source[i] {
        ConsecutiveFrom(o, i);
      }
    }
  }

  lemma SameMeansIdentity(source: seq<string>)
    requires Distinct(source)
    requires |Ordering(source, source)| == |source|
    requires forall i :: 0 <= i < |source| ==> source[Ordering(source, source)[i]] == source[i]
    ensures Consecutive(Ordering(source, source))
  {
    var o := Ordering(source, source);
    forall i | 0 <= i < |source| ensures o[i] == i {
    }
  }

  /** The names of `indexes` taken in the order the ordering lists. */
  function Reordered(indexes: seq<string>, ordering: seq<nat>): (r: seq<string>)
    requires |indexes| == |ordering|
    requires forall i :: 0 <= i < |ordering| ==> ordering[i] < |indexes|
    ensures |r| == |ordering|
  {
    seq(|ordering|, i requires 0 <= i < |ordering| => indexes[ordering[i]])
  }

  method Reorder(indexes: seq<string>, ordering: seq<nat>) returns (res: seq<string>)
    requires |indexes| == |ordering|
    requires forall i :: 0 <= i < |ordering| ==> ordering[i] < |indexes|
    ensures res == Reordered(indexes, ordering)
  {
    res := [];
    for i := 0 to |indexes|
      invariant res == Reordered(indexes, ordering)[..i]
    {
      res := res + [indexes[ordering[i]]];
    }
  }

  /** Round trip: reordering the source by its ordering against a permutation
      of it gives back that permutation. */
  lemma ReorderRoundTrip(source: seq<string>, dest: seq<string>)
    requires Distinct(source) && |source| == |dest|
    requires forall i :: 0 <= i < |dest| ==> dest[i] in source
    ensures |Ordering(source, dest)| == |source|
    ensures Reordered(source, Ordering(source, dest)) == dest
  {
    OrderingOfPermutation(source, dest);
  }

  // ---------------------------------------------------------------------
  // Reshape groups and maps

  /** For each old name, its first position in `indexes` (|indexes| when absent). */
  function GroupPositions(oldVars: seq<string>, indexes: seq<string>): (r: seq<nat>)
    ensures |r| == |oldVars|
    ensures forall i :: 0 <= i < |oldVars| ==> r[i] == IndexOf(indexes, oldVars[i])
  {
    seq(|oldVars|, i requires 0 <= i < |oldVars| => IndexOf(indexes, oldVars[i]))
  }

  /** The loop form, appending one position per old name. */
  method GetReshapeGroupImpl(oldVars: seq<string>, indexes: seq<string>) returns (group: seq<nat>)
    ensures group == GroupPositions(oldVars, indexes)
    ensures forall i :: 0 <= i < |group| && oldVars[i] in indexes ==> indexes[group[i]] == oldVars[i]
  {
    group := [];
    for i := 0 to |oldVars|
      invariant group == GroupPositions(oldVars, indexes)[..i]
    {
      group := group + [IndexOf(indexes, oldVars[i])];
    }
  }

  /** One position group per fold clause, looked up on the side opposite the
      fold name; a fold name on neither or both sides aborts. */
  function GetReshapeGroup(newVar: seq<string>, oldVars: seq<seq<string>>,
                           lhsIndexes: seq<string>, rhsIndexes: seq<string>): (r: Result<seq<seq<nat>>, ErrorKind>)
    requires |newVar| == |oldVars|
    ensures r.Ok? <==> forall i :: 0 <= i < |newVar| ==> (newVar[i] in lhsIndexes) != (newVar[i] in rhsIndexes)
    ensures r.Err? ==> r.error == FoldNotOnOneSide
    ensures r.Ok? ==> |r.value| == |newVar|
  {
    if newVar == [] then Ok([])
    else
      var onLhs := newVar[0] in lhsIndexes;
      var onRhs := newVar[0] in rhsIndexes;
      if onLhs == onRhs then Err(FoldNotOnOneSide)
      else
        var group := GroupPositions(oldVars[0], if onLhs then rhsIndexes else lhsIndexes);
        match GetReshapeGroup(newVar[1..], oldVars[1..], lhsIndexes, rhsIndexes)
        case Err(e) => Err(e)
        case Ok(rest) => Ok([group] + rest)
  }

  /** Group `i` lists the positions of clause `i`'s old names on the side
      opposite its fold name. */
  lemma {:induction false} GetReshapeGroupPositions(newVar: seq<string>, oldVars: seq<seq<string>>,
                                                    lhsIndexes: seq<string>, rhsIndexes: seq<string>)
    requires |newVar| == |oldVars|
    requires GetReshapeGroup(newVar, oldVars, lhsIndexes, rhsIndexes).Ok?
    ensures forall i :: 0 <= i < |newVar| ==>
              GetReshapeGroup(newVar, oldVars, lhsIndexes, rhsIndexes).value[i]
                == GroupPositions(oldVars[i], if newVar[i] in lhsIndexes then rhsIndexes else lhsIndexes)
  {
    if newVar != [] {
      var r := GetReshapeGroup(newVar, oldVars, lhsIndexes, rhsIndexes);
      var rest := GetReshapeGroup(newVar[1..], oldVars[1..], lhsIndexes, rhsIndexes);
      GetReshapeGroupPositions(newVar[1..], oldVars[1..], lhsIndexes, rhsIndexes);
      assert r.value == [r.value[0]] + rest.value;
      forall i | 1 <= i < |newVar|
        ensures r.value[i] == GroupPositions(oldVars[i], if newVar[i] in lhsIndexes then rhsIndexes else lhsIndexes)
      {
        assert newVar[1..][i - 1] == newVar[i] && oldVars[1..][i - 1] == oldVars[i];
      }
    }
  }

  /** The positions below `n` that are not in `toReshape`, in increasing order. */
  function Unreshaped(n: nat, toReshape: seq<nat>): (r: seq<nat>)
    ensures forall x: nat :: x in r <==> x < n && x !in toReshape
    ensures forall p, q :: 0 <= p < q < |r| ==> r[p] < r[q]
  {
    if n == 0 then []
    else
      var prev := Unreshaped(n - 1, toReshape);
      assert forall q :: 0 <= q < |prev| ==> prev[q] < n - 1 by {
        forall q | 0 <= q < |prev| ensures prev[q] < n - 1 {
          assert prev[q] in prev;
        }
      }
      prev + (if n - 1 in toReshape then [] else [n - 1])
  }

  /** The loop form, appending each position not to reshape. */
  method NotToReshape(n: nat, toReshape: seq<nat>) returns (res: seq<nat>)
    ensures res == Unreshaped(n, toReshape)
  {
    res := [];
    for i := 0 to n
      invariant res == Unreshaped(i, toReshape)
    {
      assert Unreshaped(i + 1, toReshape) == res + (if i in toReshape then [] else [i]);
      if i !in toReshape {
        res := res + [i];
      }
    }
  }

  /** The reshape map of two position groups. Both must be non-empty and one
      must hold position 0; the group holding 0 is written first. */
  function GetReshapeMap(toReshape: seq<nat>, notToReshape: seq<nat>): (r: Result<ReshapeMap, ErrorKind>)
    ensures r.Ok? <==> |toReshape| > 0 && |notToReshape| > 0 && (0 in toReshape || 0 in notToReshape)
    ensures r.Ok? ==> r.value.toReshape == toReshape && r.value.notToReshape == notToReshape
    ensures r.Ok? ==> (r.value.foldedFirst <==> 0 in toReshape)
  {
    if |toReshape| == 0 || |notToReshape| == 0 then Err(EmptyReshapeGroup)
    else if 0 !in toReshape && 0 !in notToReshape then Err(NoZeroDimension)
    else Ok(ReshapeMap(toReshape, notToReshape, 0 in toReshape))
  }

  /** A complement never leaves position 0 out: with n > 0 the map's zero
      check always passes. */
  lemma ZeroInGroupOrComplement(n: nat, toReshape: seq<nat>)
    requires n > 0
    ensures 0 in toReshape || 0 in Unreshaped(n, toReshape)
  {
  }
}
