/**
 * Fresh temporary names `tmp0`, `tmp1`, ... drawn from a counter that also
 * remembers the most recent name.
 */
module SymbolTable {

  function DigitChar(d: nat): (c: char)
    requires d < 10
    ensures '0' <= c <= '9' && c as int - '0' as int == d
  {
    ('0' as int + d) as char
  }

  /** The decimal rendering of `n`, most significant digit first, without
      leading zeros. */
  function NatToString(n: nat): (s: string)
    ensures |s| >= 1
    ensures n < 10 <==> |s| == 1
    ensures s[|s| - 1] == DigitChar(n % 10)
  {
    if n < 10 then [DigitChar(n)] else NatToString(n / 10) + [DigitChar(n % 10)]
  }

  /** Different numbers render differently. */
  lemma {:induction false} NatToStringInjective(a: nat, b: nat)
    requires NatToString(a) == NatToString(b)
    ensures a == b
  {
    if a >= 10 && b >= 10 {
      var sa, sb := NatToString(a), NatToString(b);
      assert sa[..|sa| - 1] == NatToString(a / 10);
      assert sb[..|sb| - 1] == NatToString(b / 10);
      NatToStringInjective(a / 10, b / 10);
    }
  }

  /** The name of the temporary with number `n`. */
  function TmpName(n: nat): string
  {
    "tmp" + NatToString(n)
  }

  /** Temporaries with different numbers have different names. */
  lemma TmpNameInjective(a: nat, b: nat)
    ensures TmpName(a) == TmpName(b) <==> a == b
  {
    if TmpName(a) == TmpName(b) {
      assert NatToString(a) == TmpName(a)[3..];
      assert NatToString(b) == TmpName(b)[3..];
      NatToStringInjective(a, b);
    }
  }

  /** The table of temporaries: the next number to use and the last name
      handed out ("" before the first). */
  class SymbolTableMap {
    var nextId: nat
    var lastEmittedVar: string

    /** The remembered name is always the most recent one. */
    ghost predicate Valid()
      reads this
    {
      if nextId == 0 then lastEmittedVar == "" else lastEmittedVar == TmpName(nextId - 1)
    }

    constructor ()
      ensures Valid() && nextId == 0 && lastEmittedVar == ""
    {
      nextId := 0;
      lastEmittedVar := "";
    }

    /** Hands out `tmp<n>` for the current counter `n`, advances the counter by
        one and remembers the name. The name differs from every earlier one. */
    method GetNextVariable() returns (res: string)
      requires Valid()
      modifies this
      ensures Valid()
      ensures res == TmpName(old(nextId)) && nextId == old(nextId) + 1
      ensures lastEmittedVar == res
      ensures forall m: nat :: m < old(nextId) ==> res != TmpName(m)
    {
      res := TmpName(nextId);
      forall m: nat | m < nextId ensures res != TmpName(m) {
        TmpNameInjective(m, nextId);
      }
      nextId := nextId + 1;
      lastEmittedVar := res;
    }

    /** The most recently handed-out name. */
    function GetLastEmittedVariable(): (v: string)
      reads this
      requires Valid()
      ensures nextId > 0 ==> v == TmpName(nextId - 1)
      ensures nextId == 0 ==> v == ""
    {
      lastEmittedVar
    }
  }
}
