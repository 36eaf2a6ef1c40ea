/**
 * The unification engine: a binding context from placeholder ids to names,
 * placeholders drawn from a counter, and structural matchers over Tree.Expr.
 *
 * The matcher's thread-local globals (the id counter and the pointer to
 * the active context) are objects passed explicitly. The matchers themselves
 * are functions from (pattern, node, bindings) to (success, new bindings),
 * with a class MatchingContext whose methods update the bindings in place and
 * are proved equal to those functions.
 */
module Matchers {
  import opened Tree
  import opened Seqs

  /** The string a context stores for a placeholder that has not been bound. */
  const Unassigned: string := "nullptr"

  /** What a context remembers for one placeholder. */
  datatype AssignedMatch = AssignedMatch(value: string) {
    /** `AssignedMatch`'s conversion to bool: true exactly for the sentinel. */
    predicate IsUnassigned() { value == Unassigned }
  }

  type Bindings = map<int, AssignedMatch>

  /** A context that knows `id` and would accept `val` for it. */
  predicate Compatible(b: Bindings, id: nat, val: string)
    requires id in b
  {
    b[id].IsUnassigned() || b[id].value == val
  }

  /** `after` grows out of `before` by binding placeholders only: the same ids
      are known and nothing already bound has changed. */
  predicate Extends(before: Bindings, after: Bindings)
  {
    && after.Keys == before.Keys
    && forall k :: k in before && !before[k].IsUnassigned() ==> after[k] == before[k]
  }

  lemma ExtendsTransitive(b0: Bindings, b1: Bindings, b2: Bindings)
    requires Extends(b0, b1) && Extends(b1, b2)
    ensures Extends(b0, b2)
  {
  }

  /** Registering an id adds it as unassigned; an id already present is left
      alone, as map insertion does not overwrite. */
  function Register(b: Bindings, id: nat): (r: Bindings)
    ensures r.Keys == b.Keys + {id}
    ensures forall k :: k in b ==> r[k] == b[k]
    ensures id !in b ==> r[id] == AssignedMatch(Unassigned)
  {
    if id in b then b else b[id := AssignedMatch(Unassigned)]
  }

  /** Registers every id of `ids`, in order. */
  function RegisterAll(b: Bindings, ids: seq<nat>): (r: Bindings)
    decreases ids
    ensures r.Keys == b.Keys + set q | q in ids
    ensures forall k :: k in b ==> r[k] == b[k]
    ensures forall k :: k in r && k !in b ==> r[k] == AssignedMatch(Unassigned)
  {
    if ids == [] then b else RegisterAll(Register(b, ids[0]), ids[1..])
  }

  /** The outcome of a unification step: whether it succeeded, and the bindings
      afterwards (which are kept whether or not it succeeded). */
  datatype Unification = Unification(ok: bool, bindings: Bindings)

  /** Binds `val` to the registered placeholder `id`. An unassigned id takes
      the value; a bound one accepts only the value it already has. */
  function Assign(b: Bindings, val: string, id: nat): (r: Unification)
    requires id in b
    ensures r.bindings.Keys == b.Keys
    ensures r.ok <==> Compatible(b, id, val)
    ensures r.ok ==> r.bindings[id].value == val
    ensures forall k :: k in b && k != id ==> r.bindings[k] == b[k]
    ensures !b[id].IsUnassigned() ==> r.bindings == b
    ensures Extends(b, r.bindings)
  {
    if b[id].IsUnassigned() then Unification(true, b[id := AssignedMatch(val)])
    else Unification(b[id].value == val, b)
  }

  /** Unification is idempotent: binding the same value a second time succeeds
      and changes nothing. */
  lemma AssignIdempotent(b: Bindings, val: string, id: nat)
    requires id in b
    ensures var r := Assign(b, val, id);
            r.ok ==> Assign(r.bindings, val, id) == Unification(true, r.bindings)
  {
    var r := Assign(b, val, id);
    if r.ok && r.bindings[id].IsUnassigned() {
      assert r.bindings[id := AssignedMatch(val)] == r.bindings;
    }
  }

  /** A conflicting binding fails and leaves the bindings unchanged. */
  lemma AssignConflict(b: Bindings, val: string, id: nat)
    requires id in b && !b[id].IsUnassigned() && b[id].value != val
    ensures Assign(b, val, id) == Unification(false, b)
  {
  }

  /** The sentinel is an ordinary string to the context: a placeholder bound to
      "nullptr" still counts as unassigned and accepts any later value. */
  lemma SentinelBindingIsForgotten(b: Bindings, id: nat, other: string)
    requires id in b && b[id].IsUnassigned()
    ensures var r := Assign(b, Unassigned, id);
            r.ok && r.bindings[id].IsUnassigned() && Assign(r.bindings, other, id).ok
  {
  }

  // ---------------------------------------------------------------------
  // Patterns

  /** The two operator codes of binary matchers: '+' and '*'. */
  datatype Opcode = AddOp | MulOp

  function OpcodeChar(op: Opcode): (c: char)
    ensures c == '+' <==> op == AddOp
    ensures c == '*' <==> op == MulOp
  {
    match op
    case AddOp => '+'
    case MulOp => '*'
  }

  /** The value copy of an array placeholder: its own id and the ids of the
      index placeholders, in position order. */
  datatype ArrayPattern = ArrayPattern(id: nat, indices: seq<nat>)

  /** A matcher: a binary-operator matcher, the wildcard, or an indexed access. */
  datatype Pattern =
    | Binary(op: Opcode, left: Pattern, right: Pattern)
    | AnyValue
    | Access(array: ArrayPattern)

  /** m_Add(L, R). */
  function MAdd(l: Pattern, r: Pattern): (p: Pattern)
    ensures p.Binary? && OpcodeChar(p.op) == '+' && p.left == l && p.right == r
  {
    Binary(AddOp, l, r)
  }

  /** m_Mul(L, R). */
  function MMul(l: Pattern, r: Pattern): (p: Pattern)
    ensures p.Binary? && OpcodeChar(p.op) == '*' && p.left == l && p.right == r
  {
    Binary(MulOp, l, r)
  }

  /** The node kind check of a binary matcher. */
  predicate HasOpcode(e: Expr, op: Opcode)
  {
    match op
    case AddOp => e.Add?
    case MulOp => e.Mul?
  }

  function ArrayIds(ap: ArrayPattern): set<nat>
  {
    {ap.id} + set q | q in ap.indices
  }

  /** Every placeholder id a pattern mentions. */
  function PatternIds(p: Pattern): set<nat>
  {
    match p
    case Binary(_, l, r) => PatternIds(l) + PatternIds(r)
    case AnyValue => {}
    case Access(ap) => ArrayIds(ap)
  }

  /** Every access in the pattern has at least one index (asserted by the
      access matcher). */
  predicate WellFormed(p: Pattern)
  {
    match p
    case Binary(_, l, r) => WellFormed(l) && WellFormed(r)
    case AnyValue => true
    case Access(ap) => |ap.indices| > 0
  }

  /** Unifies the arguments `args[i..]` with the index placeholders `ids[i..]`
      left to right, stopping at the first argument that is not an identifier
      or does not unify. Bindings made before a failure stay. */
  function UnifyIndices(b: Bindings, ids: seq<nat>, args: seq<Expr>, i: nat): (r: Unification)
    requires |ids| == |args| && i <= |ids|
    requires forall q :: 0 <= q < |ids| ==> ids[q] in b
    ensures Extends(b, r.bindings)
    ensures forall k :: k in b && k !in ids ==> r.bindings[k] == b[k]
    ensures r.ok ==> forall q :: i <= q < |ids| ==> args[q].Ident?
    decreases |ids| - i
  {
    if i == |ids| then Unification(true, b)
    else if !args[i].Ident? then Unification(false, b)
    else
      var u := Assign(b, args[i].name, ids[i]);
      if !u.ok then u
      else
        var r := UnifyIndices(u.bindings, ids, args, i + 1);
        ExtendsTransitive(b, u.bindings, r.bindings);
        r
  }

  /** After a successful walk every index placeholder holds its argument's
      name (a name equal to the sentinel aside, which the context forgets). */
  lemma {:induction false} UnifyIndicesBinds(b: Bindings, ids: seq<nat>, args: seq<Expr>, i: nat)
    requires |ids| == |args| && i <= |ids|
    requires forall q :: 0 <= q < |ids| ==> ids[q] in b
    ensures var r := UnifyIndices(b, ids, args, i);
            r.ok ==> forall q :: i <= q < |ids| && args[q].name != Unassigned ==>
                       r.bindings[ids[q]].value == args[q].name
    decreases |ids| - i
  {
    if i < |ids| && args[i].Ident? {
      var u := Assign(b, args[i].name, ids[i]);
      if u.ok {
        UnifyIndicesBinds(u.bindings, ids, args, i + 1);
        var r := UnifyIndices(u.bindings, ids, args, i + 1);
        assert r == UnifyIndices(b, ids, args, i);
        if r.ok {
          forall q | i <= q < |ids| && args[q].name != Unassigned
            ensures r.bindings[ids[q]].value == args[q].name
          {
            if q == i {
              assert !u.bindings[ids[i]].IsUnassigned();
            }
          }
        }
      }
    }
  }

  /** The indexed-access matcher: the node must be an application with as
      many arguments as the placeholder has indices, every argument an
      identifier; the index positions are unified left to right, then the
      array name. */
  function AccessMatch(ap: ArrayPattern, e: Expr, b: Bindings): (r: Unification)
    requires |ap.indices| > 0
    requires ArrayIds(ap) <= b.Keys
    ensures Extends(b, r.bindings)
    ensures forall k :: k in b && k !in ArrayIds(ap) ==> r.bindings[k] == b[k]
    ensures r.ok ==> e.Apply? && |e.args| == |ap.indices| && AllIdents(e.args)
    ensures r.ok ==> r.bindings[ap.id].value == e.name
    ensures r.ok ==> forall q :: 0 <= q < |ap.indices| && e.args[q].name != Unassigned ==>
                       r.bindings[ap.indices[q]].value == e.args[q].name
  {
    if !e.Apply? then Unification(false, b)
    else if |e.args| != |ap.indices| then Unification(false, b)
    else
      var u := UnifyIndices(b, ap.indices, e.args, 0);
      if !u.ok then u
      else
        var r := Assign(u.bindings, e.name, ap.id);
        UnifyIndicesBinds(b, ap.indices, e.args, 0);
        r
  }

  /** Matches a pattern against a node. A binary matcher checks the node kind,
      then matches left, then right; the right side is not tried when the left
      fails, and the operands are never swapped. The wildcard always matches
      and binds nothing. */
  function Match(p: Pattern, e: Expr, b: Bindings): (r: Unification)
    requires WellFormed(p) && PatternIds(p) <= b.Keys
    ensures Extends(b, r.bindings)
    ensures forall k :: k in b && k !in PatternIds(p) ==> r.bindings[k] == b[k]
    decreases p
  {
    match p
    case AnyValue => Unification(true, b)
    case Access(ap) => AccessMatch(ap, e, b)
    case Binary(op, l, rp) =>
      if !HasOpcode(e, op) then Unification(false, b)
      else
        var u := Match(l, e.left, b);
        if !u.ok then u
        else
          var v := Match(rp, e.right, u.bindings);
          ExtendsTransitive(b, u.bindings, v.bindings);
          v
  }

  // ---------------------------------------------------------------------
  // Properties of the matchers

  /** A binary matcher only matches a node of its own operator, and then only
      when its left side matched that node's left child. */
  lemma BinaryMatchShape(op: Opcode, l: Pattern, rp: Pattern, e: Expr, b: Bindings)
    requires WellFormed(Binary(op, l, rp)) && PatternIds(Binary(op, l, rp)) <= b.Keys
    ensures !HasOpcode(e, op) ==> Match(Binary(op, l, rp), e, b) == Unification(false, b)
    ensures HasOpcode(e, op) && !Match(l, e.left, b).ok ==>
              Match(Binary(op, l, rp), e, b) == Match(l, e.left, b)
    ensures Match(Binary(op, l, rp), e, b).ok <==>
              HasOpcode(e, op) && Match(l, e.left, b).ok &&
              Match(rp, e.right, Match(l, e.left, b).bindings).ok
  {
  }

  /** With distinct index placeholders, left-to-right unification of identifier
      arguments succeeds exactly when every position is compatible with the
      bindings the walk started from. */
  lemma UnifyIndicesOk(b: Bindings, ids: seq<nat>, args: seq<Expr>, i: nat)
    requires |ids| == |args| && i <= |ids|
    requires forall q :: 0 <= q < |ids| ==> ids[q] in b
    requires Distinct(ids) && AllIdents(args)
    ensures UnifyIndices(b, ids, args, i).ok <==>
              forall q :: i <= q < |ids| ==> Compatible(b, ids[q], args[q].name)
  {
    UnifyIndicesSound(b, ids, args, i);
    if forall q :: i <= q < |ids| ==> Compatible(b, ids[q], args[q].name) {
      UnifyIndicesComplete(b, ids, args, i);
    }
  }

  /** A successful walk met only compatible positions. */
  lemma {:induction false} UnifyIndicesSound(b: Bindings, ids: seq<nat>, args: seq<Expr>, i: nat)
    requires |ids| == |args| && i <= |ids|
    requires forall q :: 0 <= q < |ids| ==> ids[q] in b
    requires Distinct(ids) && AllIdents(args)
    ensures UnifyIndices(b, ids, args, i).ok ==>
              forall q :: i <= q < |ids| ==> Compatible(b, ids[q], args[q].name)
    decreases |ids| - i
  {
    if i < |ids| {
      var u := Assign(b, args[i].name, ids[i]);
      if u.ok {
        AssignLeavesOthers(b, ids, args, i);
        UnifyIndicesSound(u.bindings, ids, args, i + 1);
      }
    }
  }

  /** With distinct placeholders, compatible positions make the walk succeed. */
  lemma {:induction false} UnifyIndicesComplete(b: Bindings, ids: seq<nat>, args: seq<Expr>, i: nat)
    requires |ids| == |args| && i <= |ids|
    requires forall q :: 0 <= q < |ids| ==> ids[q] in b
    requires Distinct(ids) && AllIdents(args)
    requires forall q :: i <= q < |ids| ==> Compatible(b, ids[q], args[q].name)
    ensures UnifyIndices(b, ids, args, i).ok
    decreases |ids| - i
  {
    if i < |ids| {
      var u := Assign(b, args[i].name, ids[i]);
      assert u.ok by { assert Compatible(b, ids[i], args[i].name); }
      AssignLeavesOthers(b, ids, args, i);
      UnifyIndicesComplete(u.bindings, ids, args, i + 1);
    }
  }

  /** Binding position `i` leaves the compatibility of the later positions
      unchanged, their placeholders being different. */
  lemma AssignLeavesOthers(b: Bindings, ids: seq<nat>, args: seq<Expr>, i: nat)
    requires |ids| == |args| && i < |ids|
    requires forall q :: 0 <= q < |ids| ==> ids[q] in b
    requires Distinct(ids) && AllIdents(args)
    ensures forall q :: i < q < |ids| ==>
              Compatible(Assign(b, args[i].name, ids[i]).bindings, ids[q], args[q].name) == Compatible(b, ids[q], args[q].name)
  {
    var u := Assign(b, args[i].name, ids[i]);
    forall q | i < q < |ids|
      ensures Compatible(u.bindings, ids[q], args[q].name) == Compatible(b, ids[q], args[q].name)
    {
      assert ids[q] != ids[i];
    }
  }

  /** With distinct placeholders, the access matcher on an application of
      identifiers of the right arity succeeds exactly when every index position
      and the array name are compatible with the bindings so far. */
  lemma AccessMatchOk(ap: ArrayPattern, e: Expr, b: Bindings)
    requires |ap.indices| > 0 && ArrayIds(ap) <= b.Keys
    requires Distinct(ap.indices) && ap.id !in ap.indices
    requires e.Apply? && |e.args| == |ap.indices| && AllIdents(e.args)
    ensures AccessMatch(ap, e, b).ok <==>
              (forall q :: 0 <= q < |ap.indices| ==> Compatible(b, ap.indices[q], e.args[q].name))
              && Compatible(b, ap.id, e.name)
  {
    UnifyIndicesOk(b, ap.indices, e.args, 0);
    var u := UnifyIndices(b, ap.indices, e.args, 0);
    assert ap.id !in ap.indices[0..];
  }

  /** An access with two distinct index placeholders, on an application of
      two identifiers: it succeeds exactly when both positions and the array
      name are compatible, and then binds exactly those three placeholders. */
  lemma AccessMatchTwo(id: nat, p: nat, q: nat, name: string, x: string, y: string, b: Bindings)
    requires id in b && p in b && q in b && p != q && id != p && id != q
    ensures var r := AccessMatch(ArrayPattern(id, [p, q]), Apply(name, [Ident(x), Ident(y)]), b);
            && (r.ok <==> Compatible(b, p, x) && Compatible(b, q, y) && Compatible(b, id, name))
            && (r.ok ==> r.bindings == b[p := AssignedMatch(x)][q := AssignedMatch(y)][id := AssignedMatch(name)])
  {
    var ids, args := [p, q], [Ident(x), Ident(y)];
    assert ArrayIds(ArrayPattern(id, ids)) == {id, p, q};
    var u1 := Assign(b, x, p);
    var u2 := Assign(u1.bindings, y, q);
    assert UnifyIndices(u2.bindings, ids, args, 2) == Unification(true, u2.bindings);
    assert u1.ok ==> UnifyIndices(b, ids, args, 0) == UnifyIndices(u1.bindings, ids, args, 1);
    if u1.ok {
      assert u1.bindings == b[p := AssignedMatch(x)];
      if u2.ok {
        assert u2.bindings == b[p := AssignedMatch(x)][q := AssignedMatch(y)];
        var u3 := Assign(u2.bindings, name, id);
        assert u3.ok ==> u3.bindings == u2.bindings[id := AssignedMatch(name)];
      }
    }
  }

  /** The one-index counterpart of AccessMatchTwo. */
  lemma AccessMatchOne(id: nat, p: nat, name: string, x: string, b: Bindings)
    requires id in b && p in b && id != p
    ensures var r := AccessMatch(ArrayPattern(id, [p]), Apply(name, [Ident(x)]), b);
            && (r.ok <==> Compatible(b, p, x) && Compatible(b, id, name))
            && (r.ok ==> r.bindings == b[p := AssignedMatch(x)][id := AssignedMatch(name)])
  {
    var ids, args := [p], [Ident(x)];
    assert ArrayIds(ArrayPattern(id, ids)) == {id, p};
    var u1 := Assign(b, x, p);
    assert UnifyIndices(u1.bindings, ids, args, 1) == Unification(true, u1.bindings);
    if u1.ok {
      assert u1.bindings == b[p := AssignedMatch(x)];
      var u2 := Assign(u1.bindings, name, id);
      assert u2.ok ==> u2.bindings == u1.bindings[id := AssignedMatch(name)];
    }
  }

  /** No rollback: a match that fails part-way keeps the bindings made before
      the failing step. Here `A(x, y) * z` against `A[p0, p1] * B[p1]` binds
      p0 and the array placeholder, then fails on the identifier `z`. */
  lemma FailedMatchKeepsBindings()
    ensures var b := map[0 := AssignedMatch(Unassigned), 1 := AssignedMatch(Unassigned),
                         2 := AssignedMatch(Unassigned), 3 := AssignedMatch(Unassigned)];
            var p := MMul(Access(ArrayPattern(0, [2, 3])), Access(ArrayPattern(1, [3])));
            var e := Mul(Apply("A", [Ident("x"), Ident("y")]), Ident("z"));
            var r := Match(p, e, b);
            !r.ok && r.bindings[2].value == "x" && r.bindings[0].value == "A"
  {
    var b := map[0 := AssignedMatch(Unassigned), 1 := AssignedMatch(Unassigned),
                 2 := AssignedMatch(Unassigned), 3 := AssignedMatch(Unassigned)];
    var ap := ArrayPattern(0, [2, 3]);
    var lhs := Apply("A", [Ident("x"), Ident("y")]);
    AccessMatchOk(ap, lhs, b);
    var left := AccessMatch(ap, lhs, b);
    assert left.ok;
    assert lhs.args[0].name == "x";
    var right := AccessMatch(ArrayPattern(1, [3]), Ident("z"), left.bindings);
    assert !right.ok && right.bindings == left.bindings;
    var e := Mul(lhs, Ident("z"));
    var p := MMul(Access(ap), Access(ArrayPattern(1, [3])));
    assert Match(p, e, b) == right;
  }

  // ---------------------------------------------------------------------
  // Stateful objects

  /** A binding context whose map the methods update in place. */
  class MatchingContext {
    var placeholderMap: Bindings

    constructor ()
      ensures placeholderMap == map[]
    {
      placeholderMap := map[];
    }

    method RegisterPlaceholder(id: nat)
      modifies this
      ensures placeholderMap == Register(old(placeholderMap), id)
      ensures id in placeholderMap && placeholderMap.Keys == old(placeholderMap).Keys + {id}
    {
      if id !in placeholderMap {
        placeholderMap := placeholderMap[id := AssignedMatch(Unassigned)];
      }
    }

    /** Binds `val` to `id`, which must be registered. */
    method AssignToPlaceholder(val: string, id: nat) returns (ok: bool)
      requires id in placeholderMap
      modifies this
      ensures Unification(ok, placeholderMap) == Assign(old(placeholderMap), val, id)
      ensures ok <==> Compatible(old(placeholderMap), id, val)
      ensures !ok ==> placeholderMap == old(placeholderMap)
    {
      var current := placeholderMap[id];
      if current.IsUnassigned() {
        placeholderMap := placeholderMap[id := AssignedMatch(val)];
        return true;
      }
      if current.value != val {
        return false;
      }
      return true;
    }

    /** Looks `id` up without changing anything. When `id` is unknown the
        caller's value `value0` comes back untouched. */
    method GetValueForId(id: nat, value0: string) returns (found: bool, value: string)
      ensures found <==> id in placeholderMap
      ensures found ==> value == placeholderMap[id].value
      ensures !found ==> value == value0
    {
      if id !in placeholderMap {
        return false, value0;
      }
      return true, placeholderMap[id].value;
    }
  }

  /** The per-thread slot naming the active context (none at first). */
  class ContextSlot {
    var current: MatchingContext?

    constructor ()
      ensures current == null
    {
      current := null;
    }
  }

  /** Scope object that owns a fresh context and installs it as the active one
      for its lifetime. At most one may be active at a time. */
  class AccessPatternContext {
    const matchingContext: MatchingContext

    constructor (slot: ContextSlot)
      requires slot.current == null
      modifies slot
      ensures fresh(matchingContext) && matchingContext.placeholderMap == map[]
      ensures slot.current == matchingContext
    {
      var ctx := new MatchingContext();
      matchingContext := ctx;
      slot.current := ctx;
    }

    /** The destructor: clears the active context. */
    method Release(slot: ContextSlot)
      modifies slot
      ensures slot.current == null
    {
      slot.current := null;
    }

    /** Indexing by a placeholder: the placeholder must be registered. */
    method Get(id: nat) returns (value: string)
      requires id in matchingContext.placeholderMap
      ensures value == matchingContext.placeholderMap[id].value
    {
      var found;
      found, value := matchingContext.GetValueForId(id, Unassigned);
    }
  }

  /** The id counter placeholders are drawn from. */
  class PlaceholderIds {
    var nextId: nat
    ghost var issued: set<nat>

    ghost predicate Valid()
      reads this
    {
      forall x :: x in issued ==> x < nextId
    }

    constructor ()
      ensures Valid() && nextId == 0 && issued == {}
    {
      nextId := 0;
      issued := {};
    }

    /** Constructs a placeholder: takes the current counter value as its id,
        advances the counter and registers the id with the active context.
        Ids are therefore unique and strictly increasing. */
    method NewPlaceholder(slot: ContextSlot) returns (id: nat)
      requires Valid() && slot.current != null
      modifies this, slot.current
      ensures Valid()
      ensures id == old(nextId) && nextId == old(nextId) + 1
      ensures id !in old(issued) && issued == old(issued) + {id}
      ensures forall x :: x in old(issued) ==> x < id
      ensures slot.current.placeholderMap == Register(old(slot.current.placeholderMap), id)
    {
      id := nextId;
      nextId := nextId + 1;
      issued := issued + {id};
      slot.current.RegisterPlaceholder(id);
    }
  }

  /** An array placeholder: a placeholder of its own plus the list of index
      placeholders set by the call operator. */
  class ArrayPlaceholder {
    const id: nat
    var placeholders: seq<nat>

    constructor (ids: PlaceholderIds, slot: ContextSlot)
      requires ids.Valid() && slot.current != null
      modifies ids, slot.current
      ensures ids.Valid() && id == old(ids.nextId) && ids.nextId == old(ids.nextId) + 1
      ensures id !in old(ids.issued) && ids.issued == old(ids.issued) + {id}
      ensures slot.current.placeholderMap == Register(old(slot.current.placeholderMap), id)
      ensures placeholders == []
    {
      var drawn := ids.NewPlaceholder(slot);
      id := drawn;
      placeholders := [];
    }

    function Size(): nat
      reads this
    {
      |placeholders|
    }

    /** The call operator: replaces the index list and returns a copy that
        keeps this placeholder's id. */
    method Indexed(indexings: seq<nat>) returns (copy: ArrayPattern)
      modifies this
      ensures placeholders == indexings && Size() == |indexings|
      ensures copy == ArrayPattern(id, indexings)
    {
      placeholders := [];
      placeholders := indexings;
      copy := ArrayPattern(id, placeholders);
    }
  }

  /** The indexed-access matcher as an object over the active context. */
  class OpAccessMatch {
    const arrayPlaceholder: ArrayPattern

    constructor (pattern: ArrayPattern)
      ensures arrayPlaceholder == pattern
    {
      arrayPlaceholder := pattern;
    }

    /** Walks the arguments left to right, binding each in `ctx`, then binds
        the array name; the result and the new bindings are those of
        AccessMatch. */
    method Match(ctx: MatchingContext, e: Expr) returns (ok: bool)
      requires |arrayPlaceholder.indices| > 0
      requires ArrayIds(arrayPlaceholder) <= ctx.placeholderMap.Keys
      modifies ctx
      ensures Unification(ok, ctx.placeholderMap) == AccessMatch(arrayPlaceholder, e, old(ctx.placeholderMap))
    {
      var ids := arrayPlaceholder.indices;
      if !e.Apply? {
        return false;
      }
      var args := e.args;
      if |args| != |ids| {
        return false;
      }
      assert forall q :: q in ids ==> q in ctx.placeholderMap;
      var i := 0;
      while i < |args|
        invariant 0 <= i <= |args|
        invariant forall q :: q in ids ==> q in ctx.placeholderMap
        invariant ArrayIds(arrayPlaceholder) <= ctx.placeholderMap.Keys
        invariant UnifyIndices(ctx.placeholderMap, ids, args, i) ==
                  UnifyIndices(old(ctx.placeholderMap), ids, args, 0)
      {
        if !args[i].Ident? {
          return false;
        }
        var valid := ctx.AssignToPlaceholder(args[i].name, ids[i]);
        if !valid {
          return false;
        }
        i := i + 1;
      }
      ok := ctx.AssignToPlaceholder(e.name, arrayPlaceholder.id);
    }
  }
}
