/** The named tuple: an ordered list of (label, element type) slots over
    positional storage. A label is resolved to its slot by a linear scan; the
    slot's position then indexes the storage. Element types are abstract tags
    `T`, element values are of one type `V`. */
module NamedTuples {
  import opened Results
  import opened StringParameter

  /** One slot descriptor: a label paired with an element type. */
  datatype NamedType<T> = NamedType(name: Label, ty: T)

  /** The reasons a declaration, a construction or a lookup is ill-formed. */
  datatype Error =
    | CountMismatch   // make_named_tuple with more names than values or fewer
    | EmptyList       // the duplicate-name check has no case for zero labels
    | DuplicateName   // the duplicate-name check failed
    | NotDeclared     // lookup ran off the end of the slot list

  /** The labels of a slot list, in slot order. */
  function Names<T>(slots: seq<NamedType<T>>): (r: seq<Label>)
    ensures |r| == |slots|
    ensures forall i :: 0 <= i < |slots| ==> r[i] == slots[i].name
  {
    seq(|slots|, i requires 0 <= i < |slots| => slots[i].name)
  }

  /** The guard on a tuple type: it exists only over a non-empty slot list
      whose labels pass the duplicate-name check. */
  function Declare<T>(slots: seq<NamedType<T>>): (r: Result<seq<NamedType<T>>, Error>)
    ensures r.Success? <==> |slots| >= 1 && Distinct(Names(slots))
    ensures r.Success? ==> r.value == slots
    ensures r == Failure(EmptyList) <==> |slots| == 0
    ensures r == Failure(DuplicateName) <==>
      exists i, j :: 0 <= i < j < |slots| && slots[i].name == slots[j].name
  {
    if |slots| == 0 then Failure(EmptyList)
    else if !IsStringSet(Names(slots)) then Failure(DuplicateName)
    else Success(slots)
  }

  /** A named tuple: its slot descriptors and one stored value per slot. */
  datatype NamedTuple<T, V> = NamedTuple(slots: seq<NamedType<T>>, values: seq<V>)

  /** The class invariant: the type was admitted by `Declare` and the storage
      has one cell per slot. */
  predicate Valid<T, V>(t: NamedTuple<T, V>) {
    Declare(t.slots).Success? && |t.values| == |t.slots|
  }

  /** Every stored value has its slot's element type. */
  predicate WellTyped<T, V>(t: NamedTuple<T, V>, hasType: (T, V) -> bool) {
    |t.values| == |t.slots| &&
    forall i :: 0 <= i < |t.slots| ==> hasType(t.slots[i].ty, t.values[i])
  }

  /** The outcome of a lookup: a position and the element type found there. */
  datatype Resolved<T> = Resolved(index: nat, ty: T)

  /** The lookup scan, started at position `index`: stops at the first slot
      whose label is `name`, and otherwise goes on with `index + 1`. An empty
      list has no case, so a label that never matches is an error. */
  function Lookup<T>(index: nat, name: Label, slots: seq<NamedType<T>>): (r: Result<Resolved<T>, Error>)
    ensures r.Failure? <==> forall j :: 0 <= j < |slots| ==> slots[j].name != name
    ensures r.Failure? ==> r.error == NotDeclared
    ensures r.Success? ==>
      && index <= r.value.index < index + |slots|
      && slots[r.value.index - index].name == name
      && r.value.ty == slots[r.value.index - index].ty
      && forall j :: 0 <= j < r.value.index - index ==> slots[j].name != name
    decreases |slots|
  {
    if |slots| == 0 then Failure(NotDeclared)
    else
      if SameLabel(slots[0].name, name) then Success(Resolved(index, slots[0].ty))
      else Lookup(index + 1, name, slots[1..])
  }

  /** Where the scan starts only shifts the position it reports. */
  lemma {:induction false} LookupShift<T>(index: nat, name: Label, slots: seq<NamedType<T>>)
    ensures Lookup(index, name, slots).Success? == Lookup(0, name, slots).Success?
    ensures Lookup(index, name, slots).Success? ==>
      && Lookup(index, name, slots).value.index == index + Lookup(0, name, slots).value.index
      && Lookup(index, name, slots).value.ty == Lookup(0, name, slots).value.ty
    decreases |slots|
  {
    if |slots| > 0 && slots[0].name != name {
      LookupShift(index + 1, name, slots[1..]);
      LookupShift(1, name, slots[1..]);
    }
  }

  /** The position of the slot labelled `name`, scanning from 0. Over a list
      of distinct labels it is the only such position. */
  function NamedTupleIndex<T>(name: Label, slots: seq<NamedType<T>>): (r: Result<nat, Error>)
    ensures r.Success? <==> name in Names(slots)
    ensures r.Failure? ==> r.error == NotDeclared
    ensures r.Success? ==> r.value < |slots| && slots[r.value].name == name
    ensures r.Success? && Distinct(Names(slots)) ==>
      forall j :: 0 <= j < |slots| && slots[j].name == name ==> j == r.value
  {
    match Lookup(0, name, slots)
    case Success(res) =>
      assert Names(slots)[res.index] == name;
      Success(res.index)
    case Failure(e) => Failure(e)
  }

  /** The element type of the slot labelled `name`. */
  function NamedTupleType<T>(name: Label, slots: seq<NamedType<T>>): (r: Result<T, Error>)
    ensures r.Success? <==> NamedTupleIndex(name, slots).Success?
    ensures r.Failure? ==> r.error == NotDeclared
    ensures r.Success? ==> r.value == slots[NamedTupleIndex(name, slots).value].ty
  {
    match Lookup(0, name, slots)
    case Success(res) => Success(res.ty)
    case Failure(e) => Failure(e)
  }

  /** Reads the element labelled `name`: the value stored in the one slot that
      carries that label. Both the read-only and the mutable accessor read
      this cell. */
  function Get<T, V>(t: NamedTuple<T, V>, name: Label): (r: Result<V, Error>)
    requires Valid(t)
    ensures r.Success? <==> name in Names(t.slots)
    ensures r.Failure? ==> r.error == NotDeclared
    ensures forall i :: 0 <= i < |t.slots| && t.slots[i].name == name ==>
      r == Success(t.values[i])
  {
    match NamedTupleIndex(name, t.slots)
    case Success(i) => Success(t.values[i])
    case Failure(e) => Failure(e)
  }

  /** A read through the accessor yields a value of the element type that
      lookup resolves for the label. */
  lemma GetHasResolvedType<T, V>(t: NamedTuple<T, V>, name: Label, hasType: (T, V) -> bool)
    requires Valid(t) && WellTyped(t, hasType)
    requires Get(t, name).Success?
    ensures NamedTupleType(name, t.slots).Success?
    ensures hasType(NamedTupleType(name, t.slots).value, Get(t, name).value)
  {
    var i := NamedTupleIndex(name, t.slots).value;
    assert Get(t, name) == Success(t.values[i]);
  }

  /** Assigns `v` through the mutable accessor of `name`: only the cell at the
      resolved position changes, the slots stay as they were. */
  method Set<T, V>(t: NamedTuple<T, V>, name: Label, v: V) returns (r: Result<NamedTuple<T, V>, Error>)
    requires Valid(t)
    ensures r.Success? <==> name in Names(t.slots)
    ensures r.Failure? ==> r.error == NotDeclared
    ensures r.Success? ==>
      && Valid(r.value)
      && r.value.slots == t.slots
      && Get(r.value, name) == Success(v)
      && (forall n :: n != name ==> Get(r.value, n) == Get(t, n))
    ensures r.Success? ==> forall i :: 0 <= i < |t.slots| ==>
      r.value.values[i] == (if t.slots[i].name == name then v else t.values[i])
    ensures r.Success? ==>
      r.value == t.(values := t.values[NamedTupleIndex(name, t.slots).value := v])
  {
    match NamedTupleIndex(name, t.slots)
    case Failure(e) =>
      r := Failure(e);
    case Success(k) =>
      var t' := t.(values := t.values[k := v]);
      assert Valid(t');
      forall n | n != name
        ensures Get(t', n) == Get(t, n)
      {
        if n in Names(t.slots) {
          var j := NamedTupleIndex(n, t.slots).value;
          assert j != k;
        }
      }
      r := Success(t');
  }

  /** Writing a value of the resolved element type keeps the tuple well typed. */
  lemma SetKeepsTyping<T, V>(t: NamedTuple<T, V>, name: Label, v: V, hasType: (T, V) -> bool)
    requires Valid(t) && WellTyped(t, hasType)
    requires NamedTupleType(name, t.slots).Success?
    requires hasType(NamedTupleType(name, t.slots).value, v)
    ensures WellTyped(t.(values := t.values[NamedTupleIndex(name, t.slots).value := v]), hasType)
  {
  }

  /** One constructor argument: its deduced type and its value. */
  datatype Arg<T, V> = Arg(ty: T, val: V)

  /** Builds a tuple from a list of labels and one argument per label. The
      counts must agree; the resulting type must then pass the guard. Value
      `i` is stored in slot `i`, whose element type is argument `i`'s type. */
  function MakeNamedTuple<T, V>(names: seq<Label>, args: seq<Arg<T, V>>): (r: Result<NamedTuple<T, V>, Error>)
    ensures r.Success? <==> |names| == |args| && |names| >= 1 && Distinct(names)
    ensures |names| != |args| ==> r == Failure(CountMismatch)
    ensures r.Success? ==>
      && Valid(r.value)
      && Names(r.value.slots) == names
      && forall i :: 0 <= i < |args| ==>
           r.value.slots[i].ty == args[i].ty && r.value.values[i] == args[i].val
  {
    if |names| != |args| then Failure(CountMismatch)
    else
      var slots := seq(|names|, i requires 0 <= i < |names| => NamedType(names[i], args[i].ty));
      assert Names(slots) == names;
      match Declare(slots)
      case Failure(e) => Failure(e)
      case Success(_) =>
        Success(NamedTuple(slots, seq(|args|, i requires 0 <= i < |args| => args[i].val)))
  }

  /** Make-then-get: reading label `names[i]` from a freshly built tuple gives
      back argument `i`, at argument `i`'s type. */
  lemma MakeThenGet<T, V>(names: seq<Label>, args: seq<Arg<T, V>>, i: nat)
    requires MakeNamedTuple(names, args).Success?
    requires i < |names|
    ensures Get(MakeNamedTuple(names, args).value, names[i]) == Success(args[i].val)
    ensures NamedTupleIndex(names[i], MakeNamedTuple(names, args).value.slots) == Success(i)
    ensures NamedTupleType(names[i], MakeNamedTuple(names, args).value.slots) == Success(args[i].ty)
  {
    var t := MakeNamedTuple(names, args).value;
    assert t.slots[i].name == names[i];
  }

  /** A tuple built from arguments that each have their own type is well typed. */
  lemma MakeIsWellTyped<T, V>(names: seq<Label>, args: seq<Arg<T, V>>, hasType: (T, V) -> bool)
    requires MakeNamedTuple(names, args).Success?
    requires forall i :: 0 <= i < |args| ==> hasType(args[i].ty, args[i].val)
    ensures WellTyped(MakeNamedTuple(names, args).value, hasType)
  {
  }
}
