/** The demonstration program's tuple: labels "a", "b", "c" holding an int,
    a float and a double, with "d" left undeclared. Floating-point values are
    stood in for by exact reals. */
module Scenario {
  import opened Results
  import opened StringParameter
  import opened NamedTuples

  datatype Ty = IntT | FloatT | DoubleT

  datatype Value = IntV(i: int) | FloatV(f: real) | DoubleV(d: real)

  predicate HasType(ty: Ty, v: Value) {
    match ty
    case IntT => v.IntV?
    case FloatT => v.FloatV?
    case DoubleT => v.DoubleV?
  }

  /** The label of a one-character narrow literal such as "a", whose array
      holds the character and the terminator. */
  function Narrow(c: char): (l: Label)
    ensures WellFormed(l) && Size(l) == 2 && l.chars[0] == c
  {
    MakeLabel(Char, [c, Terminator]).value
  }

  function DemoNames(): (names: seq<Label>) {
    [Narrow('a'), Narrow('b'), Narrow('c')]
  }

  function DemoArgs(): (args: seq<Arg<Ty, Value>>) {
    [Arg(IntT, IntV(1)), Arg(FloatT, FloatV(1.2)), Arg(DoubleT, DoubleV(3.0))]
  }

  /** The three demo labels are distinct, and "d" is none of them. */
  lemma DemoLabels()
    ensures Distinct(DemoNames())
    ensures Narrow('d') !in DemoNames()
  {
    var names := DemoNames();
    assert names[0].chars[0] == 'a' && names[1].chars[0] == 'b' && names[2].chars[0] == 'c';
    assert Narrow('d').chars[0] == 'd';
  }

  /** The demo tuple builds and every stored value has its slot's type. */
  lemma DemoTuple()
    ensures MakeNamedTuple(DemoNames(), DemoArgs()).Success?
    ensures WellTyped(MakeNamedTuple(DemoNames(), DemoArgs()).value, HasType)
  {
    var args := DemoArgs();
    DemoLabels();
    assert HasType(args[0].ty, args[0].val) && HasType(args[1].ty, args[1].val)
        && HasType(args[2].ty, args[2].val);
    MakeIsWellTyped(DemoNames(), args, HasType);
  }

  /** Each declared label of the demo tuple reads back its own value, and
      "b" resolves to the float type. */
  lemma DemoReads()
    ensures MakeNamedTuple(DemoNames(), DemoArgs()).Success?
    ensures
      var t := MakeNamedTuple(DemoNames(), DemoArgs()).value;
      && Get(t, Narrow('a')) == Success(IntV(1))
      && Get(t, Narrow('b')) == Success(FloatV(1.2))
      && Get(t, Narrow('c')) == Success(DoubleV(3.0))
      && NamedTupleType(Narrow('b'), t.slots) == Success(FloatT)
  {
    var names, args := DemoNames(), DemoArgs();
    DemoLabels();
    assert names[0] == Narrow('a') && names[1] == Narrow('b') && names[2] == Narrow('c');
    MakeThenGet(names, args, 0);
    MakeThenGet(names, args, 1);
    MakeThenGet(names, args, 2);
  }

  /** Reading the undeclared label "d" from the demo tuple is rejected. */
  lemma DemoUndeclared()
    ensures MakeNamedTuple(DemoNames(), DemoArgs()).Success?
    ensures Get(MakeNamedTuple(DemoNames(), DemoArgs()).value, Narrow('d')) == Failure(NotDeclared)
  {
    DemoLabels();
  }

  /** Declaring "x" twice is rejected, whatever the two types are. */
  lemma DuplicateRejected(ty1: Ty, ty2: Ty, v1: Value, v2: Value)
    ensures MakeNamedTuple([Narrow('x'), Narrow('x')], [Arg(ty1, v1), Arg(ty2, v2)])
         == Failure(DuplicateName)
  {
    var names := [Narrow('x'), Narrow('x')];
    assert !Distinct(names) by {
      assert names[0] == names[1];
    }
  }

  /** Writing the label "a" to an empty sink writes two characters: the
      letter and the terminator. */
  lemma DisplayLabel()
    ensures Write([], Narrow('a')) == Success(['a', Terminator])
  {
    assert Narrow('a').chars == ['a', Terminator];
  }

  /** A wide label such as L"a" has no output operator: the stream's write
      does not accept its characters. */
  lemma WideDisplayRejected()
    ensures MakeLabel(WChar, ['a', Terminator]).Success?
    ensures Write([], MakeLabel(WChar, ['a', Terminator]).value) == Failure(NotNarrow)
  {
  }
}
