# NamedTuple, modelled in Dafny

This project models a C++20 named tuple. It is a fixed-length heterogeneous
container whose fields are addressed by a compile-time string label
(`StringParameter`) instead of a position. The C++ does all of its work at
type level. Here each piece becomes a pure function over small sequences:

- `results.dfy`, module `Results`: a `Result` datatype. The compile failures
  of the C++ that the model covers become a `Failure` that carries its
  reason: a zero-size label, output of a label that is not narrow, a count
  mismatch, an empty or duplicated label list, and an undeclared label.
- `string_parameter.dfy`, module `StringParameter`: a label is a char-kind tag
  plus all of its `Size` cells, terminator included. The module has the
  constructor, the string-view conversion, the output operator (a sink
  modelled as the sequence of characters written so far), label equivalence
  (`isSameStringV`) and the duplicate-name check (`isStringSetV`).
- `named_tuple.dfy`, module `NamedTuples`: slot descriptors (`NamedType`) and
  the tuple guard. It also has the lookup scan (`NamedTupleLookup`),
  `namedTupleIndex`, `NamedTupleType`, the accessors (`get`), assignment
  through the mutable accessor, and `make_named_tuple`. Element types are an
  abstract tag type `T` and element values a single type `V`. A
  `hasType: (T, V) -> bool` relation states when the stored values fit their
  slots.
- `scenario.dfy`, module `Scenario`: the demonstration program's tuple
  ("a", "b", "c"; "d" undeclared), the duplicate declaration "x", "x", and
  the output of label "a" and of a wide label.

Two behaviours of the code are worth stating plainly:

- Output of a label writes all `Size` cells, terminator included. Label "a"
  writes `a` then NUL (StringParameter.h:49).
- The duplicate-name check has no case for an empty list, so an empty tuple
  type is ill-formed (StringParameter.h:77-83).

## Model

| member | source | states |
|---|---|---|
| StringParameter.MakeLabel | StringParameter.h:19-31 | a size of 0 is rejected and is the only rejection; a built label keeps the character type, has exactly as many cells as the literal, copies cells `0..Size-2` unchanged, and always ends in the terminator |
| StringParameter.ViewOfLiteral | StringParameter.h:27-37 | the view of a label built from a literal has `Size` characters and equals the literal with its last cell replaced by the terminator, so nothing is stripped |
| StringParameter.MakeLabelOfView | StringParameter.h:27-37 | building a label from the view of a well-formed label gives the same label back |
| StringParameter.View | StringParameter.h:34-37 | the string view has exactly `Size` characters and, for a well-formed label, ends in the terminator |
| StringParameter.Write | StringParameter.h:47-50 | the output operator exists iff the label's characters are narrow; it then keeps what the sink held and appends exactly `Size` characters, the label's view verbatim, ending in the terminator |
| StringParameter.SameLabel | StringParameter.h:66-72 | two labels are equivalent as template arguments iff they are equal, and labels of different sizes or character types are never equivalent |
| StringParameter.NoneSame | StringParameter.h:78 | the fold over the later labels holds iff the head occurs nowhere among them, and it holds when there are no later labels |
| StringParameter.IsStringSet | StringParameter.h:77-83 | the recursive duplicate-name check holds iff the labels are pairwise distinct; a single label is always a set |
| StringParameter.DistinctIffNoRepeats | StringParameter.h:77-83 | pairwise distinctness is the same as every label occurring at most once |
| StringParameter.IsStringSetOrderIndependent | StringParameter.h:77-83 | the duplicate-name check gives the same answer for any reordering of the labels |
| NamedTuples.Declare | NamedTuple.h:27-35 | a tuple type exists iff its slot list is non-empty and its labels are distinct; an empty list and a repeated label are each reported as their own error |
| NamedTuples.Lookup | NamedTuple.h:41-79 | the scan fails iff no slot carries the label; otherwise, started at `i`, it returns `i + k` and the element type of slot `k`, where `k` is the first slot with that label |
| NamedTuples.LookupShift | NamedTuple.h:51-62 | starting the scan at `i` rather than 0 adds `i` to the position and changes nothing else |
| NamedTuples.NamedTupleIndex | NamedTuple.h:84-85 | the index is defined iff the label is declared, is below the slot count, names a slot with that label, and is the only such slot when labels are distinct |
| NamedTuples.NamedTupleType | NamedTuple.h:90-91 | the resolved element type is defined exactly when the index is, and is the element type of the slot at that index |
| NamedTuples.Get | NamedTuple.h:98-114 | a read succeeds iff the label is declared and yields the value stored in the slot carrying that label; both accessor overloads read this cell |
| NamedTuples.GetHasResolvedType | NamedTuple.h:98-114 | in a well-typed tuple the value read has the element type resolved for the label |
| NamedTuples.Set | NamedTuple.h:98-102 | assignment through the mutable accessor succeeds iff the label is declared; it keeps the invariant and the slots, reads back the new value, changes only the cell with that label, and every other label reads as before |
| NamedTuples.SetKeepsTyping | NamedTuple.h:98-102 | writing a value of the resolved element type at the resolved index keeps the tuple well typed |
| NamedTuples.MakeNamedTuple | NamedTuple.h:122-127 | construction succeeds iff there are as many values as names, at least one name, and no repeated name; a count mismatch is its own error; a built tuple satisfies the invariant, keeps the names in order, and holds value `i` with type `i` in slot `i` |
| NamedTuples.MakeThenGet | NamedTuple.h:84-127 | in a freshly built tuple, label `names[i]` resolves to index `i` and to argument `i`'s type, and reads back argument `i`'s value |
| NamedTuples.MakeIsWellTyped | NamedTuple.h:122-127 | a tuple built from arguments that each have their own type is well typed |
| Scenario.DemoTuple | Main.cpp:16 | the demo tuple over "a", "b", "c" builds, and every stored value has its slot's type |
| Scenario.DemoReads | Main.cpp:16-20 | in the demo tuple "a", "b" and "c" read 1, 1.2 and 3.0, and "b" resolves to the float type |
| Scenario.DemoUndeclared | Main.cpp:21 | reading the undeclared label "d" from the demo tuple is rejected as not declared |
| Scenario.DuplicateRejected | NamedTuple.h:31 | declaring the label "x" twice is rejected as a duplicate name, whatever the types and values |
| Scenario.DisplayLabel | StringParameter.h:47-50 | writing label "a" to an empty sink writes `a` followed by the terminator |
| Scenario.WideDisplayRejected | StringParameter.h:49 | a wide label L"a" has no output operator |

## Left out

- C++ type-level machinery: template specialisation and partial ordering, the
  `CharacterType` concept (reduced to the `CharKind` tag), and the
  `std::tuple` base with its inherited constructors. Element types are
  abstract tags. Values are one type `V`, tied to tags by a `hasType`
  relation.
- Perfect forwarding and reference collapsing in `make_named_tuple`.
  `Types&&` deduces a reference element type for an lvalue argument. The
  model stores each argument's value under the type given with it.
- NamedTuples.Set: the written value is taken as already converted to the
  slot's element type. An ill-typed write is not rejected, although in C++ an
  unconvertible value does not compile and a convertible one is converted on
  assignment; `SetKeepsTyping` covers the well-typed case. Constness is not
  modelled: writing through the read-only accessor does not compile, and the
  model has no read-only tuple to reject it on.
- Reference identity: a read returns the cell's value and an assignment
  returns the new tuple. Two reads of one label land on the same cell
  because `NamedTupleIndex` is a function of the label and the slots.
- `std::ostream` itself: the output operator is modelled only as the
  characters it appends.
- Character encodings: every character type holds Dafny `char` values. Code
  units, widths and encodings are not modelled.
- The commented-out `IsSameString` class templates (StringParameter.h:52-61):
  they are not compiled.
- The demonstration program's `Print` helper, `std::cout` and
  `system("pause")`. Its float and double values are stood in for by exact
  reals.
