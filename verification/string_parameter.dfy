/** The compile-time label: a fixed-size character array, built from a string
    literal, whose last cell is always the terminator. Labels are compared the
    way template arguments are: same character type, same size, same cells. */
module StringParameter {
  import opened Results

  /** The character types a label may be built from. */
  datatype CharKind = Char | WChar | Char8 | Char16 | Char32

  /** The value-initialised character, written into the last cell. */
  const Terminator: char := '\0'

  /** A label: its character type and all `Size` cells, terminator included. */
  datatype Label = Label(kind: CharKind, chars: seq<char>)

  /** The array size of a label, which is also the length of its views. */
  function Size(l: Label): (n: nat) {
    |l.chars|
  }

  /** What every label built by `MakeLabel` satisfies. */
  predicate WellFormed(l: Label) {
    |l.chars| > 0 && l.chars[|l.chars| - 1] == Terminator
  }

  datatype LabelError =
    | ZeroSize   // an array of 0 cells cannot hold the terminator
    | NotNarrow  // the output stream only accepts narrow characters

  /** Builds a label from a literal array of `|literal|` cells: copies every
      cell, then overwrites the last one with the terminator. A size of 0 is
      rejected. */
  function MakeLabel(kind: CharKind, literal: seq<char>): (r: Result<Label, LabelError>)
    ensures r.Failure? <==> |literal| == 0
    ensures r.Success? ==>
      && r.value.kind == kind
      && Size(r.value) == |literal|
      && WellFormed(r.value)
      && forall i :: 0 <= i < |literal| - 1 ==> r.value.chars[i] == literal[i]
  {
    if |literal| == 0 then Failure(ZeroSize)
    else Success(Label(kind, literal[..|literal| - 1] + [Terminator]))
  }

  /** The string-view conversion: a view over all `Size` cells, so the
      terminator is part of the view. */
  function View(l: Label): (r: seq<char>)
    ensures |r| == Size(l)
    ensures WellFormed(l) ==> r[|r| - 1] == Terminator
  {
    l.chars
  }

  /** The output operator: appends all `Size` cells of the label, verbatim,
      to what the sink already holds. The stream's write takes narrow
      characters only, so the operator exists for `Char` labels alone. */
  function Write(out: seq<char>, l: Label): (r: Result<seq<char>, LabelError>)
    ensures r.Failure? <==> l.kind != Char
    ensures r.Failure? ==> r.error == NotNarrow
    ensures r.Success? ==>
      && |r.value| == |out| + Size(l)
      && r.value[..|out|] == out
      && r.value[|out|..] == View(l)
      && (WellFormed(l) ==> r.value[|r.value| - 1] == Terminator)
  {
    if l.kind != Char then Failure(NotNarrow)
    else Success(out + View(l))
  }

  /** A literal's view is its own text with the last cell replaced by the
      terminator: nothing is stripped and the size is kept. */
  lemma ViewOfLiteral(kind: CharKind, literal: seq<char>)
    requires |literal| > 0
    ensures MakeLabel(kind, literal).Success?
    ensures View(MakeLabel(kind, literal).value) == literal[..|literal| - 1] + [Terminator]
    ensures |View(MakeLabel(kind, literal).value)| == |literal|
  {
  }

  /** Building a label from the view of a well-formed label gives that label
      back: the conversion loses nothing. */
  lemma MakeLabelOfView(l: Label)
    requires WellFormed(l)
    ensures MakeLabel(l.kind, View(l)) == Success(l)
  {
    var n := |l.chars|;
    assert l.chars == l.chars[..n - 1] + [Terminator];
  }

  /** Template-argument equivalence of two labels: the same character type,
      the same size and the same character in every cell. It is exactly value
      equality; in particular labels of different sizes or character types
      are never the same. */
  function SameLabel(a: Label, b: Label): (r: bool)
    ensures r <==> a == b
    ensures Size(a) != Size(b) ==> !r
    ensures a.kind != b.kind ==> !r
  {
    var r :=
      && a.kind == b.kind
      && Size(a) == Size(b)
      && forall i :: 0 <= i < Size(a) ==> a.chars[i] == b.chars[i];
    r
  }

  /** The fold `(!same(x, rest[0]) && ... && !same(x, rest[n-1]))`, which is
      true for an empty `rest`. */
  function NoneSame(x: Label, rest: seq<Label>): (r: bool)
    ensures r <==> x !in rest
    decreases |rest|
  {
    if |rest| == 0 then true
    else
      !SameLabel(x, rest[0]) && NoneSame(x, rest[1..])
  }

  /** Pairwise distinctness of a list of labels. */
  predicate Distinct(ls: seq<Label>) {
    forall i, j :: 0 <= i < j < |ls| ==> ls[i] != ls[j]
  }

  /** The duplicate-name check. It is defined for one or more labels only: a
      single label is a set; otherwise the head must differ from every later
      label and the tail must itself be a set. */
  function IsStringSet(ls: seq<Label>): (r: bool)
    requires |ls| >= 1
    ensures r <==> Distinct(ls)
    decreases |ls|
  {
    if |ls| == 1 then true
    else
      NoneSame(ls[0], ls[1..]) && IsStringSet(ls[1..])
  }

  /** A list is distinct exactly when no label occurs in it twice. */
  lemma {:induction false} DistinctIffNoRepeats(ls: seq<Label>)
    ensures Distinct(ls) <==> forall x :: multiset(ls)[x] <= 1
  {
    if |ls| > 0 {
      var tail := ls[1..];
      DistinctIffNoRepeats(tail);
      assert ls == [ls[0]] + tail;
      assert multiset(ls) == multiset{ls[0]} + multiset(tail);
      assert Distinct(ls) <==> ls[0] !in tail && Distinct(tail) by {
        if ls[0] !in tail && Distinct(tail) {
          forall i, j | 0 <= i < j < |ls|
            ensures ls[i] != ls[j]
          {
            if i == 0 {
              assert ls[j] == tail[j - 1];
            } else {
              assert ls[i] == tail[i - 1] && ls[j] == tail[j - 1];
            }
          }
        }
      }
      if !Distinct(ls) {
        if ls[0] in tail {
          assert multiset(ls)[ls[0]] >= 2;
        } else {
          var x :| multiset(tail)[x] > 1;
          assert multiset(ls)[x] >= multiset(tail)[x];
        }
      }
    }
  }

  /** The duplicate-name check does not depend on the order of the labels. */
  lemma IsStringSetOrderIndependent(a: seq<Label>, b: seq<Label>)
    requires |a| >= 1
    requires multiset(a) == multiset(b)
    ensures |b| >= 1
    ensures IsStringSet(a) == IsStringSet(b)
  {
    assert |a| == |multiset(a)| == |multiset(b)| == |b|;
    DistinctIffNoRepeats(a);
    DistinctIffNoRepeats(b);
  }
}
