/**
 * The class-name composer of src/functions/classNameCreator.ts: the variadic
 * arguments are filtered by JavaScript truthiness and the survivors are joined
 * with single spaces.
 */
module ClassNames {

  /** One argument of the variadic call: a string, a boolean or `undefined`. */
  datatype ClassArg = Str(s: string) | Bool(b: bool) | Undef

  /** JavaScript truthiness, as `Boolean(x)` computes it for the three kinds of argument. */
  predicate Truthy(a: ClassArg) {
    match a
    case Str(s) => s != ""
    case Bool(b) => b
    case Undef => false
  }

  /** The text `Array.prototype.join` writes for one element (`undefined` becomes ""). */
  function Text(a: ClassArg): string {
    match a
    case Str(s) => s
    case Bool(b) => if b then "true" else "false"
    case Undef => ""
  }

  /** `classes.filter(Boolean)`: the truthy arguments, in their original order. */
  function Filter(classes: seq<ClassArg>): (kept: seq<ClassArg>)
    ensures |kept| <= |classes|
    ensures forall i :: 0 <= i < |kept| ==> Truthy(kept[i])
    ensures forall i :: 0 <= i < |kept| ==> kept[i] in classes
  {
    if classes == [] then []
    else (if Truthy(classes[0]) then [classes[0]] else []) + Filter(classes[1..])
  }

  /** `parts.join(" ")`. */
  function Join(parts: seq<ClassArg>): string {
    if parts == [] then ""
    else if |parts| == 1 then Text(parts[0])
    else Text(parts[0]) + " " + Join(parts[1..])
  }

  /** `classNameCreator(...classes)`. */
  function ClassNameCreator(classes: seq<ClassArg>): (r: string)
    ensures r == "" <==> forall i :: 0 <= i < |classes| ==> !Truthy(classes[i])
  {
    FilterEmpty(classes);
    JoinEmpty(Filter(classes));
    Join(Filter(classes))
  }

  /** Number of space characters in a string. */
  function Spaces(s: string): nat {
    if s == [] then 0 else (if s[0] == ' ' then 1 else 0) + Spaces(s[1..])
  }

  /** Total number of space characters inside the texts of the parts themselves. */
  function InnerSpaces(parts: seq<ClassArg>): nat {
    if parts == [] then 0 else Spaces(Text(parts[0])) + InnerSpaces(parts[1..])
  }

  // ---------------------------------------------------------------- Filter

  /** Filtering distributes over concatenation: nothing is reordered or moved. */
  lemma {:induction false} FilterAppend(xs: seq<ClassArg>, ys: seq<ClassArg>)
    ensures Filter(xs + ys) == Filter(xs) + Filter(ys)
  {
    if xs == [] {
      assert xs + ys == ys;
    } else {
      assert (xs + ys)[1..] == xs[1..] + ys;
      FilterAppend(xs[1..], ys);
    }
  }

  /** A single argument survives exactly when it is truthy; with `FilterAppend` this determines `Filter`. */
  lemma FilterSingle(a: ClassArg)
    ensures Filter([a]) == if Truthy(a) then [a] else []
  {
  }

  /** Nothing survives the filter exactly when every argument is falsy. */
  lemma {:induction false} FilterEmpty(classes: seq<ClassArg>)
    ensures Filter(classes) == [] <==> forall i :: 0 <= i < |classes| ==> !Truthy(classes[i])
  {
    if classes != [] {
      FilterEmpty(classes[1..]);
      if Filter(classes) == [] {
        forall i | 0 <= i < |classes| ensures !Truthy(classes[i]) {
          if i > 0 { assert classes[i] == classes[1..][i - 1]; }
        }
      } else {
        if Truthy(classes[0]) {
        } else {
          var j :| 0 <= j < |classes[1..]| && Truthy(classes[1..][j]);
          assert classes[j + 1] == classes[1..][j];
        }
      }
    }
  }

  /** Dropping falsy arguments is exactly what the filter does: the filter is idempotent. */
  lemma {:induction false} FilterIdempotent(classes: seq<ClassArg>)
    ensures Filter(Filter(classes)) == Filter(classes)
  {
    if classes != [] {
      var head := if Truthy(classes[0]) then [classes[0]] else [];
      FilterIdempotent(classes[1..]);
      FilterAppend(head, Filter(classes[1..]));
    }
  }

  // ---------------------------------------------------------------- Join

  /** The text of a truthy argument is never empty (`true` is written as "true"). */
  lemma TruthyTextNonEmpty(a: ClassArg)
    requires Truthy(a)
    ensures Text(a) != ""
  {
  }

  /** Joining truthy parts gives "" exactly when there are no parts. */
  lemma JoinEmpty(parts: seq<ClassArg>)
    requires forall i :: 0 <= i < |parts| ==> Truthy(parts[i])
    ensures Join(parts) == "" <==> parts == []
  {
    if parts != [] {
      TruthyTextNonEmpty(parts[0]);
    }
  }

  /** Joining two non-empty runs puts exactly one space between them. */
  lemma {:induction false} JoinAppend(xs: seq<ClassArg>, ys: seq<ClassArg>)
    requires xs != [] && ys != []
    ensures Join(xs + ys) == Join(xs) + " " + Join(ys)
  {
    if |xs| == 1 {
      assert (xs + ys)[1..] == ys;
    } else {
      assert (xs + ys)[1..] == xs[1..] + ys;
      JoinAppend(xs[1..], ys);
    }
  }

  /** Spaces are additive over concatenation. */
  lemma {:induction false} SpacesAppend(a: string, b: string)
    ensures Spaces(a + b) == Spaces(a) + Spaces(b)
  {
    if a == [] {
      assert a + b == b;
    } else {
      assert (a + b)[1..] == a[1..] + b;
      SpacesAppend(a[1..], b);
    }
  }

  /**
   * The join inserts exactly one separator between neighbours and none at either
   * end: its spaces are the parts' own spaces plus |parts| - 1, and it starts
   * with the first part and ends with the last.
   */
  lemma {:induction false} JoinSeparators(parts: seq<ClassArg>)
    requires parts != []
    ensures Spaces(Join(parts)) == InnerSpaces(parts) + |parts| - 1
    ensures Text(parts[0]) <= Join(parts)
    ensures |Join(parts)| >= |Text(parts[|parts| - 1])|
    ensures Join(parts)[|Join(parts)| - |Text(parts[|parts| - 1])|..] == Text(parts[|parts| - 1])
  {
    if |parts| > 1 {
      JoinSeparators(parts[1..]);
      SpacesAppend(Text(parts[0]), " ");
      SpacesAppend(Text(parts[0]) + " ", Join(parts[1..]));
      assert Spaces(" ") == 1;
      var tail := Join(parts[1..]);
      var whole := Text(parts[0]) + " " + tail;
      assert whole[|whole| - |tail|..] == tail;
    }
  }

  // ---------------------------------------------------------------- ClassNameCreator

  /** The result is the joined truthy arguments, in input order: the composer distributes over argument lists. */
  lemma ClassNameAppend(xs: seq<ClassArg>, ys: seq<ClassArg>)
    requires exists i :: 0 <= i < |xs| && Truthy(xs[i])
    requires exists j :: 0 <= j < |ys| && Truthy(ys[j])
    ensures ClassNameCreator(xs + ys) == ClassNameCreator(xs) + " " + ClassNameCreator(ys)
  {
    FilterAppend(xs, ys);
    FilterEmpty(xs);
    FilterEmpty(ys);
    JoinAppend(Filter(xs), Filter(ys));
  }

  /** A single argument gives its own text when truthy (so `true` gives "true") and "" otherwise. */
  lemma ClassNameSingle(a: ClassArg)
    ensures ClassNameCreator([a]) == if Truthy(a) then Text(a) else ""
  {
    FilterSingle(a);
  }

  /** Composing the composer's own result again changes nothing. */
  lemma ClassNameIdempotent(classes: seq<ClassArg>)
    ensures ClassNameCreator([Str(ClassNameCreator(classes))]) == ClassNameCreator(classes)
  {
    ClassNameSingle(Str(ClassNameCreator(classes)));
  }

  /** Falsy arguments inserted anywhere leave the result unchanged. */
  lemma InsertFalsy(xs: seq<ClassArg>, falsy: seq<ClassArg>, ys: seq<ClassArg>)
    requires forall i :: 0 <= i < |falsy| ==> !Truthy(falsy[i])
    ensures ClassNameCreator(xs + falsy + ys) == ClassNameCreator(xs + ys)
  {
    FilterEmpty(falsy);
    FilterAppend(xs + falsy, ys);
    FilterAppend(xs, falsy);
    FilterAppend(xs, ys);
    assert Filter(xs) + [] == Filter(xs);
  }

  /** `classNameCreator("a", false, undefined, "b")` is "a b"; with no arguments it is "". */
  lemma ClassNameExamples()
    ensures ClassNameCreator([Str("a"), Bool(false), Undef, Str("b")]) == "a b"
    ensures ClassNameCreator([]) == ""
    ensures ClassNameCreator([Bool(true), Bool(false)]) == "true"
  {
    var args := [Str("a"), Bool(false), Undef, Str("b")];
    assert args[1..][1..][1..] == [Str("b")];
    assert Filter(args) == [Str("a"), Str("b")];
    var t := [Bool(true), Bool(false)];
    assert t[1..] == [Bool(false)];
    assert Filter(t) == [Bool(true)];
  }
}
