/** The text operators of the query builder: values escaped by three replacements and matched with SQL LIKE. */
module LikePatterns {

  /** `s.replace(c, to)` for a one-character `c`. */
  function Replace(s: string, c: char, to: string): string {
    if s == [] then [] else (if s[0] == c then to else [s[0]]) + Replace(s[1..], c, to)
  }

  /** The escaping every text operator applies to its value, in the order of the source. */
  function Escape(value: string): string {
    Replace(Replace(Replace(value, '\\', "\\\\"), '%', "\\%"), '_', "\\_")
  }

  datatype TextOperator = IEq | Contains | IContains | StartsWith | IStartsWith | EndsWith | IEndsWith

  function Pattern(operator: TextOperator, value: string): string {
    match operator
    case IEq => Escape(value)
    case Contains => "%" + Escape(value) + "%"
    case IContains => "%" + Escape(value) + "%"
    case StartsWith => Escape(value) + "%"
    case IStartsWith => Escape(value) + "%"
    case EndsWith => "%" + Escape(value)
    case IEndsWith => "%" + Escape(value)
  }

  /** LIKE compares characters themselves, ILIKE compares them up to the database's case folding. */
  function Comparison(operator: TextOperator, fold: char -> char): (char, char) -> bool {
    if operator.Contains? || operator.StartsWith? || operator.EndsWith?
    then (a: char, b: char) => a == b
    else (a: char, b: char) => fold(a) == fold(b)
  }

  /** `text LIKE pattern ESCAPE '\'`, as section 8.5 of ISO/IEC 9075-2 defines it. */
  predicate Like(text: string, pattern: string, same: (char, char) -> bool)
    decreases |pattern|, |text|
  {
    if pattern == [] then text == []
    else if pattern[0] == '%' then Like(text, pattern[1..], same) || (text != [] && Like(text[1..], pattern, same))
    else if pattern[0] == '_' then text != [] && Like(text[1..], pattern[1..], same)
    else if pattern[0] == '\\' then
      |pattern| >= 2 && text != [] && same(text[0], pattern[1]) && Like(text[1..], pattern[2..], same)
    else text != [] && same(text[0], pattern[0]) && Like(text[1..], pattern[1..], same)
  }

  /** Every escape character is followed by a character it may escape: the pattern raises no data exception. */
  predicate WellEscaped(pattern: string) {
    if pattern == [] then true
    else if pattern[0] == '\\' then |pattern| >= 2 && pattern[1] in {'\\', '%', '_'} && WellEscaped(pattern[2..])
    else WellEscaped(pattern[1..])
  }

  predicate SameText(a: string, b: string, same: (char, char) -> bool) {
    |a| == |b| && forall i :: 0 <= i < |a| ==> same(a[i], b[i])
  }

  /** What an operator promises about a text and the searched value. */
  predicate Promises(operator: TextOperator, text: string, value: string, same: (char, char) -> bool) {
    match operator
    case IEq => SameText(text, value, same)
    case Contains => Occurs(text, value, same)
    case IContains => Occurs(text, value, same)
    case StartsWith => |value| <= |text| && SameText(text[..|value|], value, same)
    case IStartsWith => |value| <= |text| && SameText(text[..|value|], value, same)
    case EndsWith => |value| <= |text| && SameText(text[|text| - |value|..], value, same)
    case IEndsWith => |value| <= |text| && SameText(text[|text| - |value|..], value, same)
  }

  predicate Occurs(text: string, value: string, same: (char, char) -> bool) {
    exists k :: 0 <= k <= |text| && OccursAt(text, value, k, same)
  }

  predicate OccursAt(text: string, value: string, k: nat, same: (char, char) -> bool) {
    k + |value| <= |text| && SameText(text[k..k + |value|], value, same)
  }

  // ---------------------------------------------------------------- escaping works character by character

  lemma {:induction false} ReplaceAppend(a: string, b: string, c: char, to: string)
    ensures Replace(a + b, c, to) == Replace(a, c, to) + Replace(b, c, to)
  {
    if a == [] {
      assert a + b == b;
    } else {
      ReplaceAppend(a[1..], b, c, to);
      assert (a + b)[1..] == a[1..] + b;
    }
  }

  function EscapeOne(c: char): string {
    if c == '\\' || c == '%' || c == '_' then ['\\', c] else [c]
  }

  lemma ReplaceOne(x: char, c: char, to: string)
    ensures Replace([x], c, to) == if x == c then to else [x]
  {
    assert Replace([x][1..], c, to) == [];
  }

  lemma ReplaceTwo(x: char, y: char, c: char, to: string)
    ensures Replace([x, y], c, to) == (if x == c then to else [x]) + (if y == c then to else [y])
  {
    assert [x, y] == [x] + [y];
    ReplaceAppend([x], [y], c, to);
    ReplaceOne(x, c, to);
    ReplaceOne(y, c, to);
  }

  lemma EscapeOfOne(c: char)
    ensures Escape([c]) == EscapeOne(c)
  {
    ReplaceOne(c, '\\', "\\\\");
    if c == '\\' {
      ReplaceTwo('\\', '\\', '%', "\\%");
      ReplaceTwo('\\', '\\', '_', "\\_");
    } else {
      ReplaceOne(c, '%', "\\%");
      if c == '%' {
        ReplaceTwo('\\', '%', '_', "\\_");
      } else {
        ReplaceOne(c, '_', "\\_");
      }
    }
  }

  lemma EscapeStep(value: string)
    requires value != []
    ensures Escape(value) == EscapeOne(value[0]) + Escape(value[1..])
  {
    var (c, rest) := ([value[0]], value[1..]);
    assert value == c + rest;
    ReplaceAppend(c, rest, '\\', "\\\\");
    var (c1, r1) := (Replace(c, '\\', "\\\\"), Replace(rest, '\\', "\\\\"));
    ReplaceAppend(c1, r1, '%', "\\%");
    ReplaceAppend(Replace(c1, '%', "\\%"), Replace(r1, '%', "\\%"), '_', "\\_");
    EscapeOfOne(value[0]);
  }

  lemma {:induction false} EscapedIsWellFormed(value: string)
    ensures WellEscaped(Escape(value))
  {
    if value != [] {
      EscapeStep(value);
      EscapedIsWellFormed(value[1..]);
      var (one, rest) := (EscapeOne(value[0]), Escape(value[1..]));
      assert (one + rest)[|one|..] == rest;
    }
  }

  // ---------------------------------------------------------------- matching

  lemma LiteralStep(text: string, c: char, rest: string, same: (char, char) -> bool)
    ensures Like(text, EscapeOne(c) + rest, same) <==> text != [] && same(text[0], c) && Like(text[1..], rest, same)
  {
    var pattern := EscapeOne(c) + rest;
    assert pattern[|EscapeOne(c)|..] == rest;
  }

  lemma SameFirst(text: string, value: string, same: (char, char) -> bool)
    requires 1 <= |value| <= |text|
    ensures SameText(text[..|value|], value, same) <==>
            same(text[0], value[0]) && SameText(text[1..][..|value| - 1], value[1..], same)
  {
    var (head, tail) := (text[..|value|], text[1..][..|value| - 1]);
    assert forall i :: 1 <= i < |value| ==> head[i] == tail[i - 1] && value[i] == value[1..][i - 1];
    assert forall i :: 0 <= i < |value| - 1 ==> tail[i] == head[i + 1] && value[1..][i] == value[i + 1];
  }

  /** An escaped value matches exactly itself, at the front of the text. */
  lemma {:induction false} EscapedMatchesItself(text: string, value: string, rest: string, same: (char, char) -> bool)
    ensures Like(text, Escape(value) + rest, same) <==>
            |value| <= |text| && SameText(text[..|value|], value, same) && Like(text[|value|..], rest, same)
  {
    if value == [] {
      assert Escape(value) + rest == rest;
      assert text[0..] == text;
    } else {
      EscapeStep(value);
      assert Escape(value) + rest == EscapeOne(value[0]) + (Escape(value[1..]) + rest);
      LiteralStep(text, value[0], Escape(value[1..]) + rest, same);
      if text != [] {
        EscapedMatchesItself(text[1..], value[1..], rest, same);
        if |value| <= |text| {
          assert text[1..][|value[1..]|..] == text[|value|..];
          SameFirst(text, value, same);
        }
      }
    }
  }

  lemma {:induction false} PercentSkips(text: string, rest: string, same: (char, char) -> bool)
    ensures Like(text, "%" + rest, same) <==> exists k :: 0 <= k <= |text| && Like(text[k..], rest, same)
  {
    var pattern := "%" + rest;
    assert pattern[1..] == rest;
    assert text[0..] == text;
    if text != [] {
      PercentSkips(text[1..], rest, same);
      if k :| 0 <= k <= |text| - 1 && Like(text[1..][k..], rest, same) {
        assert text[1..][k..] == text[k + 1..];
      }
      if k :| 1 <= k <= |text| && Like(text[k..], rest, same) {
        assert text[1..][k - 1..] == text[k..];
      }
    }
  }

  lemma AnythingMatchesPercent(text: string, same: (char, char) -> bool)
    ensures Like(text, "%", same)
  {
    PercentSkips(text, "", same);
    assert "%" + "" == "%" && text[|text|..] == "" && Like(text[|text|..], "", same);
  }

  lemma PrefixIsExact(text: string, value: string, same: (char, char) -> bool)
    ensures Like(text, Escape(value) + "%", same) <==> |value| <= |text| && SameText(text[..|value|], value, same)
  {
    EscapedMatchesItself(text, value, "%", same);
    if |value| <= |text| {
      AnythingMatchesPercent(text[|value|..], same);
    }
  }

  lemma EqualIsExact(text: string, value: string, same: (char, char) -> bool)
    ensures Like(text, Escape(value), same) <==> SameText(text, value, same)
  {
    EscapedMatchesItself(text, value, "", same);
    assert Escape(value) + "" == Escape(value);
    if |value| == |text| {
      assert text[..|value|] == text;
    }
  }

  lemma SuffixIsExact(text: string, value: string, same: (char, char) -> bool)
    ensures Like(text, "%" + Escape(value), same) <==>
            |value| <= |text| && SameText(text[|text| - |value|..], value, same)
  {
    PercentSkips(text, Escape(value), same);
    forall k | 0 <= k <= |text| ensures Like(text[k..], Escape(value), same) <==> SameText(text[k..], value, same) {
      EqualIsExact(text[k..], value, same);
    }
  }

  lemma SubstringIsExact(text: string, value: string, same: (char, char) -> bool)
    ensures Like(text, "%" + Escape(value) + "%", same) <==> Occurs(text, value, same)
  {
    assert "%" + Escape(value) + "%" == "%" + (Escape(value) + "%");
    PercentSkips(text, Escape(value) + "%", same);
    forall k | 0 <= k <= |text|
      ensures Like(text[k..], Escape(value) + "%", same) <==> OccursAt(text, value, k, same)
    {
      PrefixIsExact(text[k..], value, same);
      if k + |value| <= |text| {
        assert text[k..][..|value|] == text[k..k + |value|];
      }
    }
  }

  /** For the case-sensitive operators "the same text" means equality. */
  lemma SameMeansEqual(operator: TextOperator, a: string, b: string, fold: char -> char)
    requires operator.Contains? || operator.StartsWith? || operator.EndsWith?
    ensures SameText(a, b, Comparison(operator, fold)) <==> a == b
  {
  }

  /** Every text operator accepts exactly the texts it promises, wildcards and escapes in the value included. */
  lemma OperatorKeepsPromise(operator: TextOperator, text: string, value: string, fold: char -> char)
    ensures var same := Comparison(operator, fold);
            Like(text, Pattern(operator, value), same) <==> Promises(operator, text, value, same)
  {
    var same := Comparison(operator, fold);
    match operator
    case IEq => EqualIsExact(text, value, same);
    case Contains => SubstringIsExact(text, value, same);
    case IContains => SubstringIsExact(text, value, same);
    case StartsWith => PrefixIsExact(text, value, same);
    case IStartsWith => PrefixIsExact(text, value, same);
    case EndsWith => SuffixIsExact(text, value, same);
    case IEndsWith => SuffixIsExact(text, value, same);
  }

  // ---------------------------------------------------------------- in terms of the texts themselves

  function Folded(s: string, fold: char -> char): (r: string)
    ensures |r| == |s| && forall k :: 0 <= k < |s| ==> r[k] == fold(s[k])
  {
    seq(|s|, k requires 0 <= k < |s| => fold(s[k]))
  }

  /** `part` stands in `whole` as a contiguous piece. */
  predicate IsPiece(part: string, whole: string) {
    exists k :: 0 <= k <= |whole| && IsPieceAt(part, whole, k)
  }

  predicate IsPieceAt(part: string, whole: string, k: nat) {
    k + |part| <= |whole| && whole[k..k + |part|] == part
  }

  predicate IsSuffix(part: string, whole: string) {
    |part| <= |whole| && whole[|whole| - |part|..] == part
  }

  /** What the names of the operators say: about the texts, or for the `i` forms about the folded texts. */
  predicate Says(operator: TextOperator, text: string, value: string, fold: char -> char) {
    var (t, v) := (Folded(text, fold), Folded(value, fold));
    match operator
    case IEq => t == v
    case Contains => IsPiece(value, text)
    case IContains => IsPiece(v, t)
    case StartsWith => value <= text
    case IStartsWith => v <= t
    case EndsWith => IsSuffix(value, text)
    case IEndsWith => IsSuffix(v, t)
  }

  predicate FoldsCase(operator: TextOperator) {
    operator == IEq || operator == IContains || operator == IStartsWith || operator == IEndsWith
  }

  /** The same text under the operator's comparison: equal texts, or texts that are equal when folded. */
  lemma SameWhenFolded(operator: TextOperator, a: string, b: string, fold: char -> char)
    ensures SameText(a, b, Comparison(operator, fold)) <==>
            if FoldsCase(operator) then Folded(a, fold) == Folded(b, fold) else a == b
  {
    if FoldsCase(operator) && Folded(a, fold) == Folded(b, fold) {
      forall k | 0 <= k < |a| ensures Comparison(operator, fold)(a[k], b[k]) {
        assert Folded(a, fold)[k] == Folded(b, fold)[k];
      }
    }
  }

  lemma FoldedSlice(s: string, i: nat, j: nat, fold: char -> char)
    requires i <= j <= |s|
    ensures Folded(s[i..j], fold) == Folded(s, fold)[i..j]
  {
  }

  lemma PieceWhenFolded(operator: TextOperator, text: string, value: string, fold: char -> char)
    ensures Occurs(text, value, Comparison(operator, fold)) <==>
            if FoldsCase(operator) then IsPiece(Folded(value, fold), Folded(text, fold)) else IsPiece(value, text)
  {
    var same := Comparison(operator, fold);
    forall k | 0 <= k <= |text|
      ensures OccursAt(text, value, k, same) <==>
              if FoldsCase(operator) then IsPieceAt(Folded(value, fold), Folded(text, fold), k) else IsPieceAt(value, text, k)
    {
      if k + |value| <= |text| {
        SameWhenFolded(operator, text[k..k + |value|], value, fold);
        FoldedSlice(text, k, k + |value|, fold);
      }
    }
  }

  lemma PrefixWhenFolded(operator: TextOperator, text: string, value: string, fold: char -> char)
    ensures (|value| <= |text| && SameText(text[..|value|], value, Comparison(operator, fold))) <==>
            if FoldsCase(operator) then Folded(value, fold) <= Folded(text, fold) else value <= text
  {
    if |value| <= |text| {
      SameWhenFolded(operator, text[..|value|], value, fold);
      FoldedSlice(text, 0, |value|, fold);
      assert text[0..|value|] == text[..|value|];
    }
  }

  lemma SuffixWhenFolded(operator: TextOperator, text: string, value: string, fold: char -> char)
    ensures (|value| <= |text| && SameText(text[|text| - |value|..], value, Comparison(operator, fold))) <==>
            if FoldsCase(operator) then IsSuffix(Folded(value, fold), Folded(text, fold)) else IsSuffix(value, text)
  {
    if |value| <= |text| {
      var n := |text| - |value|;
      var (tail, folded) := (text[n..], Folded(text, fold)[n..]);
      SameWhenFolded(operator, tail, value, fold);
      assert |tail| == |folded| && forall k :: 0 <= k < |tail| ==> folded[k] == Folded(tail, fold)[k];
      assert Folded(tail, fold) == folded;
    }
  }

  /**
   * Every text operator accepts exactly the texts its name says: `contains` a piece, `startswith` a prefix, `endswith` a
   * suffix, the `i` forms and `ieq` the same of the folded texts; wildcards and escapes in the value are text.
   */
  lemma OperatorIsExact(operator: TextOperator, text: string, value: string, fold: char -> char)
    ensures Like(text, Pattern(operator, value), Comparison(operator, fold)) <==> Says(operator, text, value, fold)
  {
    OperatorKeepsPromise(operator, text, value, fold);
    match operator
    case IEq => SameWhenFolded(operator, text, value, fold);
    case Contains => PieceWhenFolded(operator, text, value, fold);
    case IContains => PieceWhenFolded(operator, text, value, fold);
    case StartsWith => PrefixWhenFolded(operator, text, value, fold);
    case IStartsWith => PrefixWhenFolded(operator, text, value, fold);
    case EndsWith => SuffixWhenFolded(operator, text, value, fold);
    case IEndsWith => SuffixWhenFolded(operator, text, value, fold);
  }
}
