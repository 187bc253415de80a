/** What the token estimate counts: for texts of one kind of characters, and for texts put together from them. */
module TokenCounts {
  import opened TextTokens

  predicate IsHangul(ch: char)
  {
    '\U{AC00}' <= ch <= '\U{D7A3}' || '\U{1100}' <= ch <= '\U{11FF}' || '\U{3130}' <= ch <= '\U{318F}'
  }

  /** Han ideographs, hiragana and katakana. */
  predicate IsCjk(ch: char)
  {
    '\U{4E00}' <= ch <= '\U{9FFF}' || '\U{3400}' <= ch <= '\U{4DBF}' || '\U{3040}' <= ch <= '\U{30FF}'
  }

  predicate IsAsciiLetter(ch: char) { 'a' <= ch <= 'z' || 'A' <= ch <= 'Z' }

  predicate IsOther(ch: char) { ch >= '\U{80}' && !IsHangul(ch) && !IsCjk(ch) }

  /** Which characters are of one kind. */
  predicate Belongs(ch: char, kind: Kind, c: Setting)
  {
    match kind
    case Space => ch in " \t"
    case Newline => ch in "\r\n"
    case Digit => ch in "0123456789"
    case Latin => IsAsciiLetter(ch) || (IsOther(ch) && c.isLetter(ch))
    case Hangul => IsHangul(ch)
    case Cjk => IsCjk(ch)
    case Punct => ch < '\U{80}' && !IsAsciiLetter(ch) && ch !in " \t\r\n0123456789"
    case Symbol => IsOther(ch) && !c.isLetter(ch)
  }

  lemma KindsAreDisjoint(ch: char, kind: Kind, c: Setting)
    ensures KindOf(ch, c) == kind <==> Belongs(ch, kind, c)
  {
  }

  ghost predicate AllOf(text: string, kind: Kind, c: Setting)
  {
    text != "" && forall i | 0 <= i < |text| :: Belongs(text[i], kind, c)
  }

  lemma {:induction false} OneKindIsOneRun(text: string, i: nat, kind: Kind, c: Setting)
    requires AllOf(text, kind, c) && i <= |text|
    ensures RunEnd(text, i, kind, c) == |text|
    decreases |text| - i
  {
    if i < |text| {
      KindsAreDisjoint(text[i], kind, c);
      OneKindIsOneRun(text, i + 1, kind, c);
    }
  }

  lemma OneKindIsOnePrice(text: string, kind: Kind, c: Setting)
    requires AllOf(text, kind, c)
    ensures Raw(text, c) == Price(kind, |text|, c)
  {
    KindsAreDisjoint(text[0], kind, c);
    OneKindIsOneRun(text, 1, kind, c);
    FirstRun(text, 0, kind, |text|, c);
  }

  /** `x` is one part in `n` of `size` characters. */
  predicate PartOf(x: real, size: nat, n: nat) { x * n as real == size as real }

  /** What a text of one kind of characters counts, before it is rounded. */
  lemma OneKindCounts(text: string, kind: Kind, c: Setting)
    requires AllOf(text, kind, c)
    ensures
      var x, n := Raw(text, c), |text|;
      match kind
      case Latin => if n <= 7 then x == 1.0 else PartOf(x, n, 7)
      case Digit => if n <= 3 then x == 1.0 else PartOf(x, n, 3)
      case Hangul => x == n as real * c.hangul
      case Cjk => x == n as real
      case Newline => x == n as real
      case Space => PartOf(x, n - 1, 4)
      case Punct => PartOf(x, 3 * n, 5)
      case Symbol => x == (2 * n) as real
  {
    OneKindIsOnePrice(text, kind, c);
    TimesIsTheProduct(|text|, c.hangul);
  }

  /** Where the kind changes, the counts add up. */
  lemma {:induction false} CountsAddWhereTheKindChanges(a: string, b: string, i: nat, c: Setting)
    requires i < |a| && b != "" && KindOf(a[|a| - 1], c) != KindOf(b[0], c)
    ensures RawFrom(a + b, i, c) == RawFrom(a, i, c) + Raw(b, c)
    decreases |a| - i
  {
    var kind := KindOf(a[i], c);
    var end := RunEnd(a, i + 1, kind, c);
    if end == |a| {
      LastIsInTheRun(a, i + 1, kind, c);
      LastRunEnds(a, b, i, kind, c);
      FirstRun(a, i, kind, |a|, c);
    } else {
      CountsAddWhereTheKindChanges(a, b, end, c);
      SameFirstRun(a, b, i, kind, end, c);
    }
  }

  lemma {:induction false} LastIsInTheRun(text: string, i: nat, kind: Kind, c: Setting)
    requires 0 < i <= |text| && KindOf(text[i - 1], c) == kind && RunEnd(text, i, kind, c) == |text|
    ensures KindOf(text[|text| - 1], c) == kind
    decreases |text| - i
  {
    if i < |text| {
      LastIsInTheRun(text, i + 1, kind, c);
    }
  }

  /** A text put together from two with different kinds at the seam counts what they count together. */
  lemma KindsAdd(a: string, b: string, kind: Kind, other: Kind, c: Setting)
    requires a != "" && b != "" && kind != other
    requires Belongs(a[|a| - 1], kind, c) && Belongs(b[0], other, c)
    ensures Raw(a + b, c) == Raw(a, c) + Raw(b, c)
  {
    KindsAreDisjoint(a[|a| - 1], kind, c);
    KindsAreDisjoint(b[0], other, c);
    CountsAddWhereTheKindChanges(a, b, 0, c);
  }

  /** The estimate is the count rounded to the nearest integer, a half upwards, and at least 1 for any text. */
  lemma EstimateRounds(text: string, c: Setting)
    ensures text == "" ==> Estimate(text, c) == 0
    ensures text != "" ==> Estimate(text, c) >= 1
    ensures text != "" && Raw(text, c) >= 0.5 ==>
      Estimate(text, c) as real - 0.5 <= Raw(text, c) < Estimate(text, c) as real + 0.5
    ensures text != "" && Raw(text, c) < 0.5 ==> Estimate(text, c) == 1
  {
    var x := Raw(text, c) + 0.5;
    assert x.Floor as real <= x < x.Floor as real + 1.0;
  }
}
