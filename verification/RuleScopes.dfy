/** Canonical codes, amounts and keys of commission rules. */
module RuleScopes {
  import opened Prelude
  import opened Text
  import opened Digits

  /** A number as a request carries it; anything that is not a finite number is NotFinite. */
  datatype Number = Finite(value: real) | NotFinite

  /** `n` is the nearest integer, the upper one of two. */
  predicate RoundsTo(x: real, n: int) {
    n as real - 0.5 <= x < n as real + 0.5
  }

  /** Half-up rounding to two decimals, in hundredths: `toFixed(2)`, and the amount columns. */
  function Hundredths(x: real): (n: int)
    ensures RoundsTo(x * 100.0, n)
  {
    (x * 100.0 + 0.5).Floor
  }

  /** Half-up rounding to four decimals, in ten-thousandths: the value column. */
  function TenThousandths(x: real): (n: int)
    ensures RoundsTo(x * 10000.0, n)
  {
    (x * 10000.0 + 0.5).Floor
  }

  function Decimals4(n: int): real {
    n as real / 10000.0
  }

  /**
   * `decimal(x)` is the number the database receives for x, that is the shortest decimal text
   * which reads back as x. It preserves order and leaves values of at most four decimals alone.
   */
  ghost predicate WritesDecimals(decimal: real -> real) {
    && (forall x, y :: x <= y ==> decimal(x) <= decimal(y))
    && (forall n: int :: decimal(Decimals4(n)) == Decimals4(n))
  }

  /** Both roundings of the amount, the key's and the column's, give the same hundredths. */
  predicate Agrees(decimal: real -> real, x: real) {
    Hundredths(x) == Hundredths(decimal(x))
  }

  /** What identifies a rule; amounts are in hundredths, None is unbounded. */
  datatype Scope = Scope(service: string, operator: Option<string>, role: string, min: Option<int>, max: Option<int>)

  /** A missing or blank operator stands for all operators, any other text for its code. */
  predicate OperatorOf(text: Option<string>, stored: Option<string>) {
    if text == None || Trim(text.value) == "" then stored == None else stored == Some(Code(text.value))
  }

  function OptionalCode(s: Option<string>): (r: Option<string>)
    ensures OperatorOf(s, r)
  {
    if s == None || Code(s.value) == "" then None else Some(Code(s.value))
  }

  function FixedText(n: int): string {
    var a: nat := if n < 0 then -n else n;
    (if n < 0 then "-" else "") + Decimal(a / 100) + "." + [DigitChar(a / 10 % 10), DigitChar(a % 10)]
  }

  function AmountText(a: Option<int>): string {
    if a == None then "*" else FixedText(a.value)
  }

  function OperatorText(o: Option<string>): string {
    if o == None then "*" else o.value
  }

  function KeyFields(s: Scope): seq<string> {
    [Code(s.service), OperatorText(OptionalCode(s.operator)), Code(s.role), AmountText(s.min), AmountText(s.max)]
  }

  function RuleKey(s: Scope): Digest {
    Sha256(Join(KeyFields(s)))
  }

  /** The codes of the scope are in canonical form. */
  predicate Canonical(s: Scope) {
    && Code(s.service) == s.service != "" && Code(s.role) == s.role != ""
    && OptionalCode(s.operator) == s.operator
  }

  predicate NonNegative(a: Option<int>) {
    a.Some? ==> a.value >= 0
  }

  lemma LastTwoDigits(m: nat, n: nat)
    requires m / 100 == n / 100 && m / 10 % 10 == n / 10 % 10 && m % 10 == n % 10
    ensures m == n
  {
    assert m == m / 10 * 10 + m % 10 && m / 10 == m / 10 / 10 * 10 + m / 10 % 10 && m / 10 / 10 == m / 100;
    assert n == n / 10 * 10 + n % 10 && n / 10 == n / 10 / 10 * 10 + n / 10 % 10 && n / 10 / 10 == n / 100;
  }

  lemma SplitFixed(a: string, b: string, x: char, y: char, u: char, v: char)
    requires a + "." + [x, y] == b + "." + [u, v]
    ensures a == b && x == u && y == v
  {
    var s, t := a + "." + [x, y], b + "." + [u, v];
    assert |a| == |s| - 3 == |t| - 3 == |b|;
    assert a == s[..|a|] == t[..|a|] == b;
    assert x == s[|a| + 1] == t[|a| + 1] == u && y == s[|a| + 2] == t[|a| + 2] == v;
  }

  lemma FixedTextInjective(m: nat, n: nat)
    ensures FixedText(m) == FixedText(n) <==> m == n
  {
    if FixedText(m) == FixedText(n) {
      assert FixedText(m) == Decimal(m / 100) + "." + [DigitChar(m / 10 % 10), DigitChar(m % 10)];
      assert FixedText(n) == Decimal(n / 100) + "." + [DigitChar(n / 10 % 10), DigitChar(n % 10)];
      SplitFixed(Decimal(m / 100), Decimal(n / 100), DigitChar(m / 10 % 10), DigitChar(m % 10),
                 DigitChar(n / 10 % 10), DigitChar(n % 10));
      DecimalInjective(m / 100, n / 100);
      LastTwoDigits(m, n);
    }
  }

  lemma FixedTextIsPlain(n: nat)
    ensures '|' !in FixedText(n) && FixedText(n) != "*"
    ensures forall i :: 0 <= i < |FixedText(n)| ==> IsDigit(FixedText(n)[i]) || FixedText(n)[i] == '.'
  {
    DecimalIsCanonical(n / 100);
    var d := Decimal(n / 100);
    assert forall i :: 0 <= i < |d| ==> IsDigit(d[i]);
    assert |FixedText(n)| == |d| + 3;
  }

  lemma AmountTextInjective(a: Option<int>, b: Option<int>)
    requires NonNegative(a) && NonNegative(b)
    ensures AmountText(a) == AmountText(b) <==> a == b
    ensures '|' !in AmountText(a) && '|' !in AmountText(b)
  {
    if a.Some? {
      FixedTextIsPlain(a.value);
    }
    if b.Some? {
      FixedTextIsPlain(b.value);
    }
    if a.Some? && b.Some? {
      FixedTextInjective(a.value, b.value);
    }
  }

  /** For codes without a bar and no operator "*", equal keys mean equal scopes. */
  lemma RuleKeyInjective(s: Scope, t: Scope)
    requires Canonical(s) && Canonical(t)
    requires BarFree([s.service, OperatorText(s.operator), s.role]) &&
             BarFree([t.service, OperatorText(t.operator), t.role])
    requires s.operator != Some("*") && t.operator != Some("*")
    requires NonNegative(s.min) && NonNegative(s.max) && NonNegative(t.min) && NonNegative(t.max)
    ensures RuleKey(s) == RuleKey(t) <==> s == t
  {
    AmountTextInjective(s.min, t.min);
    AmountTextInjective(s.max, t.max);
    if RuleKey(s) == RuleKey(t) {
      var x, y := KeyFields(s), KeyFields(t);
      assert BarFree(x) by {
        assert x == [s.service, OperatorText(s.operator), s.role] + [AmountText(s.min), AmountText(s.max)];
      }
      assert BarFree(y) by {
        assert y == [t.service, OperatorText(t.operator), t.role] + [AmountText(t.min), AmountText(t.max)];
      }
      JoinInjective(x, y);
      assert x[0] == y[0] && x[1] == y[1] && x[2] == y[2] && x[3] == y[3] && x[4] == y[4];
    }
  }

  /** Whatever the codes are, scopes that differ only in their amounts have different keys. */
  lemma AmountsDecideKey(s: Scope, min: Option<int>, max: Option<int>)
    requires NonNegative(s.min) && NonNegative(s.max) && NonNegative(min) && NonNegative(max)
    ensures RuleKey(s) == RuleKey(s.(min := min, max := max)) <==> s.min == min && s.max == max
  {
    var t := s.(min := min, max := max);
    AmountTextInjective(s.min, min);
    AmountTextInjective(s.max, max);
    var x, y := [AmountText(s.min), AmountText(s.max)], [AmountText(min), AmountText(max)];
    var front := Code(s.service) + "|" + (OperatorText(OptionalCode(s.operator)) + "|" + (Code(s.role) + "|"));
    FrontOfKey(s, front);
    FrontOfKey(t, front);
    if RuleKey(s) == RuleKey(t) {
      assert Join(x) == (front + Join(x))[|front|..] == (front + Join(y))[|front|..] == Join(y);
      JoinInjective(x, y);
      assert x[0] == y[0] && x[1] == y[1];
    }
  }

  lemma FrontOfKey(s: Scope, front: string)
    requires front == Code(s.service) + "|" + (OperatorText(OptionalCode(s.operator)) + "|" + (Code(s.role) + "|"))
    ensures Join(KeyFields(s)) == front + Join([AmountText(s.min), AmountText(s.max)])
  {
    var f := KeyFields(s);
    assert f[1..][1..][1..] == [AmountText(s.min), AmountText(s.max)];
    assert Join(f) == f[0] + "|" + Join(f[1..]);
    assert Join(f[1..]) == f[1] + "|" + Join(f[1..][1..]);
    assert Join(f[1..][1..]) == f[2] + "|" + Join(f[1..][1..][1..]);
  }
}
