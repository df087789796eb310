/** Login IDs: a role prefix followed by the role's counter, zero-padded to four digits. */
module LoginIds {
  import opened Prelude
  import opened Digits

  predicate DigitFree(s: string) {
    forall i :: 0 <= i < |s| ==> !IsDigit(s[i])
  }

  function Zeros(n: nat): string {
    seq(n, _ => '0')
  }

  function PadStart(s: string, width: nat): string {
    if |s| < width then Zeros(width - |s|) + s else s
  }

  const WIDTH: nat := 4

  function LoginId(prefix: string, number: nat): string {
    prefix + PadStart(Decimal(number), WIDTH)
  }

  lemma {:induction false} LeadingZerosDoNotCount(k: nat, s: string)
    requires AllDigits(s)
    ensures AllDigits(Zeros(k) + s) && Value(Zeros(k) + s) == Value(s)
  {
    var t := Zeros(k) + s;
    if s == [] {
      if k > 0 {
        assert t[..|t| - 1] == Zeros(k - 1) + [];
        LeadingZerosDoNotCount(k - 1, []);
      }
    } else {
      assert t[..|t| - 1] == Zeros(k) + s[..|s| - 1];
      LeadingZerosDoNotCount(k, s[..|s| - 1]);
    }
  }

  lemma PaddedValue(n: nat)
    ensures var d := PadStart(Decimal(n), WIDTH);
            && AllDigits(d) && Value(d) == n && |d| >= WIDTH
            && (|d| > WIDTH ==> d == Decimal(n) && d[0] != '0')
  {
    DecimalIsCanonical(n);
    if |Decimal(n)| < WIDTH {
      LeadingZerosDoNotCount(WIDTH - |Decimal(n)|, Decimal(n));
    }
    if |Decimal(n)| > WIDTH && n == 0 {
      assert false;
    }
  }

  /** Within one role the numbering is injective, whatever the prefix. */
  lemma SamePrefixInjective(prefix: string, m: nat, n: nat)
    ensures LoginId(prefix, m) == LoginId(prefix, n) <==> m == n
  {
    PaddedValue(m);
    PaddedValue(n);
    assert LoginId(prefix, m)[|prefix|..] == PadStart(Decimal(m), WIDTH);
    assert LoginId(prefix, n)[|prefix|..] == PadStart(Decimal(n), WIDTH);
  }

  /** Where the digits begin. */
  function FirstDigit(s: string): (k: nat)
    ensures k <= |s| && DigitFree(s[..k]) && (k < |s| ==> IsDigit(s[k]))
  {
    if s == [] || IsDigit(s[0]) then 0
    else
      var k := FirstDigit(s[1..]);
      assert s[..k + 1] == [s[0]] + s[1..][..k];
      k + 1
  }

  lemma {:induction false} FirstDigitIs(s: string, k: nat)
    requires k < |s| && DigitFree(s[..k]) && IsDigit(s[k])
    ensures FirstDigit(s) == k
  {
    if k > 0 {
      assert s[0] == s[..k][0] && s[1..][..k - 1] == s[..k][1..];
      FirstDigitIs(s[1..], k - 1);
    }
  }

  function Parse(id: string): Option<(string, nat)> {
    var k := FirstDigit(id);
    if k < |id| && AllDigits(id[k..]) then Some((id[..k], Value(id[k..]))) else None
  }

  /** With a digit-free prefix a login ID gives back the prefix and the number. */
  lemma LoginIdRoundTrip(prefix: string, number: nat)
    requires DigitFree(prefix)
    ensures Parse(LoginId(prefix, number)) == Some((prefix, number))
  {
    PaddedValue(number);
    var id := LoginId(prefix, number);
    assert id[..|prefix|] == prefix && id[|prefix|..] == PadStart(Decimal(number), WIDTH);
    FirstDigitIs(id, |prefix|);
  }

  /** q continues p with a numeral that has no leading zero, such as A and A1. */
  predicate Extends(p: string, q: string) {
    |p| < |q| && p <= q && AllDigits(q[|p|..]) && q[|p|] != '0'
  }

  predicate Confusable(p: string, q: string) {
    p == q || Extends(p, q) || Extends(q, p)
  }

  /** The number under which p's role generates the login ID that q's role generates under n. */
  function Partner(p: string, q: string, n: nat): nat
    requires Extends(p, q)
  {
    PaddedValue(n);
    Value(q[|p|..] + PadStart(Decimal(n), WIDTH))
  }

  lemma {:induction false} FrontAddsValue(front: string, back: string)
    requires front != [] && front[0] != '0' && AllDigits(front) && AllDigits(back)
    ensures Value(front + back) > Value(back)
  {
    if back == [] {
      assert front + back == front;
      NumeralIsDecimal(front);
    } else {
      var last := back[|back| - 1];
      FrontAddsValue(front, back[..|back| - 1]);
      assert (front + back)[..|front + back| - 1] == front + back[..|back| - 1];
      assert (front + back)[|front + back| - 1] == last;
    }
  }

  /** q's number n meets p's number Partner(p, q, n), which is larger, and no other. */
  lemma ExtensionCollides(p: string, q: string, m: nat, n: nat)
    requires Extends(p, q)
    ensures LoginId(p, m) == LoginId(q, n) <==> m == Partner(p, q, n)
    ensures Partner(p, q, n) > n
  {
    var padded := PadStart(Decimal(n), WIDTH);
    var numeral := q[|p|..] + padded;
    PaddedValue(n);
    assert q[|p|..][0] == q[|p|];
    FrontAddsValue(q[|p|..], padded);
    NumeralIsDecimal(numeral);
    assert |numeral| > WIDTH && PadStart(Decimal(Value(numeral)), WIDTH) == numeral;
    assert q == p + q[|p|..];
    assert LoginId(q, n) == p + numeral == LoginId(p, Value(numeral));
    SamePrefixInjective(p, m, Value(numeral));
  }

  lemma OverlapIsShared(p: string, a: string, q: string, b: string)
    requires p + a == q + b && |p| < |q|
    ensures p <= q && a == q[|p|..] + b
  {
    assert p == (p + a)[..|p|] && q == (q + b)[..|q|];
    assert a == (p + a)[|p|..] == (q + b)[|p|..];
  }

  lemma FrontOfNumeral(front: string, back: string)
    requires front != [] && AllDigits(front + back)
    ensures AllDigits(front) && front[0] == (front + back)[0]
  {
    assert forall i :: 0 <= i < |front| ==> front[i] == (front + back)[i];
  }

  lemma CollisionMeansExtension(p: string, m: nat, q: string, n: nat)
    requires LoginId(p, m) == LoginId(q, n) && |p| < |q|
    ensures Extends(p, q)
  {
    var front, back := q[|p|..], PadStart(Decimal(n), WIDTH);
    OverlapIsShared(p, PadStart(Decimal(m), WIDTH), q, back);
    PaddedValue(m);
    PaddedValue(n);
    FrontOfNumeral(front, back);
    assert |front + back| > WIDTH;
    assert front[0] == q[|p|];
  }

  /**
   * Two roles' login IDs can meet exactly when the prefixes are equal or one continues the
   * other with a numeral without a leading zero.
   */
  lemma PrefixesCollideIff(p: string, q: string)
    ensures (exists m: nat, n: nat :: m > 0 && n > 0 && LoginId(p, m) == LoginId(q, n)) <==> Confusable(p, q)
  {
    if m: nat, n: nat :| m > 0 && n > 0 && LoginId(p, m) == LoginId(q, n) {
      if |p| < |q| {
        CollisionMeansExtension(p, m, q, n);
      } else if |q| < |p| {
        CollisionMeansExtension(q, n, p, m);
      } else {
        assert p == LoginId(p, m)[..|p|] == LoginId(q, n)[..|q|] == q;
      }
    }
    if p == q {
      assert LoginId(p, 1) == LoginId(q, 1);
    } else if Extends(p, q) {
      ExtensionCollides(p, q, Partner(p, q, 1), 1);
    } else if Extends(q, p) {
      ExtensionCollides(q, p, Partner(q, p, 1), 1);
    }
  }

  /**
   * With counters that start at `a` and `b` and end at `limit`: some number of q meets a number
   * of p. Both counters are bounded, so this is a finite check.
   */
  ghost predicate Meets(p: string, a: nat, q: string, b: nat, limit: nat) {
    Extends(p, q) && exists n: nat :: b < n && a < Partner(p, q, n) <= limit
  }

  /** The numbers that two roles with different prefixes may hand out are in conflict exactly then. */
  lemma NumbersCollideIff(p: string, a: nat, q: string, b: nat, limit: nat)
    requires p != q
    ensures (exists m: nat, n: nat :: a < m <= limit && b < n <= limit && LoginId(p, m) == LoginId(q, n)) <==>
            Meets(p, a, q, b, limit) || Meets(q, b, p, a, limit)
  {
    if m: nat, n: nat :| a < m <= limit && b < n <= limit && LoginId(p, m) == LoginId(q, n) {
      LoginIdsMeet(p, m, q, n);
    }
    if Meets(p, a, q, b, limit) {
      var n: nat :| b < n && a < Partner(p, q, n) <= limit;
      ExtensionCollides(p, q, Partner(p, q, n), n);
    } else if Meets(q, b, p, a, limit) {
      var m: nat :| a < m && b < Partner(q, p, m) <= limit;
      ExtensionCollides(q, p, Partner(q, p, m), m);
    }
  }

  lemma LoginIdsMeet(p: string, m: nat, q: string, n: nat)
    requires p != q && LoginId(p, m) == LoginId(q, n)
    ensures |p| != |q|
    ensures (Extends(p, q) && m == Partner(p, q, n)) || (Extends(q, p) && n == Partner(q, p, m))
  {
    assert LoginId(p, m)[..|p|] == p && LoginId(q, n)[..|q|] == q;
    if |p| < |q| {
      CollisionMeansExtension(p, m, q, n);
      ExtensionCollides(p, q, m, n);
    } else if |q| < |p| {
      CollisionMeansExtension(q, n, p, m);
      ExtensionCollides(q, p, n, m);
    }
  }

  /** Wherever two counters start, a wide enough counter lets any extension meet. */
  lemma ExtensionsMeetEventually(p: string, a: nat, q: string, b: nat) returns (limit: nat)
    requires Extends(p, q)
    ensures Meets(p, a, q, b, limit)
  {
    var n := a + b + 1;
    ExtensionCollides(p, q, Partner(p, q, n), n);
    limit := Partner(p, q, n);
  }

  /** A and A1 meet from the usual start 1000 on, within a 32-bit counter: A11001. */
  lemma UsualNumbersMeet()
    ensures Meets("A", 1000, "A1", 1000, 2147483647)
  {
    assert "A1"[|"A"|..] == "1" && Decimal(1001) == "1001" && PadStart(Decimal(1001), WIDTH) == "1001";
    assert "1" + "1001" == "11001";
    assert Decimal(11001) == "11001";
    DecimalIsCanonical(11001);
    assert Partner("A", "A1", 1001) == 11001;
  }

  lemma ExtensionHasDigit(p: string, q: string)
    ensures Extends(p, q) ==> !DigitFree(q)
  {
    if Extends(p, q) {
      assert q[|p|] == q[|p|..][0] && IsDigit(q[|p|]);
    }
  }

  /** Distinct digit-free prefixes are never confusable. */
  lemma DigitFreeIsSafe(p: string, q: string)
    requires DigitFree(p) && DigitFree(q) && p != q
    ensures !Confusable(p, q)
  {
    ExtensionHasDigit(p, q);
    ExtensionHasDigit(q, p);
  }
}
