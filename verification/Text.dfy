/** The string operations the services use to canonicalise input and to build keys. */
module Text {
  /** The white space and line terminators that `String.prototype.trim` removes. */
  predicate IsSpace(c: char): (b: bool)
    ensures c == ' ' || '\t' <= c <= '\r' ==> b
    ensures '!' <= c <= '~' ==> !b
  {
    var n := c as int;
    9 <= n <= 13 || n == 32 || n == 0xA0 || n == 0x1680 || 0x2000 <= n <= 0x200A ||
    n == 0x2028 || n == 0x2029 || n == 0x202F || n == 0x205F || n == 0x3000 || n == 0xFEFF
  }

  function TrimStart(s: string): string {
    if s != [] && IsSpace(s[0]) then TrimStart(s[1..]) else s
  }

  function TrimEnd(s: string): string {
    if s != [] && IsSpace(s[|s| - 1]) then TrimEnd(s[..|s| - 1]) else s
  }

  function Trim(s: string): string {
    TrimEnd(TrimStart(s))
  }

  predicate Trimmed(s: string) {
    s == [] || (!IsSpace(s[0]) && !IsSpace(s[|s| - 1]))
  }

  function UpperChar(c: char): char {
    if 'a' <= c <= 'z' then (c as int - 32) as char else c
  }

  function Upper(s: string): string {
    seq(|s|, i requires 0 <= i < |s| => UpperChar(s[i]))
  }

  function LowerChar(c: char): char {
    if 'A' <= c <= 'Z' then (c as int + 32) as char else c
  }

  function Lower(s: string): string {
    seq(|s|, i requires 0 <= i < |s| => LowerChar(s[i]))
  }

  /** The canonical form of codes, roles and service types. */
  function Code(s: string): string {
    Upper(Trim(s))
  }

  lemma {:induction false} TrimStartFirst(s: string)
    ensures TrimStart(s) == [] || !IsSpace(TrimStart(s)[0])
  {
    if s != [] && IsSpace(s[0]) {
      TrimStartFirst(s[1..]);
    }
  }

  lemma {:induction false} TrimEndEnds(s: string)
    requires s == [] || !IsSpace(s[0])
    ensures Trimmed(TrimEnd(s))
  {
    if s != [] && IsSpace(s[|s| - 1]) {
      TrimEndEnds(s[..|s| - 1]);
    }
  }

  /** Trimming is idempotent and leaves exactly the already trimmed texts alone. */
  lemma TrimIdempotent(s: string)
    ensures Trimmed(Trim(s))
    ensures Trim(s) == s <==> Trimmed(s)
  {
    TrimStartFirst(s);
    TrimEndEnds(TrimStart(s));
  }

  // ---------------------------------------------------------------- what trimming and upper-casing compute

  ghost predicate Blank(s: string) {
    forall i :: 0 <= i < |s| ==> IsSpace(s[i])
  }

  /** `s` is `core` between white space; the core may have white space of its own at its ends. */
  ghost predicate PadsAt(s: string, core: string, i: nat, j: nat) {
    i <= j <= |s| && s[i..j] == core && forall n :: 0 <= n < i || j <= n < |s| ==> IsSpace(s[n])
  }

  ghost predicate Pads(s: string, core: string) {
    exists i: nat, j: nat :: PadsAt(s, core, i, j)
  }

  /** The same character, or the same ASCII letter in the other case. */
  predicate SameLetter(c: char, d: char) {
    || c == d
    || ('A' <= c <= 'Z' && d as int - c as int == 'a' as int - 'A' as int)
    || ('A' <= d <= 'Z' && c as int - d as int == 'a' as int - 'A' as int)
  }

  ghost predicate SameLetters(a: string, b: string) {
    |a| == |b| && forall i :: 0 <= i < |a| ==> SameLetter(a[i], b[i])
  }

  ghost predicate VariantVia(a: string, b: string, x: string, y: string) {
    Pads(a, x) && Pads(b, y) && SameLetters(x, y)
  }

  /** Equal up to ASCII case and outer white space. */
  ghost predicate Variant(a: string, b: string) {
    exists x, y :: VariantVia(a, b, x, y)
  }

  ghost predicate NoLowerCase(s: string) {
    forall i :: 0 <= i < |s| ==> !('a' <= s[i] <= 'z')
  }

  ghost predicate NoUpperCase(s: string) {
    forall i :: 0 <= i < |s| ==> !('A' <= s[i] <= 'Z')
  }

  lemma PadsTwice(s: string, x: string, y: string)
    requires Pads(s, x) && Pads(x, y)
    ensures Pads(s, y)
  {
    var i: nat, j: nat :| PadsAt(s, x, i, j);
    var k: nat, l: nat :| PadsAt(x, y, k, l);
    forall n | 0 <= n < i + k || i + l <= n < |s| ensures IsSpace(s[n]) {
      assert i <= n < j ==> s[n] == x[n - i];
    }
    var z := s[i + k..i + l];
    forall n | 0 <= n < |z| ensures z[n] == y[n] {
      assert y[n] == x[k + n];
    }
    assert PadsAt(s, y, i + k, i + l);
  }

  lemma {:induction false} TrimStartPads(s: string)
    ensures Pads(s, TrimStart(s))
  {
    if s != [] && IsSpace(s[0]) {
      TrimStartPads(s[1..]);
      assert PadsAt(s, s[1..], 1, |s|);
      PadsTwice(s, s[1..], TrimStart(s));
    } else {
      assert PadsAt(s, s, 0, |s|);
    }
  }

  lemma {:induction false} TrimEndPads(s: string)
    ensures Pads(s, TrimEnd(s))
  {
    if s != [] && IsSpace(s[|s| - 1]) {
      var n := |s| - 1;
      TrimEndPads(s[..n]);
      assert PadsAt(s, s[..n], 0, n);
      PadsTwice(s, s[..n], TrimEnd(s));
    } else {
      assert PadsAt(s, s, 0, |s|);
    }
  }

  lemma TrimPads(s: string)
    ensures Pads(s, Trim(s))
  {
    TrimStartPads(s);
    TrimEndPads(TrimStart(s));
    PadsTwice(s, TrimStart(s), Trim(s));
  }

  /** A text has one trimmed core only. */
  lemma CoreIsUnique(s: string, x: string, y: string)
    requires Pads(s, x) && Pads(s, y) && Trimmed(x) && Trimmed(y)
    ensures x == y
  {
    var i: nat, j: nat :| PadsAt(s, x, i, j);
    var k: nat, l: nat :| PadsAt(s, y, k, l);
    CoreIsWithin(s, x, i, j, k, l);
    CoreIsWithin(s, y, k, l, i, j);
  }

  /** What is not white space at the ends of a trimmed core lies in every other core. */
  lemma CoreIsWithin(s: string, x: string, i: nat, j: nat, k: nat, l: nat)
    requires PadsAt(s, x, i, j) && Trimmed(x) && k <= |s| && l <= |s|
    requires forall n :: 0 <= n < k || l <= n < |s| ==> IsSpace(s[n])
    ensures x != [] ==> k <= i < j <= l
  {
    if x != [] {
      assert x[0] == s[i] && x[|x| - 1] == s[j - 1];
    }
  }

  /** Trimming removes the outer white space and nothing else. */
  lemma TrimIs(s: string, r: string)
    ensures r == Trim(s) <==> Pads(s, r) && Trimmed(r)
  {
    TrimPads(s);
    TrimIdempotent(s);
    if Pads(s, r) && Trimmed(r) {
      CoreIsUnique(s, r, Trim(s));
    }
  }

  lemma CoreTrims(s: string, x: string)
    requires Pads(s, x)
    ensures Trim(s) == Trim(x)
  {
    TrimPads(x);
    TrimIdempotent(x);
    PadsTwice(s, x, Trim(x));
    TrimIs(s, Trim(x));
  }

  /** Texts that differ in case only keep doing so when trimmed. */
  lemma LettersTrim(x: string, y: string)
    requires SameLetters(x, y)
    ensures SameLetters(Trim(x), Trim(y))
  {
    TrimPads(x);
    TrimIdempotent(x);
    var i: nat, j: nat :| PadsAt(x, Trim(x), i, j);
    LettersCore(x, y, Trim(x), i, j);
    TrimIs(y, y[i..j]);
  }

  lemma SameSpaces(c: char, d: char)
    requires SameLetter(c, d)
    ensures IsSpace(c) <==> IsSpace(d)
  {
  }

  lemma LettersCore(x: string, y: string, core: string, i: nat, j: nat)
    requires SameLetters(x, y) && PadsAt(x, core, i, j) && Trimmed(core)
    ensures PadsAt(y, y[i..j], i, j) && Trimmed(y[i..j]) && SameLetters(core, y[i..j])
  {
    forall n | 0 <= n < |x| ensures IsSpace(x[n]) <==> IsSpace(y[n]) {
      SameSpaces(x[n], y[n]);
    }
    assert forall n :: 0 <= n < j - i ==> y[i..j][n] == y[i + n] && core[n] == x[i + n];
  }

  lemma UpperAgreesIff(a: string, b: string)
    ensures Upper(a) == Upper(b) <==> SameLetters(a, b)
  {
    if Upper(a) == Upper(b) {
      assert |Upper(a)| == |a| && |Upper(b)| == |b|;
      assert forall i :: 0 <= i < |a| ==> Upper(a)[i] == UpperChar(a[i]) && Upper(b)[i] == UpperChar(b[i]);
    }
  }

  lemma LowerAgreesIff(a: string, b: string)
    ensures Lower(a) == Lower(b) <==> SameLetters(a, b)
  {
    if Lower(a) == Lower(b) {
      assert |Lower(a)| == |a| && |Lower(b)| == |b|;
      assert forall i :: 0 <= i < |a| ==> Lower(a)[i] == LowerChar(a[i]) && Lower(b)[i] == LowerChar(b[i]);
    }
  }

  lemma VariantIffTrims(a: string, b: string)
    ensures Variant(a, b) <==> SameLetters(Trim(a), Trim(b))
  {
    TrimPads(a);
    TrimPads(b);
    if SameLetters(Trim(a), Trim(b)) {
      assert VariantVia(a, b, Trim(a), Trim(b));
    }
    if Variant(a, b) {
      var x, y :| VariantVia(a, b, x, y);
      CoreTrims(a, x);
      CoreTrims(b, y);
      LettersTrim(x, y);
    }
  }

  /** Two texts have the same code if and only if they differ at most in case and outer white space. */
  lemma CodesAgreeIff(a: string, b: string)
    ensures Code(a) == Code(b) <==> Variant(a, b)
  {
    UpperAgreesIff(Trim(a), Trim(b));
    VariantIffTrims(a, b);
  }

  /** The code of a text is its only variant without outer white space and without lower-case letters. */
  lemma CodeIs(s: string, r: string)
    ensures r == Code(s) <==> Variant(s, r) && Trimmed(r) && NoLowerCase(r)
  {
    TrimIdempotent(s);
    TrimIdempotent(r);
    TrimIdempotent(Code(s));
    VariantIffTrims(s, r);
    VariantIffTrims(s, Code(s));
    assert SameLetters(Trim(s), Code(s));
    if Variant(s, r) && Trimmed(r) && NoLowerCase(r) {
      UpperAgreesIff(Trim(s), r);
      assert Upper(r) == r;
    }
  }

  /** The name of a text is its only variant without outer white space and without upper-case letters. */
  lemma NameIs(s: string, r: string)
    ensures r == Lower(Trim(s)) <==> Variant(s, r) && Trimmed(r) && NoUpperCase(r)
  {
    var name := Lower(Trim(s));
    TrimIdempotent(s);
    TrimIdempotent(r);
    TrimIdempotent(name);
    VariantIffTrims(s, r);
    VariantIffTrims(s, name);
    assert SameLetters(Trim(s), name);
    if Variant(s, r) && Trimmed(r) && NoUpperCase(r) {
      LowerAgreesIff(Trim(s), r);
      assert Lower(r) == r;
    }
  }

  /** A canonical code is its own canonical form. */
  lemma CodeIdempotent(s: string)
    ensures Code(Code(s)) == Code(s)
  {
    TrimIdempotent(s);
    TrimIdempotent(Code(s));
  }

  /** Nothing but white space is left of a text whose code is empty. */
  lemma CodeIsEmptyIff(s: string)
    ensures Code(s) == "" <==> Trim(s) == ""
    ensures Code(s) == "" <==> Blank(s)
  {
    TrimPads(s);
    TrimIs(s, "");
    if Blank(s) {
      assert PadsAt(s, "", 0, 0);
    }
    if Trim(s) == "" {
      var i: nat, j: nat :| PadsAt(s, "", i, j);
      }
  }

  function Join(fields: seq<string>): string {
    if fields == [] then ""
    else if |fields| == 1 then fields[0]
    else fields[0] + "|" + Join(fields[1..])
  }

  ghost predicate BarFree(fields: seq<string>) {
    forall f :: f in fields ==> '|' !in f
  }

  /** A text is cut in one way only at the first occurrence of a separator. */
  lemma SplitAt(c: char, a: string, b: string, x: string, y: string)
    requires c !in a && c !in b
    requires a + [c] + x == b + [c] + y
    ensures a == b && x == y
  {
    var l, r := a + [c] + x, b + [c] + y;
    assert l[|a|] == c && r[|b|] == c;
    assert forall i :: 0 <= i < |a| ==> l[i] == a[i];
    assert forall i :: 0 <= i < |b| ==> r[i] == b[i];
    assert |a| == |b|;
    assert a == l[..|a|] == r[..|b|] == b;
    assert x == l[|a| + 1..] == r[|b| + 1..] == y;
  }

  /** Joining with a bar is injective on equally many fields without bars. */
  lemma {:induction false} JoinInjective(xs: seq<string>, ys: seq<string>)
    requires |xs| == |ys| && BarFree(xs) && BarFree(ys)
    requires Join(xs) == Join(ys)
    ensures xs == ys
  {
    if |xs| > 1 {
      assert xs[0] in xs && ys[0] in ys;
      SplitAt('|', xs[0], ys[0], Join(xs[1..]), Join(ys[1..]));
      JoinInjective(xs[1..], ys[1..]);
      assert xs == [xs[0]] + xs[1..] && ys == [ys[0]] + ys[1..];
    }
  }
}
