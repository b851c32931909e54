/**
 * PHP 8's loose three-way comparison `<=>`, on which `<`, `>` and `>=` rest, for
 * the values the random-number check compares. A bool or null on either side
 * turns both sides into bools (except null against a string, which compares ""
 * with the string); two integers, or integer numeric strings, compare as the
 * integers they denote; an array is greater than any other value; a string that
 * is not numeric compares byte by byte with another string or with an integer's
 * decimal form.
 *
 * Two kinds of pairs are not computed here: two numbers of which at least one is
 * a float numeric string such as "1.5" or " 2e3", which PHP compares in floating
 * point, and two arrays. Their outcome is the parameter `other`.
 */
module PhpCompare {

  import opened PhpValues

  /** The whitespace a numeric string may carry before and after the number. */
  const NumericWhitespace: set<char> := {' ', '\t', '\n', '\r', '\U{B}', '\U{C}'}

  /** The string without the numeric whitespace at its start. */
  function SkipLeading(s: string): string {
    if s != [] && s[0] in NumericWhitespace then SkipLeading(s[1..]) else s
  }

  /** The string without the numeric whitespace at its end. */
  function SkipTrailing(s: string): string {
    if s != [] && s[|s| - 1] in NumericWhitespace then SkipTrailing(s[..|s| - 1]) else s
  }

  /** What a numeric string holds between its leading and trailing whitespace. */
  function Stripped(s: string): string {
    SkipTrailing(SkipLeading(s))
  }

  /** Skipping leading whitespace leaves a suffix that still holds every other character. */
  lemma {:induction false} SkipLeadingSuffix(s: string, i: int)
    requires 0 <= i < |s| && s[i] !in NumericWhitespace
    ensures var n := |s| - |SkipLeading(s)|;
            0 <= n <= i && SkipLeading(s) == s[n..]
  {
    if s[0] in NumericWhitespace {
      SkipLeadingSuffix(s[1..], i - 1);
    }
  }

  /** Skipping trailing whitespace leaves a prefix that still holds every other character. */
  lemma {:induction false} SkipTrailingPrefix(s: string, i: int)
    requires 0 <= i < |s| && s[i] !in NumericWhitespace
    ensures i < |SkipTrailing(s)| <= |s| && SkipTrailing(s) == s[..|SkipTrailing(s)|]
  {
    if s[|s| - 1] in NumericWhitespace {
      assert s[..|s| - 1][i] == s[i];
      SkipTrailingPrefix(s[..|s| - 1], i);
    }
  }

  /** A string that neither starts nor ends with whitespace is its own stripped form. */
  lemma StrippedNothing(s: string)
    requires s == [] || (s[0] !in NumericWhitespace && s[|s| - 1] !in NumericWhitespace)
    ensures Stripped(s) == s
  {
  }

  /** An optional sign followed by at least one decimal digit. */
  predicate SignedDigits(x: string) {
    |x| >= 1 && if x[0] == '+' || x[0] == '-' then |x| >= 2 && AllDigits(x[1..]) else AllDigits(x)
  }

  /** An integer numeric string: optional whitespace, an optional sign, at least one
      decimal digit and optional whitespace. */
  predicate IntString(s: string) {
    SignedDigits(Stripped(s))
  }

  /** The integer an integer numeric string denotes. */
  function IntStringValue(s: string): int
    requires IntString(s)
  {
    var t := Stripped(s);
    if t[0] == '-' then -(DigitsValue(t[1..]) as int)
    else if t[0] == '+' then DigitsValue(t[1..])
    else DigitsValue(t)
  }

  /** The position of the first character of `u` in `cs`, or the length when there is none. */
  function FirstIn(u: string, cs: set<char>): (k: nat)
    ensures k <= |u|
    ensures k < |u| ==> u[k] in cs
    ensures forall j :: 0 <= j < k ==> u[j] !in cs
  {
    if u == [] || u[0] in cs then 0 else 1 + FirstIn(u[1..], cs)
  }

  /** Decimal digits with at most one decimal point and at least one digit, as in
      "12", "1.5", "5." and ".5". */
  predicate Mantissa(m: string) {
    var d := FirstIn(m, {'.'});
    AllDigits(m[..d]) && (d < |m| ==> AllDigits(m[d + 1..])) && (d >= 1 || d + 1 < |m|)
  }

  /** An unsigned decimal number: a mantissa, then optionally `e` or `E` and a
      signed exponent of at least one digit. */
  predicate UnsignedFloat(u: string) {
    var k := FirstIn(u, {'e', 'E'});
    Mantissa(u[..k]) && (k == |u| || SignedDigits(u[k + 1..]))
  }

  /** A float numeric string: optional whitespace, an optional sign, an unsigned
      decimal number and optional whitespace, and not an integer numeric string. */
  predicate FloatString(s: string) {
    var t := Stripped(s);
    !IntString(s) && |t| >= 1
    && UnsignedFloat(if t[0] == '+' || t[0] == '-' then t[1..] else t)
  }

  /** A character that can occur in a numeric string. */
  predicate NumberChar(c: char) {
    c in NumericWhitespace || IsDigit(c) || c == '+' || c == '-' || c == '.' || c == 'e' || c == 'E'
  }

  /** An integer, or a string PHP reads as one. */
  predicate IntLike(v: Value) {
    v.Int? || (v.Str? && IntString(v.s))
  }

  /** The integer an integer-like value stands for. */
  function NumValue(v: Value): int
    requires IntLike(v)
  {
    if v.Int? then v.i else IntStringValue(v.s)
  }

  /** An integer or a numeric string: what PHP compares as a number. */
  predicate Numeric(v: Value) {
    v.Int? || (v.Str? && (IntString(v.s) || FloatString(v.s)))
  }

  /** Two numbers, at least one of which PHP reads as a float. */
  predicate FloatPair(a: Value, b: Value) {
    Numeric(a) && Numeric(b) && !(IntLike(a) && IntLike(b))
  }

  function Sign(x: int): (r: int)
    ensures r == -1 || r == 0 || r == 1
    ensures r < 0 <==> x < 0
    ensures r == 0 <==> x == 0
  {
    if x < 0 then -1 else if x == 0 then 0 else 1
  }

  /** `zend_binary_strcmp`: byte-wise comparison, a proper prefix being smaller. */
  function StrCmp(a: string, b: string): (r: int)
    ensures r == -1 || r == 0 || r == 1
  {
    if a == [] && b == [] then 0
    else if a == [] then -1
    else if b == [] then 1
    else if a[0] < b[0] then -1
    else if a[0] > b[0] then 1
    else StrCmp(a[1..], b[1..])
  }

  /** Byte-wise comparison is antisymmetric and only equal strings compare equal. */
  lemma {:induction false} StrCmpOrder(a: string, b: string)
    ensures StrCmp(b, a) == -StrCmp(a, b)
    ensures StrCmp(a, b) == 0 <==> a == b
  {
    if a != [] && b != [] && a[0] == b[0] {
      StrCmpOrder(a[1..], b[1..]);
      if a[1..] == b[1..] {
        assert a == [a[0]] + a[1..] && b == [b[0]] + b[1..];
      }
    }
  }

  /** A value as a bool, for the comparisons in which a bool or null takes part. */
  function BoolInt(v: Value): (r: int)
    ensures r == 1 <==> Truthy(v)
    ensures r == 0 <==> !Truthy(v)
  {
    if Truthy(v) then 1 else 0
  }

  /** `$a <=> $b`, with `other` giving the outcome of the pairs not computed here. */
  function Cmp(a: Value, b: Value, other: (Value, Value) -> int): (c: int)
    ensures c == -1 || c == 0 || c == 1
  {
    if a.Null? && b.Str? then (if b.s == "" then 0 else -1)
    else if a.Str? && b.Null? then (if a.s == "" then 0 else 1)
    else if a.Null? || a.Bool? || b.Null? || b.Bool? then BoolInt(a) - BoolInt(b)
    else if a.Int? && b.Int? then Sign(a.i - b.i)
    else if IsArray(a) && IsArray(b) then Sign(other(a, b))
    else if IsArray(a) then 1
    else if IsArray(b) then -1
    else if IntLike(a) && IntLike(b) then Sign(NumValue(a) - NumValue(b))
    else if Numeric(a) && Numeric(b) then Sign(other(a, b))
    else StrCmp(ToPhpString(a), ToPhpString(b))
  }

  /** The pairs whose comparison the model computes. */
  predicate Computed(a: Value, b: Value) {
    a.Null? || a.Bool? || b.Null? || b.Bool? || (a.Int? && b.Int?)
    || IsArray(a) != IsArray(b)
    || (!IsArray(a) && !FloatPair(a, b))
  }

  /** `$a < $b` */
  predicate Less(a: Value, b: Value, other: (Value, Value) -> int) {
    Cmp(a, b, other) < 0
  }

  /** `$a > $b`, which PHP evaluates as `$b < $a`. */
  predicate Greater(a: Value, b: Value, other: (Value, Value) -> int) {
    Cmp(b, a, other) < 0
  }

  /** `$a >= $b`, which PHP evaluates as `$b <= $a`. */
  predicate AtLeast(a: Value, b: Value, other: (Value, Value) -> int) {
    Cmp(b, a, other) <= 0
  }

  /** On the computed pairs the outcome does not depend on `other`, and swapping the
      operands negates it, so there `$a > $b` is `!($a <= $b)` as for numbers. */
  lemma CmpComputed(a: Value, b: Value, other1: (Value, Value) -> int, other2: (Value, Value) -> int)
    requires Computed(a, b)
    ensures Cmp(a, b, other1) == Cmp(a, b, other2)
    ensures Cmp(b, a, other1) == -Cmp(a, b, other1)
  {
    if !(a.Null? || a.Bool? || b.Null? || b.Bool? || (a.Int? && b.Int?)) && !IsArray(a) && !IsArray(b) {
      if !(IntLike(a) && IntLike(b)) {
        StrCmpOrder(ToPhpString(a), ToPhpString(b));
      }
    }
  }

  /** A signed run of digits holds no character that cannot occur in a number. */
  lemma NonNumberCharSigned(x: string, k: int)
    requires 0 <= k < |x| && !NumberChar(x[k])
    ensures !SignedDigits(x)
  {
    if k >= 1 {
      assert x[1..][k - 1] == x[k];
    }
  }

  /** Nor does a mantissa. */
  lemma NonNumberCharMantissa(m: string, k: int)
    requires 0 <= k < |m| && !NumberChar(m[k])
    ensures !Mantissa(m)
  {
    var d := FirstIn(m, {'.'});
    if k < d {
      assert m[..d][k] == m[k];
    } else if k > d {
      assert m[d + 1..][k - d - 1] == m[k];
    }
  }

  /** Nor does an unsigned decimal number. */
  lemma NonNumberCharUnsigned(u: string, k: int)
    requires 0 <= k < |u| && !NumberChar(u[k])
    ensures !UnsignedFloat(u)
  {
    var e := FirstIn(u, {'e', 'E'});
    if k < e {
      assert u[..e][k] == u[k];
      NonNumberCharMantissa(u[..e], k);
    } else if k > e {
      assert u[e + 1..][k - e - 1] == u[k];
      NonNumberCharSigned(u[e + 1..], k - e - 1);
    }
  }

  /** A string holding a character that cannot occur in a number is not numeric. */
  lemma NonNumberChar(s: string, i: int)
    requires 0 <= i < |s| && !NumberChar(s[i])
    ensures !IntString(s) && !FloatString(s)
  {
    var left := SkipLeading(s);
    SkipLeadingSuffix(s, i);
    var n := |s| - |left|;
    assert left[i - n] == s[i];
    SkipTrailingPrefix(left, i - n);
    var t := Stripped(s);
    var k := i - n;
    assert t[k] == s[i];
    NonNumberCharSigned(t, k);
    if t[0] == '+' || t[0] == '-' {
      assert k >= 1;
      assert t[1..][k - 1] == s[i];
      NonNumberCharUnsigned(t[1..], k - 1);
    } else {
      NonNumberCharUnsigned(t, k);
    }
  }

  /** Two integer-like values compare as the integers they stand for. */
  lemma CmpIntLike(a: Value, b: Value, other: (Value, Value) -> int)
    requires IntLike(a) && IntLike(b)
    ensures Cmp(a, b, other) < 0 <==> NumValue(a) < NumValue(b)
    ensures Cmp(a, b, other) == 0 <==> NumValue(a) == NumValue(b)
  {
    assert !IsArray(a) && !IsArray(b);
    if !(a.Int? && b.Int?) {
      assert Cmp(a, b, other) == Sign(NumValue(a) - NumValue(b));
    }
  }

  /** A string that is not numeric and an integer compare as strings, the integer
      taking its decimal form. */
  lemma CmpWordInt(w: string, i: int, other: (Value, Value) -> int)
    requires !Numeric(Str(w))
    ensures Cmp(Str(w), Int(i), other) == StrCmp(w, IntToString(i))
  {
  }

  /** The same with the integer on the left. */
  lemma CmpIntWord(i: int, w: string, other: (Value, Value) -> int)
    requires !Numeric(Str(w))
    ensures Cmp(Int(i), Str(w), other) == StrCmp(IntToString(i), w)
  {
  }

  /** Two strings of which at least one is not numeric compare byte by byte, even
      when the other is a float numeric string. */
  lemma CmpWords(a: string, b: string, other: (Value, Value) -> int)
    requires !Numeric(Str(a)) || !Numeric(Str(b))
    ensures Cmp(Str(a), Str(b), other) == StrCmp(a, b)
  {
    if !Numeric(Str(a)) {
      assert !IntLike(Str(a));
    } else {
      assert !IntLike(Str(b));
    }
  }

  /** An exponent needs digits, so "1e" is not numeric, and `5 <=> "1e"` compares
      "5" with "1e" byte by byte: 5 is the greater. */
  lemma IncompleteExponent(other: (Value, Value) -> int)
    ensures !Numeric(Str("1e"))
    ensures Cmp(Int(5), Str("1e"), other) == 1
  {
    var w := "1e";
    StrippedNothing(w);
    assert !IsDigit(w[1]);
    assert FirstIn(w, {'e', 'E'}) == 1;
    assert w[2..] == [];
    CmpIntWord(5, w, other);
    assert IntToString(5) == "5";
  }

  /** A digit, a point and a digit, such as "1.5", form a float numeric string. */
  lemma DecimalIsFloat(d: char, e: char)
    requires IsDigit(d) && IsDigit(e)
    ensures FloatString([d, '.', e])
  {
    var f := [d, '.', e];
    StrippedNothing(f);
    assert !IsDigit(f[1]);
    assert FirstIn(f, {'e', 'E'}) == 3;
    assert f[..3] == f;
  }

  /** A float numeric string against a string holding a character that cannot occur
      in a number is compared byte by byte: "1.5" is below "abc". */
  lemma FloatAgainstWord(f: string, w: string, i: int, other: (Value, Value) -> int)
    requires FloatString(f) && 0 <= i < |w| && !NumberChar(w[i])
    ensures Cmp(Str(f), Str(w), other) == StrCmp(f, w)
  {
    NonNumberChar(w, i);
    CmpWords(f, w, other);
  }

  /** The decimal form of an integer is an integer numeric string denoting it, so
      `$i == (string)$i` holds under loose comparison. */
  lemma IntToStringNumeric(i: int)
    ensures IntString(IntToString(i)) && IntStringValue(IntToString(i)) == i
  {
    var r := IntToString(i);
    StrippedNothing(r);
    if i < 0 {
      assert r[1..] == Digits(-i);
      DigitsRoundTrip(-i);
    } else {
      assert IsDigit(r[0]);
      DigitsRoundTrip(i);
    }
  }
}
