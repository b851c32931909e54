/** The PHP string functions the parameter checks use: `explode`, `implode`, `trim` and prefix tests. */
module PhpStrings {

  /** `strpos($s, $p) === 0`: `s` starts with `p`. */
  predicate StartsWith(s: string, p: string) {
    |p| <= |s| && s[..|p|] == p
  }

  /** How many times `c` occurs in `s`. */
  function Count(c: char, s: string): nat {
    if s == [] then 0 else (if s[0] == c then 1 else 0) + Count(c, s[1..])
  }

  /** `explode($sep, $s)` for a one-character separator: the pieces between separators. */
  function Explode(sep: char, s: string): (parts: seq<string>)
    ensures |parts| == Count(sep, s) + 1
    ensures forall i :: 0 <= i < |parts| ==> sep !in parts[i]
    decreases |s|
  {
    if s == [] then [""]
    else
      var rest := Explode(sep, s[1..]);
      if s[0] == sep then [""] + rest
      else [[s[0]] + rest[0]] + rest[1..]
  }

  /** `implode($sep, $parts)` */
  function Implode(sep: char, parts: seq<string>): string {
    if |parts| == 0 then ""
    else if |parts| == 1 then parts[0]
    else parts[0] + [sep] + Implode(sep, parts[1..])
  }

  /** Joining the pieces again gives back the string. */
  lemma {:induction false} ImplodeExplode(sep: char, s: string)
    ensures Implode(sep, Explode(sep, s)) == s
    decreases |s|
  {
    if s != [] {
      var rest := Explode(sep, s[1..]);
      ImplodeExplode(sep, s[1..]);
      if s[0] == sep {
        assert ([""] + rest)[1..] == rest;
      } else if |rest| > 1 {
        var parts := [[s[0]] + rest[0]] + rest[1..];
        assert parts[1..] == rest[1..];
        assert Implode(sep, rest) == rest[0] + [sep] + Implode(sep, rest[1..]);
      }
    }
  }

  lemma {:induction false} ExplodeWithoutSeparator(sep: char, w: string)
    requires sep !in w
    ensures Explode(sep, w) == [w]
    decreases |w|
  {
    if w != [] {
      ExplodeWithoutSeparator(sep, w[1..]);
      assert [w[0]] + w[1..] == w;
    }
  }

  lemma {:induction false} ExplodeAfterPiece(sep: char, w: string, t: string)
    requires sep !in w
    ensures Explode(sep, w + [sep] + t) == [w] + Explode(sep, t)
    decreases |w|
  {
    var s := w + [sep] + t;
    if w == [] {
      assert s[1..] == t;
    } else {
      assert s[1..] == w[1..] + [sep] + t;
      ExplodeAfterPiece(sep, w[1..], t);
      assert [w[0]] + w[1..] == w;
    }
  }

  /** Splitting a join of separator-free pieces gives back the pieces. */
  lemma {:induction false} ExplodeImplode(sep: char, parts: seq<string>)
    requires |parts| >= 1
    requires forall i :: 0 <= i < |parts| ==> sep !in parts[i]
    ensures Explode(sep, Implode(sep, parts)) == parts
    decreases |parts|
  {
    if |parts| == 1 {
      ExplodeWithoutSeparator(sep, parts[0]);
    } else {
      ExplodeImplode(sep, parts[1..]);
      ExplodeAfterPiece(sep, parts[0], Implode(sep, parts[1..]));
      assert [parts[0]] + parts[1..] == parts;
    }
  }

  /** `ltrim($s, $mask)` */
  function TrimLeft(s: string, mask: set<char>): (r: string)
    ensures |r| <= |s| && r == s[|s| - |r|..]
    ensures forall i :: 0 <= i < |s| - |r| ==> s[i] in mask
    ensures r == [] || r[0] !in mask
  {
    if s != [] && s[0] in mask then TrimLeft(s[1..], mask) else s
  }

  /** `rtrim($s, $mask)` */
  function TrimRight(s: string, mask: set<char>): (r: string)
    ensures |r| <= |s| && r == s[..|r|]
    ensures forall i :: |r| <= i < |s| ==> s[i] in mask
    ensures r == [] || r[|r| - 1] !in mask
  {
    if s != [] && s[|s| - 1] in mask then TrimRight(s[..|s| - 1], mask) else s
  }

  /** Trimming the right end of the left-trimmed string leaves a slice of `s`. */
  lemma TrimSlice(s: string, mask: set<char>)
    ensures var left := TrimLeft(s, mask); var r := TrimRight(left, mask); var i := |s| - |left|;
      i + |r| <= |s| && r == s[i..i + |r|] && (r == [] || r[0] == left[0])
      && (forall j :: i + |r| <= j < |s| ==> s[j] in mask)
  {
    var left := TrimLeft(s, mask);
    var r := TrimRight(left, mask);
    var i := |s| - |left|;
    assert r == left[..|r|] && left == s[i..];
    forall j | i + |r| <= j < |s|
      ensures s[j] in mask
    {
      assert s[j] == left[j - i];
    }
  }

  /**
   * `trim($s, $mask)`: `s` with every leading and trailing character of `mask`
   * removed. The result is the part of `s` that starts at `|s| - |TrimLeft(s, mask)|`,
   * and everything cut off on either side is in `mask`.
   */
  function Trim(s: string, mask: set<char>): (r: string)
    ensures r == [] || (r[0] !in mask && r[|r| - 1] !in mask)
    ensures var i := |s| - |TrimLeft(s, mask)|;
              i + |r| <= |s| && r == s[i..i + |r|]
              && (forall j :: 0 <= j < i ==> s[j] in mask)
              && (forall j :: i + |r| <= j < |s| ==> s[j] in mask)
  {
    TrimSlice(s, mask);
    TrimRight(TrimLeft(s, mask), mask)
  }

  /** A string with no leading or trailing mask character is left as it is. */
  lemma TrimNothing(w: string, mask: set<char>)
    requires w == [] || (w[0] !in mask && w[|w| - 1] !in mask)
    ensures Trim(w, mask) == w
  {
  }

  /** Every character of a trimmed string comes from the original. */
  lemma TrimKeepsCharacters(s: string, mask: set<char>, c: char)
    ensures c in Trim(s, mask) ==> c in s
  {
    var r := Trim(s, mask);
    var i := |s| - |TrimLeft(s, mask)|;
    if c in r {
      var k :| 0 <= k < |r| && r[k] == c;
      assert s[i + k] == c;
    }
  }

  /** Trimming twice is trimming once. */
  lemma TrimIdempotent(s: string, mask: set<char>)
    ensures Trim(Trim(s, mask), mask) == Trim(s, mask)
  {
    var r := Trim(s, mask);
    assert TrimLeft(r, mask) == r;
    assert TrimRight(r, mask) == r;
  }
}
