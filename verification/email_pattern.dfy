/**
 * The pattern `/^[a-zA-Z0-9._\-+]+@?[a-zA-Z0-9.-]+\.[a-zA-Z]{2,4}$/` that the password
 * check applies to a supplied email: a run of name characters, an optional `@`, a
 * run of host characters, a dot and a final label of two to four ASCII letters.
 * Without the `D` modifier, PCRE lets `$` match at the very end of the subject or
 * before a newline that ends it, so the pattern also accepts an address followed by
 * one "\n". `StrictMatches` states what the body of the pattern accepts when `$`
 * means the very end, `Matches` adds the final newline; `StrictEmailShape` and
 * `EmailShape` decide them directly.
 */
module EmailPattern {

  import opened PhpValues

  predicate IsAlpha(c: char) {
    'a' <= c <= 'z' || 'A' <= c <= 'Z'
  }

  /** `[a-zA-Z0-9._\-+]` */
  predicate NameChar(c: char) {
    IsAlpha(c) || IsDigit(c) || c == '.' || c == '_' || c == '-' || c == '+'
  }

  /** `[a-zA-Z0-9.-]` */
  predicate HostChar(c: char) {
    IsAlpha(c) || IsDigit(c) || c == '.' || c == '-'
  }

  predicate AllName(s: string) {
    forall i :: 0 <= i < |s| ==> NameChar(s[i])
  }

  predicate AllHost(s: string) {
    forall i :: 0 <= i < |s| ==> HostChar(s[i])
  }

  predicate AllAlpha(s: string) {
    forall i :: 0 <= i < |s| ==> IsAlpha(s[i])
  }

  /** `[a-zA-Z0-9._\-+]+@?[a-zA-Z0-9.-]+` matches all of `t`: some split into a
      non-empty name run, an optional `@` and a non-empty host run. */
  ghost predicate HeadMatches(t: string) {
    exists i :: 1 <= i < |t| && AllName(t[..i])
      && (AllHost(t[i..]) || (t[i] == '@' && i + 1 < |t| && AllHost(t[i + 1..])))
  }

  /** The whole pattern matches `s`, `$` taken as the very end of the subject. */
  ghost predicate StrictMatches(s: string) {
    exists k :: 0 <= k < |s| && s[k] == '.' && 2 <= |s| - (k + 1) <= 4
      && AllAlpha(s[k + 1..]) && HeadMatches(s[..k])
  }

  /** The position of the first `c` in `s`, or `|s|` when there is none. */
  function IndexOf(s: string, c: char): (i: nat)
    ensures i <= |s|
    ensures i < |s| ==> s[i] == c
    ensures forall j :: 0 <= j < i ==> s[j] != c
  {
    if s == [] then 0 else if s[0] == c then 0 else 1 + IndexOf(s[1..], c)
  }

  /** The head decided directly: neither character class holds `@`, so the first
      `@`, if any, is the optional one. */
  predicate HeadShape(t: string) {
    var at := IndexOf(t, '@');
    if at < |t| then 1 <= at && AllName(t[..at]) && at + 1 < |t| && AllHost(t[at + 1..])
    else 2 <= |t| && AllName(t[..|t| - 1]) && HostChar(t[|t| - 1])
  }

  /** The final label starts after a dot at position `k`. */
  predicate LabelAt(s: string, k: int) {
    0 <= k < |s| && s[k] == '.' && AllAlpha(s[k + 1..]) && HeadShape(s[..k])
  }

  /** The strict match decided directly: the dot before the final label is three,
      four or five characters from the end. */
  predicate StrictEmailShape(s: string) {
    LabelAt(s, |s| - 3) || LabelAt(s, |s| - 4) || LabelAt(s, |s| - 5)
  }

  /** The direct decision of the head only accepts what the head pattern matches. */
  lemma HeadShapeMatches(t: string)
    requires HeadShape(t)
    ensures HeadMatches(t)
  {
    var at := IndexOf(t, '@');
    if at < |t| {
      assert 1 <= at < |t| && AllName(t[..at]) && t[at] == '@' && at + 1 < |t| && AllHost(t[at + 1..]);
    } else {
      var i := |t| - 1;
      assert AllHost(t[i..]);
      assert 1 <= i < |t| && AllName(t[..i]);
    }
  }

  /** A head split into a name run that ends right before a host run is accepted. */
  lemma HostRunHasShape(t: string, i: int)
    requires 1 <= i < |t| && AllName(t[..i]) && AllHost(t[i..])
    ensures HeadShape(t)
  {
    assert forall j :: 0 <= j < |t| ==> t[j] != '@' by {
      forall j | 0 <= j < |t| ensures t[j] != '@' {
        if j < i { assert NameChar(t[..i][j]); } else { assert HostChar(t[i..][j - i]); }
      }
    }
    assert IndexOf(t, '@') == |t|;
    assert AllName(t[..|t| - 1]) by {
      forall j | 0 <= j < |t| - 1 ensures NameChar(t[j]) {
        if j < i { assert NameChar(t[..i][j]); } else { assert HostChar(t[i..][j - i]); }
      }
    }
    assert HostChar(t[i..][|t| - 1 - i]);
  }

  /** A head split at an `@` is accepted: the name run holds no `@`, so it is the first one. */
  lemma AtSplitHasShape(t: string, i: int)
    requires 1 <= i < |t| && AllName(t[..i]) && t[i] == '@' && i + 1 < |t| && AllHost(t[i + 1..])
    ensures HeadShape(t)
  {
    assert forall j :: 0 <= j < i ==> t[j] != '@' by {
      forall j | 0 <= j < i ensures t[j] != '@' { assert NameChar(t[..i][j]); }
    }
    assert IndexOf(t, '@') == i;
  }

  lemma HeadShapeCorrect(t: string)
    ensures HeadShape(t) <==> HeadMatches(t)
  {
    if HeadShape(t) {
      HeadShapeMatches(t);
    }
    if HeadMatches(t) {
      var i :| 1 <= i < |t| && AllName(t[..i])
        && (AllHost(t[i..]) || (t[i] == '@' && i + 1 < |t| && AllHost(t[i + 1..])));
      if AllHost(t[i..]) {
        HostRunHasShape(t, i);
      } else {
        AtSplitHasShape(t, i);
      }
    }
  }

  /** The strict decision only accepts strings the strict pattern matches. */
  lemma StrictShapeMatches(s: string)
    requires StrictEmailShape(s)
    ensures StrictMatches(s)
  {
    var k: int;
    if LabelAt(s, |s| - 3) {
      k := |s| - 3;
    } else if LabelAt(s, |s| - 4) {
      k := |s| - 4;
    } else {
      k := |s| - 5;
    }
    HeadShapeCorrect(s[..k]);
    assert 0 <= k < |s| && s[k] == '.' && 2 <= |s| - (k + 1) <= 4 && AllAlpha(s[k + 1..]) && HeadMatches(s[..k]);
  }

  /** Every string the strict pattern matches is accepted by the strict decision. */
  lemma StrictMatchHasShape(s: string)
    requires StrictMatches(s)
    ensures StrictEmailShape(s)
  {
    var k :| 0 <= k < |s| && s[k] == '.' && 2 <= |s| - (k + 1) <= 4
      && AllAlpha(s[k + 1..]) && HeadMatches(s[..k]);
    HeadShapeCorrect(s[..k]);
    assert LabelAt(s, k);
    assert k == |s| - 3 || k == |s| - 4 || k == |s| - 5;
  }

  lemma StrictEmailShapeCorrect(s: string)
    ensures StrictEmailShape(s) <==> StrictMatches(s)
  {
    if StrictEmailShape(s) {
      StrictShapeMatches(s);
    }
    if StrictMatches(s) {
      StrictMatchHasShape(s);
    }
  }

  /** A strict match ends in a letter and has its dot three to five characters from the end. */
  lemma StrictEndsInLetter(s: string)
    requires StrictEmailShape(s)
    ensures |s| >= 5 && IsAlpha(s[|s| - 1])
    ensures s[|s| - 3] == '.' || s[|s| - 4] == '.' || s[|s| - 5] == '.'
  {
    var k := if LabelAt(s, |s| - 3) then |s| - 3 else if LabelAt(s, |s| - 4) then |s| - 4 else |s| - 5;
    assert IsAlpha(s[k + 1..][|s| - 1 - (k + 1)]);
  }

  /** A string the strict decision accepts holds no newline: every character is in
      one of the pattern's classes, or is the `@` or the dot. */
  lemma StrictShapeNoNewline(s: string)
    requires StrictEmailShape(s)
    ensures '\n' !in s
  {
    var k := if LabelAt(s, |s| - 3) then |s| - 3 else if LabelAt(s, |s| - 4) then |s| - 4 else |s| - 5;
    var t := s[..k];
    var at := IndexOf(t, '@');
    forall j | 0 <= j < |s|
      ensures s[j] != '\n'
    {
      if j > k {
        assert IsAlpha(s[k + 1..][j - k - 1]);
      } else if j < k {
        assert s[j] == t[j];
        if at < |t| {
          if j < at {
            assert NameChar(t[..at][j]);
          } else if j > at {
            assert HostChar(t[at + 1..][j - at - 1]);
          }
        } else if j < |t| - 1 {
          assert NameChar(t[..|t| - 1][j]);
        }
      }
    }
  }

  /** What the pattern matches: the strict match, or the strict match followed by a
      final newline. */
  ghost predicate Matches(s: string) {
    StrictMatches(s) || (|s| >= 1 && s[|s| - 1] == '\n' && StrictMatches(s[..|s| - 1]))
  }

  /** The pattern decided directly. */
  predicate EmailShape(s: string) {
    StrictEmailShape(s) || (|s| >= 1 && s[|s| - 1] == '\n' && StrictEmailShape(s[..|s| - 1]))
  }

  lemma EmailShapeCorrect(s: string)
    ensures EmailShape(s) <==> Matches(s)
  {
    StrictEmailShapeCorrect(s);
    if |s| >= 1 {
      StrictEmailShapeCorrect(s[..|s| - 1]);
    }
  }

  /** An accepted email holds a dot and ends in a letter, or in a letter and a
      newline, so no digit string and no "Array" is accepted. */
  lemma MatchEndsInLetter(s: string)
    requires EmailShape(s)
    ensures |s| >= 5 && '.' in s
    ensures IsAlpha(s[|s| - 1]) || (s[|s| - 1] == '\n' && IsAlpha(s[|s| - 2]))
  {
    if StrictEmailShape(s) {
      StrictEndsInLetter(s);
    } else {
      var t := s[..|s| - 1];
      StrictEndsInLetter(t);
      assert t[|t| - 1] == s[|s| - 2];
      assert t[|t| - 3] == s[|s| - 4] && t[|t| - 4] == s[|s| - 5] && t[|t| - 5] == s[|s| - 6];
    }
  }

  /** As written, the check lets a trailing newline through: whatever the strict
      decision accepts is accepted again with "\n" appended, although the strict
      decision rejects that string. */
  lemma TrailingNewlineAccepted(s: string)
    requires StrictEmailShape(s)
    ensures EmailShape(s + "\n")
    ensures !StrictEmailShape(s + "\n")
  {
    var u := s + "\n";
    assert u[..|u| - 1] == s;
    if StrictEmailShape(u) {
      StrictShapeNoNewline(u);
    }
  }

  /** The optional `@` present: `ab@cd.ef` is accepted. */
  lemma AcceptsWithAt()
    ensures StrictEmailShape("ab@cd.ef")
  {
    assert LabelAt("ab@cd.ef", 5) by {
      assert "ab@cd.ef"[..5] == "ab@cd";
      assert IndexOf("ab@cd", '@') == 2;
      assert "ab@cd"[..2] == "ab";
      assert "ab@cd"[3..] == "cd";
    }
  }

  /** `ab@cd.ef` followed by a newline is accepted as well. */
  lemma AcceptsWithNewline()
    ensures EmailShape("ab@cd.ef\n")
  {
    AcceptsWithAt();
    TrailingNewlineAccepted("ab@cd.ef");
    assert "ab@cd.ef" + "\n" == "ab@cd.ef\n";
  }

  /** The optional `@` absent: `ab.cd.ef` is accepted too. */
  lemma AcceptsWithoutAt()
    ensures StrictEmailShape("ab.cd.ef")
  {
    assert LabelAt("ab.cd.ef", 5) by {
      assert "ab.cd.ef"[..5] == "ab.cd";
      assert IndexOf("ab.cd", '@') == 5;
      assert "ab.cd"[..4] == "ab.c";
    }
  }

  /** A final label of one letter is rejected. */
  lemma RejectsShortLabel()
    ensures !EmailShape("ab@cd.e")
  {
  }

  /** A final label of five letters is rejected. */
  lemma RejectsLongLabel()
    ensures !EmailShape("ab@cd.efghi")
  {
    assert "ab@cd.efghi"[8] != '.' && "ab@cd.efghi"[7] != '.' && "ab@cd.efghi"[6] != '.';
  }
}
