/**
 * The handful of Python `str` operations the extraction engine relies on:
 * `strip`, `rstrip`, `lower`, `in`, `isalnum` and `' '.join(s.split())`.
 * Characters are restricted to their ASCII meaning (see README).
 */
module Text {

  /** Python's `str.isspace` on ASCII: tab, line feed, vertical tab, form feed,
      carriage return, the four separators 0x1C-0x1F and the space. */
  predicate IsSpace(c: char) {
    c == ' ' || ('\t' <= c <= '\r') || ('\U{001C}' <= c <= '\U{001F}')
  }

  predicate AllSpace(s: string) {
    forall i :: 0 <= i < |s| ==> IsSpace(s[i])
  }

  /** Python's `str.lstrip()`: drops the leading whitespace. */
  function TrimLeft(s: string): (r: string)
    ensures |r| <= |s|
  {
    if s != [] && IsSpace(s[0]) then TrimLeft(s[1..]) else s
  }

  /** Python's `str.rstrip()`: drops the trailing whitespace. */
  function TrimRight(s: string): (r: string)
    ensures |r| <= |s|
  {
    if s != [] && IsSpace(s[|s| - 1]) then TrimRight(s[..|s| - 1]) else s
  }

  /** Python's `str.strip()`. */
  function Strip(s: string): (r: string)
    ensures |r| <= |s|
  {
    TrimRight(TrimLeft(s))
  }

  /** `lstrip` removes exactly a whitespace prefix and leaves a string that
      does not start with whitespace. */
  lemma {:induction false} TrimLeftSpec(s: string)
    ensures TrimLeft(s) == s[|s| - |TrimLeft(s)|..]
    ensures TrimLeft(s) == [] || !IsSpace(TrimLeft(s)[0])
    ensures forall i :: 0 <= i < |s| - |TrimLeft(s)| ==> IsSpace(s[i])
  {
    if s != [] && IsSpace(s[0]) {
      TrimLeftSpec(s[1..]);
      assert forall i :: 0 < i < |s| ==> s[i] == s[1..][i - 1];
    }
  }

  /** `rstrip` removes exactly a whitespace suffix and leaves a string that
      does not end with whitespace. */
  lemma {:induction false} TrimRightSpec(s: string)
    ensures TrimRight(s) == s[..|TrimRight(s)|]
    ensures TrimRight(s) == [] || !IsSpace(TrimRight(s)[|TrimRight(s)| - 1])
    ensures forall i :: |TrimRight(s)| <= i < |s| ==> IsSpace(s[i])
  {
    if s != [] && IsSpace(s[|s| - 1]) {
      TrimRightSpec(s[..|s| - 1]);
      assert forall i :: 0 <= i < |s| - 1 ==> s[i] == s[..|s| - 1][i];
    }
  }

  /** `strip` is empty exactly on all-whitespace input, and otherwise neither
      starts nor ends with whitespace; it is a contiguous block of its input,
      and everything dropped before and after it is whitespace. */
  lemma StripSpec(s: string)
    ensures Strip(s) == [] <==> AllSpace(s)
    ensures Strip(s) == [] || (!IsSpace(Strip(s)[0]) && !IsSpace(Strip(s)[|Strip(s)| - 1]))
    ensures var lead := |s| - |TrimLeft(s)|;
      lead + |Strip(s)| <= |s| && Strip(s) == s[lead..lead + |Strip(s)|]
    ensures forall i :: 0 <= i < |s| - |TrimLeft(s)| ==> IsSpace(s[i])
    ensures forall i :: |s| - |TrimLeft(s)| + |Strip(s)| <= i < |s| ==> IsSpace(s[i])
  {
    var t := TrimLeft(s);
    var r := TrimRight(t);
    TrimLeftSpec(s);
    TrimRightSpec(t);
    assert t != [] ==> s[|s| - |t|] == t[0];
    assert r != [] ==> r[0] == t[0];
    var i := |s| - |t|;
    assert r == s[i..i + |r|];
    assert forall k :: |r| <= k < |t| ==> s[i + k] == t[k];
  }

  /** ASCII `str.lower()` of one character. */
  function LowerChar(c: char): char {
    if 'A' <= c <= 'Z' then (c as int + 32) as char else c
  }

  /** Python's `str.lower()` (ASCII letters only). */
  function Lower(s: string): (r: string)
    ensures |r| == |s|
  {
    if s == [] then [] else [LowerChar(s[0])] + Lower(s[1..])
  }

  lemma {:induction false} LowerSpec(s: string)
    ensures forall i :: 0 <= i < |s| ==> Lower(s)[i] == LowerChar(s[i])
  {
    if s != [] {
      LowerSpec(s[1..]);
    }
  }

  /** Python's `pat in s`: `pat` occurs as a contiguous block of `s`. */
  predicate Contains(s: string, pat: string) {
    pat <= s || (s != [] && Contains(s[1..], pat))
  }

  /** `pat` occurs in `s` starting at position `i`. */
  predicate OccursAt(s: string, pat: string, i: int) {
    0 <= i <= |s| - |pat| && s[i..i + |pat|] == pat
  }

  /** `pat in s` holds exactly when `pat` occurs at some position of `s`. */
  lemma {:induction false} ContainsSpec(s: string, pat: string)
    ensures Contains(s, pat) <==> exists i :: OccursAt(s, pat, i)
    decreases |s|
  {
    if s != [] {
      ContainsSpec(s[1..], pat);
      if Contains(s[1..], pat) {
        var i :| OccursAt(s[1..], pat, i);
        assert s[i + 1..i + 1 + |pat|] == s[1..][i..i + |pat|];
        assert OccursAt(s, pat, i + 1);
      }
      if exists i :: OccursAt(s, pat, i) {
        var i :| OccursAt(s, pat, i);
        if i > 0 {
          assert s[1..][i - 1..i - 1 + |pat|] == s[i..i + |pat|];
          assert OccursAt(s[1..], pat, i - 1);
        } else {
          assert s[..|pat|] == pat;
        }
      }
      if pat <= s {
        assert OccursAt(s, pat, 0);
      }
    } else {
      assert Contains(s, pat) ==> OccursAt(s, pat, 0);
    }
  }

  /** Every character of a pattern found in `s` occurs in `s`. */
  lemma ContainsChars(s: string, pat: string, c: char)
    requires Contains(s, pat) && c in pat
    ensures c in s
  {
    ContainsSpec(s, pat);
    var i :| OccursAt(s, pat, i);
    var j :| 0 <= j < |pat| && pat[j] == c;
    assert s[i + j] == s[i..i + |pat|][j];
  }

  /** Python's `any(p in s for p in pats)`. */
  predicate ContainsAny(s: string, pats: seq<string>) {
    exists p :: p in pats && Contains(s, p)
  }

  /** Python's `str.isalnum` on one ASCII character. */
  predicate IsAlnum(c: char) {
    ('a' <= c <= 'z') || ('A' <= c <= 'Z') || ('0' <= c <= '9')
  }

  /** The longest prefix of `s` that holds no whitespace. */
  function Word(s: string): (w: string)
    ensures |w| <= |s|
    ensures s != [] && !IsSpace(s[0]) ==> w != []
  {
    if s == [] || IsSpace(s[0]) then [] else [s[0]] + Word(s[1..])
  }

  lemma {:induction false} WordSpec(s: string)
    ensures Word(s) == s[..|Word(s)|]
    ensures forall i :: 0 <= i < |Word(s)| ==> !IsSpace(Word(s)[i])
    ensures |Word(s)| < |s| ==> IsSpace(s[|Word(s)|])
  {
    if s != [] && !IsSpace(s[0]) {
      WordSpec(s[1..]);
    }
  }

  /** A string in the shape `' '.join(...)` leaves: its only whitespace is
      single spaces, each strictly between two non-whitespace characters. */
  predicate Collapsed(r: string) {
    forall i :: 0 <= i < |r| && IsSpace(r[i]) ==>
      r[i] == ' ' && 0 < i < |r| - 1 && !IsSpace(r[i + 1])
  }

  /** Python's `' '.join(s.split())`: the whitespace-separated words of `s`
      joined by single spaces. */
  function Collapse(s: string): string
    decreases |s|
  {
    var t := TrimLeft(s);
    if t == [] then
      []
    else
      var w := Word(t);
      var rest := Collapse(t[|w|..]);
      if rest == [] then w else w + " " + rest
  }

  /** The collapsed text is empty exactly on all-whitespace input; otherwise
      it has no leading or trailing whitespace, no whitespace but single spaces,
      and no two spaces in a row. Its content is the text's, each whitespace
      run squeezed to one space and the ends stripped. */
  lemma {:induction false} CollapseSpec(s: string)
    ensures Collapse(s) == [] <==> AllSpace(s)
    ensures Collapsed(Collapse(s))
    ensures Collapse(s) == [] || !IsSpace(Collapse(s)[0])
    ensures Collapse(s) == Strip(SpaceRuns(s))
    decreases |s|
  {
    CollapseIsSpaceRuns(s);
    var t := TrimLeft(s);
    TrimLeftSpec(s);
    if t != [] {
      var w := Word(t);
      WordSpec(t);
      var tail := t[|w|..];
      CollapseSpec(tail);
      var rest := Collapse(tail);
      assert !AllSpace(s) by { assert s[|s| - |t|] == t[0]; }
      assert w[0] == t[0];
      if rest != [] {
        JoinCollapsed(w, rest);
        assert (w + " " + rest)[0] == w[0];
      }
    }
  }
  /** Joining a word to a collapsed, non-empty rest with one space keeps the
      result collapsed. */
  lemma JoinCollapsed(w: string, rest: string)
    requires w != [] && forall i :: 0 <= i < |w| ==> !IsSpace(w[i])
    requires rest != [] && !IsSpace(rest[0]) && Collapsed(rest)
    ensures Collapsed(w + " " + rest)
  {
    var r := w + " " + rest;
    forall i | 0 <= i < |r| && IsSpace(r[i])
      ensures r[i] == ' ' && 0 < i < |r| - 1 && !IsSpace(r[i + 1])
    {
      if i > |w| {
        assert r[i] == rest[i - |w| - 1];
        assert r[i + 1] == rest[i - |w|];
      } else if i == |w| {
        assert r[i + 1] == rest[0];
      }
    }
  }

  /** Every maximal run of whitespace replaced by one space, everything else
      kept: Python's `re.sub(r'\s+', ' ', s)`. */
  function SpaceRuns(s: string): string
    decreases |s|
  {
    if s == [] then []
    else if IsSpace(s[0]) then [' '] + SpaceRuns(TrimLeft(s[1..]))
    else [s[0]] + SpaceRuns(s[1..])
  }

  /** Collapsing is the same as squeezing each whitespace run to a single space
      and stripping the ends: the words of the text are kept, in order, with
      exactly one space wherever the text had whitespace between two of them. */
  lemma {:induction false} CollapseIsSpaceRuns(s: string)
    ensures Collapse(s) == Strip(SpaceRuns(s))
    decreases |s|, 2
  {
    if s != [] && IsSpace(s[0]) {
      var t := TrimLeft(s[1..]);
      assert TrimLeft(s) == t;
      assert SpaceRuns(s) == [' '] + SpaceRuns(t);
      assert TrimLeft([' '] + SpaceRuns(t)) == TrimLeft(SpaceRuns(t)) by {
        assert ([' '] + SpaceRuns(t))[1..] == SpaceRuns(t);
      }
      CollapseFromTrimmed(s);
      CollapseIsSpaceRuns(t);
    } else if s != [] {
      CollapseOfWord(s);
    }
  }

  /** The word-first case of `CollapseIsSpaceRuns`. */
  lemma {:induction false} CollapseOfWord(s: string)
    requires s != [] && !IsSpace(s[0])
    ensures Collapse(s) == Strip(SpaceRuns(s))
    decreases |s|, 1
  {
    var w := Word(s);
    var tail := s[|w|..];
    WordSpec(s);
    SpaceRunsOfWord(s);
    assert TrimLeft(s) == s;
    if tail == [] {
      NoSpaceStrips(w);
      assert SpaceRuns(s) == w;
    } else {
      CollapseWordThenSpace(w, tail);
    }
  }

  /** A word followed by text that starts with whitespace. */
  lemma {:induction false} CollapseWordThenSpace(w: string, tail: string)
    requires w != [] && forall i :: 0 <= i < |w| ==> !IsSpace(w[i])
    requires tail != [] && IsSpace(tail[0])
    ensures (if Collapse(tail) == [] then w else w + " " + Collapse(tail)) == Strip(w + SpaceRuns(tail))
    decreases |w| + |tail|, 0
  {
    var u := TrimLeft(tail[1..]);
    assert SpaceRuns(tail) == [' '] + SpaceRuns(u);
    assert TrimLeft(tail) == u;
    TrimLeftSpec(tail[1..]);
    CollapseFromTrimmed(tail);
    CollapseIsSpaceRuns(u);
    assert w + SpaceRuns(tail) == w + " " + SpaceRuns(u);
    assert u != [] ==> SpaceRuns(u)[0] == u[0];
    StripWordThen(w, SpaceRuns(u));
  }

  /** Stripping a word, a space and a text that does not start with
      whitespace leaves the word, then the space only when the stripped text
      is not empty. */
  lemma StripWordThen(w: string, x: string)
    requires w != [] && forall i :: 0 <= i < |w| ==> !IsSpace(w[i])
    requires x == [] || !IsSpace(x[0])
    ensures x != [] ==> Strip(x) != [] && Strip(w + " " + x) == w + " " + Strip(x)
    ensures x == [] ==> Strip(w + " " + x) == w
  {
    NoSpaceStrips(w);
    assert (w + " " + x)[0] == w[0];
    assert TrimLeft(w + " " + x) == w + " " + x;
    if x == [] {
      assert w + " " + x == w + " ";
      assert (w + " ")[..|w|] == w;
    } else {
      assert TrimLeft(x) == x;
      TrimRightSpec(x);
      TrimRightAppend(w + " ", x);
    }
  }

  /** Collapsing ignores leading whitespace. */
  lemma CollapseFromTrimmed(s: string)
    ensures Collapse(s) == Collapse(TrimLeft(s))
  {
    TrimLeftSpec(s);
    var t := TrimLeft(s);
    assert TrimLeft(t) == t;
  }

  /** A word, read off the front of `s`, passes through unchanged. */
  lemma {:induction false} SpaceRunsOfWord(s: string)
    requires s != [] && !IsSpace(s[0])
    ensures SpaceRuns(s) == Word(s) + SpaceRuns(s[|Word(s)|..])
    decreases |s|
  {
    var rest := s[1..];
    assert SpaceRuns(s) == [s[0]] + SpaceRuns(rest);
    assert Word(s) == [s[0]] + Word(rest);
    if rest != [] && !IsSpace(rest[0]) {
      SpaceRunsOfWord(rest);
      assert rest[|Word(rest)|..] == s[|Word(s)|..];
    } else {
      assert Word(rest) == [];
      assert s[|Word(s)|..] == rest;
    }
  }

  /** A non-empty word is its own strip. */
  lemma NoSpaceStrips(w: string)
    requires w != [] && forall i :: 0 <= i < |w| ==> !IsSpace(w[i])
    ensures TrimLeft(w) == w && TrimRight(w) == w && Strip(w) == w
  {
  }

  /** Trailing whitespace is removed from the end only. */
  lemma {:induction false} TrimRightAppend(p: string, x: string)
    requires TrimRight(x) != []
    ensures TrimRight(p + x) == p + TrimRight(x)
    decreases |x|
  {
    if IsSpace(x[|x| - 1]) {
      assert (p + x)[..|p + x| - 1] == p + x[..|x| - 1];
      TrimRightAppend(p, x[..|x| - 1]);
    }
  }
}
