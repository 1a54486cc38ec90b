/**
 * The parts of Python's `str` that the banking program relies on, restricted
 * to ASCII: `strip()`, `lower()`, `title()` and the character classes that
 * its regular expressions use.
 */
module PyText {

  /** `str.isspace()` on ASCII: space, tab, line feed, vertical tab, form feed,
      carriage return and the separators 0x1C to 0x1F. */
  predicate IsSpace(c: char) {
    c == ' ' || 9 <= c as int <= 13 || 28 <= c as int <= 31
  }

  /** The regex class `[a-zA-Z]`. */
  predicate IsAsciiLetter(c: char) {
    'a' <= c <= 'z' || 'A' <= c <= 'Z'
  }

  /** The regex class `\d`, on ASCII. */
  predicate IsDigit(c: char) {
    '0' <= c <= '9'
  }

  predicate AllSpace(s: string) {
    forall i :: 0 <= i < |s| ==> IsSpace(s[i])
  }

  predicate AllLetters(s: string) {
    forall i :: 0 <= i < |s| ==> IsAsciiLetter(s[i])
  }

  predicate AllDigits(s: string) {
    forall i :: 0 <= i < |s| ==> IsDigit(s[i])
  }

  /** `r` is the slice of `s` at `i`, and everything around it is whitespace. */
  predicate TrimmedAt(s: string, r: string, i: nat) {
    i + |r| <= |s| && s[i..i + |r|] == r
    && (forall m :: 0 <= m < i ==> IsSpace(s[m]))
    && (forall m :: i + |r| <= m < |s| ==> IsSpace(s[m]))
  }

  /** `str.strip()`: peels whitespace off either end until neither end is whitespace. */
  function Strip(s: string): string {
    if s != [] && IsSpace(s[0]) then Strip(s[1..])
    else if s != [] && IsSpace(s[|s| - 1]) then Strip(s[..|s| - 1])
    else s
  }

  /** A whitespace character in front of `s` only moves the slice along. */
  lemma TrimmedAtBehindSpace(s: string, r: string, i: nat)
    requires s != [] && IsSpace(s[0]) && TrimmedAt(s[1..], r, i)
    ensures TrimmedAt(s, r, i + 1)
  {
    assert s[i + 1..i + 1 + |r|] == s[1..][i..i + |r|];
    forall m | 0 <= m < i + 1
      ensures IsSpace(s[m])
    {
      if m > 0 {
        assert s[m] == s[1..][m - 1];
      }
    }
    forall m | i + 1 + |r| <= m < |s|
      ensures IsSpace(s[m])
    {
      assert s[m] == s[1..][m - 1];
    }
  }

  /** A whitespace character after `s` leaves the slice where it is. */
  lemma TrimmedAtBeforeSpace(s: string, r: string, i: nat)
    requires s != [] && IsSpace(s[|s| - 1]) && TrimmedAt(s[..|s| - 1], r, i)
    ensures TrimmedAt(s, r, i)
  {
    var p := s[..|s| - 1];
    assert s[i..i + |r|] == p[i..i + |r|];
    forall m | i + |r| <= m < |s|
      ensures IsSpace(s[m])
    {
      if m < |s| - 1 {
        assert s[m] == p[m];
      }
    }
  }

  /** What `strip()` promises: no whitespace at either end of the result, only whitespace
      removed around it, and an empty result exactly for a blank line. */
  lemma {:induction false} StripSpec(s: string)
    ensures var r := Strip(s);
      (r == [] || (!IsSpace(r[0]) && !IsSpace(r[|r| - 1]))) &&
      (exists i: nat :: TrimmedAt(s, r, i)) &&
      (r == [] <==> AllSpace(s))
  {
    var r := Strip(s);
    if s != [] && IsSpace(s[0]) {
      StripSpec(s[1..]);
      var i: nat :| TrimmedAt(s[1..], r, i);
      TrimmedAtBehindSpace(s, r, i);
      assert AllSpace(s[1..]) ==> AllSpace(s) by {
        if AllSpace(s[1..]) {
          forall m | 0 < m < |s| ensures IsSpace(s[m]) {
            assert s[m] == s[1..][m - 1];
          }
        }
      }
    } else if s != [] && IsSpace(s[|s| - 1]) {
      var p := s[..|s| - 1];
      StripSpec(p);
      var i: nat :| TrimmedAt(p, r, i);
      TrimmedAtBeforeSpace(s, r, i);
      assert p[0] == s[0];
    } else {
      assert TrimmedAt(s, r, 0);
    }
  }

  /** Stripping a stripped string changes nothing. */
  lemma StripIdempotent(s: string)
    ensures Strip(Strip(s)) == Strip(s)
  {
    StripSpec(s);
  }

  /** A character of the line that is not whitespace survives in its strip. */
  lemma {:induction false} StripKeepsContent(s: string, k: nat)
    requires k < |s| && !IsSpace(s[k])
    ensures exists j :: 0 <= j < |Strip(s)| && Strip(s)[j] == s[k]
  {
    var r := Strip(s);
    StripSpec(s);
    var i: nat :| TrimmedAt(s, r, i);
    assert s[i..i + |r|][k - i] == s[k];
  }

  function ToLower(c: char): char {
    if 'A' <= c <= 'Z' then (c as int + 32) as char else c
  }

  function ToUpper(c: char): char {
    if 'a' <= c <= 'z' then (c as int - 32) as char else c
  }

  /** `str.lower()` on ASCII. */
  function Lower(s: string): string {
    seq(|s|, i requires 0 <= i < |s| => ToLower(s[i]))
  }

  /** A lowered string has no upper-case letter, so lowering it again is the identity. */
  lemma LowerIdempotent(s: string)
    ensures Lower(Lower(s)) == Lower(s)
    ensures forall i :: 0 <= i < |s| ==> !('A' <= Lower(s)[i] <= 'Z')
  {
  }

  /**
   * `str.title()` on ASCII, from a given state: a letter is upper-cased when
   * the character before it is not a letter (`afterLetter` false at the start)
   * and lower-cased otherwise; every other character is kept and resets the state.
   */
  function TitleFrom(s: string, afterLetter: bool): (r: string)
    ensures |r| == |s|
    ensures forall i :: 0 <= i < |s| ==>
      ToLower(r[i]) == ToLower(s[i]) && (IsAsciiLetter(r[i]) <==> IsAsciiLetter(s[i]))
  {
    if s == [] then
      []
    else
      var c := s[0];
      var d := if IsAsciiLetter(c) then (if afterLetter then ToLower(c) else ToUpper(c)) else c;
      var rest := TitleFrom(s[1..], IsAsciiLetter(c));
      [d] + rest
  }

  /** `str.title()`. */
  function Title(s: string): string {
    TitleFrom(s, false)
  }

  /** After a letter, title-casing a run of letters lower-cases all of it. */
  lemma {:induction false} TitleAfterLetter(s: string)
    requires AllLetters(s)
    ensures TitleFrom(s, true) == Lower(s)
  {
    if s != [] {
      TitleAfterLetter(s[1..]);
      assert Lower(s) == [ToLower(s[0])] + Lower(s[1..]);
    }
  }

  /** A word of letters comes out of `title()` with a capital first letter and the rest in lower case. */
  lemma TitleOfWord(s: string)
    requires s != [] && AllLetters(s)
    ensures Title(s) == [ToUpper(s[0])] + Lower(s[1..])
  {
    TitleAfterLetter(s[1..]);
  }
}
