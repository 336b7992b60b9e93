/**
 * Whitespace trimming of submitted text. Both the REST framework's `CharField` (with its default
 * `trim_whitespace=True`) and Django's form `CharField` (with its default `strip=True`) call
 * Python's `str.strip()` on a value before validating and storing it.
 */
module Text {

  /**
   * Python's `str.isspace` for one character: general category Zs, or bidirectional class
   * WS, B or S. These are exactly the characters `str.strip()` removes when given no argument.
   */
  predicate IsSpace(c: char) {
    || ('\t' <= c <= '\r')
    || ('\U{1C}' <= c <= '\U{1F}')
    || c == ' ' || c == '\U{85}' || c == '\U{A0}' || c == '\U{1680}'
    || ('\U{2000}' <= c <= '\U{200A}')
    || c == '\U{2028}' || c == '\U{2029}' || c == '\U{202F}' || c == '\U{205F}' || c == '\U{3000}'
  }

  /** Every character of `s` from index `lo` up to (not including) `hi` is whitespace. */
  predicate SpaceBetween(s: string, lo: int, hi: int) {
    forall k :: lo <= k < hi && 0 <= k < |s| ==> IsSpace(s[k])
  }

  /** The index of the first character at or after `i` that is not whitespace, or `|s|`. */
  function SkipForward(s: string, i: nat): (n: nat)
    requires i <= |s|
    ensures i <= n <= |s| && SpaceBetween(s, i, n)
    ensures n < |s| ==> !IsSpace(s[n])
    decreases |s| - i
  {
    if i == |s| || !IsSpace(s[i]) then i else SkipForward(s, i + 1)
  }

  /** The end of `s[lo..j]` once the whitespace before `j` is cut off. */
  function SkipBackward(s: string, lo: nat, j: nat): (n: nat)
    requires lo <= j <= |s|
    ensures lo <= n <= j && SpaceBetween(s, n, j)
    ensures lo < n ==> !IsSpace(s[n - 1])
  {
    if j == lo || !IsSpace(s[j - 1]) then j else SkipBackward(s, lo, j - 1)
  }

  /**
   * `str.strip()`: the middle of `s` once the whitespace at both ends is removed. The result
   * is a slice of `s`, everything cut off is whitespace, and the result starts and ends with
   * a character that is not; it is empty exactly when `s` is all whitespace.
   */
  function Trim(s: string): (r: string)
    ensures exists i, j :: 0 <= i <= j <= |s| && r == s[i..j] && SpaceBetween(s, 0, i) && SpaceBetween(s, j, |s|)
    ensures r != "" ==> !IsSpace(r[0]) && !IsSpace(r[|r| - 1])
    ensures r == "" <==> SpaceBetween(s, 0, |s|)
  {
    var i := SkipForward(s, 0);
    var j := SkipBackward(s, i, |s|);
    assert i < |s| ==> i < j by {
      if i < |s| && j == i { assert !IsSpace(s[i]); }
    }
    s[i..j]
  }

  /**
   * The slice `s[i..j]` is the trimmed form of `s` as soon as everything around it is whitespace
   * and it is empty or starts and ends with a character that is not.
   */
  lemma TrimUnique(s: string, i: nat, j: nat)
    requires i <= j <= |s| && SpaceBetween(s, 0, i) && SpaceBetween(s, j, |s|)
    requires i < j ==> !IsSpace(s[i]) && !IsSpace(s[j - 1])
    ensures Trim(s) == s[i..j]
  {
    var r := Trim(s);
    if i == j {
      assert SpaceBetween(s, 0, |s|);
    } else {
      var i', j' :| 0 <= i' <= j' <= |s| && r == s[i'..j'] && SpaceBetween(s, 0, i') && SpaceBetween(s, j', |s|);
      assert r != "" by { assert !IsSpace(s[i]); }
      assert !IsSpace(s[i']) && !IsSpace(s[j' - 1]) by {
        assert r[0] == s[i'] && r[|r| - 1] == s[j' - 1];
      }
      assert i' == i;
      assert j' == j;
    }
  }

  /** Trimming twice is trimming once: a stored value is already in its trimmed form. */
  lemma TrimIdempotent(s: string)
    ensures Trim(Trim(s)) == Trim(s)
  {
    var r := Trim(s);
    TrimUnique(r, 0, |r|);
    assert r[0..|r|] == r;
  }

  /**
   * The value Django's `ProhibitNullCharactersValidator` rejects: one holding the NUL character.
   * Every serializer and form `CharField` runs it on the value after trimming.
   */
  predicate HasNull(s: string) {
    '\0' in s
  }

  /** NUL is not whitespace, so trimming never removes one: the validator sees the raw value's NULs. */
  lemma TrimKeepsNull(s: string)
    ensures HasNull(Trim(s)) <==> HasNull(s)
  {
    var r := Trim(s);
    var i, j :| 0 <= i <= j <= |s| && r == s[i..j] && SpaceBetween(s, 0, i) && SpaceBetween(s, j, |s|);
    if HasNull(s) {
      var k :| 0 <= k < |s| && s[k] == '\0';
      assert !IsSpace(s[k]);
      assert r[k - i] == '\0';
    }
  }

  /**
   * A required `CharField` refuses its value when it is blank once trimmed, or when the trimmed
   * value holds a NUL character.
   */
  predicate RequiredRefused(s: string): (b: bool)
    ensures b <==> SpaceBetween(s, 0, |s|) || HasNull(s)
  {
    TrimKeepsNull(s);
    Trim(s) == "" || HasNull(Trim(s))
  }

  /** Padding is cut off and inner spaces stay: " bob " trims to "bob", "  " to "", "a b" to itself. */
  lemma TrimExamples()
    ensures Trim(" bob ") == "bob"
    ensures Trim("  ") == ""
    ensures Trim("a b") == "a b"
  {
    TrimUnique(" bob ", 1, 4);
    assert " bob "[1..4] == "bob";
    TrimUnique("a b", 0, 3);
    assert "a b"[0..3] == "a b";
  }
}
