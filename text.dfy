/**
 * The client's string helpers (UIPizzaClient/utils.cpp): trimming a wide
 * string of the characters of a set, and the hour label of a time.
 *
 * `find_first_not_of` and `find_last_not_of` answer a position or `npos`,
 * the largest `size_t`; `rtrim` erases from one past the last kept
 * character, so when there is none the position is `npos + 1`, which wraps
 * to 0 and erases everything.  The wrap is written out here.
 */
module Text {
  import opened Numerals
  import opened Calendar

  /** `std::wstring`: a sequence of wide characters. */
  type WString = seq<char>

  /** `size_t` holds values below 2^64. */
  const SizeModulus: int := 0x1_0000_0000_0000_0000

  /** `std::wstring::npos`: the largest `size_t`. */
  const Npos: int := SizeModulus - 1

  /** The default set of characters the trims remove: `L" \t\n\r\f\v"`. */
  const Blank: WString := [' ', '\t', '\n', '\r', '\U{C}', '\U{B}']

  /** A string the library can hold: shorter than `npos`, so no position is mistaken for it. */
  predicate Holdable(s: WString)
  {
    |s| < Npos
  }

  /** `find_first_not_of(t, i)`: the first position from i whose character is not in t, or `npos`. */
  function FirstNotOf(s: WString, t: WString, i: nat): (k: int)
    requires i <= |s| && Holdable(s)
    ensures k == Npos || (i <= k < |s| && s[k] !in t)
    ensures forall j :: i <= j < |s| && (k == Npos || j < k) ==> s[j] in t
    decreases |s| - i
  {
    if i == |s| then Npos
    else if s[i] !in t then i
    else FirstNotOf(s, t, i + 1)
  }

  /** `find_last_not_of(t)` over the first n characters: the last position whose character is not in t, or `npos`. */
  function LastNotOf(s: WString, t: WString, n: nat): (k: int)
    requires n <= |s| && Holdable(s)
    ensures k == Npos || (0 <= k < n && s[k] !in t)
    ensures forall j :: 0 <= j < n && (k == Npos || k < j) ==> s[j] in t
  {
    if n == 0 then Npos
    else if s[n - 1] !in t then n - 1
    else LastNotOf(s, t, n - 1)
  }

  /** `erase(pos, count)`: removes up to count characters from pos; a count past the end removes the rest. */
  function Erase(s: WString, pos: nat, count: nat): (r: WString)
    requires pos <= |s|
    ensures r == s[..pos] + s[pos + (if count < |s| - pos then count else |s| - pos)..]
    ensures |r| == |s| - (if count < |s| - pos then count else |s| - pos)
  {
    s[..pos] + s[pos + (if count < |s| - pos then count else |s| - pos)..]
  }

  /**
   * `ltrim`: erases from the start up to the first character not in t; when
   * every character is in t that position is `npos` and all is erased.  What
   * is left is the longest suffix that does not start with a character of t.
   */
  function LTrim(s: WString, t: WString): (r: WString)
    requires Holdable(s)
    ensures |r| <= |s| && r == s[|s| - |r|..]
    ensures forall i :: 0 <= i < |s| - |r| ==> s[i] in t
    ensures r != [] ==> r[0] !in t
  {
    var k := FirstNotOf(s, t, 0);
    Erase(s, 0, k)
  }

  /**
   * `rtrim`: erases from one past the last character not in t; with no such
   * character `npos + 1` wraps to 0 and all is erased.  What is left is the
   * longest prefix that does not end with a character of t.
   */
  function RTrim(s: WString, t: WString): (r: WString)
    requires Holdable(s)
    ensures |r| <= |s| && r == s[..|r|]
    ensures forall i :: |r| <= i < |s| ==> s[i] in t
    ensures r != [] ==> r[|r| - 1] !in t
  {
    var k := LastNotOf(s, t, |s|);
    var pos := (k + 1) % SizeModulus;
    Erase(s, pos, Npos)
  }

  /**
   * `trim`: `rtrim`, then `ltrim` of what is left.  The result is a
   * contiguous piece of the string, everything around it is in t, and it
   * neither starts nor ends with a character of t.
   */
  function Trim(s: WString, t: WString): (r: WString)
    requires Holdable(s)
    ensures exists i, j :: 0 <= i <= j <= |s| && r == s[i..j] &&
                          (forall k :: 0 <= k < i ==> s[k] in t) && (forall k :: j <= k < |s| ==> s[k] in t)
    ensures r != [] ==> r[0] !in t && r[|r| - 1] !in t
  {
    var a := RTrim(s, t);
    var r := LTrim(a, t);
    assert r == s[|a| - |r|..|a|];
    r
  }

  /** `ltrim` erases everything exactly when all the characters are in t. */
  lemma LTrimAway(s: WString, t: WString)
    requires Holdable(s)
    ensures LTrim(s, t) == [] <==> forall i :: 0 <= i < |s| ==> s[i] in t
  {
    var r := LTrim(s, t);
    if r != [] {
      assert r[0] == s[|s| - |r|];
    }
  }

  /** `rtrim` erases everything exactly when all the characters are in t. */
  lemma RTrimAway(s: WString, t: WString)
    requires Holdable(s)
    ensures RTrim(s, t) == [] <==> forall i :: 0 <= i < |s| ==> s[i] in t
  {
    var r := RTrim(s, t);
    if r != [] {
      assert r[|r| - 1] == s[|r| - 1];
    }
  }

  /** `trim` erases everything exactly when all the characters are in t. */
  lemma TrimAway(s: WString, t: WString)
    requires Holdable(s)
    ensures Trim(s, t) == [] <==> forall i :: 0 <= i < |s| ==> s[i] in t
  {
    var a := RTrim(s, t);
    RTrimAway(s, t);
    LTrimAway(a, t);
    if LTrim(a, t) == [] {
      assert a == [];
    }
  }

  /** A string that does not start with a character of t is left as it is by `ltrim`. */
  lemma LTrimKept(s: WString, t: WString)
    requires Holdable(s) && (s != [] ==> s[0] !in t)
    ensures LTrim(s, t) == s
  {
  }

  /** A string that does not end with a character of t is left as it is by `rtrim`. */
  lemma RTrimKept(s: WString, t: WString)
    requires Holdable(s) && (s != [] ==> s[|s| - 1] !in t)
    ensures RTrim(s, t) == s
  {
  }

  /** `trim` strips exactly the characters of t around a piece that neither starts nor ends with one. */
  lemma TrimSurrounded(p: WString, w: WString, q: WString, t: WString)
    requires Holdable(p + w + q)
    requires forall i :: 0 <= i < |p| ==> p[i] in t
    requires forall i :: 0 <= i < |q| ==> q[i] in t
    requires w != [] && w[0] !in t && w[|w| - 1] !in t
    ensures Trim(p + w + q, t) == w
  {
    var s := p + w + q;
    var a := RTrim(s, t);
    assert s[|p| + |w| - 1] == w[|w| - 1];
    assert forall i :: |p| + |w| <= i < |s| ==> s[i] == q[i - |p| - |w|];
    assert |a| == |p| + |w|;
    assert a == p + w;
    var r := LTrim(a, t);
    assert a[|p|] == w[0];
    assert forall i :: 0 <= i < |p| ==> a[i] == p[i];
    assert |r| == |w|;
  }

  /** With the default set, `trim` takes off the spaces, tabs and line breaks around a word and nothing else. */
  lemma TrimBlanks(p: WString, w: WString, q: WString)
    requires Holdable(p + w + q)
    requires forall i :: 0 <= i < |p| ==> p[i] in Blank
    requires forall i :: 0 <= i < |q| ==> q[i] in Blank
    requires w != [] && w[0] !in Blank && w[|w| - 1] !in Blank
    ensures Trim(p + w + q, Blank) == w
    ensures Trim(w, Blank) == w
  {
    TrimSurrounded(p, w, q, Blank);
    TrimSurrounded([], w, [], Blank);
    assert [] + w + [] == w;
  }

  /** Trimming is idempotent: a trimmed string is trimmed already. */
  lemma TrimTwice(s: WString, t: WString)
    requires Holdable(s)
    ensures Trim(Trim(s, t), t) == Trim(s, t)
    ensures LTrim(LTrim(s, t), t) == LTrim(s, t)
    ensures RTrim(RTrim(s, t), t) == RTrim(s, t)
  {
    var r := Trim(s, t);
    RTrimKept(r, t);
    LTrimKept(r, t);
    LTrimKept(LTrim(s, t), t);
    RTrimKept(RTrim(s, t), t);
  }

  /**
   * `asHourString`: the hour in decimal, then ":00".  The label ends with
   * ":00", and the digits before it read back as the hour.
   */
  function AsHourString(time: DateTime): (s: string)
    ensures |s| >= 4 && s[|s| - 3..] == ":00"
    ensures forall i :: 0 <= i < |s| - 3 ==> IsDigit(s[i])
    ensures ValueOf(s[..|s| - 3]) == time.hour
  {
    var digits := Decimal(time.hour);
    DecimalValue(time.hour);
    assert (digits + ":00")[..|digits|] == digits;
    digits + ":00"
  }

  /** Two times get the same label exactly when they have the same hour. */
  lemma HourStringInjective(a: DateTime, b: DateTime)
    ensures AsHourString(a) == AsHourString(b) <==> a.hour == b.hour
  {
    if AsHourString(a) == AsHourString(b) {
      var s := AsHourString(a);
      assert ValueOf(s[..|s| - 3]) == a.hour == b.hour;
    }
  }
}
