/** The null-tolerant trimming helpers, and the few `java.lang.String`
    operations the rest of the model needs, over strings as `seq<char>`.
    A Java `String` that may be null is an `Option<string>`. */
module StringUtils {
  import opened Common

  // ---------------------------------------------------------------------------
  // Character classes. String.trim and String.isBlank use different ones.

  /** String.trim() strips every leading and trailing code point up to U+0020. */
  predicate IsTrimmable(c: char) { c as int <= 0x20 }

  /** Character.isWhitespace, the test behind String.isBlank: the space
      separators except the non-breaking ones, the line and paragraph
      separators, and the controls U+0009-U+000D and U+001C-U+001F. */
  predicate IsWhitespace(c: char) {
    var n := c as int;
    n == 0x20 || 0x09 <= n <= 0x0D || 0x1C <= n <= 0x1F ||
    n == 0x1680 || 0x2000 <= n <= 0x2006 || 0x2008 <= n <= 0x200A ||
    n == 0x2028 || n == 0x2029 || n == 0x205F || n == 0x3000
  }

  /** String.isBlank: empty or white space only. */
  predicate IsBlank(s: string) { forall i :: 0 <= i < |s| ==> IsWhitespace(s[i]) }

  // ---------------------------------------------------------------------------
  // String.trim

  /** The index of the first character trim keeps (|s| when it keeps none). */
  function TrimStart(s: string): (i: nat)
    ensures i <= |s|
    ensures forall k :: 0 <= k < i ==> IsTrimmable(s[k])
    ensures i < |s| ==> !IsTrimmable(s[i])
  {
    if s == [] || !IsTrimmable(s[0]) then 0 else 1 + TrimStart(s[1..])
  }

  /** One past the last character trim keeps, never before `start`. */
  function TrimEnd(s: string, start: nat): (j: nat)
    requires start <= |s|
    ensures start <= j <= |s|
    ensures forall k :: j <= k < |s| ==> IsTrimmable(s[k])
    ensures start < j ==> !IsTrimmable(s[j - 1])
  {
    if |s| == start || !IsTrimmable(s[|s| - 1]) then |s| else TrimEnd(s[..|s| - 1], start)
  }

  /** String.trim: `s` without its leading and trailing characters up to U+0020. */
  function Trim(s: string): (r: string)
    ensures TrimStart(s) + |r| <= |s|
    ensures forall k :: 0 <= k < |r| ==> r[k] == s[TrimStart(s) + k]
    ensures forall k :: 0 <= k < TrimStart(s) ==> IsTrimmable(s[k])
    ensures forall k :: TrimStart(s) + |r| <= k < |s| ==> IsTrimmable(s[k])
    ensures r != [] ==> !IsTrimmable(r[0]) && !IsTrimmable(r[|r| - 1])
    ensures r == [] <==> forall k :: 0 <= k < |s| ==> IsTrimmable(s[k])
  {
    var i := TrimStart(s);
    s[i..TrimEnd(s, i)]
  }

  /** A string whose ends are kept by trim is its own trim. */
  lemma TrimOfTrimmed(s: string)
    requires s == [] || (!IsTrimmable(s[0]) && !IsTrimmable(s[|s| - 1]))
    ensures Trim(s) == s
  {
    if s != [] {
      assert TrimStart(s) == 0;
      assert TrimEnd(s, 0) == |s|;
    }
  }

  /** Trim removes exactly the padding around a middle part whose own ends it keeps. */
  lemma TrimPadded(p: string, m: string, q: string)
    requires forall k :: 0 <= k < |p| ==> IsTrimmable(p[k])
    requires forall k :: 0 <= k < |q| ==> IsTrimmable(q[k])
    requires m == [] || (!IsTrimmable(m[0]) && !IsTrimmable(m[|m| - 1]))
    ensures Trim(p + m + q) == m
  {
    var s := p + m + q;
    if m == [] {
      forall k | 0 <= k < |s|
        ensures IsTrimmable(s[k])
      {
        if k < |p| {
          assert s[k] == p[k];
        } else {
          assert s[k] == q[k - |p|];
        }
      }
    } else {
      var i := TrimStart(s);
      assert i == |p| by {
        assert s[|p|] == m[0];
      }
      var j := TrimEnd(s, i);
      assert j == |p| + |m| by {
        assert s[|p| + |m| - 1] == m[|m| - 1];
      }
      assert s[i..j] == m;
    }
  }

  lemma TrimIdempotent(s: string)
    ensures Trim(Trim(s)) == Trim(s)
  {
    TrimOfTrimmed(Trim(s));
  }

  // ---------------------------------------------------------------------------
  // The StringUtils helpers

  /** Trims a non-null string and turns an empty result into null. */
  function TrimToNull(s: Option<string>): (r: Option<string>)
    ensures r.None? <==> s.None? || forall k :: 0 <= k < |s.value| ==> IsTrimmable(s.value[k])
    ensures r.Some? ==> r.value == Trim(s.value)
    ensures r.Some? ==> r.value != [] && !IsTrimmable(r.value[0]) && !IsTrimmable(r.value[|r.value| - 1])
  {
    match s
    case None => None
    case Some(str) =>
      var t := Trim(str);
      if t == [] then None else Some(t)
  }

  lemma TrimToNullIdempotent(s: Option<string>)
    ensures TrimToNull(TrimToNull(s)) == TrimToNull(s)
  {
    if TrimToNull(s).Some? {
      TrimOfTrimmed(TrimToNull(s).value);
    }
  }

  /** Null, or nothing but characters up to U+0020. */
  function IsNullOrEmpty(s: Option<string>): (b: bool)
    ensures b <==> s.None? || forall k :: 0 <= k < |s.value| ==> IsTrimmable(s.value[k])
  {
    TrimToNull(s).None?
  }

  /** trimToNull wrapped in an Optional (the same value in this model). */
  function TrimToOptional(s: Option<string>): (r: Option<string>)
    ensures r.Some? <==> !IsNullOrEmpty(s)
    ensures r.Some? ==> r.value == Trim(s.value)
  {
    TrimToNull(s)
  }

  /** Never null: the trimmed string, or "" for null. */
  function TrimToEmpty(s: Option<string>): (r: string)
    ensures s.None? ==> r == []
    ensures s.Some? ==> r == Trim(s.value)
    ensures r == (if TrimToNull(s).Some? then TrimToNull(s).value else [])
  {
    match s
    case None => []
    case Some(str) => Trim(str)
  }

  /** Spring's Assert.isTrue(!isNullOrEmpty(str), message): fails with an
      IllegalArgumentException carrying `message`. */
  function AssertNotNullOrEmpty(s: Option<string>, message: string): (r: Outcome<string>)
    ensures r.Fail? <==> IsNullOrEmpty(s)
    ensures r.Fail? ==> r.error == message
  {
    if IsNullOrEmpty(s) then Fail(message) else Pass
  }

  /** isBlank and trim disagree on both sides: an ideographic space is blank
      but survives trim, a U+0001 control is trimmed but is not blank. */
  lemma BlankAndTrimDiffer()
    ensures IsBlank([0x3000 as char]) && Trim([0x3000 as char]) != []
    ensures !IsBlank([0x01 as char]) && Trim([0x01 as char]) == []
  {
    assert [0x3000 as char][0] == 0x3000 as char;
    assert [0x01 as char][0] == 0x01 as char;
  }

  // ---------------------------------------------------------------------------
  // Lower case and substring search, restricted to ASCII letters

  function LowerChar(c: char): (l: char)
    ensures !('A' <= l <= 'Z')
    ensures !('A' <= c <= 'Z') ==> l == c
  {
    if 'A' <= c <= 'Z' then (c as int + 32) as char else c
  }

  /** toLowerCase on the ASCII letters; every other character is kept. */
  function LowerAscii(s: string): (r: string)
    ensures |r| == |s|
    ensures forall i :: 0 <= i < |s| ==> r[i] == LowerChar(s[i])
  {
    seq(|s|, i requires 0 <= i < |s| => LowerChar(s[i]))
  }

  /** A string without ASCII capitals is its own lower-case form. */
  lemma LowerAsciiWithoutCapitals(s: string)
    requires forall i :: 0 <= i < |s| ==> !('A' <= s[i] <= 'Z')
    ensures LowerAscii(s) == s
  {
    assert forall i :: 0 <= i < |s| ==> LowerAscii(s)[i] == s[i];
  }

  /** Lowering works character by character, so it distributes over concatenation. */
  lemma LowerAsciiAppend(a: string, b: string)
    ensures LowerAscii(a + b) == LowerAscii(a) + LowerAscii(b)
  {
    assert forall i :: 0 <= i < |a + b| ==> LowerAscii(a + b)[i] == (LowerAscii(a) + LowerAscii(b))[i];
  }

  lemma LowerAsciiIdempotent(s: string)
    ensures LowerAscii(LowerAscii(s)) == LowerAscii(s)
  {
  }

  /** Lowering never turns a white-space character into another one, nor the reverse. */
  lemma LowerAsciiKeepsBlank(s: string)
    ensures IsBlank(LowerAscii(s)) <==> IsBlank(s)
  {
    forall i | 0 <= i < |s|
      ensures IsWhitespace(LowerAscii(s)[i]) <==> IsWhitespace(s[i])
    {
      if 'A' <= s[i] <= 'Z' {
        assert !IsWhitespace(s[i]);
      }
    }
  }

  /** String.contains: `part` occurs in `text` at some position. */
  predicate Contains(text: string, part: string) {
    exists i :: 0 <= i <= |text| && part <= text[i..]
  }

  // ---------------------------------------------------------------------------
  // String.length

  /** String.length(): the number of UTF-16 code units; a character above
      U+FFFF is a surrogate pair and counts twice. */
  function Utf16Length(s: string): (n: nat)
    ensures |s| <= n <= 2 * |s|
    ensures n == |s| <==> forall i :: 0 <= i < |s| ==> s[i] as int < 0x10000
  {
    if s == [] then 0
    else (if s[0] as int < 0x10000 then 1 else 2) + Utf16Length(s[1..])
  }

  // ---------------------------------------------------------------------------
  // Decimal rendering of a non-negative int, as in string concatenation

  function DigitChar(d: nat): (c: char)
    requires d <= 9
    ensures '0' <= c <= '9'
  {
    ('0' as int + d) as char
  }

  function DecimalString(n: nat): (s: string)
    ensures |s| >= 1
    ensures n < 10 <==> |s| == 1
    ensures forall i :: 0 <= i < |s| ==> '0' <= s[i] <= '9'
  {
    if n < 10 then [DigitChar(n)] else DecimalString(n / 10) + [DigitChar(n % 10)]
  }

  /** Distinct numbers render as distinct strings. */
  lemma {:induction false} DecimalStringInjective(a: nat, b: nat)
    requires DecimalString(a) == DecimalString(b)
    ensures a == b
  {
    var sa, sb := DecimalString(a), DecimalString(b);
    if a >= 10 && b >= 10 {
      assert sa[|sa| - 1] == DigitChar(a % 10);
      assert sb[|sb| - 1] == DigitChar(b % 10);
      assert DecimalString(a / 10) == sa[..|sa| - 1];
      assert DecimalString(b / 10) == sb[..|sb| - 1];
      DecimalStringInjective(a / 10, b / 10);
    } else if a < 10 && b < 10 {
      assert sa[0] == DigitChar(a) && sb[0] == DigitChar(b);
    }
  }
}
