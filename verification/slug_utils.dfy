/** Turning a display name into a URL slug. The input is taken after Unicode
    canonical decomposition (NFD); the combining marks that decomposition
    splits off are then dropped by the character filter, because no mark is in
    the filter's ASCII classes. */
module SlugUtils {
  import opened Common
  import opened StringUtils

  /** `\w` without Unicode flags: [A-Za-z0-9_]. */
  predicate IsWordChar(c: char) {
    'a' <= c <= 'z' || 'A' <= c <= 'Z' || '0' <= c <= '9' || c == '_'
  }

  /** `\s` without Unicode flags: [ \t\n\x0B\f\r]. */
  predicate IsRegexSpace(c: char) {
    c == ' ' || c == '\t' || c == '\n' || c as int == 0x0B || c as int == 0x0C || c == '\r'
  }

  /** What the filter `[^\w\s-]` lets through. */
  predicate IsKept(c: char) { IsWordChar(c) || IsRegexSpace(c) || c == '-' }

  /** The characters a slug can hold: [a-z0-9_-]. */
  predicate IsSlugChar(c: char) { 'a' <= c <= 'z' || '0' <= c <= '9' || c == '_' || c == '-' }

  /** The pattern the Tenant entity declares for its slug: ^[a-z0-9-]+$. */
  predicate MatchesTenantSlugPattern(s: string) {
    s != [] && forall i :: 0 <= i < |s| ==> 'a' <= s[i] <= 'z' || '0' <= s[i] <= '9' || s[i] == '-'
  }

  /** replaceAll("[^\\w\\s-]", ""): drops every character the filter rejects. */
  function RemoveDisallowed(s: string): (r: string)
    ensures |r| <= |s|
    ensures forall i :: 0 <= i < |r| ==> IsKept(r[i])
    ensures (forall i :: 0 <= i < |s| ==> IsKept(s[i])) ==> r == s
    ensures |s| == 1 && !IsKept(s[0]) ==> r == []
  {
    if s == [] then []
    else if IsKept(s[0]) then [s[0]] + RemoveDisallowed(s[1..])
    else RemoveDisallowed(s[1..])
  }

  /** The filter looks at one character at a time: filtering a concatenation
      filters each part, so every kept character survives, in order. */
  lemma {:induction false} RemoveDisallowedAppend(a: string, b: string)
    ensures RemoveDisallowed(a + b) == RemoveDisallowed(a) + RemoveDisallowed(b)
    decreases |a|
  {
    if a == [] {
      assert a + b == b;
    } else {
      assert (a + b)[0] == a[0];
      assert (a + b)[1..] == a[1..] + b;
      RemoveDisallowedAppend(a[1..], b);
    }
  }

  /** Only white space: the input of a run. */
  predicate IsSpaceRun(s: string) { forall i :: 0 <= i < |s| ==> IsRegexSpace(s[i]) }

  /** Word characters and hyphens only: what the filter keeps between runs. */
  predicate IsWord(s: string) { forall i :: 0 <= i < |s| ==> IsWordChar(s[i]) || s[i] == '-' }

  /** The suffix of `s` after its leading white space. */
  function SkipSpaces(s: string): (r: string)
    ensures |r| <= |s| && r == s[|s| - |r|..]
    ensures r == [] || !IsRegexSpace(r[0])
    ensures (forall i :: 0 <= i < |s| ==> IsKept(s[i])) ==> forall i :: 0 <= i < |r| ==> IsKept(r[i])
  {
    if s != [] && IsRegexSpace(s[0]) then SkipSpaces(s[1..]) else s
  }

  /** replaceAll("\\s+", "-"): every maximal run of white space becomes one
      hyphen; a string that passed the filter is left with word characters and
      hyphens only. */
  function CollapseSpaces(s: string): (r: string)
    ensures |r| <= |s|
    ensures forall i :: 0 <= i < |r| ==> !IsRegexSpace(r[i])
    decreases |s|
  {
    if s == [] then []
    else if IsRegexSpace(s[0]) then ['-'] + CollapseSpaces(SkipSpaces(s[1..]))
    else [s[0]] + CollapseSpaces(s[1..])
  }

  /** On a string that passed the filter, hyphenation leaves word characters
      and hyphens only. */
  lemma {:induction false} CollapseKeptSpaces(s: string)
    requires forall i :: 0 <= i < |s| ==> IsKept(s[i])
    ensures forall i :: 0 <= i < |CollapseSpaces(s)| ==> IsWordChar(CollapseSpaces(s)[i]) || CollapseSpaces(s)[i] == '-'
    decreases |s|
  {
    if s != [] {
      if IsRegexSpace(s[0]) {
        CollapseKeptSpaces(SkipSpaces(s[1..]));
      } else {
        CollapseKeptSpaces(s[1..]);
      }
    }
  }

  /** A string without white space is left as it is. */
  lemma {:induction false} CollapseWithoutSpaces(s: string)
    requires forall i :: 0 <= i < |s| ==> !IsRegexSpace(s[i])
    ensures CollapseSpaces(s) == s
  {
    if s != [] {
      CollapseWithoutSpaces(s[1..]);
    }
  }

  /** Skipping a run of white space stops at the first other character. */
  lemma {:induction false} SkipRun(w: string, y: string)
    requires IsSpaceRun(w)
    requires y == [] || !IsRegexSpace(y[0])
    ensures SkipSpaces(w + y) == y
    decreases |w|
  {
    if w == [] {
      assert w + y == y;
    } else {
      assert (w + y)[1..] == w[1..] + y;
      SkipRun(w[1..], y);
    }
  }

  /** A maximal run of white space becomes one hyphen, and the characters
      before it are kept as they are. */
  lemma {:induction false} CollapseRun(x: string, w: string, y: string)
    requires forall i :: 0 <= i < |x| ==> !IsRegexSpace(x[i])
    requires w != [] && IsSpaceRun(w)
    requires y == [] || !IsRegexSpace(y[0])
    ensures CollapseSpaces(x + w + y) == x + "-" + CollapseSpaces(y)
    decreases |x|
  {
    if x == [] {
      calc {
        CollapseSpaces(x + w + y);
        { assert x + w + y == w + y; }
        CollapseSpaces(w + y);
        { assert (w + y)[0] == w[0];
          assert (w + y)[1..] == w[1..] + y; }
        ['-'] + CollapseSpaces(SkipSpaces(w[1..] + y));
        { SkipRun(w[1..], y); }
        ['-'] + CollapseSpaces(y);
        { assert x + "-" == "-"; }
        x + "-" + CollapseSpaces(y);
      }
    } else {
      calc {
        CollapseSpaces(x + w + y);
        { assert (x + w + y)[0] == x[0];
          assert (x + w + y)[1..] == x[1..] + w + y; }
        [x[0]] + CollapseSpaces(x[1..] + w + y);
        { CollapseRun(x[1..], w, y); }
        [x[0]] + (x[1..] + "-" + CollapseSpaces(y));
        { assert x == [x[0]] + x[1..]; }
        x + "-" + CollapseSpaces(y);
      }
    }
  }

  /** Trim removes characters from the ends only, so what it keeps passed the filter. */
  lemma TrimKeepsFiltered(s: string)
    requires forall i :: 0 <= i < |s| ==> IsKept(s[i])
    ensures forall i :: 0 <= i < |Trim(s)| ==> IsKept(Trim(s)[i])
  {
  }

  /** The steps of toSlug before lowering: filter, trim, hyphenate. What is
      left is word characters and hyphens. */
  function Hyphenate(s: string): (r: string)
    ensures forall i :: 0 <= i < |r| ==> IsWordChar(r[i]) || r[i] == '-'
  {
    var trimmed := Trim(RemoveDisallowed(s));
    TrimKeepsFiltered(RemoveDisallowed(s));
    CollapseKeptSpaces(trimmed);
    CollapseSpaces(trimmed)
  }

  /** A kept character other than white space is a word character or a hyphen,
      all above U+0020, so trim keeps it. */
  lemma KeptUntrimmed(c: char)
    requires IsKept(c) && !IsRegexSpace(c)
    ensures !IsTrimmable(c)
  {
  }

  /** White space and words pass the filter unchanged. */
  lemma KeptUnfiltered(s: string)
    requires IsSpaceRun(s) || IsWord(s)
    ensures RemoveDisallowed(s) == s
  {
  }

  /** A single word between white space is what hyphenation leaves. */
  lemma {:induction false} HyphenateWord(p: string, x: string, q: string)
    requires IsSpaceRun(p) && IsSpaceRun(q) && IsWord(x)
    ensures Hyphenate(p + x + q) == x
  {
    calc {
      Hyphenate(p + x + q);
      CollapseSpaces(Trim(RemoveDisallowed(p + x + q)));
      { KeptUnfiltered(p);
        KeptUnfiltered(x);
        KeptUnfiltered(q);
        RemoveDisallowedAppend(p, x);
        RemoveDisallowedAppend(p + x, q); }
      CollapseSpaces(Trim(p + x + q));
      { if x != [] {
          KeptUntrimmed(x[0]);
          KeptUntrimmed(x[|x| - 1]);
        }
        TrimPadded(p, x, q); }
      CollapseSpaces(x);
      { CollapseWithoutSpaces(x); }
      x;
    }
  }

  /** Hyphenation goes word by word: outer white space is dropped, and the run
      after the first word becomes one hyphen before the hyphenated rest. */
  lemma {:induction false} HyphenateWords(p: string, x: string, w: string, y: string, q: string)
    requires IsSpaceRun(p) && IsSpaceRun(q)
    requires x != [] && IsWord(x)
    requires w != [] && IsSpaceRun(w)
    requires y != [] && (forall i :: 0 <= i < |y| ==> IsKept(y[i]))
    requires !IsRegexSpace(y[0]) && !IsRegexSpace(y[|y| - 1])
    ensures Hyphenate(p + x + w + y + q) == x + "-" + Hyphenate(y)
  {
    var m := x + w + y;
    calc {
      Hyphenate(p + x + w + y + q);
      { assert p + x + w + y + q == p + m + q; }
      CollapseSpaces(Trim(RemoveDisallowed(p + m + q)));
      { WordsUnfiltered(p, x, w, y, q); }
      CollapseSpaces(Trim(p + m + q));
      { WordsTrimmed(p, x, w, y, q); }
      CollapseSpaces(m);
      { CollapseRun(x, w, y); }
      x + "-" + CollapseSpaces(y);
      { WordsUnfiltered(p, x, w, y, q);
        KeptUntrimmed(y[0]);
        KeptUntrimmed(y[|y| - 1]);
        TrimOfTrimmed(y); }
      x + "-" + Hyphenate(y);
    }
  }

  /** The filter keeps white space and words: the step before trim in HyphenateWords. */
  lemma {:induction false} WordsUnfiltered(p: string, x: string, w: string, y: string, q: string)
    requires IsSpaceRun(p) && IsSpaceRun(q) && IsWord(x) && IsSpaceRun(w)
    requires forall i :: 0 <= i < |y| ==> IsKept(y[i])
    ensures RemoveDisallowed(y) == y
    ensures RemoveDisallowed(p + (x + w + y) + q) == p + (x + w + y) + q
  {
    KeptUnfiltered(p);
    KeptUnfiltered(x);
    KeptUnfiltered(w);
    KeptUnfiltered(q);
    RemoveDisallowedAppend(x, w);
    RemoveDisallowedAppend(x + w, y);
    RemoveDisallowedAppend(p, x + w + y);
    RemoveDisallowedAppend(p + (x + w + y), q);
  }

  /** Trim drops the outer white space: the trim step in HyphenateWords. */
  lemma {:induction false} WordsTrimmed(p: string, x: string, w: string, y: string, q: string)
    requires IsSpaceRun(p) && IsSpaceRun(q)
    requires x != [] && IsWord(x) && y != []
    requires IsKept(y[|y| - 1]) && !IsRegexSpace(y[|y| - 1])
    ensures Trim(p + (x + w + y) + q) == x + w + y
  {
    var m := x + w + y;
    assert m[0] == x[0] && m[|m| - 1] == y[|y| - 1];
    KeptUntrimmed(y[|y| - 1]);
    TrimPadded(p, m, q);
  }

  /** SlugUtils.toSlug on decomposed input: null stays null, anything else is
      filtered, trimmed, hyphenated and lowered into the slug alphabet. */
  function ToSlug(input: Option<string>): (r: Option<string>)
    ensures r.None? <==> input.None?
    ensures r.Some? ==> forall i :: 0 <= i < |r.value| ==> IsSlugChar(r.value[i])
  {
    match input
    case None => None
    case Some(s) => Some(LowerAscii(Hyphenate(s)))
  }

  /** The slug of one word padded with white space is the lowered word. */
  lemma {:induction false} ToSlugWord(p: string, x: string, q: string)
    requires IsSpaceRun(p) && IsSpaceRun(q) && IsWord(x)
    ensures ToSlug(Some(p + x + q)) == Some(LowerAscii(x))
  {
    HyphenateWord(p, x, q);
  }

  /** toSlug drops the outer white space, turns the run after the first word
      into one hyphen and lowers the word, then goes on with the rest. */
  lemma {:induction false} ToSlugWords(p: string, x: string, w: string, y: string, q: string)
    requires IsSpaceRun(p) && IsSpaceRun(q)
    requires x != [] && IsWord(x)
    requires w != [] && IsSpaceRun(w)
    requires y != [] && (forall i :: 0 <= i < |y| ==> IsKept(y[i]))
    requires !IsRegexSpace(y[0]) && !IsRegexSpace(y[|y| - 1])
    ensures ToSlug(Some(p + x + w + y + q)) == Some(LowerAscii(x) + "-" + ToSlug(Some(y)).value)
  {
    HyphenateWords(p, x, w, y, q);
    LowerAsciiAppend(x + "-", Hyphenate(y));
    LowerAsciiAppend(x, "-");
    assert LowerAscii("-") == "-";
  }

  /** A word passes the filter and holds no white space. */
  lemma WordIsKept(y: string)
    requires y != [] && IsWord(y)
    ensures forall i :: 0 <= i < |y| ==> IsKept(y[i])
    ensures !IsRegexSpace(y[0]) && !IsRegexSpace(y[|y| - 1])
  {
  }

  /** Two words with white space around and between them become the lowered
      words joined by one hyphen. */
  lemma {:induction false} ToSlugTwoWords(p: string, x: string, w: string, y: string, q: string)
    requires IsSpaceRun(p) && IsSpaceRun(w) && IsSpaceRun(q) && w != []
    requires x != [] && IsWord(x) && y != [] && IsWord(y)
    ensures ToSlug(Some(p + x + w + y + q)) == Some(LowerAscii(x) + "-" + LowerAscii(y))
  {
    WordIsKept(y);
    calc {
      ToSlug(Some(p + x + w + y + q));
      { ToSlugWords(p, x, w, y, q); }
      Some(LowerAscii(x) + "-" + ToSlug(Some(y)).value);
      { ToSlugWord([], y, []);
        assert [] + y + [] == y; }
      Some(LowerAscii(x) + "-" + LowerAscii(y));
    }
  }

  /** " Ab \tC " becomes "ab-c": outer white space dropped, the inner run one hyphen. */
  lemma ToSlugTwoWordsExample(name: string)
    requires name == " Ab \tC "
    ensures ToSlug(Some(name)) == Some("ab-c")
  {
    var pad, first, run, second := " ", "Ab", " \t", "C";
    assert name == pad + first + run + second + pad;
    assert IsWord(first) && IsWord(second) && IsSpaceRun(pad) && IsSpaceRun(run);
    ToSlugTwoWords(pad, first, run, second, pad);
    LowerExampleWords();
  }

  /** The lowering and joining steps of the example above. */
  lemma LowerExampleWords()
    ensures LowerAscii("Ab") + "-" + LowerAscii("C") == "ab-c"
  {
    assert LowerAscii("Ab") == "ab" && LowerAscii("C") == "c" by {
      assert LowerChar('A') == 'a' && LowerChar('C') == 'c';
      assert LowerAscii("Ab")[0] == 'a' && LowerAscii("Ab")[1] == 'b';
      assert LowerAscii("C")[0] == 'c';
    }
  }

  /** A slug holds no white space of either kind and no upper-case letter. */
  lemma SlugHasNoSpaceOrCapital(input: Option<string>)
    requires input.Some?
    ensures forall i :: 0 <= i < |ToSlug(input).value| ==>
              var c := ToSlug(input).value[i];
              !IsWhitespace(c) && !IsRegexSpace(c) && !('A' <= c <= 'Z')
  {
  }

  /** A string made of slug characters goes through every step unchanged. */
  lemma SlugCharsAreFixed(s: string)
    requires forall i :: 0 <= i < |s| ==> IsSlugChar(s[i])
    ensures ToSlug(Some(s)) == Some(s)
  {
    assert forall i :: 0 <= i < |s| ==> IsKept(s[i]) && !IsRegexSpace(s[i]) && !IsTrimmable(s[i]);
    assert RemoveDisallowed(s) == s;
    TrimOfTrimmed(s);
    CollapseWithoutSpaces(s);
    assert Hyphenate(s) == s;
    LowerAsciiWithoutCapitals(s);
  }


  /** toSlug applied to its own output changes nothing. */
  lemma ToSlugIdempotent(input: Option<string>)
    ensures ToSlug(ToSlug(input)) == ToSlug(input)
  {
    if input.Some? {
      SlugCharsAreFixed(ToSlug(input).value);
    }
  }

  /** A decomposed accent is dropped together with the other punctuation. */
  lemma ToSlugAccentExample()
    ensures ToSlug(Some("e" + [0x0301 as char] + "!")) == Some("e")
  {
    var accented := "e" + [0x0301 as char] + "!";
    AccentRemoved();
    TrimOfTrimmed("e");
    CollapseWithoutSpaces("e");
    assert Hyphenate(accented) == "e";
    LowerAsciiWithoutCapitals("e");
  }


  /** The filtering step of the example above. */
  lemma AccentRemoved()
    ensures RemoveDisallowed("e" + [0x0301 as char] + "!") == "e"
  {
    var accented := "e" + [0x0301 as char] + "!";
    assert RemoveDisallowed("!") == "";
    assert accented[1..][1..] == "!";
    assert RemoveDisallowed(accented[1..]) == "";
  }

  /** The output is not always a valid Tenant slug: it can be empty, and it can
      keep an underscore. */
  lemma SlugMayMissTenantPattern()
    ensures ToSlug(Some("!!!")) == Some("")
    ensures ToSlug(Some("a_b")) == Some("a_b")
    ensures !MatchesTenantSlugPattern("") && !MatchesTenantSlugPattern("a_b")
  {
    assert RemoveDisallowed("!!!") == "";
    SlugCharsAreFixed("a_b");
    assert "a_b"[1] == '_';
  }
}
