/**
 * `clean_text`: HTML to normalised plain text. The HTML parser's text
 * extraction is a parameter; this module models the regular-expression
 * clean-up that follows it and proves the shape of what comes out.
 */
module TextNormalization {
  import opened Wrappers

  /** Python's whitespace: `str.isspace()`, which is also `\s` of `re` on str patterns. */
  predicate IsWhitespace(c: char)
  {
    var n := c as int;
    || 0x09 <= n <= 0x0D || 0x1C <= n <= 0x20 || n == 0x85 || n == 0xA0 || n == 0x1680
    || 0x2000 <= n <= 0x200A || n == 0x2028 || n == 0x2029 || n == 0x202F || n == 0x205F || n == 0x3000
  }

  /** The class `[a-zA-Z]`. */
  predicate IsAsciiLetter(c: char)
  {
    'a' <= c <= 'z' || 'A' <= c <= 'Z'
  }

  /**
   * What `clean_text` promises of its result: only lower-case ASCII letters
   * and single spaces, no space at either end.
   */
  predicate IsNormalized(s: string)
  {
    && (forall i :: 0 <= i < |s| ==> 'a' <= s[i] <= 'z' || s[i] == ' ')
    && (forall i :: 0 <= i < |s| - 1 && s[i] == ' ' ==> s[i + 1] != ' ')
    && (s != [] ==> s[0] != ' ' && s[|s| - 1] != ' ')
  }

  predicate LettersOrWhitespace(s: string)
  {
    forall i :: 0 <= i < |s| ==> IsAsciiLetter(s[i]) || IsWhitespace(s[i])
  }

  /** ASCII letters and spaces, never two spaces in a row. */
  predicate SingleSpaced(s: string)
  {
    && (forall i :: 0 <= i < |s| ==> IsAsciiLetter(s[i]) || s[i] == ' ')
    && (forall i :: 0 <= i < |s| - 1 && s[i] == ' ' ==> s[i + 1] != ' ')
  }

  /** `re.sub(r'[^a-zA-Z\s]', '', text)`. */
  function KeepLettersAndWhitespace(s: string): (r: string)
    ensures LettersOrWhitespace(r)
    ensures |r| <= |s|
  {
    if s == [] then []
    else (if IsAsciiLetter(s[0]) || IsWhitespace(s[0]) then [s[0]] else []) + KeepLettersAndWhitespace(s[1..])
  }

  /** Drops a leading run of whitespace (`str.lstrip()`). */
  function SkipWhitespace(s: string): (r: string)
    ensures |r| <= |s| && r == s[|s| - |r|..]
    ensures forall i :: 0 <= i < |s| - |r| ==> IsWhitespace(s[i])
    ensures r != [] ==> !IsWhitespace(r[0])
  {
    if s != [] && IsWhitespace(s[0]) then SkipWhitespace(s[1..]) else s
  }

  /** Drops a trailing run of whitespace (`str.rstrip()`). */
  function DropTrailingWhitespace(s: string): (r: string)
    ensures |r| <= |s| && r == s[..|r|]
    ensures forall i :: |r| <= i < |s| ==> IsWhitespace(s[i])
    ensures r != [] ==> !IsWhitespace(r[|r| - 1])
  {
    if s != [] && IsWhitespace(s[|s| - 1]) then DropTrailingWhitespace(s[..|s| - 1]) else s
  }

  /** `str.strip()`. */
  function Strip(s: string): string
  {
    DropTrailingWhitespace(SkipWhitespace(s))
  }

  /** `re.sub(r'\s+', ' ', text)`: each maximal run of whitespace becomes one space. */
  function CollapseWhitespace(s: string): string
    decreases |s|
  {
    if s == [] then []
    else if IsWhitespace(s[0]) then " " + CollapseWhitespace(SkipWhitespace(s))
    else [s[0]] + CollapseWhitespace(s[1..])
  }

  /** `str.lower()` on a character; only ASCII letters reach this point. */
  function LowerChar(c: char): char
  {
    if 'A' <= c <= 'Z' then (c as int + 32) as char else c
  }

  function Lower(s: string): (r: string)
    ensures |r| == |s| && forall i :: 0 <= i < |s| ==> r[i] == LowerChar(s[i])
  {
    if s == [] then [] else [LowerChar(s[0])] + Lower(s[1..])
  }

  /** Steps 3 and 4 of `clean_text`, applied to the extracted text. */
  function Normalize(text: string): string
  {
    Lower(Strip(CollapseWhitespace(KeepLettersAndWhitespace(text))))
  }

  /**
   * `clean_text(html)`: `extract` is the HTML parser's text extraction
   * (markup, scripts, styles and navigation removed, pieces joined by spaces);
   * it gives `None` when the parser raises, and any failure yields "".
   */
  function CleanText(html: string, extract: string -> Option<string>): (r: string)
    ensures IsNormalized(r)
    ensures extract(html).None? ==> r == ""
    ensures extract(html).Some? ==> Letters(r) == Lower(Letters(extract(html).value))
  {
    match extract(html)
    case None => ""
    case Some(text) =>
      NormalizeIsNormalized(text);
      NormalizeKeepsLetters(text);
      Normalize(text)
  }

  // ---------------------------------------------------------------------
  // Shape of the result

  lemma {:induction false} CollapseSingleSpaced(s: string)
    requires LettersOrWhitespace(s)
    ensures SingleSpaced(CollapseWhitespace(s))
    ensures CollapseWhitespace(s) == [] <==> s == []
    ensures CollapseWhitespace(s) != [] ==> (CollapseWhitespace(s)[0] == ' ' <==> IsWhitespace(s[0]))
    decreases |s|
  {
    if s != [] {
      if IsWhitespace(s[0]) {
        var rest := SkipWhitespace(s);
        assert LettersOrWhitespace(rest) by {
          forall i | 0 <= i < |rest| ensures IsAsciiLetter(rest[i]) || IsWhitespace(rest[i]) {
            assert rest[i] == s[|s| - |rest| + i];
          }
        }
        CollapseSingleSpaced(rest);
        var c := CollapseWhitespace(rest);
        assert c != [] ==> c[0] != ' ' by {
          if c != [] { assert !IsWhitespace(rest[0]); }
        }
        var r := " " + c;
        forall i | 0 <= i < |r| - 1 && r[i] == ' ' ensures r[i + 1] != ' ' {
          if i > 0 { assert r[i] == c[i - 1] && r[i + 1] == c[i]; }
        }
      } else {
        assert LettersOrWhitespace(s[1..]) by {
          forall i | 0 <= i < |s[1..]| ensures IsAsciiLetter(s[1..][i]) || IsWhitespace(s[1..][i]) {
            assert s[1..][i] == s[i + 1];
          }
        }
        CollapseSingleSpaced(s[1..]);
        var c := CollapseWhitespace(s[1..]);
        var r := [s[0]] + c;
        assert IsAsciiLetter(s[0]);
        forall i | 0 <= i < |r| - 1 && r[i] == ' ' ensures r[i + 1] != ' ' {
          assert i > 0;
          assert r[i] == c[i - 1] && r[i + 1] == c[i];
        }
      }
    }
  }

  lemma StripSingleSpaced(s: string)
    requires SingleSpaced(s)
    ensures SingleSpaced(Strip(s))
    ensures Strip(s) != [] ==> Strip(s)[0] != ' ' && Strip(s)[|Strip(s)| - 1] != ' '
  {
    var lo := StripSlice(s);
    SliceSingleSpaced(s, lo, lo + |Strip(s)|);
    StripEnds(s);
  }

  /** `strip()` gives a slice of its input. */
  lemma StripSlice(s: string) returns (lo: nat)
    ensures lo + |Strip(s)| <= |s| && Strip(s) == s[lo..lo + |Strip(s)|]
  {
    var a := SkipWhitespace(s);
    lo := |s| - |a|;
    PrefixOfSuffix(s, a, DropTrailingWhitespace(a));
  }

  lemma PrefixOfSuffix(s: string, a: string, b: string)
    requires |a| <= |s| && a == s[|s| - |a|..] && |b| <= |a| && b == a[..|b|]
    ensures b == s[|s| - |a|..|s| - |a| + |b|]
  {
  }

  lemma StripEnds(s: string)
    ensures Strip(s) != [] ==> Strip(s)[0] != ' ' && Strip(s)[|Strip(s)| - 1] != ' '
  {
    var a := SkipWhitespace(s);
    var b := DropTrailingWhitespace(a);
    if b != [] {
      assert b[0] == a[0];
      NotWhitespaceNotSpace(b[0]);
      NotWhitespaceNotSpace(b[|b| - 1]);
    }
  }

  lemma NotWhitespaceNotSpace(c: char)
    requires !IsWhitespace(c)
    ensures c != ' '
  {
  }

  /** A slice of single-spaced text is single-spaced. */
  lemma SliceSingleSpaced(s: string, lo: nat, hi: nat)
    requires SingleSpaced(s) && lo <= hi <= |s|
    ensures SingleSpaced(s[lo..hi])
  {
    var t := s[lo..hi];
    assert forall i :: 0 <= i < |t| ==> t[i] == s[lo + i];
  }

  lemma LowerNormalizes(t: string)
    requires SingleSpaced(t)
    requires t != [] ==> t[0] != ' ' && t[|t| - 1] != ' '
    ensures IsNormalized(Lower(t))
  {
    var r := Lower(t);
    forall i | 0 <= i < |r| ensures 'a' <= r[i] <= 'z' || r[i] == ' ' {
      assert IsAsciiLetter(t[i]) || t[i] == ' ';
    }
    forall i | 0 <= i < |r| - 1 && r[i] == ' ' ensures r[i + 1] != ' ' {
      assert t[i] == ' ';
    }
  }

  lemma NormalizeIsNormalized(text: string)
    ensures IsNormalized(Normalize(text))
  {
    var k := KeepLettersAndWhitespace(text);
    CollapseSingleSpaced(k);
    StripSingleSpaced(CollapseWhitespace(k));
    LowerNormalizes(Strip(CollapseWhitespace(k)));
  }

  // ---------------------------------------------------------------------
  // No letter is lost or invented

  /** The ASCII letters of `s`, in order. */
  function Letters(s: string): string
  {
    if s == [] then [] else (if IsAsciiLetter(s[0]) then [s[0]] else []) + Letters(s[1..])
  }

  lemma {:induction false} LettersAppend(a: string, b: string)
    ensures Letters(a + b) == Letters(a) + Letters(b)
  {
    if a == [] {
      assert a + b == b;
    } else {
      assert (a + b)[0] == a[0];
      assert (a + b)[1..] == a[1..] + b;
      LettersAppend(a[1..], b);
      var h := if IsAsciiLetter(a[0]) then [a[0]] else [];
      assert Letters(a + b) == h + (Letters(a[1..]) + Letters(b));
      assert Letters(a) == h + Letters(a[1..]);
      assert h + (Letters(a[1..]) + Letters(b)) == (h + Letters(a[1..])) + Letters(b);
    }
  }

  lemma {:induction false} LettersOfWhitespace(s: string)
    requires forall i :: 0 <= i < |s| ==> IsWhitespace(s[i])
    ensures Letters(s) == []
  {
    if s != [] {
      LettersOfWhitespace(s[1..]);
    }
  }

  lemma {:induction false} KeepLetters(s: string)
    ensures Letters(KeepLettersAndWhitespace(s)) == Letters(s)
  {
    if s != [] {
      KeepLetters(s[1..]);
      var head := if IsAsciiLetter(s[0]) || IsWhitespace(s[0]) then [s[0]] else [];
      LettersAppend(head, KeepLettersAndWhitespace(s[1..]));
    }
  }

  lemma SkipWhitespaceLetters(s: string)
    ensures Letters(SkipWhitespace(s)) == Letters(s)
  {
    var r := SkipWhitespace(s);
    var dropped := s[..|s| - |r|];
    assert s == dropped + r;
    LettersOfWhitespace(dropped);
    LettersAppend(dropped, r);
  }

  lemma {:induction false} CollapseLetters(s: string)
    ensures Letters(CollapseWhitespace(s)) == Letters(s)
    decreases |s|
  {
    if s != [] {
      if IsWhitespace(s[0]) {
        var rest := SkipWhitespace(s);
        CollapseLetters(rest);
        SkipWhitespaceLetters(s);
        assert (" " + CollapseWhitespace(rest))[1..] == CollapseWhitespace(rest);
      } else {
        CollapseLetters(s[1..]);
        assert ([s[0]] + CollapseWhitespace(s[1..]))[1..] == CollapseWhitespace(s[1..]);
      }
    }
  }

  lemma DropTrailingLetters(a: string)
    ensures Letters(DropTrailingWhitespace(a)) == Letters(a)
  {
    var b := DropTrailingWhitespace(a);
    var dropped := a[|b|..];
    assert a == b + dropped;
    LettersOfWhitespace(dropped);
    LettersAppend(b, dropped);
  }

  lemma StripLetters(s: string)
    ensures Letters(Strip(s)) == Letters(s)
  {
    SkipWhitespaceLetters(s);
    DropTrailingLetters(SkipWhitespace(s));
  }

  lemma {:induction false} LowerLetters(s: string)
    ensures Letters(Lower(s)) == Lower(Letters(s))
  {
    if s != [] {
      LowerLetters(s[1..]);
      assert Lower(s)[1..] == Lower(s[1..]);
      if IsAsciiLetter(s[0]) {
        assert Lower([s[0]] + Letters(s[1..])) == [LowerChar(s[0])] + Lower(Letters(s[1..]));
      }
    }
  }

  /** Normalising keeps every ASCII letter, in order, lower-cased, and adds none. */
  lemma NormalizeKeepsLetters(text: string)
    ensures Letters(Normalize(text)) == Lower(Letters(text))
  {
    var k := KeepLettersAndWhitespace(text);
    KeepLetters(text);
    CollapseLetters(k);
    StripLetters(CollapseWhitespace(k));
    LowerLetters(Strip(CollapseWhitespace(k)));
  }

  // ---------------------------------------------------------------------
  // Each whitespace run between words becomes exactly one space

  predicate AllWhitespace(s: string)
  {
    forall i :: 0 <= i < |s| ==> IsWhitespace(s[i])
  }

  /** The character filter works character by character. */
  lemma {:induction false} KeepAppend(a: string, b: string)
    ensures KeepLettersAndWhitespace(a + b) == KeepLettersAndWhitespace(a) + KeepLettersAndWhitespace(b)
  {
    if a == [] {
      assert a + b == b;
    } else {
      assert (a + b)[0] == a[0];
      assert (a + b)[1..] == a[1..] + b;
      KeepAppend(a[1..], b);
      var h := if IsAsciiLetter(a[0]) || IsWhitespace(a[0]) then [a[0]] else [];
      assert KeepLettersAndWhitespace(a + b) == h + (KeepLettersAndWhitespace(a[1..]) + KeepLettersAndWhitespace(b));
      assert KeepLettersAndWhitespace(a) == h + KeepLettersAndWhitespace(a[1..]);
    }
  }

  /** The character filter keeps whitespace. */
  lemma {:induction false} KeepWhitespace(w: string)
    requires AllWhitespace(w)
    ensures KeepLettersAndWhitespace(w) == w
  {
    if w != [] {
      KeepWhitespace(w[1..]);
      assert w == [w[0]] + w[1..];
    }
  }

  /** Without whitespace, the character filter keeps exactly the letters. */
  lemma {:induction false} KeepWord(s: string)
    requires forall i :: 0 <= i < |s| ==> !IsWhitespace(s[i])
    ensures KeepLettersAndWhitespace(s) == Letters(s)
  {
    if s != [] {
      KeepWord(s[1..]);
    }
  }

  /** Skipping a whitespace run stops at the first character after it. */
  lemma {:induction false} SkipRun(w: string, b: string)
    requires AllWhitespace(w) && (b == [] || !IsWhitespace(b[0]))
    ensures SkipWhitespace(w + b) == b
  {
    if w == [] {
      assert w + b == b;
    } else {
      assert (w + b)[1..] == w[1..] + b;
      SkipRun(w[1..], b);
    }
  }

  /** Once `a` has a non-whitespace character, skipping does not reach what follows it. */
  lemma {:induction false} SkipPrefix(a: string, t: string)
    requires SkipWhitespace(a) != []
    ensures SkipWhitespace(a + t) == SkipWhitespace(a) + t
  {
    HeadConcat(a, t);
    if IsWhitespace(a[0]) {
      SkipPrefix(a[1..], t);
      SkipStep(a + t);
      SkipStep(a);
    }
  }

  /** One step of `SkipWhitespace` at a whitespace character. */
  lemma SkipStep(s: string)
    requires s != [] && IsWhitespace(s[0])
    ensures SkipWhitespace(s) == SkipWhitespace(s[1..])
  {
  }

  /** Once `b` has a non-whitespace character, dropping trailing whitespace does not reach what precedes it. */
  lemma {:induction false} DropSuffix(z: string, b: string)
    requires DropTrailingWhitespace(b) != []
    ensures DropTrailingWhitespace(z + b) == z + DropTrailingWhitespace(b)
  {
    if IsWhitespace(b[|b| - 1]) {
      var b' := b[..|b| - 1];
      assert (z + b)[..|z + b| - 1] == z + b';
      DropSuffix(z, b');
    }
  }

  /**
   * `re.sub(r'\s+', ' ', _)` on text with a whitespace run `w` between `a`
   * (not ending in whitespace) and `b` (not starting with it): the run
   * becomes one space and both sides are collapsed on their own.
   */
  lemma {:induction false} CollapseRun(a: string, w: string, b: string)
    requires w != [] && AllWhitespace(w)
    requires a == [] || !IsWhitespace(a[|a| - 1])
    requires b == [] || !IsWhitespace(b[0])
    ensures CollapseWhitespace(a + w + b) == CollapseWhitespace(a) + " " + CollapseWhitespace(b)
    decreases |a|
  {
    if a == [] {
      CollapseRunStart(w, b);
    } else if IsWhitespace(a[0]) {
      var r := SkipWhitespace(a);
      assert r != [] && r[|r| - 1] == a[|a| - 1];
      CollapseRun(r, w, b);
      CollapseRunSkip(a, w, b, CollapseWhitespace(r));
    } else {
      var t := a[1..];
      assert t == [] || !IsWhitespace(t[|t| - 1]);
      CollapseRun(t, w, b);
      CollapseRunLetter(a, w, b, CollapseWhitespace(t));
    }
  }

  /** `CollapseRun` with nothing before the run. */
  lemma CollapseRunStart(w: string, b: string)
    requires w != [] && AllWhitespace(w)
    requires b == [] || !IsWhitespace(b[0])
    ensures CollapseWhitespace([] + w + b) == CollapseWhitespace([]) + " " + CollapseWhitespace(b)
  {
    NilConcat(w);
    NilConcat(" ");
    SkipRun(w, b);
    CollapseSkipping(w + b);
    CollapseNil();
  }

  lemma CollapseNil()
    ensures CollapseWhitespace([]) == []
  {
  }

  /** The step of `CollapseRun` when `a` starts with whitespace. */
  lemma CollapseRunSkip(a: string, w: string, b: string, cr: string)
    requires a != [] && IsWhitespace(a[0]) && SkipWhitespace(a) != []
    requires cr == CollapseWhitespace(SkipWhitespace(a))
    requires CollapseWhitespace(SkipWhitespace(a) + w + b) == cr + " " + CollapseWhitespace(b)
    ensures CollapseWhitespace(a + w + b) == CollapseWhitespace(a) + " " + CollapseWhitespace(b)
  {
    var r := SkipWhitespace(a);
    var cb := CollapseWhitespace(b);
    SkipPrefix(a, w + b);
    ConcatAssoc(a, w, b);
    ConcatAssoc(r, w, b);
    HeadConcat(a, w + b);
    CollapseSkipping(a + w + b);
    ConcatAssoc(" ", cr, " " + cb);
    ConcatAssoc(cr, " ", cb);
    ConcatAssoc(" " + cr, " ", cb);
  }

  /** The step of `CollapseRun` when `a` starts with a character that is not whitespace. */
  lemma CollapseRunLetter(a: string, w: string, b: string, ct: string)
    requires a != [] && !IsWhitespace(a[0])
    requires ct == CollapseWhitespace(a[1..])
    requires CollapseWhitespace(a[1..] + w + b) == ct + " " + CollapseWhitespace(b)
    ensures CollapseWhitespace(a + w + b) == CollapseWhitespace(a) + " " + CollapseWhitespace(b)
  {
    var cb := CollapseWhitespace(b);
    HeadConcat(a, w);
    HeadConcat(a + w, b);
    CollapseKeeping(a + w + b);
    ConcatAssoc([a[0]], ct, " " + cb);
    ConcatAssoc(ct, " ", cb);
    ConcatAssoc([a[0]] + ct, " ", cb);
  }

  /** One step of `CollapseWhitespace` at a whitespace character. */
  lemma CollapseSkipping(s: string)
    requires s != [] && IsWhitespace(s[0])
    ensures CollapseWhitespace(s) == " " + CollapseWhitespace(SkipWhitespace(s))
  {
  }

  /** One step of `CollapseWhitespace` at any other character. */
  lemma CollapseKeeping(s: string)
    requires s != [] && !IsWhitespace(s[0])
    ensures CollapseWhitespace(s) == [s[0]] + CollapseWhitespace(s[1..])
  {
  }

  lemma HeadConcat(x: string, y: string)
    requires x != []
    ensures (x + y)[0] == x[0] && (x + y)[1..] == x[1..] + y
  {
  }

  lemma ConcatAssoc(x: string, y: string, z: string)
    ensures x + (y + z) == x + y + z
  {
  }

  /** Collapsing keeps a last character that is not whitespace. */
  lemma {:induction false} CollapseLast(x: string)
    requires x != [] && !IsWhitespace(x[|x| - 1])
    ensures CollapseWhitespace(x) != []
    ensures CollapseWhitespace(x)[|CollapseWhitespace(x)| - 1] == x[|x| - 1]
    decreases |x|
  {
    if IsWhitespace(x[0]) {
      var r := SkipWhitespace(x);
      assert r != [] && r[|r| - 1] == x[|x| - 1];
      CollapseLast(r);
    } else if |x| > 1 {
      CollapseLast(x[1..]);
    }
  }

  /** Collapsing keeps a first character that is not whitespace. */
  lemma CollapseFirst(y: string)
    requires y != [] && !IsWhitespace(y[0])
    ensures CollapseWhitespace(y) != [] && CollapseWhitespace(y)[0] == y[0]
  {
  }

  /** Text without whitespace is left as it is by collapsing. */
  lemma {:induction false} CollapseWord(s: string)
    requires forall i :: 0 <= i < |s| ==> !IsWhitespace(s[i])
    ensures CollapseWhitespace(s) == s
  {
    if s != [] {
      CollapseWord(s[1..]);
      assert s == [s[0]] + s[1..];
    }
  }

  /** `strip()` of two pieces joined by a space, with no whitespace next to that space. */
  lemma StripJoin(x: string, y: string)
    requires x != [] && !IsWhitespace(x[|x| - 1])
    requires y != [] && !IsWhitespace(y[0])
    ensures Strip(x + " " + y) == Strip(x) + " " + Strip(y)
  {
    var sx := SkipWhitespace(x);
    SkipKeepsLast(x);
    DropFixed(sx);
    ConcatAssoc(x, " ", y);
    SkipPrefix(x, " " + y);
    ConcatAssoc(sx, " ", y);
    SkipFixed(y);
    DropKeepsFirst(y);
    DropSuffix(sx + " ", y);
  }

  /** A trailing space disappears in `strip()`. */
  lemma StripTrailingSpace(x: string)
    requires x != [] && !IsWhitespace(x[|x| - 1])
    ensures Strip(x + " ") == Strip(x)
  {
    var sx := SkipWhitespace(x);
    SkipKeepsLast(x);
    SkipPrefix(x, " ");
    DropSpace(sx);
  }

  /** A leading space disappears in `strip()`. */
  lemma StripLeadingSpace(y: string)
    ensures Strip(" " + y) == Strip(y)
  {
    HeadConcat(" ", y);
    SkipStep(" " + y);
  }

  /** Skipping leading whitespace keeps a last character that is not whitespace. */
  lemma SkipKeepsLast(x: string)
    requires x != [] && !IsWhitespace(x[|x| - 1])
    ensures SkipWhitespace(x) != [] && SkipWhitespace(x)[|SkipWhitespace(x)| - 1] == x[|x| - 1]
  {
  }

  lemma SkipFixed(y: string)
    requires y == [] || !IsWhitespace(y[0])
    ensures SkipWhitespace(y) == y
  {
  }

  lemma DropFixed(x: string)
    requires x == [] || !IsWhitespace(x[|x| - 1])
    ensures DropTrailingWhitespace(x) == x
  {
  }

  /** Dropping trailing whitespace keeps a first character that is not whitespace. */
  lemma DropKeepsFirst(y: string)
    requires y != [] && !IsWhitespace(y[0])
    ensures DropTrailingWhitespace(y) != [] && DropTrailingWhitespace(y)[0] == y[0]
  {
  }

  lemma DropSpace(x: string)
    ensures DropTrailingWhitespace(x + " ") == DropTrailingWhitespace(x)
  {
    assert (x + " ")[..|x|] == x;
  }

  lemma LowerAppend(a: string, b: string)
    ensures Lower(a + b) == Lower(a) + Lower(b)
  {
    var l := Lower(a + b);
    var r := Lower(a) + Lower(b);
    forall i | 0 <= i < |l| ensures l[i] == r[i] {
      if i < |a| { assert (a + b)[i] == a[i]; } else { assert (a + b)[i] == b[i - |a|]; }
    }
  }

  /** A text with a letter is its letter-bearing core followed by trailing whitespace. */
  lemma SplitTrailing(s: string) returns (core: string, tail: string)
    requires Letters(s) != []
    ensures s == core + tail && AllWhitespace(tail)
    ensures core != [] && !IsWhitespace(core[|core| - 1])
  {
    core := DropTrailingWhitespace(s);
    tail := s[|core|..];
    assert s == core + tail;
    DropTrailingLetters(s);
  }

  /** A text with a letter is leading whitespace followed by its letter-bearing core. */
  lemma SplitLeading(s: string) returns (head: string, core: string)
    requires Letters(s) != []
    ensures s == head + core && AllWhitespace(head)
    ensures core != [] && !IsWhitespace(core[0])
  {
    core := SkipWhitespace(s);
    head := s[..|s| - |core|];
    assert s == head + core;
    SkipWhitespaceLetters(s);
  }

  /** Trailing whitespace after a core changes nothing once collapsed and stripped. */
  lemma CollapseStripEnd(core: string, tail: string)
    requires core != [] && !IsWhitespace(core[|core| - 1]) && AllWhitespace(tail)
    ensures Strip(CollapseWhitespace(core + tail)) == Strip(CollapseWhitespace(core))
  {
    if tail == [] {
      ConcatNil(core);
    } else {
      CollapseRun(core, tail, []);
      ConcatNil(core + tail);
      CollapseLast(core);
      StripTrailingSpaceOf(CollapseWhitespace(core + tail), CollapseWhitespace(core));
    }
  }

  lemma StripTrailingSpaceOf(y: string, x: string)
    requires x != [] && !IsWhitespace(x[|x| - 1])
    requires y == x + " " + []
    ensures Strip(y) == Strip(x)
  {
    ConcatNil(x + " ");
    StripTrailingSpace(x);
  }

  /** Leading whitespace before a core changes nothing once collapsed and stripped. */
  lemma CollapseStripStart(head: string, core: string)
    requires core != [] && !IsWhitespace(core[0]) && AllWhitespace(head)
    requires head != []
    ensures Strip(CollapseWhitespace(head + core)) == Strip(CollapseWhitespace(core))
  {
    CollapseRun([], head, core);
    NilConcat(head + core);
    NilConcat(head);
    StripLeadingSpace(CollapseWhitespace(core));
  }

  lemma ConcatNil(x: string)
    ensures x + [] == x
  {
  }

  lemma NilConcat(x: string)
    ensures [] + x == x
  {
  }

  lemma AllWhitespaceConcat(u: string, v: string)
    requires AllWhitespace(u) && AllWhitespace(v)
    ensures AllWhitespace(u + v)
  {
    forall i | 0 <= i < |u + v| ensures IsWhitespace((u + v)[i]) {
      if i >= |u| { assert (u + v)[i] == v[i - |u|]; }
    }
  }

  /**
   * Collapsing and stripping text with a whitespace run between two pieces
   * that have letters: the pieces' results joined by one space.
   */
  lemma CollapseStripJoin(a: string, w: string, b: string)
    requires w != [] && AllWhitespace(w) && Letters(a) != [] && Letters(b) != []
    ensures Strip(CollapseWhitespace(a + w + b))
         == Strip(CollapseWhitespace(a)) + " " + Strip(CollapseWhitespace(b))
  {
    var a1, ta := SplitTrailing(a);
    var hb, b1 := SplitLeading(b);
    var m := ta + w + hb;
    AllWhitespaceConcat(ta, w);
    AllWhitespaceConcat(ta + w, hb);
    Regroup(a1, ta, w, hb, b1);
    CollapseStripMiddle(a1, m, b1);
    CollapseStripEnd(a1, ta);
    CollapseStripAfter(hb, b1);
  }

  /** `CollapseStripJoin` once the whitespace around the run is part of the run. */
  lemma CollapseStripMiddle(a: string, m: string, b: string)
    requires m != [] && AllWhitespace(m)
    requires a != [] && !IsWhitespace(a[|a| - 1])
    requires b != [] && !IsWhitespace(b[0])
    ensures Strip(CollapseWhitespace(a + m + b))
         == Strip(CollapseWhitespace(a)) + " " + Strip(CollapseWhitespace(b))
  {
    CollapseRun(a, m, b);
    CollapseLast(a);
    CollapseFirst(b);
    StripJoin(CollapseWhitespace(a), CollapseWhitespace(b));
  }

  /** `CollapseStripStart`, also for no leading whitespace at all. */
  lemma CollapseStripAfter(head: string, core: string)
    requires core != [] && !IsWhitespace(core[0]) && AllWhitespace(head)
    ensures Strip(CollapseWhitespace(head + core)) == Strip(CollapseWhitespace(core))
  {
    if head == [] {
      NilConcat(core);
    } else {
      CollapseStripStart(head, core);
    }
  }

  lemma Regroup(a: string, ta: string, w: string, hb: string, b: string)
    ensures (a + ta) + w + (hb + b) == a + (ta + w + hb) + b
  {
  }


  /**
   * `clean_text` keeps word boundaries: two pieces with letters, separated by
   * any run of whitespace, come out cleaned and joined by exactly one space.
   */
  lemma NormalizeSplit(a: string, w: string, b: string)
    requires w != [] && AllWhitespace(w) && Letters(a) != [] && Letters(b) != []
    ensures Normalize(a + w + b) == Normalize(a) + " " + Normalize(b)
  {
    var ka := KeepLettersAndWhitespace(a);
    var kb := KeepLettersAndWhitespace(b);
    KeepSplit(a, w, b);
    KeepLetters(a);
    KeepLetters(b);
    CollapseStripJoin(ka, w, kb);
    LowerJoin(Strip(CollapseWhitespace(ka)), Strip(CollapseWhitespace(kb)));
  }

  /** The character filter keeps a whitespace run between two pieces. */
  lemma KeepSplit(a: string, w: string, b: string)
    requires AllWhitespace(w)
    ensures KeepLettersAndWhitespace(a + w + b)
         == KeepLettersAndWhitespace(a) + w + KeepLettersAndWhitespace(b)
  {
    KeepAppend(a + w, b);
    KeepAppend(a, w);
    KeepWhitespace(w);
  }

  lemma LowerJoin(x: string, y: string)
    ensures Lower(x + " " + y) == Lower(x) + " " + Lower(y)
  {
    LowerAppend(x + " ", y);
    LowerAppend(x, " ");
  }

  /** A piece without whitespace comes out as its letters, lower-cased. */
  lemma NormalizeWord(s: string)
    requires forall i :: 0 <= i < |s| ==> !IsWhitespace(s[i])
    ensures Normalize(s) == Lower(Letters(s))
  {
    KeepWord(s);
    var k := Letters(s);
    LettersNotWhitespace(s);
    CollapseWord(k);
    StripFixed(k);
  }

  lemma {:induction false} LettersNotWhitespace(s: string)
    ensures forall i :: 0 <= i < |Letters(s)| ==> !IsWhitespace(Letters(s)[i])
  {
    if s != [] {
      LettersNotWhitespace(s[1..]);
      var h := if IsAsciiLetter(s[0]) then [s[0]] else [];
      assert Letters(s) == h + Letters(s[1..]);
      if IsAsciiLetter(s[0]) {
        AsciiLetterNotWhitespace(s[0]);
      }
      forall i | 0 <= i < |Letters(s)| ensures !IsWhitespace(Letters(s)[i]) {
        if i >= |h| { assert Letters(s)[i] == Letters(s[1..])[i - |h|]; }
      }
    }
  }

  lemma AsciiLetterNotWhitespace(c: char)
    requires IsAsciiLetter(c)
    ensures !IsWhitespace(c)
  {
  }

  // ---------------------------------------------------------------------
  // Normalised text is a fixed point

  lemma {:induction false} KeepFixed(s: string)
    requires forall i :: 0 <= i < |s| ==> 'a' <= s[i] <= 'z' || s[i] == ' '
    ensures KeepLettersAndWhitespace(s) == s
  {
    if s != [] {
      KeepFixed(s[1..]);
    }
  }

  lemma {:induction false} CollapseFixed(s: string)
    requires forall i :: 0 <= i < |s| ==> 'a' <= s[i] <= 'z' || s[i] == ' '
    requires forall i :: 0 <= i < |s| - 1 && s[i] == ' ' ==> s[i + 1] != ' '
    ensures CollapseWhitespace(s) == s
    decreases |s|
  {
    if s != [] {
      var t := s[1..];
      assert forall i :: 0 <= i < |t| ==> t[i] == s[i + 1];
      CollapseFixed(t);
      CollapseStep(s);
      assert s == [s[0]] + t;
    }
  }

  /** A letter, or a single space before a letter, collapses to itself. */
  lemma CollapseStep(s: string)
    requires s != [] && ('a' <= s[0] <= 'z' || s[0] == ' ')
    requires s[0] == ' ' && |s| > 1 ==> 'a' <= s[1] <= 'z'
    ensures CollapseWhitespace(s) == [s[0]] + CollapseWhitespace(s[1..])
  {
    if s[0] == ' ' {
      if |s| > 1 {
        LetterNotWhitespace(s[1]);
      }
      assert SkipWhitespace(s[1..]) == s[1..];
      assert SkipWhitespace(s) == s[1..];
    } else {
      LetterNotWhitespace(s[0]);
    }
  }

  lemma LetterNotWhitespace(c: char)
    requires 'a' <= c <= 'z'
    ensures !IsWhitespace(c)
  {
  }

  lemma StripFixed(s: string)
    requires s != [] ==> !IsWhitespace(s[0]) && !IsWhitespace(s[|s| - 1])
    ensures Strip(s) == s
  {
    assert SkipWhitespace(s) == s;
  }

  lemma LowerFixed(s: string)
    requires forall i :: 0 <= i < |s| ==> 'a' <= s[i] <= 'z' || s[i] == ' '
    ensures Lower(s) == s
  {
    var r := Lower(s);
    assert forall i :: 0 <= i < |s| ==> r[i] == s[i];
  }

  /** Text that is already normalised comes back unchanged. */
  lemma NormalizeFixed(s: string)
    requires IsNormalized(s)
    ensures Normalize(s) == s
  {
    KeepFixed(s);
    CollapseFixed(s);
    if s != [] {
      assert 'a' <= s[0] <= 'z' && 'a' <= s[|s| - 1] <= 'z';
    }
    StripFixed(s);
    LowerFixed(s);
  }

  /** Cleaning twice is cleaning once. */
  lemma NormalizeIdempotent(text: string)
    ensures Normalize(Normalize(text)) == Normalize(text)
  {
    NormalizeIsNormalized(text);
    NormalizeFixed(Normalize(text));
  }

  /**
   * `clean_text` yields "" exactly when the parser fails or the extracted
   * text has no ASCII letter: whitespace, digits and punctuation alone
   * clean to nothing.
   */
  lemma CleanTextEmptyIff(html: string, extract: string -> Option<string>)
    ensures CleanText(html, extract) == "" <==>
      extract(html).None? || Letters(extract(html).value) == ""
  {
    var r := CleanText(html, extract);
    if r != "" {
      assert 'a' <= r[0] <= 'z';
      assert Letters(r) != "";
    }
  }
}
