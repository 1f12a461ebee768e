/** String helpers of daikanban/utils.py: prefix matching of commands, number words,
    snake case and rich style markup. Characters are classified on the ASCII range. */
module Utils {

  // ---------------------------------------------------------------------------
  // Character classes
  // ---------------------------------------------------------------------------

  /** Whitespace as `str.strip()` and `str.isspace()` see it, on ASCII. */
  predicate IsSpace(c: char) {
    c == ' ' || c == '\t' || c == '\n' || c == '\r' || c == '\U{000B}' || c == '\U{000C}'
    || ('\U{001C}' <= c <= '\U{001F}')
  }

  predicate IsAsciiUpper(c: char) { 'A' <= c <= 'Z' }

  predicate IsAsciiLower(c: char) { 'a' <= c <= 'z' }

  predicate IsDigit(c: char) { '0' <= c <= '9' }

  /** A regex word character (`\w`): letter, digit or underscore. */
  predicate IsWordChar(c: char) { IsAsciiUpper(c) || IsAsciiLower(c) || IsDigit(c) || c == '_' }

  function LowerChar(c: char): (r: char)
    ensures !IsAsciiUpper(r)
    ensures IsWordChar(r) <==> IsWordChar(c)
    ensures !IsAsciiUpper(c) ==> r == c
  {
    if IsAsciiUpper(c) then (c as int + 32) as char else c
  }

  function UpperChar(c: char): (r: char)
    ensures !IsAsciiLower(r)
    ensures !IsAsciiLower(c) ==> r == c
  {
    if IsAsciiLower(c) then (c as int - 32) as char else c
  }

  /** The string lower-cased (ASCII letters only). */
  function Lower(s: string): (r: string)
    ensures |r| == |s|
    ensures forall i :: 0 <= i < |s| ==> r[i] == LowerChar(s[i])
  {
    seq(|s|, i requires 0 <= i < |s| => LowerChar(s[i]))
  }

  // ---------------------------------------------------------------------------
  // strip()
  // ---------------------------------------------------------------------------

  function LStrip(s: string): (r: string)
    ensures |r| <= |s| && r == s[|s| - |r|..]
    ensures r == [] || !IsSpace(r[0])
    ensures forall i :: 0 <= i < |s| - |r| ==> IsSpace(s[i])
  {
    if s != [] && IsSpace(s[0]) then LStrip(s[1..]) else s
  }

  function RStrip(s: string): (r: string)
    ensures |r| <= |s| && r == s[..|r|]
    ensures r == [] || !IsSpace(r[|r| - 1])
    ensures forall i :: |r| <= i < |s| ==> IsSpace(s[i])
  {
    if s != [] && IsSpace(s[|s| - 1]) then RStrip(s[..|s| - 1]) else s
  }

  /** `s.strip()`: the input without its leading and trailing whitespace. It is empty
      exactly when the input is all whitespace. */
  function Strip(s: string): (r: string)
    ensures r == [] || (!IsSpace(r[0]) && !IsSpace(r[|r| - 1]))
    ensures r == [] <==> forall i :: 0 <= i < |s| ==> IsSpace(s[i])
    ensures |r| <= |s|
  {
    var l := LStrip(s);
    var r := RStrip(l);
    assert r != [] ==> r[0] == l[0];
    assert r == [] ==> l == [];
    r
  }

  /** The stripped text is a slice of the input with only whitespace cut on either side. */
  lemma StripIsTrimmedSlice(s: string)
    ensures exists i, j ::
              && 0 <= i <= j <= |s| && Strip(s) == s[i..j]
              && (forall k :: 0 <= k < i ==> IsSpace(s[k]))
              && (forall k :: j <= k < |s| ==> IsSpace(s[k]))
  {
    var l := LStrip(s);
    var r := RStrip(l);
    var i := |s| - |l|;
    var j := i + |r|;
    assert r == s[i..j];
    forall k | j <= k < |s| ensures IsSpace(s[k]) {
      assert s[k] == l[k - i];
    }
  }

  lemma {:induction false} StripOfNoSpaceEnds(s: string)
    requires s == [] || (!IsSpace(s[0]) && !IsSpace(s[|s| - 1]))
    ensures Strip(s) == s
  {
    assert LStrip(s) == s;
  }

  // ---------------------------------------------------------------------------
  // prefix_match (daikanban/utils.py:35-38)
  // ---------------------------------------------------------------------------

  /** Whether the token has at least `minlen` characters and abbreviates `target` (the
      source's slice is clamped to the target's length, so a longer token never matches). */
  function PrefixMatch(token: string, target: string, minlen: int): (r: bool)
    ensures r <==> minlen <= |token| <= |target| && target[..|token|] == token
    ensures r && |token| > 0 ==> token[0] == target[0]
  {
    var n := |token|;
    n >= minlen && target[..if n <= |target| then n else |target|] == token
  }

  // ---------------------------------------------------------------------------
  // convert_number_words_to_digits (daikanban/utils.py:40-55)
  // ---------------------------------------------------------------------------

  const NumberWords: map<string, string> := map[
    "zero" := "0", "one" := "1", "two" := "2", "three" := "3", "four" := "4",
    "five" := "5", "six" := "6", "seven" := "7", "eight" := "8", "nine" := "9"]

  lemma NumberWordsShape()
    ensures forall w :: w in NumberWords ==> |w| >= 3 && |NumberWords[w]| == 1
    ensures forall w, i :: w in NumberWords && 0 <= i < |w| ==> IsAsciiLower(w[i])
  {
  }

  /** Length of the leading run of word characters. */
  function WordLen(s: string): (n: nat)
    ensures n <= |s|
    ensures forall i :: 0 <= i < n ==> IsWordChar(s[i])
    ensures n == |s| || !IsWordChar(s[n])
  {
    if s != [] && IsWordChar(s[0]) then 1 + WordLen(s[1..]) else 0
  }

  /** The number word `w` matches at `i` with a word boundary (`\b`) on both sides. */
  predicate MatchesAt(s: string, i: nat, w: string) {
    && i + |w| <= |s|
    && s[i..i + |w|] == w
    && (i == 0 || !IsWordChar(s[i - 1]))
    && (i + |w| == |s| || !IsWordChar(s[i + |w|]))
  }

  /** One of the words zero to nine, as a whole word, starts at `i`. */
  predicate NumberWordAt(s: string, i: nat) {
    exists w :: w in NumberWords && MatchesAt(s, i, w)
  }

  /** `re.sub` of that pattern: each whole word that is a number word becomes its digit;
      the scan takes a whole word at a time, so a number word inside a longer word stays. */
  function ConvertNumberWordsToDigits(s: string): (r: string)
    ensures |r| <= |s|
    decreases |s|
  {
    if s == [] then []
    else if IsWordChar(s[0]) then
      var n := WordLen(s);
      var w := s[..n];
      (if w in NumberWords then NumberWords[w] else w) + ConvertNumberWordsToDigits(s[n..])
    else
      [s[0]] + ConvertNumberWordsToDigits(s[1..])
  }

  /** A match in a suffix that starts after a non-word character is a match in the whole. */
  lemma NumberWordAtShiftUp(s: string, k: nat, i: nat)
    requires k <= |s|
    requires NumberWordAt(s[k..], i)
    requires i > 0 || k == 0 || !IsWordChar(s[k - 1])
    ensures NumberWordAt(s, k + i)
  {
    var w :| w in NumberWords && MatchesAt(s[k..], i, w);
    assert s[k + i..k + i + |w|] == s[k..][i..i + |w|];
    assert MatchesAt(s, k + i, w);
  }

  /** A match in the whole that starts strictly inside a suffix is a match in the suffix. */
  lemma NumberWordAtShiftDown(s: string, k: nat, i: nat)
    requires k + i <= |s| && i > 0
    requires NumberWordAt(s, k + i)
    ensures NumberWordAt(s[k..], i)
  {
    var w :| w in NumberWords && MatchesAt(s, k + i, w);
    assert s[k..][i..i + |w|] == s[k + i..k + i + |w|];
    assert MatchesAt(s[k..], i, w);
  }

  /** No number word can start at a non-word character. */
  lemma NoNumberWordAtNonWord(s: string, i: nat)
    requires i < |s| && !IsWordChar(s[i])
    ensures !NumberWordAt(s, i)
  {
    NumberWordsShape();
    forall w | w in NumberWords ensures !MatchesAt(s, i, w) {
      if i + |w| <= |s| && s[i..i + |w|] == w {
        assert s[i..i + |w|][0] == s[i];
      }
    }
  }

  /** No number word starts at the end of a string. */
  lemma NoNumberWordAtEnd(s: string)
    ensures !NumberWordAt(s, |s|)
  {
    NumberWordsShape();
  }

  /** A number word at the start of a string is exactly its first word. */
  lemma NumberWordAtStart(s: string, w: string)
    requires w in NumberWords && MatchesAt(s, 0, w)
    ensures WordLen(s) == |w| && s[..WordLen(s)] == w
  {
    NumberWordsShape();
    var n := WordLen(s);
    assert forall j :: 0 <= j < |w| ==> s[j] == w[j];
  }

  /** A number word never starts inside or right after the first word of a string. */
  lemma NumberWordAfterFirstWord(s: string, i: nat)
    requires s != [] && IsWordChar(s[0]) && 0 < i <= |s|
    requires NumberWordAt(s, i)
    ensures i > WordLen(s)
  {
    var w :| w in NumberWords && MatchesAt(s, i, w);
    assert !IsWordChar(s[i - 1]);
  }

  /** Strings whose words are none of zero..nine are returned unchanged ('abc', '1 day',
      'tone day', 'zeroday'). */
  lemma {:induction false} ConvertWithoutNumberWords(s: string)
    requires forall i :: 0 <= i <= |s| ==> !NumberWordAt(s, i)
    ensures ConvertNumberWordsToDigits(s) == s
    decreases |s|
  {
    if s == [] {
    } else if IsWordChar(s[0]) {
      var n := WordLen(s);
      var w := s[..n];
      var rest := s[n..];
      if w in NumberWords {
        assert MatchesAt(s, 0, w);
        assert NumberWordAt(s, 0);
        assert false;
      }
      forall i | 0 <= i <= |rest| ensures !NumberWordAt(rest, i) {
        if i == 0 && rest != [] {
          NoNumberWordAtNonWord(rest, 0);
        } else if i == 0 {
          NoNumberWordAtEnd(rest);
        } else if NumberWordAt(rest, i) {
          NumberWordAtShiftUp(s, n, i);
        }
      }
      ConvertWithoutNumberWords(rest);
      assert s == w + rest;
    } else {
      var rest := s[1..];
      forall i | 0 <= i <= |rest| ensures !NumberWordAt(rest, i) {
        if NumberWordAt(rest, i) {
          NumberWordAtShiftUp(s, 1, i);
        }
      }
      ConvertWithoutNumberWords(rest);
      assert s == [s[0]] + rest;
    }
  }

  /** A whole number word anywhere makes the result strictly shorter, so it is replaced. */
  lemma {:induction false} ConvertShortensNumberWord(s: string, i: nat)
    requires i <= |s| && NumberWordAt(s, i)
    ensures |ConvertNumberWordsToDigits(s)| < |s|
    decreases |s|, 1
  {
    NoNumberWordAtEnd(s);
    assert s != [];
    if !IsWordChar(s[0]) {
      ConvertShortensAfterNonWord(s, i);
    } else if i == 0 {
      var w :| w in NumberWords && MatchesAt(s, 0, w);
      ConvertShortensLeadingNumberWord(s, w);
    } else {
      ConvertShortensAfterFirstWord(s, i);
    }
  }

  /** The number word lies after the first word: the rest of the scan shortens. */
  lemma {:induction false} ConvertShortensAfterFirstWord(s: string, i: nat)
    requires s != [] && IsWordChar(s[0]) && 0 < i <= |s| && NumberWordAt(s, i)
    ensures |ConvertNumberWordsToDigits(s)| < |s|
    decreases |s|, 0
  {
    var n := WordLen(s);
    NumberWordAfterFirstWord(s, i);
    NumberWordAtShiftDown(s, n, i - n);
    ConvertShortensNumberWord(s[n..], i - n);
    NumberWordsShape();
    assert |ConvertNumberWordsToDigits(s)| <= n + |ConvertNumberWordsToDigits(s[n..])|;
  }

  /** The string starts with a non-word character, which is kept: the rest shortens. */
  lemma {:induction false} ConvertShortensAfterNonWord(s: string, i: nat)
    requires s != [] && !IsWordChar(s[0]) && i <= |s| && NumberWordAt(s, i)
    ensures |ConvertNumberWordsToDigits(s)| < |s|
    decreases |s|, 0
  {
    if i == 0 {
      NoNumberWordAtNonWord(s, 0);
    } else if i == 1 {
      ShiftDownAfterNonWord(s);
      ConvertShortensNumberWord(s[1..], 0);
    } else {
      NumberWordAtShiftDown(s, 1, i - 1);
      ConvertShortensNumberWord(s[1..], i - 1);
    }
    assert ConvertNumberWordsToDigits(s) == [s[0]] + ConvertNumberWordsToDigits(s[1..]);
  }

  /** A number word as the first word becomes its single digit. */
  lemma ConvertShortensLeadingNumberWord(s: string, w: string)
    requires w in NumberWords && MatchesAt(s, 0, w)
    ensures |ConvertNumberWordsToDigits(s)| < |s|
  {
    NumberWordAtStart(s, w);
    NumberWordsShape();
    assert ConvertNumberWordsToDigits(s) == NumberWords[w] + ConvertNumberWordsToDigits(s[|w|..]);
  }

  lemma ShiftDownAfterNonWord(s: string)
    requires s != [] && !IsWordChar(s[0]) && NumberWordAt(s, 1)
    ensures NumberWordAt(s[1..], 0)
  {
    var w :| w in NumberWords && MatchesAt(s, 1, w);
    assert s[1..][0..|w|] == s[1..1 + |w|];
    assert MatchesAt(s[1..], 0, w);
  }

  /** One step of the scan over a whole word followed by a non-word character or the end. */
  lemma ConvertWordStep(w: string, rest: string)
    requires w != [] && forall i :: 0 <= i < |w| ==> IsWordChar(w[i])
    requires rest == [] || !IsWordChar(rest[0])
    ensures ConvertNumberWordsToDigits(w + rest)
         == (if w in NumberWords then NumberWords[w] else w) + ConvertNumberWordsToDigits(rest)
  {
    var s := w + rest;
    assert WordLen(s) == |w| by {
      assert forall i :: 0 <= i < |w| ==> s[i] == w[i];
      assert |w| == |s| || s[|w|] == rest[0];
    }
    assert s[..|w|] == w && s[|w|..] == rest;
  }

  /** One step of the scan over a non-word character. */
  lemma ConvertNonWordStep(c: char, rest: string)
    requires !IsWordChar(c)
    ensures ConvertNumberWordsToDigits([c] + rest) == [c] + ConvertNumberWordsToDigits(rest)
  {
    assert ([c] + rest)[1..] == rest;
  }

  /** ' day' has no number word, so it is kept. */
  lemma ConvertExampleSpaceDay()
    ensures ConvertNumberWordsToDigits(" day") == " day"
  {
    ConvertWordStep("day", "");
    assert "day" + "" == "day";
    ConvertNonWordStep(' ', "day");
    assert [' '] + "day" == " day";
  }

  /** From tests/test_utils.py: 'one day' becomes '1 day'. */
  lemma ConvertExampleOneDay()
    ensures ConvertNumberWordsToDigits("one" + " day") == "1" + " day"
  {
    ConvertExampleSpaceDay();
    NumberWordOne();
    ConvertWordStep("one", " day");
  }

  /** 'one' is a word of word characters, mapped to '1'. */
  lemma NumberWordOne()
    ensures "one" in NumberWords && NumberWords["one"] == "1"
    ensures forall i :: 0 <= i < |"one"| ==> IsWordChar("one"[i])
  {
  }

  /** From tests/test_utils.py: a number word inside a longer word is left alone. */
  lemma ConvertExampleEmbedded()
    ensures ConvertNumberWordsToDigits("zeroday") == "zeroday"
  {
    ConvertWordStep("zeroday", "");
  }

  /** The conversion changes a string exactly when some whole word is a number word. */
  lemma ConvertUnchangedIff(s: string)
    ensures ConvertNumberWordsToDigits(s) == s <==> forall i :: 0 <= i <= |s| ==> !NumberWordAt(s, i)
  {
    if forall i :: 0 <= i <= |s| ==> !NumberWordAt(s, i) {
      ConvertWithoutNumberWords(s);
    } else {
      var i :| 0 <= i <= |s| && NumberWordAt(s, i);
      ConvertShortensNumberWord(s, i);
    }
  }

  // ---------------------------------------------------------------------------
  // to_snake_case (daikanban/utils.py:30-33)
  // ---------------------------------------------------------------------------

  /** The string without its single and double quote characters. */
  function RemoveQuotes(s: string): (r: string)
    ensures forall c :: c in r ==> c in s && c != '"' && c != '\''
    ensures forall c :: c in s && c != '"' && c != '\'' ==> c in r
    ensures (forall i :: 0 <= i < |s| ==> s[i] != '"' && s[i] != '\'') ==> r == s
  {
    if s == [] then []
    else
      assert forall c :: c in s[1..] ==> c in s;
      (if s[0] == '"' || s[0] == '\'' then [] else [s[0]]) + RemoveQuotes(s[1..])
  }

  /** Quotes are dropped one character at a time, so the other characters keep their order. */
  lemma {:induction false} RemoveQuotesAppend(a: string, b: string)
    ensures RemoveQuotes(a + b) == RemoveQuotes(a) + RemoveQuotes(b)
  {
    if a != [] {
      assert (a + b)[0] == a[0] && (a + b)[1..] == a[1..] + b;
      RemoveQuotesAppend(a[1..], b);
    } else {
      assert a + b == b;
    }
  }

  /** Length of the leading run of non-word characters. */
  function NonWordLen(s: string): (n: nat)
    ensures n <= |s|
    ensures forall i :: 0 <= i < n ==> !IsWordChar(s[i])
    ensures n == |s| || IsWordChar(s[n])
  {
    if s != [] && !IsWordChar(s[0]) then 1 + NonWordLen(s[1..]) else 0
  }

  /** Every maximal run of non-word characters replaced by one '_'. */
  function CollapseNonWord(s: string): (r: string)
    ensures forall c :: c in r ==> IsWordChar(c)
    ensures (forall c :: c in s ==> IsWordChar(c)) ==> r == s
    decreases |s|
  {
    if s == [] then []
    else if IsWordChar(s[0]) then [s[0]] + CollapseNonWord(s[1..])
    else "_" + CollapseNonWord(s[NonWordLen(s)..])
  }

  /** `to_snake_case`: quotes removed, surrounding whitespace stripped, non-word runs joined
      by '_', lower-cased. The result holds only lower-case word characters. */
  function ToSnakeCase(name: string): (r: string)
    ensures forall c :: c in r ==> IsWordChar(c) && !IsAsciiUpper(c)
  {
    Lower(CollapseNonWord(Strip(RemoveQuotes(name))))
  }

  /** A leading run of word characters is copied as it is. */
  lemma {:induction false} CollapseWordPrefix(w: string, rest: string)
    requires forall i :: 0 <= i < |w| ==> IsWordChar(w[i])
    ensures CollapseNonWord(w + rest) == w + CollapseNonWord(rest)
  {
    if w != [] {
      assert (w + rest)[0] == w[0] && (w + rest)[1..] == w[1..] + rest;
      CollapseWordPrefix(w[1..], rest);
    } else {
      assert w + rest == rest;
    }
  }

  /** A whole run of non-word characters, up to a word character or the end, becomes one '_'. */
  lemma CollapseSeparator(sep: string, rest: string)
    requires sep != [] && forall i :: 0 <= i < |sep| ==> !IsWordChar(sep[i])
    requires rest == [] || IsWordChar(rest[0])
    ensures CollapseNonWord(sep + rest) == "_" + CollapseNonWord(rest)
  {
    var s := sep + rest;
    assert NonWordLen(s) == |sep| by {
      assert forall i :: 0 <= i < |sep| ==> s[i] == sep[i];
      assert |sep| == |s| || s[|sep|] == rest[0];
    }
    assert s[|sep|..] == rest;
  }

  /** On a quote-free string without whitespace at its ends, snake case only collapses the
      separator runs and lower-cases. */
  lemma ToSnakeCaseOfTrimmed(s: string)
    requires forall i :: 0 <= i < |s| ==> s[i] != '"' && s[i] != '\''
    requires s == [] || (!IsSpace(s[0]) && !IsSpace(s[|s| - 1]))
    ensures ToSnakeCase(s) == Lower(CollapseNonWord(s))
  {
    assert RemoveQuotes(s) == s;
    StripOfNoSpaceEnds(s);
  }

  /** A run of word characters becomes its lower case. */
  lemma ToSnakeCaseOfWord(w: string)
    requires forall i :: 0 <= i < |w| ==> IsWordChar(w[i])
    ensures ToSnakeCase(w) == Lower(w)
  {
    ToSnakeCaseOfTrimmed(w);
    assert forall c :: c in w ==> IsWordChar(c);
    assert CollapseNonWord(w) == w;
  }

  /** Two words around a separator run collapse to the words joined by one '_'. */
  lemma CollapseJoin(a: string, sep: string, b: string)
    requires forall i :: 0 <= i < |a| ==> IsWordChar(a[i])
    requires forall i :: 0 <= i < |b| ==> IsWordChar(b[i])
    requires sep != [] && forall i :: 0 <= i < |sep| ==> !IsWordChar(sep[i])
    ensures CollapseNonWord(a + sep + b) == a + "_" + b
  {
    CollapseWordPrefix(a, sep + b);
    assert a + sep + b == a + (sep + b);
    assert CollapseNonWord(a + (sep + b)) == a + CollapseNonWord(sep + b);
    CollapseSeparator(sep, b);
    assert CollapseNonWord(sep + b) == "_" + CollapseNonWord(b);
    assert forall c :: c in b ==> IsWordChar(c);
    assert CollapseNonWord(b) == b;
  }

  /** Lower-casing works character by character. */
  lemma LowerJoin(a: string, b: string)
    ensures Lower(a + "_" + b) == Lower(a) + "_" + Lower(b)
  {
    assert Lower(a + "_" + b) == Lower(a) + "_" + Lower(b);
  }

  /** Two words joined by a run of separators (no word character, no quote, no whitespace at
      its ends) give the two snake-cased words joined by a single '_'. */
  lemma ToSnakeCaseJoin(a: string, sep: string, b: string)
    requires forall i :: 0 <= i < |a| ==> IsWordChar(a[i])
    requires forall i :: 0 <= i < |b| ==> IsWordChar(b[i])
    requires sep != [] && forall i :: 0 <= i < |sep| ==> !IsWordChar(sep[i]) && sep[i] != '"' && sep[i] != '\''
    requires !IsSpace(sep[0]) && !IsSpace(sep[|sep| - 1])
    ensures ToSnakeCase(a + sep + b) == ToSnakeCase(a) + "_" + ToSnakeCase(b)
  {
    var s := a + sep + b;
    forall i | 0 <= i < |s| ensures s[i] != '"' && s[i] != '\'' {
      if i < |a| { assert s[i] == a[i]; }
      else if i < |a| + |sep| { assert s[i] == sep[i - |a|]; }
      else { assert s[i] == b[i - |a| - |sep|]; }
    }
    assert s[0] == (if a != [] then a[0] else sep[0]);
    assert s[|s| - 1] == (if b != [] then b[|b| - 1] else sep[|sep| - 1]);
    ToSnakeCaseOfTrimmed(s);
    CollapseJoin(a, sep, b);
    LowerJoin(a, b);
    ToSnakeCaseOfWord(a);
    ToSnakeCaseOfWord(b);
  }

  lemma {:induction false} LowerOfNoUpper(s: string)
    requires forall c :: c in s ==> !IsAsciiUpper(c)
    ensures Lower(s) == s
  {
    assert forall i :: 0 <= i < |s| ==> s[i] in s;
  }

  /** A string of lower-case word characters is its own snake case. */
  lemma {:induction false} SnakeCaseFixedPoint(r: string)
    requires forall c :: c in r ==> IsWordChar(c) && !IsAsciiUpper(c)
    ensures ToSnakeCase(r) == r
  {
    assert forall i :: 0 <= i < |r| ==> r[i] in r;
    var q := RemoveQuotes(r);
    assert q == r;
    assert r != [] ==> r[0] in r && r[|r| - 1] in r;
    StripOfNoSpaceEnds(r);
    var t := Strip(q);
    assert t == r;
    var u := CollapseNonWord(t);
    assert u == r;
    LowerOfNoUpper(r);
  }

  /** Snake case is idempotent: a name already in snake case is left as it is. */
  lemma ToSnakeCaseIdempotent(name: string)
    ensures ToSnakeCase(ToSnakeCase(name)) == ToSnakeCase(name)
  {
    SnakeCaseFixedPoint(ToSnakeCase(name));
  }

  // ---------------------------------------------------------------------------
  // style_str and err_style (daikanban/utils.py:104-115)
  // ---------------------------------------------------------------------------

  /** The rich markup tag: 'bold C' or 'not bold C'. */
  function StyleTag(color: string, bold: bool): string {
    (if bold then "" else "not ") + "bold " + color
  }

  /** `style_str`: the value wrapped in an opening '[tag]' and a closing '[/]'. */
  function StyleStr(val: string, color: string, bold: bool): (r: string)
    ensures var open := "[" + StyleTag(color, bold) + "]";
      && |r| == |open| + |val| + 3
      && r[..|open|] == open
      && r[|open|..|r| - 3] == val
      && r[|r| - 3..] == "[/]"
  {
    "[" + StyleTag(color, bold) + "]" + val + "[/]"
  }

  /** The styled text gives back the value: styling with the same colour and weight is injective. */
  lemma StyleStrInjective(v1: string, v2: string, color: string, bold: bool)
    requires StyleStr(v1, color, bold) == StyleStr(v2, color, bold)
    ensures v1 == v2
  {
    var open := "[" + StyleTag(color, bold) + "]";
    var r := StyleStr(v1, color, bold);
    assert v1 == r[|open|..|r| - 3] == v2;
  }

  /** The first character upper-cased, the rest unchanged; empty stays empty. */
  function Capitalize(s: string): (r: string)
    ensures |r| == |s|
    ensures s != [] ==> r[0] == UpperChar(s[0]) && r[1..] == s[1..]
  {
    if s == [] then s else [UpperChar(s[0])] + s[1..]
  }

  /** `err_style`: the message with only its first character upper-cased, styled red and
      not bold; an empty message stays empty inside the markup. */
  function ErrStyle(msg: string): (r: string)
    ensures |r| == 14 + |msg| + 3
    ensures r[..14] == "[not bold red]" && r[|r| - 3..] == "[/]"
    ensures msg != [] ==> r[14] == UpperChar(msg[0]) && r[15..|r| - 3] == msg[1..]
    ensures msg == [] ==> r == "[not bold red][/]"
  {
    var inner := Capitalize(msg);
    var r := StyleStr(inner, "red", false);
    assert r[14..|r| - 3] == inner;
    assert msg != [] ==> r[14] == inner[0] && r[15..|r| - 3] == inner[1..];
    r
  }
}
