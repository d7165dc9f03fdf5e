/**
 * The parts of Python's runtime that the two parsers rely on: range lengths, list indexing,
 * str.split, str.strip, the substring test `in`, int() on decimal text and str() of an integer.
 */
module Builtins {
  import opened Results

  // ---------------------------------------------------------------- ranges and lists

  /** len(range(n)): no iterations at all when n is zero or negative. */
  function RangeLength(n: int): nat {
    if n > 0 then n else 0
  }

  /** A Python list of the given length accepts the index i, counting from the end when negative. */
  predicate IsValidIndex(length: nat, i: int) {
    -(length as int) <= i < length
  }

  /** The position a valid Python index designates. */
  function ResolveIndex(length: nat, i: int): (k: nat)
    requires IsValidIndex(length, i)
    ensures k < length
    ensures i >= 0 ==> k == i
    ensures i < 0 ==> k + (-i) == length
  {
    if i < 0 then length + i else i
  }

  /** The slice xs[k:], empty when k is past the end. */
  function From<T>(xs: seq<T>, k: nat): (r: seq<T>)
    ensures |r| == if k <= |xs| then |xs| - k else 0
    ensures forall i :: 0 <= i < |r| ==> r[i] == xs[k + i]
  {
    if k <= |xs| then xs[k..] else []
  }

  // ---------------------------------------------------------------- characters

  /** str.isspace for one character: the ASCII and Unicode whitespace Python splits and strips on. */
  predicate IsSpace(c: char) {
    var k := c as int;
    k == 0x20 || 0x09 <= k <= 0x0D || 0x1C <= k <= 0x1F || k == 0x85 || k == 0xA0 || k == 0x1680
    || 0x2000 <= k <= 0x200A || k == 0x2028 || k == 0x2029 || k == 0x202F || k == 0x205F || k == 0x3000
  }

  /** str.isalpha for one character, restricted to ASCII letters. */
  predicate IsLetter(c: char) {
    'a' <= c <= 'z' || 'A' <= c <= 'Z'
  }

  /** str.isalpha: a non-empty string made of letters only. */
  predicate IsAlpha(s: string) {
    |s| > 0 && forall i :: 0 <= i < |s| ==> IsLetter(s[i])
  }

  predicate IsDigit(c: char) {
    '0' <= c <= '9'
  }

  // ---------------------------------------------------------------- str.split()

  /** A word str.split() can produce: non-empty and free of whitespace. */
  predicate IsWord(t: string) {
    |t| > 0 && forall i :: 0 <= i < |t| ==> !IsSpace(t[i])
  }

  /** The length of the run of non-whitespace characters that starts s. */
  function WordLength(s: string): (n: nat)
    ensures n <= |s|
    ensures forall i :: 0 <= i < n ==> !IsSpace(s[i])
    ensures n == |s| || IsSpace(s[n])
  {
    if s == [] || IsSpace(s[0]) then 0 else 1 + WordLength(s[1..])
  }

  /** str.split() without arguments: the maximal runs of non-whitespace characters, in order. */
  function Split(s: string): (words: seq<string>)
    ensures forall k :: 0 <= k < |words| ==> IsWord(words[k])
    decreases |s|
  {
    if s == [] then []
    else if IsSpace(s[0]) then Split(s[1..])
    else
      var n := WordLength(s);
      [s[..n]] + Split(s[n..])
  }

  /** " ".join(words) */
  function JoinWords(words: seq<string>): string {
    if |words| == 0 then ""
    else if |words| == 1 then words[0]
    else words[0] + " " + JoinWords(words[1..])
  }

  lemma {:induction false} WordLengthOfWord(w: string, rest: string)
    requires IsWord(w)
    requires rest == [] || IsSpace(rest[0])
    ensures WordLength(w + rest) == |w|
  {
    if |w| == 1 {
      assert (w + rest)[1..] == rest;
    } else {
      assert (w + rest)[1..] == w[1..] + rest;
      WordLengthOfWord(w[1..], rest);
    }
  }

  /** Splitting words joined by single spaces gives the words back. */
  lemma {:induction false} SplitJoinWords(words: seq<string>)
    requires forall k :: 0 <= k < |words| ==> IsWord(words[k])
    ensures Split(JoinWords(words)) == words
  {
    if |words| == 0 {
    } else if |words| == 1 {
      var w := words[0];
      WordLengthOfWord(w, []);
      assert w + [] == w;
      assert w[..|w|] == w && w[|w|..] == [];
    } else {
      var w := words[0];
      var tail := JoinWords(words[1..]);
      var rest := " " + tail;
      var s := w + rest;
      assert JoinWords(words) == s;
      WordLengthOfWord(w, rest);
      assert s[..|w|] == w;
      assert s[|w|..] == rest;
      assert rest[1..] == tail;
      SplitJoinWords(words[1..]);
      assert Split(rest) == Split(tail);
      assert words == [w] + words[1..];
    }
  }

  predicate AllSpace(s: string) {
    forall i :: 0 <= i < |s| ==> IsSpace(s[i])
  }

  /** Text made only of whitespace holds no word. */
  lemma {:induction false} SplitAllSpace(w: string)
    requires AllSpace(w)
    ensures Split(w) == []
    decreases |w|
  {
    if w != [] {
      SplitAllSpace(w[1..]);
    }
  }

  /** Whitespace after the text does not change how it splits. */
  lemma {:induction false} SplitTrailingSpace(s: string, w: string)
    requires AllSpace(w)
    ensures Split(s + w) == Split(s)
    decreases |s|
  {
    var t := s + w;
    if s == [] {
      assert t == w;
      SplitAllSpace(w);
    } else if IsSpace(s[0]) {
      assert t[0] == s[0] && t[1..] == s[1..] + w;
      SplitTrailingSpace(s[1..], w);
    } else {
      var n := WordLength(s);
      assert t[0] == s[0];
      WordLengthOfWord(s[..n], s[n..] + w);
      assert t == s[..n] + (s[n..] + w);
      assert t[..n] == s[..n] && t[n..] == s[n..] + w;
      SplitTrailingSpace(s[n..], w);
    }
  }

  /** Whitespace before the text, a single character or a run of them, is skipped. */
  lemma {:induction false} SplitLeadingSpace(w: string, s: string)
    requires AllSpace(w)
    ensures Split(w + s) == Split(s)
    decreases |w|
  {
    if w == [] {
      assert w + s == s;
    } else {
      assert (w + s)[0] == w[0] && (w + s)[1..] == w[1..] + s;
      SplitLeadingSpace(w[1..], s);
    }
  }

  /**
   * A word ends at the first whitespace character or at the end of the text: it is the first word
   * of the split, and the rest is split on its own.
   */
  lemma SplitWordBefore(a: string, s: string)
    requires IsWord(a)
    requires s == [] || IsSpace(s[0])
    ensures Split(a + s) == [a] + Split(s)
  {
    var t := a + s;
    assert t[0] == a[0];
    WordLengthOfWord(a, s);
    assert t[..|a|] == a && t[|a|..] == s;
  }

  /** A word followed by a run of whitespace of any length: the run is one separator. */
  lemma SplitWordThenSpace(a: string, w: string, s: string)
    requires IsWord(a) && |w| > 0 && AllSpace(w)
    ensures Split(a + w + s) == [a] + Split(s)
  {
    assert a + w + s == a + (w + s);
    assert (w + s)[0] == w[0];
    SplitWordBefore(a, w + s);
    SplitLeadingSpace(w, s);
  }

  /** gaps[0] + words[0] + gaps[1] + words[1] + ...: words laid out with whitespace before each. */
  function Spaced(gaps: seq<string>, words: seq<string>): string
    requires |gaps| == |words|
  {
    if |words| == 0 then "" else gaps[0] + words[0] + Spaced(gaps[1..], words[1..])
  }

  /** A layout whose first gap is not empty starts with whitespace, whatever follows it. */
  lemma SpacedStart(gaps: seq<string>, words: seq<string>, trail: string)
    requires |gaps| == |words| > 0 && |gaps[0]| > 0 && AllSpace(gaps[0])
    ensures var t := Spaced(gaps, words) + trail; |t| > 0 && IsSpace(t[0])
  {
    assert Spaced(gaps, words) + trail == gaps[0] + (words[0] + Spaced(gaps[1..], words[1..]) + trail);
  }

  /** Whitespace, then a word, then text that starts with whitespace or is empty. */
  lemma SplitGapWord(gap: string, a: string, rest: string)
    requires AllSpace(gap) && IsWord(a)
    requires rest == [] || IsSpace(rest[0])
    ensures Split(gap + a + rest) == [a] + Split(rest)
  {
    assert gap + a + rest == gap + (a + rest);
    SplitLeadingSpace(gap, a + rest);
    SplitWordBefore(a, rest);
  }

  /**
   * str.split() gives back the words of any layout: leading whitespace of any length, runs of
   * whitespace of any non-zero length between the words and trailing whitespace of any length.
   */
  lemma {:induction false} SplitSpaced(gaps: seq<string>, words: seq<string>, trail: string)
    requires |gaps| == |words|
    requires forall k :: 0 <= k < |words| ==> IsWord(words[k]) && AllSpace(gaps[k])
    requires forall k :: 1 <= k < |gaps| ==> |gaps[k]| > 0
    requires AllSpace(trail)
    ensures Split(Spaced(gaps, words) + trail) == words
    decreases |words|
  {
    if |words| == 0 {
      assert Spaced(gaps, words) + trail == trail;
      SplitAllSpace(trail);
    } else {
      var gs, ws := gaps[1..], words[1..];
      var rest := Spaced(gs, ws) + trail;
      assert Spaced(gaps, words) + trail == gaps[0] + words[0] + rest;
      if |ws| > 0 {
        SpacedStart(gs, ws, trail);
      }
      SplitGapWord(gaps[0], words[0], rest);
      SplitSpaced(gs, ws, trail);
      assert words == [words[0]] + ws;
    }
  }

  // ---------------------------------------------------------------- str.strip()

  /** str.rstrip() */
  function RStrip(s: string): string {
    if s != [] && IsSpace(s[|s| - 1]) then RStrip(s[..|s| - 1]) else s
  }

  /** str.rstrip() keeps the longest prefix that does not end in whitespace. */
  lemma {:induction false} RStripSpec(s: string)
    ensures var r := RStrip(s);
      && r <= s
      && (r == [] || !IsSpace(r[|r| - 1]))
      && forall i :: |r| <= i < |s| ==> IsSpace(s[i])
    decreases |s|
  {
    if s != [] && IsSpace(s[|s| - 1]) {
      RStripSpec(s[..|s| - 1]);
    }
  }

  /** str.lstrip() */
  function LStrip(s: string): string {
    if s != [] && IsSpace(s[0]) then LStrip(s[1..]) else s
  }

  /** str.lstrip() keeps the longest suffix that does not start with whitespace. */
  lemma {:induction false} LStripSpec(s: string)
    ensures var r := LStrip(s);
      && |r| <= |s| && r == s[|s| - |r|..]
      && (r == [] || !IsSpace(r[0]))
      && forall i :: 0 <= i < |s| - |r| ==> IsSpace(s[i])
    decreases |s|
  {
    if s != [] && IsSpace(s[0]) {
      LStripSpec(s[1..]);
    }
  }

  /** str.strip() */
  function Strip(s: string): string {
    LStrip(RStrip(s))
  }

  /** str.rstrip() never changes what str.split() finds. */
  lemma SplitRStrip(s: string)
    ensures Split(RStrip(s)) == Split(s)
  {
    RStripSpec(s);
    var r := RStrip(s);
    var w := s[|r|..];
    assert s == r + w;
    SplitTrailingSpace(r, w);
  }

  lemma {:induction false} RStripTrailingSpace(s: string, w: string)
    requires AllSpace(w)
    ensures RStrip(s + w) == RStrip(s)
    decreases |w|
  {
    if w == [] {
      assert s + w == s;
    } else {
      var x := s + w;
      assert x[..|x| - 1] == s + w[..|w| - 1];
      RStripTrailingSpace(s, w[..|w| - 1]);
    }
  }

  lemma {:induction false} LStripLeadingSpace(w: string, s: string)
    requires AllSpace(w)
    ensures LStrip(w + s) == LStrip(s)
    decreases |w|
  {
    if w == [] {
      assert w + s == s;
    } else {
      assert (w + s)[1..] == w[1..] + s;
      LStripLeadingSpace(w[1..], s);
    }
  }

  // ---------------------------------------------------------------- str.split(sep)

  /** s.index(c) */
  function IndexOf(s: string, c: char): (i: nat)
    requires c in s
    ensures i < |s| && s[i] == c
    ensures forall k :: 0 <= k < i ==> s[k] != c
  {
    if s[0] == c then 0 else 1 + IndexOf(s[1..], c)
  }

  /** s.split(sep) for a one-character separator: the pieces between consecutive separators. */
  function SplitOn(s: string, sep: char): (pieces: seq<string>)
    ensures |pieces| >= 1
    ensures forall k :: 0 <= k < |pieces| ==> sep !in pieces[k]
    decreases |s|
  {
    if sep !in s then [s]
    else
      var i := IndexOf(s, sep);
      assert sep !in s[..i];
      [s[..i]] + SplitOn(s[i + 1..], sep)
  }

  /** sep.join(pieces) */
  function JoinOn(pieces: seq<string>, sep: char): string
    requires |pieces| >= 1
  {
    if |pieces| == 1 then pieces[0] else pieces[0] + [sep] + JoinOn(pieces[1..], sep)
  }

  /** Joining the pieces of a split with the separator restores the text. */
  lemma {:induction false} JoinSplitOn(s: string, sep: char)
    ensures JoinOn(SplitOn(s, sep), sep) == s
    decreases |s|
  {
    if sep in s {
      var i := IndexOf(s, sep);
      var pieces := SplitOn(s, sep);
      assert pieces[1..] == SplitOn(s[i + 1..], sep);
      JoinSplitOn(s[i + 1..], sep);
      assert s == s[..i] + [sep] + s[i + 1..];
    }
  }

  /** The first separator of p + [sep] + tail, when p has none, is the one after p. */
  lemma FirstSeparator(p: string, sep: char, tail: string)
    requires sep !in p
    ensures sep in p + [sep] + tail && IndexOf(p + [sep] + tail, sep) == |p|
  {
    var s := p + [sep] + tail;
    assert s[|p|] == sep;
    assert forall k :: 0 <= k < |p| ==> s[k] == p[k];
  }

  /** Splitting separator-free pieces joined with the separator gives the pieces back. */
  lemma {:induction false} SplitJoinOn(pieces: seq<string>, sep: char)
    requires |pieces| >= 1
    requires forall k :: 0 <= k < |pieces| ==> sep !in pieces[k]
    ensures SplitOn(JoinOn(pieces, sep), sep) == pieces
  {
    if |pieces| > 1 {
      var p := pieces[0];
      var tail := JoinOn(pieces[1..], sep);
      var s := p + [sep] + tail;
      assert JoinOn(pieces, sep) == s;
      assert sep !in p;
      FirstSeparator(p, sep, tail);
      assert s[..|p|] == p && s[|p| + 1..] == tail;
      assert SplitOn(s, sep) == [p] + SplitOn(tail, sep);
      SplitJoinOn(pieces[1..], sep);
      assert pieces == [p] + pieces[1..];
    }
  }

  /** The first piece runs from the start of the text up to the first separator, or to its end. */
  lemma FirstPiece(s: string, sep: char)
    ensures var piece := SplitOn(s, sep)[0];
      && |piece| <= |s| && piece == s[..|piece|]
      && (if sep in s then |piece| < |s| && s[|piece|] == sep else |piece| == |s|)
  {
    if sep in s {
      var i := IndexOf(s, sep);
      assert SplitOn(s, sep)[0] == s[..i];
    }
  }

  /**
   * s.split(sep)[1] exists exactly when the text holds a separator, and then it is the text after
   * the first separator, up to the second separator or to the end.
   */
  lemma SecondPiece(s: string, sep: char)
    ensures |SplitOn(s, sep)| >= 2 <==> sep in s
    ensures sep in s ==>
      var start := IndexOf(s, sep) + 1;
      var piece := SplitOn(s, sep)[1];
      && start + |piece| <= |s| && piece == s[start..start + |piece|]
      && (start + |piece| == |s| || s[start + |piece|] == sep)
  {
    if sep in s {
      var i := IndexOf(s, sep);
      var rest := s[i + 1..];
      assert SplitOn(s, sep)[1] == SplitOn(rest, sep)[0];
      FirstPiece(rest, sep);
      var piece := SplitOn(rest, sep)[0];
      assert s[i + 1..i + 1 + |piece|] == rest[..|piece|];
    }
  }

  // ---------------------------------------------------------------- the substring test `part in text`

  predicate OccursAt(text: string, part: string, i: int) {
    0 <= i && i + |part| <= |text| && text[i..i + |part|] == part
  }

  /** Python's `part in text` on strings, as a left-to-right search. */
  predicate Contains(text: string, part: string)
    decreases |text|
  {
    (|part| <= |text| && text[..|part|] == part) || (|text| > 0 && Contains(text[1..], part))
  }

  /** `part in text` holds exactly when part occurs at some position of text. */
  lemma {:induction false} ContainsOccurs(text: string, part: string)
    ensures Contains(text, part) <==> exists i :: 0 <= i <= |text| && OccursAt(text, part, i)
    decreases |text|
  {
    if |part| <= |text| && text[..|part|] == part {
      assert OccursAt(text, part, 0);
    }
    if |text| > 0 {
      ContainsOccurs(text[1..], part);
      forall i | 0 <= i < |text| && OccursAt(text[1..], part, i)
        ensures OccursAt(text, part, i + 1)
      {
        assert text[i + 1..i + 1 + |part|] == text[1..][i..i + |part|];
      }
      forall i | 1 <= i <= |text| && OccursAt(text, part, i)
        ensures OccursAt(text[1..], part, i - 1)
      {
        assert text[i..i + |part|] == text[1..][i - 1..i - 1 + |part|];
      }
      if !(|part| <= |text| && text[..|part|] == part) && (exists i :: 0 <= i <= |text| && OccursAt(text, part, i)) {
        var i :| 0 <= i <= |text| && OccursAt(text, part, i);
        assert i != 0;
      }
    }
  }

  // ---------------------------------------------------------------- int() and str()

  function DigitChar(d: nat): (c: char)
    requires d < 10
    ensures IsDigit(c)
  {
    (48 + d) as char
  }

  function DigitValue(c: char): (d: nat)
    requires IsDigit(c)
    ensures d < 10 && DigitChar(d) == c
  {
    (c as int) - 48
  }

  predicate IsDigits(s: string) {
    |s| > 0 && forall i :: 0 <= i < |s| ==> IsDigit(s[i])
  }

  /** The value of a string of decimal digits, most significant first; leading zeros are allowed. */
  function DigitsValue(s: string): nat
    requires forall i :: 0 <= i < |s| ==> IsDigit(s[i])
    decreases |s|
  {
    if |s| == 0 then 0 else DigitsValue(s[..|s| - 1]) * 10 + DigitValue(s[|s| - 1])
  }

  /** str(n) for a natural number: decimal, without leading zeros. */
  function NatToString(n: nat): (s: string)
    ensures IsDigits(s)
    ensures s[0] == '0' <==> n == 0
    ensures n == 0 ==> s == "0"
    decreases n
  {
    if n < 10 then [DigitChar(n)] else NatToString(n / 10) + [DigitChar(n % 10)]
  }

  /**
   * str(i), and f"{i}": the canonical decimal form, a minus sign exactly for negative numbers and
   * no leading zero except in "0" itself.
   */
  function IntToString(i: int): (s: string)
    ensures |s| > 0
    ensures forall k :: 0 <= k < |s| ==> IsDigit(s[k]) || (k == 0 && s[k] == '-')
    ensures s[0] == '-' <==> i < 0
    ensures s[0] == '0' ==> s == "0" && i == 0
    ensures s[0] == '-' ==> |s| > 1 && s[1] != '0'
  {
    if i < 0 then "-" + NatToString(-i) else NatToString(i)
  }

  /** What int() accepts once surrounding whitespace is stripped: an optional sign and decimal digits. */
  predicate IsIntLiteral(t: string) {
    IsDigits(t) || (|t| > 0 && (t[0] == '+' || t[0] == '-') && IsDigits(t[1..]))
  }

  function LiteralValue(t: string): int
    requires IsIntLiteral(t)
  {
    if t[0] == '-' then -(DigitsValue(t[1..]) as int)
    else if t[0] == '+' then DigitsValue(t[1..])
    else DigitsValue(t)
  }

  /**
   * The ASCII information separators U+001C..U+001F. str.isspace counts them as whitespace, so
   * str.split() and str.strip() treat them as such, but int() does not skip them.
   */
  predicate IsInfoSeparator(c: char) {
    0x1C <= c as int <= 0x1F
  }

  /** The whitespace int() skips around a number: str.isspace without the information separators. */
  predicate AllIntSpace(s: string) {
    forall i :: 0 <= i < |s| ==> IsSpace(s[i]) && !IsInfoSeparator(s[i])
  }

  /**
   * int(text) in base 10: the whitespace around the literal is ignored, anything else is refused
   * with a ValueError. An information separator is never skipped, so wherever it stands the text
   * is refused; on texts without one, int()'s whitespace and str.isspace agree, and stripping with
   * str.strip() is exact.
   */
  function ParseInt(text: string): (r: Result<int>)
    ensures r.Err? ==> r.error == BadInteger(text)
    ensures (exists i :: 0 <= i < |text| && IsInfoSeparator(text[i])) ==> r.Err?
  {
    var t := Strip(text);
    if IsIntLiteral(t) && forall i :: 0 <= i < |text| ==> !IsInfoSeparator(text[i]) then Ok(LiteralValue(t))
    else Err(BadInteger(text))
  }

  /** [int(s) for s in tokens]: the first token int() refuses raises. */
  function Ints(tokens: seq<string>): (r: Result<seq<int>>)
    ensures r.Ok? ==> |r.value| == |tokens|
    ensures r.Ok? ==> forall k :: 0 <= k < |tokens| ==> ParseInt(tokens[k]) == Ok(r.value[k])
    ensures r.Err? ==> exists k :: 0 <= k < |tokens| && ParseInt(tokens[k]).Err?
    decreases |tokens|
  {
    if |tokens| == 0 then Ok([])
    else match ParseInt(tokens[0])
      case Err(e) => Err(e)
      case Ok(first) =>
        match Ints(tokens[1..])
        case Err(e) =>
          assert exists k :: 1 <= k < |tokens| && ParseInt(tokens[k]).Err? by {
            var k :| 0 <= k < |tokens| - 1 && ParseInt(tokens[1..][k]).Err?;
            assert tokens[1..][k] == tokens[k + 1];
          }
          Err(e)
        case Ok(rest) => Ok([first] + rest)
  }

  lemma {:induction false} DigitsValueOfNatToString(n: nat)
    ensures DigitsValue(NatToString(n)) == n
    decreases n
  {
    var s := NatToString(n);
    if n >= 10 {
      DigitsValueOfNatToString(n / 10);
      assert s[..|s| - 1] == NatToString(n / 10);
    }
  }

  lemma StripUnpadded(s: string)
    requires |s| > 0 && !IsSpace(s[0]) && !IsSpace(s[|s| - 1])
    ensures Strip(s) == s
  {
  }

  /** int() reads back what str() prints. */
  lemma ParseIntOfIntToString(i: int)
    ensures ParseInt(IntToString(i)) == Ok(i)
  {
    var s := IntToString(i);
    StripUnpadded(s);
    if i < 0 {
      DigitsValueOfNatToString(-i);
      assert s[1..] == NatToString(-i);
    } else {
      DigitsValueOfNatToString(i);
    }
  }

  /** int() ignores the whitespace around a number, such as the newline readlines() keeps. */
  lemma ParseIntPadded(before: string, i: int, after: string)
    requires AllIntSpace(before) && AllIntSpace(after)
    ensures ParseInt(before + IntToString(i) + after) == Ok(i)
  {
    var s := IntToString(i);
    var text := before + s + after;
    forall k | 0 <= k < |text|
      ensures !IsInfoSeparator(text[k])
    {
      if k < |before| {
        assert text[k] == before[k];
      } else if k < |before| + |s| {
        assert text[k] == s[k - |before|];
      } else {
        assert text[k] == after[k - |before| - |s|];
      }
    }
    assert AllSpace(before) && AllSpace(after);
    RStripTrailingSpace(before + s, after);
    StripUnpadded(s);
    assert RStrip(before + s) == before + s;
    LStripLeadingSpace(before, s);
    ParseIntOfIntToString(i);
  }

  /** Distinct integers print differently. */
  lemma IntToStringInjective(i: int, j: int)
    requires IntToString(i) == IntToString(j)
    ensures i == j
  {
    ParseIntOfIntToString(i);
    ParseIntOfIntToString(j);
  }

  /** The error of [int(s) for s in tokens] is the ValueError of a token int() refuses. */
  lemma {:induction false} IntsFirstBad(tokens: seq<string>)
    ensures Ints(tokens).Err? ==>
      exists k :: 0 <= k < |tokens| && ParseInt(tokens[k]).Err? && Ints(tokens).error == BadInteger(tokens[k])
    decreases |tokens|
  {
    if |tokens| > 0 && ParseInt(tokens[0]).Ok? && Ints(tokens).Err? {
      IntsFirstBad(tokens[1..]);
      var k :| 0 <= k < |tokens| - 1 && ParseInt(tokens[1..][k]).Err? && Ints(tokens[1..]).error == BadInteger(tokens[1..][k]);
      assert tokens[1..][k] == tokens[k + 1];
    }
  }

  /** When int() accepts every token, ints() is exactly their values, in order. */
  lemma {:induction false} IntsOfParsed(tokens: seq<string>, xs: seq<int>)
    requires |tokens| == |xs|
    requires forall k :: 0 <= k < |tokens| ==> ParseInt(tokens[k]) == Ok(xs[k])
    ensures Ints(tokens) == Ok(xs)
    decreases |tokens|
  {
    if |tokens| > 0 {
      assert ParseInt(tokens[0]) == Ok(xs[0]);
      assert forall k :: 0 <= k < |tokens| - 1 ==> tokens[1..][k] == tokens[k + 1] && xs[1..][k] == xs[k + 1];
      IntsOfParsed(tokens[1..], xs[1..]);
      assert xs == [xs[0]] + xs[1..];
    }
  }

  /** The words of a line of printed integers. */
  function Printed(xs: seq<int>): (words: seq<string>)
    ensures |words| == |xs|
    ensures forall k :: 0 <= k < |xs| ==> words[k] == IntToString(xs[k])
  {
    if |xs| == 0 then [] else [IntToString(xs[0])] + Printed(xs[1..])
  }

  /** A line of integers separated by single spaces reads back as those integers. */
  lemma IntsOfPrintedLine(xs: seq<int>)
    ensures Split(JoinWords(Printed(xs))) == Printed(xs)
    ensures Ints(Printed(xs)) == Ok(xs)
  {
    var words := Printed(xs);
    forall k | 0 <= k < |words|
      ensures IsWord(words[k]) && ParseInt(words[k]) == Ok(xs[k])
    {
      ParseIntOfIntToString(xs[k]);
    }
    SplitJoinWords(words);
    IntsOfParsed(words, xs);
  }
}
