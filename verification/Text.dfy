/** The string handling the power HAL relies on: whitespace-separated lists,
    unsigned decimal numbers, newline trimming and case-insensitive search. */
module Text {
  import opened Wrappers

  const U32_MAX: nat := 0xFFFF_FFFF

  // ---------- whitespace-separated lists ----------

  /** The characters with Unicode's White_Space property. */
  predicate IsWhitespace(c: char) {
    var n := c as int;
    || 0x9 <= n <= 0xD || n == 0x20 || n == 0x85 || n == 0xA0 || n == 0x1680
    || 0x2000 <= n <= 0x200A || n == 0x2028 || n == 0x2029 || n == 0x202F || n == 0x205F || n == 0x3000
  }

  predicate Blank(s: string) {
    forall i :: 0 <= i < |s| ==> IsWhitespace(s[i])
  }

  predicate IsToken(s: string) {
    s != "" && forall i :: 0 <= i < |s| ==> !IsWhitespace(s[i])
  }

  /** The length of the longest whitespace-free prefix. */
  function WordLength(s: string): (n: nat)
    ensures n <= |s|
    ensures forall i :: 0 <= i < n ==> !IsWhitespace(s[i])
    ensures n < |s| ==> IsWhitespace(s[n])
  {
    if s == "" || IsWhitespace(s[0]) then 0 else 1 + WordLength(s[1..])
  }

  function SplitWhitespace(s: string): (tokens: seq<string>)
    ensures forall t :: t in tokens ==> IsToken(t)
    decreases |s|
  {
    if s == "" then []
    else if IsWhitespace(s[0]) then SplitWhitespace(s[1..])
    else
      var n := WordLength(s);
      [s[..n]] + SplitWhitespace(s[n..])
  }

  /** Tokens laid out with the given text before, between and after them. */
  ghost function Spaced(tokens: seq<string>, gaps: seq<string>): string
    requires |gaps| == |tokens| + 1
  {
    if tokens == [] then gaps[0] else gaps[0] + tokens[0] + Spaced(tokens[1..], gaps[1..])
  }

  /** Only whitespace in the gaps, and some of it between any two tokens. */
  ghost predicate Layout(tokens: seq<string>, gaps: seq<string>) {
    && |gaps| == |tokens| + 1
    && (forall g :: g in gaps ==> Blank(g))
    && (forall i :: 0 < i < |tokens| ==> gaps[i] != "")
    && (forall t :: t in tokens ==> IsToken(t))
  }

  lemma SplitSkipsBlank(gap: string, s: string)
    requires Blank(gap)
    ensures SplitWhitespace(gap + s) == SplitWhitespace(s)
  {
    if gap == "" {
      assert gap + s == s;
    } else {
      assert (gap + s)[1..] == gap[1..] + s;
      SplitSkipsBlank(gap[1..], s);
    }
  }

  lemma SplitTakesToken(token: string, s: string)
    requires IsToken(token)
    requires s == "" || IsWhitespace(s[0])
    ensures SplitWhitespace(token + s) == [token] + SplitWhitespace(s)
  {
    var all := token + s;
    var n := WordLength(all);
    assert forall i :: 0 <= i < |token| ==> all[i] == token[i];
    assert s != "" ==> all[|token|] == s[0];
    assert n == |token|;
    assert all[..n] == token && all[n..] == s;
  }

  /** Splitting undoes every way of spacing out a list of tokens. */
  lemma {:induction false} SplitSpaced(tokens: seq<string>, gaps: seq<string>)
    requires Layout(tokens, gaps)
    ensures SplitWhitespace(Spaced(tokens, gaps)) == tokens
  {
    if tokens == [] {
      assert gaps[0] in gaps;
      assert gaps[0] + "" == gaps[0];
      SplitSkipsBlank(gaps[0], "");
    } else {
      var rest := Spaced(tokens[1..], gaps[1..]);
      assert gaps[0] in gaps && tokens[0] in tokens;
      SplitSpaced(tokens[1..], gaps[1..]);
      if |tokens| > 1 {
        assert gaps[1] in gaps;
        assert rest == gaps[1] + (tokens[1] + Spaced(tokens[1..][1..], gaps[1..][1..]));
        assert rest[0] == gaps[1][0];
      } else {
        assert gaps[1] in gaps;
        assert rest == gaps[1];
      }
      SplitTakesToken(tokens[0], rest);
      SplitSkipsBlank(gaps[0], tokens[0] + rest);
      assert gaps[0] + tokens[0] + rest == gaps[0] + (tokens[0] + rest);
    }
  }

  lemma WidenGap(tokens: seq<string>, gaps: seq<string>, c: char)
    requires Layout(tokens, gaps) && IsWhitespace(c)
    ensures var wider := [[c] + gaps[0]] + gaps[1..];
            Layout(tokens, wider) && Spaced(tokens, wider) == [c] + Spaced(tokens, gaps)
  {
    var wider := [[c] + gaps[0]] + gaps[1..];
    assert gaps[0] in gaps && wider[1..] == gaps[1..];
    forall g | g in wider ensures Blank(g) {
      if g != wider[0] { assert g in gaps; }
    }
  }

  lemma AddToken(token: string, tokens: seq<string>, gaps: seq<string>)
    requires Layout(tokens, gaps) && IsToken(token)
    requires tokens != [] ==> gaps[0] != ""
    ensures Layout([token] + tokens, [""] + gaps)
    ensures Spaced([token] + tokens, [""] + gaps) == token + Spaced(tokens, gaps)
  {
    assert ([token] + tokens)[1..] == tokens && ([""] + gaps)[1..] == gaps;
    assert "" + token == token;
  }

  /** Every string is some spacing of the tokens it splits into. */
  lemma {:induction false} SplitCovers(s: string) returns (gaps: seq<string>)
    ensures Layout(SplitWhitespace(s), gaps)
    ensures Spaced(SplitWhitespace(s), gaps) == s
    ensures gaps[0] == "" <==> s == "" || !IsWhitespace(s[0])
    decreases |s|
  {
    if s == "" {
      gaps := [""];
    } else if IsWhitespace(s[0]) {
      var rest := SplitCovers(s[1..]);
      gaps := [[s[0]] + rest[0]] + rest[1..];
      WidenGap(SplitWhitespace(s), rest, s[0]);
    } else {
      var n := WordLength(s);
      var rest := SplitCovers(s[n..]);
      gaps := [""] + rest;
      AddToken(s[..n], SplitWhitespace(s[n..]), rest);
      assert s == s[..n] + s[n..];
    }
  }

  /** A text without tokens is one of whitespace only. */
  lemma {:induction false} SplitsToNothing(s: string)
    ensures SplitWhitespace(s) == [] <==> Blank(s)
  {
    if s == "" {
    } else if IsWhitespace(s[0]) {
      SplitsToNothing(s[1..]);
      assert Blank(s[1..]) ==> forall i :: 0 < i < |s| ==> s[i] == s[1..][i - 1];
      assert Blank(s) ==> forall i :: 0 <= i < |s[1..]| ==> s[1..][i] == s[i + 1];
    }
  }

  /** What kernel lists are made of: lower-case letters, digits, `_` and `-`. */
  ghost predicate IsKernelWord(s: string) {
    s != "" && forall i :: 0 <= i < |s| ==> 'a' <= s[i] <= 'z' || IsDigit(s[i]) || s[i] == '_' || s[i] == '-'
  }

  /** The words of a list as the kernel prints them, with a space between any two. */
  ghost function KernelList(words: seq<string>): string {
    if words == [] then "" else if |words| == 1 then words[0] else words[0] + " " + KernelList(words[1..])
  }

  lemma SplitTwoParts(token: string, rest: string)
    requires IsToken(token)
    ensures SplitWhitespace(token + " " + rest) == [token] + SplitWhitespace(rest)
  {
    SplitSkipsBlank(" ", rest);
    SplitTakesToken(token, " " + rest);
    assert token + " " + rest == token + (" " + rest);
  }

  /** A printed list is split into its words, and has no newline at its end. */
  lemma {:induction false} SplitKernelList(words: seq<string>)
    requires forall w :: w in words ==> IsKernelWord(w)
    ensures SplitWhitespace(KernelList(words)) == words
    ensures TrimEndNewlines(KernelList(words)) == KernelList(words)
  {
    if words == [] {
    } else {
      assert IsKernelWord(words[0]);
      assert IsToken(words[0]);
      if |words| == 1 {
        SplitTakesToken(words[0], "");
        assert words[0] + "" == words[0];
      } else {
        SplitKernelList(words[1..]);
        SplitTwoParts(words[0], KernelList(words[1..]));
        assert IsKernelWord(words[1]);
      }
    }
  }

  // ---------- unsigned decimal numbers ----------

  predicate IsDigit(c: char) {
    '0' <= c <= '9'
  }

  function DigitValue(c: char): (d: nat)
    requires IsDigit(c)
    ensures d <= 9
  {
    c as int - '0' as int
  }

  ghost predicate AllDigits(s: string) {
    forall i :: 0 <= i < |s| ==> IsDigit(s[i])
  }

  /** The unbounded number that a digit string denotes after `acc`. */
  ghost function DigitsValue(s: string, acc: nat): nat
    requires AllDigits(s)
  {
    if s == "" then acc else DigitsValue(s[1..], 10 * acc + DigitValue(s[0]))
  }

  /** Digit-by-digit accumulation that gives up at the first overflow of a 32-bit value. */
  function AccumulateU32(s: string, acc: nat): Option<nat>
    requires acc <= U32_MAX
  {
    if s == "" then Some(acc)
    else if !IsDigit(s[0]) then None
    else if 10 * acc > U32_MAX then None
    else if 10 * acc + DigitValue(s[0]) > U32_MAX then None
    else AccumulateU32(s[1..], 10 * acc + DigitValue(s[0]))
  }

  /** Rust's `str::parse::<u32>`: an optional `+`, then at least one digit. */
  function ParseU32(s: string): Option<nat> {
    if s == "" || s == "+" || s == "-" then None
    else if s[0] == '+' then AccumulateU32(s[1..], 0)
    else AccumulateU32(s, 0)
  }

  function Decimal(n: nat): (s: string)
    ensures s != "" && forall i :: 0 <= i < |s| ==> IsDigit(s[i])
  {
    if n < 10 then [(n + '0' as int) as char] else Decimal(n / 10) + [(n % 10 + '0' as int) as char]
  }

  lemma DigitsValueGrows(s: string, acc: nat)
    requires AllDigits(s)
    ensures DigitsValue(s, acc) >= acc
  {
  }

  /** The early-exit accumulator agrees with the unbounded value. */
  lemma {:induction false} AccumulateIsBoundedValue(s: string, acc: nat)
    requires acc <= U32_MAX
    ensures AccumulateU32(s, acc)
         == if AllDigits(s) && DigitsValue(s, acc) <= U32_MAX then Some(DigitsValue(s, acc)) else None
  {
    if s == "" || !IsDigit(s[0]) {
    } else {
      var next := 10 * acc + DigitValue(s[0]);
      if AllDigits(s[1..]) {
        assert AllDigits(s) by {
          forall i | 0 <= i < |s| ensures IsDigit(s[i]) { if i > 0 { assert s[i] == s[1..][i - 1]; } }
        }
        DigitsValueGrows(s[1..], next);
      } else {
        assert !AllDigits(s) by {
          var i :| 0 <= i < |s[1..]| && !IsDigit(s[1..][i]);
          assert s[i + 1] == s[1..][i];
        }
      }
      if next <= U32_MAX { AccumulateIsBoundedValue(s[1..], next); }
    }
  }

  /** Exactly what parses: digits after at most one `+`, of value at most 4294967295. */
  lemma ParseU32Characterised(s: string, n: nat)
    ensures ParseU32(s) == Some(n) <==>
            var digits := if s != "" && s[0] == '+' then s[1..] else s;
            digits != "" && AllDigits(digits) && DigitsValue(digits, 0) == n <= U32_MAX
  {
    var digits := if s != "" && s[0] == '+' then s[1..] else s;
    AccumulateIsBoundedValue(digits, 0);
    if s == "-" { assert !IsDigit(digits[0]); }
    if s != "" && s[0] == '+' && digits == "" { assert s == "+"; }
  }

  lemma {:induction false} DigitsValueSnoc(s: string, c: char, acc: nat)
    requires AllDigits(s) && IsDigit(c)
    ensures AllDigits(s + [c]) && DigitsValue(s + [c], acc) == 10 * DigitsValue(s, acc) + DigitValue(c)
  {
    if s == "" {
      assert (s + [c])[1..] == "";
    } else {
      assert (s + [c])[1..] == s[1..] + [c];
      DigitsValueSnoc(s[1..], c, 10 * acc + DigitValue(s[0]));
    }
  }

  lemma {:induction false} DecimalValue(n: nat)
    ensures AllDigits(Decimal(n)) && DigitsValue(Decimal(n), 0) == n
  {
    var last := (n % 10 + '0' as int) as char;
    if n < 10 {
      DigitsValueSnoc("", last, 0);
      assert "" + [last] == [last] == Decimal(n);
    } else {
      DecimalValue(n / 10);
      DigitsValueSnoc(Decimal(n / 10), last, 0);
    }
  }

  /** Printing then parsing is the identity up to 4294967295, and fails beyond it. */
  lemma ParseDecimal(n: nat)
    ensures ParseU32(Decimal(n)) == if n <= U32_MAX then Some(n) else None
  {
    var s := Decimal(n);
    DecimalValue(n);
    assert IsDigit(s[0]);
    AccumulateIsBoundedValue(s, 0);
  }

  // ---------- trimming and searching ----------

  /** The text is the raw one up to its last character that is not a newline. */
  ghost predicate WithoutNewlines(raw: string, text: string) {
    && text <= raw && (text == "" || text[|text| - 1] != '\n')
    && forall i :: |text| <= i < |raw| ==> raw[i] == '\n'
  }

  function TrimEndNewlines(s: string): (t: string)
    ensures WithoutNewlines(s, t)
  {
    if s != "" && s[|s| - 1] == '\n' then TrimEndNewlines(s[..|s| - 1]) else s
  }

  function AsciiLower(c: char): char {
    if 'A' <= c <= 'Z' then (c as int + 32) as char else c
  }

  function ToAsciiLowercase(s: string): (t: string)
    ensures |t| == |s|
  {
    if s == "" then "" else [AsciiLower(s[0])] + ToAsciiLowercase(s[1..])
  }

  predicate Contains(s: string, part: string) {
    exists i :: 0 <= i <= |s| && OccursAt(s, part, i)
  }

  predicate OccursAt(s: string, part: string, i: nat)
    requires i <= |s|
  {
    i + |part| <= |s| && s[i..i + |part|] == part
  }

  /** The character is this lower-case letter, or its capital 32 places below it. */
  ghost predicate SameLetter(c: char, letter: char) {
    c == letter || c as int + 32 == letter as int
  }

  ghost predicate SpelledAt(s: string, word: string, i: nat)
    requires i + |word| <= |s|
  {
    forall k :: 0 <= k < |word| ==> SameLetter(s[i + k], word[k])
  }

  /** The word stands somewhere in the text, in any capitalisation. */
  ghost predicate Mentions(s: string, word: string) {
    exists i :: 0 <= i <= |s| - |word| && SpelledAt(s, word, i)
  }

  lemma {:induction false} LowercaseAt(s: string, i: nat)
    requires i < |s|
    ensures ToAsciiLowercase(s)[i] == AsciiLower(s[i])
  {
    if i > 0 { LowercaseAt(s[1..], i - 1); }
  }

  lemma OccursLetterwise(s: string, part: string, i: nat)
    requires i + |part| <= |s|
    ensures OccursAt(s, part, i) <==> forall k :: 0 <= k < |part| ==> s[i + k] == part[k]
  {
    if OccursAt(s, part, i) {
      forall k | 0 <= k < |part| ensures s[i + k] == part[k] {
        assert s[i..i + |part|][k] == part[k];
      }
    }
  }

  lemma LowercaseSpells(s: string, word: string, i: nat)
    requires forall k :: 0 <= k < |word| ==> 'a' <= word[k] <= 'z'
    requires i + |word| <= |s|
    ensures OccursAt(ToAsciiLowercase(s), word, i) <==> SpelledAt(s, word, i)
  {
    OccursLetterwise(ToAsciiLowercase(s), word, i);
    forall k | 0 <= k < |word| ensures ToAsciiLowercase(s)[i + k] == word[k] <==> SameLetter(s[i + k], word[k]) {
      LowercaseAt(s, i + k);
      SameLetterLowered(s[i + k], word[k]);
    }
  }

  lemma SameLetterLowered(c: char, letter: char)
    requires 'a' <= letter <= 'z'
    ensures AsciiLower(c) == letter <==> SameLetter(c, letter)
  {
  }

  /** Searching the lower-cased text finds a word in any capitalisation, and nothing else. */
  lemma LowercaseContains(s: string, word: string)
    requires forall k :: 0 <= k < |word| ==> 'a' <= word[k] <= 'z'
    ensures Contains(ToAsciiLowercase(s), word) <==> Mentions(s, word)
  {
    forall i | 0 <= i <= |s| - |word|
      ensures OccursAt(ToAsciiLowercase(s), word, i) <==> SpelledAt(s, word, i)
    {
      LowercaseSpells(s, word, i);
    }
  }
}
