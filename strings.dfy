/**
 * The engine string routines the console commands and the resolution parser
 * rely on: trimming, ASCII lower-casing, FCString::IsNumeric, FCString::Atoi,
 * FParse::Command, FParse::Param and FString::ParseIntoArray on single spaces.
 * These routines belong to the engine, not to the plugin; they are modelled
 * here after their documented behaviour, restricted to ASCII.
 */
module Text {
  import opened Wrappers

  // ---------------------------------------------------------------------------
  // Character classes

  predicate IsWhitespace(c: char) { c == ' ' || c == '\t' || c == '\n' || c == '\r' }

  /** The blanks FParse::Command skips before and after a matched word. */
  predicate IsBlank(c: char) { c == ' ' || c == '\t' }

  predicate IsDigit(c: char) { '0' <= c <= '9' }

  predicate IsUpper(c: char) { 'A' <= c <= 'Z' }

  predicate IsAlnum(c: char) { IsDigit(c) || IsUpper(c) || 'a' <= c <= 'z' }

  function LowerChar(c: char): (r: char)
    ensures !IsUpper(r)
    ensures IsUpper(c) || r == c
  {
    if IsUpper(c) then (c as int + 32) as char else c
  }

  // ---------------------------------------------------------------------------
  // Trimming and case

  /** FString::TrimStart: the suffix left after dropping leading whitespace. */
  function TrimStart(s: string): string
  {
    if s != [] && IsWhitespace(s[0]) then TrimStart(s[1..]) else s
  }

  /** TrimStart drops exactly the leading whitespace. */
  lemma {:induction false} TrimStartSuffix(s: string)
    ensures |TrimStart(s)| <= |s| && TrimStart(s) == s[|s| - |TrimStart(s)|..]
    ensures TrimStart(s) == [] || !IsWhitespace(TrimStart(s)[0])
    ensures forall k :: 0 <= k < |s| - |TrimStart(s)| ==> IsWhitespace(s[k])
  {
    if s != [] && IsWhitespace(s[0]) {
      var t := s[1..];
      TrimStartSuffix(t);
      assert TrimStart(s) == TrimStart(t);
      assert s[|s| - |TrimStart(s)|..] == t[|t| - |TrimStart(t)|..];
      forall k | 0 <= k < |s| - |TrimStart(s)| ensures IsWhitespace(s[k]) {
        if k > 0 {
          assert s[k] == t[k - 1];
        }
      }
    }
  }

  /** FString::TrimEnd: the prefix left after dropping trailing whitespace. */
  function TrimEnd(s: string): string
  {
    if s != [] && IsWhitespace(s[|s| - 1]) then TrimEnd(s[..|s| - 1]) else s
  }

  /** TrimEnd drops exactly the trailing whitespace. */
  lemma {:induction false} TrimEndPrefix(s: string)
    ensures |TrimEnd(s)| <= |s| && TrimEnd(s) == s[..|TrimEnd(s)|]
    ensures TrimEnd(s) == [] || !IsWhitespace(TrimEnd(s)[|TrimEnd(s)| - 1])
    ensures forall k :: |TrimEnd(s)| <= k < |s| ==> IsWhitespace(s[k])
  {
    if s != [] && IsWhitespace(s[|s| - 1]) {
      TrimEndPrefix(s[..|s| - 1]);
    }
  }

  /** FString::TrimStartAndEnd. */
  function Trim(s: string): string
  {
    TrimEnd(TrimStart(s))
  }

  /** A trimmed string is a slice of the original with whitespace at neither end. */
  lemma TrimSlice(s: string)
    ensures exists i, j :: 0 <= i <= j <= |s| && Trim(s) == s[i..j]
    ensures Trim(s) == [] || (!IsWhitespace(Trim(s)[0]) && !IsWhitespace(Trim(s)[|Trim(s)| - 1]))
  {
    var t := TrimStart(s);
    TrimStartSuffix(s);
    TrimEndPrefix(t);
    var i := |s| - |t|;
    assert Trim(s) == s[i..i + |Trim(s)|];
  }

  /** Trimming an already trimmed string changes nothing. */
  lemma {:induction false} TrimIdempotent(s: string)
    ensures Trim(Trim(s)) == Trim(s)
  {
    var t := Trim(s);
    TrimSlice(s);
    assert TrimStart(t) == t;
    assert TrimEnd(t) == t;
  }

  /** FString::ToLower restricted to ASCII letters. */
  function ToLower(s: string): (r: string)
    ensures |r| == |s|
  {
    if s == [] then [] else [LowerChar(s[0])] + ToLower(s[1..])
  }

  /** ToLower lower-cases each character in place. */
  lemma {:induction false} ToLowerPointwise(s: string)
    ensures forall k :: 0 <= k < |s| ==> ToLower(s)[k] == LowerChar(s[k])
  {
    if s != [] {
      ToLowerPointwise(s[1..]);
    }
  }

  /** Lower-casing distributes over concatenation. */
  lemma {:induction false} ToLowerAppend(a: string, b: string)
    ensures ToLower(a + b) == ToLower(a) + ToLower(b)
  {
    if a != [] {
      assert (a + b)[1..] == a[1..] + b;
      ToLowerAppend(a[1..], b);
    } else {
      assert a + b == b;
    }
  }

  /** Digits are left alone by lower-casing. */
  lemma {:induction false} ToLowerDigits(d: string)
    requires forall k :: 0 <= k < |d| ==> IsDigit(d[k])
    ensures ToLower(d) == d
  {
    if d != [] {
      assert IsDigit(d[0]);
      ToLowerDigits(d[1..]);
    }
  }

  /** Equal after ASCII lower-casing, compared position by position. */
  predicate EqualsIgnoreCase(a: string, b: string)
  {
    |a| == |b| && forall k :: 0 <= k < |a| ==> LowerChar(a[k]) == LowerChar(b[k])
  }

  /** Comparing ignoring case is comparing the lower-cased strings. */
  lemma EqualsIgnoreCaseMeaning(a: string, b: string)
    ensures EqualsIgnoreCase(a, b) <==> ToLower(a) == ToLower(b)
  {
    ToLowerPointwise(a);
    ToLowerPointwise(b);
    if EqualsIgnoreCase(a, b) {
      assert forall k :: 0 <= k < |a| ==> ToLower(a)[k] == ToLower(b)[k];
    }
    if ToLower(a) == ToLower(b) {
      assert forall k :: 0 <= k < |a| ==> ToLower(a)[k] == LowerChar(a[k]);
    }
  }

  // ---------------------------------------------------------------------------
  // Numbers

  /**
   * The loop of FCString::IsNumeric after the optional sign: only digits and
   * at most one dot; the empty remainder passes.
   */
  function NumericBody(s: string, seenDot: bool): bool
  {
    if s == [] then true
    else if s[0] == '.' then !seenDot && NumericBody(s[1..], true)
    else IsDigit(s[0]) && NumericBody(s[1..], seenDot)
  }

  function Unsigned(s: string): string
  {
    if s != [] && (s[0] == '-' || s[0] == '+') then s[1..] else s
  }

  /** FString::IsNumeric: not empty, then FCString::IsNumeric. */
  predicate IsNumeric(s: string) { s != [] && NumericBody(Unsigned(s), false) }

  function DotCount(s: string): nat
  {
    if s == [] then 0 else (if s[0] == '.' then 1 else 0) + DotCount(s[1..])
  }

  /** An independent reading of NumericBody: digits and dots, and few enough dots. */
  lemma {:induction false} NumericBodyMeaning(s: string, seenDot: bool)
    ensures NumericBody(s, seenDot) <==>
      (forall k :: 0 <= k < |s| ==> IsDigit(s[k]) || s[k] == '.') &&
      DotCount(s) + (if seenDot then 1 else 0) <= 1
  {
    if s != [] {
      NumericBodyMeaning(s[1..], seenDot || s[0] == '.');
      assert forall k :: 1 <= k < |s| ==> s[k] == s[1..][k - 1];
    }
  }

  /** FString::IsNumeric holds exactly for a non-empty string that is an optional sign, then digits and at most one dot. */
  lemma IsNumericMeaning(s: string)
    ensures IsNumeric(s) <==>
      s != [] &&
      (forall k :: 0 <= k < |Unsigned(s)| ==> IsDigit(Unsigned(s)[k]) || Unsigned(s)[k] == '.') &&
      DotCount(Unsigned(s)) <= 1
  {
    NumericBodyMeaning(Unsigned(s), false);
  }

  /** The longest prefix of decimal digits. */
  function LeadingDigits(s: string): string
  {
    if s != [] && IsDigit(s[0]) then [s[0]] + LeadingDigits(s[1..]) else []
  }

  /** LeadingDigits is the longest prefix made of digits. */
  lemma {:induction false} LeadingDigitsPrefix(s: string)
    ensures |LeadingDigits(s)| <= |s| && LeadingDigits(s) == s[..|LeadingDigits(s)|]
    ensures forall k :: 0 <= k < |LeadingDigits(s)| ==> IsDigit(LeadingDigits(s)[k])
    ensures |LeadingDigits(s)| == |s| || !IsDigit(s[|LeadingDigits(s)|])
  {
    if s != [] && IsDigit(s[0]) {
      LeadingDigitsPrefix(s[1..]);
    }
  }

  function DigitsValue(d: string): nat
  {
    if d == [] then 0 else 10 * DigitsValue(d[..|d| - 1]) + DigitValue(d[|d| - 1])
  }

  function DigitValue(c: char): nat { if IsDigit(c) then c as int - '0' as int else 0 }

  /**
   * FCString::Atoi, as strtol in base 10: leading whitespace, an optional
   * sign, then the digit prefix; anything else gives 0.
   */
  function Atoi(s: string): int
  {
    var t := TrimStart(s);
    if t != [] && t[0] == '-' then -(DigitsValue(LeadingDigits(t[1..])) as int)
    else if t != [] && t[0] == '+' then DigitsValue(LeadingDigits(t[1..]))
    else DigitsValue(LeadingDigits(t))
  }

  /** The decimal digits of a natural number, most significant first. */
  function Decimal(n: nat): (r: string)
    ensures r != []
  {
    if n < 10 then [('0' as int + n) as char] else Decimal(n / 10) + [('0' as int + n % 10) as char]
  }

  /** Decimal writes only digits. */
  lemma {:induction false} DecimalDigits(n: nat)
    ensures forall k :: 0 <= k < |Decimal(n)| ==> IsDigit(Decimal(n)[k])
  {
    if n >= 10 {
      DecimalDigits(n / 10);
    }
  }

  lemma {:induction false} DigitsValueOfDecimal(n: nat)
    ensures DigitsValue(Decimal(n)) == n
  {
    if n >= 10 {
      var d := Decimal(n);
      assert d[..|d| - 1] == Decimal(n / 10);
      DigitsValueOfDecimal(n / 10);
    }
  }

  lemma LeadingDigitsOfDigits(d: string, rest: string)
    requires forall k :: 0 <= k < |d| ==> IsDigit(d[k])
    requires rest == [] || !IsDigit(rest[0])
    ensures LeadingDigits(d + rest) == d
  {
    if d != [] {
      assert (d + rest)[1..] == d[1..] + rest;
      LeadingDigitsOfDigits(d[1..], rest);
    }
  }

  /** Atoi reads back any decimal number, whatever non-digit text follows it. */
  lemma AtoiOfDecimal(n: nat, rest: string)
    requires rest == [] || !IsDigit(rest[0])
    ensures Atoi(Decimal(n) + rest) == n
  {
    var t := Decimal(n) + rest;
    DecimalDigits(n);
    assert t[0] == Decimal(n)[0];
    assert TrimStart(t) == t;
    LeadingDigitsOfDigits(Decimal(n), rest);
    DigitsValueOfDecimal(n);
  }

  /** With a minus sign in front, Atoi reads back the negated number. */
  lemma AtoiOfNegatedDecimal(n: nat, rest: string)
    requires rest == [] || !IsDigit(rest[0])
    ensures Atoi("-" + Decimal(n) + rest) == -(n as int)
  {
    var t := "-" + Decimal(n) + rest;
    DecimalDigits(n);
    assert TrimStart(t) == t;
    assert t[1..] == Decimal(n) + rest;
    LeadingDigitsOfDigits(Decimal(n), rest);
    DigitsValueOfDecimal(n);
  }

  // ---------------------------------------------------------------------------
  // Command-line parsing

  /** The input after its leading blanks. */
  function SkipBlanks(s: string): string
  {
    if s != [] && IsBlank(s[0]) then SkipBlanks(s[1..]) else s
  }

  /** SkipBlanks drops exactly a run of leading blanks. */
  lemma {:induction false} SkipBlanksSuffix(s: string)
    ensures |SkipBlanks(s)| <= |s| && SkipBlanks(s) == s[|s| - |SkipBlanks(s)|..]
    ensures SkipBlanks(s) == [] || !IsBlank(SkipBlanks(s)[0])
    ensures forall k :: 0 <= k < |s| - |SkipBlanks(s)| ==> IsBlank(s[k])
  {
    if s != [] && IsBlank(s[0]) {
      var t := s[1..];
      SkipBlanksSuffix(t);
      assert SkipBlanks(s) == SkipBlanks(t);
      assert t[|t| - |SkipBlanks(t)|..] == s[|s| - |SkipBlanks(s)|..];
      forall k | 0 <= k < |s| - |SkipBlanks(s)| ensures IsBlank(s[k]) {
        if k > 0 {
          assert s[k] == t[k - 1];
        }
      }
    }
  }

  /**
   * FParse::Command: after leading blanks, the input starts with the word
   * (ignoring case) and the word is not followed by a letter or digit. On a
   * match the result is the rest of the input with its leading blanks skipped.
   */
  function Command(s: string, word: string): Option<string>
  {
    var t := SkipBlanks(s);
    if |word| <= |t| && EqualsIgnoreCase(t[..|word|], word) && (|t| == |word| || !IsAlnum(t[|word|]))
    then Some(SkipBlanks(t[|word|..]))
    else None
  }

  /** A word followed by a blank or by nothing is matched, and the rest is what follows it. */
  lemma CommandMatches(word: string, rest: string)
    requires word != [] && !IsBlank(word[0])
    requires rest == [] || !IsAlnum(rest[0])
    ensures Command(word + rest, word) == Some(SkipBlanks(rest))
  {
    assert SkipBlanks(word + rest) == word + rest;
    assert (word + rest)[..|word|] == word;
    assert (word + rest)[|word|..] == rest;
  }

  /** A word, one space and an argument that starts with no blank: the argument is what remains. */
  lemma CommandSpaced(word: string, arg: string)
    requires word != [] && !IsBlank(word[0])
    requires arg == [] || !IsBlank(arg[0])
    ensures Command(word + " " + arg, word) == Some(arg)
  {
    CommandMatches(word, " " + arg);
    assert word + " " + arg == word + (" " + arg);
    assert (" " + arg)[1..] == arg;
  }

  /**
   * Position p separates the start of the input w from a word: either they
   * differ there ignoring case, or the word ends there and w goes on with a
   * letter or digit (matching is by whole words, so "Portrait" does not take
   * "PortraitHiRes").
   */
  predicate Separates(w: string, word: string, p: nat)
  {
    p < |w| && ((p < |word| && LowerChar(w[p]) != LowerChar(word[p])) || (p == |word| && IsAlnum(w[p])))
  }

  /** A word separated from the start of the input is not matched, whatever follows. */
  lemma CommandSeparated(w: string, rest: string, word: string, p: nat)
    requires w != [] && !IsBlank(w[0])
    requires Separates(w, word, p)
    ensures Command(w + rest, word) == None
  {
    var t := w + rest;
    assert SkipBlanks(t) == t;
    assert t[p] == w[p];
    assert |word| <= |t| && p < |word| ==> t[..|word|][p] == w[p];
  }

  /**
   * The separators the engine's tokenisers use: ParseIntoArray on " " splits
   * on the space alone, FParse::Param breaks its tokens at any whitespace.
   */
  datatype Separator = Space | AnyWhitespace

  predicate IsSeparator(c: char, sep: Separator)
  {
    match sep
    case Space => c == ' '
    case AnyWhitespace => IsWhitespace(c)
  }

  /** A word: no separator anywhere in it. */
  predicate NoSeparator(w: string, sep: Separator)
  {
    forall k :: 0 <= k < |w| ==> !IsSeparator(w[k], sep)
  }

  /** Separators only. */
  predicate AllSeparators(p: string, sep: Separator)
  {
    forall k :: 0 <= k < |p| ==> IsSeparator(p[k], sep)
  }

  /** Splitting on a separator with empty entries dropped (ParseIntoArray with InCullEmpty). */
  function Split(s: string, sep: Separator): (r: seq<string>)
    ensures forall k :: 0 <= k < |r| ==> r[k] != [] && NoSeparator(r[k], sep)
    decreases |s|
  {
    if s == [] then []
    else if IsSeparator(s[0], sep) then Split(s[1..], sep)
    else
      var w := FirstWord(s, sep);
      [w] + Split(s[|w|..], sep)
  }

  function FirstWord(s: string, sep: Separator): (r: string)
    ensures |r| <= |s| && r == s[..|r|] && NoSeparator(r, sep)
    ensures |r| == |s| || IsSeparator(s[|r|], sep)
    ensures s != [] && !IsSeparator(s[0], sep) ==> r != []
  {
    if s == [] || IsSeparator(s[0], sep) then [] else [s[0]] + FirstWord(s[1..], sep)
  }

  /** The first word is everything up to the first separator. */
  lemma {:induction false} FirstWordOf(a: string, rest: string, sep: Separator)
    requires NoSeparator(a, sep)
    requires rest == [] || IsSeparator(rest[0], sep)
    ensures FirstWord(a + rest, sep) == a
  {
    if a != [] {
      assert (a + rest)[1..] == a[1..] + rest;
      FirstWordOf(a[1..], rest, sep);
    } else {
      assert a + rest == rest;
    }
  }

  /** A string without separators splits into itself alone, or into nothing when empty. */
  lemma {:induction false} SplitSingleWord(s: string, sep: Separator)
    requires NoSeparator(s, sep)
    ensures Split(s, sep) == if s == [] then [] else [s]
  {
    if s != [] {
      FirstWordOf(s, [], sep);
      assert s + [] == s;
      assert s[|s|..] == [];
    }
  }

  /**
   * The words are the maximal runs of non-separators, in order: leading
   * separators are skipped, and a word that ends at a separator (or at the
   * end) is the first piece, followed by the pieces of what comes after it.
   */
  lemma {:induction false} SplitLeadingWord(p: string, w: string, rest: string, sep: Separator)
    requires AllSeparators(p, sep)
    requires w != [] && NoSeparator(w, sep)
    requires rest == [] || IsSeparator(rest[0], sep)
    ensures Split(p + w + rest, sep) == [w] + Split(rest, sep)
    decreases |p|
  {
    var t := p + w + rest;
    if p == [] {
      assert t == w + rest;
      FirstWordOf(w, rest, sep);
      assert t[|w|..] == rest;
    } else {
      assert t[0] == p[0];
      assert t[1..] == p[1..] + w + rest;
      SplitLeadingWord(p[1..], w, rest, sep);
    }
  }

  /** Splitting distributes over a separator: the pieces of x, then those of y. */
  lemma {:induction false} SplitAroundSeparator(x: string, c: char, y: string, sep: Separator)
    requires IsSeparator(c, sep)
    ensures Split(x + [c] + y, sep) == Split(x, sep) + Split(y, sep)
    decreases |x|, 1
  {
    var t := x + [c] + y;
    if x == [] {
      assert t == [c] + y;
      assert t[1..] == y;
    } else if IsSeparator(x[0], sep) {
      assert t[0] == x[0];
      assert t[1..] == x[1..] + [c] + y;
      SplitAroundSeparator(x[1..], c, y, sep);
    } else {
      SplitWordAroundSeparator(x, c, y, sep);
    }
  }

  /** The case of SplitAroundSeparator where x starts with a word. */
  lemma {:induction false} SplitWordAroundSeparator(x: string, c: char, y: string, sep: Separator)
    requires IsSeparator(c, sep)
    requires x != [] && !IsSeparator(x[0], sep)
    ensures Split(x + [c] + y, sep) == Split(x, sep) + Split(y, sep)
    decreases |x|, 0
  {
    var w := FirstWord(x, sep);
    var x' := x[|w|..];
    assert Split(x, sep) == [w] + Split(x', sep);
    var after := x' + [c] + y;
    assert Split(x + [c] + y, sep) == [w] + Split(after, sep) by {
      assert x + [c] + y == [] + w + after;
      assert after[0] == (if x' == [] then c else x'[0]);
      SplitLeadingWord([], w, after, sep);
    }
    SplitAroundSeparator(x', c, y, sep);
    assert [w] + (Split(x', sep) + Split(y, sep)) == ([w] + Split(x', sep)) + Split(y, sep);
  }

  /**
   * FParse::Param: some whitespace-separated token is the parameter name
   * after a '-' or a '/', ignoring case.
   */
  predicate HasParam(s: string, name: string)
  {
    exists k :: 0 <= k < |Split(s, AnyWhitespace)| &&
      (EqualsIgnoreCase(Split(s, AnyWhitespace)[k], "-" + name) ||
       EqualsIgnoreCase(Split(s, AnyWhitespace)[k], "/" + name))
  }
}
