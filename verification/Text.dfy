// The string operations of Rust's standard library that several components
// rely on, over sequences of characters.
module Text {
  import opened Wrappers

  // char::is_whitespace: the Unicode White_Space property.
  predicate IsBlank(c: char) {
    var n := c as int;
    || 0x09 <= n <= 0x0D || n == 0x20 || n == 0x85 || n == 0xA0 || n == 0x1680
    || 0x2000 <= n <= 0x200A || n == 0x2028 || n == 0x2029 || n == 0x202F
    || n == 0x205F || n == 0x3000
  }

  // The characters with that property, by their code points.
  const BLANKS: set<int> := {
    9, 10, 11, 12, 13, 32, 133, 160, 5760, 8192, 8193, 8194, 8195, 8196, 8197, 8198, 8199, 8200, 8201, 8202,
    8232, 8233, 8239, 8287, 12288}

  lemma BlankIsListed(c: char)
    ensures IsBlank(c) <==> c as int in BLANKS
  {
  }

  function TrimStart(s: string): string {
    if s != [] && IsBlank(s[0]) then TrimStart(s[1..]) else s
  }

  function TrimEnd(s: string): string {
    if s != [] && IsBlank(s[|s| - 1]) then TrimEnd(s[..|s| - 1]) else s
  }

  // str::trim
  function Trim(s: string): string { TrimEnd(TrimStart(s)) }

  // No blank at either end.
  predicate Trimmed(s: string) {
    s != [] ==> !IsBlank(s[0]) && !IsBlank(s[|s| - 1])
  }

  lemma {:induction false} TrimEndProperty(s: string)
    ensures |TrimEnd(s)| <= |s| && TrimEnd(s) == s[..|TrimEnd(s)|]
    ensures TrimEnd(s) != [] ==> !IsBlank(TrimEnd(s)[|TrimEnd(s)| - 1])
    ensures TrimEnd(s) == s || |TrimEnd(s)| < |s|
  {
    if s != [] && IsBlank(s[|s| - 1]) {
      TrimEndProperty(s[..|s| - 1]);
    }
  }

  lemma {:induction false} TrimStartProperty(s: string)
    ensures |TrimStart(s)| <= |s|
    ensures TrimStart(s) != [] ==> !IsBlank(TrimStart(s)[0])
    ensures TrimStart(s) == s || |TrimStart(s)| < |s|
  {
    if s != [] && IsBlank(s[0]) {
      TrimStartProperty(s[1..]);
    }
  }

  // Trimming removes every surrounding blank, and changes a string exactly
  // when it has one.
  lemma TrimProperty(s: string)
    ensures Trimmed(Trim(s)) && |Trim(s)| <= |s|
    ensures Trim(s) == s <==> Trimmed(s)
    ensures Trim(s) != s ==> |Trim(s)| < |s|
  {
    TrimStartProperty(s);
    TrimEndProperty(TrimStart(s));
  }

  predicate AllBlank(s: string) { forall i :: 0 <= i < |s| ==> IsBlank(s[i]) }

  lemma {:induction false} TrimStartIsRest(s: string) returns (before: string)
    ensures s == before + TrimStart(s) && AllBlank(before)
  {
    if s != [] && IsBlank(s[0]) {
      var rest := TrimStartIsRest(s[1..]);
      before := [s[0]] + rest;
    } else {
      before := "";
    }
  }

  lemma {:induction false} TrimEndIsFront(s: string) returns (after: string)
    ensures s == TrimEnd(s) + after && AllBlank(after)
  {
    if s != [] && IsBlank(s[|s| - 1]) {
      var rest := TrimEndIsFront(s[..|s| - 1]);
      after := rest + [s[|s| - 1]];
    } else {
      after := "";
    }
  }

  // Trimming takes away nothing but blanks, from both ends.
  lemma TrimIsMiddle(s: string) returns (before: string, after: string)
    ensures s == before + Trim(s) + after && AllBlank(before) && AllBlank(after)
  {
    before := TrimStartIsRest(s);
    after := TrimEndIsFront(TrimStart(s));
  }

  // Nothing is left of a string exactly when it is all blank.
  lemma TrimIsEmpty(s: string)
    ensures Trim(s) == "" <==> AllBlank(s)
  {
    var before, after := TrimIsMiddle(s);
    TrimProperty(s);
    if Trim(s) != "" {
      assert s[|before|] == Trim(s)[0];
    }
  }

  function LowerChar(c: char): char {
    if 'A' <= c <= 'Z' then (c as int + 32) as char else c
  }

  const UPPER_LETTERS := "ABCDEFGHIJKLMNOPQRSTUVWXYZ"
  const LOWER_LETTERS := "abcdefghijklmnopqrstuvwxyz"

  lemma LowerIsByAlphabet(c: char, i: nat)
    requires i < 26
    ensures |UPPER_LETTERS| == |LOWER_LETTERS| == 26 && LowerChar(UPPER_LETTERS[i]) == LOWER_LETTERS[i]
    ensures c !in UPPER_LETTERS ==> LowerChar(c) == c
  {
    if 'A' <= c <= 'Z' {
      assert UPPER_LETTERS[c as int - 65] == c;
    }
  }

  // str::to_ascii_lowercase
  function Lower(s: string): (r: string)
    ensures |r| == |s|
    ensures forall i :: 0 <= i < |s| ==> r[i] == LowerChar(s[i])
  {
    seq(|s|, i requires 0 <= i < |s| => LowerChar(s[i]))
  }

  // str::starts_with
  predicate StartsWith(s: string, prefix: string) { prefix <= s }

  lemma StartsWithSays(s: string, prefix: string)
    ensures StartsWith(s, prefix) <==> exists rest :: s == prefix + rest
  {
    if StartsWith(s, prefix) {
      assert s == prefix + s[|prefix|..];
    }
  }

  // Index of the first occurrence, or the length when there is none.
  function Find(s: string, c: char): (i: nat)
    ensures i <= |s|
  {
    if s == [] || s[0] == c then 0 else 1 + Find(s[1..], c)
  }

  lemma {:induction false} FindProperty(s: string, c: char)
    ensures Find(s, c) < |s| ==> s[Find(s, c)] == c
    ensures forall k :: 0 <= k < Find(s, c) ==> s[k] != c
  {
    if s != [] && s[0] != c {
      FindProperty(s[1..], c);
      forall k | 0 <= k < Find(s, c) ensures s[k] != c {
        if k > 0 { assert s[k] == s[1..][k - 1]; }
      }
    }
  }

  lemma {:induction false} FindAt(s: string, c: char, i: nat)
    requires i <= |s| && (forall k :: 0 <= k < i ==> s[k] != c) && (i < |s| ==> s[i] == c)
    ensures Find(s, c) == i
  {
    if i > 0 {
      FindAt(s[1..], c, i - 1);
    }
  }

  // str::split_once on one character
  function SplitOnce(s: string, c: char): Option<(string, string)> {
    var i := Find(s, c);
    if i < |s| then Some((s[..i], s[i + 1..])) else None
  }

  // What stands before and after the first occurrence.
  lemma SplitOnceSays(s: string, c: char)
    ensures match SplitOnce(s, c)
      case Some((before, after)) => s == before + [c] + after && c !in before
      case None => c !in s
  {
    FindProperty(s, c);
  }

  function StripReturn(s: string): string {
    if s != [] && s[|s| - 1] == '\r' then s[..|s| - 1] else s
  }

  // str::lines: newline ends a line, a preceding carriage return is dropped,
  // and a final newline starts no further line.
  function Lines(s: string): seq<string>
    decreases |s|
  {
    if s == [] then []
    else
      var i := Find(s, '\n');
      if i < |s| then [StripReturn(s[..i])] + Lines(s[i + 1..])
      else [s]
  }

  // A newline ends a line; what is left without one is a line as it stands.
  lemma LineEndsAtNewline(line: string, rest: string)
    requires '\n' !in line
    ensures Lines(line + ("\n" + rest)) == [StripReturn(line)] + Lines(rest)
  {
    var text := line + ("\n" + rest);
    FindAt(text, '\n', |line|);
    assert text[..|line|] == line && text[|line| + 1..] == rest;
  }

  lemma LastLine(line: string)
    requires '\n' !in line
    ensures Lines(line) == if line == "" then [] else [line]
  {
    FindAt(line, '\n', |line|);
  }

  // Only one carriage return is dropped.
  lemma ReturnIsDropped(line: string)
    ensures StripReturn(line + "\r") == line
    ensures line == "" || line[|line| - 1] != '\r' ==> StripReturn(line) == line
  {
  }

  function Digit(d: nat): char
    requires d < 10
  {
    ('0' as int + d) as char
  }

  predicate IsDigit(c: char) { '0' <= c <= '9' }

  lemma DigitIsListed(c: char)
    ensures IsDigit(c) <==> c in "0123456789"
  {
    if IsDigit(c) {
      assert "0123456789"[c as int - 48] == c;
    }
  }

  function DigitValue(c: char): nat
    requires IsDigit(c)
  {
    c as int - '0' as int
  }

  // Decimal rendering of a natural number.
  function Decimal(n: nat): (s: string)
    ensures s != [] && forall i :: 0 <= i < |s| ==> IsDigit(s[i])
  {
    if n < 10 then [Digit(n)] else Decimal(n / 10) + [Digit(n % 10)]
  }

  // {:02} formatting
  function Padded(n: nat): (s: string)
    ensures s != [] && forall i :: 0 <= i < |s| ==> IsDigit(s[i])
  {
    if n < 10 then "0" + Decimal(n) else Decimal(n)
  }

  function DigitsValue(s: string): nat
    requires forall i :: 0 <= i < |s| ==> IsDigit(s[i])
  {
    if s == [] then 0 else DigitsValue(s[..|s| - 1]) * 10 + DigitValue(s[|s| - 1])
  }

  lemma {:induction false} ZerosInFrontDoNotCount(s: string)
    requires forall i :: 0 <= i < |s| ==> IsDigit(s[i])
    ensures DigitsValue("0" + s) == DigitsValue(s)
    decreases |s|
  {
    if s != [] {
      ZerosInFrontDoNotCount(s[..|s| - 1]);
      assert ("0" + s)[..|s|] == "0" + s[..|s| - 1];
    }
  }

  predicate IsNumber(digits: string) { digits != "" && forall i :: 0 <= i < |digits| ==> IsDigit(digits[i]) }

  // str::parse for an unsigned integer type with the given largest value: an
  // optional plus sign, at least one digit, no overflow.
  function ParseUnsigned(s: string, max: nat): Option<nat> {
    var digits := if s != [] && s[0] == '+' then s[1..] else s;
    if IsNumber(digits) && DigitsValue(digits) <= max then Some(DigitsValue(digits)) else None
  }

  lemma {:induction false} DigitsOfDecimal(n: nat)
    ensures DigitsValue(Decimal(n)) == n
  {
    if n >= 10 {
      DigitsOfDecimal(n / 10);
      assert Decimal(n)[..|Decimal(n)| - 1] == Decimal(n / 10);
    }
  }

  // Printing then parsing a number that fits returns it.
  lemma ParseDecimal(n: nat, max: nat)
    requires n <= max
    ensures ParseUnsigned(Decimal(n), max) == Some(n)
  {
    DigitsOfDecimal(n);
    assert IsDigit(Decimal(n)[0]);
  }

  lemma {:induction false} DecimalHasNoLeadingZero(n: nat)
    ensures n < 10 ==> Decimal(n) == ["0123456789"[n]]
    ensures n > 0 ==> Decimal(n)[0] != '0'
    ensures Padded(n) == if n < 10 then ['0', "0123456789"[n]] else Decimal(n)
  {
    if n >= 10 {
      DecimalHasNoLeadingZero(n / 10);
    }
  }

  // A text is a number when it is digits, with a plus sign before them or not,
  // and none when it is anything else or too large.
  lemma ParseUnsignedSays(s: string, max: nat)
    ensures forall digits :: IsNumber(digits) && (s == digits || s == "+" + digits) ==>
      ParseUnsigned(s, max) == if DigitsValue(digits) <= max then Some(DigitsValue(digits)) else None
    ensures ParseUnsigned(s, max).Some? ==> exists digits :: IsNumber(digits) && (s == digits || s == "+" + digits)
  {
    forall digits | IsNumber(digits) && (s == digits || s == "+" + digits)
      ensures ParseUnsigned(s, max) == if DigitsValue(digits) <= max then Some(DigitsValue(digits)) else None
    {
      assert IsDigit(digits[0]);
      assert s == "+" + digits ==> s[1..] == digits;
    }
    if ParseUnsigned(s, max).Some? {
      if s[0] == '+' {
        assert s == "+" + s[1..] && IsNumber(s[1..]);
      } else {
        assert IsNumber(s);
      }
    }
  }
}
