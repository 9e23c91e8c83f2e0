// The fallback reader of PDF text: literal strings (section 7.3.4.2 of
// ISO 32000-1) are found and decoded in the raw file. Positions count
// characters.
module PdfLiterals {
  import opened Wrappers
  import opened Sequences
  import opened Text

  // ------------------------------------------------------ finding the end

  // How many backslashes stand right before a position.
  function BackslashesBefore(text: string, i: nat): nat
    requires i <= |text|
  {
    if i == 0 || text[i - 1] != '\\' then 0 else 1 + BackslashesBefore(text, i - 1)
  }

  // A closing parenthesis that is not escaped.
  predicate ClosesAt(text: string, i: nat) {
    i < |text| && text[i] == ')' && BackslashesBefore(text, i) % 2 == 0
  }

  // The first closing parenthesis after an even run of backslashes.
  ghost predicate IsEnd(text: string, end: Option<nat>) {
    match end
    case Some(e) => ClosesAt(text, e) && forall i :: 0 <= i < e ==> !ClosesAt(text, i)
    case None => forall i :: 0 <= i < |text| ==> !ClosesAt(text, i)
  }

  function EndFrom(text: string, i: nat): (end: Option<nat>)
    requires i <= |text|
    ensures end.Some? ==> i <= end.value < |text|
    decreases |text| - i
  {
    if i == |text| then None else if ClosesAt(text, i) then Some(i) else EndFrom(text, i + 1)
  }

  function EndOf(text: string): (end: Option<nat>)
    ensures end.Some? ==> end.value < |text|
  {
    EndFrom(text, 0)
  }

  lemma {:induction false} EndFromIsFirst(text: string, i: nat)
    requires i <= |text|
    ensures match EndFrom(text, i)
      case Some(e) => i <= e && ClosesAt(text, e) && forall j :: i <= j < e ==> !ClosesAt(text, j)
      case None => forall j :: i <= j < |text| ==> !ClosesAt(text, j)
    decreases |text| - i
  {
    if i < |text| && !ClosesAt(text, i) {
      EndFromIsFirst(text, i + 1);
    }
  }

  // There is only one end.
  lemma EndIsUnique(text: string, end: Option<nat>)
    ensures IsEnd(text, end) <==> end == EndOf(text)
  {
    EndFromIsFirst(text, 0);
  }

  method FindLiteralEnd(text: string) returns (end: Option<nat>)
    ensures IsEnd(text, end) && end == EndOf(text)
  {
    var escaped := false;
    for index := 0 to |text|
      invariant escaped <==> BackslashesBefore(text, index) % 2 == 1
      invariant forall i :: 0 <= i < index ==> !ClosesAt(text, i)
    {
      if escaped {
        escaped := false;
        continue;
      }
      match text[index]
      case '\\' => escaped := true;
      case ')' =>
        EndIsUnique(text, Some(index));
        return Some(index);
      case _ =>
    }
    EndIsUnique(text, None);
    return None;
  }

  // --------------------------------------------------------------- decoding

  // What a backslash and the character after it stand for.
  function Unescaped(c: char): string {
    match c
    case '(' | ')' | '\\' => [c]
    case 'n' => "\n"
    case 'r' => "\r"
    case 't' => "\t"
    case 'b' => "\U{0008}"
    case 'f' => "\U{000C}"
    case other => ['\\', other]
  }

  // Table 3 of ISO 32000-1: what a backslash and a character stand for there.
  function StandardEscape(c: char): Option<nat> {
    if c == 'n' then Some(0x0A) else if c == 'r' then Some(0x0D) else if c == 't' then Some(0x09)
    else if c == 'b' then Some(0x08) else if c == 'f' then Some(0x0C)
    else if c == '(' then Some(0x28) else if c == ')' then Some(0x29) else if c == '\\' then Some(0x5C)
    else None
  }

  // The decoder knows exactly these; where the standard drops a backslash, or
  // reads an octal number, it keeps the backslash.
  lemma EscapesAreTheStandards(c: char)
    ensures match StandardEscape(c)
      case Some(code) => |Unescaped(c)| == 1 && Unescaped(c)[0] as int == code
      case None => |Unescaped(c)| == 2 && Unescaped(c)[0] as int == 0x5C && Unescaped(c)[1] == c
  {
  }

  function Decoded(text: string): string
    decreases |text|
  {
    if text == "" then ""
    else if text[0] != '\\' then [text[0]] + Decoded(text[1..])
    else if |text| == 1 then "\\"
    else Unescaped(text[1]) + Decoded(text[2..])
  }

  // One turn of the loop: a plain character, a last backslash, or an escape.
  lemma DecodeStep(text: string, index: nat)
    requires index < |text|
    ensures text[index] != '\\' ==> Decoded(text[index..]) == [text[index]] + Decoded(text[index + 1..])
    ensures text[index] == '\\' && index + 1 == |text| ==> Decoded(text[index..]) == "\\"
    ensures text[index] == '\\' && index + 1 < |text| ==>
      Decoded(text[index..]) == Unescaped(text[index + 1]) + Decoded(text[index + 2..])
  {
    var rest := text[index..];
    assert rest[1..] == text[index + 1..];
    if index + 1 < |text| {
      assert rest[1] == text[index + 1] && rest[2..] == text[index + 2..];
    }
  }

  method DecodeLiteral(text: string) returns (decoded: string)
    ensures decoded == Decoded(text)
  {
    decoded := "";
    var index := 0;
    ghost var rest := Decoded(text);
    assert text[0..] == text;
    while index < |text|
      invariant 0 <= index <= |text| && rest == Decoded(text[index..])
      invariant decoded + rest == Decoded(text)
    {
      DecodeStep(text, index);
      var ch := text[index];
      index := index + 1;
      if ch != '\\' {
        rest := Decoded(text[index..]);
        Associate(decoded, [ch], rest);
        decoded := decoded + [ch];
        continue;
      }
      if index == |text| {
        decoded := decoded + "\\";
        return;
      }
      var next := text[index];
      index := index + 1;
      rest := Decoded(text[index..]);
      Associate(decoded, Unescaped(next), rest);
      decoded := decoded + Unescaped(next);
    }
    assert rest == "";
  }

  // ------------------------------------------------------------- round trip

  // One way to write part of a literal string.
  datatype Token = Plain(c: char) | Escape(c: char)

  predicate WellFormed(t: Token) { t.Plain? ==> t.c != '\\' && t.c != ')' }

  function Spelled(t: Token): string { if t.Plain? then [t.c] else ['\\', t.c] }

  function MeaningOf(t: Token): string { if t.Plain? then [t.c] else Unescaped(t.c) }

  function Written(tokens: seq<Token>): string {
    if tokens == [] then "" else Spelled(tokens[0]) + Written(tokens[1..])
  }

  function Meant(tokens: seq<Token>): string {
    if tokens == [] then "" else MeaningOf(tokens[0]) + Meant(tokens[1..])
  }

  lemma DecodeToken(t: Token, rest: string)
    requires WellFormed(t)
    ensures Decoded(Spelled(t) + rest) == MeaningOf(t) + Decoded(rest)
  {
    var text := Spelled(t) + rest;
    assert text[|Spelled(t)|..] == rest;
  }

  lemma {:induction false} DecodeWritten(tokens: seq<Token>)
    requires forall i :: 0 <= i < |tokens| ==> WellFormed(tokens[i])
    ensures Decoded(Written(tokens)) == Meant(tokens)
    decreases |tokens|
  {
    if tokens != [] {
      DecodeWritten(tokens[1..]);
      DecodeToken(tokens[0], Written(tokens[1..]));
    }
  }

  // From an unescaped place, a written token leads to an unescaped place and
  // closes nothing on the way.
  lemma PassToken(text: string, i: nat, t: Token)
    requires WellFormed(t) && i + |Spelled(t)| <= |text| && text[i..i + |Spelled(t)|] == Spelled(t)
    requires BackslashesBefore(text, i) % 2 == 0
    ensures BackslashesBefore(text, i + |Spelled(t)|) % 2 == 0
    ensures forall j :: i <= j < i + |Spelled(t)| ==> !ClosesAt(text, j)
  {
    assert text[i] == Spelled(t)[0];
    if t.Escape? {
      assert text[i + 1] == t.c;
      assert BackslashesBefore(text, i + 1) == 1 + BackslashesBefore(text, i);
    }
  }

  lemma SliceParts(text: string, i: nat, a: string, b: string)
    requires i + |a + b| <= |text| && text[i..i + |a + b|] == a + b
    ensures text[i..i + |a|] == a && text[i + |a|..i + |a| + |b|] == b
  {
    var whole := text[i..i + |a + b|];
    assert text[i..i + |a|] == whole[..|a|];
    assert text[i + |a|..i + |a| + |b|] == whole[|a|..];
  }

  lemma {:induction false} PassTokens(text: string, i: nat, tokens: seq<Token>)
    requires forall k :: 0 <= k < |tokens| ==> WellFormed(tokens[k])
    requires i + |Written(tokens)| <= |text| && text[i..i + |Written(tokens)|] == Written(tokens)
    requires BackslashesBefore(text, i) % 2 == 0
    ensures BackslashesBefore(text, i + |Written(tokens)|) % 2 == 0
    ensures forall j :: i <= j < i + |Written(tokens)| ==> !ClosesAt(text, j)
    decreases |tokens|
  {
    if tokens != [] {
      SliceParts(text, i, Spelled(tokens[0]), Written(tokens[1..]));
      PassToken(text, i, tokens[0]);
      PassTokens(text, i + |Spelled(tokens[0])|, tokens[1..]);
    }
  }

  // Whatever follows the closing parenthesis, the finder stops at it and the
  // decoder gives back what was meant.
  lemma LiteralReadsBack(tokens: seq<Token>, after: string)
    requires forall k :: 0 <= k < |tokens| ==> WellFormed(tokens[k])
    ensures var text := Written(tokens) + ")" + after;
      EndOf(text) == Some(|Written(tokens)|) && Decoded(text[..|Written(tokens)|]) == Meant(tokens)
  {
    var text := Written(tokens) + ")" + after;
    assert text[0..0 + |Written(tokens)|] == Written(tokens);
    PassTokens(text, 0, tokens);
    EndIsUnique(text, Some(|Written(tokens)|));
    assert text[..|Written(tokens)|] == Written(tokens);
    DecodeWritten(tokens);
  }

  // An opening parenthesis that is not escaped.
  predicate OpensAt(text: string, i: nat) {
    i < |text| && text[i] == '(' && BackslashesBefore(text, i) % 2 == 0
  }

  // The end that section 7.3.4.2 of ISO 32000-1 means: parentheses that are not
  // escaped may stand inside a literal in balanced pairs.
  function BalancedEnd(text: string, i: nat, depth: nat): (end: Option<nat>)
    ensures end.Some? ==> i <= end.value < |text|
    decreases |text| - i
  {
    if i >= |text| then None
    else if text[i] == '\\' then BalancedEnd(text, i + 2, depth)
    else if text[i] == '(' then BalancedEnd(text, i + 1, depth + 1)
    else if text[i] != ')' then BalancedEnd(text, i + 1, depth)
    else if depth == 0 then Some(i)
    else BalancedEnd(text, i + 1, depth - 1)
  }

  lemma SkipEscape(text: string, i: nat)
    requires i < |text| && text[i] == '\\' && BackslashesBefore(text, i) % 2 == 0
    ensures !ClosesAt(text, i) && !ClosesAt(text, i + 1) && !OpensAt(text, i) && !OpensAt(text, i + 1)
    ensures i + 2 <= |text| ==> BackslashesBefore(text, i + 2) % 2 == 0
  {
    assert BackslashesBefore(text, i + 1) == 1 + BackslashesBefore(text, i);
  }

  // From an unescaped place, up to the first place that closes, the balanced end
  // is that place exactly when nothing has been opened by then.
  lemma {:induction false} FirstCloseOrLater(text: string, i: nat, depth: nat, e: nat)
    requires i <= e && ClosesAt(text, e) && BackslashesBefore(text, i) % 2 == 0
    requires forall k :: i <= k < e ==> !ClosesAt(text, k)
    ensures BalancedEnd(text, i, depth) == Some(e) <==> depth == 0 && forall k :: i <= k < e ==> !OpensAt(text, k)
    decreases e - i
  {
    if i < e {
      if text[i] == '\\' {
        SkipEscape(text, i);
        FirstCloseOrLater(text, i + 2, depth, e);
      } else {
        assert !ClosesAt(text, i) && (OpensAt(text, i) <==> text[i] == '(');
        FirstCloseOrLater(text, i + 1, if text[i] == '(' then depth + 1 else depth, e);
      }
    }
  }

  lemma {:induction false} NoCloseNoEnd(text: string, i: nat, depth: nat)
    requires i <= |text| && BackslashesBefore(text, i) % 2 == 0
    requires forall k :: i <= k < |text| ==> !ClosesAt(text, k)
    ensures BalancedEnd(text, i, depth) == None
    decreases |text| - i
  {
    if i < |text| {
      if text[i] == '\\' {
        SkipEscape(text, i);
        if i + 2 <= |text| { NoCloseNoEnd(text, i + 2, depth); }
      } else {
        assert !ClosesAt(text, i);
        NoCloseNoEnd(text, i + 1, if text[i] == '(' then depth + 1 else depth);
      }
    }
  }

  // The finder's end is the standard's exactly when no unescaped parenthesis
  // opens before it; with none at all, the standard has none either.
  lemma EndIsTheStandards(text: string)
    ensures match EndOf(text)
      case Some(e) => BalancedEnd(text, 0, 0) == Some(e) <==> forall k :: 0 <= k < e ==> !OpensAt(text, k)
      case None => BalancedEnd(text, 0, 0) == None
  {
    EndFromIsFirst(text, 0);
    match EndOf(text)
    case Some(e) => FirstCloseOrLater(text, 0, 0, e);
    case None => NoCloseNoEnd(text, 0, 0);
  }

  // Parentheses opened and not closed before a position, escaped ones aside.
  function Level(text: string, i: nat): int
    requires i <= |text|
  {
    if i == 0 then 0
    else Level(text, i - 1) + if OpensAt(text, i - 1) then 1 else if ClosesAt(text, i - 1) then -1 else 0
  }

  lemma {:induction false} BalancedFrom(text: string, i: nat, depth: nat)
    requires i <= |text| && BackslashesBefore(text, i) % 2 == 0 && Level(text, i) == depth
    ensures match BalancedEnd(text, i, depth)
      case Some(e) => ClosesAt(text, e) && Level(text, e) == 0 && forall k :: i <= k < e && ClosesAt(text, k) ==> Level(text, k) > 0
      case None => forall k :: i <= k < |text| && ClosesAt(text, k) ==> Level(text, k) > 0
    decreases |text| - i
  {
    if i < |text| {
      if text[i] == '\\' {
        SkipEscape(text, i);
        if i + 2 <= |text| {
          assert Level(text, i + 1) == depth;
          BalancedFrom(text, i + 2, depth);
        }
      } else if text[i] == '(' {
        assert OpensAt(text, i);
        BalancedFrom(text, i + 1, depth + 1);
      } else if text[i] != ')' {
        BalancedFrom(text, i + 1, depth);
      } else {
        assert ClosesAt(text, i);
        if depth > 0 { BalancedFrom(text, i + 1, depth - 1); }
      }
    }
  }

  // The balanced end is the first closing parenthesis before which as many
  // were closed as opened.
  lemma BalancedEndIsFirst(text: string)
    ensures match BalancedEnd(text, 0, 0)
      case Some(e) => ClosesAt(text, e) && Level(text, e) == 0 && forall k :: 0 <= k < e && ClosesAt(text, k) ==> Level(text, k) > 0
      case None => forall k :: 0 <= k < |text| && ClosesAt(text, k) ==> Level(text, k) > 0
  {
    BalancedFrom(text, 0, 0);
  }

  predicate IsSpecial(c: char) { c == '(' || c == ')' || c == '\\' }

  // The parentheses and backslashes of a text, escaped.
  function Tokens(text: string): (tokens: seq<Token>)
    ensures |tokens| == |text| && forall i :: 0 <= i < |text| ==> WellFormed(tokens[i])
  {
    seq(|text|, i requires 0 <= i < |text| => if IsSpecial(text[i]) then Escape(text[i]) else Plain(text[i]))
  }

  lemma {:induction false} TokensMeanText(text: string)
    ensures Meant(Tokens(text)) == text
    decreases |text|
  {
    if text != "" {
      TokensMeanText(text[1..]);
      assert Tokens(text)[1..] == Tokens(text[1..]);
      assert MeaningOf(Tokens(text)[0]) == [text[0]];
    }
  }

  lemma EscapedTextReadsBack(text: string, after: string)
    ensures var escaped := Written(Tokens(text)); var whole := escaped + ")" + after;
      EndOf(whole) == Some(|escaped|) && Decoded(whole[..|escaped|]) == text
  {
    LiteralReadsBack(Tokens(text), after);
    TokensMeanText(text);
  }

  // ------------------------------------------------------------- extraction

  // The content of one literal, without its parentheses.
  datatype Span = Span(start: nat, end: nat)

  // The first literal from a position on.
  function First(raw: string, index: nat): (span: Option<Span>)
    requires index <= |raw|
    ensures span.Some? ==> index < span.value.start <= span.value.end < |raw|
  {
    var open := index + Find(raw[index..], '(');
    if open == |raw| then None
    else
      match EndOf(raw[open + 1..])
      case None => None
      case Some(relative) => Some(Span(open + 1, open + 1 + relative))
  }

  predicate Within(raw: string, spans: seq<Span>) {
    forall i :: 0 <= i < |spans| ==> spans[i].start <= spans[i].end <= |raw|
  }

  // Every literal from a position on.
  function Spans(raw: string, index: nat): (spans: seq<Span>)
    requires index <= |raw|
    ensures Within(raw, spans)
    decreases |raw| - index
  {
    match First(raw, index)
    case None => []
    case Some(s) => [s] + Spans(raw, s.end + 1)
  }

  ghost predicate IsLiteral(raw: string, from: nat, s: Span) {
    && from < s.start <= s.end < |raw|
    && raw[s.start - 1] == '(' && (forall i :: from <= i < s.start - 1 ==> raw[i] != '(')
    && EndOf(raw[s.start..]) == Some(s.end - s.start)
  }

  // Each literal starts at the first parenthesis after the one before it.
  ghost predicate InOrder(raw: string, index: nat, spans: seq<Span>)
    decreases |spans|
  {
    spans == [] || (IsLiteral(raw, index, spans[0]) && InOrder(raw, spans[0].end + 1, spans[1..]))
  }

  lemma FirstParenthesis(raw: string, index: nat)
    requires index <= |raw|
    ensures var open := index + Find(raw[index..], '(');
      open <= |raw| && (forall i :: index <= i < open ==> raw[i] != '(') && (open < |raw| ==> raw[open] == '(')
  {
    FindProperty(raw[index..], '(');
    var found := Find(raw[index..], '(');
    forall i | index <= i < index + found ensures raw[i] != '(' {
      assert raw[i] == raw[index..][i - index];
    }
  }

  lemma FirstIsLiteral(raw: string, index: nat)
    requires index <= |raw| && First(raw, index).Some?
    ensures IsLiteral(raw, index, First(raw, index).value)
  {
    var open := index + Find(raw[index..], '(');
    FirstParenthesis(raw, index);
  }

  lemma InOrderFrom(raw: string, index: nat, s: Span, rest: seq<Span>)
    requires IsLiteral(raw, index, s) && InOrder(raw, s.end + 1, rest)
    ensures InOrder(raw, index, [s] + rest)
  {
    assert ([s] + rest)[1..] == rest;
  }

  lemma SpansFrom(raw: string, index: nat, span: Option<Span>)
    requires index <= |raw| && span == First(raw, index)
    ensures span.None? ==> Spans(raw, index) == []
    ensures span.Some? ==> Spans(raw, index) == [span.value] + Spans(raw, span.value.end + 1)
  {
  }

  lemma NextSpan(raw: string, index: nat) returns (s: Option<Span>)
    requires index <= |raw|
    ensures s.None? ==> Spans(raw, index) == []
    ensures s.Some? ==> IsLiteral(raw, index, s.value) && Spans(raw, index) == [s.value] + Spans(raw, s.value.end + 1)
  {
    s := First(raw, index);
    SpansFrom(raw, index, s);
    if s.Some? { FirstIsLiteral(raw, index); }
  }

  lemma {:induction false} SpansInOrder(raw: string, index: nat)
    requires index <= |raw|
    ensures InOrder(raw, index, Spans(raw, index))
    decreases |raw| - index
  {
    var s := NextSpan(raw, index);
    if s.Some? {
      SpansInOrder(raw, s.value.end + 1);
      InOrderFrom(raw, index, s.value, Spans(raw, s.value.end + 1));
    }
  }

  // So the literals are disjoint and in order.
  lemma {:induction false} SpansAreDisjoint(raw: string, index: nat, spans: seq<Span>, i: nat, j: nat)
    requires InOrder(raw, index, spans) && i < j < |spans|
    ensures index < spans[i].start <= spans[i].end && spans[i].end + 1 < spans[j].start <= spans[j].end < |raw|
    decreases |spans|
  {
    if i > 0 {
      SpansAreDisjoint(raw, spans[0].end + 1, spans[1..], i - 1, j - 1);
    } else {
      LaterSpan(raw, spans[0].end + 1, spans[1..], j - 1);
    }
  }

  lemma {:induction false} LaterSpan(raw: string, index: nat, spans: seq<Span>, j: nat)
    requires InOrder(raw, index, spans) && j < |spans|
    ensures index < spans[j].start <= spans[j].end < |raw|
    decreases |spans|
  {
    if j > 0 {
      LaterSpan(raw, spans[0].end + 1, spans[1..], j - 1);
    }
  }

  function ByteWidth(c: char): nat {
    var n := c as int;
    if n < 0x80 then 1 else if n < 0x800 then 2 else if n < 0x1_0000 then 3 else 4
  }

  function BytesTo(text: string, n: nat): nat
    requires n <= |text|
  {
    if n == 0 then 0 else BytesTo(text, n - 1) + ByteWidth(text[n - 1])
  }

  // The length of a text in the bytes of UTF-8.
  function ByteLength(text: string): nat { BytesTo(text, |text|) }

  predicate HasLetter(text: string, alphabetic: char -> bool) {
    exists i :: 0 <= i < |text| && alphabetic(text[i])
  }

  function Contribution(raw: string, s: Span, alphabetic: char -> bool): string
    requires s.start <= s.end <= |raw|
  {
    var candidate := Decoded(raw[s.start..s.end]);
    if HasLetter(candidate, alphabetic) then candidate + "\n" else ""
  }

  // A literal adds what it decodes to, and a line end, exactly when that has a
  // letter.
  lemma ContributionHasLetters(raw: string, s: Span, alphabetic: char -> bool)
    requires s.start <= s.end <= |raw|
    ensures var text := Decoded(raw[s.start..s.end]);
      if HasLetter(text, alphabetic) then Contribution(raw, s, alphabetic) == text + "\n"
      else Contribution(raw, s, alphabetic) == ""
    ensures HasLetter(Decoded(raw[s.start..s.end]), alphabetic) <==> HasOneOf(Decoded(raw[s.start..s.end]), alphabetic)
  {
    LetterIsOne(Decoded(raw[s.start..s.end]), alphabetic);
  }

  ghost predicate HasOneOf(text: string, alphabetic: char -> bool) { exists c :: c in text && alphabetic(c) }

  lemma LetterIsOne(text: string, alphabetic: char -> bool)
    ensures HasLetter(text, alphabetic) <==> HasOneOf(text, alphabetic)
  {
    if HasLetter(text, alphabetic) {
      var i :| 0 <= i < |text| && alphabetic(text[i]);
      assert text[i] in text;
    }
    if HasOneOf(text, alphabetic) {
      var c :| c in text && alphabetic(c);
      var i :| 0 <= i < |text| && text[i] == c;
      assert alphabetic(text[i]);
    }
  }

  // What each literal adds to the text.
  function Contributions(raw: string, spans: seq<Span>, alphabetic: char -> bool): (pieces: seq<string>)
    requires Within(raw, spans)
  {
    if spans == [] then []
    else [Contribution(raw, spans[0], alphabetic)] + Contributions(raw, spans[1..], alphabetic)
  }

  // What the literals from a position on add to the text.
  function Pieces(raw: string, index: nat, alphabetic: char -> bool): seq<string>
    requires index <= |raw|
  {
    Contributions(raw, Spans(raw, index), alphabetic)
  }

  // Pieces are added until the text is long enough.
  function Gathered(pieces: seq<string>, text: string, max: nat): string
    decreases |pieces|
  {
    if pieces == [] then text
    else
      var longer := text + pieces[0];
      if ByteLength(longer) >= max then longer else Gathered(pieces[1..], longer, max)
  }

  method FirstLiteral(raw: string, index: nat) returns (span: Option<Span>)
    requires index <= |raw|
    ensures span == First(raw, index)
  {
    var start := Find(raw[index..], '(');
    if index + start == |raw| {
      return None;
    }
    start := index + start + 1;
    var end := FindLiteralEnd(raw[start..]);
    if end.None? {
      return None;
    }
    span := Some(Span(start, start + end.value));
  }

  method LiteralText(raw: string, s: Span, alphabetic: char -> bool) returns (text: string)
    requires s.start <= s.end <= |raw|
    ensures text == Contribution(raw, s, alphabetic)
  {
    var candidate := DecodeLiteral(raw[s.start..s.end]);
    text := if HasLetter(candidate, alphabetic) then candidate + "\n" else "";
  }

  lemma ContributionsFrom(raw: string, s: Span, rest: seq<Span>, alphabetic: char -> bool)
    requires s.start <= s.end <= |raw| && Within(raw, rest)
    ensures Within(raw, [s] + rest)
    ensures Contributions(raw, [s] + rest, alphabetic) ==
            [Contribution(raw, s, alphabetic)] + Contributions(raw, rest, alphabetic)
  {
    assert ([s] + rest)[1..] == rest;
  }

  lemma PiecesFrom(raw: string, index: nat, alphabetic: char -> bool, span: Option<Span>)
    requires index <= |raw| && span == First(raw, index)
    ensures span.None? ==> Pieces(raw, index, alphabetic) == []
    ensures span.Some? ==>
      Pieces(raw, index, alphabetic) ==
      [Contribution(raw, span.value, alphabetic)] + Pieces(raw, span.value.end + 1, alphabetic)
  {
    SpansFrom(raw, index, span);
    if span.Some? {
      ContributionsFrom(raw, span.value, Spans(raw, span.value.end + 1), alphabetic);
    }
  }

  // The next literal, with what it and those after it add.
  method NextLiteral(raw: string, index: nat, ghost alphabetic: char -> bool) returns (span: Option<Span>)
    requires index <= |raw|
    ensures span.None? ==> Pieces(raw, index, alphabetic) == []
    ensures span.Some? ==> index < span.value.start <= span.value.end < |raw|
    ensures span.Some? ==>
      Pieces(raw, index, alphabetic) ==
      [Contribution(raw, span.value, alphabetic)] + Pieces(raw, span.value.end + 1, alphabetic)
  {
    span := FirstLiteral(raw, index);
    PiecesFrom(raw, index, alphabetic, span);
  }

  // What the next literal adds, and where to look for the one after it.
  method NextPiece(raw: string, index: nat, alphabetic: char -> bool) returns (piece: Option<string>, next: nat)
    requires index <= |raw|
    ensures piece.None? ==> Pieces(raw, index, alphabetic) == []
    ensures piece.Some? ==> index < next <= |raw|
    ensures piece.Some? ==> Pieces(raw, index, alphabetic) == [piece.value] + Pieces(raw, next, alphabetic)
  {
    var span := NextLiteral(raw, index, alphabetic);
    if span.None? {
      return None, index;
    }
    var text := LiteralText(raw, span.value, alphabetic);
    piece, next := Some(text), span.value.end + 1;
  }

  lemma GatherOne(piece: string, pieces: seq<string>, text: string, max: nat)
    ensures Gathered([piece] + pieces, text, max) ==
            if ByteLength(text + piece) >= max then text + piece else Gathered(pieces, text + piece, max)
  {
    assert ([piece] + pieces)[1..] == pieces;
  }

  function Joined(pieces: seq<string>): string {
    if pieces == [] then "" else pieces[0] + Joined(pieces[1..])
  }

  // The gathered text is that of the first n pieces, where n is the first
  // number, other than zero, of pieces that are long enough together, or else
  // the number of all pieces.
  lemma {:induction false} GatheredIsPrefix(pieces: seq<string>, text: string, max: nat) returns (n: nat)
    ensures n <= |pieces| && Gathered(pieces, text, max) == text + Joined(pieces[..n])
    ensures n < |pieces| ==> n > 0 && ByteLength(text + Joined(pieces[..n])) >= max
    ensures forall m :: 0 < m < n ==> ByteLength(text + Joined(pieces[..m])) < max
    decreases |pieces|
  {
    if pieces == [] {
      return 0;
    }
    JoinedFrom(pieces, text, 1);
    var longer := text + pieces[0];
    if ByteLength(longer) >= max {
      return 1;
    }
    var rest := GatheredIsPrefix(pieces[1..], longer, max);
    n := rest + 1;
    JoinedFrom(pieces, text, n);
    forall m | 0 < m < n ensures ByteLength(text + Joined(pieces[..m])) < max {
      JoinedFrom(pieces, text, m);
    }
  }

  lemma JoinedFrom(pieces: seq<string>, text: string, n: nat)
    requires 0 < n <= |pieces|
    ensures text + Joined(pieces[..n]) == (text + pieces[0]) + Joined(pieces[1..][..n - 1])
    ensures n == 1 ==> text + Joined(pieces[..n]) == text + pieces[0]
  {
    assert pieces[..n][1..] == pieces[1..][..n - 1];
    Associate(text, pieces[0], Joined(pieces[1..][..n - 1]));
  }

  method GatherText(raw: string, alphabetic: char -> bool, max: nat) returns (text: string)
    ensures text == Gathered(Pieces(raw, 0, alphabetic), "", max)
  {
    text := "";
    var index := 0;
    ghost var pieces := Pieces(raw, 0, alphabetic);
    ghost var whole := Gathered(pieces, text, max);
    while true
      invariant 0 <= index <= |raw| && pieces == Pieces(raw, index, alphabetic)
      invariant Gathered(pieces, text, max) == whole
      decreases |raw| - index
    {
      var piece, next := NextPiece(raw, index, alphabetic);
      if piece.None? {
        break;
      }
      pieces := Pieces(raw, next, alphabetic);
      GatherOne(piece.value, pieces, text, max);
      text := text + piece.value;
      index := next;
      if ByteLength(text) >= max {
        break;
      }
    }
  }

  const UNAVAILABLE := "[PDF text extraction unavailable: pdfium not installed and no plain text objects found]"

  // A blank text says so; a long one is cut.
  function Shown(text: string, max: nat): string {
    var said := if Trim(text) == "" then text + UNAVAILABLE else text;
    Take(said, max)
  }

  method FallbackPdfText(raw: string, alphabetic: char -> bool, maxTextChars: nat) returns (r: string)
    ensures r == Shown(Gathered(Pieces(raw, 0, alphabetic), "", maxTextChars), maxTextChars)
    ensures |r| <= maxTextChars
  {
    var text := GatherText(raw, alphabetic, maxTextChars);
    r := Shown(text, maxTextChars);
  }
}
