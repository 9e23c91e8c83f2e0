// Escaping text for XML: five whole-string replacements in a row, the
// ampersand first.
module XmlEscape {
  import opened Wrappers

  // str::replace of one character by a text.
  function Replace(s: string, c: char, text: string): string {
    if s == "" then "" else (if s[0] == c then text else [s[0]]) + Replace(s[1..], c, text)
  }

  // escape_xml
  function EscapeXml(value: string): string {
    Replace(Replace(Replace(Replace(Replace(value,
      '&', "&amp;"),
      '<', "&lt;"),
      '>', "&gt;"),
      '"', "&quot;"),
      '\'', "&apos;")
  }

  // The predefined entities (section 4.6 of XML 1.0).
  function Entity(c: char): string {
    match c
    case '&' => "&amp;"
    case '<' => "&lt;"
    case '>' => "&gt;"
    case '"' => "&quot;"
    case '\'' => "&apos;"
    case _ => [c]
  }

  // One substitution of every character at once.
  function Substituted(s: string): string {
    if s == "" then "" else Entity(s[0]) + Substituted(s[1..])
  }

  lemma {:induction false} ReplaceJoin(a: string, b: string, c: char, text: string)
    ensures Replace(a + b, c, text) == Replace(a, c, text) + Replace(b, c, text)
    decreases |a|
  {
    if a == "" {
      assert a + b == b;
    } else {
      ReplaceJoin(a[1..], b, c, text);
      assert (a + b)[1..] == a[1..] + b;
    }
  }

  lemma {:induction false} ReplaceNothing(s: string, c: char, text: string)
    requires c !in s
    ensures Replace(s, c, text) == s
  {
    if s != "" {
      ReplaceNothing(s[1..], c, text);
    }
  }

  lemma EscapeJoin(a: string, b: string)
    ensures EscapeXml(a + b) == EscapeXml(a) + EscapeXml(b)
  {
    ReplaceJoin(a, b, '&', "&amp;");
    var a1, b1 := Replace(a, '&', "&amp;"), Replace(b, '&', "&amp;");
    ReplaceJoin(a1, b1, '<', "&lt;");
    var a2, b2 := Replace(a1, '<', "&lt;"), Replace(b1, '<', "&lt;");
    ReplaceJoin(a2, b2, '>', "&gt;");
    var a3, b3 := Replace(a2, '>', "&gt;"), Replace(b2, '>', "&gt;");
    ReplaceJoin(a3, b3, '"', "&quot;");
    var a4, b4 := Replace(a3, '"', "&quot;"), Replace(b3, '"', "&quot;");
    ReplaceJoin(a4, b4, '\'', "&apos;");
  }

  predicate IsMarkup(c: char) { c == '<' || c == '>' || c == '"' || c == '\'' }

  // An entity holds no character that a later replacement looks for.
  lemma EntityIsClean(c: char)
    ensures forall i :: 0 <= i < |Entity(c)| ==> !IsMarkup(Entity(c)[i])
  {
  }

  // One of the replacements, on a character that an earlier one may have
  // turned into its entity.
  lemma Stage(c: char, replaced: bool, target: char)
    requires replaced ==> IsMarkup(target)
    ensures Replace(if replaced then Entity(c) else [c], target, Entity(target)) ==
            if replaced || c == target then Entity(c) else [c]
  {
    if replaced {
      EntityIsClean(c);
      ReplaceNothing(Entity(c), target, Entity(target));
    } else {
      assert [c][1..] == "";
      assert Replace([c], target, Entity(target)) == (if c == target then Entity(target) else [c]) + "";
    }
  }

  lemma EscapeOne(c: char)
    ensures EscapeXml([c]) == Entity(c)
  {
    Stage(c, false, '&');
    Stage(c, c == '&', '<');
    Stage(c, c == '&' || c == '<', '>');
    Stage(c, c == '&' || c == '<' || c == '>', '"');
    Stage(c, c == '&' || c == '<' || c == '>' || c == '"', '\'');
  }

  // The five replacements are one simultaneous substitution.
  lemma {:induction false} EscapeIsSubstitution(s: string)
    ensures EscapeXml(s) == Substituted(s)
  {
    if s != "" {
      assert s == [s[0]] + s[1..];
      EscapeJoin([s[0]], s[1..]);
      EscapeOne(s[0]);
      EscapeIsSubstitution(s[1..]);
    }
  }

  ghost predicate NoMarkup(s: string) { forall i :: 0 <= i < |s| ==> !IsMarkup(s[i]) }

  lemma {:induction false} SubstitutedIsClean(s: string)
    ensures NoMarkup(Substituted(s))
  {
    if s != "" {
      EntityIsClean(s[0]);
      SubstitutedIsClean(s[1..]);
    }
  }

  // No raw angle bracket or quote is left.
  lemma EscapedIsClean(s: string)
    ensures NoMarkup(EscapeXml(s))
  {
    EscapeIsSubstitution(s);
    SubstitutedIsClean(s);
  }

  // ---------------------------------------------------------------- decoding

  // The character of the entity that a text starts with.
  function EntityAt(s: string): Option<char> {
    if "&amp;" <= s then Some('&')
    else if "&lt;" <= s then Some('<')
    else if "&gt;" <= s then Some('>')
    else if "&quot;" <= s then Some('"')
    else if "&apos;" <= s then Some('\'')
    else None
  }

  // Decoding in one pass; an ampersand that starts no entity is an error.
  function Decode(s: string): Option<string>
    decreases |s|
  {
    if s == "" then Some("")
    else if s[0] != '&' then Put(s[0], Decode(s[1..]))
    else
      match EntityAt(s)
      case None => None
      case Some(c) => Put(c, Decode(s[|Entity(c)|..]))
  }

  function Put(c: char, rest: Option<string>): Option<string> {
    if rest.Some? then Some([c] + rest.value) else None
  }

  lemma EntityAtEntity(c: char, rest: string)
    requires IsMarkup(c) || c == '&'
    ensures EntityAt(Entity(c) + rest) == Some(c)
  {
    var s := Entity(c) + rest;
    assert Entity(c) <= s;
    assert s[1] == Entity(c)[1] && s[2] == Entity(c)[2];
  }

  lemma DecodeOne(c: char, rest: string)
    ensures Decode(Entity(c) + rest) == Put(c, Decode(rest))
  {
    var s := Entity(c) + rest;
    assert s[|Entity(c)|..] == rest && s[0] == Entity(c)[0];
    if IsMarkup(c) || c == '&' {
      EntityAtEntity(c, rest);
    }
  }

  lemma {:induction false} DecodeSubstituted(s: string)
    ensures Decode(Substituted(s)) == Some(s)
  {
    if s != "" {
      DecodeSubstituted(s[1..]);
      DecodeOne(s[0], Substituted(s[1..]));
      assert s == [s[0]] + s[1..];
    }
  }

  // Decoding recovers every input.
  lemma DecodeEscaped(s: string)
    ensures Decode(EscapeXml(s)) == Some(s)
  {
    EscapeIsSubstitution(s);
    DecodeSubstituted(s);
  }

  lemma EscapeIsInjective(a: string, b: string)
    requires EscapeXml(a) == EscapeXml(b)
    ensures a == b
  {
    DecodeEscaped(a);
    DecodeEscaped(b);
  }

  // The other way round: a decodable text without raw markup is what its
  // meaning escapes to, so these are exactly the outputs of escaping.
  lemma {:induction false} SubstituteDecoded(s: string)
    requires NoMarkup(s) && Decode(s).Some?
    ensures Substituted(Decode(s).value) == s
    decreases |s|
  {
    if s != "" {
      var c := if s[0] != '&' then s[0] else EntityAt(s).value;
      var rest := s[|Entity(c)|..];
      assert s == Entity(c) + rest;
      SubstituteDecoded(rest);
      assert ([c] + Decode(rest).value)[1..] == Decode(rest).value;
    }
  }

  lemma EscapedExactly(s: string)
    ensures (exists text :: EscapeXml(text) == s) <==> NoMarkup(s) && Decode(s).Some?
  {
    if text :| EscapeXml(text) == s {
      EscapedIsClean(text);
      DecodeEscaped(text);
    }
    if NoMarkup(s) && Decode(s).Some? {
      SubstituteDecoded(s);
      EscapeIsSubstitution(Decode(s).value);
    }
  }
}
