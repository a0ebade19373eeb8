/** The browser client's XML escaping (`_xml`, client/voice_llwebrtc.js). */
module ClientXml {

  /** `s.replace(/c/g, r)`: every occurrence is replaced, the replacement is not rescanned. */
  function ReplaceAll(s: string, c: char, r: string): string {
    if s == "" then "" else (if s[0] == c then r else [s[0]]) + ReplaceAll(s[1..], c, r)
  }

  function Xml(s: string): string {
    ReplaceAll(ReplaceAll(ReplaceAll(ReplaceAll(ReplaceAll(s,
      '&', "&amp;"),
      '<', "&lt;"),
      '>', "&gt;"),
      '"', "&quot;"),
      '\'', "&apos;")
  }

  // ---------------------------------------------------------------------------
  // Reference: one pass, one character at a time
  // ---------------------------------------------------------------------------

  /** Section 4.6 of XML 1.0. */
  function Entity(c: char): string {
    match c
    case '&' => "&amp;"
    case '<' => "&lt;"
    case '>' => "&gt;"
    case '"' => "&quot;"
    case '\'' => "&apos;"
    case _ => [c]
  }

  function EscapeEach(s: string): string {
    if s == "" then "" else Entity(s[0]) + EscapeEach(s[1..])
  }

  /** What an XML reader makes of the five predefined entities. */
  function Unescape(t: string): string {
    if t == "" then ""
    else if "&amp;" <= t then "&" + Unescape(t[5..])
    else if "&lt;" <= t then "<" + Unescape(t[4..])
    else if "&gt;" <= t then ">" + Unescape(t[4..])
    else if "&quot;" <= t then "\"" + Unescape(t[6..])
    else if "&apos;" <= t then "'" + Unescape(t[6..])
    else [t[0]] + Unescape(t[1..])
  }

  predicate StartsWithEntity(t: string) {
    "&amp;" <= t || "&lt;" <= t || "&gt;" <= t || "&quot;" <= t || "&apos;" <= t
  }

  predicate WellEscaped(t: string) {
    forall i :: 0 <= i < |t| ==>
      && t[i] != '<' && t[i] != '>' && t[i] != '"' && t[i] != '\''
      && (t[i] == '&' ==> StartsWithEntity(t[i..]))
  }

  // ---------------------------------------------------------------------------
  // The five replaces are one simultaneous escape
  // ---------------------------------------------------------------------------

  lemma {:induction false} ReplaceConcat(a: string, b: string, c: char, r: string)
    ensures ReplaceAll(a + b, c, r) == ReplaceAll(a, c, r) + ReplaceAll(b, c, r)
  {
    if a == "" {
      assert a + b == b;
    } else {
      assert (a + b)[0] == a[0] && (a + b)[1..] == a[1..] + b;
      ReplaceConcat(a[1..], b, c, r);
    }
  }

  lemma {:induction false} ReplaceAbsent(s: string, c: char, r: string)
    requires c !in s
    ensures ReplaceAll(s, c, r) == s
  {
    if s != "" {
      ReplaceAbsent(s[1..], c, r);
    }
  }

  lemma XmlConcat(a: string, b: string)
    ensures Xml(a + b) == Xml(a) + Xml(b)
  {
    ReplaceConcat(a, b, '&', "&amp;");
    var a1, b1 := ReplaceAll(a, '&', "&amp;"), ReplaceAll(b, '&', "&amp;");
    ReplaceConcat(a1, b1, '<', "&lt;");
    var a2, b2 := ReplaceAll(a1, '<', "&lt;"), ReplaceAll(b1, '<', "&lt;");
    ReplaceConcat(a2, b2, '>', "&gt;");
    var a3, b3 := ReplaceAll(a2, '>', "&gt;"), ReplaceAll(b2, '>', "&gt;");
    ReplaceConcat(a3, b3, '"', "&quot;");
    var a4, b4 := ReplaceAll(a3, '"', "&quot;"), ReplaceAll(b3, '"', "&quot;");
    ReplaceConcat(a4, b4, '\'', "&apos;");
  }

  lemma ReplaceOne(x: char, c: char, r: string)
    ensures ReplaceAll([x], c, r) == if x == c then r else [x]
  {
    assert [x][1..] == "";
    assert ReplaceAll("", c, r) == "";
  }

  lemma XmlOfChar(x: char)
    ensures Xml([x]) == Entity(x)
  {
    ReplaceOne(x, '&', "&amp;");
    ReplaceOne(x, '<', "&lt;");
    ReplaceOne(x, '>', "&gt;");
    ReplaceOne(x, '"', "&quot;");
    ReplaceOne(x, '\'', "&apos;");
    hide ReplaceAll;
    var e := Entity(x);
    if '<' !in e { ReplaceAbsent(e, '<', "&lt;"); }
    if '>' !in e { ReplaceAbsent(e, '>', "&gt;"); }
    if '"' !in e { ReplaceAbsent(e, '"', "&quot;"); }
    if '\'' !in e { ReplaceAbsent(e, '\'', "&apos;"); }
  }

  /** The chain of five global replaces equals one simultaneous escape, for every string. */
  lemma {:induction false} XmlIsSimultaneous(s: string)
    ensures Xml(s) == EscapeEach(s)
  {
    if s == "" {
    } else {
      assert s == [s[0]] + s[1..];
      XmlConcat([s[0]], s[1..]);
      XmlOfChar(s[0]);
      XmlIsSimultaneous(s[1..]);
    }
  }

  // ---------------------------------------------------------------------------
  // Safety and round trip
  // ---------------------------------------------------------------------------

  lemma EntityChars(c: char)
    ensures var e := Entity(c);
            && |e| > 0
            && (forall i :: 0 <= i < |e| ==> e[i] != '<' && e[i] != '>' && e[i] != '"' && e[i] != '\'')
            && (forall i :: 0 < i < |e| ==> e[i] != '&')
            && (e[0] == '&' ==> StartsWithEntity(e))
  {
  }

  lemma StartsLonger(e: string, t: string)
    requires StartsWithEntity(e)
    ensures StartsWithEntity(e + t)
  {
  }

  lemma EntityIsEscaped(c: char, t: string)
    requires WellEscaped(t)
    ensures WellEscaped(Entity(c) + t)
  {
    hide Entity, StartsWithEntity;
    var e := Entity(c);
    EntityChars(c);
    forall i | 0 <= i < |e + t|
      ensures (e + t)[i] != '<' && (e + t)[i] != '>' && (e + t)[i] != '"' && (e + t)[i] != '\''
      ensures (e + t)[i] == '&' ==> StartsWithEntity((e + t)[i..])
    {
      if i >= |e| {
        assert (e + t)[i..] == t[i - |e|..];
      } else if i == 0 && e[0] == '&' {
        StartsLonger(e, t);
        assert (e + t)[0..] == e + t;
      }
    }
  }

  /** No raw markup character is left, and every ampersand starts a predefined entity. */
  lemma {:induction false} XmlIsWellEscaped(s: string)
    ensures WellEscaped(Xml(s))
  {
    hide Xml, WellEscaped, Entity;
    XmlIsSimultaneous(s);
    if s == "" {
      EmptyIsEscaped();
    } else {
      XmlIsSimultaneous(s[1..]);
      XmlIsWellEscaped(s[1..]);
      EntityIsEscaped(s[0], Xml(s[1..]));
    }
  }

  lemma EmptyIsEscaped()
    ensures WellEscaped("")
  {
  }

  lemma UnescapeEntity(c: char, t: string)
    ensures Unescape(Entity(c) + t) == [c] + Unescape(t)
  {
    var e := Entity(c);
    assert (e + t)[|e|..] == t;
    assert (e + t)[0] == e[0] && (|e| > 1 ==> (e + t)[1] == e[1] && (e + t)[2] == e[2]);
    assert e <= e + t;
  }

  /** An XML reader gets back exactly the text the client escaped. */
  lemma {:induction false} XmlReadsBack(s: string)
    ensures Unescape(Xml(s)) == s
  {
    hide Xml, Entity;
    XmlIsSimultaneous(s);
    if s != "" {
      XmlIsSimultaneous(s[1..]);
      XmlReadsBack(s[1..]);
      UnescapeEntity(s[0], Xml(s[1..]));
      assert s == [s[0]] + s[1..];
    }
  }
}
