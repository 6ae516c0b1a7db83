/**
  The JSON text the settings cache writes and reads back: one flat object whose
  members hold strings or booleans, printed as `JSON.stringify` prints it (no spaces,
  members in order, the standard string escapes). The parser accepts exactly this
  compact form; text in any other form counts as unparseable.
 */
module JsonText {
  import opened Wrappers

  datatype Scalar = JStr(s: string) | JBool(b: bool)
  datatype Member = Member(key: string, value: Scalar)

  function HexDigit(d: nat): (c: char)
    requires d < 16
  {
    if d < 10 then ('0' as int + d) as char else ('a' as int + d - 10) as char
  }

  function HexValue(c: char): (r: Option<nat>)
    ensures r.Some? ==> r.value < 16
  {
    if '0' <= c <= '9' then Some(c as int - '0' as int)
    else if 'a' <= c <= 'f' then Some(c as int - 'a' as int + 10)
    else if 'A' <= c <= 'F' then Some(c as int - 'A' as int + 10)
    else None
  }

  lemma HexDigitValue(d: nat)
    requires d < 16
    ensures HexValue(HexDigit(d)) == Some(d)
  {
  }

  /** How `JSON.stringify` writes one character inside a string literal. */
  function EscapeChar(c: char): string {
    if c == '"' then ['\\', '"']
    else if c == '\\' then ['\\', '\\']
    else if c as int == 8 then ['\\', 'b']
    else if c as int == 9 then ['\\', 't']
    else if c as int == 10 then ['\\', 'n']
    else if c as int == 12 then ['\\', 'f']
    else if c as int == 13 then ['\\', 'r']
    else if c as int < 0x20 then ['\\', 'u', '0', '0', HexDigit(c as int / 16), HexDigit(c as int % 16)]
    else [c]
  }

  function Escape(s: string): string {
    if s == [] then "" else EscapeChar(s[0]) + Escape(s[1..])
  }

  function Quote(s: string): string {
    "\"" + Escape(s) + "\""
  }

  function EncodeScalar(v: Scalar): string {
    match v
    case JStr(s) => Quote(s)
    case JBool(b) => if b then "true" else "false"
  }

  function EncodeMember(m: Member): string {
    Quote(m.key) + ":" + EncodeScalar(m.value)
  }

  /** The members after the first, each preceded by a comma. */
  function EncodeRest(ms: seq<Member>): string {
    if ms == [] then "" else "," + EncodeMember(ms[0]) + EncodeRest(ms[1..])
  }

  /** `JSON.stringify` of an object with these members. */
  function Stringify(ms: seq<Member>): string {
    if ms == [] then "{}" else "{" + EncodeMember(ms[0]) + EncodeRest(ms[1..]) + "}"
  }

  /** The character an escape sequence at the start of `t` (just after the backslash) stands for, and its length. */
  function Unescape(t: string): Option<(char, nat)>
    ensures var r := Unescape(t); r.Some? ==> 1 <= r.value.1 <= |t|
  {
    if t == [] then None
    else if t[0] == '"' then Some(('"', 1))
    else if t[0] == '\\' then Some(('\\', 1))
    else if t[0] == '/' then Some(('/', 1))
    else if t[0] == 'b' then Some((8 as char, 1))
    else if t[0] == 't' then Some((9 as char, 1))
    else if t[0] == 'n' then Some((10 as char, 1))
    else if t[0] == 'f' then Some((12 as char, 1))
    else if t[0] == 'r' then Some((13 as char, 1))
    else if t[0] == 'u' && |t| >= 5 then
      match (HexValue(t[1]), HexValue(t[2]), HexValue(t[3]), HexValue(t[4]))
      case (Some(a), Some(b), Some(c), Some(d)) =>
        var code := ((a * 16 + b) * 16 + c) * 16 + d;
        if 0xD800 <= code < 0xE000 then None else Some((code as char, 5))
      case _ => None
    else None
  }

  /** The body of a string literal up to its closing quote, and the text after it. */
  function ParseStringBody(t: string): (r: Option<(string, string)>)
    ensures r.Some? ==> |r.value.1| < |t|
    decreases |t|
  {
    if t == [] then None
    else if t[0] == '"' then Some(("", t[1..]))
    else if t[0] == '\\' then
      match Unescape(t[1..])
      case None => None
      case Some((c, n)) =>
        match ParseStringBody(t[1 + n..])
        case None => None
        case Some((s, rest)) => Some(([c] + s, rest))
    else if t[0] as int < 0x20 then None
    else
      match ParseStringBody(t[1..])
      case None => None
      case Some((s, rest)) => Some(([t[0]] + s, rest))
  }

  function ParseQuoted(t: string): (r: Option<(string, string)>)
    ensures r.Some? ==> |r.value.1| < |t|
  {
    if t != [] && t[0] == '"' then ParseStringBody(t[1..]) else None
  }

  function ParseScalar(t: string): (r: Option<(Scalar, string)>)
    ensures r.Some? ==> |r.value.1| < |t|
  {
    if t != [] && t[0] == '"' then
      match ParseQuoted(t)
      case None => None
      case Some((s, rest)) => Some((JStr(s), rest))
    else if |t| >= 4 && t[..4] == "true" then Some((JBool(true), t[4..]))
    else if |t| >= 5 && t[..5] == "false" then Some((JBool(false), t[5..]))
    else None
  }

  function ParseMember(t: string): (r: Option<(Member, string)>)
    ensures r.Some? ==> |r.value.1| < |t|
  {
    match ParseQuoted(t)
    case None => None
    case Some((key, afterKey)) =>
      if afterKey == [] || afterKey[0] != ':' then None
      else
        match ParseScalar(afterKey[1..])
        case None => None
        case Some((v, rest)) => Some((Member(key, v), rest))
  }

  /** The members after the first, up to and including the closing brace. */
  function ParseRest(t: string): Option<(seq<Member>, string)>
    decreases |t|
  {
    if t == [] then None
    else if t[0] == '}' then Some(([], t[1..]))
    else if t[0] == ',' then
      match ParseMember(t[1..])
      case None => None
      case Some((m, afterMember)) =>
        match ParseRest(afterMember)
        case None => None
        case Some((ms, rest)) => Some(([m] + ms, rest))
    else None
  }

  /** `JSON.parse` of compact object text; missing means it would throw or the text is in another form. */
  function Parse(t: string): Option<seq<Member>> {
    if t == "{}" then Some([])
    else if t == [] || t[0] != '{' then None
    else
      match ParseMember(t[1..])
      case None => None
      case Some((m, afterMember)) =>
        match ParseRest(afterMember)
        case Some((ms, rest)) => if rest == [] then Some([m] + ms) else None
        case None => None
  }

  /** A parsed string body with `p` in front. */
  function Prefixed(p: string, r: Option<(string, string)>): Option<(string, string)> {
    match r
    case None => None
    case Some((s, rest)) => Some((p + s, rest))
  }

  /** A control character written as `\u00xx` reads back. */
  lemma ControlEscapeParsed(c: char, tail: string)
    requires c as int < 0x20 && !(c as int in {8, 9, 10, 12, 13})
    ensures ParseStringBody(EscapeChar(c) + tail) == Prefixed([c], ParseStringBody(tail))
  {
    var hi, lo := c as int / 16, c as int % 16;
    HexDigitValue(0);
    HexDigitValue(hi);
    HexDigitValue(lo);
    var u := ['u', '0', '0', HexDigit(hi), HexDigit(lo)];
    var t := ['\\'] + u + tail;
    assert EscapeChar(c) + tail == t;
    assert t[1..] == u + tail;
    assert t[1..][1] == '0' && t[1..][2] == '0' && t[1..][3] == HexDigit(hi) && t[1..][4] == HexDigit(lo);
    assert Unescape(t[1..]) == Some((c, 5));
    assert t[6..] == tail;
  }

  /** A character written with a two-character escape reads back. */
  lemma ShortEscapeParsed(c: char, tail: string)
    requires c == '"' || c == '\\' || c as int in {8, 9, 10, 12, 13}
    ensures ParseStringBody(EscapeChar(c) + tail) == Prefixed([c], ParseStringBody(tail))
  {
    var t := EscapeChar(c) + tail;
    assert |EscapeChar(c)| == 2 && EscapeChar(c)[0] == '\\';
    assert t[1..][0] == EscapeChar(c)[1];
    assert Unescape(t[1..]) == Some((c, 1));
    assert t[2..] == tail;
  }

  /** A character written as itself reads back. */
  lemma PlainCharParsed(c: char, tail: string)
    requires c != '"' && c != '\\' && c as int >= 0x20
    ensures ParseStringBody(EscapeChar(c) + tail) == Prefixed([c], ParseStringBody(tail))
  {
    var t := EscapeChar(c) + tail;
    assert t == [c] + tail;
    assert t[1..] == tail;
  }

  lemma EscapeCharParsed(c: char, tail: string)
    ensures ParseStringBody(EscapeChar(c) + tail) == Prefixed([c], ParseStringBody(tail))
  {
    if c == '"' || c == '\\' || c as int in {8, 9, 10, 12, 13} {
      ShortEscapeParsed(c, tail);
    } else if c as int < 0x20 {
      ControlEscapeParsed(c, tail);
    } else {
      PlainCharParsed(c, tail);
    }
  }

  lemma PrefixedTwice(p: string, q: string, r: Option<(string, string)>)
    ensures Prefixed(p, Prefixed(q, r)) == Prefixed(p + q, r)
  {
    if r.Some? {
      assert p + (q + r.value.0) == (p + q) + r.value.0;
    }
  }

  /** An escaped string body followed by anything reads back as the string. */
  lemma {:induction false} EscapeParsed(s: string, tail: string)
    ensures ParseStringBody(Escape(s) + tail) == Prefixed(s, ParseStringBody(tail))
    decreases |s|
  {
    if s == [] {
      assert Escape(s) + tail == tail;
      if ParseStringBody(tail).Some? {
        assert s + ParseStringBody(tail).value.0 == ParseStringBody(tail).value.0;
      }
    } else {
      var x := Escape(s[1..]) + tail;
      assert Escape(s) + tail == EscapeChar(s[0]) + x;
      EscapeCharParsed(s[0], x);
      EscapeParsed(s[1..], tail);
      PrefixedTwice([s[0]], s[1..], ParseStringBody(tail));
      assert [s[0]] + s[1..] == s;
    }
  }

  lemma QuoteParsed(s: string, rest: string)
    ensures ParseQuoted(Quote(s) + rest) == Some((s, rest))
  {
    assert (Quote(s) + rest)[1..] == Escape(s) + ("\"" + rest);
    EscapeParsed(s, "\"" + rest);
    assert s + "" == s;
  }

  lemma ScalarParsed(v: Scalar, rest: string)
    ensures ParseScalar(EncodeScalar(v) + rest) == Some((v, rest))
  {
    match v
    case JStr(s) =>
      QuoteParsed(s, rest);
      assert (Quote(s) + rest)[0] == '"';
    case JBool(b) =>
      var t := EncodeScalar(v) + rest;
      if b {
        assert t[..4] == "true" && t[4..] == rest;
      } else {
        assert t[0] == 'f';
        assert t[..5] == "false" && t[5..] == rest;
      }
  }

  lemma MemberParsed(m: Member, rest: string)
    ensures ParseMember(EncodeMember(m) + rest) == Some((m, rest))
  {
    var afterKey := ":" + (EncodeScalar(m.value) + rest);
    assert EncodeMember(m) + rest == Quote(m.key) + afterKey;
    QuoteParsed(m.key, afterKey);
    assert afterKey[1..] == EncodeScalar(m.value) + rest;
    ScalarParsed(m.value, rest);
  }

  lemma {:induction false} RestParsed(ms: seq<Member>, rest: string)
    ensures ParseRest(EncodeRest(ms) + "}" + rest) == Some((ms, rest))
    decreases |ms|
  {
    var t := EncodeRest(ms) + "}" + rest;
    if ms == [] {
      assert t == "}" + rest;
      assert t[1..] == rest;
    } else {
      var afterMember := EncodeRest(ms[1..]) + "}" + rest;
      assert t == "," + (EncodeMember(ms[0]) + afterMember);
      assert t[1..] == EncodeMember(ms[0]) + afterMember;
      MemberParsed(ms[0], afterMember);
      RestParsed(ms[1..], rest);
      assert [ms[0]] + ms[1..] == ms;
    }
  }

  lemma MemberStartsWithQuote(m: Member)
    ensures |EncodeMember(m)| >= 2 && EncodeMember(m)[0] == '"'
  {
    var q := Quote(m.key);
    assert q[0] == '"';
    assert EncodeMember(m) == q + (":" + EncodeScalar(m.value));
  }

  lemma Braced(m: string, r: string)
    requires |m| >= 2
    ensures var t := "{" + m + r + "}"; |t| > 2 && t[0] == '{' && t[1..] == m + (r + "}")
  {
    var t := "{" + m + r + "}";
    assert t == "{" + (m + (r + "}"));
  }

  /** The text of a non-empty object: an opening brace, the first member, the rest and the closing brace. */
  lemma StringifyShape(ms: seq<Member>)
    requires ms != []
    ensures var t := Stringify(ms);
      |t| > 2 && t[0] == '{' && t[1..] == EncodeMember(ms[0]) + (EncodeRest(ms[1..]) + "}")
  {
    var m := EncodeMember(ms[0]);
    MemberStartsWithQuote(ms[0]);
    Braced(m, EncodeRest(ms[1..]));
  }

  /** `Parse` on object text whose first member and rest both read back. */
  lemma ParseObject(t: string, m: Member, ms: seq<Member>, afterMember: string)
    requires |t| > 2 && t[0] == '{'
    requires ParseMember(t[1..]) == Some((m, afterMember))
    requires ParseRest(afterMember) == Some((ms, ""))
    ensures Parse(t) == Some([m] + ms)
  {
  }

  /** Parsing what `Stringify` wrote gives back the same members. */
  lemma ParseStringify(ms: seq<Member>)
    ensures Parse(Stringify(ms)) == Some(ms)
  {
    if ms != [] {
      StringifyShape(ms);
      var afterMember := EncodeRest(ms[1..]) + "}";
      MemberParsed(ms[0], afterMember);
      assert afterMember == EncodeRest(ms[1..]) + "}" + "";
      RestParsed(ms[1..], "");
      ParseObject(Stringify(ms), ms[0], ms[1..], afterMember);
      assert [ms[0]] + ms[1..] == ms;
    }
  }
}
