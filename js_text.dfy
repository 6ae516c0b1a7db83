/**
  The small part of JavaScript's string behaviour the model needs.
  Case mapping is restricted to ASCII letters; every other character maps to itself.
  Strings that are hashed or indexed per element (the avatar) are sequences of UTF-16
  code units, as JavaScript strings are.
 */
module JsText {

  /** `c.toLowerCase()` for one character, ASCII only. */
  function LowerChar(c: char): (r: char)
    ensures 'A' <= c <= 'Z' ==> r as int == c as int + 32
    ensures !('A' <= c <= 'Z') ==> r == c
  {
    if 'A' <= c <= 'Z' then (c as int + 32) as char else c
  }

  /** `c.toUpperCase()` for one character, ASCII only. */
  function UpperChar(c: char): (r: char)
    ensures 'a' <= c <= 'z' ==> r as int == c as int - 32
    ensures !('a' <= c <= 'z') ==> r == c
  {
    if 'a' <= c <= 'z' then (c as int - 32) as char else c
  }

  /** `s.toLowerCase()`, ASCII only: same length, each character lowered. */
  function Lower(s: string): (r: string)
    ensures |r| == |s|
    ensures forall i :: 0 <= i < |s| ==> r[i] == LowerChar(s[i])
  {
    seq(|s|, i requires 0 <= i < |s| => LowerChar(s[i]))
  }

  /** `s.toUpperCase()`, ASCII only: same length, each character raised. */
  function Upper(s: string): (r: string)
    ensures |r| == |s|
    ensures forall i :: 0 <= i < |s| ==> r[i] == UpperChar(s[i])
  {
    seq(|s|, i requires 0 <= i < |s| => UpperChar(s[i]))
  }

  /** Lowering forgets the case of the input: upper- and lower-casing first give the same lower-case text. */
  lemma LowerIgnoresCase(s: string)
    ensures Lower(Upper(s)) == Lower(s)
    ensures Lower(Lower(s)) == Lower(s)
  {
    forall i | 0 <= i < |s|
      ensures Lower(Upper(s))[i] == Lower(s)[i]
    {
      var c := s[i];
      assert LowerChar(UpperChar(c)) == LowerChar(c);
    }
  }

  /** A UTF-16 code unit, the element type of a JavaScript string. */
  type CodeUnit = x: int | 0 <= x < 0x1_0000

  /** A JavaScript string: its `length` and `charCodeAt` count code units. */
  type JsString = seq<CodeUnit>

  /** `toUpperCase` on one code unit, ASCII only. */
  function UpperUnit(u: CodeUnit): (r: CodeUnit)
    ensures 'a' as int <= u <= 'z' as int ==> r == u - 32
    ensures !('a' as int <= u <= 'z' as int) ==> r == u
  {
    if 'a' as int <= u <= 'z' as int then u - 32 else u
  }

  /** `s.toUpperCase()` on a JavaScript string, ASCII only. */
  function UpperUnits(s: JsString): (r: JsString)
    ensures |r| == |s|
    ensures forall i :: 0 <= i < |s| ==> r[i] == UpperUnit(s[i])
  {
    seq(|s|, i requires 0 <= i < |s| => UpperUnit(s[i]))
  }
}
