/**
  The avatar in components/ui/Avatar.tsx: a background colour chosen by a shift-and-add
  hash of the name whose `<<` truncates to 32 bits, and up to two initials. Names are JavaScript strings, that is
  sequences of UTF-16 code units, because the hash reads `charCodeAt` and the initials
  take `part[0]`.
 */
module UiAvatar {
  import opened Wrappers
  import opened JsText

  const NoNameColor := "bg-white/10"

  function Gradient(hue: string): string {
    "bg-gradient-to-br from-" + hue + "-400 to-" + hue + "-600"
  }

  /** The six gradients, in the source's order. */
  const Colors: seq<string> := [
    Gradient("green"), Gradient("yellow"), Gradient("orange"),
    Gradient("blue"), Gradient("purple"), Gradient("pink")
  ]

  const TwoTo31 := 0x8000_0000
  const TwoTo32 := 0x1_0000_0000

  /** ECMAScript ToInt32 on an integral number: reduce modulo 2^32 into the signed range. */
  function ToInt32(x: int): (r: int)
    ensures -TwoTo31 <= r < TwoTo31
    ensures (r - x) % TwoTo32 == 0
  {
    var m := x % TwoTo32;
    if m >= TwoTo31 then m - TwoTo32 else m
  }

  /** `x << 5`: both the operand and the shifted result pass through ToInt32. */
  function ShiftLeft5(x: int): (r: int)
    ensures -TwoTo31 <= r < TwoTo31
    ensures (r - 32 * x) % TwoTo32 == 0
  {
    var y := ToInt32(x);
    var k := (y - x) / TwoTo32;
    assert y - x == TwoTo32 * k;
    assert y * 32 - 32 * x == TwoTo32 * (32 * k);
    ToInt32(y * 32)
  }

  /** One step of the loop: `hash = code + ((hash << 5) - hash)`. */
  function Step(hash: int, code: CodeUnit): int {
    code + (ShiftLeft5(hash) - hash)
  }

  /** The hash of a name: the step folded over its code units from the left, starting at 0. */
  function HashOf(s: JsString): int {
    if s == [] then 0 else Step(HashOf(s[..|s| - 1]), s[|s| - 1])
  }

  function Abs(x: int): nat {
    if x < 0 then -x else x
  }

  /** `getAvatarColor(name)`. */
  function AvatarColor(name: Option<JsString>): string {
    if name.None? || name.value == [] then NoNameColor else Colors[Abs(HashOf(name.value)) % |Colors|]
  }

  /** A missing or empty name gets the neutral background; any other name one of the six gradients. */
  lemma ColorChoice(name: Option<JsString>)
    ensures name.None? || name == Some([]) ==> AvatarColor(name) == NoNameColor
    ensures name.Some? && name.value != [] ==>
      AvatarColor(name) == Colors[Abs(HashOf(name.value)) % 6] && AvatarColor(name) in Colors
    ensures NoNameColor !in Colors
  {
    assert |Colors| == 6;
    forall k | 0 <= k < |Colors|
      ensures Colors[k] != NoNameColor
    {
      assert Colors[k][3] == 'g' && NoNameColor[3] == 'w';
    }
  }

  const MaxStepGrowth := TwoTo31 + 0x1_0000

  /** Each step moves the hash by less than 2^31 + 2^16, so it grows at most linearly. */
  lemma {:induction false} HashBounded(s: JsString)
    ensures Abs(HashOf(s)) <= |s| * MaxStepGrowth
  {
    if s != [] {
      var init := s[..|s| - 1];
      HashBounded(init);
      var h := HashOf(init);
      assert Abs(HashOf(s)) <= Abs(h) + MaxStepGrowth;
      assert (|s| - 1) * MaxStepGrowth + MaxStepGrowth == |s| * MaxStepGrowth;
    }
  }

  /**
    Below 2^21 code units the hash stays under 2^53 in magnitude, so JavaScript's
    floating-point arithmetic computes it exactly and the integer model agrees with it.
   */
  lemma HashExactForShortNames(s: JsString)
    requires |s| < 0x20_0000
    ensures Abs(HashOf(s)) < 0x20_0000_0000_0000
  {
    HashBounded(s);
  }

  /** Worked case: "A" hashes to 65 and "AB" to 65 * 31 + 66 = 2081. */
  lemma HashExamples()
    ensures HashOf([65]) == 65
    ensures HashOf([65, 66]) == 2081
  {
    assert [65][..0] == [];
    assert ShiftLeft5(0) == 0;
    assert HashOf([65]) == Step(0, 65);
    assert [65, 66][..1] == [65];
    assert ToInt32(65) == 65 && ToInt32(2080) == 2080;
    assert HashOf([65, 66]) == Step(65, 66);
  }

  /** Both of those land on the sixth gradient, 65 and 2081 being 5 modulo 6. */
  lemma ColorExamples()
    ensures AvatarColor(Some([65])) == Gradient("pink")
    ensures AvatarColor(Some([65, 66])) == Gradient("pink")
  {
    HashExamples();
  }

  /** The source's loop, proved to compute the fold. */
  method GetAvatarColor(name: Option<JsString>) returns (color: string)
    ensures color == AvatarColor(name)
  {
    if name.None? || name.value == [] {
      return NoNameColor;
    }
    var s := name.value;
    var hash := 0;
    for i := 0 to |s|
      invariant hash == HashOf(s[..i])
    {
      assert s[..i + 1][..i] == s[..i];
      hash := s[i] + (ShiftLeft5(hash) - hash);
    }
    assert s[..|s|] == s;
    color := Colors[Abs(hash) % |Colors|];
  }

  // ---- Initials ----

  /** `\s` in an ECMAScript regular expression: WhiteSpace and LineTerminator code units. */
  predicate IsRegexSpace(u: CodeUnit) {
    9 <= u <= 13 || u == 32 || u == 0xA0 || u == 0x1680 || 0x2000 <= u <= 0x200A
    || u == 0x2028 || u == 0x2029 || u == 0x202F || u == 0x205F || u == 0x3000 || u == 0xFEFF
  }

  /** The character class `[\s_-]`. */
  predicate IsSeparator(u: CodeUnit) {
    IsRegexSpace(u) || u == '_' as int || u == '-' as int
  }

  /** `s.split(sep)` for a one-unit separator class: one more part than separators, empty parts kept. */
  function Split(s: JsString, sep: CodeUnit -> bool): (r: seq<JsString>)
    ensures |r| >= 1
  {
    if s == [] then [[]]
    else
      var rest := Split(s[1..], sep);
      if sep(s[0]) then [[]] + rest else [[s[0]] + rest[0]] + rest[1..]
  }

  /** `.map(part => part[0]).join('')`: an empty part gives `undefined`, which joins as "". */
  function Heads(parts: seq<JsString>): JsString {
    if parts == [] then [] else parts[0][..Min(1, |parts[0]|)] + Heads(parts[1..])
  }

  /**
    An independent description of the same text: each unit that is not a separator and
    either opens the string (`afterSep` true) or follows a separator.
   */
  function WordStarts(s: JsString, sep: CodeUnit -> bool, afterSep: bool): JsString {
    if s == [] then []
    else (if afterSep && !sep(s[0]) then [s[0]] else []) + WordStarts(s[1..], sep, sep(s[0]))
  }

  /** No part of a split contains a separator. */
  lemma {:induction false} PartsHaveNoSeparator(s: JsString, sep: CodeUnit -> bool)
    ensures forall p, j :: p in Split(s, sep) && 0 <= j < |p| ==> !sep(p[j])
  {
    if s != [] {
      PartsHaveNoSeparator(s[1..], sep);
      var rest := Split(s[1..], sep);
      if !sep(s[0]) {
        var first := [s[0]] + rest[0];
        assert rest[0] in rest;
        forall j | 0 <= j < |first|
          ensures !sep(first[j])
        {
          if j > 0 {
            assert first[j] == rest[0][j - 1];
          }
        }
        forall p | p in rest[1..]
          ensures p in rest
        {
        }
      }
    }
  }

  /** Joining the heads of the split parts is exactly the word starts. */
  lemma {:induction false} HeadsAreWordStarts(s: JsString, sep: CodeUnit -> bool)
    ensures Heads(Split(s, sep)) == WordStarts(s, sep, true)
    ensures Heads(Split(s, sep)[1..]) == WordStarts(s, sep, false)
  {
    if s != [] {
      HeadsAreWordStarts(s[1..], sep);
      var rest := Split(s[1..], sep);
      if sep(s[0]) {
        assert Split(s, sep) == [[]] + rest;
        assert Split(s, sep)[1..] == rest;
        assert ([[]] + rest)[1..] == rest;
      } else {
        var first := [s[0]] + rest[0];
        assert Split(s, sep) == [first] + rest[1..];
        assert ([first] + rest[1..])[1..] == rest[1..];
        assert first[..1] == [s[0]];
      }
    }
  }

  /** There are no word starts exactly when every unit is a separator. */
  lemma {:induction false} NoWordStartsIffAllSeparators(s: JsString, sep: CodeUnit -> bool)
    ensures WordStarts(s, sep, true) == [] <==> forall i :: 0 <= i < |s| ==> sep(s[i])
  {
    if s != [] {
      if sep(s[0]) {
        NoWordStartsIffAllSeparators(s[1..], sep);
        assert forall i :: 1 <= i < |s| ==> s[i] == s[1..][i - 1];
        if WordStarts(s, sep, true) == [] {
          assert forall i :: 0 <= i < |s[1..]| ==> sep(s[1..][i]);
        }
      }
    }
  }

  /** The initials text before upper-casing, as a split of the name on `sep`. */
  function InitialsWith(name: Option<JsString>, sep: CodeUnit -> bool): (r: Option<JsString>)
    ensures name.None? <==> r.None?
  {
    if name.None? then None
    else
      var joined := Heads(Split(name.value, sep));
      Some(UpperUnits(joined[..Min(2, |joined|)]))
  }

  /** The initials of components/ui/Avatar.tsx. */
  function Initials(name: Option<JsString>): Option<JsString> {
    InitialsWith(name, IsSeparator)
  }

  /** The initials are the first one or two word starts, upper-cased, so never longer than 2. */
  lemma InitialsAreWordStarts(name: JsString, sep: CodeUnit -> bool)
    ensures var starts := WordStarts(name, sep, true);
      InitialsWith(Some(name), sep) == Some(UpperUnits(starts[..Min(2, |starts|)]))
    ensures |InitialsWith(Some(name), sep).value| <= 2
  {
    HeadsAreWordStarts(name, sep);
  }

  /** `initials || <User2 />`: the icon shows when the initials are missing or empty. */
  predicate ShowsFallbackIcon(initials: Option<JsString>) {
    initials.None? || initials.value == []
  }

  /** The icon shows iff there is no name or the name is made only of separators. */
  lemma FallbackIffNoWord(name: Option<JsString>, sep: CodeUnit -> bool)
    ensures ShowsFallbackIcon(InitialsWith(name, sep)) <==>
      name.None? || forall i :: 0 <= i < |name.value| ==> sep(name.value[i])
  {
    if name.Some? {
      InitialsAreWordStarts(name.value, sep);
      NoWordStartsIffAllSeparators(name.value, sep);
    }
  }

  /** Worked case: "a_b" gives "AB". */
  lemma InitialsExample()
    ensures Initials(Some([97, 95, 98])) == Some([65, 66])
  {
    var s: JsString := [97, 95, 98];
    InitialsAreWordStarts(s, IsSeparator);
    assert WordStarts(s[2..], IsSeparator, true) == [98];
    assert WordStarts(s[1..], IsSeparator, false) == [98];
    assert WordStarts(s, IsSeparator, true) == [97, 98];
    assert [97, 98][..Min(2, 2)] == [97, 98];
    assert UpperUnits([97, 98]) == [65, 66];
  }
}
