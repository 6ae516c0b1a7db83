/**
  The simpler avatar in components/global/Avatar.tsx: initials only, from a split on a
  single space. It shares the split-and-join model with components/ui/Avatar.tsx.
 */
module GlobalAvatar {
  import opened Wrappers
  import opened JsText
  import opened UiAvatar

  /** `split(' ')`: only the space code unit separates. */
  predicate IsSpace(u: CodeUnit) {
    u == ' ' as int
  }

  /** The initials of components/global/Avatar.tsx. */
  function GlobalInitials(name: Option<JsString>): Option<JsString> {
    InitialsWith(name, IsSpace)
  }

  /** The first one or two space-separated word starts, upper-cased; at most two units. */
  lemma GlobalInitialsShape(name: JsString)
    ensures var starts := WordStarts(name, IsSpace, true);
      GlobalInitials(Some(name)) == Some(UpperUnits(starts[..Min(2, |starts|)]))
    ensures |GlobalInitials(Some(name)).value| <= 2
  {
    InitialsAreWordStarts(name, IsSpace);
  }

  /** The icon shows iff there is no name or the name is only spaces. */
  lemma GlobalFallbackIffBlank(name: Option<JsString>)
    ensures ShowsFallbackIcon(GlobalInitials(name)) <==>
      name.None? || forall i :: 0 <= i < |name.value| ==> name.value[i] == ' ' as int
  {
    FallbackIffNoWord(name, IsSpace);
  }

  /** Underscores do not separate here: "a_b" gives "A", where the ui avatar gives "AB". */
  lemma UnderscoreNotASeparator()
    ensures GlobalInitials(Some([97, 95, 98])) == Some([65])
    ensures Initials(Some([97, 95, 98])) == Some([65, 66])
  {
    var s: JsString := [97, 95, 98];
    GlobalInitialsShape(s);
    assert WordStarts(s[2..], IsSpace, false) == [];
    assert WordStarts(s[1..], IsSpace, false) == [];
    assert WordStarts(s, IsSpace, true) == [97];
    assert [97][..Min(2, 1)] == [97];
    assert UpperUnits([97]) == [65];
    InitialsExample();
  }
}
