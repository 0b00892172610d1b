/** The choice of a CLDR list-pattern key from an Intl.ListFormat's
    list type and style, and the four resource paths built from that key. */
module ListPatternKeys {

  /** A Java reference that may be null. */
  datatype Option<T> = None | Some(value: T)

  // The option values the builtin compares against.
  const Conjunction := "conjunction"
  const Disjunction := "disjunction"
  const Unit := "unit"
  const Long := "long"
  const Short := "short"
  const Narrow := "narrow"

  // The CLDR list-pattern keys ("unit" is both a list type and a key).
  const Standard := "standard"
  const Or := "or"
  const UnitNarrow := "unit-narrow"
  const UnitShort := "unit-short"

  const ListTypes: set<string> := {Conjunction, Disjunction, Unit}
  const PatternKeys: set<string> := {Standard, Or, UnitNarrow, UnitShort, Unit}

  /** The key for a list type and style; None (Java's null) when the type is
      none of the three known ones. */
  function ResolveKey(listType: string, style: string): (key: Option<string>)
    ensures key.None? <==> listType !in ListTypes
    ensures key.Some? ==> key.value in PatternKeys
  {
    if listType == Conjunction then Some(Standard)
    else if listType == Disjunction then Some(Or)
    else if listType == Unit then
      if style == Narrow then Some(UnitNarrow)
      else if style == Short then Some(UnitShort)
      else Some(Unit)
    else None
  }

  /** The list type a key belongs to: the partner of ResolveKey. */
  function ListTypeOfKey(key: string): (listType: Option<string>)
    ensures listType.Some? <==> key in PatternKeys
  {
    if key == Standard then Some(Conjunction)
    else if key == Or then Some(Disjunction)
    else if key == UnitNarrow || key == UnitShort || key == Unit then Some(Unit)
    else None
  }

  /** Conjunction and disjunction ignore the style. */
  lemma StyleIgnoredUnlessUnit(style: string, other: string)
    ensures ResolveKey(Conjunction, style) == ResolveKey(Conjunction, other) == Some(Standard)
    ensures ResolveKey(Disjunction, style) == ResolveKey(Disjunction, other) == Some(Or)
  {
  }

  /** Unit lists: narrow and short have their own keys, every other style
      (long included) falls back to "unit". */
  lemma UnitKeys(style: string)
    ensures ResolveKey(Unit, style) ==
      if style == Narrow then Some(UnitNarrow)
      else if style == Short then Some(UnitShort)
      else Some(Unit)
    ensures ResolveKey(Unit, Long) == Some(Unit)
  {
  }

  /** A resolved key names the list type it was resolved from. */
  lemma ResolveKeyInverse(listType: string, style: string)
    requires listType in ListTypes
    ensures ListTypeOfKey(ResolveKey(listType, style).value) == Some(listType)
  {
  }

  /** The key of the defaults of a fresh state (conjunction, long). */
  lemma DefaultKey()
    ensures ResolveKey(Conjunction, Long) == Some(Standard)
  {
  }

  // ---------------------------------------------------------------------
  // Resource paths

  const Prefix := "listPattern/"
  const EndSuffix := "/end"
  const MiddleSuffix := "/middle"
  const TwoSuffix := "/2"
  const StartSuffix := "/start"

  /** The text a key contributes to a path: Java's string concatenation
      renders a null key as "null". */
  function KeyText(key: Option<string>): (text: string)
    ensures key.Some? ==> text == key.value
    ensures key.None? ==> text == "null"
  {
    match key
    case None => "null"
    case Some(k) => k
  }

  /** "listPattern/" + key + suffix. */
  function PatternPath(key: Option<string>, suffix: string): (path: string)
    ensures |path| == |Prefix| + |KeyText(key)| + |suffix|
    ensures path[..|Prefix|] == Prefix
    ensures path[|path| - |suffix|..] == suffix
    ensures path[|Prefix|..|path| - |suffix|] == KeyText(key)
  {
    Prefix + KeyText(key) + suffix
  }

  /** Reads the key text back out of a path with a known suffix: the
      inverse of PatternPath. */
  function KeyOfPath(path: string, suffix: string): (text: Option<string>)
    ensures text.Some? ==> |Prefix| + |text.value| + |suffix| == |path|
  {
    if |Prefix| + |suffix| <= |path| && path[..|Prefix|] == Prefix
       && path[|path| - |suffix|..] == suffix
    then Some(path[|Prefix|..|path| - |suffix|])
    else None
  }

  lemma {:induction false} PathRoundTrip(key: Option<string>, suffix: string)
    ensures KeyOfPath(PatternPath(key, suffix), suffix) == Some(KeyText(key))
  {
    var path := PatternPath(key, suffix);
    assert path[|Prefix|..|path| - |suffix|] == KeyText(key) by {
      assert path == Prefix + KeyText(key) + suffix;
    }
  }

  /** Two keys give the same path for one suffix only if their texts agree;
      in particular the null key's paths differ from every real key's. */
  lemma {:induction false} PathInjective(k1: Option<string>, k2: Option<string>, suffix: string)
    requires PatternPath(k1, suffix) == PatternPath(k2, suffix)
    ensures KeyText(k1) == KeyText(k2)
    ensures k1.None? && k2.Some? ==> k2.value !in PatternKeys
  {
    PathRoundTrip(k1, suffix);
    PathRoundTrip(k2, suffix);
  }

  /** The four paths fetched for one key are pairwise distinct. */
  lemma {:induction false} FourPathsDistinct(key: Option<string>)
    ensures PatternPath(key, EndSuffix) != PatternPath(key, MiddleSuffix)
    ensures PatternPath(key, EndSuffix) != PatternPath(key, TwoSuffix)
    ensures PatternPath(key, EndSuffix) != PatternPath(key, StartSuffix)
    ensures PatternPath(key, MiddleSuffix) != PatternPath(key, TwoSuffix)
    ensures PatternPath(key, MiddleSuffix) != PatternPath(key, StartSuffix)
    ensures PatternPath(key, TwoSuffix) != PatternPath(key, StartSuffix)
  {
    var n := |Prefix| + |KeyText(key)|;
    assert PatternPath(key, EndSuffix)[n..] == EndSuffix;
    assert PatternPath(key, MiddleSuffix)[n..] == MiddleSuffix;
    assert PatternPath(key, TwoSuffix)[n..] == TwoSuffix;
    assert PatternPath(key, StartSuffix)[n..] == StartSuffix;
  }

  /** The four paths of the default key, written out. */
  lemma StandardPaths()
    ensures PatternPath(Some(Standard), EndSuffix) == "listPattern/standard/end"
    ensures PatternPath(Some(Standard), MiddleSuffix) == "listPattern/standard/middle"
    ensures PatternPath(Some(Standard), TwoSuffix) == "listPattern/standard/2"
    ensures PatternPath(Some(Standard), StartSuffix) == "listPattern/standard/start"
  {
    SpellPath(Standard, EndSuffix, "listPattern/standard/end");
    SpellPath(Standard, MiddleSuffix, "listPattern/standard/middle");
    SpellPath(Standard, TwoSuffix, "listPattern/standard/2");
    SpellPath(Standard, StartSuffix, "listPattern/standard/start");
  }

  lemma SpellPath(key: string, suffix: string, path: string)
    requires |path| == |Prefix| + |key| + |suffix|
    requires path[..|Prefix|] == Prefix
    requires path[|Prefix|..|Prefix| + |key|] == key
    requires path[|Prefix| + |key|..] == suffix
    ensures PatternPath(Some(key), suffix) == path
  {
    assert path == path[..|Prefix|] + path[|Prefix|..|Prefix| + |key|] + path[|Prefix| + |key|..];
  }
}
