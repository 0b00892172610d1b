/** The mutable internal state of an Intl.ListFormat object and the set-up
    of its list formatter. */
module ListFormatState {
  import opened ListPatternKeys

  /** The four locale patterns a list formatter is built from. */
  datatype ListFormatter = ListFormatter(two: string, start: string, middle: string, end: string)

  /** The formatter built for a locale and key: each pattern is the entry of
      the locale's resource bundle at listPattern/<key>/<part>. The bundle
      lookup is a parameter (locale tag, path) -> pattern string. */
  function CreateFormatter(locale: string, key: Option<string>, bundle: (string, string) -> string): (lf: ListFormatter)
    ensures lf.end == bundle(locale, Prefix + KeyText(key) + "/end")
    ensures lf.middle == bundle(locale, Prefix + KeyText(key) + "/middle")
    ensures lf.two == bundle(locale, Prefix + KeyText(key) + "/2")
    ensures lf.start == bundle(locale, Prefix + KeyText(key) + "/start")
  {
    var end := bundle(locale, PatternPath(key, EndSuffix));
    var middle := bundle(locale, PatternPath(key, MiddleSuffix));
    var two := bundle(locale, PatternPath(key, TwoSuffix));
    var start := bundle(locale, PatternPath(key, StartSuffix));
    ListFormatter(two, start, middle, end)
  }

  /** A fresh state (conjunction, long) fetches the "standard" patterns. */
  lemma DefaultFormatter(locale: string, bundle: (string, string) -> string)
    ensures CreateFormatter(locale, ResolveKey(Conjunction, Long), bundle) ==
      ListFormatter(bundle(locale, "listPattern/standard/2"), bundle(locale, "listPattern/standard/start"),
                    bundle(locale, "listPattern/standard/middle"), bundle(locale, "listPattern/standard/end"))
  {
    StandardPaths();
  }

  class InternalState {
    var initialized: bool
    var listFormatter: Option<ListFormatter>
    var locale: Option<string>
    /** The Java locale, recorded by the language tag it was made from. */
    var javaLocale: Option<string>
    var listType: string
    var style: string

    /** The key the current type and style resolve to. */
    function Key(): Option<string>
      reads this
    {
      ResolveKey(listType, style)
    }

    constructor ()
      ensures !initialized && listFormatter.None? && locale.None? && javaLocale.None?
      ensures listType == Conjunction && style == Long
      ensures Key() == Some(Standard)
    {
      initialized := false;
      listFormatter := None;
      locale := None;
      javaLocale := None;
      listType := Conjunction;
      style := Long;
    }

    method IsInitialized() returns (b: bool)
      ensures b == initialized
    {
      b := initialized;
    }

    method SetInitialized(b: bool)
      modifies this`initialized
      ensures initialized == b
    {
      initialized := b;
    }

    method SetType(t: string)
      modifies this`listType
      ensures listType == t
    {
      listType := t;
    }

    method SetStyle(s: string)
      modifies this`style
      ensures style == s
    {
      style := s;
    }

    /** Records the negotiated language tag (the negotiation itself, its
        "und" fallback and the stripping of extensions are not modelled:
        the resulting tag is the parameter). */
    method SetLocale(tag: string)
      modifies this`locale, this`javaLocale
      ensures locale == Some(tag) && javaLocale == Some(tag)
    {
      locale := Some(tag);
      javaLocale := Some(tag);
    }

    /** Rebuilds the Java locale from the tag and installs the formatter for
        the resolved key. The tag must have been set: a null tag is not a
        valid argument of the Java locale factory. */
    method SetupInternalListFormatter(bundle: (string, string) -> string)
      requires locale.Some?
      modifies this`javaLocale, this`listFormatter
      ensures javaLocale == locale
      ensures listFormatter == Some(CreateFormatter(locale.value, Key(), bundle))
    {
      javaLocale := Some(locale.value);
      var key := Key();
      listFormatter := Some(CreateFormatter(javaLocale.value, key, bundle));
    }
  }

  /** A client's sequence of calls: a fresh state, with a locale set and the formatter set
      up, holds the standard patterns; after SetType("unit") and
      SetStyle("short") a new set-up holds the unit-short patterns. */
  method SetupScenario(tag: string, bundle: (string, string) -> string) returns (first: ListFormatter, second: ListFormatter)
    ensures first == CreateFormatter(tag, Some(Standard), bundle)
    ensures first.end == bundle(tag, "listPattern/standard/end")
    ensures second == CreateFormatter(tag, Some(UnitShort), bundle)
  {
    var state := new InternalState();
    state.SetLocale(tag);
    state.SetupInternalListFormatter(bundle);
    first := state.listFormatter.value;
    state.SetType(Unit);
    state.SetStyle(Short);
    state.SetupInternalListFormatter(bundle);
    second := state.listFormatter.value;
    StandardPaths();
  }
}
