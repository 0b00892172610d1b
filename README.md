# Intl.ListFormat key selection and formatToParts, in Dafny

This project models the core of GraalJS's `Intl.ListFormat` builtin
(`JSListFormat.java`). It covers four things:

- how a list type and style select a CLDR list-pattern key;
- the four resource paths built from that key;
- the mutable `InternalState` record and its set-up;
- the `formatToParts` loop, which splits a formatted list into `literal`
  and `element` parts by the offsets at which each item was substituted.

The modules are:

- `ListPatternKeys` (`keys.dfy`): the key resolver and the resource paths.
  The type and style are the source's strings. An unknown list type gives
  no key, which stands for Java `null`. A `null` key is rendered as `"null"`
  inside a path (`listPattern/null/end`), as Java string concatenation does.
- `ListFormatState` (`state.dfy`): `InternalState` as a class with the
  source's fields, its defaults (`conjunction`, `long`), its setters and
  `setupInternalListFormatter`. The locale's resource bundle is a
  parameter: a function from (language tag, path) to pattern string.
- `ListTemplates` (`templates.dfy`): an abstract compiled pattern, a
  sequence of literal text and argument slots. Substituting into it gives
  the text and the offset of each value: the last slot wins, and an
  argument without a slot gets -1. The module proves that for a list
  pattern (slots `{0}`..`{n-1}` once each, in order) the offsets are well
  formed: in bounds, matching each item's text, and not overlapping.
- `ListFormatParts` (`parts.dfy`): the parts loop as an imperative method
  (`ExtractParts`), proved equal to a recursive specification
  (`SpanParts`). Also the round-trip lemmas, and `FormatToParts` / `Format`
  on top.

A `substring` call whose range lies outside the formatted text would throw
`StringIndexOutOfBoundsException` in Java. The model returns
`Err(IndexOutOfBounds)` at the same point instead.

The code validates neither its list type nor its offsets:

- An unsupported list type raises no error. The key stays `null` and is
  passed on to the resource lookup.
- The parts loop does not validate offsets. When the cursor has already
  passed an item's offset, that item is skipped and no element is emitted
  for it (`SwappedPlaceholdersSkipItem`). Out-of-range offsets fail only
  through `substring`.

## Model

| member | source | states |
|---|---|---|
| `ListPatternKeys.ResolveKey` | graal-js/src/com.oracle.truffle.js/src/com/oracle/truffle/js/runtime/builtins/JSListFormat.java:148-161 | the key is null exactly when the type is not conjunction, disjunction or unit; otherwise it is one of the five CLDR keys |
| `ListPatternKeys.ListTypeOfKey` | graal-js/src/com.oracle.truffle.js/src/com/oracle/truffle/js/runtime/builtins/JSListFormat.java:149-160 | maps each of the five keys back to its list type; gives nothing for any other string |
| `ListPatternKeys.StyleIgnoredUnlessUnit` | graal-js/src/com.oracle.truffle.js/src/com/oracle/truffle/js/runtime/builtins/JSListFormat.java:149-152 | conjunction resolves to "standard" and disjunction to "or", whatever the style |
| `ListPatternKeys.UnitKeys` | graal-js/src/com.oracle.truffle.js/src/com/oracle/truffle/js/runtime/builtins/JSListFormat.java:153-160 | unit resolves to "unit-narrow" for narrow, "unit-short" for short, and "unit" for every other style, long included |
| `ListPatternKeys.ResolveKeyInverse` | graal-js/src/com.oracle.truffle.js/src/com/oracle/truffle/js/runtime/builtins/JSListFormat.java:149-160 | the key resolved from a known type belongs to that type |
| `ListPatternKeys.DefaultKey` | graal-js/src/com.oracle.truffle.js/src/com/oracle/truffle/js/runtime/builtins/JSListFormat.java:215-216 | the defaults conjunction/long resolve to "standard" |
| `ListPatternKeys.KeyText` | graal-js/src/com.oracle.truffle.js/src/com/oracle/truffle/js/runtime/builtins/JSListFormat.java:249-252 | a key contributes its own text to a path, and a null key contributes "null" |
| `ListPatternKeys.PatternPath` | graal-js/src/com.oracle.truffle.js/src/com/oracle/truffle/js/runtime/builtins/JSListFormat.java:249-252 | a path starts with "listPattern/", ends with the suffix, and has the key's text between the two |
| `ListPatternKeys.KeyOfPath` | graal-js/src/com.oracle.truffle.js/src/com/oracle/truffle/js/runtime/builtins/JSListFormat.java:249-252 | the text it reads back fits between the prefix and the suffix |
| `ListPatternKeys.PathRoundTrip` | graal-js/src/com.oracle.truffle.js/src/com/oracle/truffle/js/runtime/builtins/JSListFormat.java:249-252 | reading the key back out of a built path gives the key's text |
| `ListPatternKeys.PathInjective` | graal-js/src/com.oracle.truffle.js/src/com/oracle/truffle/js/runtime/builtins/JSListFormat.java:148-162 | equal paths come from equal key texts; the null key's paths never coincide with a real key's paths |
| `ListPatternKeys.FourPathsDistinct` | graal-js/src/com.oracle.truffle.js/src/com/oracle/truffle/js/runtime/builtins/JSListFormat.java:249-252 | the end, middle, 2 and start paths of one key are pairwise different |
| `ListPatternKeys.StandardPaths` | graal-js/src/com.oracle.truffle.js/src/com/oracle/truffle/js/runtime/builtins/JSListFormat.java:249-252 | the "standard" paths are listPattern/standard/end, /middle, /2 and /start |
| `ListFormatState.CreateFormatter` | graal-js/src/com.oracle.truffle.js/src/com/oracle/truffle/js/runtime/builtins/JSListFormat.java:245-255 | each of the formatter's four patterns is the bundle entry at "listPattern/" + key + its suffix |
| `ListFormatState.DefaultFormatter` | graal-js/src/com.oracle.truffle.js/src/com/oracle/truffle/js/runtime/builtins/JSListFormat.java:215-216 | the default type and style fetch the four listPattern/standard/... entries |
| `ListFormatState.InternalState.constructor` | graal-js/src/com.oracle.truffle.js/src/com/oracle/truffle/js/runtime/builtins/JSListFormat.java:207-216 | a fresh state is uninitialized, has no formatter or locale, has type conjunction and style long, and resolves to "standard" |
| `ListFormatState.InternalState.IsInitialized` | graal-js/src/com.oracle.truffle.js/src/com/oracle/truffle/js/runtime/builtins/JSListFormat.java:226-228 | returns the initialized flag |
| `ListFormatState.InternalState.SetInitialized` | graal-js/src/com.oracle.truffle.js/src/com/oracle/truffle/js/runtime/builtins/JSListFormat.java:230-232 | sets the flag and changes nothing else |
| `ListFormatState.InternalState.SetType` | graal-js/src/com.oracle.truffle.js/src/com/oracle/truffle/js/runtime/builtins/JSListFormat.java:234-236 | sets the type, which may be any string, and changes nothing else |
| `ListFormatState.InternalState.SetStyle` | graal-js/src/com.oracle.truffle.js/src/com/oracle/truffle/js/runtime/builtins/JSListFormat.java:238-240 | sets the style and changes nothing else |
| `ListFormatState.InternalState.SetLocale` | graal-js/src/com.oracle.truffle.js/src/com/oracle/truffle/js/runtime/builtins/JSListFormat.java:141-142 | records the negotiated tag as both the locale and the Java locale |
| `ListFormatState.InternalState.SetupInternalListFormatter` | graal-js/src/com.oracle.truffle.js/src/com/oracle/truffle/js/runtime/builtins/JSListFormat.java:146-163 | rebuilds the Java locale from the tag and installs the formatter for the key resolved from the current type and style; it changes only those two fields |
| `ListFormatState.SetupScenario` | graal-js/src/com.oracle.truffle.js/src/com/oracle/truffle/js/runtime/builtins/JSListFormat.java:146-162 | a caller's view: a fresh state gets the standard patterns; after setting type unit and style short, it gets the unit-short patterns |
| `ListTemplates.RenderAppend` | graal-js/src/com.oracle.truffle.js/src/com/oracle/truffle/js/runtime/builtins/JSListFormat.java:184-185 | the text substitution appends (`Render`) is the template's literal runs and its slots' values, concatenated in order: two templates side by side give their two texts one after the other |
| `ListTemplates.Offsets` | graal-js/src/com.oracle.truffle.js/src/com/oracle/truffle/js/runtime/builtins/JSListFormat.java:182-185 | one offset per item, as for the `offsets` array sized to the list |
| `ListTemplates.OffsetOfAbsentArg` | graal-js/src/com.oracle.truffle.js/src/com/oracle/truffle/js/runtime/builtins/JSListFormat.java:182-185 | an item whose argument has no slot in the pattern is reported at offset -1 |
| `ListTemplates.ListPatternOffsets` | graal-js/src/com.oracle.truffle.js/src/com/oracle/truffle/js/runtime/builtins/JSListFormat.java:181-185 | with slots {0}..{m-1} in order, each of the first m items sits at its offset with its own text, in order, without overlap |
| `ListTemplates.ListPatternWellFormed` | graal-js/src/com.oracle.truffle.js/src/com/oracle/truffle/js/runtime/builtins/JSListFormat.java:181-185 | the offsets substitution reports for a list pattern are well formed |
| `ListFormatParts.SpanParts` | graal-js/src/com.oracle.truffle.js/src/com/oracle/truffle/js/runtime/builtins/JSListFormat.java:186-203 | when no substring fails, the parts from cursor i concatenate to the formatted text from i on |
| `ListFormatParts.LiteralsNonEmptyFrom` | graal-js/src/com.oracle.truffle.js/src/com/oracle/truffle/js/runtime/builtins/JSListFormat.java:191-203 | whatever the offsets, every literal part the loop emits is non-empty, since one is emitted only when the cursor is strictly before the next offset or the end |
| `ListFormatParts.ExtractParts` | graal-js/src/com.oracle.truffle.js/src/com/oracle/truffle/js/runtime/builtins/JSListFormat.java:186-204 | the cursor loop computes exactly SpanParts; on success its parts concatenate to the formatted text |
| `ListFormatParts.WellFormedSpans` | graal-js/src/com.oracle.truffle.js/src/com/oracle/truffle/js/runtime/builtins/JSListFormat.java:189-200 | with well-formed offsets and the cursor not past the next offset, the loop succeeds, emits every remaining item as an element in order, and never emits two literals in a row |
| `ListFormatParts.WellFormedRoundTrip` | graal-js/src/com.oracle.truffle.js/src/com/oracle/truffle/js/runtime/builtins/JSListFormat.java:186-203 | with well-formed offsets, the parts concatenate to the formatted text, the elements are exactly the items in order (as many as the items), no two literals are adjacent and none is empty |
| `ListFormatParts.ElementsAtMostItems` | graal-js/src/com.oracle.truffle.js/src/com/oracle/truffle/js/runtime/builtins/JSListFormat.java:189-200 | whatever the offsets, there are never more element parts than items |
| `ListFormatParts.Format` | graal-js/src/com.oracle.truffle.js/src/com/oracle/truffle/js/runtime/builtins/JSListFormat.java:170-173 | for a list pattern, each item's text sits at its reported offset in the formatted text |
| `ListFormatParts.FormatToParts` | graal-js/src/com.oracle.truffle.js/src/com/oracle/truffle/js/runtime/builtins/JSListFormat.java:176-205 | an empty list gives no parts; otherwise the result is the loop over the substituted text and offsets; its parts concatenate to format's text; for a list pattern it succeeds with the items as its elements and no adjacent literals |
| `ListFormatParts.SingleItem` | graal-js/src/com.oracle.truffle.js/src/com/oracle/truffle/js/runtime/builtins/JSListFormat.java:189-203 | a single item at offset 0 gives exactly one element part and no literal |
| `ListFormatParts.ThreeItemFormat` | graal-js/src/com.oracle.truffle.js/src/com/oracle/truffle/js/runtime/builtins/JSListFormat.java:181-185 | "{0}, {1}, and {2}" with A, B, C gives "A, B, and C" |
| `ListFormatParts.ThreeItemOffsets` | graal-js/src/com.oracle.truffle.js/src/com/oracle/truffle/js/runtime/builtins/JSListFormat.java:181-185 | "{0}, {1}, and {2}" with A, B, C reports the items at offsets 0, 3 and 10 |
| `ListFormatParts.ThreeItemTail` | graal-js/src/com.oracle.truffle.js/src/com/oracle/truffle/js/runtime/builtins/JSListFormat.java:189-203 | from item B on, the parts of "A, B, and C" are ", " B ", and " C |
| `ListFormatParts.ThreeItemParts` | graal-js/src/com.oracle.truffle.js/src/com/oracle/truffle/js/runtime/builtins/JSListFormat.java:186-203 | "A, B, and C" splits into element A, literal ", ", element B, literal ", and ", element C |
| `ListFormatParts.SwappedPlaceholdersSkipItem` | graal-js/src/com.oracle.truffle.js/src/com/oracle/truffle/js/runtime/builtins/JSListFormat.java:195-199 | when the cursor has passed an item's offset, that item gets no element part: "B y A" with offsets 4, 0 gives literal "B y " and element A only |

## Left out

- ICU internals are not reimplemented:
  - `ListFormatter.format`, which joins a list into one string;
  - `ListFormatter.getPatternForNumItems`, which folds the two/start/middle/end
    patterns into one pattern string for n items;
  - `SimpleFormatter.compile`, which parses a pattern string;
  - `UResourceBundle` / `getWithFallback`, the resource lookup.

  These are foreign library calls. The compiled pattern for n items is an
  input of `Format` and `FormatToParts`. The bundle is the function
  parameter of `SetupInternalListFormatter`. Failures of the lookup (a
  missing resource) are not modelled.
- Format: the source's `format` calls ICU's `ListFormatter.format(list)`
  directly and never compiles a pattern. The model assumes that this text
  equals substituting the items into the compiled n-item pattern that
  `formatToParts` uses, and defines `Format` that way. The assumption is
  not proved, since ICU is not part of this model. So `FormatToParts`'
  promise that the parts concatenate to `Format`'s text rests on it.

- Locale negotiation in `setLocale` is not modelled. That covers
  `IntlUtil.selectedLocale`, the default locale, the "und" fallback and the
  stripping of extensions, and it depends on code outside this model.
  `SetLocale` takes the resulting tag as its parameter.
- `Locale.forLanguageTag` is not modelled. The Java locale is recorded as
  the tag it was built from. A null tag (setup before any locale was set)
  is excluded by a precondition.
- The Truffle object plumbing is not modelled: shapes, the hidden
  internal-state property, prototypes, the constructor,
  `getInternalState`, `getListFormatterProperty` and the `resolvedOptions`
  object. The parts are values of a datatype, not JS objects made by
  `IntlUtil.makePart`.
- Java `int` overflow of `i + elemLength` is not modelled: integers are
  unbounded. String lengths are counted in the model's characters, and
  these stand for Java's UTF-16 code units.
- graal-nodejs/deps/v8/src/graal/graal_object_template.cc is not part of
  this model. It only forwards template calls to Java.
- Determinism of repeated calls is not stated as a lemma. Every member
  here is a function of its inputs, so it holds by construction.
