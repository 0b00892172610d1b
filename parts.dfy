/** Intl.ListFormat.prototype.formatToParts: splitting a formatted list
    into "literal" and "element" parts by the offsets at which each item
    was substituted. */
module ListFormatParts {
  import opened ListTemplates

  datatype PartKind = Literal | Element
  datatype Part = Part(kind: PartKind, value: string)

  /** A substring call out of range (Java's StringIndexOutOfBoundsException). */
  datatype Error = IndexOutOfBounds
  datatype Result<T> = Ok(value: T) | Err(error: Error)

  /** The parts' texts, concatenated. */
  function Concat(parts: seq<Part>): string
  {
    if parts == [] then "" else parts[0].value + Concat(parts[1..])
  }

  /** The texts of the element parts, in order. */
  function Elements(parts: seq<Part>): seq<string>
  {
    if parts == [] then []
    else (if parts[0].kind == Element then [parts[0].value] else []) + Elements(parts[1..])
  }

  ghost predicate NoAdjacentLiterals(parts: seq<Part>)
  {
    forall j :: 0 <= j < |parts| - 1 ==> !(parts[j].kind == Literal && parts[j + 1].kind == Literal)
  }

  ghost predicate LiteralsNonEmpty(parts: seq<Part>)
  {
    forall j :: 0 <= j < |parts| && parts[j].kind == Literal ==> parts[j].value != ""
  }

  function Prepend(prefix: seq<Part>, r: Result<seq<Part>>): Result<seq<Part>>
  {
    if r.Ok? then Ok(prefix + r.value) else r
  }

  lemma PrependPrepend(a: seq<Part>, b: seq<Part>, r: Result<seq<Part>>)
    ensures Prepend(a, Prepend(b, r)) == Prepend(a + b, r)
    ensures Prepend([], r) == r
  {
    if r.Ok? {
      assert a + (b + r.value) == (a + b) + r.value;
      assert [] + r.value == r.value;
    }
  }

  lemma {:induction false} ConcatAppend(a: seq<Part>, b: seq<Part>)
    ensures Concat(a + b) == Concat(a) + Concat(b)
    decreases |a|
  {
    if a != [] {
      assert (a + b)[0] == a[0] && (a + b)[1..] == a[1..] + b;
      ConcatAppend(a[1..], b);
    } else {
      assert a + b == b;
    }
  }

  lemma {:induction false} ElementsAppend(a: seq<Part>, b: seq<Part>)
    ensures Elements(a + b) == Elements(a) + Elements(b)
    decreases |a|
  {
    if a != [] {
      assert (a + b)[0] == a[0] && (a + b)[1..] == a[1..] + b;
      ElementsAppend(a[1..], b);
    } else {
      assert a + b == b;
    }
  }

  /** The parts of one step followed by the rest concatenate to the text
      from the step's cursor on. */
  lemma StepConcat(formatted: string, i: nat, j: nat, len: nat, literal: seq<Part>, rest: seq<Part>)
    requires i <= j && j + len <= |formatted|
    requires literal == if i < j then [Part(Literal, formatted[i..j])] else []
    requires Concat(rest) == formatted[j + len..]
    ensures Concat(literal + [Part(Element, formatted[j..j + len])] + rest) == formatted[i..]
  {
    var element := Part(Element, formatted[j..j + len]);
    var tail := [element] + rest;
    assert tail[1..] == rest;
    assert Concat(tail) == formatted[j..] by {
      assert formatted[j..] == formatted[j..j + len] + formatted[j + len..];
    }
    if i < j {
      assert (literal + tail)[1..] == tail;
      assert formatted[i..] == formatted[i..j] + formatted[j..];
    } else {
      assert literal + tail == tail;
    }
    assert literal + [element] + rest == literal + tail;
  }

  /** The parts that the loop emits from item k on, with the cursor at i,
      followed by the final literal. An item whose offset the cursor has
      already passed is skipped. */
  function SpanParts(formatted: string, items: seq<string>, offsets: seq<int>, k: nat, i: nat): (r: Result<seq<Part>>)
    requires |offsets| == |items| && k <= |items| && i <= |formatted|
    ensures r.Ok? ==> Concat(r.value) == formatted[i..]
    decreases |items| - k
  {
    if k == |items| then
      Ok(if i < |formatted| then [Part(Literal, formatted[i..])] else [])
    else
      var o := offsets[k];
      var len := |items[k]|;
      if i < o && |formatted| < o then Err(IndexOutOfBounds)
      else
        var literal := if i < o then [Part(Literal, formatted[i..o])] else [];
        var j: nat := if i < o then o else i;
        if j == o then
          if |formatted| < j + len then Err(IndexOutOfBounds)
          else
            var rest := SpanParts(formatted, items, offsets, k + 1, j + len);
            var emitted := literal + [Part(Element, formatted[j..j + len])];
            if rest.Ok? then
              StepConcat(formatted, i, j, len, literal, rest.value);
              Prepend(emitted, rest)
            else rest
        else
          SpanParts(formatted, items, offsets, k + 1, j)
  }

  /** formatToParts from the formatted text and the offsets on: the loop
      over the items and the final literal. */
  method ExtractParts(formatted: string, items: seq<string>, offsets: seq<int>) returns (r: Result<seq<Part>>)
    requires |offsets| == |items|
    ensures r == SpanParts(formatted, items, offsets, 0, 0)
    ensures r.Ok? ==> Concat(r.value) == formatted
  {
    var i: nat := 0;
    var idx := 0;
    var parts: seq<Part> := [];
    PrependPrepend([], [], SpanParts(formatted, items, offsets, 0, 0));
    while idx < |items|
      invariant idx <= |items| && i <= |formatted|
      invariant SpanParts(formatted, items, offsets, 0, 0) == Prepend(parts, SpanParts(formatted, items, offsets, idx, i))
    {
      var element := items[idx];
      var nextOffset := offsets[idx];
      ghost var k, start, before := idx, i, parts;
      idx := idx + 1;
      if i < nextOffset {
        if |formatted| < nextOffset {
          StepOutOfBounds(formatted, items, offsets, k, start);
          return Err(IndexOutOfBounds);
        }
        parts := parts + [Part(Literal, formatted[i..nextOffset])];
        i := nextOffset;
      }
      if i == nextOffset {
        if |formatted| < i + |element| {
          StepOutOfBounds(formatted, items, offsets, k, start);
          return Err(IndexOutOfBounds);
        }
        parts := parts + [Part(Element, formatted[i..i + |element|])];
        i := i + |element|;
      }
      LoopStep(formatted, items, offsets, k, start, before, parts, i);
    }
    ghost var trailing := if i < |formatted| then [Part(Literal, formatted[i..])] else [];
    FinalLiteral(formatted, items, offsets, i);
    if i < |formatted| {
      parts := parts + [Part(Literal, formatted[i..])];
    } else {
      assert parts + trailing == parts;
    }
    r := Ok(parts);
  }

  lemma NoAdjacentAppend(a: seq<Part>, b: seq<Part>)
    requires NoAdjacentLiterals(a) && NoAdjacentLiterals(b)
    requires a != [] && a[|a| - 1].kind == Element
    ensures NoAdjacentLiterals(a + b)
  {
    var c := a + b;
    forall j | 0 <= j < |c| - 1 ensures !(c[j].kind == Literal && c[j + 1].kind == Literal) {
      if j < |a| - 1 {
        assert c[j] == a[j] && c[j + 1] == a[j + 1];
      } else if j == |a| - 1 {
        assert c[j] == a[|a| - 1];
      } else {
        assert c[j] == b[j - |a|] && c[j + 1] == b[j + 1 - |a|];
      }
    }
  }

  /** One step of the loop when item k's span lies in bounds and the cursor
      is not past its offset: an optional literal, then the element. */
  lemma StepInBounds(formatted: string, items: seq<string>, offsets: seq<int>, k: nat, i: nat)
    requires |offsets| == |items| && k < |items|
    requires i <= offsets[k] && offsets[k] + |items[k]| <= |formatted|
    ensures var o, len := offsets[k], |items[k]|;
      var literal := if i < o then [Part(Literal, formatted[i..o])] else [];
      SpanParts(formatted, items, offsets, k, i) ==
        Prepend(literal + [Part(Element, formatted[o..o + len])], SpanParts(formatted, items, offsets, k + 1, o + len))
  {
  }

  lemma WellFormedAt(formatted: string, items: seq<string>, offsets: seq<int>, k: nat)
    requires WellFormed(formatted, items, offsets) && k < |items|
    ensures 0 <= offsets[k] && offsets[k] + |items[k]| <= |formatted|
    ensures formatted[offsets[k]..offsets[k] + |items[k]|] == items[k]
    ensures k + 1 < |items| ==> offsets[k] + |items[k]| <= offsets[k + 1]
  {
    assert SpanFits(formatted, items[k], offsets[k]);
  }

  /** One pass of the loop body keeps the loop's invariant: what was
      emitted before item k, followed by the parts from item k, is what was
      emitted up to item k + 1 followed by the parts from there. */
  lemma LoopStep(formatted: string, items: seq<string>, offsets: seq<int>, k: nat, start: nat,
                 before: seq<Part>, parts: seq<Part>, i: nat)
    requires |offsets| == |items| && k < |items| && start <= |formatted| && i <= |formatted|
    requires var o, len := offsets[k], |items[k]|;
      || (o < start && parts == before && i == start)
      || (start <= o && o + len <= |formatted| && i == o + len &&
          parts == before + (if start < o then [Part(Literal, formatted[start..o])] else [])
                          + [Part(Element, formatted[o..o + len])])
    ensures Prepend(before, SpanParts(formatted, items, offsets, k, start)) ==
            Prepend(parts, SpanParts(formatted, items, offsets, k + 1, i))
  {
    var o, len := offsets[k], |items[k]|;
    if o < start {
      StepSkip(formatted, items, offsets, k, start);
    } else {
      var literal := if start < o then [Part(Literal, formatted[start..o])] else [];
      var emitted := literal + [Part(Element, formatted[o..o + len])];
      StepInBounds(formatted, items, offsets, k, start);
      PrependPrepend(before, emitted, SpanParts(formatted, items, offsets, k + 1, i));
      assert before + emitted == parts;
    }
  }

  /** After the last item: one literal for the rest of the text, if any. */
  lemma FinalLiteral(formatted: string, items: seq<string>, offsets: seq<int>, i: nat)
    requires |offsets| == |items| && i <= |formatted|
    ensures SpanParts(formatted, items, offsets, |items|, i) ==
      Ok(if i < |formatted| then [Part(Literal, formatted[i..])] else [])
  {
  }

  /** An item whose offset the cursor has passed is skipped. */
  lemma StepSkip(formatted: string, items: seq<string>, offsets: seq<int>, k: nat, i: nat)
    requires |offsets| == |items| && k < |items| && i <= |formatted| && offsets[k] < i
    ensures SpanParts(formatted, items, offsets, k, i) == SpanParts(formatted, items, offsets, k + 1, i)
  {
  }

  /** A step whose literal or element would reach past the text fails. */
  lemma StepOutOfBounds(formatted: string, items: seq<string>, offsets: seq<int>, k: nat, i: nat)
    requires |offsets| == |items| && k < |items| && i <= |formatted|
    requires (i < offsets[k] && |formatted| < offsets[k])
          || (i <= offsets[k] && |formatted| < offsets[k] + |items[k]|)
    ensures SpanParts(formatted, items, offsets, k, i) == Err(IndexOutOfBounds)
  {
  }

  /** From item k on, with the cursor no later than item k's offset,
      well-formed offsets never fail, never skip an item and never emit two
      literals in a row. */
  lemma {:induction false} WellFormedSpans(formatted: string, items: seq<string>, offsets: seq<int>, k: nat, i: nat)
    requires WellFormed(formatted, items, offsets) && k <= |items| && i <= |formatted|
    requires k < |items| ==> i <= offsets[k]
    ensures var r := SpanParts(formatted, items, offsets, k, i);
      r.Ok? && Elements(r.value) == items[k..] && NoAdjacentLiterals(r.value)
    decreases |items| - k
  {
    if k < |items| {
      WellFormedAt(formatted, items, offsets, k);
      WellFormedSpans(formatted, items, offsets, k + 1, offsets[k] + |items[k]|);
      ElementStep(formatted, items, offsets, k, i);
    }
  }

  /** If the parts after item k are all the later items with no adjacent
      literals, and item k fits at its offset, the same holds from item k. */
  lemma ElementStep(formatted: string, items: seq<string>, offsets: seq<int>, k: nat, i: nat)
    requires |offsets| == |items| && k < |items| && i <= offsets[k]
    requires offsets[k] + |items[k]| <= |formatted|
    requires formatted[offsets[k]..offsets[k] + |items[k]|] == items[k]
    requires var r := SpanParts(formatted, items, offsets, k + 1, offsets[k] + |items[k]|);
      r.Ok? && Elements(r.value) == items[k + 1..] && NoAdjacentLiterals(r.value)
    ensures var r := SpanParts(formatted, items, offsets, k, i);
      r.Ok? && Elements(r.value) == items[k..] && NoAdjacentLiterals(r.value)
  {
    var o, len := offsets[k], |items[k]|;
    var literal := if i < o then [Part(Literal, formatted[i..o])] else [];
    var element := Part(Element, formatted[o..o + len]);
    var rest := SpanParts(formatted, items, offsets, k + 1, o + len).value;
    StepInBounds(formatted, items, offsets, k, i);
    assert SpanParts(formatted, items, offsets, k, i).value == literal + [element] + rest;
    AppendElement(literal, element, rest);
    assert element.value == items[k];
    assert items[k..] == [items[k]] + items[k + 1..];
  }

  /** Elements and adjacency of an optional literal, an element and the rest. */
  lemma AppendElement(literal: seq<Part>, element: Part, rest: seq<Part>)
    requires |literal| <= 1 && (literal != [] ==> literal[0].kind == Literal)
    requires element.kind == Element && NoAdjacentLiterals(rest)
    ensures Elements(literal + [element] + rest) == [element.value] + Elements(rest)
    ensures NoAdjacentLiterals(literal + [element] + rest)
  {
    ElementsAppend(literal, [element]);
    ElementsAppend(literal + [element], rest);
    NoAdjacentAppend(literal + [element], rest);
  }

  /** The round-trip law of formatToParts: with well-formed offsets the parts
      concatenate back to the formatted text, the element parts are exactly
      the items in their order, and no two literals are adjacent. */
  lemma WellFormedRoundTrip(formatted: string, items: seq<string>, offsets: seq<int>)
    requires WellFormed(formatted, items, offsets)
    ensures var r := SpanParts(formatted, items, offsets, 0, 0);
      && r.Ok? && Concat(r.value) == formatted
      && Elements(r.value) == items && |Elements(r.value)| == |items|
      && NoAdjacentLiterals(r.value) && LiteralsNonEmpty(r.value)
  {
    if |items| > 0 {
      assert SpanFits(formatted, items[0], offsets[0]);
    }
    WellFormedSpans(formatted, items, offsets, 0, 0);
    LiteralsNonEmptyFrom(formatted, items, offsets, 0, 0);
  }

  /** Whatever the offsets, there are never more element parts than items
      from k on. */
  lemma {:induction false} ElementsAtMostItems(formatted: string, items: seq<string>, offsets: seq<int>, k: nat, i: nat)
    requires |offsets| == |items| && k <= |items| && i <= |formatted|
    ensures var r := SpanParts(formatted, items, offsets, k, i);
      r.Ok? ==> |Elements(r.value)| <= |items| - k
    decreases |items| - k
  {
    var r := SpanParts(formatted, items, offsets, k, i);
    if k < |items| && r.Ok? {
      var o, len := offsets[k], |items[k]|;
      var j: nat := if i < o then o else i;
      if j == o {
        var literal := if i < o then [Part(Literal, formatted[i..o])] else [];
        var element := Part(Element, formatted[o..o + len]);
        ElementsAtMostItems(formatted, items, offsets, k + 1, o + len);
        var rest := SpanParts(formatted, items, offsets, k + 1, o + len).value;
        assert r.value == literal + [element] + rest;
        ElementsAppend(literal, [element]);
        ElementsAppend(literal + [element], rest);
      } else {
        ElementsAtMostItems(formatted, items, offsets, k + 1, j);
      }
    }
  }

  /** Literal parts are emitted only for a non-empty stretch of text. */
  lemma {:induction false} LiteralsNonEmptyFrom(formatted: string, items: seq<string>, offsets: seq<int>, k: nat, i: nat)
    requires |offsets| == |items| && k <= |items| && i <= |formatted|
    ensures var r := SpanParts(formatted, items, offsets, k, i);
      r.Ok? ==> LiteralsNonEmpty(r.value)
    decreases |items| - k
  {
    if k == |items| {
      assert i < |formatted| ==> formatted[i..] != "" by {
        if i < |formatted| { assert |formatted[i..]| > 0; }
      }
    } else {
      var o, len := offsets[k], |items[k]|;
      if o < i {
        StepSkip(formatted, items, offsets, k, i);
        LiteralsNonEmptyFrom(formatted, items, offsets, k + 1, i);
      } else if |formatted| < o + len {
        StepOutOfBounds(formatted, items, offsets, k, i);
      } else {
        LiteralsNonEmptyFrom(formatted, items, offsets, k + 1, o + len);
        NonEmptyStep(formatted, items, offsets, k, i);
      }
    }
  }

  lemma NonEmptyStep(formatted: string, items: seq<string>, offsets: seq<int>, k: nat, i: nat)
    requires |offsets| == |items| && k < |items| && i <= offsets[k]
    requires offsets[k] + |items[k]| <= |formatted|
    requires var r := SpanParts(formatted, items, offsets, k + 1, offsets[k] + |items[k]|);
      r.Ok? ==> LiteralsNonEmpty(r.value)
    ensures var r := SpanParts(formatted, items, offsets, k, i);
      r.Ok? ==> LiteralsNonEmpty(r.value)
  {
    var o, len := offsets[k], |items[k]|;
    var literal := if i < o then [Part(Literal, formatted[i..o])] else [];
    var element := Part(Element, formatted[o..o + len]);
    var rest := SpanParts(formatted, items, offsets, k + 1, o + len);
    StepInBounds(formatted, items, offsets, k, i);
    if rest.Ok? {
      assert SpanParts(formatted, items, offsets, k, i).value == literal + [element] + rest.value;
      NonEmptyAppend(literal, element, rest.value);
    }
  }

  lemma NonEmptyAppend(literal: seq<Part>, element: Part, rest: seq<Part>)
    requires |literal| <= 1 && (literal != [] ==> literal[0].value != "")
    requires element.kind == Element && LiteralsNonEmpty(rest)
    ensures LiteralsNonEmpty(literal + [element] + rest)
  {
    var parts := literal + [element] + rest;
    forall m | 0 <= m < |parts| && parts[m].kind == Literal ensures parts[m].value != "" {
      if m >= |literal| + 1 {
        assert parts[m] == rest[m - |literal| - 1];
      }
    }
  }

  /** Intl.ListFormat.prototype.format: the formatter's text for the items,
      where pattern is the compiled pattern for |items| items. */
  function Format(pattern: Template, items: seq<string>): (text: string)
    requires |items| > 0 ==> ArgsBelow(pattern, |items|)
    ensures IsListPattern(pattern, |items|) ==>
      forall k :: 0 <= k < |items| ==> SpanFits(text, items[k], Offsets(pattern, items)[k])
  {
    if |items| == 0 then ""
    else
      var text := Render(pattern, items);
      assert IsListPattern(pattern, |items|) ==> WellFormed(text, items, Offsets(pattern, items)) by {
        if IsListPattern(pattern, |items|) {
          ListPatternWellFormed(pattern, items);
        }
      }
      text
  }

  /** Intl.ListFormat.prototype.formatToParts: an empty list gives no parts
      without consulting the formatter; otherwise the items are substituted
      into the compiled pattern for |items| items and the result is split
      at the reported offsets. */
  method FormatToParts(pattern: Template, items: seq<string>) returns (r: Result<seq<Part>>)
    requires |items| > 0 ==> ArgsBelow(pattern, |items|)
    ensures |items| == 0 ==> r == Ok([])
    ensures |items| > 0 ==> r == SpanParts(Render(pattern, items), items, Offsets(pattern, items), 0, 0)
    ensures r.Ok? ==> Concat(r.value) == Format(pattern, items)
    ensures IsListPattern(pattern, |items|) ==>
      && r.Ok? && Elements(r.value) == items && NoAdjacentLiterals(r.value)
  {
    if |items| == 0 {
      return Ok([]);
    }
    var formatted := Render(pattern, items);
    var offsets := Offsets(pattern, items);
    r := ExtractParts(formatted, items, offsets);
    if IsListPattern(pattern, |items|) {
      ListPatternWellFormed(pattern, items);
      WellFormedRoundTrip(formatted, items, offsets);
    }
  }

  /** One item: a single element part and no literal. */
  lemma SingleItem(item: string)
    ensures SpanParts(item, [item], [0], 0, 0) == Ok([Part(Element, item)])
  {
    assert item[0..|item|] == item;
    assert SpanParts(item, [item], [0], 1, |item|) == Ok([]);
    assert [] + [Part(Element, item)] + [] == [Part(Element, item)];
  }

  /** Three items with the English conjunction patterns: "A, B, and C". */
  lemma ThreeItemFormat()
    ensures Format([Placeholder(0), Text(", "), Placeholder(1), Text(", and "), Placeholder(2)], ["A", "B", "C"])
      == "A, B, and C"
  {
    var pattern := [Placeholder(0), Text(", "), Placeholder(1), Text(", and "), Placeholder(2)];
    var items := ["A", "B", "C"];
    var p4, p3, p2, p1 := pattern[..4], pattern[..3], pattern[..2], pattern[..1];
    assert p4[..3] == p3 && p3[..2] == p2 && p2[..1] == p1 && p1[..0] == [];
    assert Render(p1, items) == "" + "A";
    assert Render(p2, items) == "" + "A" + ", ";
    assert Render(p3, items) == "" + "A" + ", " + "B";
    assert Render(p4, items) == "" + "A" + ", " + "B" + ", and ";
    assert Render(pattern, items) == "" + "A" + ", " + "B" + ", and " + "C";
    var text := "A, B, and C";
    assert "" + "A" + ", " + "B" + ", and " + "C" == text by {
      assert forall k :: 0 <= k < |text| ==> ("" + "A" + ", " + "B" + ", and " + "C")[k] == text[k];
    }
  }

  /** The items of "A, B, and C" are reported at offsets 0, 3 and 10. */
  lemma ThreeItemOffsets()
    ensures Offsets([Placeholder(0), Text(", "), Placeholder(1), Text(", and "), Placeholder(2)], ["A", "B", "C"])
      == [0, 3, 10]
  {
    var pattern := [Placeholder(0), Text(", "), Placeholder(1), Text(", and "), Placeholder(2)];
    var items := ["A", "B", "C"];
    var p4, p3, p2, p1 := pattern[..4], pattern[..3], pattern[..2], pattern[..1];
    assert p4[..3] == p3 && p3[..2] == p2 && p2[..1] == p1 && p1[..0] == [];
    assert |Render(p1, items)| == 1;
    assert |Render(p2, items)| == 3;
    assert |Render(p3, items)| == 4;
    assert |Render(p4, items)| == 10;
    assert Offsets(p1, items) == [0, -1, -1];
    assert Offsets(p3, items) == [0, 3, -1];
  }

  /** The parts of "A, B, and C" from item 1 on. */
  lemma ThreeItemTail()
    ensures SpanParts("A, B, and C", ["A", "B", "C"], [0, 3, 10], 1, 1) ==
      Ok([Part(Literal, ", "), Part(Element, "B"), Part(Literal, ", and "), Part(Element, "C")])
  {
    var f, items := "A, B, and C", ["A", "B", "C"];
    assert f[1..3] == ", " && f[3..4] == "B" && f[4..10] == ", and " && f[10..11] == "C";
    assert SpanParts(f, items, [0, 3, 10], 3, 11) == Ok([]);
    var c := SpanParts(f, items, [0, 3, 10], 2, 4);
    assert [Part(Literal, ", and ")] + [Part(Element, "C")] + [] == [Part(Literal, ", and "), Part(Element, "C")];
    assert c == Ok([Part(Literal, ", and "), Part(Element, "C")]);
    assert [Part(Literal, ", ")] + [Part(Element, "B")] + c.value ==
      [Part(Literal, ", "), Part(Element, "B"), Part(Literal, ", and "), Part(Element, "C")];
  }

  lemma ThreeItemParts()
    ensures SpanParts("A, B, and C", ["A", "B", "C"], [0, 3, 10], 0, 0) ==
      Ok([Part(Element, "A"), Part(Literal, ", "), Part(Element, "B"), Part(Literal, ", and "), Part(Element, "C")])
  {
    var f := "A, B, and C";
    assert f[0..1] == "A";
    ThreeItemTail();
    assert [] + [Part(Element, "A")] + [Part(Literal, ", "), Part(Element, "B"), Part(Literal, ", and "), Part(Element, "C")] ==
      [Part(Element, "A"), Part(Literal, ", "), Part(Element, "B"), Part(Literal, ", and "), Part(Element, "C")];
  }

  /** When a pattern puts {1} before {0}, the cursor has passed item 1's
      offset when it gets there: that item is skipped and its text ends up
      inside a literal part; the parts still concatenate to the text. */
  lemma SwappedPlaceholdersSkipItem()
    ensures SpanParts("B y A", ["A", "B"], [4, 0], 0, 0) == Ok([Part(Literal, "B y "), Part(Element, "A")])
  {
    var f := "B y A";
    assert f[0..4] == "B y " && f[4..5] == "A";
    assert SpanParts(f, ["A", "B"], [4, 0], 2, 5) == Ok([]);
    assert SpanParts(f, ["A", "B"], [4, 0], 1, 5) == Ok([]);
    assert [Part(Literal, "B y ")] + [Part(Element, "A")] + [] == [Part(Literal, "B y "), Part(Element, "A")];
  }
}
