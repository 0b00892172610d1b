/** An abstract compiled list pattern and its substitution, reporting for
    each argument where its value landed in the output, as the ICU
    formatter's formatAndAppend does for formatToParts. */
module ListTemplates {

  /** A compiled pattern is a sequence of literal runs and argument slots. */
  datatype Segment = Text(text: string) | Placeholder(arg: nat)
  type Template = seq<Segment>

  /** Every argument slot of t refers to one of n values. */
  ghost predicate ArgsBelow(t: Template, n: nat)
  {
    forall j :: 0 <= j < |t| && t[j].Placeholder? ==> t[j].arg < n
  }

  function SegmentText(s: Segment, values: seq<string>): string
    requires s.Placeholder? ==> s.arg < |values|
  {
    match s
    case Text(text) => text
    case Placeholder(n) => values[n]
  }

  /** The text appended by substitution, built segment by segment. */
  function Render(t: Template, values: seq<string>): string
    requires ArgsBelow(t, |values|)
  {
    if t == [] then ""
    else Render(t[..|t| - 1], values) + SegmentText(t[|t| - 1], values)
  }

  /** Substituting into two templates side by side appends their texts:
      the text is the segments' texts concatenated in order. */
  lemma {:induction false} RenderAppend(t1: Template, t2: Template, values: seq<string>)
    requires ArgsBelow(t1 + t2, |values|)
    ensures ArgsBelow(t1, |values|) && ArgsBelow(t2, |values|)
    ensures Render(t1 + t2, values) == Render(t1, values) + Render(t2, values)
    decreases |t2|
  {
    var t := t1 + t2;
    forall j | 0 <= j < |t1| && t1[j].Placeholder? ensures t1[j].arg < |values| {
      assert t[j] == t1[j];
    }
    forall j | 0 <= j < |t2| && t2[j].Placeholder? ensures t2[j].arg < |values| {
      assert t[|t1| + j] == t2[j];
    }
    if t2 == [] {
      assert t == t1;
    } else {
      var p2 := t2[..|t2| - 1];
      assert t[..|t| - 1] == t1 + p2;
      assert t[|t| - 1] == t2[|t2| - 1];
      PrefixArgsBelow(t, |values|);
      RenderAppend(t1, p2, values);
    }
  }

  /** The offset of each value in Render(t, values): the length of the text
      before its slot, the last slot winning if an argument occurs twice,
      and -1 for an argument without a slot. */
  function Offsets(t: Template, values: seq<string>): (offsets: seq<int>)
    requires ArgsBelow(t, |values|)
    ensures |offsets| == |values|
  {
    if t == [] then seq(|values|, _ => -1)
    else
      var p := t[..|t| - 1];
      match t[|t| - 1]
      case Text(_) => Offsets(p, values)
      case Placeholder(n) => Offsets(p, values)[n := |Render(p, values)|]
  }

  /** The argument numbers of t's slots, in order. */
  function Args(t: Template): seq<int>
  {
    if t == [] then []
    else
      var p := t[..|t| - 1];
      match t[|t| - 1]
      case Text(_) => Args(p)
      case Placeholder(n) => Args(p) + [n]
  }

  function Range(n: nat): (r: seq<int>)
    ensures |r| == n && forall k :: 0 <= k < n ==> r[k] == k
  {
    seq(n, k => k)
  }

  /** The shape of a list pattern for n items: the slots are {0} .. {n-1},
      each once and in this order, with literal text between them. */
  ghost predicate IsListPattern(t: Template, n: nat)
  {
    ArgsBelow(t, n) && Args(t) == Range(n)
  }

  /** Each value's offset and length pick out exactly that value. */
  ghost predicate SpanFits(formatted: string, item: string, offset: int)
  {
    0 <= offset && offset + |item| <= |formatted| && formatted[offset..offset + |item|] == item
  }

  /** The offsets of a join: each in bounds and matching its item, and each
      item ending no later than the next one starts. */
  ghost predicate WellFormed(formatted: string, items: seq<string>, offsets: seq<int>)
  {
    && |offsets| == |items|
    && (forall k :: 0 <= k < |items| ==> SpanFits(formatted, items[k], offsets[k]))
    && (forall k :: 0 <= k < |items| - 1 ==> offsets[k] + |items[k]| <= offsets[k + 1])
  }

  lemma PrefixArgsBelow(t: Template, n: nat)
    requires t != [] && ArgsBelow(t, n)
    ensures ArgsBelow(t[..|t| - 1], n)
  {
    var p := t[..|t| - 1];
    forall j | 0 <= j < |p| && p[j].Placeholder? ensures p[j].arg < n {
      assert p[j] == t[j];
    }
  }

  /** An argument without a slot is reported at offset -1. */
  lemma {:induction false} OffsetOfAbsentArg(t: Template, values: seq<string>, k: nat)
    requires ArgsBelow(t, |values|) && k < |values|
    requires forall j :: 0 <= j < |Args(t)| ==> Args(t)[j] != k
    ensures Offsets(t, values)[k] == -1
    decreases |t|
  {
    if t != [] {
      var p := t[..|t| - 1];
      PrefixArgsBelow(t, |values|);
      match t[|t| - 1]
      case Text(_) =>
        assert Args(t) == Args(p);
        OffsetOfAbsentArg(p, values, k);
      case Placeholder(n) =>
        assert Args(t) == Args(p) + [n];
        assert n != k by { assert Args(t)[|Args(p)|] == n; }
        assert forall j :: 0 <= j < |Args(p)| ==> Args(p)[j] == Args(t)[j];
        OffsetOfAbsentArg(p, values, k);
    }
  }

  /** Substituting into a template whose slots are {0} .. {m-1} in order
      places the first m values in order, non-overlapping, at the reported
      offsets. */
  lemma {:induction false} ListPatternOffsets(t: Template, values: seq<string>, m: nat)
    requires ArgsBelow(t, |values|) && Args(t) == Range(m) && m <= |values|
    ensures var f, o := Render(t, values), Offsets(t, values);
      && (forall k :: 0 <= k < m ==> SpanFits(f, values[k], o[k]))
      && (forall k :: 0 <= k < m - 1 ==> o[k] + |values[k]| <= o[k + 1])
    decreases |t|
  {
    if t != [] {
      var p := t[..|t| - 1];
      PrefixArgsBelow(t, |values|);
      var f, o := Render(p, values), Offsets(p, values);
      match t[|t| - 1]
      case Text(text) =>
        assert Args(t) == Args(p);
        ListPatternOffsets(p, values, m);
        TextStep(f, text, values, o, m);
      case Placeholder(n) =>
        assert Args(t) == Args(p) + [n];
        assert m > 0 && Args(p) == Range(m - 1) && n == m - 1 by {
          assert |Args(p)| + 1 == m;
          assert Args(p) == Range(m)[..m - 1];
          assert Args(t)[m - 1] == n;
        }
        ListPatternOffsets(p, values, m - 1);
        PlaceholderStep(f, values, o, m);
    }
  }

  /** Appending literal text keeps every placed value where it was. */
  lemma TextStep(f: string, text: string, values: seq<string>, o: seq<int>, m: nat)
    requires m <= |values| == |o|
    requires forall k :: 0 <= k < m ==> SpanFits(f, values[k], o[k])
    ensures forall k :: 0 <= k < m ==> SpanFits(f + text, values[k], o[k])
  {
    forall k | 0 <= k < m ensures SpanFits(f + text, values[k], o[k]) {
      assert (f + text)[o[k]..o[k] + |values[k]|] == f[o[k]..o[k] + |values[k]|];
    }
  }

  /** Appending value m-1 at offset |f| places it after all earlier ones. */
  lemma PlaceholderStep(f: string, values: seq<string>, o: seq<int>, m: nat)
    requires 0 < m <= |values| == |o|
    requires forall k :: 0 <= k < m - 1 ==> SpanFits(f, values[k], o[k])
    requires forall k :: 0 <= k < m - 2 ==> o[k] + |values[k]| <= o[k + 1]
    ensures var f', o' := f + values[m - 1], o[m - 1 := |f|];
      && (forall k :: 0 <= k < m ==> SpanFits(f', values[k], o'[k]))
      && (forall k :: 0 <= k < m - 1 ==> o'[k] + |values[k]| <= o'[k + 1])
  {
    var f', o' := f + values[m - 1], o[m - 1 := |f|];
    forall k | 0 <= k < m ensures SpanFits(f', values[k], o'[k]) {
      if k < m - 1 {
        assert f'[o[k]..o[k] + |values[k]|] == f[o[k]..o[k] + |values[k]|];
      } else {
        assert f'[|f|..|f| + |values[k]|] == values[k];
      }
    }
    if m >= 2 {
      assert SpanFits(f, values[m - 2], o[m - 2]);
    }
  }

  /** The offsets reported for a list pattern of n items are well formed. */
  lemma ListPatternWellFormed(t: Template, values: seq<string>)
    requires IsListPattern(t, |values|)
    ensures WellFormed(Render(t, values), values, Offsets(t, values))
  {
    ListPatternOffsets(t, values, |values|);
  }
}
