/**
 * extract_headings of the markdown helper crate: a fold over the parser's event
 * stream that collects (level, text) for every heading. The parser itself
 * (pulldown_cmark::Parser) is not modelled; its output is the input here.
 */
module Headings {
  import opened Wrappers

  /** pulldown_cmark::HeadingLevel, H1 to H6, as the `level as u8` cast yields it. */
  type Level = l: int | 1 <= l <= 6 witness 1

  /** The container tags of the event stream; only Heading matters to the fold. */
  datatype Tag =
    | Heading(level: Level, id: Option<string>, classes: seq<string>)
    | Paragraph
    | BlockQuote
    | CodeBlock
    | List
    | Item
    | Emphasis
    | Strong
    | Strikethrough
    | Link(url: string)
    | Image(url: string)
    | Table
    | OtherTag

  /** Parser events. Inline code is a Code event, not Text, so headings do not collect it. */
  datatype Event =
    | Start(tag: Tag)
    | End(tag: Tag)
    | Text(text: string)
    | Code(code: string)
    | Html(html: string)
    | FootnoteReference(name: string)
    | SoftBreak
    | HardBreak
    | Rule
    | TaskListMarker(checked: bool)

  /** One collected heading, the (u8, String) pair of the source. */
  datatype Entry = Entry(level: Level, text: string)

  predicate IsHeadingStart(e: Event) { e.Start? && e.tag.Heading? }
  predicate IsHeadingEnd(e: Event) { e.End? && e.tag.Heading? }
  predicate IsBoundary(e: Event) { IsHeadingStart(e) || IsHeadingEnd(e) }

  /** No Start(Heading) or End(Heading) in evs. */
  predicate BoundaryFree(evs: seq<Event>)
  {
    forall j :: 0 <= j < |evs| ==> !IsBoundary(evs[j])
  }

  /** The payloads of the Text events of evs, concatenated in order. */
  function TextOf(evs: seq<Event>): string
  {
    if evs == [] then []
    else
      var last := evs[|evs| - 1];
      TextOf(evs[..|evs| - 1]) + (if last.Text? then last.text else [])
  }

  /** Number of End(Heading) events in evs. */
  function EndCount(evs: seq<Event>): nat
  {
    if evs == [] then 0
    else EndCount(evs[..|evs| - 1]) + (if IsHeadingEnd(evs[|evs| - 1]) then 1 else 0)
  }

  /**
   * The heading open at the end of evs: the position of the last heading boundary,
   * when that boundary is a Start(Heading). None when every heading start has been
   * followed by an End(Heading), or there is no heading start at all.
   */
  function OpenStart(evs: seq<Event>): (r: Option<nat>)
    ensures r.Some? ==> r.value < |evs| && IsHeadingStart(evs[r.value]) && BoundaryFree(evs[r.value + 1..])
    ensures r.None? ==> forall i :: 0 <= i < |evs| && IsHeadingStart(evs[i]) ==>
                          exists j :: i < j < |evs| && IsHeadingEnd(evs[j])
  {
    if evs == [] then None
    else
      var k := |evs| - 1;
      if IsHeadingStart(evs[k]) then Some(k)
      else if IsHeadingEnd(evs[k]) then None
      else
        var r := OpenStart(evs[..k]);
        assert forall j :: 0 <= j < k ==> evs[..k][j] == evs[j];
        if r.Some? then
          assert evs[r.value + 1..] == evs[..k][r.value + 1..] + [evs[k]];
          r
        else
          r
  }

  /**
   * What the fold collects, stated per End(Heading): an End closes the heading open
   * just before it (if any) and contributes its level together with the text of the
   * events strictly between its Start and this End.
   */
  function Collected(evs: seq<Event>): seq<Entry>
  {
    if evs == [] then []
    else
      var k := |evs| - 1;
      var before := evs[..k];
      if IsHeadingEnd(evs[k]) then
        match OpenStart(before)
        case Some(i) => Collected(before) + [Entry(before[i].tag.level, TextOf(before[i + 1..]))]
        case None => Collected(before)
      else Collected(before)
  }

  /** The heading being collected after evs, as current_heading holds it. */
  function Current(evs: seq<Event>): Option<Entry>
  {
    match OpenStart(evs)
    case Some(i) => Some(Entry(evs[i].tag.level, TextOf(evs[i + 1..])))
    case None => None
  }

  /** Appending one event to the stream extends Collected as the loop body does. */
  lemma CollectedSnoc(evs: seq<Event>, e: Event)
    ensures Collected(evs + [e]) ==
      if IsHeadingEnd(e) && Current(evs).Some? then Collected(evs) + [Current(evs).value]
      else Collected(evs)
  {
    assert (evs + [e])[..|evs|] == evs;
  }

  /** Appending one event to the stream moves Current as the loop body moves current_heading. */
  lemma CurrentSnoc(evs: seq<Event>, e: Event)
    ensures Current(evs + [e]) ==
      if IsHeadingStart(e) then Some(Entry(e.tag.level, ""))
      else if IsHeadingEnd(e) then None
      else if e.Text? && Current(evs).Some? then
        Some(Entry(Current(evs).value.level, Current(evs).value.text + e.text))
      else Current(evs)
  {
    var s := evs + [e];
    assert s[..|evs|] == evs;
    if IsHeadingStart(e) {
      assert OpenStart(s) == Some(|evs|);
      assert s[|evs| + 1..] == [];
    } else if !IsHeadingEnd(e) {
      assert OpenStart(s) == OpenStart(evs);
      if OpenStart(evs).Some? {
        var i := OpenStart(evs).value;
        var t := s[i + 1..];
        assert t[..|t| - 1] == evs[i + 1..];
        assert t[|t| - 1] == e;
        assert s[i] == evs[i];
        if e.Text? {
          assert TextOf(t) == TextOf(evs[i + 1..]) + e.text;
        } else {
          assert TextOf(t) == TextOf(evs[i + 1..]) + [];
          assert TextOf(evs[i + 1..]) + [] == TextOf(evs[i + 1..]);
        }
      }
    }
  }

  /** extract_headings (lib.rs), after the parser: the event loop over current_heading and headings. */
  method ExtractHeadings(events: seq<Event>) returns (headings: seq<Entry>)
    ensures headings == Collected(events)
  {
    headings := [];
    var current: Option<Entry> := None;
    for n := 0 to |events|
      invariant headings == Collected(events[..n])
      invariant current == Current(events[..n])
    {
      var e := events[n];
      assert events[..n + 1] == events[..n] + [e];
      CollectedSnoc(events[..n], e);
      CurrentSnoc(events[..n], e);
      match e {
        case Start(Heading(level, _, _)) =>
          current := Some(Entry(level, ""));
        case Text(text) =>
          if current.Some? {
            current := Some(Entry(current.value.level, current.value.text + text));
          }
        case End(Heading(_, _, _)) =>
          if current.Some? {
            headings := headings + [current.value];
            current := None;
          }
        case _ =>
      }
    }
    assert events[..|events|] == events;
  }

  // ---------------------------------------------------------------------------
  // Properties of the fold
  // ---------------------------------------------------------------------------

  /** Headings are only ever appended: what a prefix of the stream yields stays at the front. */
  lemma {:induction false} CollectedPrefix(a: seq<Event>, b: seq<Event>)
    ensures Collected(a) <= Collected(a + b)
    decreases |b|
  {
    if b == [] {
      assert a + b == a;
    } else {
      var k := |b| - 1;
      assert a + b == (a + b[..k]) + [b[k]];
      CollectedPrefix(a, b[..k]);
      CollectedSnoc(a + b[..k], b[k]);
    }
  }

  /** With no heading open after a, the fold continues over b as if b stood alone. */
  lemma {:induction false} CurrentResume(a: seq<Event>, b: seq<Event>)
    requires OpenStart(a).None?
    ensures Current(a + b) == Current(b)
    decreases |b|
  {
    if b == [] {
      assert a + b == a;
    } else {
      var k := |b| - 1;
      assert a + b == (a + b[..k]) + [b[k]];
      assert b == b[..k] + [b[k]];
      CurrentResume(a, b[..k]);
      CurrentSnoc(a + b[..k], b[k]);
      CurrentSnoc(b[..k], b[k]);
    }
  }

  /** After a stream with no open heading, the headings of a + b are those of a, then those of b. */
  lemma {:induction false} CollectedResume(a: seq<Event>, b: seq<Event>)
    requires OpenStart(a).None?
    ensures Collected(a + b) == Collected(a) + Collected(b)
    decreases |b|
  {
    if b == [] {
      assert a + b == a;
    } else {
      var k := |b| - 1;
      assert a + b == (a + b[..k]) + [b[k]];
      assert b == b[..k] + [b[k]];
      CollectedResume(a, b[..k]);
      CurrentResume(a, b[..k]);
      CollectedSnoc(a + b[..k], b[k]);
      CollectedSnoc(b[..k], b[k]);
    }
  }

  /** Events with no End(Heading) among them add no heading. */
  lemma {:induction false} CollectedWithoutEnd(a: seq<Event>, b: seq<Event>)
    requires forall j :: 0 <= j < |b| ==> !IsHeadingEnd(b[j])
    ensures Collected(a + b) == Collected(a)
    decreases |b|
  {
    if b == [] {
      assert a + b == a;
    } else {
      var k := |b| - 1;
      assert a + b == (a + b[..k]) + [b[k]];
      CollectedWithoutEnd(a, b[..k]);
      CollectedSnoc(a + b[..k], b[k]);
    }
  }

  /** After a heading start and boundary-free events, the open heading holds their text. */
  lemma {:induction false} CurrentAfterStart(a: seq<Event>, start: Event, body: seq<Event>)
    requires IsHeadingStart(start) && BoundaryFree(body)
    ensures Current(a + [start] + body) == Some(Entry(start.tag.level, TextOf(body)))
    decreases |body|
  {
    if body == [] {
      assert a + [start] + body == a + [start];
      CurrentSnoc(a, start);
    } else {
      var k := |body| - 1;
      assert a + [start] + body == (a + [start] + body[..k]) + [body[k]];
      assert !IsBoundary(body[k]);
      CurrentAfterStart(a, start, body[..k]);
      CurrentSnoc(a + [start] + body[..k], body[k]);
      if body[k].Text? {
        assert TextOf(body) == TextOf(body[..k]) + body[k].text;
      } else {
        assert TextOf(body) == TextOf(body[..k]) + [];
        assert TextOf(body[..k]) + [] == TextOf(body[..k]);
      }
    }
  }

  /**
   * A heading start, boundary-free events and a heading end yield exactly one heading:
   * the start's level with the concatenated Text of the events in between.
   */
  lemma ClosedHeading(a: seq<Event>, level: Level, id: Option<string>, classes: seq<string>,
                      body: seq<Event>, end: Tag)
    requires BoundaryFree(body) && end.Heading?
    ensures Collected(a + [Start(Heading(level, id, classes))] + body + [End(end)])
         == Collected(a) + [Entry(level, TextOf(body))]
  {
    var start := Start(Heading(level, id, classes));
    var headed := [start] + body;
    var x := a + headed;
    assert x == a + [start] + body;
    assert forall j :: 0 <= j < |headed| ==> !IsHeadingEnd(headed[j]) by {
      forall j | 0 <= j < |headed| ensures !IsHeadingEnd(headed[j]) {
        if j > 0 { assert headed[j] == body[j - 1]; }
      }
    }
    CollectedWithoutEnd(a, headed);
    CurrentAfterStart(a, start, body);
    CollectedSnoc(x, End(end));
  }

  /**
   * A second heading start before the end discards the text gathered for the first:
   * only the later start's level and the text after it are emitted.
   */
  lemma RestartDiscards(a: seq<Event>, first: Tag, mid: seq<Event>, level: Level,
                        id: Option<string>, classes: seq<string>, body: seq<Event>, end: Tag)
    requires first.Heading? && BoundaryFree(mid) && BoundaryFree(body) && end.Heading?
    ensures Collected(a + [Start(first)] + mid + [Start(Heading(level, id, classes))] + body + [End(end)])
         == Collected(a) + [Entry(level, TextOf(body))]
  {
    var headed := [Start(first)] + mid;
    var prefix := a + headed;
    assert prefix == a + [Start(first)] + mid;
    assert forall j :: 0 <= j < |headed| ==> !IsHeadingEnd(headed[j]) by {
      forall j | 0 <= j < |headed| ensures !IsHeadingEnd(headed[j]) {
        if j > 0 { assert headed[j] == mid[j - 1]; }
      }
    }
    CollectedWithoutEnd(a, headed);
    ClosedHeading(prefix, level, id, classes, body, end);
  }

  /**
   * While no heading is open, a Text event, an End(Heading) or any other event that
   * is not a heading start can be dropped without changing the result.
   */
  lemma IgnoredOutsideHeading(a: seq<Event>, e: Event, b: seq<Event>)
    requires OpenStart(a).None? && !IsHeadingStart(e)
    ensures Collected(a + [e] + b) == Collected(a + b)
  {
    CollectedSnoc(a, e);
    CurrentSnoc(a, e);
    assert OpenStart(a + [e]).None?;
    CollectedResume(a + [e], b);
    CollectedResume(a, b);
  }

  /** A stream without heading starts yields no headings. */
  lemma {:induction false} NoStartNoHeadings(evs: seq<Event>)
    requires forall j :: 0 <= j < |evs| ==> !IsHeadingStart(evs[j])
    ensures Collected(evs) == []
    decreases |evs|
  {
    if evs != [] {
      var k := |evs| - 1;
      NoStartNoHeadings(evs[..k]);
      assert OpenStart(evs[..k]).None?;
    }
  }

  /** Every heading is produced by an End(Heading): there are at most as many headings as ends. */
  lemma {:induction false} CollectedCountBound(evs: seq<Event>)
    ensures |Collected(evs)| <= EndCount(evs)
    decreases |evs|
  {
    if evs != [] {
      CollectedCountBound(evs[..|evs| - 1]);
    }
  }
}
