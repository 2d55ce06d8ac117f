/** The parser as the loops it is, one method for each construct, each computing its part of `MarkdownBlocks.Parse`. */
module MarkdownParser {
  import opened Results
  import MarkdownText
  import opened MarkdownChunks
  import opened MarkdownBlocks

  method PassOver(g: Grammar, lines: seq<Line>, i: nat, span: Span) returns (e: nat)
    requires i <= |lines|
    ensures e == SpanEnd(g, lines, i, span)
  {
    e := i;
    while e < |lines| && In(g(lines[e].text), span)
      invariant e <= |lines| && SpanEnd(g, lines, e, span) == SpanEnd(g, lines, i, span)
    {
      e := e + 1;
    }
  }

  method ParseFence(g: Grammar, lines: seq<Line>, index: nat, f: MarkdownText.FenceMark) returns (b: Block, end: nat)
    requires index < |lines|
    ensures FenceStep(g, lines, index, f) == Step(Leaf(b), end)
  {
    var body: seq<string> := [];
    end := index + 1;
    while end < |lines| && In(g(lines[end].text), Unclosed(f.mark, f.length))
      invariant index < end <= |lines|
      invariant SpanEnd(g, lines, end, Unclosed(f.mark, f.length)) == FenceClose(g, lines, index, f)
      invariant body == FenceBody(g, lines, index + 1, end, f.indent)
    {
      body := body + [Outdented(g, lines[end].text, f.indent)];
      end := end + 1;
    }
    if end >= |lines| { return Unsupported(lines[index].number, UnterminatedFence), |lines|; }
    return Code(lines[index].number, f.info, Join(body)), end + 1;
  }

  method ParseParagraph(g: Grammar, lines: seq<Line>, index: nat) returns (b: Block, end: nat)
    requires index < |lines|
    ensures ParaStep(g, lines, index) == Step(Leaf(b), end)
  {
    var number := lines[index].number;
    var paragraph := [g(lines[index].text).lstripped];
    end := index + 1;
    assert LStripped(g, lines, index, index) == [];
    while end < |lines|
      invariant index < end <= |lines|
      invariant ParaEnd(g, lines, end) == ParaEnd(g, lines, index + 1)
      invariant paragraph == LStripped(g, lines, index, end)
    {
      var following := g(lines[end].text);
      if following.blank { break; }
      if following.setext { return Unsupported(number, SetextHeading), end + 1; }
      if following.interrupts { break; }
      paragraph := paragraph + [following.lstripped];
      end := end + 1;
    }
    var last := |paragraph| - 1;
    b := Para(number, Join(paragraph[last := g(paragraph[last]).rstripped]));
    JoinStripped(g, paragraph);
  }

  lemma {:induction false} JoinStripped(g: Grammar, parts: seq<string>)
    requires parts != []
    ensures Join(parts[|parts| - 1 := g(parts[|parts| - 1]).rstripped]) == ParaText(g, parts)
  {
    var last := |parts| - 1;
    var stripped := parts[last := g(parts[last]).rstripped];
    assert stripped[..last] == parts[..last];
  }

  method ParseTable(g: Grammar, lines: seq<Line>, start: nat) returns (b: Block, index: nat)
    requires start + 1 < |lines|
    ensures TableStep(g, lines, start) == Step(Leaf(b), index)
  {
    var header := g(lines[start].text).cells;
    var delimiters := g(lines[start + 1].text).cells;
    var align: seq<Alignment> := [];
    for k := 0 to |delimiters|
      invariant align == Alignments(delimiters[..k])
    {
      assert delimiters[..k + 1][..k] == delimiters[..k];
      align := align + [AlignmentOf(delimiters[k])];
    }
    assert delimiters[..|delimiters|] == delimiters;
    index := start + 2;
    var rows: seq<seq<string>> := [];
    var rowLines: seq<int> := [];
    var bad: Option<nat> := None;
    while index < |lines| && In(g(lines[index].text), TableRows)
      invariant start + 2 <= index <= |lines| && SpanEnd(g, lines, index, TableRows) == TableEnd(g, lines, start)
      invariant rows == Rows(g, lines, start + 2, index) && rowLines == Numbers(lines, start + 2, index)
      invariant bad == BadRow(g, lines, start + 2, index, |header|)
    {
      var cells := g(lines[index].text).cells;
      if |cells| != |header| && bad.None? { bad := Some(index); }
      rows := rows + [cells];
      rowLines := rowLines + [lines[index].number];
      index := index + 1;
    }
    if bad.Some? { b := Unsupported(lines[bad.value].number, BadTableRow); }
    else { b := Table(lines[start].number, header, align, rows, rowLines); }
  }

  // ---- quotes

  method ParseQuote(g: Grammar, lines: seq<Line>, start: nat) returns (blocks: seq<Block>, index: nat)
    requires start < |lines| && g(lines[start].text).quote
    ensures blocks == Build(g, QuoteStep(g, lines, start).chunk) && index == QuoteStep(g, lines, start).end
    decreases Size(lines), 0
  {
    var inner: seq<Line> := [];
    index := start;
    while index < |lines| && g(lines[index].text).quote
      invariant start <= index <= |lines| && SpanEnd(g, lines, index, Quoted) == QuoteStop(g, lines, start)
      invariant inner == Unquoted(g, lines, start, index)
    {
      inner := inner + [Line(lines[index].number, g(lines[index].text).unquoted)];
      index := index + 1;
    }
    assert index == QuoteStop(g, lines, start) && inner == QuoteLines(g, lines, start);
    QuoteShrinks(g, lines, start);
    RangeWithin(lines, start, index);
    var lazy: Option<int> := None;
    if index < |lines| && !g(lines[index].text).blank && !g(lines[index].text).interrupts
       && !g(inner[|inner| - 1].text).blank { lazy := Some(lines[index].number); }
    var parsed := ParseBlocks(g, inner);
    var alert;
    parsed, alert := MarkAlert(g, parsed);
    blocks := [Quote(lines[start].number, parsed, alert)];
    if lazy.Some? {
      blocks := blocks + [Unsupported(lazy.value, LazyContinuation)];
      index := index + 1;
    }
  }

  method MarkAlert(g: Grammar, parsed: seq<Block>) returns (content: seq<Block>, alert: Option<string>)
    ensures (content, alert) == Alerted(g, parsed)
  {
    content, alert := parsed, None;
    if parsed != [] && parsed[0].Para? {
      var word := g(FirstLine(parsed[0].text)).alertWord;
      var rest := AfterFirstLine(parsed[0].text);
      if word.Some? {
        if !IsAlertKind(word.value) {
          content := [Unsupported(parsed[0].line, UnknownAlert)] + parsed[1..];
        } else {
          alert := word;
          if g(rest).blank { content := parsed[1..]; }
          else { content := [Para(parsed[0].line + 1, rest)] + parsed[1..]; }
        }
      }
    }
  }

  // ---- lists

  method GatherItem(g: Grammar, lines: seq<Line>, start: nat) returns (item: seq<Line>)
    requires start < |lines| && g(lines[start].text).item.Some?
    ensures item == ItemLines(g, lines, start)
  {
    var (column, first) := ItemStart(g, lines[start].text, g(lines[start].text).item.value);
    item := [Line(lines[start].number, first)];
    var index := start + 1;
    while index < |lines|
      invariant start < index <= |lines| && item != []
      invariant ItemLines(g, lines, start) == item + ItemRest(g, lines, index, column, item[|item| - 1].text)
    {
      var more := TakeNext(g, lines, index, column, item[|item| - 1].text);
      if more == [] { break; }
      TakeMore(g, lines, item, more, index, column);
      item := item + more;
      index := index + |more|;
    }
    NothingMore(g, lines, item, index, column);
  }

  method TakeNext(g: Grammar, lines: seq<Line>, index: nat, column: nat, previous: string) returns (more: seq<Line>)
    requires index < |lines|
    ensures more == NextInItem(g, lines, index, column, previous)
  {
    var f, p := g(lines[index].text), g(previous);
    if f.blank {
      var ahead := PassOver(g, lines, index, Blanks);
      if ahead < |lines| && g(lines[ahead].text).indent >= column { return Blanked(lines, index, ahead); }
    } else if f.indent >= column {
      return [Line(lines[index].number, lines[index].text[column..])];
    } else if !p.blank && p.fence.None? && f.item.None? && !f.interrupts && !IsTableStart(g, lines, index) {
      return [Line(lines[index].number, f.lstripped)];
    }
    return [];
  }

  lemma {:induction false} NothingMore(g: Grammar, lines: seq<Line>, item: seq<Line>, i: nat, column: nat)
    requires i <= |lines| && item != []
    ensures NextInItem(g, lines, i, column, item[|item| - 1].text) == []
        ==> item + ItemRest(g, lines, i, column, item[|item| - 1].text) == item
  {
    var more := NextInItem(g, lines, i, column, item[|item| - 1].text);
    assert ItemRest(g, lines, i, column, item[|item| - 1].text) == ItemFrom(g, lines, more, i, column);
  }

  lemma {:induction false} TakeMore(g: Grammar, lines: seq<Line>, item: seq<Line>, more: seq<Line>, i: nat, column: nat)
    requires i <= |lines| && item != [] && more != [] && more == NextInItem(g, lines, i, column, item[|item| - 1].text)
    ensures item + ItemRest(g, lines, i, column, item[|item| - 1].text)
         == item + more + ItemRest(g, lines, i + |more|, column, (item + more)[|item + more| - 1].text)
  {
    assert ItemRest(g, lines, i, column, item[|item| - 1].text) == ItemFrom(g, lines, more, i, column);
    assert item + (more + ItemRest(g, lines, i + |more|, column, more[|more| - 1].text))
        == item + more + ItemRest(g, lines, i + |more|, column, more[|more| - 1].text);
  }

  method ParseItem(g: Grammar, lines: seq<Line>, index: nat) returns (item: Item, end: nat)
    requires index < |lines| && g(lines[index].text).item.Some?
    ensures item == TaskItem(g, Parse(g, ItemLines(g, lines, index))) && end == index + |ItemLines(g, lines, index)|
    decreases Size(lines), 0
  {
    var itemLines := GatherItem(g, lines, index);
    ItemShrinks(g, lines, index);
    RangeWithin(lines, index, index + |itemLines|);
    var parsed := ParseBlocks(g, itemLines);
    return TaskItem(g, parsed), index + |itemLines|;
  }

  /** At `index` the list so far holds `items`, and the rest of it follows. */
  ghost predicate Halfway(g: Grammar, lines: seq<Line>, ordered: bool, kind: char, whole: ListSpan, items: seq<Item>, index: nat) {
    && index < |lines| && ContinuesList(g, lines[index].text, ordered, kind)
    && var rest := ListAt(g, lines, index, ordered, kind);
       whole.end == rest.end && ItemsOf(g, whole.groups) == items + ItemsOf(g, rest.groups)
  }

  /** An item, and where the next one of the list starts, if one follows. */
  method ParseTurn(g: Grammar, lines: seq<Line>, index: nat, ordered: bool, kind: char) returns (item: Item, end: nat, next: Option<nat>)
    requires index < |lines| && g(lines[index].text).item.Some?
    ensures item == TaskItem(g, Parse(g, ItemLines(g, lines, index))) && end == index + |ItemLines(g, lines, index)|
    ensures next == NextItem(g, lines, end, ordered, kind)
    decreases Size(lines), 1
  {
    item, end := ParseItem(g, lines, index);
    var gap := PassOver(g, lines, end, Blanks);
    next := if gap < |lines| && ContinuesList(g, lines[gap].text, ordered, kind) then Some(gap) else None;
  }

  method ParseList(g: Grammar, lines: seq<Line>, start: nat, m: MarkdownText.ListMark) returns (b: Block, index: nat)
    requires start < |lines| && g(lines[start].text).item == Some(m) && !g(lines[start].text).rule
    ensures [b] == Build(g, ListStep(g, lines, start, m).chunk) && index == ListStep(g, lines, start, m).end
    decreases Size(lines), 2
  {
    var ordered, kind := MarkdownText.IsOrdered(m), MarkdownText.ListKind(m);
    ghost var list := ListAt(g, lines, start, ordered, kind);
    var items: seq<Item> := [];
    index := start;
    while true
      invariant start <= index && Halfway(g, lines, ordered, kind, list, items, index)
      decreases |lines| - index
    {
      var item, end, next := ParseTurn(g, lines, index, ordered, kind);
      if next.Some? {
        ListGoesOn(g, lines, index, ordered, kind, list, items, next.value);
      } else {
        ListEnds(g, lines, index, ordered, kind, list, items);
      }
      items := items + [item];
      if next.None? {
        index := end;
        break;
      }
      index := next.value;
    }
    b := ListBlock(lines[start].number, ordered, ListStart(m), items);
  }

  lemma {:induction false} ListGoesOn(g: Grammar, lines: seq<Line>, i: nat, ordered: bool, kind: char, whole: ListSpan,
                                      items: seq<Item>, gap: nat)
    requires Halfway(g, lines, ordered, kind, whole, items, i)
    requires NextItem(g, lines, i + |ItemLines(g, lines, i)|, ordered, kind) == Some(gap)
    ensures Halfway(g, lines, ordered, kind, whole, items + [TaskItem(g, Parse(g, ItemLines(g, lines, i)))], gap)
  {
    ListHasMore(g, lines, i, ordered, kind, gap);
    ItemsOfCons(g, ItemLines(g, lines, i), ListAt(g, lines, gap, ordered, kind).groups);
  }

  lemma {:induction false} ListHasMore(g: Grammar, lines: seq<Line>, i: nat, ordered: bool, kind: char, gap: nat)
    requires i < |lines| && ContinuesList(g, lines[i].text, ordered, kind)
    requires NextItem(g, lines, i + |ItemLines(g, lines, i)|, ordered, kind) == Some(gap)
    ensures var rest := ListAt(g, lines, gap, ordered, kind);
            ListAt(g, lines, i, ordered, kind) == ListSpan([ItemLines(g, lines, i)] + rest.groups, rest.end)
  {
  }

  lemma {:induction false} ListEnds(g: Grammar, lines: seq<Line>, i: nat, ordered: bool, kind: char, whole: ListSpan,
                                    items: seq<Item>)
    requires Halfway(g, lines, ordered, kind, whole, items, i)
    requires NextItem(g, lines, i + |ItemLines(g, lines, i)|, ordered, kind).None?
    ensures ItemsOf(g, whole.groups) == items + [TaskItem(g, Parse(g, ItemLines(g, lines, i)))]
    ensures whole.end == i + |ItemLines(g, lines, i)|
  {
    assert ListAt(g, lines, i, ordered, kind) == ListSpan([ItemLines(g, lines, i)], i + |ItemLines(g, lines, i)|);
    ItemsOfCons(g, ItemLines(g, lines, i), []);
    assert [ItemLines(g, lines, i)] + [] == [ItemLines(g, lines, i)];
  }

  lemma {:induction false} ItemsOfCons(g: Grammar, item: seq<Line>, groups: seq<seq<Line>>)
    ensures ItemsOf(g, [item] + groups) == [TaskItem(g, Parse(g, item))] + ItemsOf(g, groups)
  {
    assert ([item] + groups)[1..] == groups;
  }

  // ---- the whole text

  method ParseBlocks(g: Grammar, lines: seq<Line>) returns (blocks: seq<Block>)
    ensures blocks == Parse(g, lines)
    decreases Size(lines), 4
  {
    blocks := [];
    var index := 0;
    while index < |lines|
      invariant index <= |lines| && blocks + BlocksFrom(g, lines, index) == Parse(g, lines)
    {
      var built, end := ParseOne(g, lines, index);
      BlocksStep(g, lines, index);
      blocks := blocks + built;
      index := end;
    }
  }

  /** One turn of the loop: whatever stands at this line. */
  method ParseOne(g: Grammar, lines: seq<Line>, index: nat) returns (built: seq<Block>, end: nat)
    requires index < |lines|
    ensures built == Build(g, StepAt(g, lines, index).chunk) && end == StepAt(g, lines, index).end
    decreases Size(lines), 3
  {
    var number, f := lines[index].number, g(lines[index].text);
    var b;
    if f.blank {
      return [], index + 1;
    } else if f.indent >= 4 {
      end := PassOver(g, lines, index, Indented);
      b := Unsupported(number, IndentedCode);
    } else if f.fence.Some? {
      b, end := ParseFence(g, lines, index, f.fence.value);
    } else if f.heading.Some? {
      b, end := Heading(number, f.heading.value.level, f.heading.value.text), index + 1;
    } else if f.rule {
      b, end := Rule(number), index + 1;
    } else if f.quote {
      built, end := ParseQuote(g, lines, index);
      return;
    } else if f.item.Some? {
      b, end := ParseList(g, lines, index, f.item.value);
    } else if f.reference {
      b, end := Unsupported(number, ReferenceDefinition), index + 1;
    } else if f.html {
      end := PassOver(g, lines, index, Filled);
      b := Unsupported(number, RawHtml);
    } else if IsTableStart(g, lines, index) {
      b, end := ParseTable(g, lines, index);
    } else {
      b, end := ParseParagraph(g, lines, index);
    }
    built := [b];
  }
}
