/** `export_mm_file` in src/export.rs: the consumer/topic pairs of a data
    set as a Mermaid flowchart, a header line and three lines per item, each
    line ending in a newline. */
module Export {
  import opened Wrappers
  import opened Text

  /** A flowchart edge between a Kafka topic and a consumer group.
      `FlowChartItem::to_print_string` is not part of this model; it is
      passed to the exporter as `toPrint`. */
  datatype FlowChartItem = FlowChartItem(kafkaTopic: string, consumerGroup: string)

  /** The exporter never fails; the error type is kept for its signature. */
  datatype IoError = IoError(message: string)

  const Header := "flowchart LR;"
  const TopicStyle := " fill:#f9f," + "stroke:#333," + "stroke-width:2px," + "color:#fff;"
  const ConsumerStyle := " fill:#bbf," + "stroke:#333," + "stroke-width:2px," + "color:#000;"

  /** The three lines one item contributes: the edge, indented by two
      spaces, then the style of the topic node and of the consumer node. */
  function ItemLines(item: FlowChartItem, toPrint: FlowChartItem -> string): (r: seq<string>)
    ensures |r| == 3
  {
    ["  " + toPrint(item) + ";", "style " + item.kafkaTopic + TopicStyle,
     "style " + item.consumerGroup + ConsumerStyle]
  }

  /** The lines of all items, in order. */
  function ItemsLines(items: seq<FlowChartItem>, toPrint: FlowChartItem -> string): (r: seq<string>)
    ensures |r| == 3 * |items|
    decreases |items|
  {
    if items == [] then []
    else ItemsLines(items[..|items| - 1], toPrint) + ItemLines(items[|items| - 1], toPrint)
  }

  /** The whole file: the header line, then every item's lines. */
  function Flowchart(items: seq<FlowChartItem>, toPrint: FlowChartItem -> string): string {
    Terminated([Header] + ItemsLines(items, toPrint))
  }

  /** Builds the flowchart text; `path` is not used. */
  method ExportMmFile(items: seq<FlowChartItem>, path: string, toPrint: FlowChartItem -> string)
    returns (r: Result<string, IoError>)
    ensures r == Ok(Flowchart(items, toPrint))
  {
    var content := "";
    content := content + Header;
    content := content + "\n";
    assert content == Terminated([Header] + ItemsLines(items[..0], toPrint));
    for i := 0 to |items|
      invariant content == Terminated([Header] + ItemsLines(items[..i], toPrint))
    {
      var item := items[i];
      var data := toPrint(item) + ";";
      var styleTopic := "style " + item.kafkaTopic + TopicStyle;
      var styleConsumer := "style " + item.consumerGroup + ConsumerStyle;
      content := content + ("  " + data);
      content := content + "\n";
      content := content + styleTopic;
      content := content + "\n";
      content := content + styleConsumer;
      content := content + "\n";
      ExtendByItem(items, i, toPrint);
    }
    assert items[..|items|] == items;
    r := Ok(content);
  }

  lemma ExtendByItem(items: seq<FlowChartItem>, i: nat, toPrint: FlowChartItem -> string)
    requires i < |items|
    ensures Terminated([Header] + ItemsLines(items[..i + 1], toPrint))
         == Terminated([Header] + ItemsLines(items[..i], toPrint))
            + ("  " + (toPrint(items[i]) + ";")) + "\n"
            + ("style " + items[i].kafkaTopic + TopicStyle) + "\n"
            + ("style " + items[i].consumerGroup + ConsumerStyle) + "\n"
  {
    var lines := ItemLines(items[i], toPrint);
    var pre := [Header] + ItemsLines(items[..i], toPrint);
    assert items[..i + 1][..i] == items[..i];
    assert ItemsLines(items[..i + 1], toPrint) == ItemsLines(items[..i], toPrint) + lines;
    assert [Header] + ItemsLines(items[..i + 1], toPrint) == pre + lines;
    TerminatedAppend(pre, lines);
    TerminatedThree(lines[0], lines[1], lines[2]);
    assert lines == [lines[0], lines[1], lines[2]];
  }

  lemma TerminatedThree(a: string, b: string, c: string)
    ensures Terminated([a, b, c]) == a + "\n" + b + "\n" + c + "\n"
  {
    assert [a, b, c][1..] == [b, c];
    assert [b, c][1..] == [c];
    assert [c][1..] == [];
    assert Terminated([c]) == c + "\n";
    assert Terminated([b, c]) == b + "\n" + (c + "\n");
    assert Terminated([a, b, c]) == a + "\n" + (b + "\n" + (c + "\n"));
  }

  /** An empty data set gives the header line alone. */
  lemma EmptyDataSet(toPrint: FlowChartItem -> string)
    ensures Flowchart([], toPrint) == "flowchart LR;\n"
  {
    assert [Header] + ItemsLines([], toPrint) == [Header];
    assert Terminated([Header]) == Header + "\n" + Terminated([]);
  }

  /** Item `k`'s three lines sit at lines 3k+1 to 3k+3, in order. */
  lemma {:induction false} ItemLinesInPlace(items: seq<FlowChartItem>, toPrint: FlowChartItem -> string, k: nat)
    requires k < |items|
    ensures ItemsLines(items, toPrint)[3 * k..3 * k + 3] == ItemLines(items[k], toPrint)
    decreases |items|
  {
    var init := items[..|items| - 1];
    if k < |init| {
      ItemLinesInPlace(init, toPrint, k);
      assert init[k] == items[k];
      assert ItemsLines(items, toPrint)[..3 * |init|] == ItemsLines(init, toPrint);
    }
  }

  /** Every line of the output is a plain line as long as no topic, group or
      printed edge holds a newline; the output then reads back as the header
      and 3 lines per item, and it starts with the header line. */
  lemma FlowchartLines(items: seq<FlowChartItem>, toPrint: FlowChartItem -> string)
    requires forall i :: 0 <= i < |items| ==>
      '\n' !in items[i].kafkaTopic && '\n' !in items[i].consumerGroup && '\n' !in toPrint(items[i])
    ensures Lines(Flowchart(items, toPrint)) == [Header] + ItemsLines(items, toPrint)
    ensures |Lines(Flowchart(items, toPrint))| == 1 + 3 * |items|
  {
    var body := ItemsLines(items, toPrint);
    var ls := [Header] + body;
    BodyPlain(items, toPrint);
    assert PlainLine(Header);
    assert forall j :: 0 <= j < |ls| ==> PlainLine(ls[j]) by {
      forall j | 0 <= j < |ls| ensures PlainLine(ls[j]) {
        if j > 0 { assert ls[j] == body[j - 1]; }
      }
    }
    LinesOfTerminated(ls);
  }

  /** Without newlines in the fields, every item line is a plain line. */
  lemma BodyPlain(items: seq<FlowChartItem>, toPrint: FlowChartItem -> string)
    requires forall i :: 0 <= i < |items| ==>
      '\n' !in items[i].kafkaTopic && '\n' !in items[i].consumerGroup && '\n' !in toPrint(items[i])
    ensures forall j :: 0 <= j < |ItemsLines(items, toPrint)| ==> PlainLine(ItemsLines(items, toPrint)[j])
  {
    var body := ItemsLines(items, toPrint);
    forall j | 0 <= j < |body| ensures PlainLine(body[j]) {
      var k := j / 3;
      assert 3 * k <= j < 3 * k + 3 && k < |items|;
      ItemLinesInPlace(items, toPrint, k);
      ItemLinesPlain(items[k], toPrint);
      assert body[j] == body[3 * k..3 * k + 3][j - 3 * k];
    }
  }

  lemma ItemLinesPlain(item: FlowChartItem, toPrint: FlowChartItem -> string)
    requires '\n' !in item.kafkaTopic && '\n' !in item.consumerGroup && '\n' !in toPrint(item)
    ensures forall j :: 0 <= j < 3 ==> PlainLine(ItemLines(item, toPrint)[j])
  {
    var ls := ItemLines(item, toPrint);
    assert ls[0][|ls[0]| - 1] == ';';
    assert ls[1][|ls[1]| - 1] == ';';
    assert ls[2][|ls[2]| - 1] == ';';
    assert '\n' !in "  " && '\n' !in "style " && '\n' !in TopicStyle && '\n' !in ConsumerStyle;
  }

  /** The output starts with the header line, and every line, the last one
      included, ends with a newline. */
  lemma FlowchartShape(items: seq<FlowChartItem>, toPrint: FlowChartItem -> string)
    ensures var out := Flowchart(items, toPrint);
      |out| > |Header| && out[..|Header| + 1] == Header + "\n" && out[|out| - 1] == '\n'
  {
    var ls := [Header] + ItemsLines(items, toPrint);
    TerminatedAppend([Header], ItemsLines(items, toPrint));
    TerminatedEndsWithNewline(ls);
  }

  lemma {:induction false} TerminatedEndsWithNewline(ls: seq<string>)
    requires ls != []
    ensures var t := Terminated(ls); t != [] && t[|t| - 1] == '\n'
    decreases |ls|
  {
    if ls[1..] != [] {
      TerminatedEndsWithNewline(ls[1..]);
    }
  }
}
