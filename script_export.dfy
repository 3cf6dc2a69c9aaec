/**
 * The script exporter: a region and an ordered list of colours become eight indented lines,
 * the first colour written in full (BGR digits) and every later one as `dx|dy|BGR` relative
 * to the first. The consuming tool reads the lines by position; ParseScript is that reading.
 */
module ScriptExport {
  import opened Wrappers
  import opened Types
  import opened Text
  import opened ColorPicker

  const Indent: string := "        "

  /** One output line: eight spaces, the content, a comma. */
  function Line(content: string): string {
    Indent + content + ","
  }

  function Quoted(s: string): string {
    "\"" + s + "\""
  }

  /** `c.bgrHex.replace('#', '')`. */
  function BgrDigits(c: ColorInfo): string {
    RemoveFirst(c.bgrHex, '#')
  }

  /** `${dx}|${dy}|${hex}` for a later colour, with the offsets taken from the first colour. */
  function DeltaItem(c: ColorInfo, first: ColorInfo): string {
    IntToString(c.x - first.x) + "|" + IntToString(c.y - first.y) + "|" + BgrDigits(c)
  }

  /** `colors.slice(1).map(...)`: one item per colour after the first, in input order. */
  function DeltaItems(colors: seq<ColorInfo>): seq<string>
    requires |colors| > 0
  {
    seq(|colors| - 1, i requires 0 <= i < |colors| - 1 => DeltaItem(colors[i + 1], colors[0]))
  }

  /** The eight lines, in their fixed order. */
  function ScriptLines(reg: Region, colors: seq<ColorInfo>): seq<string>
    requires |colors| > 0
  {
    [ Line(IntToString(reg.x1)), Line(IntToString(reg.y1)), Line(IntToString(reg.x2)), Line(IntToString(reg.y2)),
      Line(Quoted(BgrDigits(colors[0]))), Line(Quoted(Join(DeltaItems(colors), ','))),
      Line("0"), Line("0.9") ]
  }

  /** `generateScriptText`: empty without a region or without colours, else the lines joined by `\n`. */
  function GenerateScriptText(region: Option<Region>, colors: seq<ColorInfo>): (text: string)
    ensures text == "" <==> region.None? || |colors| == 0
  {
    if region.None? || |colors| == 0 then ""
    else
      Join(ScriptLines(region.value, colors), '\n')
  }

  /** `canExport`: a region is committed and there is at least one colour. */
  function CanExport(region: Option<Region>, colors: seq<ColorInfo>): (b: bool)
    ensures b <==> GenerateScriptText(region, colors) != ""
  {
    region.Some? && |colors| > 0
  }

  // ---------------------------------------------------------------------------------------
  // Reading the text back, as the consuming tool does

  datatype Delta = Delta(dx: int, dy: int, hex: string)

  datatype Script = Script(region: Region, firstHex: string, deltas: seq<Delta>)

  function LineContent(line: string): Option<string> {
    Between(line, Indent, ",")
  }

  function QuotedContent(s: string): Option<string> {
    Between(s, "\"", "\"")
  }

  function ParseDelta(item: string): Option<Delta> {
    var f := Split(item, '|');
    if |f| != 3 then None
    else
      match (ParseInt(f[0]), ParseInt(f[1]))
      case (Some(dx), Some(dy)) => Some(Delta(dx, dy, f[2]))
      case _ => None
  }

  function ParseDeltas(items: seq<string>): Option<seq<Delta>>
    decreases |items|
  {
    if |items| == 0 then Some([])
    else
      match (ParseDelta(items[0]), ParseDeltas(items[1..]))
      case (Some(d), Some(ds)) => Some([d] + ds)
      case _ => None
  }

  /** Positional reading of an exported script: eight lines, four integers, two quoted fields, two literals. */
  function ParseScript(text: string): Option<Script> {
    var lines := Split(text, '\n');
    if |lines| != 8 then None
    else
      var c := seq(8, i requires 0 <= i < 8 => LineContent(lines[i]));
      if !(forall i | 0 <= i < 8 :: c[i].Some?) then None
      else
        var x1, y1, x2, y2 := ParseInt(c[0].value), ParseInt(c[1].value), ParseInt(c[2].value), ParseInt(c[3].value);
        var first, field := QuotedContent(c[4].value), QuotedContent(c[5].value);
        if x1.None? || y1.None? || x2.None? || y2.None? || first.None? || field.None? then None
        else if c[6].value != "0" || c[7].value != "0.9" then None
        else
          var deltas := if field.value == "" then Some([]) else ParseDeltas(Split(field.value, ','));
          if deltas.None? then None
          else Some(Script(Region(x1.value, y1.value, x2.value, y2.value), first.value, deltas.value))
  }

  // ---------------------------------------------------------------------------------------
  // Properties

  /** The six BGR digits of a colour, blue first. */
  function BgrOf(c: ColorInfo): string {
    HexByte(c.b) + HexByte(c.g) + HexByte(c.r)
  }

  /** What the script is meant to carry: the region, the first colour, and each later colour's offset and colour. */
  function Expected(reg: Region, colors: seq<ColorInfo>): Script
    requires |colors| > 0
  {
    Script(reg, BgrOf(colors[0]), ExpectedDeltas(colors))
  }

  /** Stripping `#` from a consistent colour's `bgrHex` leaves its six BGR digits, none of them a separator. */
  lemma BgrDigitsOf(c: ColorInfo)
    requires Consistent(c)
    ensures BgrDigits(c) == BgrOf(c) && |BgrOf(c)| == 6
    ensures forall i | 0 <= i < 6 :: IsUpperHexDigit(BgrOf(c)[i])
    ensures '\n' !in BgrOf(c) && ',' !in BgrOf(c) && '|' !in BgrOf(c)
  {
    var h := BgrOf(c);
    assert c.bgrHex == "#" + h;
    assert BgrDigits(c) == h;
    forall i | 0 <= i < 6 ensures IsUpperHexDigit(h[i]) {
      assert h[i] == if i < 2 then HexByte(c.b)[i] else if i < 4 then HexByte(c.g)[i - 2] else HexByte(c.r)[i - 4];
    }
  }

  lemma IntToStringFree(n: int)
    ensures '\n' !in IntToString(n) && ',' !in IntToString(n) && '|' !in IntToString(n)
  {
  }

  /** Each delta item reads back as the offset from the first colour and the item's own BGR digits. */
  lemma ParseDeltaItem(c: ColorInfo, first: ColorInfo)
    requires Consistent(c)
    ensures '\n' !in DeltaItem(c, first) && ',' !in DeltaItem(c, first) && |DeltaItem(c, first)| > 0
    ensures ParseDelta(DeltaItem(c, first)) == Some(Delta(c.x - first.x, c.y - first.y, BgrOf(c)))
  {
    var a, b := IntToString(c.x - first.x), IntToString(c.y - first.y);
    BgrDigitsOf(c);
    IntToStringFree(c.x - first.x);
    IntToStringFree(c.y - first.y);
    var parts := [a, b, BgrOf(c)];
    assert Join(parts, '|') == a + "|" + b + "|" + BgrOf(c) by {
      assert Join(parts[1..], '|') == b + ['|'] + Join(parts[2..], '|');
    }
    assert DeltaItem(c, first) == Join(parts, '|');
    SplitJoin(parts, '|');
    IntToStringRoundTrip(c.x - first.x);
    IntToStringRoundTrip(c.y - first.y);
  }

  lemma {:induction false} ParseDeltasPointwise(items: seq<string>, ds: seq<Delta>)
    requires |items| == |ds|
    requires forall i | 0 <= i < |items| :: ParseDelta(items[i]) == Some(ds[i])
    ensures ParseDeltas(items) == Some(ds)
    decreases |items|
  {
    if |items| > 0 {
      ParseDeltasPointwise(items[1..], ds[1..]);
      assert [ds[0]] + ds[1..] == ds;
    }
  }

  function ExpectedDeltas(colors: seq<ColorInfo>): seq<Delta>
    requires |colors| > 0
  {
    seq(|colors| - 1, i requires 0 <= i < |colors| - 1 =>
      Delta(colors[i + 1].x - colors[0].x, colors[i + 1].y - colors[0].y, BgrOf(colors[i + 1])))
  }

  predicate AllConsistent(colors: seq<ColorInfo>) {
    forall i | 0 <= i < |colors| :: Consistent(colors[i])
  }

  /** Every delta item reads back as its expected offset, and none contains a separator. */
  lemma DeltaItemsRead(colors: seq<ColorInfo>)
    requires |colors| > 0 && AllConsistent(colors)
    ensures var items := DeltaItems(colors);
      forall i | 0 <= i < |items| :: ParseDelta(items[i]) == Some(ExpectedDeltas(colors)[i])
        && '\n' !in items[i] && ',' !in items[i] && |items[i]| > 0
  {
    var items := DeltaItems(colors);
    forall i | 0 <= i < |items|
      ensures ParseDelta(items[i]) == Some(ExpectedDeltas(colors)[i]) && '\n' !in items[i] && ',' !in items[i] && |items[i]| > 0
    {
      DeltaItemAt(colors, i);
    }
  }

  lemma DeltaItemAt(colors: seq<ColorInfo>, i: int)
    requires 0 <= i < |colors| - 1 && Consistent(colors[i + 1])
    ensures ParseDelta(DeltaItems(colors)[i]) == Some(ExpectedDeltas(colors)[i])
    ensures '\n' !in DeltaItems(colors)[i] && ',' !in DeltaItems(colors)[i] && |DeltaItems(colors)[i]| > 0
  {
    ItemsAt(colors, i);
    ParseDeltaItem(colors[i + 1], colors[0]);
  }

  lemma ItemsAt(colors: seq<ColorInfo>, i: int)
    requires 0 <= i < |colors| - 1
    ensures DeltaItems(colors)[i] == DeltaItem(colors[i + 1], colors[0])
    ensures ExpectedDeltas(colors)[i] == Delta(colors[i + 1].x - colors[0].x, colors[i + 1].y - colors[0].y, BgrOf(colors[i + 1]))
  {
  }

  lemma JoinNonEmpty(parts: seq<string>, sep: char)
    requires |parts| > 0 && |parts[0]| > 0
    ensures Join(parts, sep) != ""
  {
    if |parts| > 1 {
      assert Join(parts, sep) == parts[0] + [sep] + Join(parts[1..], sep);
    }
  }

  /** The delta field reads back as the offsets of the later colours relative to the first, in order. */
  lemma DeltaFieldRoundTrip(colors: seq<ColorInfo>)
    requires |colors| > 0 && AllConsistent(colors)
    ensures '\n' !in Join(DeltaItems(colors), ',')
    ensures (if Join(DeltaItems(colors), ',') == "" then Some([]) else ParseDeltas(Split(Join(DeltaItems(colors), ','), ',')))
      == Some(ExpectedDeltas(colors))
  {
    var items := DeltaItems(colors);
    DeltaItemsRead(colors);
    JoinChars(items, ',', '\n');
    if |items| > 0 {
      JoinNonEmpty(items, ',');
      SplitJoin(items, ',');
      ParseDeltasPointwise(items, ExpectedDeltas(colors));
    } else {
      assert ExpectedDeltas(colors) == [];
    }
  }

  /** Reading an exported script gives back the region, the first colour's BGR digits and every later offset. */
  lemma ScriptRoundTrip(reg: Region, colors: seq<ColorInfo>)
    requires |colors| > 0 && AllConsistent(colors)
    ensures ParseScript(GenerateScriptText(Some(reg), colors)) == Some(Expected(reg, colors))
  {
    var text := GenerateScriptText(Some(reg), colors);
    ScriptLinesSplit(reg, colors);
    var lines := Split(text, '\n');
    var cs := LineContents(reg, colors);
    var c := seq(8, i requires 0 <= i < 8 => LineContent(lines[i]));
    forall i | 0 <= i < 8 ensures c[i] == Some(cs[i]) {
      BetweenOf(Indent, cs[i], ",");
    }
    var field := Join(DeltaItems(colors), ',');
    assert Consistent(colors[0]);
    BgrDigitsOf(colors[0]);
    DeltaFieldRoundTrip(colors);
    BetweenOf("\"", BgrOf(colors[0]), "\"");
    BetweenOf("\"", field, "\"");
    IntToStringRoundTrip(reg.x1);
    IntToStringRoundTrip(reg.y1);
    IntToStringRoundTrip(reg.x2);
    IntToStringRoundTrip(reg.y2);
  }

  lemma LineShape(content: string)
    ensures |Line(content)| > 8 && Line(content)[..8] == Indent && Line(content)[|Line(content)| - 1] == ','
    ensures '\n' !in content ==> '\n' !in Line(content)
  {
    assert Line(content)[..8] == Indent;
  }

  lemma QuotedFree(s: string, c: char)
    requires c != '"' && c !in s
    ensures c !in Quoted(s)
  {
  }

  /** The contents of the eight lines, between the indentation and the trailing comma. */
  function LineContents(reg: Region, colors: seq<ColorInfo>): (cs: seq<string>)
    requires |colors| > 0
    ensures |cs| == 8 && ScriptLines(reg, colors) == seq(8, i requires 0 <= i < 8 => Line(cs[i]))
  {
    [ IntToString(reg.x1), IntToString(reg.y1), IntToString(reg.x2), IntToString(reg.y2),
      Quoted(BgrDigits(colors[0])), Quoted(Join(DeltaItems(colors), ',')), "0", "0.9" ]
  }

  /**
   * The text is exactly eight lines separated by single newlines (none after the last); each line
   * starts with eight spaces and ends with a comma; the last two are the literals `0,` and `0.9,`.
   */
  lemma ScriptLinesSplit(reg: Region, colors: seq<ColorInfo>)
    requires |colors| > 0 && AllConsistent(colors)
    ensures var lines := Split(GenerateScriptText(Some(reg), colors), '\n');
      && lines == ScriptLines(reg, colors) && |lines| == 8
      && (forall i | 0 <= i < 8 :: |lines[i]| > 8 && lines[i][..8] == Indent && lines[i][|lines[i]| - 1] == ',')
      && lines[6] == Indent + "0," && lines[7] == Indent + "0.9,"
  {
    var lines := ScriptLines(reg, colors);
    var cs := LineContents(reg, colors);
    assert Consistent(colors[0]);
    BgrDigitsOf(colors[0]);
    QuotedFree(BgrDigits(colors[0]), '\n');
    DeltaFieldRoundTrip(colors);
    QuotedFree(Join(DeltaItems(colors), ','), '\n');
    IntToStringFree(reg.x1);
    IntToStringFree(reg.y1);
    IntToStringFree(reg.x2);
    IntToStringFree(reg.y2);
    assert forall i | 0 <= i < 8 :: '\n' !in cs[i];
    forall i | 0 <= i < 8
      ensures '\n' !in lines[i] && |lines[i]| > 8 && lines[i][..8] == Indent && lines[i][|lines[i]| - 1] == ','
    {
      LineShape(cs[i]);
    }
    SplitJoin(lines, '\n');
  }

  /** With a single colour the delta field is empty: the sixth line is `""`. */
  lemma SingleColourHasNoDeltas(reg: Region, c: ColorInfo)
    ensures ScriptLines(reg, [c])[5] == Line("\"\"")
  {
    assert DeltaItems([c]) == [];
  }

  const ExampleColors: seq<ColorInfo> :=
    [ColorInfo(10, 10, 255, 0, 0, "#FF0000", "#0000FF"), ColorInfo(20, 15, 0, 255, 0, "#00FF00", "#00FF00")]

  lemma ExampleNumbers()
    ensures IntToString(5) == "5" && IntToString(25) == "25" && IntToString(105) == "105"
  {
    assert NatToString(105) == NatToString(10) + "5";
    assert NatToString(10) == NatToString(1) + "0";
    assert NatToString(25) == NatToString(2) + "5";
  }

  lemma ExampleFields()
    ensures BgrDigits(ExampleColors[0]) == "0000FF"
    ensures Join(DeltaItems(ExampleColors), ',') == "10|5|00FF00"
  {
    var colors := ExampleColors;
    assert IntToString(10) == "10" by { assert NatToString(10) == NatToString(1) + "0"; }
    assert IntToString(5) == "5";
    assert BgrDigits(colors[1]) == "00FF00";
    assert DeltaItem(colors[1], colors[0]) == "10|5|00FF00";
    assert DeltaItems(colors) == [DeltaItem(colors[1], colors[0])];
  }

  /** The eight lines of the worked example, each as its content between the indentation and the comma. */
  lemma ExampleLines()
    ensures ScriptLines(Region(5, 5, 105, 25), ExampleColors) ==
      [Line("5"), Line("5"), Line("105"), Line("25"), Line(Quoted("0000FF")), Line(Quoted("10|5|00FF00")), Line("0"), Line("0.9")]
  {
    var l := ScriptLines(Region(5, 5, 105, 25), ExampleColors);
    assert l[0] == Line("5") && l[1] == Line("5") && l[2] == Line("105") && l[3] == Line("25") by {
      ExampleNumbers();
    }
    assert l[4] == Line(Quoted("0000FF")) && l[5] == Line(Quoted("10|5|00FF00")) by {
      ExampleFields();
    }
  }

  /**
   * The worked example: region (5,5)-(105,25), colours at (10,10) with BGR 0000FF and at (20,15)
   * with BGR 00FF00, gives these eight lines joined by single newlines.
   */
  lemma ExampleExport()
    ensures GenerateScriptText(Some(Region(5, 5, 105, 25)), ExampleColors) == Join(
      [Line("5"), Line("5"), Line("105"), Line("25"), Line(Quoted("0000FF")), Line(Quoted("10|5|00FF00")), Line("0"), Line("0.9")],
      '\n')
  {
    ExampleLines();
  }

  /** The first line of the worked example, character for character. */
  lemma ExampleLineText()
    ensures Line("5") == "        5," && Line(Quoted("0000FF")) == "        \"0000FF\","
  {
  }

  // ---------------------------------------------------------------------------------------
  // The export as written, fed by getPixelColor as written

  /**
   * `generateScriptText` over the objects `getPixelColor` returns as written: reading `.replace`
   * of an absent `bgrHex` throws, first for `colors[0]` and then for any later colour.
   */
  function GenerateScriptTextAsWritten(region: Option<Region>, colors: seq<PickedObject>): (e: Evaluation<string>)
    ensures region.Some? && |colors| > 0 && colors[0].bgrHex.None? ==> e == TypeError
  {
    if region.None? || |colors| == 0 then Value("")
    else if exists i | 0 <= i < |colors| :: colors[i].bgrHex.None? then TypeError
    else Value(GenerateScriptText(region, seq(|colors|, i requires 0 <= i < |colors| =>
      var o := colors[i]; ColorInfo(o.x, o.y, o.r, o.g, o.b, o.hex, o.bgrHex.value))))
  }

  /** As written, exporting any colour the sampler produced throws, whatever the canvas and the point. */
  lemma ExportOfSampledColourThrowsAsWritten(cv: CanvasElement, imgX: int, imgY: int, reg: Region)
    ensures GetPixelColorAsWritten(Some(cv), imgX, imgY).Some?
    ensures GenerateScriptTextAsWritten(Some(reg), [GetPixelColorAsWritten(Some(cv), imgX, imgY).value]) == TypeError
  {
  }

  /** With `bgrHex` filled in, the same export succeeds and carries the sampled pixel's BGR digits. */
  lemma ExportOfSampledColour(cv: CanvasElement, imgX: int, imgY: int, reg: Region)
    ensures GetPixelColor(Some(cv), imgX, imgY).Some?
    ensures var c := GetPixelColor(Some(cv), imgX, imgY).value;
      ParseScript(GenerateScriptText(Some(reg), [c])) == Some(Script(reg, BgrOf(c), []))
  {
    var c := GetPixelColor(Some(cv), imgX, imgY).value;
    assert AllConsistent([c]);
    assert ExpectedDeltas([c]) == [];
    ScriptRoundTrip(reg, [c]);
  }
}
