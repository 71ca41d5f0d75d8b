/** Terminal cells and cell runs: a run writes a cell's style only when it
    differs from the previous cell's (serializers/telar_cells.hpp,
    codecs/telar_cells.hpp). */
module Cells {
  import opened Wire
  import opened Schemas
  import opened NumberRecords
  import opened Codecs

  /** Kinds: 0 default, 1 indexed (first channel), 2 rgb (all channels). */
  datatype CellColor = CellColor(kind: byte, c0: byte, c1: byte, c2: byte)
  datatype CellStyle = CellStyle(flags: u16, foreground: CellColor, background: CellColor, underline: CellColor)
  datatype Cell = Cell(width: byte, style: CellStyle, text: seq<byte>)

  /** Equality of colors ignores the channels its kind does not use. */
  predicate SameColor(a: CellColor, b: CellColor) {
    a.kind == b.kind
    && (a.kind == 0 || (if a.kind == 1 then a.c0 == b.c0 else a.c0 == b.c0 && a.c1 == b.c1 && a.c2 == b.c2))
  }

  predicate SameStyle(a: CellStyle, b: CellStyle) {
    a.flags == b.flags && SameColor(a.foreground, b.foreground)
    && SameColor(a.background, b.background) && SameColor(a.underline, b.underline)
  }

  predicate SameCell(a: Cell, b: Cell) {
    a.width == b.width && a.text == b.text && SameStyle(a.style, b.style)
  }

  predicate SameCells(a: seq<Cell>, b: seq<Cell>) {
    |a| == |b| && forall i :: 0 <= i < |a| ==> SameCell(a[i], b[i])
  }

  /** No flag above bit 10, and underline styles 0 to 5 in bits 8 to 10. */
  predicate FlagsOk(flags: nat) {
    flags < 0x800 && flags / 0x100 <= 5
  }

  /** Bits 11 to 15 are clear, and bits 8 to 10 are an underline style. */
  lemma FlagsMean(flags: u16)
    ensures FlagsOk(flags) <==> flags / 0x800 % 0x20 == 0 && flags / 0x100 % 8 <= 5
  {}

  predicate StyleOk(style: CellStyle) {
    FlagsOk(style.flags) && style.foreground.kind <= 2 && style.background.kind <= 2 && style.underline.kind <= 2
  }

  /** A continuation cell is empty; any other holds 1 to 16 bytes. */
  predicate CellOk(cell: Cell) {
    cell.width <= 2 && |cell.text| <= 16 && (cell.width == 0 <==> cell.text == []) && FlagsOk(cell.style.flags)
  }

  predicate RunOk(cells: seq<Cell>) {
    forall i :: 0 <= i < |cells| ==> CellOk(cells[i]) && StyleOk(cells[i].style)
  }

  // ---- the wire form of a style

  const STYLE_RULE: Value -> bool :=
    (v: Value) => v.Many? && |v.items| == 4 && v.items[0].Num? && FlagsOk(v.items[0].n)

  /** The channels a kind uses. */
  function Channels(kind: nat): seq<Field> {
    if kind == 0 then [] else if kind == 1 then [U8] else [U8, U8, U8]
  }

  function ColorSchema(): Schema {
    Tagged([Numbers(Channels(0)), Numbers(Channels(1)), Numbers(Channels(2))])
  }

  function StyleSchema(): Schema {
    Record([Number(2, 0, 0xffff), ColorSchema(), ColorSchema(), ColorSchema()], STYLE_RULE)
  }

  function UsedChannels(c: CellColor): seq<nat> {
    if c.kind == 0 then [] else if c.kind == 1 then [c.c0] else [c.c0, c.c1, c.c2]
  }

  function ColorValue(c: CellColor): Value {
    Pick(c.kind, Nums(UsedChannels(c)))
  }

  function StyleValue(style: CellStyle): Value {
    Many([Num(style.flags), ColorValue(style.foreground), ColorValue(style.background), ColorValue(style.underline)])
  }

  function Channel(ns: seq<nat>, i: nat): byte {
    if i < |ns| && ns[i] < 256 then ns[i] else 0
  }

  /** Decoding leaves the unused channels zero. */
  function ColorOf(v: Value): CellColor {
    if !v.Pick? || v.tag > 2 then CellColor(0, 0, 0, 0)
    else
      var ns := NumsOf(v.body);
      CellColor(v.tag, Channel(ns, 0), Channel(ns, 1), Channel(ns, 2))
  }

  function StyleOf(v: Value): CellStyle {
    if v.Many? && |v.items| == 4 && v.items[0].Num? && v.items[0].n < 0x1_0000
    then CellStyle(v.items[0].n, ColorOf(v.items[1]), ColorOf(v.items[2]), ColorOf(v.items[3]))
    else CellStyle(0, CellColor(0, 0, 0, 0), CellColor(0, 0, 0, 0), CellColor(0, 0, 0, 0))
  }

  function Normal(style: CellStyle): CellStyle {
    StyleOf(StyleValue(style))
  }

  function NormalCell(cell: Cell): Cell {
    cell.(style := Normal(cell.style))
  }

  function NormalCells(cells: seq<Cell>): seq<Cell> {
    seq(|cells|, i requires 0 <= i < |cells| => NormalCell(cells[i]))
  }

  lemma ColorSchemaOk()
    ensures WellFormed(ColorSchema())
  {
    Pow256Values();
    NumbersWellFormed(Channels(0));
    NumbersWellFormed(Channels(1));
    NumbersWellFormed(Channels(2));
  }

  lemma StyleSchemaOk()
    ensures WellFormed(StyleSchema()) && Standalone(StyleSchema())
  {
    hide ColorSchema;
    Pow256Values();
    ColorSchemaOk();
    assert ColorSchema().Tagged? by {
      ColorSchemaIsTagged();
    }
    assert forall i :: 0 <= i < 4 ==> WellFormed(StyleSchema().fields[i]);
  }

  lemma ColorSchemaIsTagged()
    ensures ColorSchema().Tagged?
  {}

  lemma ColorValueOk(c: CellColor)
    requires c.kind <= 2
    ensures Valid(ColorSchema(), [], ColorValue(c))
    ensures 1 <= Size(ColorSchema(), ColorValue(c)) <= 4
  {
    Pow256Values();
    var ns, fields := UsedChannels(c), Channels(c.kind);
    NumsInverse(ns);
    NumbersValid(fields, [], Nums(ns));
    NumbersSize(fields, Nums(ns));
    if c.kind == 2 {
      assert fields[1..] == [U8, U8] && fields[1..][1..] == [U8];
    }
    assert ColorSchema().alts[c.kind] == Numbers(fields);
  }

  lemma ContextFree(s: Schema, context: Context, v: Value)
    requires s.Tagged? || s.Number? || s.Record?
    ensures Valid(s, context, v) == Valid(s, [], v)
  {}

  /** The encoder accepts exactly the styles `StyleOk` describes. */
  lemma StyleValueOk(style: CellStyle)
    requires StyleOk(style)
    ensures Valid(StyleSchema(), [], StyleValue(style))
    ensures 5 <= |StyleBytes(style)| <= 14
  {
    Pow256Values();
    var v, s := StyleValue(style), StyleSchema();
    ColorValueOk(style.foreground);
    ColorValueOk(style.background);
    ColorValueOk(style.underline);
    forall i | 0 <= i < 4
      ensures Valid(s.fields[i], v.items[..i], v.items[i])
    {
      ContextFree(s.fields[i], v.items[..i], v.items[i]);
    }
    SizeIsLength(s, [], v);
    assert SizeFields(s, v.items, 3) == Size(ColorSchema(), v.items[3]) + SizeFields(s, v.items, 4);
    assert SizeFields(s, v.items, 2) == Size(ColorSchema(), v.items[2]) + SizeFields(s, v.items, 3);
    assert SizeFields(s, v.items, 1) == Size(ColorSchema(), v.items[1]) + SizeFields(s, v.items, 2);
    assert SizeFields(s, v.items, 0) == 2 + SizeFields(s, v.items, 1);
  }

  function StyleBytes(style: CellStyle): seq<byte> {
    if Valid(StyleSchema(), [], StyleValue(style)) then Encode(StyleSchema(), [], StyleValue(style)) else []
  }

  function StyleSize(style: CellStyle): nat {
    Size(StyleSchema(), StyleValue(style))
  }

  lemma StyleSizeIsLength(style: CellStyle)
    requires StyleOk(style)
    ensures Valid(StyleSchema(), [], StyleValue(style)) && |StyleBytes(style)| == StyleSize(style)
  {
    StyleValueOk(style);
    SizeIsLength(StyleSchema(), [], StyleValue(style));
  }

  /** A valid color value is the form of the color it decodes to. */
  lemma ColorValueOf(v: Value)
    requires Valid(ColorSchema(), [], v)
    ensures ColorOf(v).kind <= 2 && ColorValue(ColorOf(v)) == v
  {
    Pow256Values();
    assert ColorSchema().alts[v.tag] == Numbers(Channels(v.tag));
    NumbersValid(Channels(v.tag), [], v.body);
    assert UsedChannels(ColorOf(v)) == NumsOf(v.body);
  }

  lemma StyleValueOf(v: Value)
    requires Valid(StyleSchema(), [], v)
    ensures StyleOk(StyleOf(v)) && StyleValue(StyleOf(v)) == v && Normal(StyleOf(v)) == StyleOf(v)
  {
    Pow256Values();
    var s := StyleSchema();
    assert Valid(s.fields[0], v.items[..0], v.items[0]) && Valid(s.fields[1], v.items[..1], v.items[1]);
    assert Valid(s.fields[2], v.items[..2], v.items[2]) && Valid(s.fields[3], v.items[..3], v.items[3]);
    ContextFree(ColorSchema(), v.items[..1], v.items[1]);
    ContextFree(ColorSchema(), v.items[..2], v.items[2]);
    ContextFree(ColorSchema(), v.items[..3], v.items[3]);
    ColorValueOf(v.items[1]);
    ColorValueOf(v.items[2]);
    ColorValueOf(v.items[3]);
    assert StyleValue(StyleOf(v)).items == v.items;
  }

  /** Two styles are equal exactly when they have the same wire form. */
  lemma SameStyleSameForm(a: CellStyle, b: CellStyle)
    requires StyleOk(a) && StyleOk(b)
    ensures SameStyle(a, b) <==> StyleBytes(a) == StyleBytes(b)
    ensures SameStyle(a, b) <==> Normal(a) == Normal(b)
    ensures SameStyle(a, Normal(a)) && StyleOk(Normal(a)) && Normal(Normal(a)) == Normal(a) && Normal(a).flags == a.flags
  {
    SameValue(a, b);
    if StyleBytes(a) == StyleBytes(b) {
      TakeWrittenStyle(a, []);
      TakeWrittenStyle(b, []);
    }
  }

  lemma SameValue(a: CellStyle, b: CellStyle)
    requires StyleOk(a) && StyleOk(b)
    ensures SameStyle(a, b) <==> StyleValue(a) == StyleValue(b)
    ensures SameStyle(a, b) <==> Normal(a) == Normal(b)
    ensures SameStyle(a, Normal(a)) && StyleOk(Normal(a)) && Normal(Normal(a)) == Normal(a) && Normal(a).flags == a.flags
  {
    SameColorSameValue(a.foreground, b.foreground);
    SameColorSameValue(a.background, b.background);
    SameColorSameValue(a.underline, b.underline);
    assert StyleValue(a).items[0] == Num(a.flags) && StyleValue(b).items[0] == Num(b.flags);
    assert StyleValue(a).items[1] == ColorValue(a.foreground) && StyleValue(b).items[1] == ColorValue(b.foreground);
    assert StyleValue(a).items[2] == ColorValue(a.background) && StyleValue(b).items[2] == ColorValue(b.background);
    assert StyleValue(a).items[3] == ColorValue(a.underline) && StyleValue(b).items[3] == ColorValue(b.underline);
  }

  lemma SameColorSameValue(a: CellColor, b: CellColor)
    requires a.kind <= 2 && b.kind <= 2
    ensures SameColor(a, b) <==> ColorValue(a) == ColorValue(b)
    ensures SameColor(a, b) <==> ColorOf(ColorValue(a)) == ColorOf(ColorValue(b))
    ensures SameColor(a, ColorOf(ColorValue(a)))
  {
    NumsInverse(UsedChannels(a));
    NumsInverse(UsedChannels(b));
    var x, y := UsedChannels(a), UsedChannels(b);
    if x == y && a.kind == b.kind == 1 {
      assert x[0] == y[0];
    }
    if x == y && a.kind == b.kind == 2 {
      assert x[0] == y[0] && x[1] == y[1] && x[2] == y[2];
    }
  }

  /** A style at the front of `input`, and the bytes left over. */
  function TakeStyle(input: seq<byte>): Option<(CellStyle, seq<byte>)> {
    match Decode(StyleSchema(), [], input)
    case None => None
    case Some((v, rest)) => Some((StyleOf(v), rest))
  }

  lemma TakeWrittenStyle(style: CellStyle, tail: seq<byte>)
    requires StyleOk(style)
    ensures TakeStyle(StyleBytes(style) + tail) == Some((Normal(style), tail))
  {
    StyleSchemaOk();
    StyleValueOk(style);
    RoundTrip(StyleSchema(), [], StyleValue(style), tail);
  }

  lemma TakenStyleIsCanonical(input: seq<byte>)
    requires TakeStyle(input).Some?
    ensures var (style, rest) := TakeStyle(input).value;
            StyleOk(style) && Normal(style) == style && StyleBytes(style) + rest == input
            && 5 <= |StyleBytes(style)| <= 14
  {
    StyleSchemaOk();
    Canonical(StyleSchema(), [], input);
    var (v, rest) := Decode(StyleSchema(), [], input).value;
    StyleValueOf(v);
    StyleValueOk(StyleOf(v));
  }

  // ---- reading a run

  /** One cell after `previous`, and the bytes left over. */
  function ReadCell(previous: Option<CellStyle>, input: seq<byte>): Option<(Cell, seq<byte>)> {
    if input == [] then None
    else
      var header := input[0];
      if header >= 0x80 then
        (match TakeStyle(input[1..])
         case None => None
         case Some((style, rest)) => FinishCell(header, style, rest))
      else
        (match previous
         case None => None
         case Some(style) => FinishCell(header, style, input[1..]))
  }

  function FinishCell(header: byte, style: CellStyle, rest: seq<byte>): Option<(Cell, seq<byte>)> {
    var length := header % 0x20;
    if length > |rest| then None
    else
      var cell := Cell(header / 0x20 % 4, style, rest[..length]);
      if CellOk(cell) then Some((cell, rest[length..])) else None
  }

  /** Exactly `count` cells, with no byte left over. */
  function ReadRun(previous: Option<CellStyle>, count: nat, input: seq<byte>): (cells: Option<seq<Cell>>)
    ensures cells.Some? ==> |cells.value| == count
    decreases count
  {
    if count == 0 then if input == [] then Some([]) else None
    else
      match ReadCell(previous, input)
      case None => None
      case Some((cell, rest)) =>
        match ReadRun(Some(cell.style), count - 1, rest)
        case None => None
        case Some(cells) => Some([cell] + cells)
  }

  datatype Step = Done | Got(cell: Cell) | Failed

  class CellReader {
    var input: seq<byte>
    var remaining: nat
    var previous: Option<CellStyle>

    constructor (bytes: seq<byte>, count: nat)
      ensures Unread() == ReadRun(None, count, bytes) && remaining == count
    {
      input, remaining, previous := bytes, count, None;
    }

    /** What the reader still yields, or None when it will fail. */
    function Unread(): Option<seq<Cell>>
      reads this
    {
      ReadRun(previous, remaining, input)
    }

    method Next() returns (step: Step)
      modifies this
      ensures match step
              case Done => old(Unread()) == Some([]) && Unread() == Some([])
              case Got(cell) =>
                remaining < old(remaining)
                && old(Unread()) == (if Unread().Some? then Some([cell] + Unread().value) else None)
              case Failed => old(Unread()) == None
    {
      hide Decode, StyleSchema, StyleOf, CellOk;
      if remaining == 0 {
        return if input == [] then Done else Failed;
      }
      if input == [] {
        return Failed;
      }
      var header := input[0];
      var length := header % 0x20;
      var span := new InputSpan(input[1..]);
      if header >= 0x80 {
        var v := DecodeFrom(StyleSchema(), [], span);
        if v.None? {
          return Failed;
        }
        previous := Some(StyleOf(v.value));
      } else if previous.None? {
        return Failed;
      }
      if length > |span.rest| {
        return Failed;
      }
      var cell := Cell(header / 0x20 % 4, previous.value, span.rest[..length]);
      if !CellOk(cell) {
        return Failed;
      }
      input := span.rest[length..];
      remaining := remaining - 1;
      if remaining == 0 && input != [] {
        return Failed;
      }
      step := Got(cell);
    }
  }

  /** The check every span of a frame gets before it is written. */
  method Readable(bytes: seq<byte>, count: nat) returns (ok: bool)
    ensures ok == ReadRun(None, count, bytes).Some?
  {
    var reader := new CellReader(bytes, count);
    while true
      invariant reader.Unread().Some? == ReadRun(None, count, bytes).Some?
      invariant fresh(reader)
      decreases reader.remaining
    {
      var step := reader.Next();
      if !step.Got? {
        return step.Done?;
      }
    }
  }

  // ---- writing a run

  predicate Changed(previous: Option<CellStyle>, style: CellStyle) {
    previous.None? || !SameStyle(previous.value, style)
  }

  function EncodeCell(previous: Option<CellStyle>, cell: Cell): (bytes: seq<byte>)
    requires CellOk(cell)
  {
    var changed := Changed(previous, cell.style);
    [|cell.text| + 0x20 * cell.width + if changed then 0x80 else 0]
    + (if changed then StyleBytes(cell.style) else []) + cell.text
  }

  function EncodeRun(previous: Option<CellStyle>, cells: seq<Cell>): seq<byte>
    requires RunOk(cells)
    decreases |cells|
  {
    if cells == [] then []
    else EncodeCell(previous, cells[0]) + EncodeRun(Some(cells[0].style), cells[1..])
  }

  lemma CellLength(previous: Option<CellStyle>, cell: Cell)
    requires CellOk(cell)
    ensures |EncodeCell(previous, cell)|
         == 1 + |cell.text| + if Changed(previous, cell.style) then |StyleBytes(cell.style)| else 0
  {}

  function NormalOption(style: Option<CellStyle>): Option<CellStyle> {
    if style.None? then None else Some(Normal(style.value))
  }

  lemma ReadEncodedCell(previous: Option<CellStyle>, cell: Cell, tail: seq<byte>)
    requires CellOk(cell) && StyleOk(cell.style) && (previous.Some? ==> StyleOk(previous.value))
    ensures ReadCell(NormalOption(previous), EncodeCell(previous, cell) + tail) == Some((NormalCell(cell), tail))
  {
    hide TakeStyle, StyleBytes, SameStyle, Normal, StyleOk, FlagsOk;
    var changed := Changed(previous, cell.style);
    var style := if changed then StyleBytes(cell.style) else [];
    var bytes := EncodeCell(previous, cell);
    var header := bytes[0];
    assert (bytes + tail)[1..] == style + (cell.text + tail);
    assert header % 0x20 == |cell.text| && header / 0x20 % 4 == cell.width && (header >= 0x80 <==> changed);
    assert (cell.text + tail)[..|cell.text|] == cell.text && (cell.text + tail)[|cell.text|..] == tail;
    SameValue(cell.style, cell.style);
    if changed {
      TakeWrittenStyle(cell.style, cell.text + tail);
    } else {
      assert [] + (cell.text + tail) == cell.text + tail;
      SameValue(previous.value, cell.style);
    }
  }

  lemma {:induction false} ReadEncodedRun(previous: Option<CellStyle>, cells: seq<Cell>)
    requires RunOk(cells) && (previous.Some? ==> StyleOk(previous.value))
    ensures ReadRun(NormalOption(previous), |cells|, EncodeRun(previous, cells)) == Some(NormalCells(cells))
    decreases |cells|
  {
    hide TakeStyle, StyleBytes, SameStyle, Normal, StyleOk, FlagsOk;
    if cells == [] {
      assert NormalCells(cells) == [];
    } else {
      var tail := EncodeRun(Some(cells[0].style), cells[1..]);
      ReadEncodedCell(previous, cells[0], tail);
      ReadEncodedRun(Some(cells[0].style), cells[1..]);
      assert NormalCells(cells) == [NormalCell(cells[0])] + NormalCells(cells[1..]);
    }
  }

  /** Reading what was written returns equal cells. */
  lemma RunRoundTrip(cells: seq<Cell>)
    requires RunOk(cells)
    ensures ReadRun(None, |cells|, EncodeRun(None, cells)).Some?
    ensures SameCells(cells, ReadRun(None, |cells|, EncodeRun(None, cells)).value)
  {
    ReadEncodedRun(None, cells);
    forall i | 0 <= i < |cells|
      ensures SameCell(cells[i], NormalCells(cells)[i])
    {
      SameValue(cells[i].style, cells[i].style);
    }
  }

  // ---- the encoding is the unique shortest run the reader accepts

  /** Any bytes read as one cell are its encoding, or strictly longer. */
  lemma ReadCellNotShorter(previous: Option<CellStyle>, input: seq<byte>)
    requires previous.Some? ==> StyleOk(previous.value) && Normal(previous.value) == previous.value
    requires ReadCell(previous, input).Some?
    ensures var (cell, rest) := ReadCell(previous, input).value;
            CellOk(cell) && StyleOk(cell.style) && Normal(cell.style) == cell.style
            && (EncodeCell(previous, cell) + rest == input || |EncodeCell(previous, cell)| + |rest| < |input|)
            && 1 <= |input| - |rest| <= 31
  {
    var (cell, rest) := ReadCell(previous, input).value;
    if input[0] >= 0x80 {
      StyledCellNotShorter(previous, input, cell, rest);
    } else {
      InheritedCellIsCanonical(previous.value, input, cell, rest);
    }
  }

  lemma HeaderBits(header: byte)
    ensures header == header % 0x20 + 0x20 * (header / 0x20 % 4) + if header >= 0x80 then 0x80 else 0
  {}

  lemma StyledCellNotShorter(previous: Option<CellStyle>, input: seq<byte>, cell: Cell, rest: seq<byte>)
    requires input != [] && input[0] >= 0x80 && ReadCell(previous, input) == Some((cell, rest))
    ensures CellOk(cell) && StyleOk(cell.style) && Normal(cell.style) == cell.style
    ensures EncodeCell(previous, cell) + rest == input || |EncodeCell(previous, cell)| + |rest| < |input|
    ensures 1 <= |input| - |rest| <= 31
  {
    hide TakeStyle, StyleBytes, SameStyle, Normal, StyleOk, FlagsOk;
    HeaderBits(input[0]);
    TakenStyleIsCanonical(input[1..]);
    var bytes, after := StyleBytes(cell.style), TakeStyle(input[1..]).value.1;
    assert cell.text + rest == after;
    assert input == [input[0]] + (bytes + (cell.text + rest));
    if Changed(previous, cell.style) {
      assert EncodeCell(previous, cell) == [input[0]] + bytes + cell.text;
      assert [input[0]] + bytes + cell.text + rest == [input[0]] + (bytes + (cell.text + rest));
    }
  }

  lemma InheritedCellIsCanonical(previous: CellStyle, input: seq<byte>, cell: Cell, rest: seq<byte>)
    requires StyleOk(previous) && Normal(previous) == previous
    requires input != [] && input[0] < 0x80 && ReadCell(Some(previous), input) == Some((cell, rest))
    ensures CellOk(cell) && cell.style == previous && EncodeCell(Some(previous), cell) + rest == input
    ensures 1 <= |input| - |rest| <= 31
  {
    SameValue(previous, previous);
    hide TakeStyle, StyleBytes, SameStyle, Normal, StyleOk, FlagsOk;
    HeaderBits(input[0]);
    assert cell.text + rest == input[1..];
    assert EncodeCell(Some(previous), cell) + rest == [input[0]] + (cell.text + rest);
  }

  lemma {:induction false} ReadRunNotShorter(previous: Option<CellStyle>, count: nat, input: seq<byte>)
    requires previous.Some? ==> StyleOk(previous.value) && Normal(previous.value) == previous.value
    requires ReadRun(previous, count, input).Some?
    ensures var cells := ReadRun(previous, count, input).value;
            RunOk(cells) && (EncodeRun(previous, cells) == input || |EncodeRun(previous, cells)| < |input|)
            && count <= |input| <= 31 * count && NormalCells(cells) == cells
    decreases count
  {
    hide TakeStyle, StyleBytes, SameStyle, Normal, StyleOk, FlagsOk, EncodeCell, ReadCell, CellOk;
    if count > 0 {
      var (cell, rest) := ReadCell(previous, input).value;
      ReadCellNotShorter(previous, input);
      ReadRunNotShorter(Some(cell.style), count - 1, rest);
      var cells := ReadRun(previous, count, input).value;
      assert cells[1..] == ReadRun(Some(cell.style), count - 1, rest).value;
      assert NormalCells(cells) == [NormalCell(cell)] + NormalCells(cells[1..]);
    }
  }

  lemma EncodeSameCell(previous: Option<CellStyle>, cell: Cell)
    requires CellOk(cell) && StyleOk(cell.style) && (previous.Some? ==> StyleOk(previous.value))
    ensures CellOk(NormalCell(cell)) && StyleOk(Normal(cell.style))
    ensures EncodeCell(NormalOption(previous), NormalCell(cell)) == EncodeCell(previous, cell)
  {
    hide TakeStyle, StyleBytes, SameStyle, Normal, StyleOk;
    SameValue(cell.style, cell.style);
    SameStyleSameForm(cell.style, Normal(cell.style));
    if previous.Some? {
      SameValue(previous.value, previous.value);
      SameValue(previous.value, cell.style);
      SameValue(Normal(previous.value), Normal(cell.style));
    }
  }

  lemma {:induction false} EncodeSameCells(previous: Option<CellStyle>, cells: seq<Cell>)
    requires RunOk(cells) && (previous.Some? ==> StyleOk(previous.value))
    ensures RunOk(NormalCells(cells))
    ensures EncodeRun(NormalOption(previous), NormalCells(cells)) == EncodeRun(previous, cells)
    decreases |cells|
  {
    hide StyleBytes, SameStyle, Normal, StyleOk, CellOk, EncodeCell;
    var normal := NormalCells(cells);
    if cells == [] {
      assert normal == [];
    } else {
      EncodeSameCell(previous, cells[0]);
      EncodeSameCells(Some(cells[0].style), cells[1..]);
      assert normal[1..] == NormalCells(cells[1..]);
      forall i | 0 <= i < |cells|
        ensures CellOk(normal[i]) && StyleOk(normal[i].style)
      {
        assert i > 0 ==> normal[i] == normal[1..][i - 1];
      }
    }
  }

  lemma SameNormal(a: seq<Cell>, b: seq<Cell>)
    requires RunOk(a) && RunOk(b)
    ensures SameCells(a, b) <==> NormalCells(a) == NormalCells(b)
  {
    forall i | 0 <= i < |a| && i < |b|
      ensures SameCell(a[i], b[i]) <==> NormalCell(a[i]) == NormalCell(b[i])
    {
      SameValue(a[i].style, b[i].style);
    }
    if NormalCells(a) == NormalCells(b) {
      assert |a| == |NormalCells(a)| == |NormalCells(b)| == |b|;
      forall i | 0 <= i < |a|
        ensures SameCell(a[i], b[i])
      {
        assert NormalCells(a)[i] == NormalCells(b)[i];
      }
    }
  }

  /** Among all byte strings the reader takes for these cells, the encoder's is
      the only one of least length. */
  lemma EncodingIsShortest(cells: seq<Cell>, bytes: seq<byte>)
    requires RunOk(cells)
    requires ReadRun(None, |cells|, bytes).Some? && SameCells(cells, ReadRun(None, |cells|, bytes).value)
    ensures |EncodeRun(None, cells)| <= |bytes|
    ensures |EncodeRun(None, cells)| == |bytes| <==> bytes == EncodeRun(None, cells)
  {
    var read := ReadRun(None, |cells|, bytes).value;
    ReadRunNotShorter(None, |cells|, bytes);
    SameNormal(cells, read);
    EncodeSameCells(None, cells);
    EncodeSameCells(None, read);
  }

  /** Re-encoding any accepted run yields the same cells and never more bytes. */
  lemma ReencodingNeverGrows(count: nat, bytes: seq<byte>)
    requires ReadRun(None, count, bytes).Some?
    ensures RunOk(ReadRun(None, count, bytes).value)
    ensures var again := EncodeRun(None, ReadRun(None, count, bytes).value);
            |again| <= |bytes| && ReadRun(None, count, again) == ReadRun(None, count, bytes)
  {
    ReadRunNotShorter(None, count, bytes);
    ReadEncodedRun(None, ReadRun(None, count, bytes).value);
  }

  /** The size pass and the writing pass of the codec over one buffer. */
  method EncodeRunInto(cells: seq<Cell>, buffer: array<byte>) returns (size: Option<nat>)
    modifies buffer
    ensures size.Some? <==>
      RunOk(cells) && |EncodeRun(None, cells)| <= MAX_PAYLOAD && |EncodeRun(None, cells)| <= buffer.Length
    ensures size.None? ==> buffer[..] == old(buffer[..])
    ensures size.Some? ==>
      size.value == |EncodeRun(None, cells)|
      && buffer[..] == EncodeRun(None, cells) + old(buffer[..])[size.value..]
  {
    hide StyleSize, StyleBytes, SameStyle, StyleOk, FlagsOk, EncodeCell;
    var total := EncodedSize(cells);
    if total.None? || total.value > buffer.Length {
      return None;
    }
    var output := new OutputSpan(buffer, total.value);
    var previous: Option<CellStyle> := None;
    ghost var done: seq<byte> := [];
    ghost var before := buffer[..];
    for i := 0 to |cells|
      invariant fresh(output) && output.buffer == buffer && output.Valid() && output.stop == total.value
      invariant output.start == |done| && done + EncodeRun(previous, cells[i..]) == EncodeRun(None, cells)
      invariant buffer[..] == done + before[|done|..]
    {
      var cell := cells[i];
      assert cells[i..][0] == cell && cells[i..][1..] == cells[i + 1..];
      ghost var next, left := EncodeCell(previous, cell), EncodeRun(Some(cell.style), cells[i + 1..]);
      assert done + (next + left) == done + next + left;
      ghost var middle := buffer[..];
      EncodeCellInto(previous, cell, output);
      assert before[..0] == [];
      Splice(before, 0, done, middle, next, buffer[..]);
      done := done + next;
      previous := Some(cell.style);
    }
    assert done + [] == done;
    size := total;
  }

  method PutStyle(style: CellStyle, output: OutputSpan)
    requires StyleOk(style)
    requires output.Valid() && |StyleBytes(style)| <= output.stop - output.start
    modifies output`start, output.buffer
    ensures output.Wrote(StyleBytes(style))
  {
    StyleSizeIsLength(style);
    EncodeValid(StyleSchema(), StyleValue(style), output);
  }

  method EncodeCellInto(previous: Option<CellStyle>, cell: Cell, output: OutputSpan)
    requires CellOk(cell) && StyleOk(cell.style)
    requires output.Valid() && |EncodeCell(previous, cell)| <= output.stop - output.start
    modifies output`start, output.buffer
    ensures output.Wrote(EncodeCell(previous, cell))
  {
    hide StyleBytes, SameStyle, Normal, StyleOk, FlagsOk;
    ghost var start, before := output.start, output.buffer[..];
    ghost var head := CellHead(previous, cell);
    PutCellHead(previous, cell, output);
    ghost var middle := output.buffer[..];
    output.PutBytes(cell.text);
    Splice(before, start, head, middle, cell.text, output.buffer[..]);
  }

  ghost function CellHead(previous: Option<CellStyle>, cell: Cell): seq<byte>
    requires CellOk(cell)
  {
    [|cell.text| + 0x20 * cell.width + if Changed(previous, cell.style) then 0x80 else 0]
    + (if Changed(previous, cell.style) then StyleBytes(cell.style) else [])
  }

  method PutCellHead(previous: Option<CellStyle>, cell: Cell, output: OutputSpan)
    requires CellOk(cell) && StyleOk(cell.style)
    requires output.Valid() && |CellHead(previous, cell)| <= output.stop - output.start
    modifies output`start, output.buffer
    ensures output.Wrote(CellHead(previous, cell))
  {
    hide StyleBytes, SameStyle, Normal, StyleOk, FlagsOk;
    var changed := Changed(previous, cell.style);
    var header := |cell.text| + 0x20 * cell.width + if changed then 0x80 else 0;
    ghost var start, before := output.start, output.buffer[..];
    output.PutNumber(header, 1);
    assert LittleEndian(header, 1) == [header];
    if changed {
      ghost var middle := output.buffer[..];
      PutStyle(cell.style, output);
      Splice(before, start, [header], middle, StyleBytes(cell.style), output.buffer[..]);
    }
  }

  method EncodedSize(cells: seq<Cell>) returns (size: Option<nat>)
    ensures size == if RunOk(cells) && |EncodeRun(None, cells)| <= MAX_PAYLOAD then Some(|EncodeRun(None, cells)|) else None
  {
    hide StyleSize, StyleBytes, SameStyle, StyleOk, CellOk, Changed, EncodeCell;
    var total := 0;
    var previous: Option<CellStyle> := None;
    for i := 0 to |cells|
      invariant RunOk(cells[..i]) && (i == 0 <==> previous.None?) && total <= MAX_PAYLOAD
      invariant RunOk(cells) ==> |EncodeRun(None, cells)| == total + |EncodeRun(previous, cells[i..])|
    {
      var cell := cells[i];
      assert cells[i..][0] == cell && cells[i..][1..] == cells[i + 1..];
      if !CellOk(cell) || !StyleOk(cell.style) {
        return None;
      }
      StyleSizeIsLength(cell.style);
      CellLength(previous, cell);
      assert cells[..i + 1] == cells[..i] + [cell];
      total := total + 1 + |cell.text|
        + if Changed(previous, cell.style) then StyleSize(cell.style) else 0;
      if total > MAX_PAYLOAD {
        return None;
      }
      previous := Some(cell.style);
    }
    assert cells[..|cells|] == cells;
    size := Some(total);
  }
}
