/** The bytes of a cell: length, width and style flag in one byte, then the style
    if it changed, then the text (codecs/telar_cells.hpp, serializers/telar_cells.hpp). */
module CellBytes {
  import opened Wire
  import opened Schemas
  import opened NumberRecords
  import opened Codecs
  import opened PackedBytes
  import opened Cells

  function ColorBytes(c: CellColor): seq<byte> {
    if c.kind == 0 then [0] else if c.kind == 1 then [1, c.c0] else [2, c.c0, c.c1, c.c2]
  }

  lemma ColorPacked(c: CellColor)
    requires Valid(ColorSchema(), [], ColorValue(c))
    ensures Encode(ColorSchema(), [], ColorValue(c)) == ColorBytes(c)
  {
    hide Numbers, Nums, LittleEndian;
    var bytes: seq<byte> := if c.kind == 0 then [] else if c.kind == 1 then [c.c0] else [c.c0, c.c1, c.c2];
    assert UsedChannels(c) == bytes;
    NumbersPacked(Channels(c.kind), bytes, []);
    BytesPacked(Channels(c.kind), bytes, 0);
    OneByte(c.kind);
  }

  /** Flags, foreground, background, underline: a color is its kind and the channels
      that kind uses. */
  lemma StyleForm(style: CellStyle)
    requires StyleOk(style)
    ensures StyleBytes(style)
         == LittleEndian(style.flags, 2) + ColorBytes(style.foreground) + ColorBytes(style.background) + ColorBytes(style.underline)
  {
    StyleValueOk(style);
    hide LittleEndian, Encode, Valid, ColorSchema, ColorValue, ColorBytes, StyleOk, Joined, EncodeFields;
    var r, items := StyleSchema(), StyleValue(style).items;
    RecordEncoded(r, items);
    assert ColorSchema().Tagged? by { ColorSchemaIsTagged(); }
    assert Valid(r.fields[0], items[..0], items[0]) && Valid(r.fields[1], items[..1], items[1]);
    assert Valid(r.fields[2], items[..2], items[2]) && Valid(r.fields[3], items[..3], items[3]);
    NumberAt(r, items, 0, style.flags, 2);
    TaggedAt(ColorSchema(), items[..1], items[1]);
    TaggedAt(ColorSchema(), items[..2], items[2]);
    TaggedAt(ColorSchema(), items[..3], items[3]);
    ColorPacked(style.foreground);
    ColorPacked(style.background);
    ColorPacked(style.underline);
    var a, b, c, d := LittleEndian(style.flags, 2), ColorBytes(style.foreground), ColorBytes(style.background), ColorBytes(style.underline);
    RecordJoined(r, items, [a, b, c, d]);
    JoinFour(a, b, c, d);
  }

  lemma JoinFour(a: seq<byte>, b: seq<byte>, c: seq<byte>, d: seq<byte>)
    ensures Joined([a, b, c, d]) == a + b + c + d
  {
    assert Joined([d]) == d && [c, d][1..] == [d] && [b, c, d][1..] == [c, d] && [a, b, c, d][1..] == [b, c, d];
    assert Joined([b, c, d]) == b + c + d;
  }

  lemma TaggedAt(s: Schema, context: Context, v: Value)
    requires s.Tagged? && Valid(s, context, v)
    ensures Valid(s, [], v) && Encode(s, context, v) == Encode(s, [], v)
  {}

  /** The first byte holds the text's length below, the width in bits 5 and 6, and
      whether a style follows in bit 7. */
  lemma CellForm(previous: Option<CellStyle>, cell: Cell)
    requires CellOk(cell) && StyleOk(cell.style)
    ensures var bytes := EncodeCell(previous, cell);
      var styled := previous.None? || !SameStyle(previous.value, cell.style);
      && bytes != [] && bytes[0] % 32 == |cell.text| && bytes[0] / 32 % 4 == cell.width && (bytes[0] >= 128 <==> styled)
      && bytes[1..] == (if styled then LittleEndian(cell.style.flags, 2) + ColorBytes(cell.style.foreground)
                                       + ColorBytes(cell.style.background) + ColorBytes(cell.style.underline) else []) + cell.text
  {
    StyleForm(cell.style);
    hide StyleBytes, SameStyle, StyleOk, LittleEndian, ColorBytes, FlagsOk;
    var styled := Changed(previous, cell.style);
    var bytes, style := EncodeCell(previous, cell), if styled then StyleBytes(cell.style) else [];
    assert bytes == [bytes[0]] + (style + cell.text);
    HeaderParts(|cell.text|, cell.width, styled);
  }

  lemma HeaderParts(length: nat, width: nat, styled: bool)
    requires length <= 16 && width <= 2
    ensures var header := length + 0x20 * width + if styled then 0x80 else 0;
      header % 32 == length && header / 32 % 4 == width && (header >= 128 <==> styled)
  {}

  /** The style the cell after these inherits. */
  function LastStyle(previous: Option<CellStyle>, cells: seq<Cell>): Option<CellStyle> {
    if cells == [] then previous else Some(cells[|cells| - 1].style)
  }

  /** A run is its cells one after the other, each after the one before it. */
  lemma {:induction false} RunForm(previous: Option<CellStyle>, cells: seq<Cell>, last: Cell)
    requires RunOk(cells + [last])
    ensures RunOk(cells) && CellOk(last)
    ensures EncodeRun(previous, cells + [last]) == EncodeRun(previous, cells) + EncodeCell(LastStyle(previous, cells), last)
    decreases |cells|
  {
    hide EncodeCell, CellOk, StyleOk;
    var run := cells + [last];
    assert run[|cells|] == last && forall i :: 0 <= i < |cells| ==> run[i] == cells[i];
    if cells == [] {
      assert run[1..] == [] && EncodeRun(Some(last.style), []) == [];
    } else {
      assert run[1..] == cells[1..] + [last];
      RunForm(Some(cells[0].style), cells[1..], last);
    }
  }
}
