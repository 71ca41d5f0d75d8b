/** The offsets at which the fields of a frame lie in its payload
    (serializers/telar_frame.hpp). */
module FramePlaces {
  import opened Wire
  import opened NumberRecords
  import opened Frames
  import opened FrameBytes
  import opened FrameMessages

  /** The groups of fields at their offsets. */
  lemma FrameGroups(f: Frame, payload: seq<byte>)
    requires FramePayload(f) == Some(payload) || ParseFrame(payload) == Some(f)
    ensures |payload| >= 62 && payload[0] == 0x82 && payload[1..29] == GridBytes(f) && payload[29..34] == CursorBytes(f.cursor)
    ensures payload[34..37] == MouseBytes(f.mouse) && payload[37..45] == ModeBytes(f.modes) && payload[45] == f.pointerShape
    ensures payload[46..54] == ScrollBytes(f.scroll)
    ensures payload[54..58] == TailBytes(f)
    ensures payload[58..] == OptionBytes(f.metadata) + SpanBytes(f.spans)
  {
    FrameLayout(f, payload);
    hide LittleEndian, FramePayload, ParseFrame, OptionBytes, SpanBytes;
    GridOffsets(f);
    CursorOffsets(f.cursor);
    OptionLength(f.metadata);
    hide GridBytes, CursorBytes;
    Slices(payload, GridBytes(f), CursorBytes(f.cursor), MouseBytes(f.mouse), ModeBytes(f.modes), f.pointerShape,
           ScrollBytes(f.scroll), TailBytes(f), OptionBytes(f.metadata) + SpanBytes(f.spans));
  }

  lemma SubSlice(p: seq<byte>, a: nat, b: nat, c: nat, d: nat)
    requires a <= b <= |p| && c <= d <= b - a
    ensures p[a..b][c..d] == p[a + c..a + d]
  {
    assert forall k :: 0 <= k < d - c ==> p[a..b][c..d][k] == p[a + c..a + d][k];
  }

  lemma SubByte(p: seq<byte>, a: nat, b: nat, c: nat)
    requires a <= b <= |p| && c < b - a
    ensures p[a..b][c] == p[a + c]
  {}

  /** The numbers of more than one byte at their offsets. */
  lemma FrameOffsets(f: Frame, payload: seq<byte>)
    requires FramePayload(f) == Some(payload) || ParseFrame(payload) == Some(f)
    ensures |payload| >= 62 && payload[1..9] == LittleEndian(f.paneId, 8) && payload[9..17] == LittleEndian(f.frameId, 8)
    ensures payload[17..25] == LittleEndian(f.baseFrameId, 8)
    ensures payload[25..27] == LittleEndian(f.cols, 2) && payload[27..29] == LittleEndian(f.rows, 2)
    ensures payload[30..32] == LittleEndian(f.cursor.x, 2) && payload[32..34] == LittleEndian(f.cursor.y, 2)
    ensures payload[46..50] == LittleEndian(f.scroll.totalRows, 4) && payload[50..54] == LittleEndian(f.scroll.offset, 4)
    ensures payload[54..56] == LittleEndian(|f.spans|, 2)
  {
    hide LittleEndian, FramePayload, ParseFrame, OptionBytes, SpanBytes, GridBytes, CursorBytes, MouseBytes, ModeBytes, TailBytes;
    TailLength(f);
    FrameGroups(f, payload);
    GridOffsets(f);
    CursorOffsets(f.cursor);
    var scroll := ScrollBytes(f.scroll);
    assert scroll[..4] == LittleEndian(f.scroll.totalRows, 4) && scroll[4..] == LittleEndian(f.scroll.offset, 4);
    SubSlice(payload, 1, 29, 0, 8);
    SubSlice(payload, 1, 29, 8, 16);
    SubSlice(payload, 1, 29, 16, 24);
    SubSlice(payload, 1, 29, 24, 26);
    SubSlice(payload, 1, 29, 26, 28);
    SubSlice(payload, 29, 34, 1, 3);
    SubSlice(payload, 29, 34, 3, 5);
    SubSlice(payload, 46, 54, 0, 4);
    SubSlice(payload, 46, 54, 4, 8);
    SubSlice(payload, 54, 58, 0, 2);
  }

  /** The flags and enums at their offsets. */
  lemma FrameFlags(f: Frame, payload: seq<byte>)
    requires FramePayload(f) == Some(payload) || ParseFrame(payload) == Some(f)
    ensures |payload| >= 62 && payload[0] == 0x82 && payload[29] == Bit(f.cursor.visible)
    ensures payload[34] == f.mouse.tracking && payload[35] == Bit(f.mouse.sgr) && payload[36] == Bit(f.mouse.pixels)
    ensures payload[37] == Bit(f.modes.cursorKeys) && payload[38] == Bit(f.modes.keypadKeys)
    ensures payload[39] == Bit(f.modes.bracketedPaste) && payload[40] == Bit(f.modes.focusEvents)
    ensures payload[41] == Bit(f.modes.alternateScroll) && payload[42] == Bit(f.modes.alternateScreen)
    ensures payload[43] == f.modes.kittyFlags && payload[44] == Bit(f.modes.modifyOtherKeys2)
    ensures payload[45] == f.pointerShape && payload[56] == f.cursor.shape && payload[57] == Bit(f.cursor.blink)
  {
    hide LittleEndian, FramePayload, ParseFrame, OptionBytes, SpanBytes, GridBytes, CursorBytes, ScrollBytes, MouseBytes, ModeBytes,
      TailBytes;
    FrameGroups(f, payload);
    CursorOffsets(f.cursor);
    SubByte(payload, 29, 34, 0);
    MouseModeFlags(f, payload);
    TailLength(f);
    SubByte(payload, 54, 58, 2);
    SubByte(payload, 54, 58, 3);
  }

  lemma TailLength(f: Frame)
    ensures var t := TailBytes(f);
      |t| == 4 && t[..2] == LittleEndian(|f.spans|, 2) && t[2] == f.cursor.shape && t[3] == Bit(f.cursor.blink)
  {
    hide LittleEndian;
  }

  lemma MouseModeFlags(f: Frame, p: seq<byte>)
    requires |p| >= 45 && p[34..37] == MouseBytes(f.mouse) && p[37..45] == ModeBytes(f.modes)
    ensures p[34] == f.mouse.tracking && p[35] == Bit(f.mouse.sgr) && p[36] == Bit(f.mouse.pixels)
    ensures p[37] == Bit(f.modes.cursorKeys) && p[38] == Bit(f.modes.keypadKeys)
    ensures p[39] == Bit(f.modes.bracketedPaste) && p[40] == Bit(f.modes.focusEvents)
    ensures p[41] == Bit(f.modes.alternateScroll) && p[42] == Bit(f.modes.alternateScreen)
    ensures p[43] == f.modes.kittyFlags && p[44] == Bit(f.modes.modifyOtherKeys2)
  {
    SubByte(p, 34, 37, 0);
    SubByte(p, 34, 37, 1);
    SubByte(p, 34, 37, 2);
    SubByte(p, 37, 45, 0);
    SubByte(p, 37, 45, 1);
    SubByte(p, 37, 45, 2);
    SubByte(p, 37, 45, 3);
    SubByte(p, 37, 45, 4);
    SubByte(p, 37, 45, 5);
    SubByte(p, 37, 45, 6);
    SubByte(p, 37, 45, 7);
  }

  lemma GridOffsets(f: Frame)
    ensures var g := GridBytes(f);
      && |g| == 28 && g[..8] == LittleEndian(f.paneId, 8) && g[8..16] == LittleEndian(f.frameId, 8)
      && g[16..24] == LittleEndian(f.baseFrameId, 8) && g[24..26] == LittleEndian(f.cols, 2) && g[26..28] == LittleEndian(f.rows, 2)
  {
    hide LittleEndian;
  }

  lemma CursorOffsets(c: Cursor)
    ensures var b := CursorBytes(c);
      |b| == 5 && b[0] == Bit(c.visible) && b[1..3] == LittleEndian(c.x, 2) && b[3..5] == LittleEndian(c.y, 2)
  {
    hide LittleEndian;
  }

  lemma OptionLength(m: Option<TextMetadata>)
    ensures |OptionBytes(m)| >= 4
  {
    hide MetadataBytes;
  }

  /** The groups of a payload at their offsets. */
  lemma Slices(payload: seq<byte>, grid: seq<byte>, cursor: seq<byte>, mouse: seq<byte>, modes: seq<byte>, pointer: byte,
               scroll: seq<byte>, tail: seq<byte>, rest: seq<byte>)
    requires |grid| == 28 && |cursor| == 5 && |mouse| == 3 && |modes| == 8 && |scroll| == 8 && |tail| == 4
    requires payload == [0x82] + (grid + cursor + mouse + modes + [pointer] + scroll + tail) + rest
    ensures |payload| == 58 + |rest| && payload[0] == 0x82 && payload[1..29] == grid && payload[29..34] == cursor
    ensures payload[34..37] == mouse && payload[37..45] == modes && payload[45] == pointer && payload[46..54] == scroll
    ensures payload[54..58] == tail && payload[58..] == rest
  {}
}
