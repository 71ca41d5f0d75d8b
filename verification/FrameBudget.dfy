/** The size bound of snapshots is attained: on every grid with room for the most
    hyperlink runs there is a snapshot of exactly that size. */
module FrameBudgets {
  import opened Wire
  import opened Schemas
  import opened PreparedValues
  import opened Frames
  import opened FrameCodec
  import opened PreparedFrames
  import opened FrameMessages
  import opened Cells

  /** Three full colors; `flags` tells neighbouring cells apart. */
  function WideStyle(flags: u16): CellStyle {
    CellStyle(flags, CellColor(2, 1, 2, 3), CellColor(2, 1, 2, 3), CellColor(2, 1, 2, 3))
  }

  const TEXT: seq<byte> := seq<byte>(16, i => 0x61)

  /** Each cell has 16 bytes of text and a style unlike its neighbours'. */
  function WideCells(count: nat): seq<Cell> {
    seq(count, i => Cell(1, WideStyle(i % 2), TEXT))
  }

  lemma WideStyleSize(flags: u16)
    requires flags <= 1
    ensures StyleOk(WideStyle(flags)) && |StyleBytes(WideStyle(flags))| == 14
  {
    StyleSizeIsLength(WideStyle(flags));
    StyleValueOk(WideStyle(flags));
  }

  lemma {:induction false} WideRunLength(previous: Option<CellStyle>, cells: seq<Cell>)
    requires forall i :: 0 <= i < |cells| ==>
               cells[i].width == 1 && cells[i].text == TEXT && cells[i].style.flags <= 1
               && cells[i].style == WideStyle(cells[i].style.flags)
    requires forall i :: 0 <= i < |cells| - 1 ==> cells[i].style.flags != cells[i + 1].style.flags
    requires previous.Some? && cells != [] ==> previous.value.flags != cells[0].style.flags
    ensures RunOk(cells) && |EncodeRun(previous, cells)| == 31 * |cells|
    decreases |cells|
  {
    if cells != [] {
      WideStyleSize(cells[0].style.flags);
      WideRunLength(Some(cells[0].style), cells[1..]);
      assert CellOk(cells[0]);
      CellLength(previous, cells[0]);
    }
  }

  lemma WideRun(count: nat)
    ensures RunOk(WideCells(count))
    ensures var bytes := EncodeRun(None, WideCells(count));
      |bytes| == 31 * count && ReadRun(None, count, bytes).Some?
  {
    hide StyleBytes, StyleOk;
    WideRunLength(None, WideCells(count));
    RunRoundTrip(WideCells(count));
  }

  /** Text metadata as large as its counts allow. */
  function FullMetadata(rows: u16): TextMetadata {
    TextMetadata(
      0, seq<byte>(rows, i => 0),
      seq(256, i requires 0 <= i < 256 => MetadataLink(256 * i, 256)),
      seq(2048, i requires 0 <= i < 2048 => MetadataRun(i, 1, 0)),
      seq<byte>(65536, i => 0))
  }

  lemma FullMetadataOk(cols: u16, rows: u16)
    requires cols > 0 && cols * rows >= 2048
    ensures MetadataOk(FullMetadata(rows), cols, rows) && MetadataSize(FullMetadata(rows)) == 87563 + rows
  {
    var m := FullMetadata(rows);
    assert LinksTile(m.links, |m.uris|);
    assert RunsOk(m.runs, |m.links|, cols, cols * rows);
  }

  function Largest(cols: u16, rows: u16): Frame
    requires 2048 <= cols * rows <= MAX_CELLS
  {
    WideRun(cols * rows);
    Frame(
      1, 1, 0, cols, rows, Cursor(false, 0, 0, 0, false), Mouse(0, false, false),
      InputModes(false, false, false, false, false, false, 0, false), 0, Scroll(rows, 0), Some(FullMetadata(rows)),
      [FrameSpan(0, cols * rows, EncodeRun(None, WideCells(cols * rows)))])
  }

  lemma LargestOk(cols: u16, rows: u16)
    requires 2048 <= cols * rows <= MAX_CELLS
    ensures var f := Largest(cols, rows);
      FrameOk(f) && EnumsOk(f) && AllReadable(f.spans) && |f.spans[0].cells| == 31 * (cols * rows)
  {
    hide EncodeRun, ReadRun, MetadataOk, WideCells, FullMetadata, RunOk;
    WideRun(cols * rows);
    FullMetadataOk(cols, rows);
  }

  /** On every grid the validator accepts that has room for 2048 runs, some valid
      readable snapshot is exactly as large as the bound allows. */
  lemma BoundAttained(cols: u16, rows: u16)
    requires 2048 <= cols * rows <= MAX_CELLS
    ensures var f := Largest(cols, rows);
      && FrameOk(f) && EnumsOk(f) && f.baseFrameId == 0 && AllReadable(f.spans)
      && f.cols == cols && f.rows == rows
      && FramePayload(f).Some? && |FramePayload(f).value| == 74 + 87563 + rows + 31 * (cols * rows)
  {
    hide EncodeRun, ReadRun, MetadataOk, WideCells, FrameOk, EnumsOk, AllReadable, FramePayload, Encodable, RunOk;
    LargestOk(cols, rows);
    FullMetadataOk(cols, rows);
    var f := Largest(cols, rows);
    hide FullMetadata;
    SnapshotFits(f);
    PayloadSize(f);
    assert f.spans[1..] == [];
    assert SpansSize(f.spans) == 12 + |f.spans[0].cells|;
  }

  /** A message the source begins and gives up: the tag and 44 bytes of the body
      are in the buffer when the unknown pointer shape is found. */
  lemma UnknownPointerWitness()
    ensures var f := Largest(100, 50).(pointerShape := 99);
      Starts(f, MAX_PAYLOAD) && AllReadable(f.spans) && FramePayload(f) == None
      && Progress(FrameSchema(), [], FrameValue(f)) == 44
  {
    var g := Largest(100, 50);
    hide Largest, FrameOk, FramePayload, FrameSchema, FrameValue, AllReadable, Progress, Cells.ReadRun;
    BoundAttained(100, 50);
    PayloadSize(g);
    UnknownPointer(g, 99);
    PayloadSize(g.(pointerShape := 99));
  }
}
