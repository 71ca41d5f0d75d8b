/** Terminal frames: header, cursor, metadata and spans of cells
    (serializers/telar_frame.hpp). */
module Frames {
  import opened Wire

  datatype Cursor = Cursor(visible: bool, x: u16, y: u16, shape: byte, blink: bool)
  datatype Mouse = Mouse(tracking: byte, sgr: bool, pixels: bool)
  datatype InputModes = InputModes(
    cursorKeys: bool, keypadKeys: bool, bracketedPaste: bool, focusEvents: bool,
    alternateScroll: bool, alternateScreen: bool, kittyFlags: byte, modifyOtherKeys2: bool)
  datatype Scroll = Scroll(totalRows: u32, offset: u32)
  datatype MetadataLink = MetadataLink(offset: u32, len: u16)
  datatype MetadataRun = MetadataRun(start: u32, len: u32, linkIndex: u16)
  datatype TextMetadata = TextMetadata(
    status: byte, rowFlags: seq<byte>, links: seq<MetadataLink>, runs: seq<MetadataRun>, uris: seq<byte>)
  datatype FrameSpan = FrameSpan(start: u32, count: u32, cells: seq<byte>)
  datatype Frame = Frame(
    paneId: u64, frameId: u64, baseFrameId: u64, cols: u16, rows: u16, cursor: Cursor, mouse: Mouse,
    modes: InputModes, pointerShape: byte, scroll: Scroll, metadata: Option<TextMetadata>, spans: seq<FrameSpan>)

  const MAX_CELLS: nat := 130359
  const OMITTED: byte := 1

  // ---- what the validators accept

  /** The links cut the URI bytes into consecutive non-empty pieces, leaving none over. */
  predicate LinksTile(links: seq<MetadataLink>, size: nat) {
    (forall i :: 0 <= i < |links| ==> 1 <= links[i].len <= 4096)
    && (forall i :: 0 <= i < |links| ==> forall j :: i < j < |links| && j == i + 1 ==> links[j].offset == links[i].offset + links[i].len)
    && (if links == [] then size == 0 else links[0].offset == 0 && End(links[|links| - 1]) == size)
  }

  function End(link: MetadataLink): nat {
    link.offset + link.len
  }

  /** Runs are disjoint, in order, inside the grid, and each stays on one row. */
  predicate RunsOk(runs: seq<MetadataRun>, links: nat, cols: nat, cells: nat) {
    (forall i :: 0 <= i < |runs| ==>
      cols > 0 && runs[i].len > 0 && runs[i].start + runs[i].len <= cells && runs[i].linkIndex < links
      && runs[i].start / cols == (runs[i].start + runs[i].len - 1) / cols)
    && forall i, j :: 0 <= i < j < |runs| ==> runs[i].start + runs[i].len <= runs[j].start
  }

  /** Wrap 1, continuation 2, wide padding 4, hyperlinks 8. */
  predicate RowFlagsOk(flags: byte, cols: nat) {
    flags < 0x10 && (flags / 4 % 2 == 1 ==> flags % 2 == 1 && cols >= 2)
  }

  predicate MetadataOk(m: TextMetadata, cols: nat, rows: nat) {
    m.status <= 2
    && |m.rowFlags| == rows && |m.links| <= 256 && |m.runs| <= 2048 && |m.uris| <= 65536
    && (m.status == OMITTED ==> m.links == [] && m.runs == [] && m.uris == [])
    && (forall i :: 0 <= i < |m.rowFlags| ==> RowFlagsOk(m.rowFlags[i], cols))
    && LinksTile(m.links, |m.uris|)
    && RunsOk(m.runs, |m.links|, cols, cols * rows)
  }

  /** Spans are disjoint, in order, inside the grid, with at least a byte a cell. */
  predicate SpansOk(spans: seq<FrameSpan>, cells: nat) {
    (forall i :: 0 <= i < |spans| ==>
      spans[i].count > 0 && spans[i].start + spans[i].count <= cells && spans[i].count <= |spans[i].cells|)
    && forall i, j :: 0 <= i < j < |spans| ==> spans[i].start + spans[i].count <= spans[j].start
  }

  predicate HeaderOk(f: Frame) {
    f.paneId > 0 && f.frameId > 0 && f.baseFrameId < f.frameId && f.cols > 0 && f.rows > 0
    && f.cols * f.rows <= MAX_CELLS && |f.spans| <= 4096
    && (if f.cursor.visible then f.cursor.x < f.cols && f.cursor.y < f.rows else f.cursor.x == 0 && f.cursor.y == 0)
    && f.scroll.totalRows >= f.rows && f.scroll.offset <= f.scroll.totalRows - f.rows
  }

  predicate SnapshotOk(f: Frame) {
    f.baseFrameId == 0 ==>
      f.metadata.Some? && |f.spans| == 1 && f.spans[0].start == 0 && f.spans[0].count == f.cols * f.rows
  }

  predicate FrameOk(f: Frame) {
    HeaderOk(f) && SpansOk(f.spans, f.cols * f.rows) && SnapshotOk(f)
    && (f.metadata.Some? ==> MetadataOk(f.metadata.value, f.cols, f.rows))
  }

  // ---- the validators

  method ValidateLinks(links: seq<MetadataLink>, size: nat) returns (ok: bool)
    ensures ok == LinksTile(links, size)
  {
    var end: nat := 0;
    for i := 0 to |links|
      invariant LinksTile(links[..i], end) && end <= size
    {
      if links[i].offset != end || links[i].len == 0 || links[i].len > 4096 || links[i].len > size - end {
        if LinksTile(links, size) {
          LinksEndInside(links, size, i);
          TileStep(links, size, i, end);
          assert false;
        }
        return false;
      }
      assert links[..i + 1] == links[..i] + [links[i]];
      end := end + links[i].len;
    }
    assert links[..|links|] == links;
    ok := end == size;
  }

  lemma TileStep(links: seq<MetadataLink>, size: nat, i: nat, end: nat)
    requires LinksTile(links, size) && i < |links| && LinksTile(links[..i], end)
    ensures links[i].offset == end
  {
    if i > 0 {
      assert links[..i][i - 1] == links[i - 1];
    }
  }

  lemma {:induction false} LinksEndInside(links: seq<MetadataLink>, size: nat, i: nat)
    requires LinksTile(links, size) && i < |links|
    ensures End(links[i]) <= size
    decreases |links| - i
  {
    if i + 1 < |links| {
      LinksEndInside(links, size, i + 1);
    }
  }

  method ValidateRuns(runs: seq<MetadataRun>, links: nat, cols: nat, cells: nat) returns (ok: bool)
    ensures ok == RunsOk(runs, links, cols, cells)
  {
    var previousEnd := 0;
    for i := 0 to |runs|
      invariant RunsOk(runs[..i], links, cols, cells)
      invariant previousEnd == if i == 0 then 0 else runs[i - 1].start + runs[i - 1].len
      invariant forall j :: 0 <= j < i ==> runs[j].start + runs[j].len <= previousEnd
    {
      var run := runs[i];
      var end := run.start + run.len;
      if cols == 0 || run.len == 0 || run.start < previousEnd || end > cells || run.linkIndex >= links
         || run.start / cols != (end - 1) / cols {
        return false;
      }
      assert runs[..i + 1] == runs[..i] + [run];
      previousEnd := end;
    }
    assert runs[..|runs|] == runs;
    ok := true;
  }

  method ValidateSpans(spans: seq<FrameSpan>, cells: nat) returns (ok: bool)
    ensures ok == SpansOk(spans, cells)
  {
    var previousEnd := 0;
    for i := 0 to |spans|
      invariant SpansOk(spans[..i], cells)
      invariant previousEnd == if i == 0 then 0 else spans[i - 1].start + spans[i - 1].count
      invariant forall j :: 0 <= j < i ==> spans[j].start + spans[j].count <= previousEnd
    {
      var span := spans[i];
      var end := span.start + span.count;
      if span.count == 0 || span.start < previousEnd || end > cells || |span.cells| < span.count {
        return false;
      }
      assert spans[..i + 1] == spans[..i] + [span];
      previousEnd := end;
    }
    assert spans[..|spans|] == spans;
    ok := true;
  }

  method ValidateMetadata(m: TextMetadata, cols: nat, rows: nat) returns (ok: bool)
    ensures ok == MetadataOk(m, cols, rows)
  {
    if m.status > 2 || |m.rowFlags| != rows || |m.links| > 256 || |m.runs| > 2048 || |m.uris| > 65536
       || (m.status == OMITTED && (m.links != [] || m.runs != [] || m.uris != [])) {
      return false;
    }
    for i := 0 to |m.rowFlags|
      invariant forall j :: 0 <= j < i ==> RowFlagsOk(m.rowFlags[j], cols)
    {
      var flags := m.rowFlags[i];
      if flags >= 0x10 || (flags / 4 % 2 == 1 && (flags % 2 == 0 || cols < 2)) {
        return false;
      }
    }
    var linksOk := ValidateLinks(m.links, |m.uris|);
    if !linksOk {
      return false;
    }
    ok := ValidateRuns(m.runs, |m.links|, cols, cols * rows);
  }

  method Validate(f: Frame) returns (ok: bool)
    ensures ok == FrameOk(f)
  {
    if !HeaderOk(f) {
      return false;
    }
    var spansOk := ValidateSpans(f.spans, f.cols * f.rows);
    if !spansOk || !SnapshotOk(f) {
      return false;
    }
    ok := true;
    if f.metadata.Some? {
      ok := ValidateMetadata(f.metadata.value, f.cols, f.rows);
    }
  }

  // ---- what validation is for

  /** The URI of a link, or a failure. */
  function LinkText(m: TextMetadata, index: nat): Option<seq<byte>> {
    if index >= |m.links| then None
    else if m.links[index].offset > |m.uris| || m.links[index].len > |m.uris| - m.links[index].offset then None
    else Some(m.uris[m.links[index].offset..m.links[index].offset + m.links[index].len])
  }

  function AllLinkText(m: TextMetadata, n: nat): seq<byte> {
    if n == 0 then []
    else AllLinkText(m, n - 1) + if LinkText(m, n - 1).Some? then LinkText(m, n - 1).value else []
  }

  /** In valid metadata every link and every run has its text, and the texts in
      order are the URI bytes: nothing is shared, skipped or left over. */
  lemma LinksPartitionUris(m: TextMetadata, cols: nat, rows: nat)
    requires MetadataOk(m, cols, rows)
    ensures forall i :: 0 <= i < |m.links| ==> LinkText(m, i).Some? && LinkText(m, i).value != []
    ensures forall i :: 0 <= i < |m.runs| ==> LinkText(m, m.runs[i].linkIndex).Some?
    ensures AllLinkText(m, |m.links|) == m.uris
  {
    forall i | 0 <= i < |m.links|
      ensures LinkText(m, i).Some? && LinkText(m, i).value != []
    {
      LinksEndInside(m.links, |m.uris|, i);
    }
    LinkTextPrefix(m, |m.links|);
    assert m.uris[..|m.uris|] == m.uris;
  }

  lemma {:induction false} LinkTextPrefix(m: TextMetadata, n: nat)
    requires LinksTile(m.links, |m.uris|) && n <= |m.links|
    ensures n > 0 ==> End(m.links[n - 1]) <= |m.uris|
    ensures AllLinkText(m, n) == m.uris[..if n == 0 then 0 else End(m.links[n - 1])]
  {
    if n > 0 {
      LinkTextPrefix(m, n - 1);
      LinksEndInside(m.links, |m.uris|, n - 1);
      var from, to := m.links[n - 1].offset, End(m.links[n - 1]);
      assert n > 1 ==> from == End(m.links[n - 2]);
      assert LinkText(m, n - 1) == Some(m.uris[from..to]);
      assert m.uris[..from] + m.uris[from..to] == m.uris[..to];
    }
  }

  function CellsCovered(spans: seq<FrameSpan>, n: nat): nat
    requires n <= |spans|
  {
    if n == 0 then 0 else CellsCovered(spans, n - 1) + spans[n - 1].count
  }

  /** Valid spans together never exceed the grid. */
  lemma {:induction false} SpansFitGrid(spans: seq<FrameSpan>, cells: nat, n: nat)
    requires SpansOk(spans, cells) && n <= |spans|
    ensures CellsCovered(spans, n) <= if n == 0 then 0 else spans[n - 1].start + spans[n - 1].count
    ensures CellsCovered(spans, n) <= cells
  {
    if n > 0 {
      SpansFitGrid(spans, cells, n - 1);
    }
  }
}
