/**
  The control center's grid: rows keyed by client and device, a frame built
  as fixed-width columns, and the dirty flag between updates and renders.
 */
module DisplayGrid {
  import opened Words
  import opened OrderedMap

  const COLUMN_PADDING: nat := 3
  const MIN_COLUMN_WIDTH: nat := 14
  const WAITING: string := "Waiting for telemetry clients...\n"

  type ClientRow = seq<(string, string)>
  type Devices = OMap<ClientRow>
  type Rows = OMap<Devices>

  datatype Column = Column(name: string, fields: seq<(string, string)>)

  // ------------------------------------------------------ the frame, as text

  function Repeat(c: char, n: nat): (s: string)
    ensures |s| == n && forall k :: 0 <= k < n ==> s[k] == c
  {
    seq(n, _ => c)
  }

  /** Device groups one below the other, a blank field between two. */
  function Fields(devices: Devices): seq<(string, string)> {
    if devices == [] then []
    else
      var n := |devices| - 1;
      Fields(devices[..n]) + (if n == 0 then [] else [("", "")]) + devices[n].1
  }

  function Columns(rows: Rows): (r: seq<Column>)
    ensures |r| == |rows|
  {
    if rows == [] then []
    else
      var n := |rows| - 1;
      Columns(rows[..n]) + [Column(rows[n].0, Fields(rows[n].1))]
  }

  function WidestField(name: string, fields: seq<(string, string)>): nat {
    if fields == [] then |name|
    else
      var f := fields[|fields| - 1];
      Max(WidestField(name, fields[..|fields| - 1]), |f.0| + 2 + |f.1|)
  }

  function Width(col: Column): nat {
    Max(WidestField(col.name, col.fields) + COLUMN_PADDING, MIN_COLUMN_WIDTH)
  }

  function MaxRows(cols: seq<Column>): nat {
    if cols == [] then 0 else Max(MaxRows(cols[..|cols| - 1]), |cols[|cols| - 1].fields|)
  }

  /** A cell is a label, "label: value", or nothing. */
  function Cell(col: Column, r: nat): string {
    if r >= |col.fields| then ""
    else if col.fields[r].1 == "" then col.fields[r].0
    else col.fields[r].0 + ": " + col.fields[r].1
  }

  function Padded(text: string, width: nat): string {
    text + Repeat(' ', if width > |text| then width - |text| else 1)
  }

  function Dashes(col: Column): string {
    Repeat('-', Min(Width(col) - COLUMN_PADDING, Width(col))) + Repeat(' ', COLUMN_PADDING)
  }

  function Concat(cells: seq<string>): string {
    if cells == [] then "" else Concat(cells[..|cells| - 1]) + cells[|cells| - 1]
  }

  datatype LineKind = HeaderLine | DashLine | DataLine(r: nat)

  function CellOf(col: Column, kind: LineKind): string {
    match kind
    case HeaderLine => Padded(col.name, Width(col))
    case DashLine => Dashes(col)
    case DataLine(r) => Padded(Cell(col, r), Width(col))
  }

  function Cells(cols: seq<Column>, kind: LineKind): (r: seq<string>)
    ensures |r| == |cols| && forall c :: 0 <= c < |cols| ==> r[c] == CellOf(cols[c], kind)
  {
    seq(|cols|, c requires 0 <= c < |cols| => CellOf(cols[c], kind))
  }

  function Line(cols: seq<Column>, kind: LineKind): string { Concat(Cells(cols, kind)) }

  function DataLines(cols: seq<Column>, n: nat): (lines: seq<string>)
    ensures |lines| == n && forall r :: 0 <= r < n ==> lines[r] == Line(cols, DataLine(r))
  {
    seq(n, r requires 0 <= r < n => Line(cols, DataLine(r)))
  }

  function FrameLines(cols: seq<Column>): seq<string> {
    [Line(cols, HeaderLine), Line(cols, DashLine)] + DataLines(cols, MaxRows(cols))
  }

  function Join(lines: seq<string>): string {
    if lines == [] then "" else Join(lines[..|lines| - 1]) + lines[|lines| - 1] + "\n"
  }

  function Frame(rows: Rows): string {
    if rows == [] then WAITING else Join(FrameLines(Columns(rows)))
  }

  // ---------------------------------------------------------------- layout

  lemma {:induction false} WidestIsWide(name: string, fields: seq<(string, string)>)
    ensures |name| <= WidestField(name, fields)
    ensures forall r :: 0 <= r < |fields| ==> |fields[r].0| + 2 + |fields[r].1| <= WidestField(name, fields)
  {
    if fields != [] { WidestIsWide(name, fields[..|fields| - 1]); }
  }

  /** Every cell and every name leaves the padding free: the one-space fallback is never taken, and cells have their column's width. */
  lemma CellsFit(col: Column, kind: LineKind)
    ensures |col.name| + COLUMN_PADDING <= Width(col)
    ensures forall r: nat :: |Cell(col, r)| + COLUMN_PADDING <= Width(col)
    ensures |CellOf(col, kind)| == Width(col)
  {
    WidestIsWide(col.name, col.fields);
  }

  function Widths(cols: seq<Column>): (ws: seq<nat>)
    ensures |ws| == |cols| && forall c :: 0 <= c < |cols| ==> ws[c] == Width(cols[c])
  {
    seq(|cols|, c requires 0 <= c < |cols| => Width(cols[c]))
  }

  /** Where column c starts. */
  function Offset(widths: seq<nat>, c: nat): nat
    requires c <= |widths|
  {
    if c == 0 then 0 else Offset(widths, c - 1) + widths[c - 1]
  }

  ghost predicate SliceIs(line: string, at: nat, width: nat, cell: string) {
    at + width <= |line| && line[at..at + width] == cell
  }

  /** A concatenation sliced where a part starts gives that part. */
  lemma {:induction false} ConcatSlice(cells: seq<string>, c: nat)
    requires c < |cells|
    ensures SliceIs(Concat(cells), |Concat(cells[..c])|, |cells[c]|, cells[c])
  {
    var n := |cells| - 1;
    if c < n {
      ConcatSlice(cells[..n], c);
      assert cells[..n][..c] == cells[..c];
      SliceStays(Concat(cells[..n]), cells[n], |Concat(cells[..c])|, |cells[c]|, cells[c]);
    }
  }

  lemma SliceStays(line: string, more: string, at: nat, width: nat, cell: string)
    requires SliceIs(line, at, width, cell)
    ensures SliceIs(line + more, at, width, cell)
  {
    assert (line + more)[at..at + width] == line[at..at + width];
  }

  ghost predicate HaveWidths(cells: seq<string>, widths: seq<nat>) {
    |cells| == |widths| && forall c :: 0 <= c < |cells| ==> |cells[c]| == widths[c]
  }

  lemma {:induction false} OffsetIsStart(cells: seq<string>, widths: seq<nat>, c: nat)
    requires HaveWidths(cells, widths) && c <= |cells|
    ensures |Concat(cells[..c])| == Offset(widths, c)
  {
    if c > 0 {
      OffsetIsStart(cells, widths, c - 1);
      assert cells[..c][..c - 1] == cells[..c - 1];
    }
  }

  /** A text split into consecutive parts of the given widths. */
  ghost predicate Tiles(line: string, widths: seq<nat>, cells: seq<string>) {
    && |line| == Offset(widths, |widths|) && |cells| == |widths|
    && forall c :: 0 <= c < |widths| ==> SliceIs(line, Offset(widths, c), widths[c], cells[c])
  }

  lemma ConcatTiles(cells: seq<string>, widths: seq<nat>)
    requires HaveWidths(cells, widths)
    ensures Tiles(Concat(cells), widths, cells)
  {
    OffsetIsStart(cells, widths, |cells|);
    assert cells[..|cells|] == cells;
    forall c | 0 <= c < |widths| ensures SliceIs(Concat(cells), Offset(widths, c), widths[c], cells[c]) {
      OffsetIsStart(cells, widths, c);
      ConcatSlice(cells, c);
    }
  }

  /**
    Every line is as long as the widths together, and slicing it at a
    column's offset gives that column's cell, padding included, back.
   */
  lemma LineRoundTrip(cols: seq<Column>, kind: LineKind)
    ensures Tiles(Line(cols, kind), Widths(cols), Cells(cols, kind))
  {
    forall c | 0 <= c < |cols| ensures |Cells(cols, kind)[c]| == Widths(cols)[c] { CellsFit(cols[c], kind); }
    ConcatTiles(Cells(cols, kind), Widths(cols));
  }

  predicate NoNewline(s: string) { '\n' !in s }

  ghost predicate PlainColumn(col: Column) {
    NoNewline(col.name) && forall r :: 0 <= r < |col.fields| ==> NoNewline(col.fields[r].0) && NoNewline(col.fields[r].1)
  }

  lemma {:induction false} LinesArePlain(cells: seq<string>)
    requires forall c :: 0 <= c < |cells| ==> NoNewline(cells[c])
    ensures NoNewline(Concat(cells))
  {
    if cells != [] { LinesArePlain(cells[..|cells| - 1]); }
  }

  /** Splits a text after each newline; the inverse of Join on newline-free lines. */
  function SplitLines(s: string, line: string): seq<string>
    decreases |s|
  {
    if s == [] then (if line == [] then [] else [line])
    else if s[0] == '\n' then [line] + SplitLines(s[1..], "")
    else SplitLines(s[1..], line + [s[0]])
  }

  lemma {:induction false} SplitFirst(line: string, rest: string, sofar: string)
    requires NoNewline(line)
    ensures SplitLines(line + "\n" + rest, sofar) == [sofar + line] + SplitLines(rest, "")
    decreases |line|
  {
    if line == [] {
      assert line + "\n" + rest == "\n" + rest;
      assert sofar + line == sofar;
      assert ("\n" + rest)[1..] == rest;
    } else {
      var s := line + "\n" + rest;
      assert s[1..] == line[1..] + "\n" + rest;
      SplitFirst(line[1..], rest, sofar + [line[0]]);
      assert sofar + [line[0]] + line[1..] == sofar + line;
    }
  }

  lemma {:induction false} SplitJoin(lines: seq<string>, rest: string)
    requires forall k :: 0 <= k < |lines| ==> NoNewline(lines[k])
    ensures SplitLines(Join(lines) + rest, "") == lines + SplitLines(rest, "")
    decreases |lines|
  {
    if lines == [] {
      assert Join(lines) + rest == rest;
    } else {
      var n := |lines| - 1;
      assert Join(lines) + rest == Join(lines[..n]) + (lines[n] + "\n" + rest);
      SplitJoin(lines[..n], lines[n] + "\n" + rest);
      SplitFirst(lines[n], rest, "");
      assert "" + lines[n] == lines[n];
      assert lines[..n] + ([lines[n]] + SplitLines(rest, "")) == lines + SplitLines(rest, "");
    }
  }

  lemma PlainCells(col: Column, kind: LineKind)
    requires PlainColumn(col)
    ensures NoNewline(CellOf(col, kind))
  {}

  /** For newline-free text the frame splits into exactly 2 + max_rows lines, the ones it was built of. */
  lemma FrameRoundTrip(rows: Rows)
    requires rows != [] && forall c :: 0 <= c < |rows| ==> PlainColumn(Columns(rows)[c])
    ensures SplitLines(Frame(rows), "") == FrameLines(Columns(rows))
    ensures |FrameLines(Columns(rows))| == 2 + MaxRows(Columns(rows))
  {
    var cols := Columns(rows);
    forall kind ensures NoNewline(Line(cols, kind)) {
      forall c | 0 <= c < |cols| ensures NoNewline(Cells(cols, kind)[c]) { PlainCells(cols[c], kind); }
      LinesArePlain(Cells(cols, kind));
    }
    SplitJoin(FrameLines(cols), "");
    assert Join(FrameLines(cols)) + "" == Join(FrameLines(cols));
    assert FrameLines(cols) + SplitLines("", "") == FrameLines(cols);
  }

  /** The waiting text is the frame of no rows only. */
  lemma FrameIsNotWaiting(rows: Rows)
    requires rows != []
    ensures Frame(rows) != WAITING
  {
    var cols := Columns(rows);
    var lines := FrameLines(cols);
    JoinFirst(lines);
    var at := |Line(cols, HeaderLine)|;
    assert forall k :: 0 <= k < |WAITING| - 1 ==> WAITING[k] != '\n';
    assert Frame(rows)[at] == '\n' && at < |Frame(rows)| - 1;
  }

  lemma {:induction false} JoinFirst(lines: seq<string>)
    requires |lines| >= 2
    ensures |Join(lines)| >= |lines[0]| + 2 && Join(lines)[|lines[0]|] == '\n'
  {
    var n := |lines| - 1;
    if n >= 2 {
      JoinFirst(lines[..n]);
    } else {
      assert lines[..1] == [lines[0]];
      assert Join([lines[0]]) == Join([]) + lines[0] + "\n";
    }
  }

  // ----------------------------------------------------- building the frame

  /** One column: the devices of a client one below the other. */
  method BuildColumn(name: string, devices: Devices) returns (col: Column)
    ensures col == Column(name, Fields(devices))
  {
    var fields := [];
    var firstDevice := true;
    for d := 0 to |devices|
      invariant fields == Fields(devices[..d]) && (firstDevice <==> d == 0)
    {
      assert devices[..d + 1][..d] == devices[..d];
      if !firstDevice {
        fields := fields + [("", "")];
      }
      firstDevice := false;
      ghost var before := fields;
      var row := devices[d].1;
      for f := 0 to |row|
        invariant fields == before + row[..f]
      {
        fields := fields + [row[f]];
      }
      assert row[..|row|] == row;
    }
    assert devices[..|devices|] == devices;
    col := Column(name, fields);
  }

  method ColumnWidth(col: Column) returns (width: nat)
    ensures width == Width(col)
  {
    width := |col.name|;
    for f := 0 to |col.fields|
      invariant width == WidestField(col.name, col.fields[..f])
    {
      assert col.fields[..f + 1][..f] == col.fields[..f];
      width := Max(width, |col.fields[f].0| + 2 + |col.fields[f].1|);
    }
    assert col.fields[..|col.fields|] == col.fields;
    width := Max(width + COLUMN_PADDING, MIN_COLUMN_WIDTH);
  }

  ghost predicate WidthsOf(cols: seq<Column>, widths: seq<nat>) {
    |widths| == |cols| && forall c :: 0 <= c < |cols| ==> widths[c] == Width(cols[c])
  }

  lemma ConcatStep(cells: seq<string>, c: nat)
    requires c < |cells|
    ensures Concat(cells[..c + 1]) == Concat(cells[..c]) + cells[c]
  {
    assert cells[..c + 1][..c] == cells[..c];
  }

  method AppendHeader(out: string, cols: seq<Column>, widths: seq<nat>) returns (r: string)
    requires WidthsOf(cols, widths)
    ensures r == out + Line(cols, HeaderLine) + "\n"
  {
    r := "";
    ghost var cells := Cells(cols, HeaderLine);
    for c := 0 to |cols|
      invariant r == Concat(cells[..c])
    {
      ConcatStep(cells, c);
      assert |cols[c].name| < widths[c] by { CellsFit(cols[c], HeaderLine); }
      r := r + (cols[c].name + Repeat(' ', widths[c] - |cols[c].name|));
    }
    assert cells[..|cols|] == cells;
    r := out + r + "\n";
  }

  method AppendDashes(out: string, cols: seq<Column>, widths: seq<nat>) returns (r: string)
    requires WidthsOf(cols, widths)
    ensures r == out + Line(cols, DashLine) + "\n"
  {
    r := "";
    ghost var cells := Cells(cols, DashLine);
    for c := 0 to |cols|
      invariant r == Concat(cells[..c])
    {
      ConcatStep(cells, c);
      r := r + (Repeat('-', Min(widths[c] - COLUMN_PADDING, widths[c])) + Repeat(' ', COLUMN_PADDING));
    }
    assert cells[..|cols|] == cells;
    r := out + r + "\n";
  }

  method AppendRow(out: string, cols: seq<Column>, widths: seq<nat>, row: nat) returns (r: string)
    requires WidthsOf(cols, widths)
    ensures r == out + Line(cols, DataLine(row)) + "\n"
  {
    r := "";
    ghost var cells := Cells(cols, DataLine(row));
    for c := 0 to |cols|
      invariant r == Concat(cells[..c])
    {
      assert cells[..c + 1][..c] == cells[..c];
      var cell := "";
      if row < |cols[c].fields| {
        if |cols[c].fields[row].1| == 0 {
          cell := cols[c].fields[row].0;
        } else {
          cell := cols[c].fields[row].0 + ": " + cols[c].fields[row].1;
        }
      }
      assert cell == Cell(cols[c], row);
      r := r + (cell + Repeat(' ', if widths[c] > |cell| then widths[c] - |cell| else 1));
    }
    assert cells[..|cols|] == cells;
    r := out + r + "\n";
  }

  method BuildFrame(rows: Rows) returns (frame: string)
    ensures frame == Frame(rows)
  {
    if |rows| == 0 { return WAITING; }
    var cols: seq<Column> := [];
    for k := 0 to |rows|
      invariant cols == Columns(rows[..k])
    {
      assert rows[..k + 1][..k] == rows[..k];
      var col := BuildColumn(rows[k].0, rows[k].1);
      cols := cols + [col];
    }
    assert rows[..|rows|] == rows;
    var widths: seq<nat> := [];
    for c := 0 to |cols|
      invariant |widths| == c && forall k :: 0 <= k < c ==> widths[k] == Width(cols[k])
    {
      var w := ColumnWidth(cols[c]);
      widths := widths + [w];
    }
    var maxRows := 0;
    for c := 0 to |cols|
      invariant maxRows == MaxRows(cols[..c])
    {
      assert cols[..c + 1][..c] == cols[..c];
      maxRows := Max(maxRows, |cols[c].fields|);
    }
    assert cols[..|cols|] == cols;
    frame := PrintLines(cols, widths, maxRows);
  }

  method PrintLines(cols: seq<Column>, widths: seq<nat>, maxRows: nat) returns (frame: string)
    requires WidthsOf(cols, widths) && maxRows == MaxRows(cols)
    ensures frame == Join(FrameLines(cols))
  {
    ghost var lines := FrameLines(cols);
    frame := AppendHeader("", cols, widths);
    JoinStep(lines, 0);
    JoinStep(lines, 1);
    frame := AppendDashes(frame, cols, widths);
    for r := 0 to maxRows
      invariant frame == Join(lines[..2 + r])
    {
      frame := AppendRow(frame, cols, widths, r);
      JoinStep(lines, 2 + r);
    }
    assert lines[..2 + maxRows] == lines;
  }

  lemma JoinStep(lines: seq<string>, n: nat)
    requires n < |lines|
    ensures Join(lines[..n + 1]) == Join(lines[..n]) + lines[n] + "\n"
    ensures n == 0 ==> Join(lines[..n]) == ""
  {
    assert lines[..n + 1][..n] == lines[..n];
  }

  // ------------------------------------------------- updates and rendering

  function Updated(rows: Rows, client: string, device: string, row: ClientRow): Rows {
    var devices := Get(rows, client);
    Put(rows, client, Put(if devices.Some? then devices.value else [], device, row))
  }

  function RowOf(rows: Rows, client: string, device: string): Option<ClientRow> {
    var devices := Get(rows, client);
    if devices.None? then None else Get(devices.value, device)
  }

  ghost predicate RowsSorted(rows: Rows) {
    Sorted(rows) && forall client :: Get(rows, client).Some? ==> Sorted(Get(rows, client).value)
  }

  /** An update replaces the row of its client and device and no other, and keeps the iteration order. */
  lemma UpdateLaws(rows: Rows, client: string, device: string, row: ClientRow)
    requires RowsSorted(rows)
    ensures RowsSorted(Updated(rows, client, device, row))
    ensures forall c, d :: RowOf(Updated(rows, client, device, row), c, d)
              == if c == client && d == device then Some(row) else RowOf(rows, c, d)
  {
    var devices := if Get(rows, client).Some? then Get(rows, client).value else [];
    PutLaws(devices, device, row);
    PutLaws(rows, client, Put(devices, device, row));
  }

  datatype GridEvent = Update(client: string, device: string, row: ClientRow) | Render

  /** frames are those handed to the terminal, oldest first. */
  datatype GridState = GridState(rows: Rows, dirty: bool, frames: seq<string>)

  function GridStep(s: GridState, e: GridEvent): GridState {
    match e
    case Update(client, device, row) => s.(rows := Updated(s.rows, client, device, row), dirty := true)
    case Render => if s.dirty then s.(dirty := false, frames := s.frames + [Frame(s.rows)]) else s
  }

  function GridRun(events: seq<GridEvent>): GridState {
    if events == [] then GridState([], false, []) else GridStep(GridRun(events[..|events| - 1]), events[|events| - 1])
  }

  ghost predicate Coherent(s: GridState) {
    && RowsSorted(s.rows) && (s.dirty ==> s.rows != [])
    && (!s.dirty ==> s.rows == [] || (s.frames != [] && s.frames[|s.frames| - 1] == Frame(s.rows)))
    && (forall k :: 0 <= k < |s.frames| ==> s.frames[k] != WAITING)
  }

  /**
    In every interleaving of updates and renders a clean grid has shown its
    current rows, and the waiting text is never rendered.
   */
  lemma {:induction false} EveryRunIsCoherent(events: seq<GridEvent>)
    ensures Coherent(GridRun(events))
  {
    if events != [] {
      EveryRunIsCoherent(events[..|events| - 1]);
      StepIsCoherent(GridRun(events[..|events| - 1]), events[|events| - 1]);
    }
  }

  lemma StepIsCoherent(s: GridState, e: GridEvent)
    requires Coherent(s)
    ensures Coherent(GridStep(s, e))
  {
    if e.Update? { UpdateLaws(s.rows, e.client, e.device, e.row); }
    if e.Render? && s.dirty { FrameIsNotWaiting(s.rows); }
  }

  lemma NextEvent(events: seq<GridEvent>, e: GridEvent)
    ensures GridRun(events + [e]) == GridStep(GridRun(events), e)
  {
    assert (events + [e])[..|events|] == events;
  }

  /** A render hands over one frame, of the rows as they are, exactly when an update came right before it; updates hand over none. */
  lemma RendersExactly(events: seq<GridEvent>, e: GridEvent)
    ensures GridRun(events + [e]).frames == GridRun(events).frames +
              if e == Render && events != [] && events[|events| - 1].Update? then [Frame(GridRun(events).rows)] else []
  {
    NextEvent(events, e);
  }

  class DisplayGrid {
    var rows: Rows
    var dirty: bool
    ghost var frames: seq<string>

    ghost function State(): GridState
      reads this
    {
      GridState(rows, dirty, frames)
    }

    constructor ()
      ensures State() == GridRun([])
    {
      rows, dirty, frames := [], false, [];
    }

    method Update(client: string, device: string, row: ClientRow)
      modifies this
      ensures State() == GridStep(old(State()), GridEvent.Update(client, device, row))
    {
      var devices := Get(rows, client);
      rows := Put(rows, client, Put(if devices.Some? then devices.value else [], device, row));
      dirty := true;
    }

    method RenderIfDirty() returns (rendered: bool, frame: string)
      modifies this
      ensures State() == GridStep(old(State()), Render)
      ensures rendered == old(dirty) && (rendered ==> frame == Frame(old(rows)))
    {
      frame := "";
      if !dirty { return false, frame; }
      frame := BuildFrame(rows);
      dirty := false;
      frames := frames + [frame];
      rendered := true;
    }
  }
}
