/**
  The control center's frame as it stands on the screen, told from the rows
  alone: where every client, device and field is to be found, what fills the
  rest, how wide the columns are and how many lines there are.
 */
module Screen {
  import opened Words
  import opened DisplayGrid

  // ------------------------------------------------- where a field belongs

  /** The lines these devices take, each with the one below it. */
  function Depth(devices: Devices): nat {
    if devices == [] then 0 else Depth(devices[..|devices| - 1]) + |devices[|devices| - 1].1| + 1
  }

  /** The lines of a whole column: nothing comes below its last device. */
  function Height(devices: Devices): nat {
    if devices == [] then 0 else Depth(devices) - 1
  }

  /** Field f of device d stands on line i of its column. */
  ghost predicate StandsOn(devices: Devices, d: int, f: int, i: int) {
    0 <= d < |devices| && 0 <= f < |devices[d].1| && i == Depth(devices[..d]) + f
  }

  lemma {:induction false} FieldsLayout(devices: Devices)
    ensures |Fields(devices)| == Height(devices)
    ensures forall d, f, i {:trigger StandsOn(devices, d, f, i)} :: StandsOn(devices, d, f, i) ==>
              i < Height(devices) && Fields(devices)[i] == devices[d].1[f]
  {
    if devices != [] {
      var n := |devices| - 1;
      FieldsLayout(devices[..n]);
      forall d, f, i | StandsOn(devices, d, f, i) ensures i < Height(devices) && Fields(devices)[i] == devices[d].1[f] {
        if d < n {
          assert devices[..n][..d] == devices[..d];
          assert StandsOn(devices[..n], d, f, i);
        }
      }
    }
  }

  /** Every other line of the column is a blank field. */
  lemma {:induction false} RestIsBlank(devices: Devices, i: nat)
    requires i < |Fields(devices)|
    ensures Fields(devices)[i] == ("", "") || exists d, f :: StandsOn(devices, d, f, i)
  {
    var n := |devices| - 1;
    var init := devices[..n];
    FieldsLayout(init);
    if i < |Fields(init)| {
      RestIsBlank(init, i);
      if d, f :| StandsOn(init, d, f, i) {
        assert init[..d] == devices[..d];
        assert StandsOn(devices, d, f, i);
      }
    } else if i >= Depth(init) {
      assert StandsOn(devices, n, i - Depth(init), i);
    }
  }

  // ---------------------------------------------------------------- widths

  ghost predicate FieldTakes(devices: Devices, d: int, f: int, width: int) {
    0 <= d < |devices| && 0 <= f < |devices[d].1| && |devices[d].1[f].0| + 2 + |devices[d].1[f].1| + 3 == width
  }

  /** The least width of 14 or more that leaves three characters free beside the name and every "label: value". */
  ghost predicate IsWidth(name: string, devices: Devices, width: nat) {
    && 14 <= width && |name| + 3 <= width
    && (forall d, f, w :: FieldTakes(devices, d, f, w) ==> w <= width)
    && (width == 14 || width == |name| + 3 || exists d, f :: FieldTakes(devices, d, f, width))
  }

  lemma {:induction false} WidestIsTaken(name: string, fields: seq<(string, string)>)
    ensures WidestField(name, fields) == |name|
            || exists r :: 0 <= r < |fields| && |fields[r].0| + 2 + |fields[r].1| == WidestField(name, fields)
  {
    if fields != [] {
      var n := |fields| - 1;
      WidestIsTaken(name, fields[..n]);
      if WidestField(name, fields) != |name| && |fields[n].0| + 2 + |fields[n].1| != WidestField(name, fields) {
        var r :| 0 <= r < n && |fields[..n][r].0| + 2 + |fields[..n][r].1| == WidestField(name, fields[..n]);
        assert fields[r] == fields[..n][r];
      }
    }
  }

  lemma WidthIsLeast(name: string, devices: Devices)
    ensures IsWidth(name, devices, Width(Column(name, Fields(devices))))
  {
    var fields, width := Fields(devices), Width(Column(name, Fields(devices)));
    WidestIsWide(name, fields);
    FieldsLayout(devices);
    forall d, f, w | FieldTakes(devices, d, f, w) ensures w <= width {
      assert StandsOn(devices, d, f, Depth(devices[..d]) + f);
    }
    WidestIsTaken(name, fields);
    if width != 14 && width != |name| + 3 {
      var r :| 0 <= r < |fields| && |fields[r].0| + 2 + |fields[r].1| == WidestField(name, fields);
      RestIsBlank(devices, r);
      var d, f :| StandsOn(devices, d, f, r);
      assert FieldTakes(devices, d, f, width);
    }
  }

  // ------------------------------------------------------------ the screen

  /** Text from a position on, and blanks, three at least, to the end of the column. */
  ghost predicate ShownAt(line: string, at: nat, width: nat, text: string) {
    && |text| + 3 <= width && at + width <= |line|
    && line[at..at + |text|] == text
    && forall k :: at + |text| <= k < at + width ==> line[k] == ' '
  }

  lemma PaddedIsShown(line: string, at: nat, width: nat, text: string)
    requires SliceIs(line, at, width, Padded(text, width)) && |text| + 3 <= width
    ensures ShownAt(line, at, width, text)
  {
    var cell := Padded(text, width);
    assert line[at..at + |text|] == cell[..|text|];
    forall k | at + |text| <= k < at + width ensures line[k] == ' ' { assert line[k] == cell[k - at]; }
  }

  lemma CellIsShown(cols: seq<Column>, c: nat, kind: LineKind, text: string)
    requires c < |cols| && CellOf(cols[c], kind) == Padded(text, Width(cols[c])) && |text| + 3 <= Width(cols[c])
    ensures ShownAt(Line(cols, kind), Offset(Widths(cols), c), Widths(cols)[c], text)
  {
    LineRoundTrip(cols, kind);
    PaddedIsShown(Line(cols, kind), Offset(Widths(cols), c), Widths(cols)[c], text);
  }

  /** A rule below the name, as wide as the column without its padding. */
  ghost predicate RuledAt(line: string, at: nat, width: nat) {
    && 3 <= width && at + width <= |line|
    && (forall k :: at <= k < at + width - 3 ==> line[k] == '-')
    && (forall k :: at + width - 3 <= k < at + width ==> line[k] == ' ')
  }

  lemma DashesRule(cols: seq<Column>, c: nat)
    requires c < |cols|
    ensures RuledAt(Line(cols, DashLine), Offset(Widths(cols), c), Widths(cols)[c])
  {
    LineRoundTrip(cols, DashLine);
    assert Cells(cols, DashLine)[c] == Dashes(cols[c]);
    DashesAreRule(Line(cols, DashLine), Offset(Widths(cols), c), Widths(cols)[c]);
  }

  lemma DashesAreRule(line: string, at: nat, width: nat)
    requires width >= 3 && SliceIs(line, at, width, Repeat('-', width - 3) + Repeat(' ', 3))
    ensures RuledAt(line, at, width)
  {
    var cell := Repeat('-', width - 3) + Repeat(' ', 3);
    forall k | at <= k < at + width ensures line[k] == cell[k - at] { assert line[k] == line[at..at + width][k - at]; }
  }

  /** What a field reads: its label, and if it has a value a colon, a blank and the value. */
  function FieldText(field: (string, string)): string {
    if field.1 == "" then field.0 else field.0 + ": " + field.1
  }

  ghost predicate FieldsShown(lines: seq<string>, at: nat, width: nat, devices: Devices) {
    forall d, f, i {:trigger StandsOn(devices, d, f, i)} :: StandsOn(devices, d, f, i) ==>
      i < |lines| && ShownAt(lines[i], at, width, FieldText(devices[d].1[f]))
  }

  ghost predicate RestShown(lines: seq<string>, at: nat, width: nat, devices: Devices) {
    forall i :: 0 <= i < |lines| && (forall d, f :: !StandsOn(devices, d, f, i)) ==> ShownAt(lines[i], at, width, "")
  }

  /** The column of one client: its fields on their lines, blanks on all others. */
  ghost predicate ColumnShown(lines: seq<string>, at: nat, width: nat, devices: Devices) {
    && Height(devices) <= |lines|
    && FieldsShown(lines, at, width, devices) && RestShown(lines, at, width, devices)
  }

  ghost predicate LineShows(lines: seq<string>, i: nat, at: nat, width: nat, text: string) {
    i < |lines| && ShownAt(lines[i], at, width, text)
  }

  /** Texts one below the other, from a line of the column on. */
  ghost predicate TextsShown(lines: seq<string>, top: nat, at: nat, width: nat, texts: seq<string>) {
    forall f :: 0 <= f < |texts| ==> LineShows(lines, top + f, at, width, texts[f])
  }

  ghost predicate Reads(row: ClientRow, texts: seq<string>) {
    |row| == |texts| && forall f :: 0 <= f < |row| ==> FieldText(row[f]) == texts[f]
  }

  /** A device's fields stand one below the other. */
  lemma RowIsShown(lines: seq<string>, at: nat, width: nat, devices: Devices, d: nat, texts: seq<string>)
    requires FieldsShown(lines, at, width, devices) && d < |devices| && Reads(devices[d].1, texts)
    ensures TextsShown(lines, Depth(devices[..d]), at, width, texts)
  {
    var top := Depth(devices[..d]);
    forall f | 0 <= f < |texts| ensures LineShows(lines, top + f, at, width, texts[f]) {
      assert StandsOn(devices, d, f, top + f);
      assert FieldText(devices[d].1[f]) == texts[f];
    }
  }

  ghost predicate WidthsAre(rows: Rows, widths: seq<nat>) {
    |widths| == |rows| && forall c :: 0 <= c < |rows| ==> IsWidth(rows[c].0, rows[c].1, widths[c])
  }

  /** The whole screen: names, rules, columns; as many lines as the longest column needs. */
  ghost predicate ScreenShows(rows: Rows, widths: seq<nat>, lines: seq<string>) {
    && WidthsAre(rows, widths) && |lines| >= 2
    && (forall i :: 0 <= i < |lines| ==> |lines[i]| == Offset(widths, |widths|))
    && (forall c :: 0 <= c < |rows| ==>
          && ShownAt(lines[0], Offset(widths, c), widths[c], rows[c].0)
          && RuledAt(lines[1], Offset(widths, c), widths[c])
          && ColumnShown(lines[2..], Offset(widths, c), widths[c], rows[c].1))
    && exists c :: 0 <= c < |rows| && |lines| == 2 + Height(rows[c].1)
  }

  lemma {:induction false} ColumnOf(rows: Rows, c: nat)
    requires c < |rows|
    ensures Columns(rows)[c] == Column(rows[c].0, Fields(rows[c].1))
  {
    var n := |rows| - 1;
    if c < n { ColumnOf(rows[..n], c); }
  }

  lemma {:induction false} LongestColumn(cols: seq<Column>) returns (longest: nat)
    requires cols != []
    ensures longest < |cols| && |cols[longest].fields| == MaxRows(cols)
    ensures forall c :: 0 <= c < |cols| ==> |cols[c].fields| <= MaxRows(cols)
  {
    var n := |cols| - 1;
    longest := n;
    if n > 0 {
      var before := LongestColumn(cols[..n]);
      assert forall c :: 0 <= c < n ==> cols[..n][c] == cols[c];
      if |cols[n].fields| < MaxRows(cols[..n]) { longest := before; }
    }
  }

  lemma DataCell(cols: seq<Column>, c: nat, i: nat, text: string)
    requires c < |cols|
    requires text == if i < |cols[c].fields| then FieldText(cols[c].fields[i]) else ""
    ensures ShownAt(Line(cols, DataLine(i)), Offset(Widths(cols), c), Widths(cols)[c], text)
  {
    CellsFit(cols[c], DataLine(i));
    assert Cell(cols[c], i) == text;
    CellIsShown(cols, c, DataLine(i), text);
  }

  lemma ColumnIsShown(rows: Rows, c: nat)
    requires c < |rows|
    ensures var cols := Columns(rows);
            ColumnShown(DataLines(cols, MaxRows(cols)), Offset(Widths(cols), c), Widths(cols)[c], rows[c].1)
  {
    var cols, devices := Columns(rows), rows[c].1;
    var lines, at, width := DataLines(cols, MaxRows(cols)), Offset(Widths(cols), c), Widths(cols)[c];
    ColumnOf(rows, c);
    var _ := LongestColumn(cols);
    FieldsLayout(devices);
    forall d, f, i | StandsOn(devices, d, f, i) ensures i < |lines| && ShownAt(lines[i], at, width, FieldText(devices[d].1[f])) {
      DataCell(cols, c, i, FieldText(devices[d].1[f]));
    }
    forall i | 0 <= i < |lines| && forall d, f :: !StandsOn(devices, d, f, i) ensures ShownAt(lines[i], at, width, "") {
      if i < |Fields(devices)| { RestIsBlank(devices, i); }
      DataCell(cols, c, i, "");
    }
  }

  ghost predicate PlainRows(rows: Rows) {
    forall c :: 0 <= c < |rows| ==>
      NoNewline(rows[c].0) && forall d, f :: 0 <= d < |rows[c].1| && 0 <= f < |rows[c].1[d].1| ==>
        NoNewline(rows[c].1[d].1[f].0) && NoNewline(rows[c].1[d].1[f].1)
  }

  lemma PlainRowsPlainColumns(rows: Rows)
    requires PlainRows(rows)
    ensures forall c :: 0 <= c < |rows| ==> PlainColumn(Columns(rows)[c])
  {
    forall c | 0 <= c < |rows| ensures PlainColumn(Columns(rows)[c]) {
      var devices := rows[c].1;
      ColumnOf(rows, c);
      FieldsLayout(devices);
      forall i | 0 <= i < |Fields(devices)| ensures NoNewline(Fields(devices)[i].0) && NoNewline(Fields(devices)[i].1) {
        RestIsBlank(devices, i);
        if d, f :| StandsOn(devices, d, f, i) {
          assert Fields(devices)[i] == devices[d].1[f];
        }
      }
    }
  }

  /**
    Every frame shows every field of every client on its own line in its own
    column, and nothing else: for text without newlines the lines are those
    the frame splits into.
   */
  lemma EveryFieldIsShown(rows: Rows) returns (widths: seq<nat>, lines: seq<string>)
    requires rows != []
    ensures ScreenShows(rows, widths, lines) && Frame(rows) == Join(lines)
    ensures PlainRows(rows) ==> lines == SplitLines(Frame(rows), "")
  {
    var cols := Columns(rows);
    widths, lines := Widths(cols), FrameLines(cols);
    forall c | 0 <= c < |rows| ensures IsWidth(rows[c].0, rows[c].1, widths[c]) {
      ColumnOf(rows, c);
      WidthIsLeast(rows[c].0, rows[c].1);
    }
    LinesShow(rows, lines);
    var longest := LongestOf(rows);
    assert |lines| == 2 + Height(rows[longest].1);
    if PlainRows(rows) {
      PlainRowsPlainColumns(rows);
      FrameRoundTrip(rows);
    }
  }

  lemma LongestOf(rows: Rows) returns (c: nat)
    requires rows != []
    ensures c < |rows| && MaxRows(Columns(rows)) == Height(rows[c].1)
  {
    c := LongestColumn(Columns(rows));
    ColumnOf(rows, c);
    FieldsLayout(rows[c].1);
  }

  lemma LinesShow(rows: Rows, lines: seq<string>)
    requires lines == FrameLines(Columns(rows))
    ensures var widths := Widths(Columns(rows));
            && (forall i :: 0 <= i < |lines| ==> |lines[i]| == Offset(widths, |widths|))
            && forall c :: 0 <= c < |rows| ==>
                 && ShownAt(lines[0], Offset(widths, c), widths[c], rows[c].0)
                 && RuledAt(lines[1], Offset(widths, c), widths[c])
                 && ColumnShown(lines[2..], Offset(widths, c), widths[c], rows[c].1)
  {
    var cols := Columns(rows);
    LinesAreLong(cols, lines);
    assert lines[2..] == DataLines(cols, MaxRows(cols));
    forall c | 0 <= c < |rows|
      ensures ShownAt(lines[0], Offset(Widths(cols), c), Widths(cols)[c], rows[c].0)
      ensures RuledAt(lines[1], Offset(Widths(cols), c), Widths(cols)[c])
      ensures ColumnShown(lines[2..], Offset(Widths(cols), c), Widths(cols)[c], rows[c].1)
    {
      NameIsShown(rows, c);
      DashesRule(cols, c);
      ColumnIsShown(rows, c);
    }
  }

  lemma LinesAreLong(cols: seq<Column>, lines: seq<string>)
    requires lines == FrameLines(cols)
    ensures forall i :: 0 <= i < |lines| ==> |lines[i]| == Offset(Widths(cols), |cols|)
  {
    forall i | 0 <= i < |lines| ensures |lines[i]| == Offset(Widths(cols), |cols|) {
      LineAt(cols, i);
    }
  }

  lemma LineAt(cols: seq<Column>, i: nat)
    requires i < |FrameLines(cols)|
    ensures |FrameLines(cols)[i]| == Offset(Widths(cols), |cols|)
  {
    var kind := if i == 0 then HeaderLine else if i == 1 then DashLine else DataLine(i - 2);
    assert FrameLines(cols)[i] == Line(cols, kind);
    LineRoundTrip(cols, kind);
  }

  lemma NameIsShown(rows: Rows, c: nat)
    requires c < |rows|
    ensures var cols := Columns(rows); ShownAt(Line(cols, HeaderLine), Offset(Widths(cols), c), Widths(cols)[c], rows[c].0)
  {
    ColumnOf(rows, c);
    CellsFit(Columns(rows)[c], HeaderLine);
    CellIsShown(Columns(rows), c, HeaderLine, rows[c].0);
  }
}
