/** CSV export and import of the coordinate list, as done by
    `coordinatesToCSV` and `parseCSV` in the image map component. No field
    is quoted or escaped on either side. */
module Csv {
  import opened Optional
  import opened Strings
  import opened Coordinates

  /** The header line export writes, without its newline. */
  const HeaderRow: string := "Name,X,Y,Type"

  /** The columns of that header, in export order. */
  const Columns: seq<string> := ["Name", "X", "Y", "Type"]

  /** A field that can be written raw: no comma, no newline. */
  predicate Plain(s: string) {
    ',' !in s && '\n' !in s
  }

  // ---------------------------------------------------------------- export

  /** The four fields of a coordinate as export writes them, in the fixed
      order Name, X, Y, Type. */
  function Fields<N>(fmt: NumFormat<N>, c: Coord<N>): seq<string> {
    [c.name, fmt.show(c.x), fmt.show(c.y), c.ty]
  }

  /** One exported row, `${name},${x},${y},${type}`: the four fields in
      the fixed order Name, X, Y, Type, joined by commas. */
  function Row<N>(fmt: NumFormat<N>, c: Coord<N>): (row: string)
    ensures row == Join(Fields(fmt, c), ',')
  {
    var f := Fields(fmt, c);
    JoinCons(f[2], [f[3]], ',');
    JoinCons(f[1], [f[2], f[3]], ',');
    JoinCons(f[0], [f[1], f[2], f[3]], ',');
    c.name + [','] + fmt.show(c.x) + [','] + fmt.show(c.y) + [','] + c.ty
  }

  /** The rows of a list (the `map` in `coordinatesToCSV`): one per
      coordinate, in list order. */
  function Rows<N>(fmt: NumFormat<N>, l: seq<Coord<N>>): (rows: seq<string>)
    ensures |rows| == |l|
    ensures forall i :: 0 <= i < |l| ==> rows[i] == Row(fmt, l[i])
  {
    seq(|l|, i requires 0 <= i < |l| => Row(fmt, l[i]))
  }

  /** `coordinatesToCSV`: the header line and its newline, then the rows
      joined by newlines. */
  function Export<N>(fmt: NumFormat<N>, l: seq<Coord<N>>): (csv: string)
    ensures |csv| > |HeaderRow| && csv[..|HeaderRow| + 1] == "Name,X,Y,Type\n"
  {
    HeaderRow + "\n" + Join(Rows(fmt, l), '\n')
  }

  /** A row is exactly its four fields joined by commas: splitting it on
      commas gives back Name, X, Y, Type when no field holds a comma. */
  lemma RowFields<N>(fmt: NumFormat<N>, c: Coord<N>)
    requires ',' !in c.name && ',' !in c.ty
    requires ',' !in fmt.show(c.x) && ',' !in fmt.show(c.y)
    ensures Split(Row(fmt, c), ',') == Fields(fmt, c)
  {
    SplitJoin(Fields(fmt, c), ',');
  }

  /** The lines of an export: the header, then exactly one line per
      coordinate in list order, with no trailing newline. The empty list
      still ends in the header's newline, which leaves one empty line. */
  lemma ExportLines<N>(fmt: NumFormat<N>, l: seq<Coord<N>>)
    requires forall i :: 0 <= i < |l| ==> '\n' !in Row(fmt, l[i])
    ensures |l| == 0 ==> Split(Export(fmt, l), '\n') == [HeaderRow, ""]
    ensures |l| > 0 ==> Split(Export(fmt, l), '\n') == [HeaderRow] + Rows(fmt, l)
  {
    assert '\n' !in HeaderRow;
    var rows := Rows(fmt, l);
    if |l| == 0 {
      SplitAtFirst(HeaderRow, "", '\n');
      SplitNoSeparator("", '\n');
    } else {
      JoinCons(HeaderRow, rows, '\n');
      assert Export(fmt, l) == Join([HeaderRow] + rows, '\n');
      SplitJoin([HeaderRow] + rows, '\n');
    }
  }

  // ---------------------------------------------------------------- import

  /** `values[header.indexOf(col)]`: the field under the first header
      column named `col`, or `None` when there is no such column or the
      row is too short to reach it. */
  function Field<T>(header: seq<string>, values: seq<T>, col: string): (r: Option<T>)
    ensures col !in header ==> r == None
    ensures forall j :: FirstIndex(header, col, j) ==>
              r == (if j < |values| then Some(values[j]) else None)
  {
    var j := IndexOf(header, col);
    IndexOfIsFirst(header, col);
    if 0 <= j < |values| then Some(values[j]) else None
  }

  /** The text `parseFloat` sees for a field: the field itself, or
      "undefined" when the field is absent, because `parseFloat` first
      converts its argument to a string. */
  function NumberText(v: Option<string>): string {
    match v
    case Some(s) => s
    case None => "undefined"
  }

  /** The record one row's fields give under a header: X and Y go through
      the number reader, Name and Type are kept as they are. A column
      missing from the header gives an absent name or type, and a number
      read from the text "undefined" (NaN in JavaScript) for X or Y. */
  function Record<N>(fmt: NumFormat<N>, header: seq<string>, values: seq<string>): (p: Parsed<N>)
    ensures "X" !in header ==> p.x == fmt.read("undefined")
    ensures "Y" !in header ==> p.y == fmt.read("undefined")
    ensures "Name" !in header ==> p.name == None
    ensures "Type" !in header ==> p.ty == None
    ensures forall j :: FirstIndex(header, "X", j) && j < |values| ==> p.x == fmt.read(values[j])
    ensures forall j :: FirstIndex(header, "Y", j) && j < |values| ==> p.y == fmt.read(values[j])
    ensures forall j :: FirstIndex(header, "Name", j) && j < |values| ==> p.name == Some(values[j])
    ensures forall j :: FirstIndex(header, "Type", j) && j < |values| ==> p.ty == Some(values[j])
    ensures forall j :: FirstIndex(header, "X", j) && j >= |values| ==> p.x == fmt.read("undefined")
    ensures forall j :: FirstIndex(header, "Y", j) && j >= |values| ==> p.y == fmt.read("undefined")
    ensures forall j :: FirstIndex(header, "Name", j) && j >= |values| ==> p.name == None
    ensures forall j :: FirstIndex(header, "Type", j) && j >= |values| ==> p.ty == None
  {
    Parsed(fmt.read(NumberText(Field(header, values, "X"))),
           fmt.read(NumberText(Field(header, values, "Y"))),
           Field(header, values, "Name"),
           Field(header, values, "Type"))
  }

  /** The header columns of a CSV text: its first line split on commas. */
  function HeaderOf(csv: string): seq<string> {
    Split(Split(csv, '\n')[0], ',')
  }

  /** `parseCSV`: every line after the first, split on commas, becomes one
      record whose fields are found by their column's position in the
      header. */
  function Parse<N>(fmt: NumFormat<N>, csv: string): (records: seq<Parsed<N>>)
    ensures |records| == Count(csv, '\n')
  {
    var lines := Split(csv, '\n');
    var header := Split(lines[0], ',');
    SplitCount(csv, '\n');
    seq(|lines| - 1, i requires 0 <= i < |lines| - 1 => Record(fmt, header, Split(lines[i + 1], ',')))
  }

  /** What `Parse` computes, one record at a time. */
  lemma ParseLines<N>(fmt: NumFormat<N>, csv: string)
    ensures |Parse(fmt, csv)| == |Split(csv, '\n')| - 1
    ensures forall i :: 0 <= i < |Parse(fmt, csv)| ==>
              Parse(fmt, csv)[i] == Record(fmt, HeaderOf(csv), Split(Split(csv, '\n')[i + 1], ','))
  {
    var lines := Split(csv, '\n');
    assert Parse(fmt, csv)
        == seq(|lines| - 1, i requires 0 <= i < |lines| - 1 => Record(fmt, HeaderOf(csv), Split(lines[i + 1], ',')));
  }

  /** Import never fails on a missing column: in every record that name
      or type is absent, and that number is read from "undefined". */
  lemma MissingColumn<N>(fmt: NumFormat<N>, csv: string)
    ensures forall i :: 0 <= i < |Parse(fmt, csv)| ==>
              && ("X" !in HeaderOf(csv) ==> Parse(fmt, csv)[i].x == fmt.read("undefined"))
              && ("Y" !in HeaderOf(csv) ==> Parse(fmt, csv)[i].y == fmt.read("undefined"))
              && ("Name" !in HeaderOf(csv) ==> Parse(fmt, csv)[i].name == None)
              && ("Type" !in HeaderOf(csv) ==> Parse(fmt, csv)[i].ty == None)
  {
    var r := Parse(fmt, csv);
    var lines := Split(csv, '\n');
    ParseLines(fmt, csv);
    forall i | 0 <= i < |r|
      ensures && ("X" !in HeaderOf(csv) ==> r[i].x == fmt.read("undefined"))
              && ("Y" !in HeaderOf(csv) ==> r[i].y == fmt.read("undefined"))
              && ("Name" !in HeaderOf(csv) ==> r[i].name == None)
              && ("Type" !in HeaderOf(csv) ==> r[i].ty == None)
    {
    }
  }

  // ------------------------------------------------------------ round trip

  /** A coordinate that survives export and import: its name, type and
      shown numbers are plain, and reading a shown number gives it back. */
  ghost predicate Exportable<N>(fmt: NumFormat<N>, c: Coord<N>) {
    && Plain(c.name) && Plain(c.ty)
    && Plain(fmt.show(c.x)) && Plain(fmt.show(c.y))
    && fmt.read(fmt.show(c.x)) == c.x && fmt.read(fmt.show(c.y)) == c.y
  }

  /** The exported header line is the columns joined by commas. */
  lemma HeaderIsColumns()
    ensures Split(HeaderRow, ',') == Columns
  {
    assert Join(Columns, ',') == HeaderRow by {
      JoinCons("Y", ["Type"], ',');
      JoinCons("X", ["Y", "Type"], ',');
      JoinCons("Name", ["X", "Y", "Type"], ',');
    }
    SplitJoin(Columns, ',');
  }

  /** Each column name occurs once in the exported header. */
  lemma ColumnPositions()
    ensures FirstIndex(Columns, "Name", 0) && FirstIndex(Columns, "X", 1)
    ensures FirstIndex(Columns, "Y", 2) && FirstIndex(Columns, "Type", 3)
  {
    assert Columns[..1] == ["Name"];
    assert Columns[..2] == ["Name", "X"];
    assert Columns[..3] == ["Name", "X", "Y"];
  }

  /** Under the exported header, an exported row reads back as the
      coordinate it came from. */
  lemma RecordOfRow<N>(fmt: NumFormat<N>, c: Coord<N>)
    requires Exportable(fmt, c)
    ensures Record(fmt, Columns, Split(Row(fmt, c), ',')) == Lift(c)
  {
    ColumnPositions();
    RowFields(fmt, c);
  }

  /** Parsing text whose lines are a header line and data lines gives
      one record per data line, looked up under the header's columns. */
  lemma ParseOfLines<N>(fmt: NumFormat<N>, csv: string, header: string, rows: seq<string>)
    requires Split(csv, '\n') == [header] + rows
    ensures |Parse(fmt, csv)| == |rows|
    ensures forall i :: 0 <= i < |rows| ==>
              Parse(fmt, csv)[i] == Record(fmt, Split(header, ','), Split(rows[i], ','))
  {
    var r := Parse(fmt, csv);
    ParseLines(fmt, csv);
    forall i | 0 <= i < |rows|
      ensures r[i] == Record(fmt, Split(header, ','), Split(rows[i], ','))
    {
      assert Split(csv, '\n')[i + 1] == rows[i];
    }
  }

  /** An exportable coordinate's row holds no newline. */
  lemma RowHasNoNewline<N>(fmt: NumFormat<N>, c: Coord<N>)
    requires Exportable(fmt, c)
    ensures '\n' !in Row(fmt, c)
  {
  }

  /** Importing an export gives one record per coordinate, each read from
      that coordinate's row under the exported header. */
  lemma ImportOfExport<N>(fmt: NumFormat<N>, l: seq<Coord<N>>)
    requires |l| > 0
    requires forall i :: 0 <= i < |l| ==> '\n' !in Row(fmt, l[i])
    ensures |Parse(fmt, Export(fmt, l))| == |l|
    ensures forall i :: 0 <= i < |l| ==>
              Parse(fmt, Export(fmt, l))[i] == Record(fmt, Columns, Split(Row(fmt, l[i]), ','))
  {
    ExportLines(fmt, l);
    ParseOfLines(fmt, Export(fmt, l), HeaderRow, Rows(fmt, l));
    HeaderIsColumns();
  }

  /** Round trip: importing the export of a non-empty list whose fields
      are plain gives back the list, in order, every field present. */
  lemma RoundTrip<N>(fmt: NumFormat<N>, l: seq<Coord<N>>)
    requires |l| > 0
    requires forall i :: 0 <= i < |l| ==> Exportable(fmt, l[i])
    ensures Parse(fmt, Export(fmt, l)) == LiftAll(l)
  {
    forall i | 0 <= i < |l|
      ensures '\n' !in Row(fmt, l[i])
    {
      RowHasNoNewline(fmt, l[i]);
    }
    ImportOfExport(fmt, l);
    var r := Parse(fmt, Export(fmt, l));
    forall i | 0 <= i < |l|
      ensures r[i] == LiftAll(l)[i]
    {
      RecordOfRow(fmt, l[i]);
    }
  }

  /** The round trip under a well-behaved number format: then only names
      and types need to be free of commas and newlines. */
  lemma RoundTripLawful<N(!new)>(fmt: NumFormat<N>, l: seq<Coord<N>>)
    requires Lawful(fmt)
    requires |l| > 0
    requires forall i :: 0 <= i < |l| ==> Plain(l[i].name) && Plain(l[i].ty)
    ensures Parse(fmt, Export(fmt, l)) == LiftAll(l)
  {
    forall i | 0 <= i < |l|
      ensures Exportable(fmt, l[i])
    {
      var c := l[i];
      assert fmt.read(fmt.show(c.x)) == c.x && ',' !in fmt.show(c.x) && '\n' !in fmt.show(c.x);
      assert fmt.read(fmt.show(c.y)) == c.y && ',' !in fmt.show(c.y) && '\n' !in fmt.show(c.y);
    }
    RoundTrip(fmt, l);
  }

  /** Under the exported header, an empty line gives an empty name, no
      type, and X and Y read from "undefined" (NaN in JavaScript). */
  lemma RecordOfEmptyLine<N>(fmt: NumFormat<N>)
    ensures Record(fmt, Columns, Split("", ',')) == Parsed(fmt.read("undefined"), fmt.read("undefined"), Some(""), None)
  {
    ColumnPositions();
    SplitNoSeparator("", ',');
  }

  /** The empty list exports as the bare header line with its newline. */
  lemma EmptyExportText<N>(fmt: NumFormat<N>)
    ensures Export(fmt, []) == "Name,X,Y,Type\n"
  {
    assert Join(Rows(fmt, []), '\n') == "";
  }

  /** The empty list does not round-trip: importing its export yields one
      record read from the empty last line: an empty name, no type, and X
      and Y read from "undefined". */
  lemma EmptyExport<N>(fmt: NumFormat<N>)
    ensures Parse(fmt, Export(fmt, [])) == [Parsed(fmt.read("undefined"), fmt.read("undefined"), Some(""), None)]
  {
    var csv := Export(fmt, []);
    ExportLines(fmt, []);
    assert Split(csv, '\n') == [HeaderRow] + [""];
    ParseOfLines(fmt, csv, HeaderRow, [""]);
    HeaderIsColumns();
    RecordOfEmptyLine(fmt);
    var r := Parse(fmt, csv);
    assert |r| == 1;
    assert r[0] == Parsed(fmt.read("undefined"), fmt.read("undefined"), Some(""), None);
  }
}
