/** Import finds every field by its column's position in the header, so
    the order of the columns in an imported file does not matter as long
    as every row is as long as the header and Name, X, Y and Type each
    occur at most once. */
module HeaderOrder {
  import opened Optional
  import opened Strings
  import opened Coordinates
  import opened Csv

  /** `p` lists every position `0 .. n-1` exactly once. */
  ghost predicate IsPermutation(p: seq<nat>, n: nat) {
    && |p| == n
    && (forall i :: 0 <= i < n ==> p[i] < n)
    && (forall i, j :: 0 <= i < j < n ==> p[i] != p[j])
    && (forall k :: 0 <= k < n ==> k in p)
  }

  /** `x` occurs at most once in `xs`. */
  ghost predicate AtMostOnce(xs: seq<string>, x: string) {
    forall i, j :: 0 <= i < j < |xs| && xs[i] == x ==> xs[j] != x
  }

  /** None of the columns import looks up occurs twice in the header;
      other column names may repeat. */
  ghost predicate LookupsUnique(header: seq<string>) {
    forall k :: 0 <= k < |Columns| ==> AtMostOnce(header, Columns[k])
  }

  /** Rearranges `xs` so that position `i` holds `xs[p[i]]`. */
  function Permute<T>(xs: seq<T>, p: seq<nat>): seq<T>
    requires forall i :: 0 <= i < |p| ==> p[i] < |xs|
  {
    seq(|p|, i requires 0 <= i < |p| => xs[p[i]])
  }

  /** A text table: a header line and one line per row, fields joined by
      commas, lines joined by newlines. */
  function Table(header: seq<string>, rows: seq<seq<string>>): string {
    Join([Join(header, ',')] + seq(|rows|, r requires 0 <= r < |rows| => Join(rows[r], ',')), '\n')
  }

  /** Every row rearranged by the same `p`. */
  function PermuteRows(rows: seq<seq<string>>, p: seq<nat>): seq<seq<string>>
    requires forall r, i :: 0 <= r < |rows| && 0 <= i < |p| ==> p[i] < |rows[r]|
  {
    seq(|rows|, r requires 0 <= r < |rows| => Permute(rows[r], p))
  }

  /** A table that can be written raw: a non-empty header, non-empty
      rows, and no comma or newline in any name or field. */
  ghost predicate PlainTable(header: seq<string>, rows: seq<seq<string>>) {
    && |header| > 0
    && (forall j :: 0 <= j < |header| ==> Plain(header[j]))
    && (forall r :: 0 <= r < |rows| ==> |rows[r]| > 0)
    && (forall r, j :: 0 <= r < |rows| && 0 <= j < |rows[r]| ==> Plain(rows[r][j]))
  }

  /** A well-formed table: plain, with each looked-up column named at most
      once, and every row exactly as long as the header. */
  ghost predicate WellFormed(header: seq<string>, rows: seq<seq<string>>) {
    && PlainTable(header, rows)
    && LookupsUnique(header)
    && (forall r :: 0 <= r < |rows| ==> |rows[r]| == |header|)
  }

  /** Rearranging a well-formed table keeps it plain. */
  lemma PermutedIsPlain(header: seq<string>, rows: seq<seq<string>>, p: seq<nat>)
    requires WellFormed(header, rows)
    requires IsPermutation(p, |header|)
    ensures PlainTable(Permute(header, p), PermuteRows(rows, p))
  {
    var rows' := PermuteRows(rows, p);
    forall r, j | 0 <= r < |rows'| && 0 <= j < |rows'[r]|
      ensures Plain(rows'[r][j])
    {
      assert rows'[r][j] == rows[r][p[j]];
    }
  }

  /** Looking a column up after rearranging both the header and the row by
      the same permutation finds the same field. */
  lemma FieldPermuted<T>(header: seq<string>, values: seq<T>, p: seq<nat>, col: string)
    requires |values| == |header|
    requires AtMostOnce(header, col)
    requires IsPermutation(p, |header|)
    ensures Field(Permute(header, p), Permute(values, p), col) == Field(header, values, col)
  {
    var h' := Permute(header, p);
    var v' := Permute(values, p);
    if col in header {
      var k := IndexOf(header, col);
      assert k in p;
      var i :| 0 <= i < |p| && p[i] == k;
      assert h'[i] == col;
      var j := IndexOf(h', col);
      assert header[p[j]] == col;
      assert p[j] == k;
      IndexOfIsFirst(h', col);
      IndexOfIsFirst(header, col);
    } else {
      assert col !in h';
    }
  }

  /** A row's record does not change when the header and the row are
      rearranged by the same permutation. */
  lemma RecordPermuted<N>(fmt: NumFormat<N>, header: seq<string>, values: seq<string>, p: seq<nat>)
    requires |values| == |header|
    requires LookupsUnique(header)
    requires IsPermutation(p, |header|)
    ensures Record(fmt, Permute(header, p), Permute(values, p)) == Record(fmt, header, values)
  {
    assert Columns[0] == "Name" && Columns[1] == "X" && Columns[2] == "Y" && Columns[3] == "Type";
    FieldPermuted(header, values, p, "X");
    FieldPermuted(header, values, p, "Y");
    FieldPermuted(header, values, p, "Name");
    FieldPermuted(header, values, p, "Type");
  }

  /** Importing a table gives one record per row, each looked up under
      the table's header. */
  lemma ParseTable<N>(fmt: NumFormat<N>, header: seq<string>, rows: seq<seq<string>>)
    requires PlainTable(header, rows)
    ensures |Parse(fmt, Table(header, rows))| == |rows|
    ensures forall r :: 0 <= r < |rows| ==> Parse(fmt, Table(header, rows))[r] == Record(fmt, header, rows[r])
  {
    var lines := seq(|rows|, r requires 0 <= r < |rows| => Join(rows[r], ','));
    var h := Join(header, ',');
    JoinFree(header, ',', '\n');
    SplitJoin(header, ',');
    forall r | 0 <= r < |rows|
      ensures '\n' !in lines[r] && Split(lines[r], ',') == rows[r]
    {
      JoinFree(rows[r], ',', '\n');
      SplitJoin(rows[r], ',');
    }
    SplitJoin([h] + lines, '\n');
    ParseOfLines(fmt, Table(header, rows), h, lines);
  }

  /** Header-order independence: rearranging the header columns and every
      row's fields by the same permutation imports to the same records. */
  lemma HeaderOrderIndependent<N>(fmt: NumFormat<N>, header: seq<string>, rows: seq<seq<string>>, p: seq<nat>)
    requires WellFormed(header, rows)
    requires IsPermutation(p, |header|)
    ensures Parse(fmt, Table(Permute(header, p), PermuteRows(rows, p))) == Parse(fmt, Table(header, rows))
  {
    var header' := Permute(header, p);
    var rows' := PermuteRows(rows, p);
    PermutedIsPlain(header, rows, p);
    ParseTable(fmt, header, rows);
    ParseTable(fmt, header', rows');
    var before := Parse(fmt, Table(header, rows));
    var after := Parse(fmt, Table(header', rows'));
    assert |after| == |before|;
    forall r | 0 <= r < |rows|
      ensures after[r] == before[r]
    {
      RecordPermuted(fmt, header, rows[r], p);
    }
  }

  /** A text that is one header line and its newline imports as the
      single record of the empty last line. */
  lemma HeaderLineOnly<N>(fmt: NumFormat<N>, h: string)
    requires '\n' !in h
    ensures Parse(fmt, h + "\n") == [Record(fmt, Split(h, ','), [""])]
  {
    assert h + "\n" == h + ['\n'] + "";
    SplitNoSeparator("", '\n');
    SplitNoSeparator("", ',');
    SplitAtFirst(h, "", '\n');
    ParseLines(fmt, h + "\n");
  }

  /** A two-column header line and its newline import as the single
      record of the empty last line. */
  lemma TwoColumnsOnly<N>(fmt: NumFormat<N>, a: string, b: string)
    requires ',' !in a && ',' !in b && '\n' !in a && '\n' !in b
    ensures Parse(fmt, a + [','] + b + "\n") == [Record(fmt, [a, b], [""])]
  {
    SplitNoSeparator(b, ',');
    SplitAtFirst(a, b, ',');
    HeaderLineOnly(fmt, a + [','] + b);
  }

  /** Under `Name,X`, the empty last line has the empty string as name. */
  lemma ShortRowNamed<N>(fmt: NumFormat<N>)
    ensures Parse(fmt, "Name,X\n")[0].name == Some("")
  {
    assert "Name,X\n" == "Name" + [','] + "X" + "\n";
    TwoColumnsOnly(fmt, "Name", "X");
    assert FirstIndex(["Name", "X"], "Name", 0);
  }

  /** Under `X,Name`, the same empty last line has no name. */
  lemma ShortRowUnnamed<N>(fmt: NumFormat<N>)
    ensures Parse(fmt, "X,Name\n")[0].name == None
  {
    assert "X,Name\n" == "X" + [','] + "Name" + "\n";
    TwoColumnsOnly(fmt, "X", "Name");
    assert ["X", "Name"][..1] == ["X"];
    assert FirstIndex(["X", "Name"], "Name", 1);
  }

  /** Order does matter for a row shorter than the header, such as the
      empty last line of a text that ends in a newline: under `Name,X` its
      name is the empty string, under `X,Name` it is absent. So the
      full-length rows of `WellFormed` are needed. */
  lemma ShortRowDependsOnOrder<N>(fmt: NumFormat<N>)
    ensures Parse(fmt, "Name,X\n")[0].name != Parse(fmt, "X,Name\n")[0].name
  {
    ShortRowNamed(fmt);
    ShortRowUnnamed(fmt);
  }
}
