/** A worked example: two access-point/crawling markers at whole-number
    positions, exported and imported again with the decimal format. */
module Example {
  import opened Strings
  import opened Coordinates
  import opened Csv
  import Decimal

  function Markers(): seq<Coord<nat>> {
    [Coord(100, 200, "AP1", "accessPoint"), Coord(50, 75, "Node2", "crawling")]
  }

  lemma ShowExamples()
    ensures Decimal.Show(100) == "100" && Decimal.Show(200) == "200"
    ensures Decimal.Show(50) == "50" && Decimal.Show(75) == "75"
  {
    assert Decimal.Show(1) == "1" && Decimal.Show(2) == "2";
    assert Decimal.Show(10) == "10" && Decimal.Show(20) == "20";
    assert Decimal.Show(5) == "5" && Decimal.Show(7) == "7";
  }

  /** The first marker's row. */
  lemma FirstRow()
    ensures Row(Decimal.Format(), Markers()[0]) == "AP1,100,200,accessPoint"
  {
    ShowExamples();
  }

  /** The second marker's row. */
  lemma SecondRow()
    ensures Row(Decimal.Format(), Markers()[1]) == "Node2,50,75,crawling"
  {
    ShowExamples();
  }

  /** The two markers export as one row each, numbers in decimal. */
  lemma ExampleRows()
    ensures Rows(Decimal.Format(), Markers()) == ["AP1,100,200,accessPoint", "Node2,50,75,crawling"]
  {
    FirstRow();
    SecondRow();
  }

  /** Importing their export gives the two markers back. */
  lemma ExampleRoundTrip()
    ensures Parse(Decimal.Format(), Export(Decimal.Format(), Markers())) == LiftAll(Markers())
  {
    Decimal.FormatIsLawful();
    assert Plain("AP1") && Plain("accessPoint") && Plain("Node2") && Plain("crawling");
    RoundTripLawful(Decimal.Format(), Markers());
  }
}
