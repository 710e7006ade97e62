/** The records the image map keeps: one labelled point per annotation. */
module Coordinates {
  import opened Optional

  /** A saved coordinate as the click handler builds it: a position in
      logical image space, the user's name for it, and its type. The type
      is kept as the raw string the user typed ("accessPoint" or
      "crawling" by convention) because nothing ever checks it.
      `N` is the number type, left abstract. */
  datatype Coord<N> = Coord(x: N, y: N, name: string, ty: string)

  /** A record as the CSV import produces it. Name and type are `None`
      when their column is missing from the header or the row is too short
      to reach it (JavaScript reads `undefined` there). X and Y are always
      numbers: an absent field is read as the text "undefined", which
      `parseFloat` turns into NaN. */
  datatype Parsed<N> = Parsed(x: N, y: N, name: Option<string>, ty: Option<string>)

  /** How numbers become text and back: `show` is the template-literal
      formatting used on export, `read` is `parseFloat` used on import.
      Both are total; a malformed field reads as whatever sentinel `read`
      returns (JavaScript's NaN). */
  datatype NumFormat<!N> = NumFormat(show: N -> string, read: string -> N)

  /** A well-behaved number format: reading back a shown number gives the
      number, and a shown number never contains a comma or a newline. */
  ghost predicate Lawful<N(!new)>(fmt: NumFormat<N>) {
    forall n :: fmt.read(fmt.show(n)) == n && ',' !in fmt.show(n) && '\n' !in fmt.show(n)
  }

  /** What an exported coordinate looks like when it is imported again
      without loss: every field present and equal. */
  function Lift<N>(c: Coord<N>): Parsed<N> {
    Parsed(c.x, c.y, Some(c.name), Some(c.ty))
  }

  /** `Lift` applied to every coordinate, in order. */
  function LiftAll<N>(l: seq<Coord<N>>): seq<Parsed<N>> {
    seq(|l|, i requires 0 <= i < |l| => Lift(l[i]))
  }
}
