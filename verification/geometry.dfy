/** The mapping between where the mouse is on the rendered image and the
    fixed logical image space, idealised over the reals (the source uses
    floating point). */
module Geometry {

  /** The logical image size. */
  const ImageWidth: real := 3122.0
  const ImageHeight: real := 1944.0

  /** The on-screen box the image occupies, as `getBoundingClientRect`
      reports it. */
  datatype Rect = Rect(left: real, top: real, width: real, height: real)

  /** A non-degenerate box: positive width and height. */
  predicate Visible(rect: Rect) {
    rect.width > 0.0 && rect.height > 0.0
  }

  /** One axis of the click mapping: the offset into the box, scaled from
      the rendered extent to the logical extent. The box's near edge maps
      to 0, its far edge to the logical extent, and anything between them
      into that range. */
  function Scale(client: real, origin: real, extent: real, logical: real): (v: real)
    requires extent > 0.0
    ensures client == origin ==> v == 0.0
    ensures client == origin + extent ==> v == logical
    ensures logical >= 0.0 && origin <= client <= origin + extent ==> 0.0 <= v <= logical
  {
    var f := logical / extent;
    assert extent * f == logical;
    assert logical >= 0.0 && origin <= client <= origin + extent ==> (client - origin) * f <= extent * f;
    (client - origin) * f
  }

  /** The logical position of a click at `(clientX, clientY)`. A click
      inside the box lands inside the logical image. */
  function ToLogical(rect: Rect, clientX: real, clientY: real): (p: (real, real))
    requires Visible(rect)
    ensures rect.left <= clientX <= rect.left + rect.width ==> 0.0 <= p.0 <= ImageWidth
    ensures rect.top <= clientY <= rect.top + rect.height ==> 0.0 <= p.1 <= ImageHeight
  {
    (Scale(clientX, rect.left, rect.width, ImageWidth),
     Scale(clientY, rect.top, rect.height, ImageHeight))
  }

  /** Where a marker is drawn: its logical position as a percentage of the
      logical size. Positions inside the logical image give offsets from
      0 to 100 percent. */
  function ToPercent(v: real, logical: real): (pct: real)
    requires logical > 0.0
    ensures 0.0 <= v <= logical ==> 0.0 <= pct <= 100.0
    ensures v == logical ==> pct == 100.0
  {
    assert 0.0 <= v <= logical ==> v / logical <= 1.0;
    v / logical * 100.0
  }

  /** The box's top-left corner maps to the logical origin and its
      bottom-right corner to the far logical corner. */
  lemma CornersMap(rect: Rect)
    requires Visible(rect)
    ensures ToLogical(rect, rect.left, rect.top) == (0.0, 0.0)
    ensures ToLogical(rect, rect.left + rect.width, rect.top + rect.height) == (ImageWidth, ImageHeight)
  {
    assert Scale(rect.left + rect.width, rect.left, rect.width, ImageWidth) == ImageWidth;
    assert Scale(rect.top + rect.height, rect.top, rect.height, ImageHeight) == ImageHeight;
  }

  /** A marker's percentage offset is the click's relative offset in the
      image box. */
  lemma MarkerAtClick(rect: Rect, clientX: real, clientY: real)
    requires Visible(rect)
    ensures ToPercent(ToLogical(rect, clientX, clientY).0, ImageWidth)
            == (clientX - rect.left) / rect.width * 100.0
    ensures ToPercent(ToLogical(rect, clientX, clientY).1, ImageHeight)
            == (clientY - rect.top) / rect.height * 100.0
  {
  }
}
