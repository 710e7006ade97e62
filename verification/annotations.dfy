/** The two ways the user changes the coordinate list by hand: deleting one
    entry (`handleCoordinateDelete`) and adding one by clicking the image
    (`handleClick`). */
module Annotations {
  import opened Optional
  import opened Coordinates

  /** A copy of the list with `splice(i, 1)` applied: the entry at `i` is
      removed when there is one; an index past the end removes nothing. */
  function Delete<T>(l: seq<T>, i: nat): (r: seq<T>)
    ensures i < |l| ==> |r| == |l| - 1
    ensures i < |l| ==> forall k :: 0 <= k < i ==> r[k] == l[k]
    ensures i < |l| ==> forall k :: i <= k < |r| ==> r[k] == l[k + 1]
    ensures i >= |l| ==> r == l
  {
    if i < |l| then l[..i] + l[i + 1..] else l
  }

  /** Deleting removes exactly the one entry and keeps every other. */
  lemma DeleteRemovesOne<T>(l: seq<T>, i: nat)
    requires i < |l|
    ensures multiset(Delete(l, i)) + multiset{l[i]} == multiset(l)
  {
    assert l == l[..i] + [l[i]] + l[i + 1..];
  }

  /** JavaScript truthiness of the name the prompt returns: `null` (the
      prompt was cancelled) and the empty string are false. */
  function Truthy(name: Option<string>): (b: bool)
    ensures !b <==> name == None || name == Some("")
  {
    name.Some? && name.value != ""
  }

  /** The list after a click at `(x, y)`: when the name is truthy, the new
      coordinate is appended at the end; otherwise nothing happens. */
  function AddOnClick<N>(l: seq<Coord<N>>, x: N, y: N, name: Option<string>, ty: string): (r: seq<Coord<N>>)
    ensures Truthy(name) ==> |r| == |l| + 1 && r[..|l|] == l
    ensures Truthy(name) ==> r[|l|] == Coord(x, y, name.value, ty)
    ensures !Truthy(name) ==> r == l
  {
    if Truthy(name) then l + [Coord(x, y, name.value, ty)] else l
  }

  /** Deleting the last entry undoes an accepted click. */
  lemma DeleteUndoesAdd<N>(l: seq<Coord<N>>, x: N, y: N, name: Option<string>, ty: string)
    requires Truthy(name)
    ensures Delete(AddOnClick(l, x, y, name, ty), |l|) == l
  {
    assert AddOnClick(l, x, y, name, ty)[..|l|] == l;
  }
}
