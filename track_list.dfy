/** Drag-and-drop reordering of the open playlist (`TrackList.tsx` `handleDragEnd` and the
    `arrayMove` it relies on). */
module TrackList {
  import opened Wrappers
  import opened Entities

  /** `tracks.findIndex((t) => t.absolutePath === id)`: the first index of a track with that
      path, or -1. */
  function FindIndex(tracks: seq<Track>, id: string): (r: int)
    ensures -1 <= r < |tracks|
    ensures r == -1 <==> forall i :: 0 <= i < |tracks| ==> tracks[i].absolutePath != id
    ensures r >= 0 ==> tracks[r].absolutePath == id &&
                       forall i :: 0 <= i < r ==> tracks[i].absolutePath != id
    decreases |tracks|
  {
    if |tracks| == 0 then -1
    else if tracks[0].absolutePath == id then 0
    else
      var r := FindIndex(tracks[1..], id);
      if r == -1 then -1 else r + 1
  }

  /** The list without its element at `i`. */
  function RemoveAt<T>(xs: seq<T>, i: nat): (r: seq<T>)
    requires i < |xs|
    ensures |r| == |xs| - 1
  {
    xs[..i] + xs[i + 1..]
  }

  /** `arrayMove(xs, from, to)`: the element at `from` taken out and put back at index `to`. */
  function ArrayMove<T>(xs: seq<T>, from: nat, to: nat): (r: seq<T>)
    requires from < |xs| && to < |xs|
    ensures |r| == |xs|
  {
    var rest := RemoveAt(xs, from);
    rest[..to] + [xs[from]] + rest[to..]
  }

  /** The moved element lands at `to`, and taking it out again leaves the other elements in
      their old relative order. */
  lemma ArrayMoveLands<T>(xs: seq<T>, from: nat, to: nat)
    requires from < |xs| && to < |xs|
    ensures ArrayMove(xs, from, to)[to] == xs[from]
    ensures RemoveAt(ArrayMove(xs, from, to), to) == RemoveAt(xs, from)
  {
    var rest := RemoveAt(xs, from);
    var r := ArrayMove(xs, from, to);
    assert r[..to] == rest[..to];
    assert r[to + 1..] == rest[to..];
  }

  /** A move is a permutation. */
  lemma ArrayMovePermutes<T>(xs: seq<T>, from: nat, to: nat)
    requires from < |xs| && to < |xs|
    ensures multiset(ArrayMove(xs, from, to)) == multiset(xs)
  {
    var rest := RemoveAt(xs, from);
    assert xs == xs[..from] + [xs[from]] + xs[from + 1..];
    assert multiset(xs) == multiset(rest) + multiset{xs[from]};
    assert rest == rest[..to] + rest[to..];
    var r := ArrayMove(xs, from, to);
    assert multiset(r) == multiset(rest[..to]) + multiset{xs[from]} + multiset(rest[to..]);
  }

  /** Elements outside the range between `from` and `to` stay where they were; those inside
      shift by one towards the vacated place. */
  lemma ArrayMovePositions<T>(xs: seq<T>, from: nat, to: nat)
    requires from < |xs| && to < |xs|
    ensures forall i :: 0 <= i < |xs| && i < from && i < to ==> ArrayMove(xs, from, to)[i] == xs[i]
    ensures forall i :: 0 <= i < |xs| && i > from && i > to ==> ArrayMove(xs, from, to)[i] == xs[i]
    ensures forall i :: from <= i < to ==> ArrayMove(xs, from, to)[i] == xs[i + 1]
    ensures forall i :: to < i <= from ==> ArrayMove(xs, from, to)[i] == xs[i - 1]
  {
    var rest := RemoveAt(xs, from);
    var r := ArrayMove(xs, from, to);
    assert forall i :: 0 <= i < from ==> rest[i] == xs[i];
    assert forall i :: from <= i < |rest| ==> rest[i] == xs[i + 1];
    assert forall i :: 0 <= i < to ==> r[i] == rest[i];
    assert forall i :: to < i < |r| ==> r[i] == rest[i - 1];
  }

  /** Moving an element onto its own place changes nothing. */
  lemma ArrayMoveInPlace<T>(xs: seq<T>, i: nat)
    requires i < |xs|
    ensures ArrayMove(xs, i, i) == xs
  {
    assert xs == xs[..i] + [xs[i]] + xs[i + 1..];
  }

  /** `handleDragEnd`: with a drop target different from the dragged row, the dragged track is
      moved to the target's index and the new list goes to `reorderTracks`; otherwise nothing is
      reordered (`None`). Both ids are the paths of rendered rows, so both are in the list. */
  function HandleDragEnd(tracks: seq<Track>, active: string, over: Option<string>)
    : (r: Option<seq<Track>>)
    requires exists i :: 0 <= i < |tracks| && tracks[i].absolutePath == active
    requires over.Some? ==> exists i :: 0 <= i < |tracks| && tracks[i].absolutePath == over.value
    ensures r.None? <==> over.None? || over.value == active
    ensures r.Some? ==> |r.value| == |tracks| && multiset(r.value) == multiset(tracks)
    ensures r.Some? ==> r.value[FindIndex(tracks, over.value)] == tracks[FindIndex(tracks, active)]
    ensures r.Some? ==> RemoveAt(r.value, FindIndex(tracks, over.value))
                        == RemoveAt(tracks, FindIndex(tracks, active))
  {
    if over.Some? && active != over.value then
      var from := FindIndex(tracks, active);
      var to := FindIndex(tracks, over.value);
      ArrayMovePermutes(tracks, from, to);
      ArrayMoveLands(tracks, from, to);
      Some(ArrayMove(tracks, from, to))
    else None
  }
}
