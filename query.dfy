/** `Model.findOne(filter)` over a collection kept in natural (insertion)
    order: the first document that matches. */
module Query {

  import opened Wrappers

  function FindFirst<T>(xs: seq<T>, matches: T -> bool): (r: Option<nat>)
    ensures r.Some? ==> r.value < |xs| && matches(xs[r.value])
    ensures r.Some? ==> forall j :: 0 <= j < r.value ==> !matches(xs[j])
    ensures r.None? <==> forall j :: 0 <= j < |xs| ==> !matches(xs[j])
  {
    if xs == [] then None
    else if matches(xs[0]) then Some(0)
    else
      match FindFirst(xs[1..], matches)
      case None => None
      case Some(k) => Some(k + 1)
  }

  /** The first match is the one with no match before it. */
  lemma FindFirstIs<T>(xs: seq<T>, matches: T -> bool, i: nat)
    requires i < |xs| && matches(xs[i])
    requires forall j :: 0 <= j < i ==> !matches(xs[j])
    ensures FindFirst(xs, matches) == Some(i)
  {
    assert FindFirst(xs, matches).Some?;
  }

  /** `deleteOne`: the collection without the element at `i`. */
  function RemoveAt<T>(xs: seq<T>, i: nat): (r: seq<T>)
    requires i < |xs|
    ensures |r| == |xs| - 1
    ensures forall j :: 0 <= j < i ==> r[j] == xs[j]
    ensures forall j :: i <= j < |r| ==> r[j] == xs[j + 1]
  {
    xs[..i] + xs[i + 1..]
  }

  /** `Array.prototype.filter`: the elements that satisfy `keep`, in their order. */
  function Filter<T(!new)>(xs: seq<T>, keep: T -> bool): (r: seq<T>)
    ensures |r| <= |xs|
    ensures forall x :: x in r <==> x in xs && keep(x)
  {
    if xs == [] then []
    else (if keep(xs[0]) then [xs[0]] else []) + Filter(xs[1..], keep)
  }

  /** Filtering works piece by piece, so what it keeps stays in its order. */
  lemma {:induction false} FilterAppend<T(!new)>(a: seq<T>, b: seq<T>, keep: T -> bool)
    ensures Filter(a + b, keep) == Filter(a, keep) + Filter(b, keep)
  {
    if a == [] {
      assert a + b == b;
    } else {
      assert (a + b)[1..] == a[1..] + b;
      FilterAppend(a[1..], b, keep);
    }
  }

  /** A filter that keeps everything changes nothing. */
  lemma {:induction false} FilterKeepsAll<T(!new)>(xs: seq<T>, keep: T -> bool)
    requires forall x :: x in xs ==> keep(x)
    ensures Filter(xs, keep) == xs
  {
    if xs != [] {
      FilterKeepsAll(xs[1..], keep);
    }
  }

  /** `deleteMany`: the map without the entries that satisfy `drop`. */
  function MapRemoveWhere<K(!new), V>(m: map<K, V>, drop: V -> bool): (r: map<K, V>)
    ensures forall k :: k in r <==> k in m && !drop(m[k])
    ensures forall k :: k in r ==> r[k] == m[k]
  {
    map k | k in m && !drop(m[k]) :: m[k]
  }
}
