/** `Random`: two different entries of an array, picked at random. The two
    `Math.random` draws enter as the indices they produce: `i` in
    [0, len) and `j` in [0, len - 1). */
module RandomPair {

  /** The second index: `j` shifted past `i`, so the two never coincide. */
  function SecondIndex(i: int, j: int): (k: int)
    ensures k != i
    ensures j <= k <= j + 1
  {
    if j >= i then j + 1 else j
  }

  /** The second index is in range and differs from the first. */
  lemma SecondIndexInRange(len: int, i: int, j: int)
    requires 0 <= i < len && 0 <= j < len - 1
    ensures 0 <= SecondIndex(i, j) < len && SecondIndex(i, j) != i
  {
  }

  /** Every other index is the second index for exactly one draw `j`, so
      each ordered pair of distinct positions is equally likely. */
  lemma SecondIndexBijective(len: int, i: int, k: int)
    requires 0 <= i < len && 0 <= k < len && k != i
    ensures exists j :: 0 <= j < len - 1 && SecondIndex(i, j) == k
    ensures forall j, j' :: 0 <= j < len - 1 && 0 <= j' < len - 1 && SecondIndex(i, j) == k && SecondIndex(i, j') == k ==> j == j'
  {
    var j := if k < i then k else k - 1;
    assert SecondIndex(i, j) == k;
  }

  /** `Random(arr)`: a copy when there are at most two entries, otherwise
      the entries at two different positions. */
  function PickTwo<T>(arr: seq<T>, i: int, j: int): (r: seq<T>)
    requires |arr| > 2 ==> 0 <= i < |arr| && 0 <= j < |arr| - 1
    ensures |arr| <= 2 ==> r == arr
    ensures |arr| > 2 ==> |r| == 2 && r[0] in arr && r[1] in arr
    ensures |arr| > 2 ==> exists p, q :: 0 <= p < |arr| && 0 <= q < |arr| && p != q && r == [arr[p], arr[q]]
  {
    if |arr| <= 2 then arr
    else
      var k := SecondIndex(i, j);
      SecondIndexInRange(|arr|, i, j);
      [arr[i], arr[k]]
  }

  /** With distinct entries, the two picked are different values. */
  lemma DistinctEntriesGiveDistinctPair<T>(arr: seq<T>, i: int, j: int)
    requires |arr| > 2 && 0 <= i < |arr| && 0 <= j < |arr| - 1
    requires forall p, q :: 0 <= p < q < |arr| ==> arr[p] != arr[q]
    ensures PickTwo(arr, i, j)[0] != PickTwo(arr, i, j)[1]
  {
    var r := PickTwo(arr, i, j);
    var p, q :| 0 <= p < |arr| && 0 <= q < |arr| && p != q && r == [arr[p], arr[q]];
    if p < q { assert arr[p] != arr[q]; } else { assert arr[q] != arr[p]; }
  }
}
