/**
 * `SortedLevelList` (src/voxels/storage/sorted_level_list.rs): the levels of an
 * octree kept in a vector ordered by their linearized key, searched by a
 * recursive binary search. The search only reads the keys (the first component
 * of each entry), so it is stated here over the sequence of keys; each octree
 * projects its entries onto their keys.
 */
module SortedLevelList {
  import opened Machine

  /** The order the octrees keep their level list in. */
  ghost predicate StrictlyAscending(keys: seq<u64>)
  {
    forall i, j :: 0 <= i < j < |keys| ==> keys[i] < keys[j]
  }

  /** `(upper_e - lower_i) / 2 + lower_i`: the probe always lies inside the window. */
  function Probe(lower: nat, upper: nat): (r: nat)
    requires lower < upper
    ensures lower <= r < upper
  {
    (upper - lower) / 2 + lower
  }

  /**
   * `get_recur(pos, lower_i, upper_e)` on the window keys[lower..upper].
   * The index returned stays in the window; a `true` answer points at `pos`;
   * on strictly ascending keys `true` means `pos` is in the window and `false`
   * gives the point where `pos` would be inserted.
   */
  function GetRecur(keys: seq<u64>, pos: u64, lower: nat, upper: nat): (r: (bool, nat))
    requires lower <= upper <= |keys|
    ensures lower <= r.1 <= upper
    ensures r.0 ==> r.1 < upper && keys[r.1] == pos
    ensures StrictlyAscending(keys) && !r.0 ==>
      && (forall k :: lower <= k < r.1 ==> keys[k] < pos)
      && (forall k :: r.1 <= k < upper ==> pos < keys[k])
    decreases upper - lower
  {
    if upper == lower then
      (false, lower)
    else
      var check := Probe(lower, upper);
      if pos < keys[check] then
        GetRecur(keys, pos, lower, check)
      else if pos > keys[check] then
        GetRecur(keys, pos, check + 1, upper)
      else
        (true, check)
  }

  /** `get(pos)`: the search over the whole list. */
  function Get(keys: seq<u64>, pos: u64): (r: (bool, nat))
    ensures r.1 <= |keys|
    ensures keys == [] ==> r == (false, 0)
    ensures r.0 ==> r.1 < |keys| && keys[r.1] == pos
    ensures StrictlyAscending(keys) ==> (r.0 <==> pos in keys)
    ensures StrictlyAscending(keys) && !r.0 ==>
      && (forall k :: 0 <= k < r.1 ==> keys[k] < pos)
      && (forall k :: r.1 <= k < |keys| ==> pos < keys[k])
  {
    GetRecur(keys, pos, 0, |keys|)
  }

  /** On strictly ascending keys a key occurs at one index only. */
  lemma KeyIndexUnique(keys: seq<u64>, i: nat, j: nat)
    requires StrictlyAscending(keys)
    requires i < |keys| && j < |keys| && keys[i] == keys[j]
    ensures i == j
  {
  }

  /** A found key is reported at the one index holding it. */
  lemma GetFindsTheIndex(keys: seq<u64>, pos: u64, i: nat)
    requires StrictlyAscending(keys) && i < |keys| && keys[i] == pos
    ensures Get(keys, pos) == (true, i)
  {
    var r := Get(keys, pos);
    assert pos in keys;
    KeyIndexUnique(keys, r.1, i);
  }

  /** Inserting an absent key at the index `get` reports keeps the keys strictly ascending. */
  lemma InsertAtSearchIndexKeepsOrder(keys: seq<u64>, pos: u64)
    requires StrictlyAscending(keys) && !Get(keys, pos).0
    ensures StrictlyAscending(keys[..Get(keys, pos).1] + [pos] + keys[Get(keys, pos).1..])
  {
    var i := Get(keys, pos).1;
    var ks := keys[..i] + [pos] + keys[i..];
    forall a, b | 0 <= a < b < |ks|
      ensures ks[a] < ks[b]
    {
      if b < i {
        assert ks[a] == keys[a] && ks[b] == keys[b];
      } else if b == i {
        assert ks[a] == keys[a] && ks[b] == pos;
      } else if a < i {
        assert ks[a] == keys[a] && ks[b] == keys[b - 1];
      } else if a == i {
        assert ks[a] == pos && ks[b] == keys[b - 1];
      } else {
        assert ks[a] == keys[a - 1] && ks[b] == keys[b - 1];
      }
    }
  }
}
