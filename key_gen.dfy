/// The two key generators the diagram model calls for new data: node keys
/// count up from the data's key (or 1), link keys count down from it (or -1),
/// skipping keys the model already holds.
module KeyGen {
  import opened Records

  /** `data.key || fallback`: an absent key or 0 is falsy. */
  function StartKey(dataKey: Option<Key>, fallback: Key): (k: Key)
    requires fallback != 0
    ensures k != 0
    ensures dataKey.Some? && dataKey.value != 0 ==> k == dataKey.value
    ensures dataKey.None? || dataKey.value == 0 ==> k == fallback
  {
    if dataKey.None? || dataKey.value == 0 then fallback else dataKey.value
  }

  function UsedFrom(used: set<Key>, k: Key): set<Key>
  {
    set j | j in used && j >= k
  }

  function UsedUpTo(used: set<Key>, k: Key): set<Key>
  {
    set j | j in used && j <= k
  }

  /** The smallest key at or above `k` that is not used. */
  function FirstFreeUp(used: set<Key>, k: Key): (r: Key)
    ensures r >= k && r !in used
    ensures forall j :: k <= j < r ==> j in used
    decreases UsedFrom(used, k)
  {
    if k !in used then k
    else
      assert UsedFrom(used, k + 1) < UsedFrom(used, k) by {
        assert k in UsedFrom(used, k) && k !in UsedFrom(used, k + 1);
      }
      FirstFreeUp(used, k + 1)
  }

  /** The largest key at or below `k` that is not used. */
  function FirstFreeDown(used: set<Key>, k: Key): (r: Key)
    ensures r <= k && r !in used
    ensures forall j :: r < j <= k ==> j in used
    decreases UsedUpTo(used, k)
  {
    if k !in used then k
    else
      assert UsedUpTo(used, k - 1) < UsedUpTo(used, k) by {
        assert k in UsedUpTo(used, k) && k !in UsedUpTo(used, k - 1);
      }
      FirstFreeDown(used, k - 1)
  }

  /** A node key generated for data without a key is positive, and so obeys
      the node-key convention; likewise a link key is negative. */
  lemma GeneratedKeySigns(used: set<Key>)
    ensures FirstFreeUp(used, StartKey(None, 1)) >= 1
    ensures FirstFreeDown(used, StartKey(None, -1)) <= -1
  {
  }

  /** The new data object whose `key` property the generator writes. */
  class NewData {
    var key: Option<Key>

    constructor (key: Option<Key>)
      ensures this.key == key
    {
      this.key := key;
    }
  }

  /** `makeUniqueKeyFunction`: counts up from the data's key (or 1) past
      every key a node already has, stores the result in `data.key` and
      returns it. `used` stands for the keys `findNodeDataForKey` finds. */
  method MakeUniqueKey(used: set<Key>, data: NewData) returns (k: Key)
    modifies data
    ensures k == FirstFreeUp(used, StartKey(old(data.key), 1))
    ensures data.key == Some(k)
  {
    k := StartKey(data.key, 1);
    ghost var start := k;
    while k in used
      invariant FirstFreeUp(used, k) == FirstFreeUp(used, start)
      decreases UsedFrom(used, k)
    {
      assert UsedFrom(used, k + 1) < UsedFrom(used, k) by {
        assert k in UsedFrom(used, k) && k !in UsedFrom(used, k + 1);
      }
      k := k + 1;
    }
    data.key := Some(k);
  }

  /** `makeUniqueLinkKeyFunction`: counts down from the data's key (or -1)
      past every key a link already has, stores the result in `data.key` and
      returns it. `used` stands for the keys `findLinkDataForKey` finds. */
  method MakeUniqueLinkKey(used: set<Key>, data: NewData) returns (k: Key)
    modifies data
    ensures k == FirstFreeDown(used, StartKey(old(data.key), -1))
    ensures data.key == Some(k)
  {
    k := StartKey(data.key, -1);
    ghost var start := k;
    while k in used
      invariant FirstFreeDown(used, k) == FirstFreeDown(used, start)
      decreases UsedUpTo(used, k)
    {
      assert UsedUpTo(used, k - 1) < UsedUpTo(used, k) by {
        assert k in UsedUpTo(used, k) && k !in UsedUpTo(used, k - 1);
      }
      k := k - 1;
    }
    data.key := Some(k);
  }
}
