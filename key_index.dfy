/// The key index: a map from a record's key to its position in the node or
/// link sequence, rebuilt wholesale by `refreshNodeIndex`/`refreshLinkIndex`.
module KeyIndex {
  import opened Records

  predicate Distinct(ks: seq<Key>)
  {
    forall i, j :: 0 <= i < j < |ks| ==> ks[i] != ks[j]
  }

  /** The index invariant: every key at position i maps to i, and nothing
      else is in the map. */
  ghost predicate Indexes(m: map<Key, nat>, ks: seq<Key>)
  {
    && (forall i :: 0 <= i < |ks| ==> ks[i] in m && m[ks[i]] == i)
    && (forall k :: k in m ==> m[k] < |ks| && ks[m[k]] == k)
  }

  /** The map that clearing and then setting `key -> position` for each
      element in order leaves behind: a later duplicate overwrites. */
  function BuildIndex(ks: seq<Key>): map<Key, nat>
  {
    if |ks| == 0 then map[] else BuildIndex(ks[..|ks| - 1])[ks[|ks| - 1] := |ks| - 1]
  }

  /** Whatever the sequence, the rebuilt index holds exactly its keys, each
      mapped to the last position where it occurs. */
  lemma {:induction false} BuildIndexLastPosition(ks: seq<Key>)
    ensures forall k :: k in BuildIndex(ks) <==> k in ks
    ensures forall k :: k in BuildIndex(ks) ==>
              BuildIndex(ks)[k] < |ks| && ks[BuildIndex(ks)[k]] == k &&
              forall j :: BuildIndex(ks)[k] < j < |ks| ==> ks[j] != k
  {
    if |ks| > 0 {
      var init := ks[..|ks| - 1];
      BuildIndexLastPosition(init);
      assert ks == init + [ks[|ks| - 1]];
    }
  }

  /** With unique keys the rebuilt index satisfies the index invariant. */
  lemma BuildIndexIndexes(ks: seq<Key>)
    requires Distinct(ks)
    ensures Indexes(BuildIndex(ks), ks)
  {
    BuildIndexLastPosition(ks);
    var m := BuildIndex(ks);
    forall i | 0 <= i < |ks|
      ensures ks[i] in m && m[ks[i]] == i
    {
      assert ks[i] in ks;
    }
  }

  /** The index invariant forces unique keys, and it pins the map down: a
      consistent index equals the one a rebuild would produce. */
  lemma IndexesDetermined(m: map<Key, nat>, ks: seq<Key>)
    requires Indexes(m, ks)
    ensures Distinct(ks)
    ensures m == BuildIndex(ks)
  {
    assert Distinct(ks) by {
      forall i, j | 0 <= i < j < |ks| ensures ks[i] != ks[j] {
        assert m[ks[i]] == i && m[ks[j]] == j;
      }
    }
    BuildIndexIndexes(ks);
    var b := BuildIndex(ks);
    assert m.Keys == b.Keys by {
      forall k | k in m ensures k in b { assert ks[m[k]] == k; }
      forall k | k in b ensures k in m { assert ks[b[k]] == k; }
    }
    forall k | k in m ensures m[k] == b[k] {
      assert ks[m[k]] == k;
    }
  }

  /** Appending a fresh key at the end and recording its position keeps the
      invariant: this is the insertion step. */
  lemma IndexesAppend(m: map<Key, nat>, ks: seq<Key>, k: Key)
    requires Indexes(m, ks) && k !in m
    ensures Indexes(m[k := |ks|], ks + [k])
  {
  }

  /** Resolving a key through the index (`map.get(key)` then the array). */
  function Lookup(index: map<Key, nat>, arr: seq<ObjectData>, k: Key): (r: Option<ObjectData>)
    requires Indexes(index, Keys(arr))
    ensures r.Some? <==> k in Keys(arr)
    ensures r.Some? ==> r.value.key == k && r.value in arr
  {
    if k in index then Some(arr[index[k]]) else None
  }
}
