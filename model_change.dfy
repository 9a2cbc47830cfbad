/// The three phases `handleModelChange` runs on one record sequence (nodes,
/// then links): modifications in place, insertions at the end, removals.
module ModelChange {
  import opened Records
  import opened KeyIndex

  /** The last payload in `ds` that carries key `k`: when a batch modifies
      the same key twice, the later write wins. */
  function LastWithKey(ds: seq<ObjectData>, k: Key): (r: Option<ObjectData>)
    ensures r.Some? ==> r.value in ds && r.value.key == k
    ensures r.Some? ==> exists i :: 0 <= i < |ds| && ds[i] == r.value &&
                          forall j :: i < j < |ds| ==> ds[j].key != k
    ensures r.None? <==> forall i :: 0 <= i < |ds| ==> ds[i].key != k
  {
    if |ds| == 0 then None
    else if ds[|ds| - 1].key == k then Some(ds[|ds| - 1])
    else LastWithKey(ds[..|ds| - 1], k)
  }

  /** A record after a batch of modifications: replaced by the last payload
      with its key, if there is one. */
  function Latest(d: ObjectData, modified: seq<ObjectData>): ObjectData
  {
    match LastWithKey(modified, d.key)
    case Some(nd) => nd
    case None => d
  }

  /** The sequence after the modification phase, position by position. */
  function Modify(arr: seq<ObjectData>, modified: seq<ObjectData>): seq<ObjectData>
  {
    seq(|arr|, i requires 0 <= i < |arr| => Latest(arr[i], modified))
  }

  /** The selection after the modification phase: replaced only when its key
      is one of the tracked records'. */
  function Reselect(sel: Option<ObjectData>, arr: seq<ObjectData>, modified: seq<ObjectData>): (r: Option<ObjectData>)
    ensures r.Some? <==> sel.Some?
    ensures r.Some? ==> r.value.key == sel.value.key && (r == sel || r.value in modified)
    ensures sel.Some? && sel.value.key !in Keys(arr) ==> r == sel
    ensures sel.Some? && sel.value.key in Keys(arr) ==>
      r == (if LastWithKey(modified, sel.value.key).Some? then LastWithKey(modified, sel.value.key) else sel)
  {
    if sel.Some? && sel.value.key in Keys(arr) then Some(Latest(sel.value, modified)) else sel
  }

  /** `modifiedNodeMap`: every modified key, with its last payload. */
  function ByKey(modified: seq<ObjectData>): (m: map<Key, ObjectData>)
    ensures forall k :: k in m <==> k in Keys(modified)
    ensures forall k :: k in m ==> m[k].key == k && m[k] in modified
  {
    map k | k in Keys(modified) :: LastWithKey(modified, k).value
  }

  /** Recording one more payload overwrites its key's entry. */
  lemma ByKeyStep(ms: seq<ObjectData>, d: ObjectData)
    ensures ByKey(ms + [d]) == ByKey(ms)[d.key := d]
  {
    var ms' := ms + [d];
    assert ms'[..|ms|] == ms;
    KeysAppend(ms, [d]);
    var a, b := ByKey(ms'), ByKey(ms)[d.key := d];
    forall k ensures k in a <==> k in b {
      assert Keys([d]) == [d.key];
      assert Keys(ms') == Keys(ms) + [d.key];
      assert k in Keys(ms') <==> k in Keys(ms) || k == d.key;
    }
    forall k | k in a ensures a[k] == b[k] {
      assert a[k] == LastWithKey(ms', k).value;
    }
  }

  /** Modifications never change a key, so they leave a consistent index
      consistent, and every record afterwards is an old one or a payload. */
  lemma ModifyKeepsIndex(arr: seq<ObjectData>, modified: seq<ObjectData>, index: map<Key, nat>)
    requires Indexes(index, Keys(arr))
    ensures Keys(Modify(arr, modified)) == Keys(arr)
    ensures Indexes(index, Keys(Modify(arr, modified)))
    ensures forall d :: d in Modify(arr, modified) ==> d in arr || d in modified
  {
    assert Keys(Modify(arr, modified)) == Keys(arr);
  }

  /** A payload whose key is not tracked is ignored ... */
  lemma ModifyIgnoresUntracked(arr: seq<ObjectData>, modified: seq<ObjectData>, d: ObjectData)
    requires d.key !in Keys(arr)
    ensures Modify(arr, modified + [d]) == Modify(arr, modified)
  {
    forall i | 0 <= i < |arr| ensures Latest(arr[i], modified + [d]) == Latest(arr[i], modified) {
      assert Keys(arr)[i] == arr[i].key;
      assert (modified + [d])[..|modified|] == modified;
    }
  }

  /** ... while a tracked one replaces the record at its indexed position. */
  lemma ModifyReplacesTracked(arr: seq<ObjectData>, modified: seq<ObjectData>, d: ObjectData, index: map<Key, nat>)
    requires Indexes(index, Keys(arr)) && d.key in index
    ensures Modify(arr, modified + [d]) == Modify(arr, modified)[index[d.key] := d]
  {
    var ms := modified + [d];
    assert ms[..|modified|] == modified;
    forall i | 0 <= i < |arr|
      ensures Modify(arr, ms)[i] == Modify(arr, modified)[index[d.key] := d][i]
    {
      assert Keys(arr)[i] == arr[i].key;
    }
  }

  /** The modification loop: each payload whose key is tracked overwrites
      the record at the indexed position, and the selection when the keys
      match; every payload is recorded by key for the insertion step. */
  method ApplyModified(arr: seq<ObjectData>, index: map<Key, nat>, modified: seq<ObjectData>, sel: Option<ObjectData>)
    returns (arr': seq<ObjectData>, sel': Option<ObjectData>, byKey: map<Key, ObjectData>)
    requires Indexes(index, Keys(arr))
    ensures arr' == Modify(arr, modified)
    ensures sel' == Reselect(sel, arr, modified)
    ensures byKey == ByKey(modified)
  {
    arr', sel', byKey := arr, sel, map[];
    assert Modify(arr, []) == arr;
    for j := 0 to |modified|
      invariant arr' == Modify(arr, modified[..j])
      invariant sel' == Reselect(sel, arr, modified[..j])
      invariant byKey == ByKey(modified[..j])
    {
      var nd := modified[j];
      assert modified[..j + 1] == modified[..j] + [nd];
      ByKeyStep(modified[..j], nd);
      byKey := byKey[nd.key := nd];
      if nd.key in index {
        ModifyReplacesTracked(arr, modified[..j], nd, index);
        var idx := index[nd.key];
        arr' := arr'[idx := nd];
        if sel'.Some? && sel'.value.key == nd.key {
          sel' := Some(nd);
        }
      } else {
        ModifyIgnoresUntracked(arr, modified[..j], nd);
      }
    }
    assert modified[..|modified|] == modified;
  }

  /** The inserted keys that get appended, in order: known payload, not yet
      tracked, and not appended before in this batch. */
  function Appended(inserted: seq<Key>, byKey: map<Key, ObjectData>, tracked: seq<Key>): (ks: seq<Key>)
    ensures Distinct(ks)
    ensures forall k :: k in ks ==> k in inserted && k in byKey && k !in tracked
  {
    if |inserted| == 0 then []
    else
      var ks := Appended(inserted[..|inserted| - 1], byKey, tracked);
      var k := inserted[|inserted| - 1];
      if k in byKey && k !in tracked && k !in ks then ks + [k] else ks
  }

  /** Every inserted key with a payload that was not already tracked does
      get appended. */
  lemma {:induction false} AppendedComplete(inserted: seq<Key>, byKey: map<Key, ObjectData>, tracked: seq<Key>, k: Key)
    requires k in inserted && k in byKey && k !in tracked
    ensures k in Appended(inserted, byKey, tracked)
  {
    var n := |inserted|;
    if inserted[n - 1] != k {
      assert inserted == inserted[..n - 1] + [inserted[n - 1]];
      AppendedComplete(inserted[..n - 1], byKey, tracked, k);
    }
  }

  /** The payloads of a list of keys. */
  function Payloads(ks: seq<Key>, byKey: map<Key, ObjectData>): seq<ObjectData>
    requires forall k :: k in ks ==> k in byKey
  {
    seq(|ks|, i requires 0 <= i < |ks| => var k := ks[i]; assert k in ks; byKey[k])
  }

  lemma KeysPayloads(ks: seq<Key>, byKey: map<Key, ObjectData>)
    requires forall k :: k in ks ==> k in byKey
    requires forall k :: k in byKey ==> byKey[k].key == k
    ensures Keys(Payloads(ks, byKey)) == ks
  {
    forall i | 0 <= i < |ks| ensures Keys(Payloads(ks, byKey))[i] == ks[i] {
      assert ks[i] in ks;
    }
  }

  /** The sequence after the insertion phase. */
  function Insert(arr: seq<ObjectData>, inserted: seq<Key>, byKey: map<Key, ObjectData>): seq<ObjectData>
  {
    arr + Payloads(Appended(inserted, byKey, Keys(arr)), byKey)
  }

  /** Insertion appends payloads of fresh keys only: keys stay unique, a key
      is live afterwards exactly when it was live or was inserted with a
      payload, and every record is an old one or a payload. */
  lemma InsertLiveKeys(arr: seq<ObjectData>, inserted: seq<Key>, byKey: map<Key, ObjectData>)
    requires Distinct(Keys(arr))
    requires forall k :: k in byKey ==> byKey[k].key == k
    ensures Distinct(Keys(Insert(arr, inserted, byKey)))
    ensures forall k :: k in Keys(Insert(arr, inserted, byKey)) <==>
      k in Keys(arr) || (k in inserted && k in byKey)
    ensures forall d :: d in Insert(arr, inserted, byKey) ==> d in arr || d in byKey.Values
  {
    var ks := Appended(inserted, byKey, Keys(arr));
    var pays := Payloads(ks, byKey);
    KeysPayloads(ks, byKey);
    var arr2 := arr + pays;
    KeysAppend(arr, pays);
    assert Distinct(Keys(arr2)) by {
      forall i, j | 0 <= i < j < |Keys(arr2)| ensures Keys(arr2)[i] != Keys(arr2)[j] {
        if j >= |arr| && i < |arr| {
          assert Keys(arr2)[j] in ks;
          assert Keys(arr2)[i] == Keys(arr)[i];
        }
      }
    }
    forall k ensures k in Keys(arr2) <==> k in Keys(arr) || (k in inserted && k in byKey) {
      if k in inserted && k in byKey && k !in Keys(arr) {
        AppendedComplete(inserted, byKey, Keys(arr), k);
      }
    }
    forall d | d in pays ensures d in byKey.Values {
      var i :| 0 <= i < |pays| && pays[i] == d;
      assert ks[i] in ks;
    }
  }

  method ApplyInserted(arr: seq<ObjectData>, index: map<Key, nat>, inserted: seq<Key>, byKey: map<Key, ObjectData>)
    returns (arr': seq<ObjectData>, index': map<Key, nat>)
    requires Indexes(index, Keys(arr))
    requires forall k :: k in byKey ==> byKey[k].key == k
    ensures arr' == Insert(arr, inserted, byKey)
    ensures Indexes(index', Keys(arr'))
  {
    arr', index' := arr, index;
    assert arr == arr + Payloads([], byKey);
    for j := 0 to |inserted|
      invariant arr' == Insert(arr, inserted[..j], byKey)
      invariant Indexes(index', Keys(arr'))
    {
      var key := inserted[j];
      var ks := Appended(inserted[..j], byKey, Keys(arr));
      assert inserted[..j + 1][..j] == inserted[..j];
      KeysPayloads(ks, byKey);
      KeysAppend(arr, Payloads(ks, byKey));
      assert Keys(arr') == Keys(arr) + ks;
      assert key in index' <==> key in Keys(arr') by {
        if key in Keys(arr') {
          var i :| 0 <= i < |Keys(arr')| && Keys(arr')[i] == key;
        }
      }
      assert key in index' <==> key in Keys(arr) || key in ks;
      assert Appended(inserted[..j + 1], byKey, Keys(arr)) ==
        if key in byKey && key !in Keys(arr) && key !in ks then ks + [key] else ks;
      if key in byKey && key !in index' {
        var nd := byKey[key];
        IndexesAppend(index', Keys(arr'), nd.key);
        KeysAppend(arr', [nd]);
        index' := index'[nd.key := |arr'|];
        arr' := arr' + [nd];
        assert Payloads(ks + [key], byKey) == Payloads(ks, byKey) + [nd];
      } else {
        assert key in byKey ==> key in Keys(arr');
      }
    }
    assert inserted[..|inserted|] == inserted;
  }

  /** Modifications then insertions for one kind of record, with the index
      kept consistent throughout. */
  method ApplyChanges(arr: seq<ObjectData>, index: map<Key, nat>, modified: seq<ObjectData>, inserted: seq<Key>,
                      sel: Option<ObjectData>)
    returns (arr': seq<ObjectData>, index': map<Key, nat>, sel': Option<ObjectData>)
    requires Indexes(index, Keys(arr))
    ensures arr' == Insert(Modify(arr, modified), inserted, ByKey(modified))
    ensures Indexes(index', Keys(arr'))
    ensures sel' == Reselect(sel, arr, modified)
  {
    var byKey;
    arr', sel', byKey := ApplyModified(arr, index, modified, sel);
    ModifyKeepsIndex(arr, modified, index);
    arr', index' := ApplyInserted(arr', index, inserted, byKey);
  }

  /** `arr.filter(d => !removed.includes(d.key))`. */
  function Survivors(arr: seq<ObjectData>, removed: seq<Key>): seq<ObjectData>
  {
    if |arr| == 0 then []
    else (if arr[0].key in removed then [] else [arr[0]]) + Survivors(arr[1..], removed)
  }

  /** The survivors are exactly the records whose key is not listed. */
  lemma {:induction false} SurvivorsMembers(arr: seq<ObjectData>, removed: seq<Key>)
    ensures forall d :: d in Survivors(arr, removed) <==> d in arr && d.key !in removed
  {
    if |arr| > 0 {
      SurvivorsMembers(arr[1..], removed);
      assert arr == [arr[0]] + arr[1..];
    }
  }

  /** Removal keeps the survivors' relative order: it distributes over
      concatenation. */
  lemma {:induction false} SurvivorsConcat(a: seq<ObjectData>, b: seq<ObjectData>, removed: seq<Key>)
    ensures Survivors(a + b, removed) == Survivors(a, removed) + Survivors(b, removed)
  {
    if |a| > 0 {
      assert (a + b)[1..] == a[1..] + b;
      SurvivorsConcat(a[1..], b, removed);
    } else {
      assert a + b == b;
    }
  }

  /** Removal keeps keys unique. */
  lemma {:induction false} SurvivorsDistinct(arr: seq<ObjectData>, removed: seq<Key>)
    requires Distinct(Keys(arr))
    ensures Distinct(Keys(Survivors(arr, removed)))
  {
    if |arr| > 0 {
      assert Keys(arr[1..]) == Keys(arr)[1..];
      SurvivorsDistinct(arr[1..], removed);
      SurvivorsMembers(arr[1..], removed);
      var rest := Survivors(arr[1..], removed);
      forall d | d in rest ensures d.key != arr[0].key {
        assert d in arr[1..];
        var i :| 0 <= i < |arr[1..]| && arr[1..][i] == d;
        assert arr[i + 1] == d;
        assert Keys(arr)[i + 1] == d.key && Keys(arr)[0] == arr[0].key;
      }
      var head := if arr[0].key in removed then [] else [arr[0]];
      KeysAppend(head, rest);
      forall i | 0 <= i < |rest| ensures Keys(rest)[i] != arr[0].key {
        assert rest[i] in rest;
      }
    }
  }

  /** Removal drops exactly the removed keys from the live key set. */
  lemma SurvivorsKeys(arr: seq<ObjectData>, removed: seq<Key>)
    ensures forall k :: k in Keys(Survivors(arr, removed)) <==> k in Keys(arr) && k !in removed
  {
    var r := Survivors(arr, removed);
    SurvivorsMembers(arr, removed);
    forall k ensures k in Keys(r) <==> k in Keys(arr) && k !in removed {
      if k in Keys(r) {
        var i :| 0 <= i < |r| && Keys(r)[i] == k;
        assert r[i] in r;
        var j :| 0 <= j < |arr| && arr[j] == r[i];
        assert Keys(arr)[j] == k;
      }
      if k in Keys(arr) && k !in removed {
        var j :| 0 <= j < |arr| && Keys(arr)[j] == k;
        assert arr[j] in r;
        var i :| 0 <= i < |r| && r[i] == arr[j];
        assert Keys(r)[i] == k;
      }
    }
  }

  /** The whole phase for one kind: modify, insert, then remove when a
      removed list is given. */
  function Batch(arr: seq<ObjectData>, modified: seq<ObjectData>, inserted: seq<Key>, removed: Option<seq<Key>>): seq<ObjectData>
  {
    var inserted' := Insert(Modify(arr, modified), inserted, ByKey(modified));
    match removed
    case None => inserted'
    case Some(ks) => Survivors(inserted', ks)
  }

  /** A batch with nothing modified or inserted is the removal filter alone. */
  lemma BatchRemoveOnly(arr: seq<ObjectData>, removed: seq<Key>)
    ensures Batch(arr, [], [], Some(removed)) == Survivors(arr, removed)
  {
    assert Modify(arr, []) == arr;
    assert Appended([], ByKey([]), Keys(arr)) == [];
    assert Payloads([], ByKey([])) == [];
    assert Insert(arr, [], ByKey([])) == arr;
  }

  /** After the batch, keys are still unique, a key is live exactly when it
      was live or inserted with a payload, and was not removed; and every
      record is an old record or a payload. */
  lemma BatchLiveKeys(arr: seq<ObjectData>, modified: seq<ObjectData>, inserted: seq<Key>, removed: Option<seq<Key>>, index: map<Key, nat>)
    requires Indexes(index, Keys(arr))
    ensures Distinct(Keys(Batch(arr, modified, inserted, removed)))
    ensures forall k :: k in Keys(Batch(arr, modified, inserted, removed)) <==>
      (k in Keys(arr) || (k in inserted && k in Keys(modified))) && !(removed.Some? && k in removed.value)
    ensures forall d :: d in Batch(arr, modified, inserted, removed) ==> d in arr || d in modified
  {
    var byKey := ByKey(modified);
    var arr1 := Modify(arr, modified);
    ModifyKeepsIndex(arr, modified, index);
    IndexesDetermined(index, Keys(arr));
    InsertLiveKeys(arr1, inserted, byKey);
    var arr2 := Insert(arr1, inserted, byKey);
    forall d | d in arr2 ensures d in arr || d in modified {
      if d !in arr1 {
        var k :| k in byKey && byKey[k] == d;
      }
    }
    match removed
    case None =>
    case Some(rs) =>
      SurvivorsDistinct(arr2, rs);
      SurvivorsKeys(arr2, rs);
      SurvivorsMembers(arr2, rs);
  }

  /** A property every old record and every payload has, every record after
      the batch has: the batch brings in no record from anywhere else. */
  lemma BatchKeeps(arr: seq<ObjectData>, modified: seq<ObjectData>, inserted: seq<Key>, removed: Option<seq<Key>>,
                   index: map<Key, nat>, P: ObjectData -> bool)
    requires Indexes(index, Keys(arr))
    requires forall d :: d in arr ==> P(d)
    requires forall d :: d in modified ==> P(d)
    ensures forall d :: d in Batch(arr, modified, inserted, removed) ==> P(d)
  {
    BatchLiveKeys(arr, modified, inserted, removed, index);
  }
}
