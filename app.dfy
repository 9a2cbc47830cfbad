/// The editor-state store: the `App` component's state and its handlers,
/// each a direct update of the object's fields.
module Editor {
  import opened Records
  import opened KeyIndex
  import opened ModelChange
  import opened Ports

  /** What the diagram reports as its first selected part: a node, a link,
      or some other part, with its key. */
  datatype PartKind = NodePart | LinkPart | OtherPart
  datatype Part = Part(kind: PartKind, key: Key)

  /** One batch of changes from the diagram model. An absent inserted or
      modified list is the empty one; an absent removed list is None. */
  datatype IncrementalData = IncrementalData(
    insertedNodeKeys: seq<Key>,
    modifiedNodeData: seq<ObjectData>,
    removedNodeKeys: Option<seq<Key>>,
    insertedLinkKeys: seq<Key>,
    modifiedLinkData: seq<ObjectData>,
    removedLinkKeys: Option<seq<Key>>,
    modelData: Option<ModelData>)

  class App {
    var counterId: nat
    var nodeDataArray: seq<ObjectData>
    var linkDataArray: seq<ObjectData>
    var modelData: ModelData
    var selectedData: Option<ObjectData>
    var skipsDiagramUpdate: bool
    var mapNodeKeyIdx: map<Key, nat>
    var mapLinkKeyIdx: map<Key, nat>

    /** Both indexes are consistent with their sequences, and records keep
        the key-sign convention (nodes >= 0, links < 0). */
    ghost predicate Valid()
      reads this
    {
      NodesValid() && LinksValid() && SelectionValid()
    }

    ghost predicate NodesValid()
      reads this`nodeDataArray, this`mapNodeKeyIdx
    {
      && Indexes(mapNodeKeyIdx, Keys(nodeDataArray))
      && (forall d :: d in nodeDataArray ==> IsNode(d))
    }

    ghost predicate LinksValid()
      reads this`linkDataArray, this`mapLinkKeyIdx
    {
      && Indexes(mapLinkKeyIdx, Keys(linkDataArray))
      && (forall d :: d in linkDataArray ==> IsLink(d))
    }

    ghost predicate SelectionValid()
      reads this`selectedData
    {
      selectedData.Some? ==> IsNode(selectedData.value) || IsLink(selectedData.value)
    }

    /** Four empty "Beta" nodes keyed 0 to 3, no links, relinking allowed. */
    constructor ()
      ensures Valid()
      ensures nodeDataArray == [EmptyNode(0), EmptyNode(1), EmptyNode(2), EmptyNode(3)]
      ensures linkDataArray == [] && selectedData == None
      ensures counterId == 0 && modelData == ModelData(true) && !skipsDiagramUpdate
    {
      counterId := 0;
      nodeDataArray := [EmptyNode(0), EmptyNode(1), EmptyNode(2), EmptyNode(3)];
      linkDataArray := [];
      modelData := ModelData(true);
      selectedData := None;
      skipsDiagramUpdate := false;
      mapNodeKeyIdx := map[];
      mapLinkKeyIdx := map[];
      new;
      RefreshNodeIndex(nodeDataArray);
      RefreshLinkIndex(linkDataArray);
      BuildIndexIndexes(Keys(nodeDataArray));
      BuildIndexIndexes(Keys(linkDataArray));
    }

    /** Clears the node index and sets each element's key to its position. */
    method RefreshNodeIndex(nodeArr: seq<ObjectData>)
      modifies this`mapNodeKeyIdx
      ensures mapNodeKeyIdx == BuildIndex(Keys(nodeArr))
    {
      mapNodeKeyIdx := map[];
      for idx := 0 to |nodeArr|
        invariant mapNodeKeyIdx == BuildIndex(Keys(nodeArr[..idx]))
      {
        assert Keys(nodeArr[..idx + 1])[..idx] == Keys(nodeArr[..idx]);
        mapNodeKeyIdx := mapNodeKeyIdx[nodeArr[idx].key := idx];
      }
      assert nodeArr[..|nodeArr|] == nodeArr;
    }

    /** Clears the link index and sets each element's key to its position. */
    method RefreshLinkIndex(linkArr: seq<ObjectData>)
      modifies this`mapLinkKeyIdx
      ensures mapLinkKeyIdx == BuildIndex(Keys(linkArr))
    {
      mapLinkKeyIdx := map[];
      for idx := 0 to |linkArr|
        invariant mapLinkKeyIdx == BuildIndex(Keys(linkArr[..idx]))
      {
        assert Keys(linkArr[..idx + 1])[..idx] == Keys(linkArr[..idx]);
        mapLinkKeyIdx := mapLinkKeyIdx[linkArr[idx].key := idx];
      }
      assert linkArr[..|linkArr|] == linkArr;
    }

    /** A selection change: no part clears the selection; a node or link
        part selects the record with its key when the index knows the key,
        and otherwise leaves the selection as it was. Other events are
        ignored. */
    method HandleDiagramEvent(name: string, sel: Option<Part>)
      requires Valid()
      modifies this`selectedData
      ensures Valid()
      ensures name != "ChangedSelection" ==> selectedData == old(selectedData)
      ensures name == "ChangedSelection" && sel.None? ==> selectedData == None
      ensures name == "ChangedSelection" && sel.Some? ==>
        var found := match sel.value.kind
          case NodePart => Lookup(mapNodeKeyIdx, nodeDataArray, sel.value.key)
          case LinkPart => Lookup(mapLinkKeyIdx, linkDataArray, sel.value.key)
          case OtherPart => None;
        selectedData == if found.Some? then found else old(selectedData)
    {
      if name == "ChangedSelection" {
        match sel
        case None =>
          selectedData := None;
        case Some(part) =>
          if part.kind == NodePart {
            if part.key in mapNodeKeyIdx {
              var idx := mapNodeKeyIdx[part.key];
              selectedData := Some(nodeDataArray[idx]);
            }
          } else if part.kind == LinkPart {
            if part.key in mapLinkKeyIdx {
              var idx := mapLinkKeyIdx[part.key];
              selectedData := Some(linkDataArray[idx]);
            }
          }
      }
    }

    /** Applies one batch of diagram changes: per kind, modifications in
        place, insertions at the end, removals with an index rebuild; then
        the model data, and the flag that tells the diagram not to re-sync. */
    method HandleModelChange(obj: IncrementalData)
      requires Valid()
      requires forall d :: d in obj.modifiedNodeData ==> IsNode(d)
      requires forall d :: d in obj.modifiedLinkData ==> IsLink(d)
      modifies this`nodeDataArray, this`linkDataArray, this`mapNodeKeyIdx, this`mapLinkKeyIdx
      modifies this`selectedData, this`modelData, this`skipsDiagramUpdate
      ensures Valid()
      ensures nodeDataArray == Batch(old(nodeDataArray), obj.modifiedNodeData, obj.insertedNodeKeys, obj.removedNodeKeys)
      ensures linkDataArray == Batch(old(linkDataArray), obj.modifiedLinkData, obj.insertedLinkKeys, obj.removedLinkKeys)
      ensures mapNodeKeyIdx == BuildIndex(Keys(nodeDataArray))
      ensures mapLinkKeyIdx == BuildIndex(Keys(linkDataArray))
      ensures selectedData == Reselect(Reselect(old(selectedData), old(nodeDataArray), obj.modifiedNodeData),
                                       old(linkDataArray), obj.modifiedLinkData)
      ensures modelData == if obj.modelData.Some? then obj.modelData.value else old(modelData)
      ensures skipsDiagramUpdate
    {
      NodePhase(obj.modifiedNodeData, obj.insertedNodeKeys, obj.removedNodeKeys);
      LinkPhase(obj.modifiedLinkData, obj.insertedLinkKeys, obj.removedLinkKeys);
      if obj.modelData.Some? {
        modelData := obj.modelData.value;
      }
      skipsDiagramUpdate := true;
    }

    /** The node half of a batch. */
    method NodePhase(modified: seq<ObjectData>, inserted: seq<Key>, removed: Option<seq<Key>>)
      requires Valid()
      requires forall d :: d in modified ==> IsNode(d)
      modifies this`nodeDataArray, this`mapNodeKeyIdx, this`selectedData
      ensures Valid()
      ensures nodeDataArray == Batch(old(nodeDataArray), modified, inserted, removed)
      ensures mapNodeKeyIdx == BuildIndex(Keys(nodeDataArray))
      ensures selectedData == Reselect(old(selectedData), old(nodeDataArray), modified)
    {
      BatchKeeps(nodeDataArray, modified, inserted, removed, mapNodeKeyIdx, IsNode);
      var narr, nodeIdx, sel := ApplyChanges(nodeDataArray, mapNodeKeyIdx, modified, inserted, selectedData);
      nodeDataArray, mapNodeKeyIdx := narr, nodeIdx;
      if removed.Some? {
        RemoveNodes(removed.value);
      } else {
        IndexesDetermined(mapNodeKeyIdx, Keys(nodeDataArray));
      }
      selectedData := sel;
    }

    /** The node removal step: drops every node whose key is listed, then
        rebuilds the index from the survivors. */
    method RemoveNodes(removed: seq<Key>)
      requires NodesValid()
      modifies this`nodeDataArray, this`mapNodeKeyIdx
      ensures NodesValid()
      ensures nodeDataArray == Survivors(old(nodeDataArray), removed)
      ensures mapNodeKeyIdx == BuildIndex(Keys(nodeDataArray))
    {
      IndexesDetermined(mapNodeKeyIdx, Keys(nodeDataArray));
      SurvivorsDistinct(nodeDataArray, removed);
      SurvivorsMembers(nodeDataArray, removed);
      var narr := Survivors(nodeDataArray, removed);
      nodeDataArray := narr;
      RefreshNodeIndex(narr);
      BuildIndexIndexes(Keys(narr));
    }

    /** The link half of a batch. */
    method LinkPhase(modified: seq<ObjectData>, inserted: seq<Key>, removed: Option<seq<Key>>)
      requires Valid()
      requires forall d :: d in modified ==> IsLink(d)
      modifies this`linkDataArray, this`mapLinkKeyIdx, this`selectedData
      ensures Valid()
      ensures linkDataArray == Batch(old(linkDataArray), modified, inserted, removed)
      ensures mapLinkKeyIdx == BuildIndex(Keys(linkDataArray))
      ensures selectedData == Reselect(old(selectedData), old(linkDataArray), modified)
    {
      BatchKeeps(linkDataArray, modified, inserted, removed, mapLinkKeyIdx, IsLink);
      var larr, linkIdx, sel := ApplyChanges(linkDataArray, mapLinkKeyIdx, modified, inserted, selectedData);
      linkDataArray, mapLinkKeyIdx := larr, linkIdx;
      if removed.Some? {
        RemoveLinks(removed.value);
      } else {
        IndexesDetermined(mapLinkKeyIdx, Keys(linkDataArray));
      }
      selectedData := sel;
    }

    /** The link removal step: drops every link whose key is listed, then
        rebuilds the index from the survivors. */
    method RemoveLinks(removed: seq<Key>)
      requires LinksValid()
      modifies this`linkDataArray, this`mapLinkKeyIdx
      ensures LinksValid()
      ensures linkDataArray == Survivors(old(linkDataArray), removed)
      ensures mapLinkKeyIdx == BuildIndex(Keys(linkDataArray))
    {
      IndexesDetermined(mapLinkKeyIdx, Keys(linkDataArray));
      SurvivorsDistinct(linkDataArray, removed);
      SurvivorsMembers(linkDataArray, removed);
      var larr := Survivors(linkDataArray, removed);
      linkDataArray := larr;
      RefreshLinkIndex(larr);
      BuildIndexIndexes(Keys(larr));
    }

    /** An inspector edit: the property is written on the selection at once;
        on blur the edited record replaces the one with its key in the link
        sequence (negative key) or the node sequence, and the re-sync flag is
        cleared, but only when the index knows the key. */
    method HandleInputChange(path: Path, value: string, isBlur: bool)
      requires Valid()
      requires selectedData.Some?
      modifies this`selectedData, this`nodeDataArray, this`linkDataArray, this`skipsDiagramUpdate
      ensures Valid()
      ensures selectedData == Some(SetField(old(selectedData).value, path, value))
      ensures var data := selectedData.value;
        && linkDataArray == (if isBlur && data.key < 0 && data.key in mapLinkKeyIdx
                             then old(linkDataArray)[mapLinkKeyIdx[data.key] := data]
                             else old(linkDataArray))
        && nodeDataArray == (if isBlur && data.key >= 0 && data.key in mapNodeKeyIdx
                             then old(nodeDataArray)[mapNodeKeyIdx[data.key] := data]
                             else old(nodeDataArray))
        && skipsDiagramUpdate == (if isBlur && data.key in (if data.key < 0 then mapLinkKeyIdx else mapNodeKeyIdx)
                                  then false else old(skipsDiagramUpdate))
      ensures isBlur && selectedData.value.key < 0 && selectedData.value.key in old(Keys(linkDataArray)) ==>
        Lookup(mapLinkKeyIdx, linkDataArray, selectedData.value.key) == selectedData
      ensures isBlur && selectedData.value.key >= 0 && selectedData.value.key in old(Keys(nodeDataArray)) ==>
        Lookup(mapNodeKeyIdx, nodeDataArray, selectedData.value.key) == selectedData
    {
      var data := SetField(selectedData.value, path, value);
      selectedData := Some(data);
      if isBlur {
        var key := data.key;
        if key < 0 {
          if key in mapLinkKeyIdx {
            var idx := mapLinkKeyIdx[key];
            assert Keys(linkDataArray)[idx] == key;
            linkDataArray := linkDataArray[idx := data];
            assert Keys(linkDataArray) == old(Keys(linkDataArray));
            skipsDiagramUpdate := false;
          }
        } else {
          if key in mapNodeKeyIdx {
            var idx := mapNodeKeyIdx[key];
            assert Keys(nodeDataArray)[idx] == key;
            nodeDataArray := nodeDataArray[idx := data];
            assert Keys(nodeDataArray) == old(Keys(nodeDataArray));
            skipsDiagramUpdate := false;
          }
        }
      }
    }

    /** The relink checkbox: the model data becomes exactly the checkbox
        state, and the diagram is told to re-sync. */
    method HandleRelinkChange(checked: bool)
      requires Valid()
      modifies this`modelData, this`skipsDiagramUpdate
      ensures Valid()
      ensures modelData == ModelData(checked)
      ensures !skipsDiagramUpdate
    {
      modelData := ModelData(checked);
      skipsDiagramUpdate := false;
    }

    /** A port button, as written: with no selection nothing happens; with
        one, every node is copied, the node whose array position equals the
        selection's key gets the port `"" + counterId` on the side list named
        `pos`, and the counter goes up by one whatever matched. */
    method HandleClick(pos: string)
      requires Valid()
      modifies this`counterId, this`nodeDataArray
      ensures Valid()
      ensures selectedData.None? ==>
        counterId == old(counterId) && nodeDataArray == old(nodeDataArray)
      ensures selectedData.Some? ==>
        && counterId == old(counterId) + 1
        && nodeDataArray == AddPortAt(old(nodeDataArray), selectedData.value.key, pos, PortId(old(counterId)))
    {
      if selectedData.None? {
        return;
      }
      var countId := counterId;
      var key := selectedData.value.key;
      ghost var nodes := nodeDataArray;
      assert forall d :: d in nodes ==> d.NodeData?;

      // The spread copy of each node and of its four port lists is the
      // identity on values.
      var newnodeDataArray: seq<ObjectData> := [];
      for i := 0 to |nodeDataArray|
        invariant newnodeDataArray == nodeDataArray[..i]
      {
        newnodeDataArray := newnodeDataArray + [nodeDataArray[i]];
      }
      assert nodeDataArray[..|nodeDataArray|] == nodeDataArray;

      for i := 0 to |nodeDataArray|
        invariant |newnodeDataArray| == |nodes|
        invariant forall j :: 0 <= j < |nodes| ==>
          newnodeDataArray[j] == if j < i && j == key then AddPort(nodes[j], pos, Port(PortId(countId))) else nodes[j]
      {
        if i == key {
          var newport := Port(PortId(countId));
          assert nodes[i] in nodes;
          var n := newnodeDataArray[i];
          if pos == "leftArray" {
            newnodeDataArray := newnodeDataArray[i := n.(leftArray := n.leftArray + [newport])];
          }
          if pos == "rightArray" {
            newnodeDataArray := newnodeDataArray[i := n.(rightArray := n.rightArray + [newport])];
          }
          if pos == "topArray" {
            newnodeDataArray := newnodeDataArray[i := n.(topArray := n.topArray + [newport])];
          }
          if pos == "bottomArray" {
            newnodeDataArray := newnodeDataArray[i := n.(bottomArray := n.bottomArray + [newport])];
          }
        }
      }
      AddPortAtEffect(nodes, key, pos, PortId(countId));
      assert newnodeDataArray == AddPortAt(nodes, key, pos, PortId(countId));
      counterId := countId + 1;
      nodeDataArray := newnodeDataArray;
      forall d | d in nodeDataArray ensures IsNode(d) {
        var j :| 0 <= j < |nodeDataArray| && nodeDataArray[j] == d;
        assert Keys(nodeDataArray)[j] == Keys(nodes)[j];
        assert nodes[j] in nodes;
      }
    }

    /** The port button as evidently intended: the selection's key is
        resolved through the node index, so the port lands on the selected
        node wherever it sits in the sequence. */
    method HandleClickByKey(pos: string)
      requires Valid()
      modifies this`counterId, this`nodeDataArray
      ensures Valid()
      ensures selectedData.None? ==>
        counterId == old(counterId) && nodeDataArray == old(nodeDataArray)
      ensures selectedData.Some? ==>
        && counterId == old(counterId) + 1
        && nodeDataArray == AddPortToKey(old(nodeDataArray), mapNodeKeyIdx, selectedData.value.key, pos, PortId(old(counterId)))
    {
      if selectedData.None? {
        return;
      }
      var countId := counterId;
      var key := selectedData.value.key;
      ghost var nodes := nodeDataArray;
      assert forall d :: d in nodes ==> d.NodeData?;
      if key in mapNodeKeyIdx {
        var i := mapNodeKeyIdx[key];
        assert nodes[i] in nodes;
        nodeDataArray := nodeDataArray[i := AddPort(nodeDataArray[i], pos, Port(PortId(countId)))];
        AddPortAtEffect(nodes, i, pos, PortId(countId));
        forall d | d in nodeDataArray ensures IsNode(d) {
          var j :| 0 <= j < |nodeDataArray| && nodeDataArray[j] == d;
          assert Keys(nodeDataArray)[j] == Keys(nodes)[j];
          assert nodes[j] in nodes;
        }
      }
      counterId := countId + 1;
    }
  }
}
