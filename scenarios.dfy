/// Short sessions against a fresh store, each stating the state it ends in.
module Scenarios {
  import opened Records
  import opened KeyIndex
  import opened ModelChange
  import opened Ports
  import opened Editor

  /** Selecting node 0 and pressing the left then the right port button
      gives node 0 the ports "0" and "1" and leaves the counter at 2. */
  method AddTwoPorts() returns (app: App)
    ensures app.Valid()
    ensures app.counterId == 2
    ensures app.nodeDataArray ==
      [NodeData(0, "Beta", "orange", "150 0", [Port("0")], [Port("1")], [], []),
       EmptyNode(1), EmptyNode(2), EmptyNode(3)]
  {
    app := new App();
    app.HandleDiagramEvent("ChangedSelection", Some(Part(NodePart, 0)));
    assert app.selectedData == Some(EmptyNode(0)) by {
      assert Keys(app.nodeDataArray)[0] == 0;
    }
    ghost var nodes := app.nodeDataArray;
    assert nodes == [EmptyNode(0), EmptyNode(1), EmptyNode(2), EmptyNode(3)];
    assert app.mapNodeKeyIdx[0] == 0 by {
      assert Keys(nodes)[0] == 0;
    }
    app.HandleClickByKey("leftArray");
    assert PortId(0) == "0";
    assert app.nodeDataArray == AddPortAt(nodes, 0, "leftArray", "0");
    assert [] + [Port("0")] == [Port("0")];
    nodes := app.nodeDataArray;
    assert nodes == [NodeData(0, "Beta", "orange", "150 0", [Port("0")], [], [], []),
                     EmptyNode(1), EmptyNode(2), EmptyNode(3)];
    app.HandleClickByKey("rightArray");
    assert PortId(1) == "1";
    assert app.nodeDataArray == nodes[0 := AddPort(nodes[0], "rightArray", Port("1"))];
    assert [] + [Port("1")] == [Port("1")];
  }

  /** Dropping key 1 from the four initial nodes keeps the other three in
      order, so the live keys are 0, 2, 3. */
  lemma RemovalKeepsOrder()
    ensures Survivors([EmptyNode(0), EmptyNode(1), EmptyNode(2), EmptyNode(3)], [1])
         == [EmptyNode(0), EmptyNode(2), EmptyNode(3)]
    ensures Keys([EmptyNode(0), EmptyNode(2), EmptyNode(3)]) == [0, 2, 3]
  {
  }

  /** The rebuilt index of keys 0, 2, 3 maps them to positions 0, 1, 2. */
  lemma ReindexAfterRemoval()
    ensures BuildIndex([0, 2, 3]) == map[0 := 0, 2 := 1, 3 := 2]
  {
    assert [0, 2, 3][..2] == [0, 2] && [0, 2][..1] == [0] && [0][..0] == [];
    assert BuildIndex([0]) == map[0 := 0];
    assert BuildIndex([0, 2]) == map[0 := 0, 2 := 1];
  }

  /** Removing node 1 from the initial diagram keeps the other three in
      order and re-indexes key 2 to position 1 and key 3 to position 2. */
  method RemoveSecondNode() returns (app: App)
    ensures fresh(app) && app.Valid() && app.counterId == 0
    ensures app.nodeDataArray == [EmptyNode(0), EmptyNode(2), EmptyNode(3)]
    ensures Keys(app.nodeDataArray) == [0, 2, 3]
    ensures app.mapNodeKeyIdx == map[0 := 0, 2 := 1, 3 := 2]
    ensures app.skipsDiagramUpdate
  {
    app := new App();
    ghost var nodes := app.nodeDataArray;
    app.HandleModelChange(IncrementalData([], [], Some([1]), [], [], None, None));
    BatchRemoveOnly(nodes, [1]);
    RemovalKeepsOrder();
    ReindexAfterRemoval();
  }

  /** The port button as written, after a removal: once node 1 is gone,
      selecting node 2 and pressing "left" puts the port on node 3, and
      node 2 gets none. */
  method PortAfterRemovalMissesSelection() returns (app: App)
    ensures app.Valid()
    ensures app.selectedData == Some(EmptyNode(2)) && app.counterId == 1
    ensures app.nodeDataArray ==
      [EmptyNode(0), EmptyNode(2), NodeData(3, "Beta", "orange", "150 0", [Port("0")], [], [], [])]
  {
    app := RemoveSecondNode();
    app.HandleDiagramEvent("ChangedSelection", Some(Part(NodePart, 2)));
    ghost var nodes := app.nodeDataArray;
    assert nodes == [EmptyNode(0), EmptyNode(2), EmptyNode(3)];
    assert app.selectedData == Some(EmptyNode(2)) by {
      assert Keys(nodes)[1] == 2;
    }
    app.HandleClick("leftArray");
    assert PortId(0) == "0";
    assert app.nodeDataArray == nodes[2 := AddPort(nodes[2], "leftArray", Port("0"))];
    assert [] + [Port("0")] == [Port("0")];
  }

  /** Toggling the relink checkbox off and back on restores the model data. */
  method ToggleRelinkTwice(app: App)
    requires app.Valid()
    modifies app`modelData, app`skipsDiagramUpdate
    ensures app.Valid()
    ensures app.modelData == old(app.modelData)
    ensures !app.skipsDiagramUpdate
  {
    var was := app.modelData.canRelink;
    app.HandleRelinkChange(!was);
    app.HandleRelinkChange(was);
  }
}
