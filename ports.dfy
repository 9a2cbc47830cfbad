/// Adding a port to one side list of a node, and the port ids the session
/// counter produces (`"" + countId`, the counter's decimal form).
module Ports {
  import opened Records
  import opened KeyIndex

  function Digit(d: nat): (c: char)
    requires d < 10
  {
    ('0' as int + d) as char
  }

  /** The decimal form of a natural number, as JavaScript's `"" + n` gives it. */
  function DecimalString(n: nat): (s: string)
    ensures 1 <= |s| && (n >= 10 ==> 2 <= |s|)
    ensures s[|s| - 1] == Digit(n % 10)
  {
    if n < 10 then [Digit(n)] else DecimalString(n / 10) + [Digit(n % 10)]
  }

  /** Distinct counter values give distinct port ids. */
  lemma {:induction false} DecimalStringInjective(a: nat, b: nat)
    requires DecimalString(a) == DecimalString(b)
    ensures a == b
  {
    var s := DecimalString(a);
    assert Digit(a % 10) == Digit(b % 10);
    if a >= 10 && b >= 10 {
      assert DecimalString(a / 10) == s[..|s| - 1] == DecimalString(b / 10);
      DecimalStringInjective(a / 10, b / 10);
    }
  }

  function PortId(counter: nat): string
  {
    DecimalString(counter)
  }

  /** Port ids drawn from different counter values never collide. */
  lemma PortIdsDistinct(a: nat, b: nat)
    requires a != b
    ensures PortId(a) != PortId(b)
  {
    if PortId(a) == PortId(b) {
      DecimalStringInjective(a, b);
    }
  }

  /** The four side-list names a port button sends. */
  predicate IsSide(side: string)
  {
    side == "leftArray" || side == "rightArray" || side == "topArray" || side == "bottomArray"
  }

  /** The side list of a node that `side` names. */
  function SideList(n: ObjectData, side: string): seq<Port>
    requires n.NodeData? && IsSide(side)
  {
    if side == "leftArray" then n.leftArray
    else if side == "rightArray" then n.rightArray
    else if side == "topArray" then n.topArray
    else n.bottomArray
  }

  /** Pushes a port on the side list `side` names; any other name pushes nothing. */
  function AddPort(n: ObjectData, side: string, p: Port): ObjectData
    requires n.NodeData?
  {
    if side == "leftArray" then n.(leftArray := n.leftArray + [p])
    else if side == "rightArray" then n.(rightArray := n.rightArray + [p])
    else if side == "topArray" then n.(topArray := n.topArray + [p])
    else if side == "bottomArray" then n.(bottomArray := n.bottomArray + [p])
    else n
  }

  /** The port button's effect on the node sequence: the node at array
      position `key` (the selection's key compared with the loop index) gets
      the port. */
  function AddPortAt(nodes: seq<ObjectData>, key: Key, side: string, id: string): seq<ObjectData>
    requires forall d :: d in nodes ==> d.NodeData?
  {
    if 0 <= key < |nodes| then nodes[key := AddPort(nodes[key], side, Port(id))] else nodes
  }

  /** Exactly one port, with the given id, lands on the named side list of
      the node at position `key`; its other side lists, its other fields and
      all other nodes are unchanged. An unknown side or a position outside
      the sequence changes nothing. */
  lemma AddPortAtEffect(nodes: seq<ObjectData>, key: Key, side: string, id: string)
    requires forall d :: d in nodes ==> d.NodeData?
    ensures |AddPortAt(nodes, key, side, id)| == |nodes|
    ensures Keys(AddPortAt(nodes, key, side, id)) == Keys(nodes)
    ensures forall d :: d in AddPortAt(nodes, key, side, id) ==> d.NodeData?
    ensures forall j :: 0 <= j < |nodes| && j != key ==> AddPortAt(nodes, key, side, id)[j] == nodes[j]
    ensures !(0 <= key < |nodes| && IsSide(side)) ==> AddPortAt(nodes, key, side, id) == nodes
    ensures 0 <= key < |nodes| && IsSide(side) ==>
      var n, n' := nodes[key], AddPortAt(nodes, key, side, id)[key];
      && SideList(n', side) == SideList(n, side) + [Port(id)]
      && (forall s :: IsSide(s) && s != side ==> SideList(n', s) == SideList(n, s))
      && n'.key == n.key && n'.text1 == n.text1 && n'.color == n.color && n'.loc == n.loc
  {
    var r := AddPortAt(nodes, key, side, id);
    assert Keys(r) == Keys(nodes);
    if 0 <= key < |nodes| {
      assert nodes[key] in nodes;
    }
  }

  /** The port button as evidently intended: the port goes to the node whose
      key is the selection's key, found through the node index. */
  function AddPortToKey(nodes: seq<ObjectData>, index: map<Key, nat>, key: Key, side: string, id: string): seq<ObjectData>
    requires Indexes(index, Keys(nodes))
    requires forall d :: d in nodes ==> d.NodeData?
  {
    if key in index then AddPortAt(nodes, index[key], side, id) else nodes
  }

  /** The corrected operation extends the node that carries the selected key
      and leaves every node with another key alone, whatever the positions. */
  lemma AddPortToKeyTargetsKey(nodes: seq<ObjectData>, index: map<Key, nat>, key: Key, side: string, id: string)
    requires Indexes(index, Keys(nodes))
    requires forall d :: d in nodes ==> d.NodeData?
    ensures Keys(AddPortToKey(nodes, index, key, side, id)) == Keys(nodes)
    ensures forall j :: 0 <= j < |nodes| && nodes[j].key != key ==>
      AddPortToKey(nodes, index, key, side, id)[j] == nodes[j]
    ensures forall j :: 0 <= j < |nodes| && nodes[j].key == key && IsSide(side) ==>
      SideList(AddPortToKey(nodes, index, key, side, id)[j], side) == SideList(nodes[j], side) + [Port(id)]
  {
    forall j | 0 <= j < |nodes| && nodes[j].key == key
      ensures key in index && j == index[key]
    {
      assert Keys(nodes)[j] == key;
    }
    if key in index {
      AddPortAtEffect(nodes, index[key], side, id);
    }
  }

  /** As written, the port button compares the array position with the key.
      Once a node has been removed the two differ: with nodes keyed 0, 2, 3,
      selecting key 2 puts the port on the node keyed 3 and leaves node 2
      without it. */
  lemma PortLandsOnWrongNode()
    ensures var nodes := [EmptyNode(0), EmptyNode(2), EmptyNode(3)];
            var r := AddPortAt(nodes, 2, "leftArray", "0");
            && r[1].key == 2 && r[1].leftArray == []
            && r[2].key == 3 && r[2].leftArray == [Port("0")]
  {
  }
}
