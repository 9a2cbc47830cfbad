/// The records the editor keeps: node and link data objects as the diagram
/// model exchanges them, the model-level data, and the inspector's field paths.
module Records {

  datatype Option<T> = None | Some(value: T)

  /** Node keys are non-negative and link keys negative (see IsNode, IsLink). */
  type Key = int

  /** One entry of a node's side port list. */
  datatype Port = Port(portId: string)

  /** A diagram data object. Nodes and links share the `key` field, which is
      all the editor looks at when it compares two records. */
  datatype ObjectData =
    | NodeData(key: Key, text1: string, color: string, loc: string,
               leftArray: seq<Port>, rightArray: seq<Port>,
               topArray: seq<Port>, bottomArray: seq<Port>)
    | LinkData(key: Key, from: Key, to: Key,
               fromPort: Option<string>, toPort: Option<string>)

  /** The store's starting node: a "Beta" box with no ports. */
  function EmptyNode(key: Key): ObjectData
  {
    NodeData(key, "Beta", "orange", "150 0", [], [], [], [])
  }

  /** Model-level data: only whether links may be redrawn. */
  datatype ModelData = ModelData(canRelink: bool)

  /** The key-sign convention: nodes carry non-negative keys ... */
  predicate IsNode(d: ObjectData) { d.NodeData? && d.key >= 0 }

  /** ... and links negative ones. */
  predicate IsLink(d: ObjectData) { d.LinkData? && d.key < 0 }

  /** The keys of a record sequence, position by position. */
  function Keys(s: seq<ObjectData>): seq<Key>
  {
    seq(|s|, i requires 0 <= i < |s| => s[i].key)
  }

  lemma KeysAppend(a: seq<ObjectData>, b: seq<ObjectData>)
    ensures Keys(a + b) == Keys(a) + Keys(b)
  {
  }

  /** The string-valued properties an inspector edit can address. */
  datatype Path = Text1 | Color | Loc | FromPort | ToPort

  /** Whether `p` names a property that records of `d`'s kind carry. */
  predicate Carries(d: ObjectData, p: Path)
  {
    if d.NodeData? then p.Text1? || p.Color? || p.Loc? else p.FromPort? || p.ToPort?
  }

  /** Reads the property `p` of `d`; None when it is absent. */
  function GetField(d: ObjectData, p: Path): Option<string>
  {
    match d
    case NodeData(_, text1, color, loc, _, _, _, _) =>
      (match p
       case Text1 => Some(text1)
       case Color => Some(color)
       case Loc => Some(loc)
       case _ => None)
    case LinkData(_, _, _, fromPort, toPort) =>
      (match p
       case FromPort => fromPort
       case ToPort => toPort
       case _ => None)
  }

  /** `data[path] = value`: writes one property of a record. */
  function SetField(d: ObjectData, p: Path, v: string): (r: ObjectData)
    ensures r.key == d.key && r.NodeData? == d.NodeData?
    ensures Carries(d, p) ==> GetField(r, p) == Some(v)
    ensures forall q :: q != p ==> GetField(r, q) == GetField(d, q)
    ensures !Carries(d, p) ==> r == d
    ensures r.NodeData? ==>
      r.leftArray == d.leftArray && r.rightArray == d.rightArray &&
      r.topArray == d.topArray && r.bottomArray == d.bottomArray
    ensures r.LinkData? ==> r.from == d.from && r.to == d.to
  {
    match d
    case NodeData(_, _, _, _, _, _, _, _) =>
      (match p
       case Text1 => d.(text1 := v)
       case Color => d.(color := v)
       case Loc => d.(loc := v)
       case _ => d)
    case LinkData(_, _, _, _, _) =>
      (match p
       case FromPort => d.(fromPort := Some(v))
       case ToPort => d.(toPort := Some(v))
       case _ => d)
  }
}
