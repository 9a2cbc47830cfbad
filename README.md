# Dynamic-port diagram editor: the editor-state store

This project models the state store behind a diagram editor whose nodes carry
four lists of ports (left, right, top, bottom) and whose links join those
ports. The store is the `App` component in `src/App.tsx`. It keeps:

- the node records and the link records, each an ordered sequence;
- two key indexes, from a record's key to its position in its sequence;
- the selected record, a counter for fresh port ids, the model data (whether
  links may be redrawn) and a flag that tells the diagram widget not to re-sync.

Its handlers change that state in place:

- they rebuild an index;
- they resolve a selection through an index;
- they apply a batch of changes reported by the diagram model (modify, insert, remove);
- they write back an inspector edit;
- they toggle relinking;
- they add a port to the selected node.

The model also covers the two key generators in `src/components/Diagram.tsx`.
They count up from the data's key (or 1) for nodes, and down from it (or -1)
for links, until they reach a key the diagram model does not hold.

Layout, one module per file:

- `records.dfy` (`Records`): the record datatypes, the starting node, the key-sign convention
  (node keys are non-negative, link keys negative) and the inspector's field paths.
- `key_index.dfy` (`KeyIndex`): the index invariant, the rebuilt index
  `BuildIndex`, and lookup through an index.
- `model_change.dfy` (`ModelChange`): the three phases of a change batch for
  one kind of record, as specification functions (`Modify`, `Insert`,
  `Survivors`, `Batch`) and the loops that compute them (`ApplyModified`,
  `ApplyInserted`).
- `ports.dfy` (`Ports`): port ids, the port-adding effect, and the corrected
  lookup by key.
- `app.dfy` (`Editor`): the `App` class, with one field per piece of state and
  one method per handler. Its invariant `Valid()` says that each index is
  consistent with its sequence and that every record follows the key-sign
  convention.
- `key_gen.dfy` (`KeyGen`): the two key generators.
- `scenarios.dfy` (`Scenarios`): short sessions against a fresh store.

Two behaviours of the code that the model keeps as written:

- A selection whose key the index does not hold leaves the previous selection
  in place (src/App.tsx:161-171).
- A committed edit is written back, and the re-sync flag cleared, only when
  the index holds the key (src/App.tsx:294-306).

## Model

| member | source | states |
|---|---|---|
| Records.SetField | src/App.tsx:290-291 | An inspector edit sets exactly the addressed property. The key, the kind, the port lists, the link ends and every other property are unchanged. A property the record's kind does not carry leaves the record unchanged. |
| KeyIndex.BuildIndexLastPosition | src/App.tsx:125-142 | For any sequence, the rebuilt index holds exactly the sequence's keys. Each key maps to the last position where it occurs. |
| KeyIndex.BuildIndexIndexes | src/App.tsx:125-142 | With unique keys, the rebuilt index maps each key to its position, and nothing else is in it. |
| KeyIndex.IndexesDetermined | src/App.tsx:125-132 | An index that satisfies the invariant forces unique keys. It equals the index a rebuild would produce. |
| KeyIndex.IndexesAppend | src/App.tsx:222-223 | Recording a fresh key at the old length and pushing its record keeps the invariant. |
| KeyIndex.Lookup | src/App.tsx:161-171 | Resolving a key through a consistent index finds a record exactly when the key is live. The record found carries that key and belongs to the sequence. |
| Editor.App.constructor | src/App.tsx:30-62 | The initial state is four empty "Beta" nodes keyed 0 to 3, no links, no selection, counter 0, relinking allowed, and both indexes built. |
| Editor.App.RefreshNodeIndex | src/App.tsx:125-132 | After the loop, the node index equals the rebuilt index of the given sequence. No key from before survives. |
| Editor.App.RefreshLinkIndex | src/App.tsx:137-142 | After the loop, the link index equals the rebuilt index of the given sequence. No key from before survives. |
| Editor.App.HandleDiagramEvent | src/App.tsx:151-183 | An empty selection clears the selection. A node or link part selects the record its key resolves to. A key the index does not hold leaves the selection as it was. Any other event changes nothing. The invariant is kept. |
| ModelChange.LastWithKey | src/App.tsx:206-207 | The payload recorded for a key is the last one in the batch with that key. None means no payload has that key. |
| ModelChange.ByKey | src/App.tsx:200-207 | The payload map holds exactly the modified keys. Each key maps to one of the batch's payloads with that key. |
| ModelChange.ByKeyStep | src/App.tsx:207-207 | Recording one more payload overwrites only that payload's key in the map. |
| ModelChange.Reselect | src/App.tsx:208-213 | A selection whose key is not tracked is unchanged. A tracked selection becomes the last payload with its key, or stays as it was when no payload has that key. The key is always kept. |
| ModelChange.ModifyKeepsIndex | src/App.tsx:205-216 | Modifications leave every key, and so the index, unchanged. Every record afterwards is an old record or a payload. |
| ModelChange.ModifyIgnoresUntracked | src/App.tsx:208-209 | A payload whose key is not tracked leaves the sequence unchanged. |
| ModelChange.ModifyReplacesTracked | src/App.tsx:208-210 | A payload whose key is tracked replaces the record at the indexed position and nothing else. |
| ModelChange.ApplyModified | src/App.tsx:205-216 | The loop yields the modified sequence, the re-selected record and the payload map, as the specification functions define them. |
| ModelChange.Appended | src/App.tsx:217-226 | The appended keys are unique. Each was inserted, has a payload, and was not tracked before. |
| ModelChange.AppendedComplete | src/App.tsx:217-226 | Every inserted key that has a payload and is not yet tracked does get appended. |
| ModelChange.KeysPayloads | src/App.tsx:219-223 | The appended records carry the appended keys, in the same order. |
| ModelChange.InsertLiveKeys | src/App.tsx:217-226 | After insertion, keys are still unique. A key is live exactly when it was live before or was inserted with a payload. No record comes from anywhere else. |
| ModelChange.ApplyInserted | src/App.tsx:217-226 | The loop appends exactly the specified payloads and keeps the index consistent at each push. |
| ModelChange.ApplyChanges | src/App.tsx:204-226 | Modifications and then insertions give the specified sequence, a consistent index and the re-selected record. |
| ModelChange.SurvivorsMembers | src/App.tsx:228-233 | The filter keeps exactly the records whose key is not listed for removal. |
| ModelChange.SurvivorsConcat | src/App.tsx:228-233 | The filter distributes over concatenation, so survivors keep their relative order. |
| ModelChange.SurvivorsDistinct | src/App.tsx:228-233 | Removal keeps keys unique. |
| ModelChange.SurvivorsKeys | src/App.tsx:228-233 | The live keys after removal are the old live keys minus the removed ones. |
| ModelChange.BatchRemoveOnly | src/App.tsx:227-236 | A batch that only removes is the removal filter alone. |
| ModelChange.BatchLiveKeys | src/App.tsx:204-236 | After a whole batch, keys are unique. A key is live exactly when it was live or was inserted with a payload, and was not removed. Every record is an old record or a payload. |
| ModelChange.BatchKeeps | src/App.tsx:204-236 | Any property shared by the old records and the payloads holds for every record after the batch. |
| Editor.App.RemoveNodes | src/App.tsx:227-236 | The node sequence becomes the survivors of the removal. The node index becomes their rebuilt index, and the node invariant is kept. |
| Editor.App.RemoveLinks | src/App.tsx:261-270 | The link sequence becomes the survivors of the removal. The link index becomes their rebuilt index, and the link invariant is kept. |
| Editor.App.NodePhase | src/App.tsx:204-236 | The node sequence becomes the node batch. The node index equals its rebuilt index, the selection is re-selected against the nodes, and the invariant is kept. |
| Editor.App.LinkPhase | src/App.tsx:238-270 | The link sequence becomes the link batch. The link index equals its rebuilt index, the selection is re-selected against the links, and the invariant is kept. |
| Editor.App.HandleModelChange | src/App.tsx:190-278 | Both sequences become their batches, and both indexes match them. The selection follows the modifications. The model data is replaced when a new one is supplied. The skip flag is set. The invariant is kept. |
| Editor.App.HandleInputChange | src/App.tsx:287-310 | The edit is applied to the selection. On commit, the edited record replaces the record with its key: in the links for a negative key, in the nodes otherwise. The skip flag is cleared, but only when the index holds the key. Without commit both sequences are unchanged. On commit, when the index holds the key, a lookup of the key afterwards returns the edited record. |
| Editor.App.HandleRelinkChange | src/App.tsx:316-321 | The model data becomes exactly the checkbox state, the skip flag is cleared, and the invariant is kept. |
| Scenarios.ToggleRelinkTwice | src/App.tsx:316-321 | Toggling relinking off and on again restores the model data. |
| Editor.App.HandleClick | src/App.tsx:76-116 | With no selection, nothing changes and the counter stays. With a selection, the counter goes up by exactly one, whatever matched. The node sequence becomes the one with port `"" + counter` added at array position `selectedData.key`. |
| Ports.AddPortAtEffect | src/App.tsx:95-113 | Exactly one port, with the given id, lands at the end of the named side list of the node at that position. Its other side lists and fields, and every other node, are unchanged. An unknown side or an out-of-range position changes nothing. |
| Ports.DecimalStringInjective | src/App.tsx:98-98 | Distinct counter values have distinct decimal forms. |
| Ports.PortIdsDistinct | src/App.tsx:82-114 | Port ids drawn from different counter values never collide. |
| Ports.PortLandsOnWrongNode | src/App.tsx:95-97 | With nodes keyed 0, 2, 3, selecting key 2 puts the port on the node keyed 3 and none on node 2. |
| Ports.AddPortToKeyTargetsKey | src/App.tsx:95-113 | Resolved through the index, the port lands on the node that carries the selected key. Every node with another key is unchanged. |
| Editor.App.HandleClickByKey | src/App.tsx:76-116 | The corrected handler adds the port to the node with the selected key, found through the node index. The counter goes up by one, and the invariant is kept. |
| Scenarios.AddTwoPorts | src/App.tsx:76-116 | With the corrected handler, selecting node 0 and pressing left then right gives node 0 the ports "0" and "1". The other nodes are unchanged, and the counter ends at 2. |
| Scenarios.RemovalKeepsOrder | src/App.tsx:228-233 | Removing key 1 from the initial nodes keeps nodes 0, 2 and 3 in order, so the live keys are 0, 2, 3. |
| Scenarios.ReindexAfterRemoval | src/App.tsx:125-132 | Rebuilding the index for keys 0, 2, 3 maps them to positions 0, 1, 2. |
| Scenarios.RemoveSecondNode | src/App.tsx:227-236 | A batch that removes node 1 from the initial store leaves keys 0, 2, 3 and re-indexes key 2 to position 1 and key 3 to position 2. |
| Scenarios.PortAfterRemovalMissesSelection | src/App.tsx:95-97 | Through the handlers as written: after node 1 is removed, selecting node 2 and pressing "left" puts port "0" on the node keyed 3. Node 2 gets none, and the counter ends at 1. |
| KeyGen.StartKey | src/components/Diagram.tsx:85-85 | The search starts at the data's key when it is present and non-zero. An absent key or 0 counts as falsy, and the search then starts at the fallback (1 for nodes, -1 for links). |
| KeyGen.FirstFreeUp | src/components/Diagram.tsx:85-86 | The node search result is the smallest key at or above the start that no node holds. |
| KeyGen.FirstFreeDown | src/components/Diagram.tsx:92-93 | The link search result is the largest key at or below the start that no link holds. |
| KeyGen.GeneratedKeySigns | src/components/Diagram.tsx:84-96 | Without a data key, the node generator yields a positive key and the link generator a negative one. |
| KeyGen.MakeUniqueKey | src/components/Diagram.tsx:84-89 | The loop terminates on a finite set of used keys. It returns the first free key counting up from the start, and stores that same key in `data.key`. |
| KeyGen.MakeUniqueLinkKey | src/components/Diagram.tsx:91-96 | The loop terminates on a finite set of used keys. It returns the first free key counting down from the start, and stores that same key in `data.key`. |

## Left out

- Rendering and scheduling: `render`, React's `setState` batching and immer's
  drafts are left out. Each handler is a direct update of the object's fields.
- Diagram events: GoJS event objects, `e.subject.first()` and the
  `instanceof` tests are left out. A selection arrives as an optional
  (kind, key) pair.
- The rest of `initDiagram`, plus listener registration, the templates, the
  guided dragging tool, the inspector component and the stylesheets, is left
  out. All of it configures or draws with an external library.
- Aliasing is not modelled. `selectedData` and the sequence entries are
  values, so an edit to the selection does not reach the sequences until it is
  written back.
- Records are closed datatypes with the fields the editor uses. Arbitrary
  extra properties are not modelled. Neither is adding a property that a
  record's kind does not carry: the source would add it, and the model leaves
  the record unchanged.
- Records.SetField: the paths `key`, `from` and `to` and the port lists are
  not editable. The handler's `value` parameter is a string
  (src/App.tsx:287), so only string-valued properties are modelled. The
  inspector that would call the handler is not part of this program: its use
  in `render` is commented out (src/App.tsx:328-332).
- Editor.App.HandleInputChange: it requires a selection. With no selection
  the source writes a property on `null` and throws (src/App.tsx:290-291).
  Its own comment says the handler is only reached with a selection, and
  that error path is not modelled.
- Ports.DecimalStringInjective: the counter is unbounded in the model. In the
  source it is a JavaScript number (src/App.tsx:82, 98, 114). `"" + countId`
  is the plain decimal form only below 10^21, and `countId + 1` is exact only
  below 2^53. So the proof that port ids never collide (also
  Ports.PortIdsDistinct) holds for counters below 2^53 and is not claimed
  beyond that.
- Nodes created by clicking the background carry no port lists in the
  source, and its port handler would fail on them. Every modelled node has
  all four lists.
- The model data is modelled as `ModelData(canRelink)`. The source replaces
  it with whatever object the diagram model supplies.
- An absent inserted or modified list is modelled as the empty list. An
  absent removed list is modelled as `None`, because only a present list
  triggers the filter and the index rebuild.
- Editor.App.HandleModelChange: it requires modified payloads to follow the
  key-sign convention. The source trusts the diagram model, whose key
  generators produce such keys, to deliver them.
- Editor.App.HandleDiagramEvent: only the `ChangedSelection` event is
  modelled. The name is passed in as a string, and every other name is
  ignored, as in the source.
- KeyGen.MakeUniqueKey, KeyGen.MakeUniqueLinkKey: the model lookup
  `findNodeDataForKey` / `findLinkDataForKey` is modelled as membership in a
  finite set of used keys.

## Findings

| source | as written | input that shows it | evidently intended | confidence | as-written member | corrected member |
|---|---|---|---|---|---|---|
| src/App.tsx:95-97 | The port handler compares the loop's array position `i` with `selectedData.key`. | Start from nodes keyed 0, 1, 2, 3 and remove node 1, leaving nodes keyed 0, 2, 3. Select node 2 and press "left". The port goes to the node keyed 3, and node 2 gets none. | The port goes to the node whose key is the selected key, found through `mapNodeKeyIdx`. | not executed | Scenarios.PortAfterRemovalMissesSelection | Editor.App.HandleClickByKey |
