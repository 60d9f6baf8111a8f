# Context-menu eligibility for a JSON editor

This project models the command-enablement engine of a JSON editor. The editor shows a document
either as a tree or as a table. For each view, one pure function takes four inputs:

- the document (possibly absent);
- the per-path document state, which records the "enforce string" flags;
- the current selection (possibly absent);
- a read-only flag.

From these it decides which editing commands are allowed. It then returns a fixed, nested menu
description made of rows, columns, labels, separators, buttons and dropdown buttons. Every button
carries a `disabled` flag and the callback a click would invoke.

The Dafny modules follow the program's structure:

- `Wrappers`: `Option`, used wherever the source has `undefined`.
- `JsonValue`: JSON values, typed paths, and the `getIn` and `initial` accessors.
- `Selections`: the selection variants and the classification predicates (`singleItemSelected`,
  `canConvert`, `hasSelectionContents`).
- `DocumentStates`: the enforce-string lookup.
- `Menu`: the menu description, plus three views of it. These are the buttons in reading order
  (`Buttons`), the shape with every text, flag and callback erased (`ShapeOf`), and the rule that a
  dropdown's main button mirrors its first entry (`DropdownsMirror`).
- `TreeContextMenu`: the tree view. This is the eligibility record, the menu, and its properties.
- `TableContextMenu`: the table view, the same for its smaller command set, and its agreement with
  the tree view's eligibility.

Callbacks are modelled as `Action` values: `Cut(true)` stands for `onCut(true)`, `Convert(ConvertObject)`
for `onConvert('object')`, and `NoOp` for a click that calls nothing. Texts are `Caption`
identifiers. Each view maps them to its own wording (`TreeText`, `TableText`).

In the tree view each dropdown's main button has the enabled state and the callback of its first
entry (`TreeContextMenu.TreeDropdownsMirrorFirstEntry`), and so do the table view's edit and cut
dropdowns. The table view's copy dropdown does not. Its main button calls `onCopy(true)`, but its
first entry, captioned "Copy formatted", calls `onCopy(false)`. The model follows the code here and
proves the difference (`TableContextMenu.TableCopyDropdownBreaksMirroring`).

## Model

| member | source | states |
|---|---|---|
| JsonValue.GetInAppend | src/lib/components/modes/treemode/contextmenu/createTreeContextMenuItems.ts:83-90 | looking up a concatenated path is looking up its two parts in turn, so the parent lookup and the focus lookup are consistent |
| JsonValue.ParentOfExisting | src/lib/components/modes/treemode/contextmenu/createTreeContextMenuItems.ts:89-93 | the parent of an existing non-root node exists and holds the node; it is an array exactly when the last segment is an index, and an object exactly when it is a key |
| Selections.HasSelectionContents | src/lib/components/modes/treemode/contextmenu/createTreeContextMenuItems.ts:85-87 | selected contents need a document and a selection that is not an insertion marker; a key or value selection in a document always has contents |
| Selections.CanConvertIsContentsWithoutKeys | src/lib/components/modes/treemode/contextmenu/createTreeContextMenuItems.ts:117-122 | in a document, convertible selections are exactly the selections with contents other than key selections |
| DocumentStates.GetEnforceString | src/lib/components/modes/treemode/contextmenu/createTreeContextMenuItems.ts:124-125 | the enforce-string flag reads as set only for an existing node whose flag is recorded as true |
| TreeContextMenu.TreeEligibility | src/lib/components/modes/treemode/contextmenu/createTreeContextMenuItems.ts:77-125 | enforcing a string requires editing the value and is never allowed on an object or array; the key is never editable at the root or under an array; the root cannot be duplicated or extracted; read-only allows no mutating command; copy and convert mode both equal "has selected contents"; with no selection nothing is allowed |
| TreeContextMenu.HandleInsertOrConvert | src/lib/components/modes/treemode/contextmenu/createTreeContextMenuItems.ts:127-135 | without selected contents a click inserts its kind; with contents it converts to that kind, except that structure does nothing; `ActionKind` recovers the clicked kind from the action |
| TreeContextMenu.TreeMenuButtons | src/lib/components/modes/treemode/contextmenu/createTreeContextMenuItems.ts:137-360 | whatever is enabled, every menu holds each listed button and no other: no command is ever omitted and none is added (the order and count within each row come from the per-row lemmas and `TreeMenuHasFixedShape`) |
| TreeContextMenu.ReadOnlyLeavesOnlyCopy | src/lib/components/modes/treemode/contextmenu/createTreeContextMenuItems.ts:92-122 | in read-only mode every enabled button is a copy button, and the copy buttons are enabled exactly when the selection has contents |
| TreeContextMenu.CopyFollowsSelectionContents | src/lib/components/modes/treemode/contextmenu/createTreeContextMenuItems.ts:100 | in either mode the three copy buttons are enabled exactly when the selection has contents |
| TreeContextMenu.RootSelectedDisablesPlacement | src/lib/components/modes/treemode/contextmenu/createTreeContextMenuItems.ts:92-108 | with the root focused, edit-key, duplicate, extract, insert-before and insert-after are all disabled |
| TreeContextMenu.InsertOrConvertButtonsOnly | src/lib/components/modes/treemode/contextmenu/createTreeContextMenuItems.ts:296-334 | the only buttons that insert, convert or do nothing are the four insert/convert buttons, and the action identifies which one |
| TreeContextMenu.InsertOrConvertEligibility | src/lib/components/modes/treemode/contextmenu/createTreeContextMenuItems.ts:110-122 | structure needs an insertion marker inside an array or after an array element; in insert mode object, array and value need only a selection; in convert mode a kind needs a convertible selection of another kind; selected contents never allow structure |
| TreeContextMenu.InsertModeOffersEveryKind | src/lib/components/modes/treemode/contextmenu/createTreeContextMenuItems.ts:113-135 | without selected contents nothing converts; object, array and value insert and are enabled iff writable with a selection; structure iff writable on an array marker; the icon is a plus |
| TreeContextMenu.ConvertModeTargets | src/lib/components/modes/treemode/contextmenu/createTreeContextMenuItems.ts:117-135 | with selected contents nothing inserts; a conversion is enabled iff writable, convertible and the focus is not already of the target kind; the do-nothing structure button is always disabled |
| TreeContextMenu.InsertOrConvertHeadingText | src/lib/components/modes/treemode/contextmenu/createTreeContextMenuItems.ts:111 | the label heading the four targets reads "转换为:" with selected contents and "插入:" otherwise |
| TreeContextMenu.AfterArrayElementAllowsStructure | src/lib/components/modes/treemode/contextmenu/createTreeContextMenuItems.ts:113-116 | a marker after an existing array element enables the structure button exactly when the view is writable |
| TreeContextMenu.EditKeyMeansObjectMember | src/lib/components/modes/treemode/contextmenu/createTreeContextMenuItems.ts:89-93 | on an existing node, the key is editable exactly when the view is writable, a key or value is selected, and the node is an object member |
| TreeContextMenu.TreeMenuHasFixedShape | src/lib/components/modes/treemode/contextmenu/createTreeContextMenuItems.ts:137-360 | every input yields the same layout: a row, a separator, a row, a separator, a row of two columns, a separator, a row |
| TreeContextMenu.TreeDropdownsMirrorFirstEntry | src/lib/components/modes/treemode/contextmenu/createTreeContextMenuItems.ts:149-244 | each of the three dropdowns has the enabled state and the callback of its first entry |
| TreeContextMenu.SampleValueSelection | src/lib/components/modes/treemode/contextmenu/createTreeContextMenuItems.ts:92-122 | in `{"a": [1,2,3]}` with the value of "a" selected, key and value are editable, enforce-string is not, and conversion to object and value (not array) is offered |
| TreeContextMenu.SampleAfterSelection | src/lib/components/modes/treemode/contextmenu/createTreeContextMenuItems.ts:113-116 | in the same document, a marker after `["a", 1]` enables the structure button |
| TableContextMenu.TableEligibility | src/lib/components/modes/tablemode/contextmenu/createTableContextMenuItems.ts:52-68 | enforcing a string requires editing the value and never applies to an object or array; without a document there is no focus value and no value editing; cut is allowed iff writable with contents; read-only allows no edit, enforce or cut; with no selection the enforce flag is off |
| TableContextMenu.TableAgreesWithTree | src/lib/components/modes/tablemode/contextmenu/createTableContextMenuItems.ts:52-68 | the table decides focus value, contents, value editing, enforce-string, cut and the enforce flag exactly as the tree view does |
| TableContextMenu.TableMenuButtons | src/lib/components/modes/tablemode/contextmenu/createTableContextMenuItems.ts:70-235 | the menu holds exactly the ten cell buttons and the five row buttons whatever is enabled |
| TableContextMenu.ReadOnlyLeavesOnlyCopy | src/lib/components/modes/tablemode/contextmenu/createTableContextMenuItems.ts:61-229 | in read-only mode every enabled button is a copy button, and the copy buttons are enabled exactly when the selection has contents |
| TableContextMenu.ClipboardButtons | src/lib/components/modes/tablemode/contextmenu/createTableContextMenuItems.ts:109-168 | copy buttons follow the selected contents alone; the cut main, gated by `canCut`, and its entries, gated by read-only and contents directly, are always disabled together |
| TableContextMenu.RowCommandsShareOneCondition | src/lib/components/modes/tablemode/contextmenu/createTableContextMenuItems.ts:187-231 | the five row buttons are enabled exactly when the view is writable with a document and a selection, independently of what is selected |
| TableContextMenu.EnforceStringIcon | src/lib/components/modes/tablemode/contextmenu/createTableContextMenuItems.ts:67-105 | the toggle shows a checked box exactly when a selection's focused node has the flag set; with no selection it is unchecked and disabled |
| TableContextMenu.TableDropdowns | src/lib/components/modes/tablemode/contextmenu/createTableContextMenuItems.ts:80-168 | the edit and cut dropdowns mirror their first entry; the copy dropdown's main calls copy with indentation while its "Copy formatted" entry calls it without, though both are enabled together |
| TableContextMenu.TableCopyDropdownBreaksMirroring | src/lib/components/modes/tablemode/contextmenu/createTableContextMenuItems.ts:139-168 | for every input the table menu as a whole breaks the dropdown-mirroring rule, at the copy dropdown |
| TableContextMenu.TableMenuHasFixedShape | src/lib/components/modes/tablemode/contextmenu/createTableContextMenuItems.ts:70-235 | every input yields a separator and one row of two columns: label, three dropdowns, two buttons; and label, five buttons |
| TableContextMenu.TableHeadings | src/lib/components/modes/tablemode/contextmenu/createTableContextMenuItems.ts:78-190 | the two columns are headed "Table cell:" and "Table row:" |

## Left out

- Button titles (tooltips) are not modelled. The tree view's titles are partly built from the insert/convert heading. Only the visible captions are kept, as `Caption` identifiers with a wording table per view.
- Icons are names, not the imported SVG and Svelte assets.
- The callbacks' effects (editing, clipboard, conversion) are not modelled. A click is the `Action` value it would invoke.
- Dropdown widths are whole numbers of em (`11em` becomes 11).
- `getIn`, `initial`, `getFocusPath`, `singleItemSelected`, `canConvert`, `isObject`, `isObjectOrArray` and `getEnforceString` live in other modules of the repository and are not part of this model. They are modelled from their names and uses:
  - `getIn` answers `None` for a missing segment;
  - a key segment only enters an object and an index segment only enters an array;
  - `singleItemSelected` means a key or value selection;
  - `canConvert` means a multi or value selection;
  - `isObject` excludes arrays;
  - `getEnforceString` reads the recorded flag of an existing node, and otherwise false;
  - the focus path of a multi-selection is its focus end.
- Object member order and number representation play no role in the menus. Numbers are `real` and objects are maps.
- The resize observer, the escape-key action, the event bus and the build configuration are not part of this model. They are view plumbing that no menu decision depends on.
