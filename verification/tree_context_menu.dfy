/**
 * The tree view's context menu: which commands the current document,
 * selection and read-only flag allow, and the fixed menu layout that shows
 * them. Clicks are modelled as the `Action` they would invoke.
 */
module TreeContextMenu {
  import opened Wrappers
  import opened JsonValue
  import opened Selections
  import opened DocumentStates
  import opened Menu

  /** The booleans (and the two looked-up values) the tree menu is built from. */
  datatype Eligibility = Eligibility(
    hasJson: bool,
    hasSelection: bool,
    rootSelected: bool,
    focusValue: Option<Json>,
    hasSelectionContents: bool,
    parent: Option<Json>,
    canEditKey: bool,
    canEditValue: bool,
    canEnforceString: bool,
    canCut: bool,
    canCopy: bool,
    canPaste: bool,
    canDuplicate: bool,
    canExtract: bool,
    convertMode: bool,
    canInsertOrConvertStructure: bool,
    canInsertOrConvertObject: bool,
    canInsertOrConvertArray: bool,
    canInsertOrConvertValue: bool,
    enforceString: bool)

  /** No command that changes the document is allowed. */
  predicate NothingMutable(e: Eligibility) {
    && !e.canEditKey && !e.canEditValue && !e.canEnforceString && !e.canCut && !e.canPaste
    && !e.canDuplicate && !e.canExtract && !e.canInsertOrConvertStructure
    && !e.canInsertOrConvertObject && !e.canInsertOrConvertArray && !e.canInsertOrConvertValue
  }

  /** The kind a convert target would have to differ from: object, array, or anything else. */
  function KindOf(v: Option<Json>): ConvertType {
    if IsObject(v) then ConvertObject else if IsArray(v) then ConvertArray else ConvertValue
  }

  /** The insert/convert button of a kind, read as the conversion target it stands for. */
  function TargetOf(kind: InsertType): Option<ConvertType> {
    match kind
    case InsertStructure => None
    case InsertObject => Some(ConvertObject)
    case InsertArray => Some(ConvertArray)
    case InsertValue => Some(ConvertValue)
  }

  /** The insert/convert button that converts to a target. */
  function KindFor(target: ConvertType): (kind: InsertType)
    ensures TargetOf(kind) == Some(target)
  {
    match target
    case ConvertObject => InsertObject
    case ConvertArray => InsertArray
    case ConvertValue => InsertValue
  }

  /** The flag that enables the insert/convert button of a kind. */
  function Allowed(e: Eligibility, kind: InsertType): bool {
    match kind
    case InsertStructure => e.canInsertOrConvertStructure
    case InsertObject => e.canInsertOrConvertObject
    case InsertArray => e.canInsertOrConvertArray
    case InsertValue => e.canInsertOrConvertValue
  }

  /** The element an insertion marker points into, or the list it sits in, is an array. */
  predicate StructureTarget(json: Option<Json>, selection: Option<Selection>) {
    match selection
    case Some(InsideSelection(path)) => IsArray(GetIn(json, path))
    case Some(AfterSelection(path)) => path != [] && IsArray(GetIn(json, Initial(path)))
    case _ => false
  }

  function TreeEligibility(
    json: Option<Json>, documentState: Option<DocumentState>,
    selection: Option<Selection>, readOnly: bool): (e: Eligibility)
    ensures e.canEnforceString ==> e.canEditValue
    ensures IsObjectOrArray(e.focusValue) ==> !e.canEnforceString
    ensures e.rootSelected <==> selection.Some? && FocusPath(selection.value) == []
    ensures e.parent ==
      if selection.Some? && FocusPath(selection.value) != [] then GetIn(json, Initial(FocusPath(selection.value)))
      else None
    ensures e.canEditKey ==> !e.rootSelected && !IsArray(e.parent)
    ensures e.rootSelected ==> !e.canEditKey && !e.canDuplicate && !e.canExtract
    ensures readOnly ==> NothingMutable(e)
    ensures e.canCopy == e.hasSelectionContents == HasSelectionContents(json, selection)
    ensures e.convertMode == e.hasSelectionContents
    ensures selection.None? ==> NothingMutable(e) && !e.canCopy && !e.enforceString
    ensures !e.hasJson ==>
      !e.canEditKey && !e.canEditValue && !e.canCut && !e.canCopy && !e.canDuplicate && !e.canExtract
  {
    var hasJson := json.Some?;
    var hasSelection := selection.Some?;
    var rootSelected := if selection.Some? then FocusPath(selection.value) == [] else false;
    var focusValue := if selection.Some? then GetIn(json, FocusPath(selection.value)) else None;
    var hasSelectionContents := HasSelectionContents(json, selection);
    var parent :=
      if selection.Some? && !rootSelected then GetIn(json, Initial(FocusPath(selection.value)))
      else None;
    var canEditKey :=
      !readOnly && hasJson && SingleItemSelected(selection) && !rootSelected && !IsArray(parent);
    var canEditValue := !readOnly && hasJson && selection.Some? && SingleItemSelected(selection);
    var canEnforceString := canEditValue && !IsObjectOrArray(focusValue);
    var canCut := !readOnly && hasSelectionContents;
    var canCopy := hasSelectionContents;
    var canPaste := !readOnly && hasSelection;
    var canDuplicate := !readOnly && hasJson && hasSelectionContents && !rootSelected;
    var canExtract :=
      !readOnly && hasJson && selection.Some?
      && (IsMultiSelection(selection) || IsValueSelection(selection)) && !rootSelected;
    var convertMode := hasSelectionContents;
    var canInsertOrConvertStructure :=
      !readOnly
      && ((IsInsideSelection(selection) && IsArray(focusValue))
          || (IsAfterSelection(selection) && IsArray(parent)));
    var canInsertOrConvertObject :=
      !readOnly && (if convertMode then CanConvert(selection) && !IsObject(focusValue) else hasSelection);
    var canInsertOrConvertArray :=
      !readOnly && (if convertMode then CanConvert(selection) && !IsArray(focusValue) else hasSelection);
    var canInsertOrConvertValue :=
      !readOnly && (if convertMode then CanConvert(selection) && IsObjectOrArray(focusValue) else hasSelection);
    var enforceString :=
      if selection.Some? then GetEnforceString(json, documentState, FocusPath(selection.value))
      else false;
    Eligibility(
      hasJson, hasSelection, rootSelected, focusValue, hasSelectionContents, parent,
      canEditKey, canEditValue, canEnforceString, canCut, canCopy, canPaste, canDuplicate,
      canExtract, convertMode, canInsertOrConvertStructure, canInsertOrConvertObject,
      canInsertOrConvertArray, canInsertOrConvertValue, enforceString)
  }

  /** The heading of the insert/convert column. */
  function InsertOrConvertHeading(convertMode: bool): Caption {
    if convertMode then ConvertHeading else InsertHeading
  }

  /** The tree view's wording of each caption it uses. */
  function TreeText(c: Caption): string {
    match c
    case EditKeyCaption => "编辑-字段"
    case EditValueCaption => "编辑-值"
    case EnforceStringCaption => "强转字符串"
    case CutCaption => "剪切"
    case CutFormattedCaption => "Cut formatted"
    case CutCompactedCaption => "Cut compacted"
    case CopyCaption => "复制"
    case CopyFormattedCaption => "Copy formatted"
    case CopyCompactedCaption => "Copy compacted"
    case PasteCaption => "粘贴"
    case DuplicateCaption => "复制插入"
    case ExtractCaption => "截取覆盖"
    case SortCaption => "排序"
    case RemoveCaption => "删除"
    case InsertHeading => "插入:"
    case ConvertHeading => "转换为:"
    case StructureCaption => "自定义"
    case ObjectCaption => "对象"
    case ArrayCaption => "数组"
    case ValueCaption => "值"
    case InsertBeforeCaption => "之前插入"
    case InsertAfterCaption => "之后插入"
    case _ => ""
  }

  /**
   * `handleInsertOrConvert`: selected content is converted (a structure is
   * never a conversion target, so that click does nothing); otherwise the
   * kind is inserted at the marker.
   */
  function HandleInsertOrConvert(hasSelectionContents: bool, kind: InsertType): (a: Action)
    ensures !hasSelectionContents ==> a == Insert(kind)
    ensures hasSelectionContents ==> !a.Insert?
    ensures a.NoOp? <==> hasSelectionContents && kind == InsertStructure
    ensures a.Convert? ==> kind == match a.target
      case ConvertObject => InsertObject
      case ConvertArray => InsertArray
      case ConvertValue => InsertValue
    ensures ActionKind(a) == kind
  {
    if hasSelectionContents then
      match kind
      case InsertStructure => NoOp
      case InsertObject => Convert(ConvertObject)
      case InsertArray => Convert(ConvertArray)
      case InsertValue => Convert(ConvertValue)
    else
      Insert(kind)
  }

  /** The insert/convert button an action comes from; it undoes `HandleInsertOrConvert`. */
  function ActionKind(a: Action): InsertType {
    match a
    case Insert(kind) => kind
    case Convert(target) => KindFor(target)
    case _ => InsertStructure
  }

  // Buttons, one per entry of the menu literal.

  function EditKeyButton(e: Eligibility): Button {
    Button(EditKeyCaption, PenIcon, !e.canEditKey, EditKey)
  }

  function EditValueButton(e: Eligibility): Button {
    Button(EditValueCaption, PenIcon, !e.canEditValue, EditValue)
  }

  /** The enforce-string toggle; its icon shows whether the flag is set. */
  function EnforceStringButton(e: Eligibility): Button {
    Button(EnforceStringCaption, if e.enforceString then CheckSquareIcon else SquareIcon,
           !e.canEnforceString, ToggleEnforceString)
  }

  function CutButton(e: Eligibility): Button {
    Button(CutCaption, CutIcon, !e.canCut, Cut(true))
  }

  function CutFormattedButton(e: Eligibility): Button {
    Button(CutFormattedCaption, CutIcon, !e.canCut, Cut(true))
  }

  function CutCompactedButton(e: Eligibility): Button {
    Button(CutCompactedCaption, CutIcon, !e.canCut, Cut(false))
  }

  function CopyButton(e: Eligibility): Button {
    Button(CopyCaption, CopyIcon, !e.canCopy, Copy(true))
  }

  function CopyFormattedButton(e: Eligibility): Button {
    Button(CopyFormattedCaption, CopyIcon, !e.canCopy, Copy(true))
  }

  function CopyCompactedButton(e: Eligibility): Button {
    Button(CopyCompactedCaption, CopyIcon, !e.canCopy, Copy(false))
  }

  function PasteButton(e: Eligibility): Button {
    Button(PasteCaption, PasteIcon, !e.canPaste, Paste)
  }

  function DuplicateButton(e: Eligibility): Button {
    Button(DuplicateCaption, CloneIcon, !e.canDuplicate, Duplicate)
  }

  function ExtractButton(e: Eligibility): Button {
    Button(ExtractCaption, CropAltIcon, !e.canExtract, Extract)
  }

  function SortButton(e: Eligibility, readOnly: bool): Button {
    Button(SortCaption, SortAmountDownAltIcon, readOnly || !e.hasSelectionContents, Sort)
  }

  function RemoveButton(e: Eligibility, readOnly: bool): Button {
    Button(RemoveCaption, TrashCanIcon, readOnly || !e.hasSelectionContents, Remove)
  }

  /** The four insert/convert targets share one click handler and one icon. */
  function InsertOrConvertButton(e: Eligibility, kind: InsertType): Button {
    var caption := match kind
      case InsertStructure => StructureCaption
      case InsertObject => ObjectCaption
      case InsertArray => ArrayCaption
      case InsertValue => ValueCaption;
    var disabled := match kind
      case InsertStructure => !e.canInsertOrConvertStructure
      case InsertObject => !e.canInsertOrConvertObject
      case InsertArray => !e.canInsertOrConvertArray
      case InsertValue => !e.canInsertOrConvertValue;
    Button(caption, if e.convertMode then ArrowRightArrowLeftIcon else PlusIcon, disabled,
           HandleInsertOrConvert(e.hasSelectionContents, kind))
  }

  function InsertBeforeButton(e: Eligibility, readOnly: bool): Button {
    Button(InsertBeforeCaption, CaretSquareUpIcon,
           readOnly || !e.hasSelectionContents || e.rootSelected, InsertBefore)
  }

  function InsertAfterButton(e: Eligibility, readOnly: bool): Button {
    Button(InsertAfterCaption, CaretSquareDownIcon,
           readOnly || !e.hasSelectionContents || e.rootSelected, InsertAfter)
  }

  // Rows and columns.

  /** First row: edit the key; edit the value, with the enforce-string toggle beneath it. */
  function EditRow(e: Eligibility): MenuItem {
    Row([ ButtonItem(EditKeyButton(e)),
          DropdownButton(EditValueButton(e), 11, [EditValueButton(e), EnforceStringButton(e)]) ])
  }

  /** Second row: cut and copy (formatted or compacted) and paste. */
  function ClipboardRow(e: Eligibility): MenuItem {
    Row([ DropdownButton(CutButton(e), 10, [CutFormattedButton(e), CutCompactedButton(e)]),
          DropdownButton(CopyButton(e), 12, [CopyFormattedButton(e), CopyCompactedButton(e)]),
          ButtonItem(PasteButton(e)) ])
  }

  /** Third row, left column: duplicate, extract, sort and remove. */
  function ContentColumn(e: Eligibility, readOnly: bool): MenuItem {
    Column([ ButtonItem(DuplicateButton(e)), ButtonItem(ExtractButton(e)),
             ButtonItem(SortButton(e, readOnly)), ButtonItem(RemoveButton(e, readOnly)) ])
  }

  /** Third row, right column: the insert/convert heading and its four targets. */
  function InsertOrConvertColumn(e: Eligibility): MenuItem {
    Column([ Label(InsertOrConvertHeading(e.convertMode)),
             ButtonItem(InsertOrConvertButton(e, InsertStructure)),
             ButtonItem(InsertOrConvertButton(e, InsertObject)),
             ButtonItem(InsertOrConvertButton(e, InsertArray)),
             ButtonItem(InsertOrConvertButton(e, InsertValue)) ])
  }

  /** Last row: move the selection to an insertion point before or after the entry. */
  function InsertAroundRow(e: Eligibility, readOnly: bool): MenuItem {
    Row([ ButtonItem(InsertBeforeButton(e, readOnly)), ButtonItem(InsertAfterButton(e, readOnly)) ])
  }

  /** The menu for given eligibility: four rows split by separators, nothing ever omitted. */
  function TreeMenuItems(e: Eligibility, readOnly: bool): seq<MenuItem> {
    [ EditRow(e), Separator,
      ClipboardRow(e), Separator,
      Row([ContentColumn(e, readOnly), InsertOrConvertColumn(e)]), Separator,
      InsertAroundRow(e, readOnly) ]
  }

  /** The tree view's context menu (the module's default export). */
  function CreateTreeContextMenuItems(
    json: Option<Json>, documentState: Option<DocumentState>,
    selection: Option<Selection>, readOnly: bool): seq<MenuItem>
  {
    TreeMenuItems(TreeEligibility(json, documentState, selection, readOnly), readOnly)
  }

  // The buttons of each row, one predicate per row.

  predicate InEditRow(e: Eligibility, b: Button) {
    b == EditKeyButton(e) || b == EditValueButton(e) || b == EnforceStringButton(e)
  }

  predicate InClipboardRow(e: Eligibility, b: Button) {
    || b == CutButton(e) || b == CutFormattedButton(e) || b == CutCompactedButton(e)
    || b == CopyButton(e) || b == CopyFormattedButton(e) || b == CopyCompactedButton(e)
    || b == PasteButton(e)
  }

  predicate InContentColumn(e: Eligibility, readOnly: bool, b: Button) {
    || b == DuplicateButton(e) || b == ExtractButton(e)
    || b == SortButton(e, readOnly) || b == RemoveButton(e, readOnly)
  }

  predicate InInsertOrConvertColumn(e: Eligibility, b: Button) {
    || b == InsertOrConvertButton(e, InsertStructure) || b == InsertOrConvertButton(e, InsertObject)
    || b == InsertOrConvertButton(e, InsertArray) || b == InsertOrConvertButton(e, InsertValue)
  }

  predicate InInsertAroundRow(e: Eligibility, readOnly: bool, b: Button) {
    b == InsertBeforeButton(e, readOnly) || b == InsertAfterButton(e, readOnly)
  }

  /** The buttons of the menu as a set of values; order and repetition are fixed by the per-row lemmas. */
  predicate IsTreeButton(e: Eligibility, readOnly: bool, b: Button) {
    || InEditRow(e, b) || InClipboardRow(e, b) || InContentColumn(e, readOnly, b)
    || InInsertOrConvertColumn(e, b) || InInsertAroundRow(e, readOnly, b)
  }

  lemma EditRowButtons(e: Eligibility)
    ensures ItemButtons(EditRow(e))
         == [EditKeyButton(e), EditValueButton(e), EditValueButton(e), EnforceStringButton(e)]
  {
    var items := EditRow(e).items;
    assert Buttons(items[1..]) == [EditValueButton(e), EditValueButton(e), EnforceStringButton(e)] by {
      assert items[1..][1..] == [];
    }
    assert Buttons(items) == [EditKeyButton(e)] + Buttons(items[1..]);
    assert ItemButtons(EditRow(e)) == Buttons(items);
  }

  lemma ClipboardRowButtons(e: Eligibility)
    ensures ItemButtons(ClipboardRow(e))
         == [ CutButton(e), CutFormattedButton(e), CutCompactedButton(e),
              CopyButton(e), CopyFormattedButton(e), CopyCompactedButton(e), PasteButton(e) ]
  {
    var items := ClipboardRow(e).items;
    assert Buttons(items[2..]) == [PasteButton(e)] by {
      assert items[2..][1..] == [];
    }
    assert items[1..][1..] == items[2..];
    assert Buttons(items[1..]) == [CopyButton(e), CopyFormattedButton(e), CopyCompactedButton(e)] + Buttons(items[2..]);
    assert Buttons(items) == [CutButton(e), CutFormattedButton(e), CutCompactedButton(e)] + Buttons(items[1..]);
    assert ItemButtons(ClipboardRow(e)) == Buttons(items);
  }

  lemma ContentColumnButtons(e: Eligibility, readOnly: bool)
    ensures ItemButtons(ContentColumn(e, readOnly))
         == [DuplicateButton(e), ExtractButton(e), SortButton(e, readOnly), RemoveButton(e, readOnly)]
  {
    var items := ContentColumn(e, readOnly).items;
    assert Buttons(items[3..]) == [RemoveButton(e, readOnly)] by {
      assert items[3..][1..] == [];
    }
    assert items[2..][1..] == items[3..];
    assert Buttons(items[2..]) == [SortButton(e, readOnly)] + Buttons(items[3..]);
    assert items[1..][1..] == items[2..];
    assert Buttons(items[1..]) == [ExtractButton(e)] + Buttons(items[2..]);
    assert Buttons(items) == [DuplicateButton(e)] + Buttons(items[1..]);
    assert ItemButtons(ContentColumn(e, readOnly)) == Buttons(items);
  }

  lemma InsertOrConvertColumnButtons(e: Eligibility)
    ensures ItemButtons(InsertOrConvertColumn(e))
         == [ InsertOrConvertButton(e, InsertStructure), InsertOrConvertButton(e, InsertObject),
              InsertOrConvertButton(e, InsertArray), InsertOrConvertButton(e, InsertValue) ]
  {
    var items := InsertOrConvertColumn(e).items;
    assert Buttons(items[4..]) == [InsertOrConvertButton(e, InsertValue)] by {
      assert items[4..][1..] == [];
    }
    assert items[3..][1..] == items[4..];
    assert Buttons(items[3..]) == [InsertOrConvertButton(e, InsertArray)] + Buttons(items[4..]);
    assert items[2..][1..] == items[3..];
    assert Buttons(items[2..]) == [InsertOrConvertButton(e, InsertObject)] + Buttons(items[3..]);
    assert items[1..][1..] == items[2..];
    assert Buttons(items[1..]) == [InsertOrConvertButton(e, InsertStructure)] + Buttons(items[2..]);
    assert Buttons(items) == [] + Buttons(items[1..]);
    assert ItemButtons(InsertOrConvertColumn(e)) == Buttons(items);
  }

  lemma InsertAroundRowButtons(e: Eligibility, readOnly: bool)
    ensures ItemButtons(InsertAroundRow(e, readOnly))
         == [InsertBeforeButton(e, readOnly), InsertAfterButton(e, readOnly)]
  {
    var items := InsertAroundRow(e, readOnly).items;
    assert Buttons(items[1..]) == [InsertAfterButton(e, readOnly)] by {
      assert items[1..][1..] == [];
    }
    assert Buttons(items) == [InsertBeforeButton(e, readOnly)] + Buttons(items[1..]);
    assert ItemButtons(InsertAroundRow(e, readOnly)) == Buttons(items);
  }

  lemma CommandRowButtons(e: Eligibility, readOnly: bool)
    ensures forall b :: b in ItemButtons(Row([ContentColumn(e, readOnly), InsertOrConvertColumn(e)])) <==>
      b in ItemButtons(ContentColumn(e, readOnly)) || b in ItemButtons(InsertOrConvertColumn(e))
  {
    var items := [ContentColumn(e, readOnly), InsertOrConvertColumn(e)];
    assert Buttons(items[1..]) == ItemButtons(InsertOrConvertColumn(e)) by {
      assert items[1..][1..] == [];
    }
  }

  lemma LowerRowsButtonsByRow(e: Eligibility, readOnly: bool, b: Button)
    ensures var items := TreeMenuItems(e, readOnly);
      b in Buttons(items[4..]) <==> b in ItemButtons(items[4]) || b in ItemButtons(items[6])
  {
    var items := TreeMenuItems(e, readOnly);
    InButtonsCons(items[4..], b);
    assert items[4..][1..] == items[5..];
    InButtonsCons(items[5..], b);
    assert items[5..][1..] == items[6..];
    InButtonsCons(items[6..], b);
    assert items[6..][1..] == [];
  }

  /** The rows of the menu hold its buttons; the separators hold none. */
  lemma TreeMenuButtonsByRow(e: Eligibility, readOnly: bool, b: Button)
    ensures var items := TreeMenuItems(e, readOnly);
      b in Buttons(items) <==>
        b in ItemButtons(items[0]) || b in ItemButtons(items[2]) || b in ItemButtons(items[4]) || b in ItemButtons(items[6])
  {
    var items := TreeMenuItems(e, readOnly);
    LowerRowsButtonsByRow(e, readOnly, b);
    InButtonsCons(items, b);
    assert items[1..][1..] == items[2..];
    InButtonsCons(items[1..], b);
    InButtonsCons(items[2..], b);
    assert items[2..][1..] == items[3..];
    InButtonsCons(items[3..], b);
    assert items[3..][1..] == items[4..];
  }

  lemma UpperRowsButtons(e: Eligibility, b: Button)
    ensures b in ItemButtons(EditRow(e)) <==> InEditRow(e, b)
    ensures b in ItemButtons(ClipboardRow(e)) <==> InClipboardRow(e, b)
  {
    EditRowButtons(e);
    ClipboardRowButtons(e);
  }

  lemma LowerRowsButtons(e: Eligibility, readOnly: bool, b: Button)
    ensures b in ItemButtons(Row([ContentColumn(e, readOnly), InsertOrConvertColumn(e)]))
        <==> InContentColumn(e, readOnly, b) || InInsertOrConvertColumn(e, b)
    ensures b in ItemButtons(InsertAroundRow(e, readOnly)) <==> InInsertAroundRow(e, readOnly, b)
  {
    ContentColumnButtons(e, readOnly);
    InsertOrConvertColumnButtons(e);
    CommandRowButtons(e, readOnly);
    InsertAroundRowButtons(e, readOnly);
  }

  /** The menu holds exactly these buttons, whatever is enabled: no command is ever left out. */
  lemma TreeMenuButtons(e: Eligibility, readOnly: bool, b: Button)
    ensures b in Buttons(TreeMenuItems(e, readOnly)) <==> IsTreeButton(e, readOnly, b)
  {
    UpperRowsButtons(e, b);
    LowerRowsButtons(e, readOnly, b);
    TreeMenuButtonsByRow(e, readOnly, b);
  }

  // What the menu promises, stated over the buttons a user can see. Each property is
  // first proved for one button of a menu built from any eligibility record.

  /** A button whose command changes the document is disabled when its flag is off. */
  lemma ReadOnlyButton(e: Eligibility, b: Button)
    requires NothingMutable(e)
    requires b in Buttons(TreeMenuItems(e, true))
    ensures !b.disabled ==> b.onClick.Copy?
    ensures b.onClick.Copy? ==> (b.disabled <==> !e.canCopy)
  {
    TreeMenuButtons(e, true, b);
  }

  /** In a read-only view only the three copy buttons can be enabled, and they follow the selection alone. */
  lemma ReadOnlyLeavesOnlyCopy(
    json: Option<Json>, documentState: Option<DocumentState>, selection: Option<Selection>)
    ensures forall b | b in Buttons(CreateTreeContextMenuItems(json, documentState, selection, true)) ::
      !b.disabled ==> b.onClick.Copy?
    ensures forall b | b in Buttons(CreateTreeContextMenuItems(json, documentState, selection, true)) ::
      b.onClick.Copy? ==> (b.disabled <==> !HasSelectionContents(json, selection))
  {
    var e := TreeEligibility(json, documentState, selection, true);
    forall b | b in Buttons(TreeMenuItems(e, true))
      ensures !b.disabled ==> b.onClick.Copy?
      ensures b.onClick.Copy? ==> (b.disabled <==> !HasSelectionContents(json, selection))
    {
      ReadOnlyButton(e, b);
    }
  }

  lemma CopyButtonFollowsContents(e: Eligibility, readOnly: bool, b: Button)
    requires b in Buttons(TreeMenuItems(e, readOnly))
    ensures b.onClick.Copy? ==> (b.disabled <==> !e.canCopy)
  {
    TreeMenuButtons(e, readOnly, b);
  }

  /** Whatever the mode, the copy buttons are enabled exactly when the selection has contents. */
  lemma CopyFollowsSelectionContents(
    json: Option<Json>, documentState: Option<DocumentState>, selection: Option<Selection>, readOnly: bool)
    ensures forall b | b in Buttons(CreateTreeContextMenuItems(json, documentState, selection, readOnly)) ::
      b.onClick.Copy? ==> (b.disabled <==> !HasSelectionContents(json, selection))
  {
    var e := TreeEligibility(json, documentState, selection, readOnly);
    forall b | b in Buttons(TreeMenuItems(e, readOnly))
      ensures b.onClick.Copy? ==> (b.disabled <==> !HasSelectionContents(json, selection))
    {
      CopyButtonFollowsContents(e, readOnly, b);
    }
  }

  lemma RootButton(e: Eligibility, readOnly: bool, b: Button)
    requires e.rootSelected && !e.canEditKey && !e.canDuplicate && !e.canExtract
    requires b in Buttons(TreeMenuItems(e, readOnly))
    ensures (b.onClick.EditKey? || b.onClick.Duplicate? || b.onClick.Extract?
             || b.onClick.InsertBefore? || b.onClick.InsertAfter?) ==> b.disabled
  {
    TreeMenuButtons(e, readOnly, b);
  }

  /** The root has no siblings and no parent: nothing that places something beside it is enabled. */
  lemma RootSelectedDisablesPlacement(
    json: Option<Json>, documentState: Option<DocumentState>, selection: Option<Selection>, readOnly: bool)
    requires selection.Some? && FocusPath(selection.value) == []
    ensures forall b | b in Buttons(CreateTreeContextMenuItems(json, documentState, selection, readOnly)) ::
      (b.onClick.EditKey? || b.onClick.Duplicate? || b.onClick.Extract?
       || b.onClick.InsertBefore? || b.onClick.InsertAfter?) ==> b.disabled
  {
    var e := TreeEligibility(json, documentState, selection, readOnly);
    forall b | b in Buttons(TreeMenuItems(e, readOnly))
      ensures (b.onClick.EditKey? || b.onClick.Duplicate? || b.onClick.Extract?
               || b.onClick.InsertBefore? || b.onClick.InsertAfter?) ==> b.disabled
    {
      RootButton(e, readOnly, b);
    }
  }

  /** Only the four insert/convert buttons insert, convert or do nothing; the action names the button. */
  lemma InsertOrConvertButtonsOnly(e: Eligibility, readOnly: bool, b: Button)
    requires b in Buttons(TreeMenuItems(e, readOnly))
    requires b.onClick.Insert? || b.onClick.Convert? || b.onClick.NoOp?
    ensures b == InsertOrConvertButton(e, ActionKind(b.onClick))
  {
    TreeMenuButtons(e, readOnly, b);
  }

  /**
   * What enables each insert/convert target: a structure needs an insertion marker inside
   * an array or after one of its elements; in insert mode the other kinds need only a
   * selection; in convert mode a kind needs a convertible selection of a different kind.
   */
  lemma InsertOrConvertEligibility(
    json: Option<Json>, documentState: Option<DocumentState>, selection: Option<Selection>,
    readOnly: bool, kind: InsertType)
    ensures var e := TreeEligibility(json, documentState, selection, readOnly);
      kind == InsertStructure ==> (Allowed(e, kind) <==> !readOnly && StructureTarget(json, selection))
    ensures var e := TreeEligibility(json, documentState, selection, readOnly);
      kind != InsertStructure && !HasSelectionContents(json, selection) ==>
        (Allowed(e, kind) <==> !readOnly && selection.Some?)
    ensures var e := TreeEligibility(json, documentState, selection, readOnly);
      kind != InsertStructure && HasSelectionContents(json, selection) ==>
        (Allowed(e, kind) <==>
           !readOnly && CanConvert(selection)
           && Some(KindOf(GetIn(json, FocusPath(selection.value)))) != TargetOf(kind))
    ensures HasSelectionContents(json, selection) ==> !StructureTarget(json, selection)
  {
  }

  /** With no selected contents every kind is offered for insertion, and nothing is converted. */
  lemma InsertModeOffersEveryKind(
    json: Option<Json>, documentState: Option<DocumentState>, selection: Option<Selection>, readOnly: bool)
    requires !HasSelectionContents(json, selection)
    ensures forall b | b in Buttons(CreateTreeContextMenuItems(json, documentState, selection, readOnly)) ::
      && !b.onClick.Convert? && !b.onClick.NoOp?
      && (b.onClick.Insert? ==> b.icon == PlusIcon)
      && (b.onClick.Insert? && b.onClick.kind != InsertStructure ==>
            (b.disabled <==> readOnly || selection.None?))
      && (b.onClick == Insert(InsertStructure) ==>
            (b.disabled <==> readOnly || !StructureTarget(json, selection)))
  {
    var e := TreeEligibility(json, documentState, selection, readOnly);
    forall b | b in Buttons(TreeMenuItems(e, readOnly))
      ensures && !b.onClick.Convert? && !b.onClick.NoOp?
        && (b.onClick.Insert? ==> b.icon == PlusIcon)
        && (b.onClick.Insert? && b.onClick.kind != InsertStructure ==>
              (b.disabled <==> readOnly || selection.None?))
        && (b.onClick == Insert(InsertStructure) ==>
              (b.disabled <==> readOnly || !StructureTarget(json, selection)))
    {
      if b.onClick.Insert? || b.onClick.Convert? || b.onClick.NoOp? {
        InsertOrConvertButtonsOnly(e, readOnly, b);
        InsertOrConvertEligibility(json, documentState, selection, readOnly, ActionKind(b.onClick));
      }
    }
  }

  /**
   * With selected contents nothing is inserted: a target is enabled exactly when the
   * selection may be converted and is not already of that kind, and the structure
   * button, whose click would do nothing, is never enabled.
   */
  lemma ConvertModeTargets(
    json: Option<Json>, documentState: Option<DocumentState>, selection: Option<Selection>, readOnly: bool)
    requires HasSelectionContents(json, selection)
    ensures forall b | b in Buttons(CreateTreeContextMenuItems(json, documentState, selection, readOnly)) ::
      && !b.onClick.Insert?
      && (b.onClick.Convert? ==> b.icon == ArrowRightArrowLeftIcon)
      && (b.onClick.NoOp? ==> b.disabled)
      && (b.onClick.Convert? ==>
            (b.disabled <==> readOnly || !CanConvert(selection)
                             || KindOf(GetIn(json, FocusPath(selection.value))) == b.onClick.target))
  {
    var e := TreeEligibility(json, documentState, selection, readOnly);
    forall b | b in Buttons(TreeMenuItems(e, readOnly))
      ensures && !b.onClick.Insert?
        && (b.onClick.Convert? ==> b.icon == ArrowRightArrowLeftIcon)
        && (b.onClick.NoOp? ==> b.disabled)
        && (b.onClick.Convert? ==>
              (b.disabled <==> readOnly || !CanConvert(selection)
                               || KindOf(GetIn(json, FocusPath(selection.value))) == b.onClick.target))
    {
      if b.onClick.Insert? || b.onClick.Convert? || b.onClick.NoOp? {
        InsertOrConvertButtonsOnly(e, readOnly, b);
        InsertOrConvertEligibility(json, documentState, selection, readOnly, ActionKind(b.onClick));
      }
    }
  }

  lemma InsertOrConvertLabel(e: Eligibility, readOnly: bool)
    ensures var column := TreeMenuItems(e, readOnly)[4].items[1];
      column.Column? && column.items[0] == Label(InsertOrConvertHeading(e.convertMode))
  {
  }

  /** The label above the four targets says whether they insert or convert. */
  lemma InsertOrConvertHeadingText(
    json: Option<Json>, documentState: Option<DocumentState>, selection: Option<Selection>, readOnly: bool)
    ensures var column := CreateTreeContextMenuItems(json, documentState, selection, readOnly)[4].items[1];
      && column.Column? && column.items[0].Label?
      && TreeText(column.items[0].caption)
         == if HasSelectionContents(json, selection) then "转换为:" else "插入:"
  {
    var e := TreeEligibility(json, documentState, selection, readOnly);
    assert CreateTreeContextMenuItems(json, documentState, selection, readOnly) == TreeMenuItems(e, readOnly);
    InsertOrConvertLabel(e, readOnly);
    assert TreeText(InsertOrConvertHeading(e.convertMode))
        == if HasSelectionContents(json, selection) then "转换为:" else "插入:";
  }

  /** A marker after an existing array element enables the structure button. */
  lemma AfterArrayElementAllowsStructure(
    json: Option<Json>, documentState: Option<DocumentState>, path: Path, readOnly: bool)
    requires path != [] && GetIn(json, path).Some? && path[|path| - 1].Index?
    ensures TreeEligibility(json, documentState, Some(AfterSelection(path)), readOnly).canInsertOrConvertStructure
        <==> !readOnly
  {
    ParentOfExisting(json, path);
  }

  /** On an existing entry, the key can be edited exactly when the entry is an object member. */
  lemma EditKeyMeansObjectMember(
    json: Option<Json>, documentState: Option<DocumentState>, selection: Option<Selection>, readOnly: bool)
    requires selection.Some? && GetIn(json, FocusPath(selection.value)).Some?
    ensures var path := FocusPath(selection.value);
      TreeEligibility(json, documentState, selection, readOnly).canEditKey <==>
        !readOnly && SingleItemSelected(selection) && path != [] && path[|path| - 1].Key?
  {
    var path := FocusPath(selection.value);
    if path != [] {
      ParentOfExisting(json, path);
    }
  }

  /** The layout every tree menu has, whatever is enabled. */
  const TreeMenuShape: seq<Shape> := [
    RowShape([ButtonShape, DropdownShape(2)]),
    SeparatorShape,
    RowShape([DropdownShape(2), DropdownShape(2), ButtonShape]),
    SeparatorShape,
    RowShape([ ColumnShape([ButtonShape, ButtonShape, ButtonShape, ButtonShape]),
               ColumnShape([LabelShape, ButtonShape, ButtonShape, ButtonShape, ButtonShape]) ]),
    SeparatorShape,
    RowShape([ButtonShape, ButtonShape])
  ]

  lemma EditRowShape(e: Eligibility)
    ensures ItemShape(EditRow(e)) == TreeMenuShape[0]
  {
    var items := EditRow(e).items;
    assert ShapeOf(items[1..]) == [DropdownShape(2)] by {
      assert items[1..][1..] == [];
      assert ShapeOf(items[1..]) == [ItemShape(items[1])] + [];
    }
    assert ShapeOf(items) == [ButtonShape] + [DropdownShape(2)];
  }

  lemma ClipboardRowShape(e: Eligibility)
    ensures ItemShape(ClipboardRow(e)) == TreeMenuShape[2]
  {
    var items := ClipboardRow(e).items;
    assert ShapeOf(items[2..]) == [ButtonShape] by {
      assert items[2..][1..] == [];
      assert ShapeOf(items[2..]) == [ItemShape(items[2])] + [];
    }
    assert ShapeOf(items[1..]) == [DropdownShape(2)] + [ButtonShape] by {
      assert items[1..][1..] == items[2..];
    }
    assert ShapeOf(items) == [DropdownShape(2)] + [DropdownShape(2), ButtonShape];
  }

  lemma ContentColumnShape(e: Eligibility, readOnly: bool)
    ensures ItemShape(ContentColumn(e, readOnly)) == TreeMenuShape[4].children[0]
  {
    var items := ContentColumn(e, readOnly).items;
    assert ShapeOf(items[3..]) == [ButtonShape] by {
      assert items[3..][1..] == [];
      assert ShapeOf(items[3..]) == [ItemShape(items[3])] + [];
    }
    assert ShapeOf(items[2..]) == [ButtonShape] + [ButtonShape] by {
      assert items[2..][1..] == items[3..];
    }
    assert ShapeOf(items[1..]) == [ButtonShape] + [ButtonShape, ButtonShape] by {
      assert items[1..][1..] == items[2..];
    }
    assert ShapeOf(items) == [ButtonShape] + [ButtonShape, ButtonShape, ButtonShape];
  }

  lemma InsertOrConvertColumnShape(e: Eligibility)
    ensures ItemShape(InsertOrConvertColumn(e)) == TreeMenuShape[4].children[1]
  {
    var items := InsertOrConvertColumn(e).items;
    assert ShapeOf(items[4..]) == [ButtonShape] by {
      assert items[4..][1..] == [];
      assert ShapeOf(items[4..]) == [ItemShape(items[4])] + [];
    }
    assert ShapeOf(items[3..]) == [ButtonShape] + [ButtonShape] by {
      assert items[3..][1..] == items[4..];
    }
    assert ShapeOf(items[2..]) == [ButtonShape] + [ButtonShape, ButtonShape] by {
      assert items[2..][1..] == items[3..];
    }
    assert ShapeOf(items[1..]) == [ButtonShape] + [ButtonShape, ButtonShape, ButtonShape] by {
      assert items[1..][1..] == items[2..];
    }
    assert ShapeOf(items) == [LabelShape] + [ButtonShape, ButtonShape, ButtonShape, ButtonShape];
  }

  lemma CommandRowShape(e: Eligibility, readOnly: bool)
    ensures ItemShape(Row([ContentColumn(e, readOnly), InsertOrConvertColumn(e)])) == TreeMenuShape[4]
  {
    ContentColumnShape(e, readOnly);
    InsertOrConvertColumnShape(e);
    var items := [ContentColumn(e, readOnly), InsertOrConvertColumn(e)];
    assert ShapeOf(items[1..]) == [TreeMenuShape[4].children[1]] by {
      assert items[1..][1..] == [];
      assert ShapeOf(items[1..]) == [ItemShape(items[1])] + [];
    }
    assert ShapeOf(items) == [TreeMenuShape[4].children[0]] + [TreeMenuShape[4].children[1]];
  }

  lemma InsertAroundRowShape(e: Eligibility, readOnly: bool)
    ensures ItemShape(InsertAroundRow(e, readOnly)) == TreeMenuShape[6]
  {
    var items := InsertAroundRow(e, readOnly).items;
    assert ShapeOf(items[1..]) == [ButtonShape] by {
      assert items[1..][1..] == [];
      assert ShapeOf(items[1..]) == [ItemShape(items[1])] + [];
    }
    assert ShapeOf(items) == [ButtonShape] + [ButtonShape];
  }

  /** The shape of the menu for any eligibility record. */
  lemma TreeMenuItemsShape(e: Eligibility, readOnly: bool)
    ensures ShapeOf(TreeMenuItems(e, readOnly)) == TreeMenuShape
  {
    var items := TreeMenuItems(e, readOnly);
    LowerRowsShape(e, readOnly);
    EditRowShape(e);
    ClipboardRowShape(e);
    assert ShapeOf(items[3..]) == TreeMenuShape[3..];
    assert ShapeOf(items[2..]) == TreeMenuShape[2..] by {
      assert items[2..][1..] == items[3..];
      assert ShapeOf(items[2..]) == [TreeMenuShape[2]] + TreeMenuShape[3..];
    }
    assert ShapeOf(items[1..]) == TreeMenuShape[1..] by {
      assert items[1..][1..] == items[2..];
      assert ShapeOf(items[1..]) == [SeparatorShape] + TreeMenuShape[2..];
    }
    assert ShapeOf(items) == [TreeMenuShape[0]] + TreeMenuShape[1..];
  }

  lemma LowerRowsShape(e: Eligibility, readOnly: bool)
    ensures ShapeOf(TreeMenuItems(e, readOnly)[3..]) == TreeMenuShape[3..]
  {
    var items := TreeMenuItems(e, readOnly);
    CommandRowShape(e, readOnly);
    InsertAroundRowShape(e, readOnly);
    assert ShapeOf(items[6..]) == TreeMenuShape[6..] by {
      assert items[6..][1..] == [];
      assert ShapeOf(items[6..]) == [ItemShape(items[6])] + [];
    }
    assert ShapeOf(items[5..]) == TreeMenuShape[5..] by {
      assert items[5..][1..] == items[6..];
      assert ShapeOf(items[5..]) == [SeparatorShape] + TreeMenuShape[6..];
    }
    assert ShapeOf(items[4..]) == TreeMenuShape[4..] by {
      assert items[4..][1..] == items[5..];
      assert ShapeOf(items[4..]) == [TreeMenuShape[4]] + TreeMenuShape[5..];
    }
    assert ShapeOf(items[3..]) == TreeMenuShape[3..] by {
      assert items[3..][1..] == items[4..];
      assert ShapeOf(items[3..]) == [SeparatorShape] + TreeMenuShape[4..];
    }
  }

  /** Nothing is ever hidden: every input yields the same rows, columns and separators. */
  lemma TreeMenuHasFixedShape(
    json: Option<Json>, documentState: Option<DocumentState>, selection: Option<Selection>, readOnly: bool)
    ensures ShapeOf(CreateTreeContextMenuItems(json, documentState, selection, readOnly)) == TreeMenuShape
  {
    TreeMenuItemsShape(TreeEligibility(json, documentState, selection, readOnly), readOnly);
  }

  lemma CommandRowMirrors(e: Eligibility, readOnly: bool)
    ensures ItemMirrors(Row([ContentColumn(e, readOnly), InsertOrConvertColumn(e)]))
  {
    var left := ContentColumn(e, readOnly).items;
    assert ItemMirrors(left[0]) && ItemMirrors(left[1]) && ItemMirrors(left[2]) && ItemMirrors(left[3]);
    assert ItemMirrors(ContentColumn(e, readOnly));
    var right := InsertOrConvertColumn(e).items;
    assert ItemMirrors(right[0]) && ItemMirrors(right[1]) && ItemMirrors(right[2]);
    assert ItemMirrors(right[3]) && ItemMirrors(right[4]);
    assert ItemMirrors(InsertOrConvertColumn(e));
  }

  lemma EditRowMirrors(e: Eligibility)
    ensures ItemMirrors(EditRow(e))
  {
    var items := EditRow(e).items;
    assert ItemMirrors(items[0]) && ItemMirrors(items[1]);
  }

  lemma ClipboardRowMirrors(e: Eligibility)
    ensures ItemMirrors(ClipboardRow(e))
  {
    var items := ClipboardRow(e).items;
    assert ItemMirrors(items[0]) && ItemMirrors(items[1]) && ItemMirrors(items[2]);
  }

  lemma InsertAroundRowMirrors(e: Eligibility, readOnly: bool)
    ensures ItemMirrors(InsertAroundRow(e, readOnly))
  {
    var items := InsertAroundRow(e, readOnly).items;
    assert ItemMirrors(items[0]) && ItemMirrors(items[1]);
  }

  lemma TreeMenuItemsMirror(e: Eligibility, readOnly: bool)
    ensures DropdownsMirror(TreeMenuItems(e, readOnly))
  {
    EditRowMirrors(e);
    ClipboardRowMirrors(e);
    CommandRowMirrors(e, readOnly);
    InsertAroundRowMirrors(e, readOnly);
    var items := TreeMenuItems(e, readOnly);
    assert ItemMirrors(items[1]) && ItemMirrors(items[3]) && ItemMirrors(items[5]);
  }

  /** Each dropdown's main button is enabled and acts exactly as the first entry below it. */
  lemma TreeDropdownsMirrorFirstEntry(
    json: Option<Json>, documentState: Option<DocumentState>, selection: Option<Selection>, readOnly: bool)
    ensures DropdownsMirror(CreateTreeContextMenuItems(json, documentState, selection, readOnly))
  {
    TreeMenuItemsMirror(TreeEligibility(json, documentState, selection, readOnly), readOnly);
  }

  /** The document `{"a": [1, 2, 3]}`. */
  const SampleDocument: Json := Object(map["a" := Array([Number(1.0), Number(2.0), Number(3.0)])])

  /** Selecting the array value of member "a": its key and value are editable, but it is no string. */
  lemma SampleValueSelection(documentState: Option<DocumentState>)
    ensures var e := TreeEligibility(Some(SampleDocument), documentState, Some(ValueSelection([Key("a")])), false);
      e.canEditKey && e.canEditValue && !e.canEnforceString && e.convertMode
      && e.canInsertOrConvertObject && !e.canInsertOrConvertArray && e.canInsertOrConvertValue
  {
    assert GetIn(Some(SampleDocument), [Key("a")]) == GetIn(Some(SampleDocument.fields["a"]), []);
  }

  /** A marker after the second element of that array allows inserting a structure. */
  lemma SampleAfterSelection(documentState: Option<DocumentState>)
    ensures TreeEligibility(Some(SampleDocument), documentState, Some(AfterSelection([Key("a"), Index(1)])), false)
      .canInsertOrConvertStructure
  {
    var path := [Key("a"), Index(1)];
    assert GetIn(Some(SampleDocument), path) == GetIn(Some(SampleDocument.fields["a"]), path[1..]);
    assert GetIn(Some(SampleDocument.fields["a"]), path[1..]) == GetIn(Some(Number(2.0)), []);
    AfterArrayElementAllowsStructure(Some(SampleDocument), documentState, path, false);
  }
}
