/**
 * The table view's context menu: a column of cell commands and a column of
 * row commands under one separator. It shares the document, selection and
 * document-state model with the tree view but offers fewer commands.
 */
module TableContextMenu {
  import opened Wrappers
  import opened JsonValue
  import opened Selections
  import opened DocumentStates
  import opened Menu
  import TreeContextMenu

  /** The booleans (and the looked-up focus value) the table menu is built from. */
  datatype Eligibility = Eligibility(
    hasJson: bool,
    hasSelection: bool,
    focusValue: Option<Json>,
    hasSelectionContents: bool,
    canEditValue: bool,
    canEnforceString: bool,
    canCut: bool,
    enforceString: bool)

  function TableEligibility(
    json: Option<Json>, documentState: Option<DocumentState>,
    selection: Option<Selection>, readOnly: bool): (e: Eligibility)
    ensures e.hasJson == json.Some? && e.hasSelection == selection.Some?
    ensures e.canEnforceString ==> e.canEditValue
    ensures IsObjectOrArray(e.focusValue) ==> !e.canEnforceString
    ensures json.None? ==> e.focusValue.None? && !e.canEditValue && !e.hasSelectionContents
    ensures e.hasSelectionContents == HasSelectionContents(json, selection)
    ensures e.canCut <==> !readOnly && e.hasSelectionContents
    ensures readOnly ==> !e.canEditValue && !e.canEnforceString && !e.canCut
    ensures selection.None? ==> !e.canEditValue && !e.hasSelectionContents && !e.enforceString
    ensures e.enforceString ==>
      selection.Some? && GetIn(json, FocusPath(selection.value)).Some?
  {
    var hasJson := json.Some?;
    var hasSelection := selection.Some?;
    var focusValue :=
      if json.Some? && selection.Some? then GetIn(json, FocusPath(selection.value)) else None;
    var hasSelectionContents :=
      hasJson && (IsMultiSelection(selection) || IsKeySelection(selection) || IsValueSelection(selection));
    var canEditValue := !readOnly && hasJson && selection.Some? && SingleItemSelected(selection);
    var canEnforceString := canEditValue && !IsObjectOrArray(focusValue);
    var canCut := !readOnly && hasSelectionContents;
    var enforceString :=
      if selection.Some? then GetEnforceString(json, documentState, FocusPath(selection.value))
      else false;
    Eligibility(
      hasJson, hasSelection, focusValue, hasSelectionContents, canEditValue, canEnforceString,
      canCut, enforceString)
  }

  /** The table view decides the shared commands exactly as the tree view does. */
  lemma TableAgreesWithTree(
    json: Option<Json>, documentState: Option<DocumentState>, selection: Option<Selection>, readOnly: bool)
    ensures var table := TableEligibility(json, documentState, selection, readOnly);
      var tree := TreeContextMenu.TreeEligibility(json, documentState, selection, readOnly);
      && table.focusValue == tree.focusValue
      && table.hasSelectionContents == tree.hasSelectionContents
      && table.canEditValue == tree.canEditValue
      && table.canEnforceString == tree.canEnforceString
      && table.canCut == tree.canCut
      && table.enforceString == tree.enforceString
  {
  }

  /** The table view's wording of each caption it uses. */
  function TableText(c: Caption): string {
    match c
    case TableCellHeading => "Table cell:"
    case EditValueCaption => "Edit"
    case EnforceStringCaption => "Enforce string"
    case CutCaption => "Cut"
    case CutFormattedCaption => "Cut formatted"
    case CutCompactedCaption => "Cut compacted"
    case CopyCaption => "Copy"
    case CopyFormattedCaption => "Copy formatted"
    case CopyCompactedCaption => "Copy compacted"
    case PasteCaption => "Paste"
    case RemoveCaption => "Remove"
    case TableRowHeading => "Table row:"
    case EditRowCaption => "Edit row"
    case DuplicateRowCaption => "Duplicate row"
    case InsertBeforeRowCaption => "Insert before"
    case InsertAfterRowCaption => "Insert after"
    case RemoveRowCaption => "Remove row"
    case _ => ""
  }

  // Buttons, one per entry of the menu literal.

  function EditValueButton(e: Eligibility): Button {
    Button(EditValueCaption, PenIcon, !e.canEditValue, EditValue)
  }

  /** The enforce-string toggle; its icon shows whether the flag is set. */
  function EnforceStringButton(e: Eligibility): Button {
    Button(EnforceStringCaption, if e.enforceString then CheckSquareIcon else SquareIcon,
           !e.canEnforceString, ToggleEnforceString)
  }

  function CutButton(e: Eligibility): Button {
    Button(CutCaption, CutIcon, !e.canCut, Cut(true))
  }

  /** The cut entries test read-only and contents directly rather than through `canCut`. */
  function CutFormattedButton(e: Eligibility, readOnly: bool): Button {
    Button(CutFormattedCaption, CutIcon, readOnly || !e.hasSelectionContents, Cut(true))
  }

  function CutCompactedButton(e: Eligibility, readOnly: bool): Button {
    Button(CutCompactedCaption, CutIcon, readOnly || !e.hasSelectionContents, Cut(false))
  }

  function CopyButton(e: Eligibility): Button {
    Button(CopyCaption, CopyIcon, !e.hasSelectionContents, Copy(true))
  }

  /** Despite its caption, this entry copies without indentation, unlike the main button above it. */
  function CopyFormattedButton(e: Eligibility): Button {
    Button(CopyFormattedCaption, CopyIcon, !e.hasSelectionContents, Copy(false))
  }

  function CopyCompactedButton(e: Eligibility): Button {
    Button(CopyCompactedCaption, CopyIcon, !e.hasSelectionContents, Copy(false))
  }

  function PasteButton(e: Eligibility, readOnly: bool): Button {
    Button(PasteCaption, PasteIcon, readOnly || !e.hasSelection, Paste)
  }

  function RemoveButton(e: Eligibility, readOnly: bool): Button {
    Button(RemoveCaption, TrashCanIcon, readOnly || !e.hasSelectionContents, Remove)
  }

  /** The five row commands share one enabling condition. */
  function RowCommandDisabled(e: Eligibility, readOnly: bool): bool {
    readOnly || !e.hasSelection || !e.hasJson
  }

  function EditRowButton(e: Eligibility, readOnly: bool): Button {
    Button(EditRowCaption, PenIcon, RowCommandDisabled(e, readOnly), EditRow)
  }

  function DuplicateRowButton(e: Eligibility, readOnly: bool): Button {
    Button(DuplicateRowCaption, CloneIcon, RowCommandDisabled(e, readOnly), DuplicateRow)
  }

  function InsertBeforeRowButton(e: Eligibility, readOnly: bool): Button {
    Button(InsertBeforeRowCaption, PlusIcon, RowCommandDisabled(e, readOnly), InsertBeforeRow)
  }

  function InsertAfterRowButton(e: Eligibility, readOnly: bool): Button {
    Button(InsertAfterRowCaption, PlusIcon, RowCommandDisabled(e, readOnly), InsertAfterRow)
  }

  function RemoveRowButton(e: Eligibility, readOnly: bool): Button {
    Button(RemoveRowCaption, TrashCanIcon, RowCommandDisabled(e, readOnly), RemoveRow)
  }

  // Columns.

  /** Left column: the cell heading, three dropdowns (edit, cut, copy), paste and remove. */
  function CellColumn(e: Eligibility, readOnly: bool): MenuItem {
    Column([ Label(TableCellHeading),
             DropdownButton(EditValueButton(e), 11, [EditValueButton(e), EnforceStringButton(e)]),
             DropdownButton(CutButton(e), 10,
                            [CutFormattedButton(e, readOnly), CutCompactedButton(e, readOnly)]),
             DropdownButton(CopyButton(e), 12, [CopyFormattedButton(e), CopyCompactedButton(e)]),
             ButtonItem(PasteButton(e, readOnly)),
             ButtonItem(RemoveButton(e, readOnly)) ])
  }

  /** Right column: the row heading and the five row commands. */
  function RowColumn(e: Eligibility, readOnly: bool): MenuItem {
    Column([ Label(TableRowHeading),
             ButtonItem(EditRowButton(e, readOnly)),
             ButtonItem(DuplicateRowButton(e, readOnly)),
             ButtonItem(InsertBeforeRowButton(e, readOnly)),
             ButtonItem(InsertAfterRowButton(e, readOnly)),
             ButtonItem(RemoveRowButton(e, readOnly)) ])
  }

  /** The menu for given eligibility: a separator, then one row of the two columns. */
  function TableMenuItems(e: Eligibility, readOnly: bool): seq<MenuItem> {
    [Separator, Row([CellColumn(e, readOnly), RowColumn(e, readOnly)])]
  }

  /** The table view's context menu (the module's default export). */
  function CreateTableContextMenuItems(
    json: Option<Json>, documentState: Option<DocumentState>,
    selection: Option<Selection>, readOnly: bool): seq<MenuItem>
  {
    TableMenuItems(TableEligibility(json, documentState, selection, readOnly), readOnly)
  }

  // Which buttons the menu holds.

  predicate InCellColumn(e: Eligibility, readOnly: bool, b: Button) {
    || b == EditValueButton(e) || b == EnforceStringButton(e)
    || b == CutButton(e) || b == CutFormattedButton(e, readOnly) || b == CutCompactedButton(e, readOnly)
    || b == CopyButton(e) || b == CopyFormattedButton(e) || b == CopyCompactedButton(e)
    || b == PasteButton(e, readOnly) || b == RemoveButton(e, readOnly)
  }

  predicate InRowColumn(e: Eligibility, readOnly: bool, b: Button) {
    || b == EditRowButton(e, readOnly) || b == DuplicateRowButton(e, readOnly)
    || b == InsertBeforeRowButton(e, readOnly) || b == InsertAfterRowButton(e, readOnly)
    || b == RemoveRowButton(e, readOnly)
  }

  lemma CellColumnLowerButtons(e: Eligibility, readOnly: bool)
    ensures Buttons(CellColumn(e, readOnly).items[3..])
         == [CopyButton(e), CopyFormattedButton(e), CopyCompactedButton(e),
             PasteButton(e, readOnly), RemoveButton(e, readOnly)]
  {
    var items := CellColumn(e, readOnly).items;
    assert Buttons(items[5..]) == [RemoveButton(e, readOnly)] by {
      assert items[5..][1..] == [];
    }
    assert items[4..][1..] == items[5..];
    assert Buttons(items[4..]) == [PasteButton(e, readOnly)] + Buttons(items[5..]);
    assert items[3..][1..] == items[4..];
    assert Buttons(items[3..])
        == [CopyButton(e), CopyFormattedButton(e), CopyCompactedButton(e)] + Buttons(items[4..]);
  }

  lemma CellColumnButtons(e: Eligibility, readOnly: bool)
    ensures ItemButtons(CellColumn(e, readOnly))
         == [ EditValueButton(e), EditValueButton(e), EnforceStringButton(e),
              CutButton(e), CutFormattedButton(e, readOnly), CutCompactedButton(e, readOnly),
              CopyButton(e), CopyFormattedButton(e), CopyCompactedButton(e),
              PasteButton(e, readOnly), RemoveButton(e, readOnly) ]
  {
    var items := CellColumn(e, readOnly).items;
    CellColumnLowerButtons(e, readOnly);
    assert items[2..][1..] == items[3..];
    assert Buttons(items[2..])
        == [CutButton(e), CutFormattedButton(e, readOnly), CutCompactedButton(e, readOnly)]
           + Buttons(items[3..]);
    assert items[1..][1..] == items[2..];
    assert Buttons(items[1..])
        == [EditValueButton(e), EditValueButton(e), EnforceStringButton(e)] + Buttons(items[2..]);
    assert Buttons(items) == [] + Buttons(items[1..]);
    assert ItemButtons(CellColumn(e, readOnly)) == Buttons(items);
  }

  lemma RowColumnButtons(e: Eligibility, readOnly: bool)
    ensures ItemButtons(RowColumn(e, readOnly))
         == [ EditRowButton(e, readOnly), DuplicateRowButton(e, readOnly),
              InsertBeforeRowButton(e, readOnly), InsertAfterRowButton(e, readOnly),
              RemoveRowButton(e, readOnly) ]
  {
    var items := RowColumn(e, readOnly).items;
    assert Buttons(items[5..]) == [RemoveRowButton(e, readOnly)] by {
      assert items[5..][1..] == [];
    }
    assert items[4..][1..] == items[5..];
    assert Buttons(items[4..]) == [InsertAfterRowButton(e, readOnly)] + Buttons(items[5..]);
    assert items[3..][1..] == items[4..];
    assert Buttons(items[3..]) == [InsertBeforeRowButton(e, readOnly)] + Buttons(items[4..]);
    assert items[2..][1..] == items[3..];
    assert Buttons(items[2..]) == [DuplicateRowButton(e, readOnly)] + Buttons(items[3..]);
    assert items[1..][1..] == items[2..];
    assert Buttons(items[1..]) == [EditRowButton(e, readOnly)] + Buttons(items[2..]);
    assert Buttons(items) == [] + Buttons(items[1..]);
    assert ItemButtons(RowColumn(e, readOnly)) == Buttons(items);
  }

  lemma ColumnsButtons(e: Eligibility, readOnly: bool, b: Button)
    ensures b in ItemButtons(CellColumn(e, readOnly)) <==> InCellColumn(e, readOnly, b)
    ensures b in ItemButtons(RowColumn(e, readOnly)) <==> InRowColumn(e, readOnly, b)
  {
    CellColumnButtons(e, readOnly);
    RowColumnButtons(e, readOnly);
  }

  /** The menu holds exactly these buttons, whatever is enabled: no command is ever left out. */
  lemma TableMenuButtons(e: Eligibility, readOnly: bool, b: Button)
    ensures b in Buttons(TableMenuItems(e, readOnly))
        <==> InCellColumn(e, readOnly, b) || InRowColumn(e, readOnly, b)
  {
    ColumnsButtons(e, readOnly, b);
    var items := TableMenuItems(e, readOnly);
    var columns := items[1].items;
    InButtonsCons(columns, b);
    InButtonsCons(columns[1..], b);
    assert columns[1..][1..] == [];
    InButtonsCons(items, b);
    InButtonsCons(items[1..], b);
    assert items[1..][1..] == [];
  }

  // What the menu promises, stated over the buttons a user can see.

  lemma ReadOnlyButton(e: Eligibility, b: Button)
    requires !e.canEditValue && !e.canEnforceString && !e.canCut
    requires b in Buttons(TableMenuItems(e, true))
    ensures !b.disabled ==> b.onClick.Copy?
    ensures b.onClick.Copy? ==> (b.disabled <==> !e.hasSelectionContents)
  {
    TableMenuButtons(e, true, b);
  }

  /** In a read-only view only the three copy buttons can be enabled, and they follow the selection alone. */
  lemma ReadOnlyLeavesOnlyCopy(
    json: Option<Json>, documentState: Option<DocumentState>, selection: Option<Selection>)
    ensures forall b | b in Buttons(CreateTableContextMenuItems(json, documentState, selection, true)) ::
      !b.disabled ==> b.onClick.Copy?
    ensures forall b | b in Buttons(CreateTableContextMenuItems(json, documentState, selection, true)) ::
      b.onClick.Copy? ==> (b.disabled <==> !HasSelectionContents(json, selection))
  {
    var e := TableEligibility(json, documentState, selection, true);
    forall b | b in Buttons(TableMenuItems(e, true))
      ensures !b.disabled ==> b.onClick.Copy?
      ensures b.onClick.Copy? ==> (b.disabled <==> !HasSelectionContents(json, selection))
    {
      ReadOnlyButton(e, b);
    }
  }

  /** Whether the view is read-only or not, the copy buttons follow the selected contents alone. */
  lemma CopyButtonFollowsContents(e: Eligibility, readOnly: bool, b: Button)
    requires b in Buttons(TableMenuItems(e, readOnly))
    requires b.onClick.Copy?
    ensures b.disabled <==> !e.hasSelectionContents
  {
    TableMenuButtons(e, readOnly, b);
  }

  lemma CutButtonAgrees(e: Eligibility, readOnly: bool, b: Button)
    requires e.canCut <==> !readOnly && e.hasSelectionContents
    requires b in Buttons(TableMenuItems(e, readOnly))
    requires b.onClick.Cut?
    ensures b.disabled <==> readOnly || !e.hasSelectionContents
  {
    TableMenuButtons(e, readOnly, b);
  }

  lemma RowCommandButton(e: Eligibility, readOnly: bool, b: Button)
    requires b in Buttons(TableMenuItems(e, readOnly))
    requires b.onClick.EditRow? || b.onClick.DuplicateRow? || b.onClick.InsertBeforeRow?
             || b.onClick.InsertAfterRow? || b.onClick.RemoveRow?
    ensures b.disabled <==> readOnly || !e.hasSelection || !e.hasJson
  {
    TableMenuButtons(e, readOnly, b);
  }

  /**
   * The clipboard buttons: copy follows the selected contents only; the cut dropdown's
   * main and entries, though written with different conditions, always agree.
   */
  lemma ClipboardButtons(
    json: Option<Json>, documentState: Option<DocumentState>, selection: Option<Selection>, readOnly: bool)
    ensures forall b | b in Buttons(CreateTableContextMenuItems(json, documentState, selection, readOnly)) ::
      b.onClick.Copy? ==> (b.disabled <==> !HasSelectionContents(json, selection))
    ensures forall b | b in Buttons(CreateTableContextMenuItems(json, documentState, selection, readOnly)) ::
      b.onClick.Cut? ==> (b.disabled <==> readOnly || !HasSelectionContents(json, selection))
  {
    var e := TableEligibility(json, documentState, selection, readOnly);
    forall b | b in Buttons(TableMenuItems(e, readOnly))
      ensures b.onClick.Copy? ==> (b.disabled <==> !HasSelectionContents(json, selection))
      ensures b.onClick.Cut? ==> (b.disabled <==> readOnly || !HasSelectionContents(json, selection))
    {
      if b.onClick.Copy? { CopyButtonFollowsContents(e, readOnly, b); }
      if b.onClick.Cut? { CutButtonAgrees(e, readOnly, b); }
    }
  }

  /**
   * The five row commands are enabled together: by a writable view with a document and a
   * selection, whatever that selection holds.
   */
  lemma RowCommandsShareOneCondition(
    json: Option<Json>, documentState: Option<DocumentState>, selection: Option<Selection>, readOnly: bool)
    ensures forall b | b in Buttons(CreateTableContextMenuItems(json, documentState, selection, readOnly)) ::
      (b.onClick.EditRow? || b.onClick.DuplicateRow? || b.onClick.InsertBeforeRow?
       || b.onClick.InsertAfterRow? || b.onClick.RemoveRow?) ==>
        (b.disabled <==> readOnly || selection.None? || json.None?)
  {
    var e := TableEligibility(json, documentState, selection, readOnly);
    forall b | b in Buttons(TableMenuItems(e, readOnly))
      ensures (b.onClick.EditRow? || b.onClick.DuplicateRow? || b.onClick.InsertBeforeRow?
               || b.onClick.InsertAfterRow? || b.onClick.RemoveRow?) ==>
                (b.disabled <==> readOnly || selection.None? || json.None?)
    {
      if b.onClick.EditRow? || b.onClick.DuplicateRow? || b.onClick.InsertBeforeRow?
         || b.onClick.InsertAfterRow? || b.onClick.RemoveRow? {
        RowCommandButton(e, readOnly, b);
      }
    }
  }

  /**
   * The enforce-string toggle shows a checked box exactly when the focused value exists and
   * its flag is recorded as set; with no selection it is unchecked and disabled.
   */
  lemma EnforceStringIcon(
    json: Option<Json>, documentState: Option<DocumentState>, selection: Option<Selection>, readOnly: bool)
    ensures var b := EnforceStringButton(TableEligibility(json, documentState, selection, readOnly));
      && (b.icon == CheckSquareIcon <==>
            selection.Some? && GetEnforceString(json, documentState, FocusPath(selection.value)))
      && (b.icon == CheckSquareIcon || b.icon == SquareIcon)
      && (selection.None? ==> b.icon == SquareIcon && b.disabled)
  {
  }

  // Dropdowns: the copy dropdown is the one whose main does not act as its first entry.

  /** The copy dropdown, where it sits in the menu. */
  function CopyDropdown(items: seq<MenuItem>): MenuItem
    requires |items| == 2 && items[1].Row? && |items[1].items| == 2
    requires items[1].items[0].Column? && |items[1].items[0].items| == 6
  {
    items[1].items[0].items[3]
  }

  lemma CellDropdowns(e: Eligibility, readOnly: bool)
    requires e.canCut <==> !readOnly && e.hasSelectionContents
    ensures var cell := CellColumn(e, readOnly).items;
      && ItemMirrors(cell[1]) && ItemMirrors(cell[2])
      && cell[3] == DropdownButton(CopyButton(e), 12, [CopyFormattedButton(e), CopyCompactedButton(e)])
  {
  }

  /**
   * The edit and cut dropdowns mirror their first entry; the copy dropdown does not: its main
   * copies with indentation and its first entry, "Copy formatted", without, though both are
   * enabled together.
   */
  lemma TableDropdowns(e: Eligibility, readOnly: bool)
    requires e.canCut <==> !readOnly && e.hasSelectionContents
    ensures var cell := TableMenuItems(e, readOnly)[1].items[0].items;
      ItemMirrors(cell[1]) && ItemMirrors(cell[2]) && !ItemMirrors(cell[3])
    ensures var copy := CopyDropdown(TableMenuItems(e, readOnly));
      && copy.DropdownButton? && copy.main.onClick == Copy(true)
      && copy.dropdownItems[0].onClick == Copy(false)
      && copy.main.disabled == copy.dropdownItems[0].disabled
      && TableText(copy.dropdownItems[0].caption) == "Copy formatted"
  {
    CellDropdowns(e, readOnly);
  }

  /** Unlike the tree menu, the table menu breaks the rule that a dropdown mirrors its first entry. */
  lemma TableCopyDropdownBreaksMirroring(
    json: Option<Json>, documentState: Option<DocumentState>, selection: Option<Selection>, readOnly: bool)
    ensures !DropdownsMirror(CreateTableContextMenuItems(json, documentState, selection, readOnly))
    ensures var copy := CopyDropdown(CreateTableContextMenuItems(json, documentState, selection, readOnly));
      && copy.DropdownButton? && copy.main.onClick == Copy(true)
      && copy.dropdownItems[0].onClick == Copy(false)
      && TableText(copy.dropdownItems[0].caption) == "Copy formatted"
  {
    var e := TableEligibility(json, documentState, selection, readOnly);
    TableDropdowns(e, readOnly);
    var items := TableMenuItems(e, readOnly);
    assert !ItemMirrors(items[1].items[0]);
    assert !ItemMirrors(items[1]);
  }

  // Layout.

  /** The layout every table menu has, whatever is enabled. */
  const TableMenuShape: seq<Shape> := [
    SeparatorShape,
    RowShape([
      ColumnShape([LabelShape, DropdownShape(2), DropdownShape(2), DropdownShape(2), ButtonShape, ButtonShape]),
      ColumnShape([LabelShape, ButtonShape, ButtonShape, ButtonShape, ButtonShape, ButtonShape])
    ])
  ]

  lemma CellColumnLowerShape(e: Eligibility, readOnly: bool)
    ensures ShapeOf(CellColumn(e, readOnly).items[3..]) == [DropdownShape(2), ButtonShape, ButtonShape]
  {
    var items := CellColumn(e, readOnly).items;
    assert ShapeOf(items[5..]) == [ButtonShape] by {
      assert items[5..][1..] == [];
      assert ShapeOf(items[5..]) == [ItemShape(items[5])] + [];
    }
    assert ShapeOf(items[4..]) == [ButtonShape] + [ButtonShape] by {
      assert items[4..][1..] == items[5..];
    }
    assert ShapeOf(items[3..]) == [DropdownShape(2)] + [ButtonShape, ButtonShape] by {
      assert items[3..][1..] == items[4..];
    }
  }

  lemma CellColumnShape(e: Eligibility, readOnly: bool)
    ensures ItemShape(CellColumn(e, readOnly)) == TableMenuShape[1].children[0]
  {
    var items := CellColumn(e, readOnly).items;
    CellColumnLowerShape(e, readOnly);
    assert ShapeOf(items[2..]) == [DropdownShape(2)] + [DropdownShape(2), ButtonShape, ButtonShape] by {
      assert items[2..][1..] == items[3..];
    }
    assert ShapeOf(items[1..])
        == [DropdownShape(2)] + [DropdownShape(2), DropdownShape(2), ButtonShape, ButtonShape] by {
      assert items[1..][1..] == items[2..];
    }
    assert ShapeOf(items)
        == [LabelShape] + [DropdownShape(2), DropdownShape(2), DropdownShape(2), ButtonShape, ButtonShape];
  }

  lemma RowColumnShape(e: Eligibility, readOnly: bool)
    ensures ItemShape(RowColumn(e, readOnly)) == TableMenuShape[1].children[1]
  {
    var items := RowColumn(e, readOnly).items;
    assert ShapeOf(items[5..]) == [ButtonShape] by {
      assert items[5..][1..] == [];
      assert ShapeOf(items[5..]) == [ItemShape(items[5])] + [];
    }
    assert ShapeOf(items[4..]) == [ButtonShape] + [ButtonShape] by {
      assert items[4..][1..] == items[5..];
    }
    assert ShapeOf(items[3..]) == [ButtonShape] + [ButtonShape, ButtonShape] by {
      assert items[3..][1..] == items[4..];
    }
    assert ShapeOf(items[2..]) == [ButtonShape] + [ButtonShape, ButtonShape, ButtonShape] by {
      assert items[2..][1..] == items[3..];
    }
    assert ShapeOf(items[1..]) == [ButtonShape] + [ButtonShape, ButtonShape, ButtonShape, ButtonShape] by {
      assert items[1..][1..] == items[2..];
    }
    assert ShapeOf(items)
        == [LabelShape] + [ButtonShape, ButtonShape, ButtonShape, ButtonShape, ButtonShape];
  }

  lemma TableMenuItemsShape(e: Eligibility, readOnly: bool)
    ensures ShapeOf(TableMenuItems(e, readOnly)) == TableMenuShape
  {
    CellColumnShape(e, readOnly);
    RowColumnShape(e, readOnly);
    var columns := [CellColumn(e, readOnly), RowColumn(e, readOnly)];
    assert ShapeOf(columns[1..]) == [TableMenuShape[1].children[1]] by {
      assert columns[1..][1..] == [];
      assert ShapeOf(columns[1..]) == [ItemShape(columns[1])] + [];
    }
    assert ShapeOf(columns) == [TableMenuShape[1].children[0]] + [TableMenuShape[1].children[1]];
    var items := TableMenuItems(e, readOnly);
    assert ItemShape(items[1]) == TableMenuShape[1];
    assert ShapeOf(items[1..]) == [TableMenuShape[1]] by {
      assert items[1..][1..] == [];
      assert ShapeOf(items[1..]) == [ItemShape(items[1])] + [];
    }
    assert ShapeOf(items) == [SeparatorShape] + [TableMenuShape[1]];
  }

  /** Nothing is ever hidden: every input yields the same separator, row and two columns. */
  lemma TableMenuHasFixedShape(
    json: Option<Json>, documentState: Option<DocumentState>, selection: Option<Selection>, readOnly: bool)
    ensures ShapeOf(CreateTableContextMenuItems(json, documentState, selection, readOnly)) == TableMenuShape
  {
    TableMenuItemsShape(TableEligibility(json, documentState, selection, readOnly), readOnly);
  }

  /** The two column headings. */
  lemma TableHeadings(e: Eligibility, readOnly: bool)
    ensures var columns := TableMenuItems(e, readOnly)[1].items;
      && TableText(columns[0].items[0].caption) == "Table cell:"
      && TableText(columns[1].items[0].caption) == "Table row:"
  {
  }
}
