/**
 * The render-agnostic menu description both builders return, and the views of
 * it that the properties talk about: its buttons in order, its shape, and the
 * dropdown "main mirrors first item" rule.
 */
module Menu {

  /** Icon assets, by the asset they name. */
  datatype Icon =
    | PenIcon | CheckSquareIcon | SquareIcon | CutIcon | CopyIcon | PasteIcon
    | CloneIcon | CropAltIcon | SortAmountDownAltIcon | TrashCanIcon
    | ArrowRightArrowLeftIcon | PlusIcon | CaretSquareUpIcon | CaretSquareDownIcon

  /** What may be inserted (`InsertType`). */
  datatype InsertType = InsertStructure | InsertObject | InsertArray | InsertValue

  /** What selected content may be converted to (`ConvertType`). */
  datatype ConvertType = ConvertObject | ConvertArray | ConvertValue

  /**
   * The callback a click invokes, with its argument. `NoOp` is a click that
   * invokes nothing. The `indent` flag of cut and copy selects formatted output.
   */
  datatype Action =
    | EditKey | EditValue | ToggleEnforceString
    | Cut(indent: bool) | Copy(indent: bool) | Paste | Remove
    | Duplicate | Extract | Sort | InsertBefore | InsertAfter
    | Insert(kind: InsertType) | Convert(target: ConvertType) | NoOp
    | EditRow | DuplicateRow | InsertBeforeRow | InsertAfterRow | RemoveRow

  /**
   * Stable identifiers of the texts a menu shows; each view maps them to its
   * own wording.
   */
  datatype Caption =
    | EditKeyCaption | EditValueCaption | EnforceStringCaption
    | CutCaption | CutFormattedCaption | CutCompactedCaption
    | CopyCaption | CopyFormattedCaption | CopyCompactedCaption
    | PasteCaption | DuplicateCaption | ExtractCaption | SortCaption | RemoveCaption
    | InsertHeading | ConvertHeading
    | StructureCaption | ObjectCaption | ArrayCaption | ValueCaption
    | InsertBeforeCaption | InsertAfterCaption
    | TableCellHeading | TableRowHeading
    | EditRowCaption | DuplicateRowCaption | InsertBeforeRowCaption | InsertAfterRowCaption
    | RemoveRowCaption

  datatype Button = Button(caption: Caption, icon: Icon, disabled: bool, onClick: Action)

  /** Menu nodes; a dropdown's width is in em. */
  datatype MenuItem =
    | Separator
    | Label(caption: Caption)
    | Row(items: seq<MenuItem>)
    | Column(items: seq<MenuItem>)
    | ButtonItem(button: Button)
    | DropdownButton(main: Button, widthEm: nat, dropdownItems: seq<Button>)

  /** Every button of a menu, left to right and top to bottom; a dropdown lists its main first. */
  function Buttons(items: seq<MenuItem>): seq<Button>
    decreases items
  {
    if items == [] then [] else ItemButtons(items[0]) + Buttons(items[1..])
  }

  function ItemButtons(item: MenuItem): seq<Button>
    decreases item
  {
    match item
    case Separator => []
    case Label(_) => []
    case Row(items) => Buttons(items)
    case Column(items) => Buttons(items)
    case ButtonItem(b) => [b]
    case DropdownButton(main, _, items) => [main] + items
  }

  /** A menu with every text, icon, flag and callback erased. */
  datatype Shape =
    | SeparatorShape
    | LabelShape
    | RowShape(children: seq<Shape>)
    | ColumnShape(children: seq<Shape>)
    | ButtonShape
    | DropdownShape(itemCount: nat)

  function ShapeOf(items: seq<MenuItem>): (r: seq<Shape>)
    ensures |r| == |items|
    decreases items
  {
    if items == [] then [] else [ItemShape(items[0])] + ShapeOf(items[1..])
  }

  function ItemShape(item: MenuItem): Shape
    decreases item
  {
    match item
    case Separator => SeparatorShape
    case Label(_) => LabelShape
    case Row(items) => RowShape(ShapeOf(items))
    case Column(items) => ColumnShape(ShapeOf(items))
    case ButtonItem(_) => ButtonShape
    case DropdownButton(_, _, items) => DropdownShape(|items|)
  }

  /** A dropdown's main button has the enabled state and the callback of its first entry. */
  predicate MainMirrorsFirst(main: Button, items: seq<Button>) {
    |items| > 0 && main.disabled == items[0].disabled && main.onClick == items[0].onClick
  }

  /** Every dropdown anywhere in the menu mirrors its first entry. */
  predicate DropdownsMirror(items: seq<MenuItem>)
    decreases items
  {
    forall i | 0 <= i < |items| :: ItemMirrors(items[i])
  }

  predicate ItemMirrors(item: MenuItem)
    decreases item
  {
    match item
    case Row(items) => DropdownsMirror(items)
    case Column(items) => DropdownsMirror(items)
    case DropdownButton(main, _, items) => MainMirrorsFirst(main, items)
    case _ => true
  }

  /** The buttons of a non-empty menu are those of its first item and those of the rest. */
  lemma InButtonsCons(items: seq<MenuItem>, b: Button)
    requires items != []
    ensures b in Buttons(items) <==> b in ItemButtons(items[0]) || b in Buttons(items[1..])
  {
  }
}
