/**
 * The editor's selection and the classification predicates both context-menu
 * builders consult. An absent selection is `None`.
 */
module Selections {
  import opened Wrappers
  import opened JsonValue

  /**
   * Key and Value denote one existing node, Multi a span of siblings from an
   * anchor to a focus, and Before / After / Inside are insertion markers that
   * denote a place rather than content.
   */
  datatype Selection =
    | KeySelection(path: Path)
    | ValueSelection(path: Path)
    | MultiSelection(anchorPath: Path, focusPath: Path)
    | BeforeSelection(path: Path)
    | AfterSelection(path: Path)
    | InsideSelection(path: Path)

  /** `getFocusPath`: the path single-target tests look at. */
  function FocusPath(sel: Selection): Path {
    if sel.MultiSelection? then sel.focusPath else sel.path
  }

  predicate IsKeySelection(sel: Option<Selection>) {
    sel.Some? && sel.value.KeySelection?
  }

  predicate IsValueSelection(sel: Option<Selection>) {
    sel.Some? && sel.value.ValueSelection?
  }

  predicate IsMultiSelection(sel: Option<Selection>) {
    sel.Some? && sel.value.MultiSelection?
  }

  predicate IsAfterSelection(sel: Option<Selection>) {
    sel.Some? && sel.value.AfterSelection?
  }

  predicate IsInsideSelection(sel: Option<Selection>) {
    sel.Some? && sel.value.InsideSelection?
  }

  /** `singleItemSelected`: exactly one concrete node, i.e. a key or a value. */
  predicate SingleItemSelected(sel: Option<Selection>) {
    IsKeySelection(sel) || IsValueSelection(sel)
  }

  /** `canConvert`: selected content whose type may change in place; keys cannot. */
  predicate CanConvert(sel: Option<Selection>) {
    IsMultiSelection(sel) || IsValueSelection(sel)
  }

  /**
   * The selection denotes existing content of an existing document: a key, a
   * value or a multi-selection, and not an insertion marker.
   */
  function HasSelectionContents(json: Option<Json>, sel: Option<Selection>): (r: bool)
    ensures r ==> json.Some? && sel.Some?
    ensures r ==> !IsAfterSelection(sel) && !IsInsideSelection(sel) && !(sel.value.BeforeSelection?)
    ensures json.Some? && SingleItemSelected(sel) ==> r
  {
    json.Some? && (IsMultiSelection(sel) || IsKeySelection(sel) || IsValueSelection(sel))
  }

  /** Convertible content is exactly the selected content minus key selections. */
  lemma CanConvertIsContentsWithoutKeys(json: Option<Json>, sel: Option<Selection>)
    requires json.Some?
    ensures CanConvert(sel) <==> HasSelectionContents(json, sel) && !IsKeySelection(sel)
  {
  }
}
