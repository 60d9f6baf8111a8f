/**
 * Per-path view state kept beside the document. Only the enforce-string flag
 * is read by the context menus.
 */
module DocumentStates {
  import opened Wrappers
  import opened JsonValue

  /** The enforce-string flag recorded for each path that has one. */
  type DocumentState = map<Path, bool>

  /**
   * `getEnforceString`: the recorded flag of an existing node; missing
   * document, node, state or flag all read as "not enforced".
   */
  function GetEnforceString(json: Option<Json>, documentState: Option<DocumentState>, path: Path): (r: bool)
    ensures r ==> GetIn(json, path).Some?
    ensures r ==> documentState.Some? && path in documentState.value && documentState.value[path]
  {
    GetIn(json, path).Some? && documentState.Some? && path in documentState.value
      && documentState.value[path]
  }
}
