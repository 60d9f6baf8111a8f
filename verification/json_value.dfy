/**
 * JSON documents, paths into them and the `getIn` / `initial` accessors the
 * context-menu builders read them with. Nothing here mutates a document.
 */
module JsonValue {
  import opened Wrappers

  /** A JSON value. Object members are keyed by name; their order plays no role here. */
  datatype Json =
    | Null
    | Bool(b: bool)
    | Number(n: real)
    | String(s: string)
    | Array(elems: seq<Json>)
    | Object(fields: map<string, Json>)

  /** One step of a path: a member name or an array position. */
  datatype Segment = Key(name: string) | Index(i: nat)

  /** A location in a document; the empty path is the root. */
  type Path = seq<Segment>

  /** `Array.isArray` on a possibly absent value. */
  predicate IsArray(v: Option<Json>) {
    v.Some? && v.value.Array?
  }

  /** `isObject`: a non-array object; absent values are not objects. */
  predicate IsObject(v: Option<Json>) {
    v.Some? && v.value.Object?
  }

  /** `isObjectOrArray`. */
  predicate IsObjectOrArray(v: Option<Json>) {
    IsObject(v) || IsArray(v)
  }

  /** The child of `v` reached by one segment; absent when the segment does not fit `v`. */
  function Child(v: Json, seg: Segment): Option<Json> {
    match seg
    case Key(k) => if v.Object? && k in v.fields then Some(v.fields[k]) else None
    case Index(i) => if v.Array? && i < |v.elems| then Some(v.elems[i]) else None
  }

  /** `getIn`: the value at `path`, or `None` as soon as a segment is missing. */
  function GetIn(doc: Option<Json>, path: Path): Option<Json>
    decreases |path|
  {
    if path == [] then doc
    else match doc
      case None => None
      case Some(v) => GetIn(Child(v, path[0]), path[1..])
  }

  /** lodash `initial`: every segment but the last; the root has no parent path but itself. */
  function Initial(path: Path): (r: Path)
    ensures path == [] ==> r == []
    ensures path != [] ==> |r| == |path| - 1 && path == r + [path[|path| - 1]]
  {
    if path == [] then [] else path[..|path| - 1]
  }

  /** Looking up a concatenated path is looking up its two parts one after the other. */
  lemma {:induction false} GetInAppend(doc: Option<Json>, p: Path, q: Path)
    ensures GetIn(doc, p + q) == GetIn(GetIn(doc, p), q)
    decreases |p|
  {
    if p == [] {
      assert p + q == q;
    } else {
      assert (p + q)[0] == p[0];
      assert (p + q)[1..] == p[1..] + q;
      match doc
      case None =>
        assert GetIn(doc, p) == None;
      case Some(v) =>
        GetInAppend(Child(v, p[0]), p[1..], q);
    }
  }

  /**
   * The parent of an existing non-root node exists, and it is an array exactly
   * when the node is reached through an index (an object when through a key).
   */
  lemma ParentOfExisting(doc: Option<Json>, path: Path)
    requires path != [] && GetIn(doc, path).Some?
    ensures GetIn(doc, Initial(path)).Some?
    ensures GetIn(doc, path) == Child(GetIn(doc, Initial(path)).value, path[|path| - 1])
    ensures IsArray(GetIn(doc, Initial(path))) <==> path[|path| - 1].Index?
    ensures IsObject(GetIn(doc, Initial(path))) <==> path[|path| - 1].Key?
  {
    var last := path[|path| - 1];
    GetInAppend(doc, Initial(path), [last]);
    var parent := GetIn(doc, Initial(path));
    assert GetIn(doc, path) == GetIn(parent, [last]);
    assert [last][1..] == [];
  }
}
