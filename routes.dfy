/**
 * The URL side of the WMS store resource: the two path shapes, how a verb
 * and a path select an operation, the format suffix on the store segment,
 * and the canonical paths the resource hands out in `Location`.
 * Paths are relative to the REST root (`/restng` in the tests).
 */
module Routes {
  import opened Wrappers
  import opened Text

  datatype Verb = GET | POST | PUT | DELETE

  /** `/workspaces/{ws}/wmsstores` or `/workspaces/{ws}/wmsstores/{segment}`. */
  datatype Path =
    | Collection(workspace: string)
    | Item(workspace: string, segment: string)

  /** What the resource does with a request, before looking at the catalog. */
  datatype Operation =
    | ListStores(workspace: string)
    | ReadStore(workspace: string, name: string)
    | CreateStore(workspace: string)
    | UpdateStore(workspace: string, name: string)
    | DeleteStore(workspace: string, name: string)
    | Unsupported

  /** The output formats a request may select with a suffix on its last segment. */
  predicate IsFormat(f: string) {
    f == ".xml" || f == ".json" || f == ".html"
  }

  predicate HasFormatSuffix(s: string) {
    EndsWith(s, ".xml") || EndsWith(s, ".json") || EndsWith(s, ".html")
  }

  /**
   * The store name a path segment denotes: the segment with one trailing
   * format suffix removed (`demo.xml` names `demo`).
   */
  function StripFormatSuffix(segment: string): (name: string)
    ensures |name| <= |segment| && segment[..|name|] == name
    ensures HasFormatSuffix(segment) ==> IsFormat(segment[|name|..])
    ensures !HasFormatSuffix(segment) ==> name == segment
  {
    if EndsWith(segment, ".xml") then segment[..|segment| - 4]
    else if EndsWith(segment, ".json") then segment[..|segment| - 5]
    else if EndsWith(segment, ".html") then segment[..|segment| - 5]
    else segment
  }

  /** Adding a format suffix to a name and resolving the segment gives the name back. */
  lemma StripAppendedFormat(name: string, f: string)
    requires IsFormat(f)
    ensures StripFormatSuffix(name + f) == name
  {
    var s := name + f;
    assert s[..|name|] == name;
    assert s[|name|..] == f;
    if f == ".json" || f == ".html" {
      assert s[|s| - 4..] == f[1..];
      assert !EndsWith(s, ".xml");
      if f == ".html" {
        assert s[|s| - 5..] == f;
        assert !EndsWith(s, ".json");
      }
    }
  }

  /**
   * Dispatch: a collection accepts GET (list) and POST (create), an item
   * accepts GET, PUT and DELETE; everything else is unsupported. Item
   * operations address the store named by the suffix-free segment.
   */
  function Route(verb: Verb, path: Path): (op: Operation)
    ensures op.Unsupported? <==>
      (path.Collection? && (verb == PUT || verb == DELETE)) || (path.Item? && verb == POST)
    ensures path.Collection? && verb == GET ==> op == ListStores(path.workspace)
    ensures path.Collection? && verb == POST ==> op == CreateStore(path.workspace)
    ensures path.Item? && verb == GET ==>
      op == ReadStore(path.workspace, StripFormatSuffix(path.segment))
    ensures path.Item? && verb == PUT ==>
      op == UpdateStore(path.workspace, StripFormatSuffix(path.segment))
    ensures path.Item? && verb == DELETE ==>
      op == DeleteStore(path.workspace, StripFormatSuffix(path.segment))
  {
    match path
    case Collection(ws) =>
      (match verb
       case GET => ListStores(ws)
       case POST => CreateStore(ws)
       case PUT => Unsupported
       case DELETE => Unsupported)
    case Item(ws, segment) =>
      var name := StripFormatSuffix(segment);
      (match verb
       case GET => ReadStore(ws, name)
       case POST => Unsupported
       case PUT => UpdateStore(ws, name)
       case DELETE => DeleteStore(ws, name))
  }

  /** `/workspaces/{ws}/wmsstores`. */
  function CollectionPath(workspace: string): string {
    "/workspaces/" + workspace + "/wmsstores"
  }

  /** `/workspaces/{ws}/wmsstores/{segment}`: the canonical store path used in `Location`. */
  function ItemPath(workspace: string, segment: string): string {
    CollectionPath(workspace) + "/" + segment
  }

  /** A workspace or segment that a path can carry as one segment. */
  predicate IsSegment(s: string) {
    s != [] && '/' !in s
  }

  /**
   * The path shape of a request path, or `None` when the path is not one
   * of this resource's: the collection segment may carry a format suffix,
   * the store segment is kept as written.
   */
  function ParsePath(p: string): (r: Option<Path>)
    ensures r.Some? ==> IsSegment(r.value.workspace)
    ensures r.Some? && r.value.Item? ==> IsSegment(r.value.segment)
  {
    var parts := Split(p);
    if |parts| == 4 && parts[0] == "" && parts[1] == "workspaces" && IsSegment(parts[2])
       && StripFormatSuffix(parts[3]) == "wmsstores"
    then Some(Collection(parts[2]))
    else if |parts| == 5 && parts[0] == "" && parts[1] == "workspaces" && IsSegment(parts[2])
       && parts[3] == "wmsstores" && IsSegment(parts[4])
    then Some(Item(parts[2], parts[4]))
    else None
  }

  /** The canonical store path, as its five segments. */
  lemma ItemPathSegments(workspace: string, segment: string)
    ensures ItemPath(workspace, segment) == Join(["", "workspaces", workspace, "wmsstores", segment])
  {
    JoinFive("", "workspaces", workspace, "wmsstores", segment);
  }

  /** A path that parses as an item is the canonical path of that item. */
  lemma ParseItemSound(p: string)
    requires ParsePath(p).Some? && ParsePath(p).value.Item?
    ensures IsSegment(ParsePath(p).value.workspace) && IsSegment(ParsePath(p).value.segment)
    ensures p == ItemPath(ParsePath(p).value.workspace, ParsePath(p).value.segment)
  {
    var parts := Split(p);
    JoinSplit(p);
    ItemPathSegments(parts[2], parts[4]);
    assert parts == ["", "workspaces", parts[2], "wmsstores", parts[4]];
  }

  /** A segment that resolves to `wmsstores` is `wmsstores` with at most a format suffix. */
  lemma CollectionSegment(c: string)
    requires StripFormatSuffix(c) == "wmsstores"
    ensures c == "wmsstores" + c[9..] && (c[9..] == "" || IsFormat(c[9..]))
  {
    if !HasFormatSuffix(c) {
      assert c[9..] == "";
    }
  }

  /** The collection path with a suffix, as its four segments. */
  lemma CollectionJoin(workspace: string, f: string)
    ensures Join(["", "workspaces", workspace, "wmsstores" + f]) == CollectionPath(workspace) + f
  {
    JoinFour("", "workspaces", workspace, "wmsstores" + f);
  }

  /**
   * A path that parses as a collection is the collection path, bare or
   * with one format suffix.
   */
  lemma ParseCollectionSound(p: string)
    requires ParsePath(p).Some? && ParsePath(p).value.Collection?
    ensures IsSegment(ParsePath(p).value.workspace)
    ensures exists f :: (f == "" || IsFormat(f)) && p == CollectionPath(ParsePath(p).value.workspace) + f
  {
    var parts := Split(p);
    JoinSplit(p);
    var ws, last := parts[2], parts[3];
    assert parts == ["", "workspaces", ws, last];
    CollectionSegment(last);
    var f := last[9..];
    CollectionJoin(ws, f);
    assert p == CollectionPath(ws) + f;
  }

  /** The canonical store path parses back to the store it names. */
  lemma ParseItemPath(workspace: string, segment: string)
    requires IsSegment(workspace) && IsSegment(segment)
    ensures ParsePath(ItemPath(workspace, segment)) == Some(Item(workspace, segment))
  {
    var parts := ["", "workspaces", workspace, "wmsstores", segment];
    JoinFive("", "workspaces", workspace, "wmsstores", segment);
    assert Join(parts) == ItemPath(workspace, segment);
    SplitJoin(parts);
  }

  /** The collection path parses back, with or without a format suffix. */
  lemma ParseCollectionPath(workspace: string, f: string)
    requires IsSegment(workspace)
    requires f == "" || IsFormat(f)
    ensures ParsePath(CollectionPath(workspace) + f) == Some(Collection(workspace))
  {
    var last := "wmsstores" + f;
    var parts := ["", "workspaces", workspace, last];
    CollectionJoin(workspace, f);
    SplitJoin(parts);
    if f == "" {
      assert last == "wmsstores";
    } else {
      StripAppendedFormat("wmsstores", f);
    }
  }
}
