/**
 * The WMS store resource as a function of the catalog and the request:
 * list, read, create, update (as a merge) and delete over a catalog keyed
 * by (workspace, name), and the properties the resource's tests rely on.
 */
module StoreResource {
  import opened Wrappers
  import opened Text
  import opened Stores
  import opened Routes
  import opened Responses

  /** (workspace, name). */
  type Key = (string, string)

  /** The catalog's WMS stores; a key is filed at most once by construction. */
  type Catalog = map<Key, Store>

  datatype Request = Request(verb: Verb, path: Path, body: Option<Patch>, quietOnNotFound: bool)

  /** What one operation does: the catalog afterwards and how it ended. */
  datatype Effect = Effect(catalog: Catalog, outcome: Outcome)

  /** What one request does: the catalog afterwards and the response. */
  datatype Step = Step(catalog: Catalog, response: Response)

  /** The keys the catalog holds for `workspace`. */
  function WorkspaceKeys(c: Catalog, workspace: string): set<Key> {
    set k | k in c && k.0 == workspace
  }

  /** The representation of the store filed under `k`. */
  function RepOf(c: Catalog, k: Key): StoreRep
    requires k in c
  {
    StoreRep(k.1, k.0, c[k])
  }

  function Reps(c: Catalog, keys: set<Key>): set<StoreRep>
    requires keys <= c.Keys
  {
    set k | k in keys :: RepOf(c, k)
  }

  /** Distinct keys have distinct representations, so none is lost. */
  lemma {:induction false} RepsSize(c: Catalog, keys: set<Key>)
    requires keys <= c.Keys
    ensures |Reps(c, keys)| == |keys|
  {
    if keys != {} {
      var k :| k in keys;
      var rest := keys - {k};
      RepsSize(c, rest);
      assert Reps(c, keys) == Reps(c, rest) + {RepOf(c, k)};
      assert RepOf(c, k) !in Reps(c, rest);
    }
  }

  /** A representation is listed exactly when its key is among `keys` and it carries that store. */
  lemma RepsMembers(c: Catalog, keys: set<Key>)
    requires keys <= c.Keys
    ensures forall r :: r in Reps(c, keys) <==>
      (r.workspace, r.name) in keys && c[(r.workspace, r.name)] == r.store
  {
    forall r: StoreRep | (r.workspace, r.name) in keys && c[(r.workspace, r.name)] == r.store
      ensures r in Reps(c, keys)
    {
      assert RepOf(c, (r.workspace, r.name)) == r;
    }
  }

  /**
   * The stores of one workspace: exactly one entry per store the catalog
   * holds there, carrying that store's identity and attributes.
   */
  function List(c: Catalog, workspace: string): (reps: set<StoreRep>)
    ensures forall r :: r in reps <==>
      r.workspace == workspace && (workspace, r.name) in c && c[(workspace, r.name)] == r.store
    ensures |reps| == |WorkspaceKeys(c, workspace)|
  {
    RepsSize(c, WorkspaceKeys(c, workspace));
    RepsMembers(c, WorkspaceKeys(c, workspace));
    Reps(c, WorkspaceKeys(c, workspace))
  }

  /** A body fit for creation: it names a store and a capabilities URL, and fits the path's workspace. */
  predicate CreatesIn(workspace: string, p: Patch) {
    && p.name.Some? && p.name.value != ""
    && p.capabilitiesURL.Some?
    && (p.workspace.Some? ==> p.workspace.value == workspace)
  }

  /** GET of one store: its representation under the path's identity, or not found. */
  function Read(c: Catalog, workspace: string, name: string): (o: Outcome)
    ensures o.Found? <==> (workspace, name) in c
    ensures o.Found? ==> o.rep == StoreRep(name, workspace, c[(workspace, name)])
    ensures !o.Found? ==> o == NotFound(workspace, name)
  {
    if (workspace, name) in c then Found(RepOf(c, (workspace, name)))
    else NotFound(workspace, name)
  }

  /**
   * POST to the collection: the body must be there, must not name another
   * workspace, must carry a non-empty name and a capabilities URL, and must
   * not name a store the workspace already has.
   */
  function Create(defaults: PoolDefaults, c: Catalog, workspace: string, body: Option<Patch>): (e: Effect)
    ensures e.outcome.Created? <==> body.Some? && CreatesIn(workspace, body.value)
                                    && (workspace, body.value.name.value) !in c
    ensures e.outcome.Created? ==>
      && e.catalog == c[(workspace, body.value.name.value) := NewStore(defaults, body.value)]
      && e.outcome.path == ItemPath(workspace, body.value.name.value)
    ensures !e.outcome.Created? ==> e.catalog == c
    ensures e.outcome.Forbidden? <==>
      body.Some? && body.value.workspace.Some? && body.value.workspace.value != workspace
    ensures e.outcome.Conflict? <==> body.Some? && CreatesIn(workspace, body.value)
                                     && (workspace, body.value.name.value) in c
    ensures e.outcome.Created? || e.outcome.Forbidden? || e.outcome.BadRequest? || e.outcome.Conflict?
  {
    if body.None? then Effect(c, BadRequest)
    else
      var p := body.value;
      if p.workspace.Some? && p.workspace.value != workspace then Effect(c, Forbidden)
      else if p.name.None? || p.name.value == "" || p.capabilitiesURL.None? then Effect(c, BadRequest)
      else if (workspace, p.name.value) in c then Effect(c, Conflict)
      else
        Effect(c[(workspace, p.name.value) := NewStore(defaults, p)],
               Created(ItemPath(workspace, p.name.value)))
  }

  /**
   * PUT to an item: a missing store is not found whatever the body says;
   * otherwise a body that renames the store or moves it to another
   * workspace is forbidden, and any other body is merged into the store.
   */
  function Update(c: Catalog, workspace: string, name: string, body: Option<Patch>): (e: Effect)
    ensures e.outcome == NotFound(workspace, name) <==> (workspace, name) !in c
    ensures e.outcome.Forbidden? <==>
      (workspace, name) in c && body.Some? && ChangesIdentity(workspace, name, body.value)
    ensures e.outcome.Done? <==>
      (workspace, name) in c && body.Some? && !ChangesIdentity(workspace, name, body.value)
    ensures e.outcome.Done? ==>
      && e.catalog.Keys == c.Keys
      && Carries(body.value, e.catalog[(workspace, name)])
      && Keeps(c[(workspace, name)], body.value, e.catalog[(workspace, name)])
      && (forall k :: k in c && k != (workspace, name) ==> e.catalog[k] == c[k])
    ensures e.outcome.BadRequest? <==> (workspace, name) in c && body.None?
    ensures !e.outcome.Done? ==> e.catalog == c
    ensures e.outcome.NotFound? || e.outcome.BadRequest? || e.outcome.Forbidden? || e.outcome.Done?
  {
    if (workspace, name) !in c then Effect(c, NotFound(workspace, name))
    else if body.None? then Effect(c, BadRequest)
    else if ChangesIdentity(workspace, name, body.value) then Effect(c, Forbidden)
    else Effect(c[(workspace, name) := Merge(c[(workspace, name)], body.value)], Done)
  }

  function Delete(c: Catalog, workspace: string, name: string): (e: Effect)
    ensures e.outcome.Done? <==> (workspace, name) in c
    ensures !e.outcome.Done? ==> e.outcome == NotFound(workspace, name)
    ensures e.catalog == c - {(workspace, name)}
  {
    if (workspace, name) !in c then Effect(c, NotFound(workspace, name))
    else Effect(c - {(workspace, name)}, Done)
  }

  /** The operation the route selects, on the catalog `c`. */
  function Execute(defaults: PoolDefaults, c: Catalog, verb: Verb, path: Path, body: Option<Patch>): (e: Effect)
    ensures e.outcome.MethodNotAllowed? <==> Route(verb, path).Unsupported?
    ensures verb == GET ==> e.catalog == c
    ensures !Succeeded(e.outcome) ==> e.catalog == c
    ensures e.catalog != c ==> verb == POST || verb == PUT || verb == DELETE
  {
    match Route(verb, path)
    case ListStores(ws) => Effect(c, Listing(List(c, ws)))
    case ReadStore(ws, name) => Effect(c, Read(c, ws, name))
    case CreateStore(ws) => Create(defaults, c, ws, body)
    case UpdateStore(ws, name) => Update(c, ws, name, body)
    case DeleteStore(ws, name) => Delete(c, ws, name)
    case Unsupported => Effect(c, MethodNotAllowed)
  }

  /**
   * One request against the catalog `c`: 405 exactly for the verb and path
   * pairs the resource does not support, and no change to the catalog
   * unless the request succeeds.
   */
  function Apply(defaults: PoolDefaults, c: Catalog, req: Request): (s: Step)
    ensures s.response.status == StatusMethodNotAllowed <==> Route(req.verb, req.path).Unsupported?
    ensures !(200 <= s.response.status < 300) ==> s.catalog == c
    ensures s.response.location.Some? ==> req.verb == POST && req.path.Collection?
  {
    var e := Execute(defaults, c, req.verb, req.path, req.body);
    Step(e.catalog, Respond(e.outcome, req.quietOnNotFound))
  }

  // ---------------------------------------------------------------------
  // Properties of single requests

  /** GET on the collection lists every store of the workspace, and only those. */
  lemma ListCountsWorkspace(defaults: PoolDefaults, c: Catalog, workspace: string, quiet: bool)
    ensures var s := Apply(defaults, c, Request(GET, Collection(workspace), None, quiet));
      && s.catalog == c
      && s.response.status == StatusOk
      && s.response.body.Entries?
      && |s.response.body.reps| == |WorkspaceKeys(c, workspace)|
      && (forall r :: r in s.response.body.reps <==>
            r.workspace == workspace && (workspace, r.name) in c && c[(workspace, r.name)] == r.store)
  {
  }

  /** GET on a filed store answers its representation under the path's identity. */
  lemma GetFound(defaults: PoolDefaults, c: Catalog, workspace: string, segment: string, quiet: bool)
    requires (workspace, StripFormatSuffix(segment)) in c
    ensures var s := Apply(defaults, c, Request(GET, Item(workspace, segment), None, quiet));
      && s.catalog == c
      && s.response.status == StatusOk
      && s.response.body == Entry(StoreRep(StripFormatSuffix(segment), workspace,
                                           c[(workspace, StripFormatSuffix(segment))]))
  {
  }

  /**
   * GET on a store that is not filed: 404, with the message naming the
   * workspace and the suffix-free name, or with no body when quiet.
   */
  lemma GetMissing(defaults: PoolDefaults, c: Catalog, workspace: string, segment: string, quiet: bool)
    requires (workspace, StripFormatSuffix(segment)) !in c
    ensures var s := Apply(defaults, c, Request(GET, Item(workspace, segment), None, quiet));
      && s.catalog == c
      && s.response.status == StatusNotFound
      && (quiet ==> s.response.body == Empty)
      && (!quiet ==> s.response.body.ErrorMessage?
                     && Contains(s.response.body.text,
                                 NotFoundMessage(workspace, StripFormatSuffix(segment))))
  {
  }

  /** PUT and DELETE on the collection are refused, whatever the catalog holds. */
  lemma CollectionRefusesPutAndDelete(defaults: PoolDefaults, c: Catalog, workspace: string,
                                      verb: Verb, body: Option<Patch>, quiet: bool)
    requires verb == PUT || verb == DELETE
    ensures var s := Apply(defaults, c, Request(verb, Collection(workspace), body, quiet));
      s.response.status == StatusMethodNotAllowed && s.catalog == c
  {
  }

  /** POST on an item is refused, whether the store exists or not. */
  lemma ItemRefusesPost(defaults: PoolDefaults, c: Catalog, workspace: string, segment: string,
                        body: Option<Patch>, quiet: bool)
    ensures var s := Apply(defaults, c, Request(POST, Item(workspace, segment), body, quiet));
      s.response.status == StatusMethodNotAllowed && s.catalog == c
  {
  }

  /**
   * POST of a new store: 201 with `Location` at the store's canonical path,
   * the store filed with the posted capabilities URL, every other store
   * untouched.
   */
  lemma PostCreates(defaults: PoolDefaults, c: Catalog, workspace: string, p: Patch, quiet: bool)
    requires CreatesIn(workspace, p) && (workspace, p.name.value) !in c
    ensures var s := Apply(defaults, c, Request(POST, Collection(workspace), Some(p), quiet));
      && s.response.status == StatusCreated
      && s.response.location == Some(ItemPath(workspace, p.name.value))
      && HasHeader(s.response, "Location",
                   v => EndsWith(v, "/workspaces/" + workspace + "/wmsstores/" + p.name.value))
      && s.catalog.Keys == c.Keys + {(workspace, p.name.value)}
      && s.catalog[(workspace, p.name.value)] == NewStore(defaults, p)
      && s.catalog[(workspace, p.name.value)].capabilitiesURL == p.capabilitiesURL.value
      && (forall k :: k in c ==> s.catalog[k] == c[k])
  {
    var loc := ItemPath(workspace, p.name.value);
    assert loc == "" + ("/workspaces/" + workspace + "/wmsstores/" + p.name.value);
    EndsWithAppended("", "/workspaces/" + workspace + "/wmsstores/" + p.name.value);
  }

  /** PUT on a filed store merges the body: present attributes change, absent ones stay. */
  lemma PutMerges(defaults: PoolDefaults, c: Catalog, workspace: string, segment: string,
                  p: Patch, quiet: bool)
    requires (workspace, StripFormatSuffix(segment)) in c
    requires !ChangesIdentity(workspace, StripFormatSuffix(segment), p)
    ensures var key := (workspace, StripFormatSuffix(segment));
      var s := Apply(defaults, c, Request(PUT, Item(workspace, segment), Some(p), quiet));
      && s.response.status == StatusOk
      && s.catalog.Keys == c.Keys
      && Carries(p, s.catalog[key])
      && Keeps(c[key], p, s.catalog[key])
      && (forall k :: k in c && k != key ==> s.catalog[k] == c[k])
  {
  }

  /** PUT whose body renames the store or moves it is forbidden and changes nothing. */
  lemma PutIdentityChangeForbidden(defaults: PoolDefaults, c: Catalog, workspace: string,
                                   segment: string, p: Patch, quiet: bool)
    requires (workspace, StripFormatSuffix(segment)) in c
    requires ChangesIdentity(workspace, StripFormatSuffix(segment), p)
    ensures var s := Apply(defaults, c, Request(PUT, Item(workspace, segment), Some(p), quiet));
      s.response.status == StatusForbidden && s.catalog == c
  {
  }

  /** PUT or DELETE on a store that is not filed is not found, whatever the body says. */
  lemma ChangeMissingNotFound(defaults: PoolDefaults, c: Catalog, workspace: string, segment: string,
                              verb: Verb, body: Option<Patch>, quiet: bool)
    requires verb == PUT || verb == DELETE
    requires (workspace, StripFormatSuffix(segment)) !in c
    ensures var s := Apply(defaults, c, Request(verb, Item(workspace, segment), body, quiet));
      s.response.status == StatusNotFound && s.catalog == c
  {
  }

  /** DELETE on a filed store removes it and nothing else. */
  lemma DeleteRemoves(defaults: PoolDefaults, c: Catalog, workspace: string, segment: string, quiet: bool)
    requires (workspace, StripFormatSuffix(segment)) in c
    ensures var s := Apply(defaults, c, Request(DELETE, Item(workspace, segment), None, quiet));
      && s.response.status == StatusOk
      && s.catalog == c - {(workspace, StripFormatSuffix(segment))}
  {
  }

  /** The quiet flag changes neither the status nor the catalog of any request. */
  lemma QuietChangesOnlyBody(defaults: PoolDefaults, c: Catalog, verb: Verb, path: Path, body: Option<Patch>)
    ensures var loud := Apply(defaults, c, Request(verb, path, body, false));
      var quiet := Apply(defaults, c, Request(verb, path, body, true));
      && loud.catalog == quiet.catalog
      && loud.response.status == quiet.response.status
      && loud.response.location == quiet.response.location
  {
    QuietOnlySilencesNotFound(Execute(defaults, c, verb, path, body).outcome);
  }

  /** A request that fails leaves the catalog as it was; so does every GET. */
  lemma FailureChangesNothing(defaults: PoolDefaults, c: Catalog, req: Request)
    ensures var s := Apply(defaults, c, req);
      (!(200 <= s.response.status < 300) || req.verb == GET) ==> s.catalog == c
  {
  }

  // ---------------------------------------------------------------------
  // Properties of request sequences

  /** POST then GET on the created store answers the posted capabilities URL. */
  lemma PostThenGet(defaults: PoolDefaults, c: Catalog, workspace: string, p: Patch, quiet: bool)
    requires CreatesIn(workspace, p) && (workspace, p.name.value) !in c
    requires !HasFormatSuffix(p.name.value)
    ensures var posted := Apply(defaults, c, Request(POST, Collection(workspace), Some(p), quiet));
      var got := Apply(defaults, posted.catalog, Request(GET, Item(workspace, p.name.value), None, quiet));
      && got.response.status == StatusOk
      && got.response.body.Entry?
      && got.response.body.rep.name == p.name.value
      && got.response.body.rep.workspace == workspace
      && got.response.body.rep.store.capabilitiesURL == p.capabilitiesURL.value
  {
  }

  /**
   * The `Location` of a creation, read back as a path, addresses the new
   * store: a GET on it answers the posted capabilities URL.
   */
  lemma LocationLeadsToStore(defaults: PoolDefaults, c: Catalog, workspace: string, p: Patch, quiet: bool)
    requires CreatesIn(workspace, p) && (workspace, p.name.value) !in c
    requires IsSegment(workspace) && '/' !in p.name.value && !HasFormatSuffix(p.name.value)
    ensures var posted := Apply(defaults, c, Request(POST, Collection(workspace), Some(p), quiet));
      && posted.response.location.Some?
      && ParsePath(posted.response.location.value) == Some(Item(workspace, p.name.value))
      && var got := Apply(defaults, posted.catalog,
                          Request(GET, ParsePath(posted.response.location.value).value, None, quiet));
         got.response.body.Entry? && got.response.body.rep.store.capabilitiesURL == p.capabilitiesURL.value
  {
    ParseItemPath(workspace, p.name.value);
    PostThenGet(defaults, c, workspace, p, quiet);
  }

  /** PUT then GET answers the merged store. */
  lemma PutThenGet(defaults: PoolDefaults, c: Catalog, workspace: string, segment: string,
                   p: Patch, quiet: bool)
    requires (workspace, StripFormatSuffix(segment)) in c
    requires !ChangesIdentity(workspace, StripFormatSuffix(segment), p)
    ensures var name := StripFormatSuffix(segment);
      var put := Apply(defaults, c, Request(PUT, Item(workspace, segment), Some(p), quiet));
      var got := Apply(defaults, put.catalog, Request(GET, Item(workspace, segment), None, quiet));
      && got.response.status == StatusOk
      && got.response.body == Entry(StoreRep(name, workspace, Merge(c[(workspace, name)], p)))
  {
  }

  /** DELETE then GET is not found, and a second DELETE is not found either. */
  lemma DeleteThenGone(defaults: PoolDefaults, c: Catalog, workspace: string, segment: string, quiet: bool)
    requires (workspace, StripFormatSuffix(segment)) in c
    ensures var first := Apply(defaults, c, Request(DELETE, Item(workspace, segment), None, quiet));
      var got := Apply(defaults, first.catalog, Request(GET, Item(workspace, segment), None, quiet));
      var second := Apply(defaults, first.catalog, Request(DELETE, Item(workspace, segment), None, quiet));
      && first.response.status == StatusOk
      && got.response.status == StatusNotFound
      && second.response.status == StatusNotFound
      && second.catalog == first.catalog
  {
  }
}
