/**
 * The controller as the tests drive it: one object holding the catalog's
 * WMS stores, changed in place by the catalog calls the tests make
 * directly and by the requests the controller handles.
 */
module StoreController {
  import opened Wrappers
  import opened Stores
  import opened Routes
  import opened Responses
  import opened StoreResource

  class WmsStoreController {
    /** The catalog's WMS stores, by (workspace, name). */
    var stores: Catalog
    /** The connection settings the catalog builder gives a new store. */
    const defaults: PoolDefaults

    constructor (defaults: PoolDefaults)
      ensures stores == map[] && this.defaults == defaults
    {
      stores := map[];
      this.defaults := defaults;
    }

    /** The store filed under (workspace, name), if any (`getStoreByName`). */
    function Find(workspace: string, name: string): (s: Option<Store>)
      reads this
      ensures s.Some? <==> (workspace, name) in stores
      ensures s.Some? ==> s.value == stores[(workspace, name)]
    {
      if (workspace, name) in stores then Some(stores[(workspace, name)]) else None
    }

    /** Files a new store (`catalog.add`); a key already filed is refused. */
    method Add(workspace: string, name: string, store: Store) returns (added: bool)
      modifies this
      ensures added <==> (workspace, name) !in old(stores)
      ensures stores == if added then old(stores)[(workspace, name) := store] else old(stores)
    {
      added := (workspace, name) !in stores;
      if added {
        stores := stores[(workspace, name) := store];
      }
    }

    /** Writes back the attributes of a filed store (`catalog.save`). */
    method Save(workspace: string, name: string, store: Store) returns (saved: bool)
      modifies this
      ensures saved <==> (workspace, name) in old(stores)
      ensures stores == if saved then old(stores)[(workspace, name) := store] else old(stores)
    {
      saved := (workspace, name) in stores;
      if saved {
        stores := stores[(workspace, name) := store];
      }
    }

    /** Drops a store if it is filed (the tests' `removeStore`). */
    method Remove(workspace: string, name: string)
      modifies this
      ensures stores == old(stores) - {(workspace, name)}
    {
      stores := stores - {(workspace, name)};
    }

    /** POST to the collection of `workspace`. */
    method HandleCreate(workspace: string, body: Option<Patch>) returns (outcome: Outcome)
      modifies this
      ensures Effect(stores, outcome) == Create(defaults, old(stores), workspace, body)
    {
      if body.None? {
        return BadRequest;
      }
      var p := body.value;
      if p.workspace.Some? && p.workspace.value != workspace {
        return Forbidden;
      }
      if p.name.None? || p.name.value == "" || p.capabilitiesURL.None? {
        return BadRequest;
      }
      var key := (workspace, p.name.value);
      if key in stores {
        return Conflict;
      }
      stores := stores[key := NewStore(defaults, p)];
      outcome := Created(ItemPath(workspace, p.name.value));
    }

    /** PUT to the store (workspace, name). */
    method HandleUpdate(workspace: string, name: string, body: Option<Patch>) returns (outcome: Outcome)
      modifies this
      ensures Effect(stores, outcome) == Update(old(stores), workspace, name, body)
    {
      var original := Find(workspace, name);
      if original.None? {
        return NotFound(workspace, name);
      }
      if body.None? {
        return BadRequest;
      }
      if ChangesIdentity(workspace, name, body.value) {
        return Forbidden;
      }
      var merged := Merge(original.value, body.value);
      stores := stores[(workspace, name) := merged];
      outcome := Done;
    }

    /** DELETE of the store (workspace, name). */
    method HandleDelete(workspace: string, name: string) returns (outcome: Outcome)
      modifies this
      ensures Effect(stores, outcome) == Delete(old(stores), workspace, name)
    {
      if (workspace, name) !in stores {
        return NotFound(workspace, name);
      }
      stores := stores - {(workspace, name)};
      outcome := Done;
    }

    /** Handles one request: dispatches on verb and path, then builds the response. */
    method Handle(req: Request) returns (resp: Response)
      modifies this
      ensures Step(stores, resp) == Apply(defaults, old(stores), req)
    {
      var outcome: Outcome;
      match Route(req.verb, req.path) {
        case ListStores(ws) =>
          outcome := Listing(List(stores, ws));
        case ReadStore(ws, name) =>
          var found := Find(ws, name);
          outcome := if found.Some? then Found(StoreRep(name, ws, found.value)) else NotFound(ws, name);
        case CreateStore(ws) =>
          outcome := HandleCreate(ws, req.body);
        case UpdateStore(ws, name) =>
          outcome := HandleUpdate(ws, name, req.body);
        case DeleteStore(ws, name) =>
          outcome := HandleDelete(ws, name);
        case Unsupported =>
          outcome := MethodNotAllowed;
      }
      resp := Respond(outcome, req.quietOnNotFound);
    }
  }
}
