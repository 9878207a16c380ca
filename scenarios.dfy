/**
 * The resource's tests replayed on the controller: the fixture files one
 * store, `demo` in workspace `sf`, and each method below issues one test's
 * requests against the model and states what that test asserts of the answers.
 */
module WmsStoreTests {
  import opened Wrappers
  import opened Text
  import opened Stores
  import opened Routes
  import opened Responses
  import opened StoreResource
  import opened StoreController

  const DemoURL := "http://demo.opengeo.org/geoserver/wms?"
  const NewURL := "http://somehost/wms?"

  /** The fixture's store: built with the builder's settings, then given its capabilities URL. */
  function DemoStore(defaults: PoolDefaults): Store {
    Store(DemoURL, true, defaults.maxConnections, defaults.readTimeout,
          defaults.connectTimeout, defaults.useConnectionPooling)
  }

  /** The body the POST tests send: name `newWMSStore`, workspace `sf`, capabilities URL `NewURL`. */
  function NewStoreBody(): Patch {
    Patch(Some("newWMSStore"), Some("sf"), Some(NewURL), None, None, None, None, None)
  }

  /** A GET request on `path`. */
  function Get(path: Path, quiet: bool): Request {
    Request(GET, path, None, quiet)
  }

  method SetUp(defaults: PoolDefaults) returns (c: WmsStoreController)
    ensures fresh(c) && c.defaults == defaults
    ensures c.stores == map[("sf", "demo") := DemoStore(defaults)]
  {
    c := new WmsStoreController(defaults);
    var added := c.Add("sf", "demo", DemoStore(defaults));
    assert added;
  }

  /** GET of the collection lists the one store of `sf`. */
  method GetAll(defaults: PoolDefaults) returns (r: Response)
    ensures r.status == StatusOk && r.body.Entries? && |r.body.reps| == 1
    ensures StoreRep("demo", "sf", DemoStore(defaults)) in r.body.reps
  {
    var c := SetUp(defaults);
    r := c.Handle(Get(Collection("sf"), false));
    assert WorkspaceKeys(c.stores, "sf") == {("sf", "demo")};
  }

  /** PUT and DELETE of the collection are refused with 405. */
  method ChangeAllRefused(defaults: PoolDefaults) returns (put: Response, delete: Response)
    ensures put.status == StatusMethodNotAllowed && delete.status == StatusMethodNotAllowed
  {
    var c := SetUp(defaults);
    put := c.Handle(Request(PUT, Collection("sf"), None, false));
    delete := c.Handle(Request(DELETE, Collection("sf"), None, false));
  }

  /** GET of `demo.xml` or `demo.json` answers `demo` in `sf` with its capabilities URL. */
  method GetDemo(defaults: PoolDefaults, format: string) returns (r: Response)
    requires IsFormat(format)
    ensures r.status == StatusOk && r.body.Entry?
    ensures r.body.rep.name == "demo" && r.body.rep.workspace == "sf"
    ensures r.body.rep.store.capabilitiesURL == DemoURL
  {
    var c := SetUp(defaults);
    StripAppendedFormat("demo", format);
    r := c.Handle(Get(Item("sf", "demo" + format), false));
  }

  /** GET of a store that does not exist: 404 with the message, or 404 with no body when quiet. */
  method GetWrongStore(defaults: PoolDefaults) returns (loud: Response, quiet: Response)
    ensures loud.status == StatusNotFound && loud.body.ErrorMessage?
    ensures Contains(loud.body.text, "No such wms store: " + "sf" + "," + "sfssssss")
    ensures quiet.status == StatusNotFound && quiet.body == Empty
  {
    var c := SetUp(defaults);
    StripAppendedFormat("sfssssss", ".html");
    loud := c.Handle(Get(Item("sf", "sfssssss" + ".html"), false));
    quiet := c.Handle(Get(Item("sf", "sfssssss" + ".html"), true));
  }

  /**
   * POST of a new store: 201 with a `Location` ending in the store's path,
   * and the catalog then holds the store with the posted capabilities URL.
   */
  method PostStore(defaults: PoolDefaults) returns (r: Response, stored: Option<Store>)
    ensures r.status == StatusCreated
    ensures HasHeader(r, "Location", v => EndsWith(v, "/workspaces/sf/wmsstores/newWMSStore"))
    ensures stored.Some? && stored.value.capabilitiesURL == NewURL
  {
    var c := SetUp(defaults);
    r := c.Handle(Request(POST, Collection("sf"), Some(NewStoreBody()), false));
    PostCreates(defaults, map[("sf", "demo") := DemoStore(defaults)], "sf", NewStoreBody(), false);
    stored := c.Find("sf", "newWMSStore");
  }

  /** POST to an existing store's own path is refused with 405. */
  method PostToResource(defaults: PoolDefaults) returns (r: Response)
    ensures r.status == StatusMethodNotAllowed
  {
    var c := SetUp(defaults);
    var body := Patch(Some("demo"), None, None, Some(false), None, None, None, None);
    r := c.Handle(Request(POST, Item("sf", "demo"), Some(body), false));
  }

  /** PUT with `enabled` false disables the store, as seen by a later GET and by the catalog. */
  method PutDisables(defaults: PoolDefaults) returns (before: Response, put: Response,
                                                     after: Response, stored: Option<Store>)
    ensures before.body.Entry? && before.body.rep.store.enabled
    ensures put.status == StatusOk
    ensures after.body.Entry? && !after.body.rep.store.enabled
    ensures stored.Some? && !stored.value.enabled
  {
    var c := SetUp(defaults);
    StripAppendedFormat("demo", ".xml");
    before := c.Handle(Get(Item("sf", "demo" + ".xml"), false));
    var body := Patch(Some("demo"), None, None, Some(false), None, None, None, None);
    put := c.Handle(Request(PUT, Item("sf", "demo"), Some(body), false));
    after := c.Handle(Get(Item("sf", "demo" + ".xml"), false));
    stored := c.Find("sf", "demo");
  }

  /** PUT with only the name leaves every attribute as it was. */
  method PutNonDestructive(defaults: PoolDefaults) returns (put: Response, stored: Option<Store>)
    ensures put.status == StatusOk
    ensures stored == Some(DemoStore(defaults))
  {
    var c := SetUp(defaults);
    var saved := c.Save("sf", "demo", DemoStore(defaults).(enabled := true));
    assert saved;
    put := c.Handle(Request(PUT, Item("sf", "demo"), Some(NameOnly("demo")), false));
    stored := c.Find("sf", "demo");
  }

  /** PUT to a store that does not exist is not found, even with a different name in the body. */
  method PutNonExistent(defaults: PoolDefaults) returns (r: Response)
    ensures r.status == StatusNotFound
  {
    var c := SetUp(defaults);
    r := c.Handle(Request(PUT, Item("sf", "nonExistant"), Some(NameOnly("changed")), false));
  }

  /** DELETE of a store that does not exist is not found. */
  method DeleteNonExistent(defaults: PoolDefaults) returns (r: Response)
    ensures r.status == StatusNotFound
  {
    var c := SetUp(defaults);
    r := c.Handle(Request(DELETE, Item("sf", "nonExistant"), None, false));
  }

  /** A store created by POST and then deleted answers 200 and is gone from the catalog. */
  method DeleteCreated(defaults: PoolDefaults) returns (created: Option<Store>, r: Response,
                                                        stored: Option<Store>)
    ensures created.Some?
    ensures r.status == StatusOk && stored.None?
  {
    var c := SetUp(defaults);
    c.Remove("sf", "newWMSStore");
    var fixture := c.stores;
    assert ("sf", "newWMSStore") !in fixture;
    PostCreates(defaults, fixture, "sf", NewStoreBody(), false);
    var posted := c.Handle(Request(POST, Collection("sf"), Some(NewStoreBody()), false));
    assert posted.status == StatusCreated;
    created := c.Find("sf", "newWMSStore");
    assert !HasFormatSuffix("newWMSStore");
    DeleteRemoves(defaults, c.stores, "sf", "newWMSStore", false);
    r := c.Handle(Request(DELETE, Item("sf", "newWMSStore"), None, false));
    stored := c.Find("sf", "newWMSStore");
  }

  /** PUT that renames the store, or moves it to workspace `gs`, is forbidden and changes nothing. */
  method PutIdentityChange(defaults: PoolDefaults) returns (rename: Response, move: Response,
                                                           stored: Option<Store>)
    ensures rename.status == StatusForbidden && move.status == StatusForbidden
    ensures stored == Some(DemoStore(defaults))
  {
    var c := SetUp(defaults);
    rename := c.Handle(Request(PUT, Item("sf", "demo"), Some(NameOnly("newName")), false));
    var body := Patch(None, Some("gs"), None, None, None, None, None, None);
    move := c.Handle(Request(PUT, Item("sf", "demo"), Some(body), false));
    stored := c.Find("sf", "demo");
  }
}
