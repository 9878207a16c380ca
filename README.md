# WMS store REST resource — a Dafny model

GeoServer's catalog files *WMS stores* (connections to remote Web Map
Services) under workspaces, and its REST API serves them at
`/workspaces/{ws}/wmsstores` and `/workspaces/{ws}/wmsstores/{name}`. The
rules of that resource are fixed by its test, `WMSStoreTest.java`: how a
verb and a path select list, read, create, update or delete; how the store
segment loses its format suffix (`demo.xml` names `demo`); that PUT merges
only the fields a body carries and refuses a body that renames or moves the
store; that POST answers 201 Created with a `Location` naming the new store
(section 15.3.2 of RFC 9110); that a missing store is 404
with the message `No such wms store: {ws},{name}`, or with no body at all
under `?quietOnNotFound=true`; and that the verbs a path does not support
answer 405.

The model has these modules, leaves first:

- `Wrappers` (`wrappers.dfy`): `Option`.
- `Text` (`text.dfy`): `EndsWith`, `Contains`, and splitting a path on `/`
  with both round trips proved.
- `Stores` (`stores.dfy`): the `Store` record, the decoded request body
  `Patch` (each field present or absent), the merge a PUT applies, and the
  store a POST creates.
- `Routes` (`routes.dfy`): verbs, the two path shapes, suffix stripping,
  dispatch, the canonical store path, and a parser for request paths that
  reads the canonical path back.
- `Responses` (`responses.dfy`): the outcome of an operation, the response
  builder (status, body, `Location`), the not-found message, and the
  `hasHeader` matcher.
- `StoreResource` (`resource.dfy`): the resource as a function `Apply` of the
  catalog and one request, with lemmas for single requests and for request
  sequences (POST then GET, PUT then GET, DELETE then GET or DELETE).
- `StoreController` (`controller.dfy`): the class `WmsStoreController`, whose
  `stores` field is the catalog as a `map<(string, string), Store>`; the
  catalog calls the tests make directly (`add`, `save`, `getStoreByName`,
  `removeStore`) and `Handle`, which changes the map in place and is proved
  to agree with `Apply`.
- `WmsStoreTests` (`scenarios.dfy`): each test of the resource replayed on a
  fresh controller holding the fixture store `demo` in `sf`, with what the
  test asserts stated as the method's postcondition.

Identity is the map key: a `Store` carries only the attributes
(`capabilitiesURL`, `enabled`, `maxConnections`, `readTimeout`,
`connectTimeout`, `useConnectionPooling`), and the representation a GET
answers, `StoreRep`, adds the name and workspace of the key it was read
from. Paths are written relative to the REST root (`/restng` in the tests).

`WMSStoreController.java` is not part of this model: the rules modelled are
those its test asserts. Where the test is silent the
model makes these choices, each kept apart from what the test fixes:
a POST without a body, without a non-empty `name` or without a
`capabilitiesURL` answers 400; a POST whose body names another workspace
answers 403; a POST of a name the workspace already has answers 409; a PUT
without a body on an existing store answers 400. A new store is enabled and
takes its connection settings from `PoolDefaults`, the builder's defaults,
which the controller is constructed with, before the posted fields are
applied. The quiet flag is applied by the response builder to every 404.
The order of the PUT checks follows the test: a missing store is 404 even
when the body carries a different name (lines 336-346), and only then is
the body's identity compared with the path.

## Model

| member | source | states |
|---|---|---|
| `Stores.Merge` | src/restconfig-ng/src/test/java/org/geoserver/rest/catalog/WMSStoreTest.java:307-334 | the merged store carries every attribute present in the body and keeps every absent one from the stored record |
| `Stores.MergeIsDetermined` | src/restconfig-ng/src/test/java/org/geoserver/rest/catalog/WMSStoreTest.java:307-334 | "carries the present fields, keeps the absent ones" determines the merged record uniquely |
| `Stores.MergeWithoutAttributes` | src/restconfig-ng/src/test/java/org/geoserver/rest/catalog/WMSStoreTest.java:318-333 | a body with only identity fields (the `<name>demo</name>` body) leaves the store unchanged |
| `Stores.MergeIdempotent` | src/restconfig-ng/src/test/java/org/geoserver/rest/catalog/WMSStoreTest.java:291-299 | applying the same PUT body twice has the effect of applying it once, as PUT is idempotent (section 9.2.2 of RFC 9110) |
| `Stores.NewStore` | src/restconfig-ng/src/test/java/org/geoserver/rest/catalog/WMSStoreTest.java:56-59 | a created store has the posted capabilities URL, is enabled unless the body says otherwise, and takes each connection setting from the body or else from the builder's defaults |
| `Stores.ChangesIdentity` | src/restconfig-ng/src/test/java/org/geoserver/rest/catalog/WMSStoreTest.java:367-382 | a body changes the identity exactly when its name and workspace, each defaulting to the path's when absent, differ from the path's pair |
| `Routes.StripFormatSuffix` | src/restconfig-ng/src/test/java/org/geoserver/rest/catalog/WMSStoreTest.java:150-155 | the store name is a prefix of the segment; if the segment ends in `.xml`, `.json` or `.html` the rest is exactly that suffix, otherwise the name is the whole segment |
| `Routes.StripAppendedFormat` | src/restconfig-ng/src/test/java/org/geoserver/rest/catalog/WMSStoreTest.java:121 | resolving `name` plus a format suffix gives back `name` (`demo.xml` names `demo`) |
| `Routes.Route` | src/restconfig-ng/src/test/java/org/geoserver/rest/catalog/WMSStoreTest.java:109-117 | an operation is unsupported exactly for PUT or DELETE on the collection and POST on an item; otherwise GET/POST on the collection list/create in its workspace and GET/PUT/DELETE on an item address the suffix-free name |
| `Routes.ItemPathSegments` | src/restconfig-ng/src/test/java/org/geoserver/rest/catalog/WMSStoreTest.java:230 | the canonical store path is the five segments `""`, `workspaces`, ws, `wmsstores`, name joined by `/` |
| `Routes.ParseItemSound` | src/restconfig-ng/src/test/java/org/geoserver/rest/catalog/WMSStoreTest.java:121 | a path that parses as an item is exactly the canonical path of that workspace and segment, both non-empty and slash-free |
| `Routes.ParseCollectionSound` | src/restconfig-ng/src/test/java/org/geoserver/rest/catalog/WMSStoreTest.java:71-79 | a path that parses as a collection is exactly `/workspaces/{ws}/wmsstores`, bare or followed by `.xml`, `.json` or `.html` |
| `Routes.ParsePath` | src/restconfig-ng/src/test/java/org/geoserver/rest/catalog/WMSStoreTest.java:71-121 | a parsed path has a non-empty, slash-free workspace and, for an item, a non-empty, slash-free store segment |
| `Routes.ParseItemPath` | src/restconfig-ng/src/test/java/org/geoserver/rest/catalog/WMSStoreTest.java:230 | the canonical store path parses back to that workspace and segment |
| `Routes.ParseCollectionPath` | src/restconfig-ng/src/test/java/org/geoserver/rest/catalog/WMSStoreTest.java:71-79 | the collection path parses back to its workspace, bare or with `.xml`, `.json` or `.html` |
| `Responses.Respond` | src/restconfig-ng/src/test/java/org/geoserver/rest/catalog/WMSStoreTest.java:156-167 | reads, listings, updates and deletes answer exactly 200 and only successes answer 2xx; creation exactly 201 with `Location` set to the created path and no body; a missing store exactly 404 with a body containing the not-found message, or an empty body when quiet; 400, 403, 405 and 409 exactly for bad requests, forbidden changes, unsupported verbs and conflicts; only creation sets `Location` |
| `Responses.NotFoundMessage` | src/restconfig-ng/src/test/java/org/geoserver/rest/catalog/WMSStoreTest.java:155 | the message is `No such wms store: ` followed by exactly `{ws},{name}` |
| `Responses.QuietOnlySilencesNotFound` | src/restconfig-ng/src/test/java/org/geoserver/rest/catalog/WMSStoreTest.java:161-167 | the quiet flag changes neither status nor `Location`, leaves every other response identical, and empties exactly the not-found body |
| `Responses.Header` | src/restconfig-ng/src/test/java/org/geoserver/rest/catalog/WMSStoreTest.java:180 | the response's `Location` is the value of header `Location`; it sets no other header |
| `Responses.HasHeaderDefersToMatcher` | src/restconfig-ng/src/test/java/org/geoserver/rest/catalog/WMSStoreTest.java:178-189 | `HasHeader`, the `matches` of `hasHeader`, is false when the header is absent and otherwise holds exactly when the value matcher accepts the header's value |
| `Responses.LocationOnlyOnCreate` | src/restconfig-ng/src/test/java/org/geoserver/rest/catalog/WMSStoreTest.java:178-189 | `hasHeader("Location", m)` holds of a built response exactly when it reports a creation and `m` accepts the created path |
| `StoreResource.RepsSize` | src/restconfig-ng/src/test/java/org/geoserver/rest/catalog/WMSStoreTest.java:73-74 | one representation per key: representing a set of keys loses none of them |
| `StoreResource.RepsMembers` | src/restconfig-ng/src/test/java/org/geoserver/rest/catalog/WMSStoreTest.java:73-74 | a representation is listed exactly when its (workspace, name) is among the keys and it carries that key's store |
| `StoreResource.List` | src/restconfig-ng/src/test/java/org/geoserver/rest/catalog/WMSStoreTest.java:69-90 | the listing holds exactly the stores of the workspace, each with its own name and attributes, and as many entries as the catalog has keys in that workspace |
| `StoreResource.Read` | src/restconfig-ng/src/test/java/org/geoserver/rest/catalog/WMSStoreTest.java:119-168 | a read finds the store exactly when its key is filed, answering its representation under the path's identity, and is otherwise not found for that workspace and name |
| `StoreResource.Create` | src/restconfig-ng/src/test/java/org/geoserver/rest/catalog/WMSStoreTest.java:217-271 | a POST creates exactly when the body is present, fits the path's workspace, carries a non-empty name and a capabilities URL, and the name is new; it then files `NewStore` under that key and reports the canonical path; a body naming another workspace is forbidden, a conflict happens exactly when an otherwise fitting body names a filed store, and every refusal leaves the catalog unchanged |
| `StoreResource.Update` | src/restconfig-ng/src/test/java/org/geoserver/rest/catalog/WMSStoreTest.java:286-382 | a PUT is not found exactly when the key is absent, a bad request exactly when a filed key gets no body, forbidden exactly when a filed key gets a body changing identity, and done exactly when a filed key gets a body keeping it; done keeps the keys, applies present attributes, keeps absent ones and touches no other store; otherwise the catalog is unchanged |
| `StoreResource.Delete` | src/restconfig-ng/src/test/java/org/geoserver/rest/catalog/WMSStoreTest.java:336-361 | a DELETE is done exactly when the key is filed and otherwise not found for that key; the catalog afterwards lacks exactly that key |
| `StoreResource.Execute` | src/restconfig-ng/src/test/java/org/geoserver/rest/catalog/WMSStoreTest.java:109-117 | the operation answers method-not-allowed exactly for the unsupported verb and path pairs; a GET and every failed operation leave the catalog unchanged; only POST, PUT and DELETE change it |
| `StoreResource.Apply` | src/restconfig-ng/src/test/java/org/geoserver/rest/catalog/WMSStoreTest.java:109-382 | a request answers 405 exactly for unsupported verb and path pairs, leaves the catalog unchanged unless it answers 2xx, and carries `Location` only for a POST to the collection |
| `StoreResource.ListCountsWorkspace` | src/restconfig-ng/src/test/java/org/geoserver/rest/catalog/WMSStoreTest.java:69-90 | GET on the collection answers 200 with as many entries as `getStoresByWorkspace` has, exactly that workspace's stores, and changes nothing |
| `StoreResource.GetFound` | src/restconfig-ng/src/test/java/org/geoserver/rest/catalog/WMSStoreTest.java:119-126 | GET on a filed store answers 200 with its representation: the path's workspace, the suffix-free name and the stored attributes |
| `StoreResource.GetMissing` | src/restconfig-ng/src/test/java/org/geoserver/rest/catalog/WMSStoreTest.java:147-168 | GET on an absent store answers 404 with a body containing `No such wms store: {ws},{name}` (name without suffix), or 404 with an empty body when quiet |
| `StoreResource.CollectionRefusesPutAndDelete` | src/restconfig-ng/src/test/java/org/geoserver/rest/catalog/WMSStoreTest.java:109-117 | PUT and DELETE on the collection answer 405 for every catalog, body and flag |
| `StoreResource.ItemRefusesPost` | src/restconfig-ng/src/test/java/org/geoserver/rest/catalog/WMSStoreTest.java:273-284 | POST on an item path answers 405, whether or not the store exists |
| `StoreResource.PostCreates` | src/restconfig-ng/src/test/java/org/geoserver/rest/catalog/WMSStoreTest.java:217-236 | POST of a new store answers 201 with `Location` `/workspaces/{ws}/wmsstores/{name}` (so `hasHeader` with `endsWith` holds), files the store with the posted capabilities URL under a new key and leaves every other store untouched |
| `StoreResource.PutMerges` | src/restconfig-ng/src/test/java/org/geoserver/rest/catalog/WMSStoreTest.java:286-334 | PUT on a filed store with a body that keeps its identity answers 200; the present attributes take the body's values, the absent ones keep theirs, no other store changes |
| `StoreResource.PutIdentityChangeForbidden` | src/restconfig-ng/src/test/java/org/geoserver/rest/catalog/WMSStoreTest.java:367-382 | PUT whose body carries another name or another workspace answers 403 and leaves the catalog unchanged |
| `StoreResource.ChangeMissingNotFound` | src/restconfig-ng/src/test/java/org/geoserver/rest/catalog/WMSStoreTest.java:336-351 | PUT or DELETE on an absent store answers 404 whatever the body carries, and changes nothing |
| `StoreResource.DeleteRemoves` | src/restconfig-ng/src/test/java/org/geoserver/rest/catalog/WMSStoreTest.java:353-361 | DELETE on a filed store answers 200 and removes exactly that key |
| `StoreResource.QuietChangesOnlyBody` | src/restconfig-ng/src/test/java/org/geoserver/rest/catalog/WMSStoreTest.java:157-163 | for every request, the quiet flag changes neither the catalog afterwards nor the status nor `Location` |
| `StoreResource.FailureChangesNothing` | src/restconfig-ng/src/test/java/org/geoserver/rest/catalog/WMSStoreTest.java:336-382 | a request answered outside 2xx, and every GET, leaves the catalog as it was |
| `StoreResource.PostThenGet` | src/restconfig-ng/src/test/java/org/geoserver/rest/catalog/WMSStoreTest.java:226-235 | after a POST of a new store, GET on its name answers 200 with that name, that workspace and the posted capabilities URL |
| `StoreResource.LocationLeadsToStore` | src/restconfig-ng/src/test/java/org/geoserver/rest/catalog/WMSStoreTest.java:229-235 | the `Location` of a creation parses back to the new store's item path, and a GET on it answers the posted capabilities URL |
| `StoreResource.PutThenGet` | src/restconfig-ng/src/test/java/org/geoserver/rest/catalog/WMSStoreTest.java:297-302 | after a PUT, GET on the same path answers the stored record merged with the body |
| `StoreResource.DeleteThenGone` | src/restconfig-ng/src/test/java/org/geoserver/rest/catalog/WMSStoreTest.java:359-360 | after a DELETE answered 200, GET is 404 and a second DELETE is 404 and changes nothing |
| `StoreController.WmsStoreController.constructor` | src/restconfig-ng/src/test/java/org/geoserver/rest/catalog/WMSStoreTest.java:52-53 | a new controller serves an empty catalog with the given builder defaults |
| `StoreController.WmsStoreController.Find` | src/restconfig-ng/src/test/java/org/geoserver/rest/catalog/WMSStoreTest.java:304 | `getStoreByName(ws, name)` gives the filed record exactly when the key is filed |
| `StoreController.WmsStoreController.Add` | src/restconfig-ng/src/test/java/org/geoserver/rest/catalog/WMSStoreTest.java:60 | `catalog.add` files the store under a new key and refuses a filed one, changing nothing else |
| `StoreController.WmsStoreController.Save` | src/restconfig-ng/src/test/java/org/geoserver/rest/catalog/WMSStoreTest.java:309-311 | `catalog.save` replaces the record of a filed store and nothing else |
| `StoreController.WmsStoreController.Remove` | src/restconfig-ng/src/test/java/org/geoserver/rest/catalog/WMSStoreTest.java:252 | `removeStore` leaves the catalog without that key |
| `StoreController.WmsStoreController.HandleCreate` | src/restconfig-ng/src/test/java/org/geoserver/rest/catalog/WMSStoreTest.java:226-235 | the catalog and outcome after a POST are those of `StoreResource.Create` on the old catalog |
| `StoreController.WmsStoreController.HandleUpdate` | src/restconfig-ng/src/test/java/org/geoserver/rest/catalog/WMSStoreTest.java:297-304 | the catalog and outcome after a PUT are those of `StoreResource.Update` on the old catalog |
| `StoreController.WmsStoreController.HandleDelete` | src/restconfig-ng/src/test/java/org/geoserver/rest/catalog/WMSStoreTest.java:359-360 | the catalog and outcome after a DELETE are those of `StoreResource.Delete` on the old catalog |
| `StoreController.WmsStoreController.Handle` | src/restconfig-ng/src/test/java/org/geoserver/rest/catalog/WMSStoreTest.java:109-382 | the new catalog and the response are exactly `StoreResource.Apply` of the old catalog and the request |
| `WmsStoreTests.SetUp` | src/restconfig-ng/src/test/java/org/geoserver/rest/catalog/WMSStoreTest.java:52-61 | the fixture catalog holds exactly `demo` in `sf`, built with the builder's settings and the demo capabilities URL |
| `WmsStoreTests.GetAll` | src/restconfig-ng/src/test/java/org/geoserver/rest/catalog/WMSStoreTest.java:69-90 | the listing of `sf` answers 200 with its one store |
| `WmsStoreTests.ChangeAllRefused` | src/restconfig-ng/src/test/java/org/geoserver/rest/catalog/WMSStoreTest.java:109-117 | PUT and DELETE of `sf`'s collection answer 405 |
| `WmsStoreTests.GetDemo` | src/restconfig-ng/src/test/java/org/geoserver/rest/catalog/WMSStoreTest.java:119-126 | GET of `demo.xml` (or `.json`) answers 200 with name `demo`, workspace `sf` and `http://demo.opengeo.org/geoserver/wms?` |
| `WmsStoreTests.GetWrongStore` | src/restconfig-ng/src/test/java/org/geoserver/rest/catalog/WMSStoreTest.java:147-168 | GET of `sfssssss.html` answers 404 containing `No such wms store: sf,sfssssss`, and with the quiet flag 404 with an empty body |
| `WmsStoreTests.PostStore` | src/restconfig-ng/src/test/java/org/geoserver/rest/catalog/WMSStoreTest.java:217-271 | POST of `newWMSStore` answers 201 with a `Location` ending in `/workspaces/sf/wmsstores/newWMSStore`, and the catalog then holds it with `http://somehost/wms?` |
| `WmsStoreTests.PostToResource` | src/restconfig-ng/src/test/java/org/geoserver/rest/catalog/WMSStoreTest.java:273-284 | POST to `demo`'s own path answers 405 |
| `WmsStoreTests.PutDisables` | src/restconfig-ng/src/test/java/org/geoserver/rest/catalog/WMSStoreTest.java:286-305 | `demo` answers enabled before, the PUT answers 200, and both a later GET and the catalog show it disabled |
| `WmsStoreTests.PutNonDestructive` | src/restconfig-ng/src/test/java/org/geoserver/rest/catalog/WMSStoreTest.java:307-334 | a PUT carrying only the name answers 200 and leaves every attribute of `demo` as it was |
| `WmsStoreTests.PutNonExistent` | src/restconfig-ng/src/test/java/org/geoserver/rest/catalog/WMSStoreTest.java:336-346 | PUT to `nonExistant` with a body named `changed` answers 404 |
| `WmsStoreTests.DeleteNonExistent` | src/restconfig-ng/src/test/java/org/geoserver/rest/catalog/WMSStoreTest.java:348-351 | DELETE of `nonExistant` answers 404 |
| `WmsStoreTests.DeleteCreated` | src/restconfig-ng/src/test/java/org/geoserver/rest/catalog/WMSStoreTest.java:353-361 | `newWMSStore`, once posted, is filed; its DELETE answers 200 and the catalog no longer has it |
| `WmsStoreTests.PutIdentityChange` | src/restconfig-ng/src/test/java/org/geoserver/rest/catalog/WMSStoreTest.java:367-382 | PUT renaming `demo` to `newName`, and PUT moving it to `gs`, both answer 403 and `demo` stays as it was |

## Left out

- Encoding and decoding XML, JSON and HTML: a body is a `Patch` of optional
  fields, a representation a `StoreRep` record; the element and key names
  and the single-object-versus-array shape of a one-entry JSON listing are
  not modelled.
- The order of a listing: the catalog is a map, so a listing is a set of
  representations.
- The HTML tests, which are disabled and exercise rendering.
- `testBeanPresent`: controller registration is container wiring.
- The hamcrest `describeTo` and `describeMismatch` text, and the `instanceof`
  branch of `matches`: the model's matcher is only ever applied to responses.
- Header names are compared exactly; servlet responses compare them ignoring
  case.
- `Location` is the server-relative path `/workspaces/{ws}/wmsstores/{name}`;
  the server's base URL in front of it is not modelled (the tests check only
  the ending).
- Layers that depend on a store, and the policy for deleting a store that has
  them (the test for it is commented out): a DELETE of a filed store always
  removes it.
- POST of a name the workspace already has answers 409 and changes nothing;
  no test exercises it, so this is a modelling choice, as are the 400 answers
  and the 403 for a POST naming another workspace.
- The 403 and 405 answers leave the catalog unchanged; the tests assert only
  the status, so this too is a modelling choice.
- The error texts of the 400, 403, 405 and 409 answers: their bodies are
  empty in the model.
- `testDeleteNonExistant` deletes under a `datastores` path; the model reads
  it as a DELETE of an absent WMS store.
- Catalog validation beyond the presence of a non-empty name and a
  capabilities URL, authorisation, and concurrent requests.
- The integer attributes are unbounded integers: the resource does no
  arithmetic on them, so Java's 32-bit width does not matter.
- StoreResource.LocationLeadsToStore: stated only for workspace and store
  names without `/` and store names without a format suffix, because a GET
  on `.../wmsstores/a.xml` resolves to the store `a`, so a store posted as
  `a.xml` is not reachable through its own `Location`.
- StoreResource.PostThenGet: stated only for store names without a format
  suffix, for the same reason.
