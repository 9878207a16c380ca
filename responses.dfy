/**
 * The response side of the resource: what an operation's outcome turns
 * into (status, body, `Location`), the not-found message, and the header
 * matcher the tests use on responses.
 */
module Responses {
  import opened Wrappers
  import opened Text
  import opened Stores

  const StatusOk := 200
  const StatusCreated := 201
  const StatusBadRequest := 400
  const StatusForbidden := 403
  const StatusNotFound := 404
  const StatusMethodNotAllowed := 405
  const StatusConflict := 409

  /** The `wmsStore` representation: the store with its identity. */
  datatype StoreRep = StoreRep(name: string, workspace: string, store: Store)

  /** A response body, before encoding. */
  datatype Body =
    | Empty
    | ErrorMessage(text: string)
    | Entry(rep: StoreRep)
    | Entries(reps: set<StoreRep>)

  datatype Response = Response(status: int, body: Body, location: Option<string>)

  /** How an operation ended, before it is rendered as a response. */
  datatype Outcome =
    | Found(rep: StoreRep)
    | Listing(reps: set<StoreRep>)
    | Created(path: string)
    | Done
    | NotFound(workspace: string, name: string)
    | Forbidden
    | MethodNotAllowed
    | BadRequest
    | Conflict

  predicate Succeeded(o: Outcome) {
    o.Found? || o.Listing? || o.Created? || o.Done?
  }

  const NotFoundPrefix := "No such wms store: "

  /**
   * The text of the not-found error for store `name` in `workspace`: the
   * fixed prefix, then exactly `{workspace},{name}`.
   */
  function NotFoundMessage(workspace: string, name: string): (m: string)
    ensures StartsWith(m, NotFoundPrefix)
    ensures EndsWith(m, workspace + "," + name)
    ensures |m| == |NotFoundPrefix| + |workspace| + 1 + |name|
  {
    var m := NotFoundPrefix + workspace + "," + name;
    assert m == NotFoundPrefix + (workspace + "," + name);
    EndsWithAppended(NotFoundPrefix, workspace + "," + name);
    m
  }

  /**
   * The response builder: reads answer 200 with the representation,
   * creation 201 with `Location` and no body, update and delete 200 with no
   * body, a missing store 404 with the error message (or no body at all
   * when the request asked to be quiet), and the refusals 400, 403, 405
   * and 409 with no body.
   */
  function Respond(o: Outcome, quietOnNotFound: bool): (r: Response)
    ensures 200 <= r.status < 300 <==> Succeeded(o)
    ensures o.Found? || o.Listing? || o.Done? ==> r.status == StatusOk
    ensures r.status == StatusCreated <==> o.Created?
    ensures r.status == StatusNotFound <==> o.NotFound?
    ensures r.location.Some? <==> o.Created?
    ensures o.Created? ==> r.location == Some(o.path) && r.body == Empty
    ensures o.Found? ==> r.body == Entry(o.rep)
    ensures o.Listing? ==> r.body == Entries(o.reps)
    ensures o.NotFound? && quietOnNotFound ==> r.body == Empty
    ensures o.NotFound? && !quietOnNotFound ==>
      r.body.ErrorMessage? && Contains(r.body.text, NotFoundMessage(o.workspace, o.name))
    ensures o.Forbidden? <==> r.status == StatusForbidden
    ensures o.MethodNotAllowed? <==> r.status == StatusMethodNotAllowed
    ensures o.BadRequest? <==> r.status == StatusBadRequest
    ensures o.Conflict? <==> r.status == StatusConflict
    ensures !o.Found? && !o.Listing? && !o.NotFound? ==> r.body == Empty
  {
    match o
    case Found(rep) => Response(StatusOk, Entry(rep), None)
    case Listing(reps) => Response(StatusOk, Entries(reps), None)
    case Created(path) => Response(StatusCreated, Empty, Some(path))
    case Done => Response(StatusOk, Empty, None)
    case NotFound(ws, name) =>
      if quietOnNotFound then Response(StatusNotFound, Empty, None)
      else
        ContainsWhole(NotFoundMessage(ws, name));
        Response(StatusNotFound, ErrorMessage(NotFoundMessage(ws, name)), None)
    case Forbidden => Response(StatusForbidden, Empty, None)
    case MethodNotAllowed => Response(StatusMethodNotAllowed, Empty, None)
    case BadRequest => Response(StatusBadRequest, Empty, None)
    case Conflict => Response(StatusConflict, Empty, None)
  }

  /** The quiet flag changes the body of a not-found response and nothing else. */
  lemma QuietOnlySilencesNotFound(o: Outcome)
    ensures Respond(o, true).status == Respond(o, false).status
    ensures Respond(o, true).location == Respond(o, false).location
    ensures !o.NotFound? ==> Respond(o, true) == Respond(o, false)
    ensures o.NotFound? ==> Respond(o, true).body == Empty && Respond(o, false).body != Empty
  {
  }

  /** The value of header `name`; the only header the resource sets is `Location`. */
  function Header(r: Response, name: string): (h: Option<string>)
    ensures name == "Location" ==> h == r.location
    ensures name != "Location" ==> h.None?
  {
    if name == "Location" then r.location else None
  }

  /**
   * The tests' `hasHeader(name, valueMatcher)`: false when the header is
   * absent, otherwise whatever the value matcher says of its value.
   */
  predicate HasHeader(r: Response, name: string, valueMatcher: string -> bool) {
    match Header(r, name)
    case None => false
    case Some(value) => valueMatcher(value)
  }

  /** A present header is judged by the value matcher alone; an absent one never matches. */
  lemma HasHeaderDefersToMatcher(r: Response, name: string, valueMatcher: string -> bool)
    ensures Header(r, name).None? ==> !HasHeader(r, name, valueMatcher)
    ensures forall v :: Header(r, name) == Some(v) ==>
      (HasHeader(r, name, valueMatcher) <==> valueMatcher(v))
  {
  }

  /** Only a creation carries `Location`, and it carries the created path. */
  lemma LocationOnlyOnCreate(o: Outcome, quietOnNotFound: bool, valueMatcher: string -> bool)
    ensures HasHeader(Respond(o, quietOnNotFound), "Location", valueMatcher) <==>
      o.Created? && valueMatcher(o.path)
  {
  }
}
