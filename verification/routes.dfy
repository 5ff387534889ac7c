/** The authenticated route handlers of the grow-grub API, each modelled as a
    function of the caller's verified subject, the request body or path
    parameter, and the data store. The store is an arbitrary function from the
    query issued to its outcome (a value or a thrown error); each handler
    reports the response it sends and the queries it issued. */
module Routes {
  import opened Wrappers
  import opened Entities
  import opened Assembly

  /** A JSON object such as a user row or a request body. */
  type Record = map<string, Value>

  /** `obj.key`: a missing key reads as `undefined`. */
  function Field(r: Record, key: string): Value
  {
    if key in r then r[key] else Undefined
  }

  /** The calls the handlers make to the data store. */
  datatype Query =
    | UserByAuth0Id(auth0Id: string)
    | AddUser(user: Record)
    | Usernames
    | AllPlants
    | UsersPlantsDesired(auth0Id: string)
    | UsersGardens(auth0Id: string)
    | UserGarden(auth0Id: string, gardenParam: string)

  /** The outcome of an awaited store call: its value, or a thrown error. */
  datatype DbResult<+T> = Returned(value: T) | Threw

  /** `res.sendStatus(code)` or `res.json(body)`. */
  datatype Response<+B> = SendStatus(code: nat) | SendJson(body: B)

  /** `res.json` answers with the default status 200. */
  function StatusCode<B>(r: Response<B>): nat
  {
    if r.SendStatus? then r.code else 200
  }

  datatype Handled<+B> = Handled(response: Response<B>, queries: seq<Query>)

  /** `req.auth?.sub` is truthy: present and not the empty string. */
  predicate HasIdentity(sub: Option<string>)
  {
    sub.Some? && sub.value != ""
  }

  // ---------------------------------------------------------------------
  // GET /users

  /** The `User` object sent back: the row's id, username and location and
      no other field. */
  function ToUser(row: Record): (u: Record)
    ensures u.Keys == {"id", "username", "location"}
    ensures forall key :: key in u ==> u[key] == Field(row, key)
  {
    map["id" := Field(row, "id"), "username" := Field(row, "username"), "location" := Field(row, "location")]
  }

  /** Fields of the row other than id, username and location never reach
      the response. */
  lemma ToUserIgnoresOtherFields(a: Record, b: Record)
    requires forall key :: key in {"id", "username", "location"} ==> Field(a, key) == Field(b, key)
    ensures ToUser(a) == ToUser(b)
  {
  }

  /** `GET /users`: the caller's user, projected, or the store's falsy answer
      passed through unchanged. */
  function GetUsers(sub: Option<string>, db: Query -> DbResult<Option<Record>>): (h: Handled<Option<Record>>)
    ensures StatusCode(h.response) == 401 <==> !HasIdentity(sub)
    ensures !HasIdentity(sub) ==> h.queries == []
    ensures HasIdentity(sub) ==> h.queries == [UserByAuth0Id(sub.value)]
    ensures StatusCode(h.response) == 500 <==> HasIdentity(sub) && db(UserByAuth0Id(sub.value)).Threw?
    ensures HasIdentity(sub) && db(UserByAuth0Id(sub.value)) == Returned(None) ==> h.response == SendJson(None)
    ensures HasIdentity(sub) && db(UserByAuth0Id(sub.value)).Returned? && db(UserByAuth0Id(sub.value)).value.Some? ==>
      h.response == SendJson(Some(ToUser(db(UserByAuth0Id(sub.value)).value.value)))
    ensures h.response.SendJson? && h.response.body.Some? ==>
      && HasIdentity(sub)
      && db(UserByAuth0Id(sub.value)).Returned?
      && db(UserByAuth0Id(sub.value)).value.Some?
      && h.response.body.value == ToUser(db(UserByAuth0Id(sub.value)).value.value)
  {
    if !HasIdentity(sub) then Handled(SendStatus(401), [])
    else
      var q := UserByAuth0Id(sub.value);
      var response := match db(q)
        case Threw => SendStatus(500)
        case Returned(None) => SendJson(None)
        case Returned(Some(row)) => SendJson(Some(ToUser(row)));
      Handled(response, [q])
  }

  // ---------------------------------------------------------------------
  // POST /users

  /** `{...userData, auth0_id: auth0Id}`: every field of the body, with
      `auth0_id` set to the caller's subject whatever the body said. */
  function WithSubject(data: Record, sub: string): (r: Record)
    ensures Field(r, "auth0_id") == Text(sub)
    ensures forall key :: key != "auth0_id" ==> Field(r, key) == Field(data, key)
    ensures r.Keys == data.Keys + {"auth0_id"}
  {
    data["auth0_id" := Text(sub)]
  }

  /** `POST /users`: the identity check comes before the body check, and the
      store is asked only when both pass. */
  function PostUsers<T>(sub: Option<string>, body: Option<Record>, db: Query -> DbResult<T>): (h: Handled<T>)
    ensures StatusCode(h.response) == 401 <==> !HasIdentity(sub)
    ensures StatusCode(h.response) == 400 <==> HasIdentity(sub) && body.None?
    ensures h.queries == [] <==> !HasIdentity(sub) || body.None?
    ensures h.queries != [] ==> h.queries == [AddUser(WithSubject(body.value, sub.value))]
    ensures StatusCode(h.response) == 500 <==>
      HasIdentity(sub) && body.Some? && db(AddUser(WithSubject(body.value, sub.value))).Threw?
    ensures h.response.SendJson? ==>
      HasIdentity(sub) && body.Some? && db(AddUser(WithSubject(body.value, sub.value))) == Returned(h.response.body)
    ensures HasIdentity(sub) && body.Some? && db(AddUser(WithSubject(body.value, sub.value))).Returned? ==>
      h.response == SendJson(db(AddUser(WithSubject(body.value, sub.value))).value)
  {
    if !HasIdentity(sub) then Handled(SendStatus(401), [])
    else if body.None? then Handled(SendStatus(400), [])
    else
      var q := AddUser(WithSubject(body.value, sub.value));
      var response := match db(q)
        case Threw => SendStatus(500)
        case Returned(id) => SendJson(id);
      Handled(response, [q])
  }

  // ---------------------------------------------------------------------
  // GET /usernames, GET /plants, GET /plants/desired, GET /gardens

  /** The four routes that send the store's answer back unchanged. */
  datatype Listing = UsernamesRoute | PlantsRoute | PlantsDesiredRoute | GardensRoute

  function ListingQuery(l: Listing, sub: string): Query
  {
    match l
    case UsernamesRoute => Usernames
    case PlantsRoute => AllPlants
    case PlantsDesiredRoute => UsersPlantsDesired(sub)
    case GardensRoute => UsersGardens(sub)
  }

  function GetListing<T>(l: Listing, sub: Option<string>, db: Query -> DbResult<T>): (h: Handled<T>)
    ensures StatusCode(h.response) == 401 <==> !HasIdentity(sub)
    ensures !HasIdentity(sub) ==> h.queries == []
    ensures HasIdentity(sub) ==> h.queries == [ListingQuery(l, sub.value)]
    ensures StatusCode(h.response) == 500 <==> HasIdentity(sub) && db(ListingQuery(l, sub.value)).Threw?
    ensures h.response.SendJson? ==> HasIdentity(sub) && db(ListingQuery(l, sub.value)) == Returned(h.response.body)
    ensures HasIdentity(sub) && db(ListingQuery(l, sub.value)).Returned? ==>
      h.response == SendJson(db(ListingQuery(l, sub.value)).value)
  {
    if !HasIdentity(sub) then Handled(SendStatus(401), [])
    else
      var q := ListingQuery(l, sub.value);
      var response := match db(q)
        case Threw => SendStatus(500)
        case Returned(v) => SendJson(v);
      Handled(response, [q])
  }

  // ---------------------------------------------------------------------
  // GET /gardens/:id

  /** `GET /gardens/:id`: the assembled garden, or 500 when the store throws
      or returns no rows. The path parameter is passed to the store as is. */
  function GetGarden(sub: Option<string>, gardenParam: string, db: Query -> DbResult<seq<Row>>): (h: Handled<Garden>)
    ensures StatusCode(h.response) == 401 <==> !HasIdentity(sub)
    ensures !HasIdentity(sub) ==> h.queries == []
    ensures HasIdentity(sub) ==> h.queries == [UserGarden(sub.value, gardenParam)]
    ensures StatusCode(h.response) == 500 <==>
      && HasIdentity(sub)
      && (db(UserGarden(sub.value, gardenParam)).Threw? || db(UserGarden(sub.value, gardenParam)).value == [])
    ensures h.response.SendJson? ==>
      && HasIdentity(sub)
      && db(UserGarden(sub.value, gardenParam)).Returned?
      && Assemble(db(UserGarden(sub.value, gardenParam)).value) == Success(h.response.body)
    ensures HasIdentity(sub) && db(UserGarden(sub.value, gardenParam)).Returned? && db(UserGarden(sub.value, gardenParam)).value != [] ==>
      h.response == SendJson(Assemble(db(UserGarden(sub.value, gardenParam)).value).value)
  {
    if !HasIdentity(sub) then Handled(SendStatus(401), [])
    else
      var q := UserGarden(sub.value, gardenParam);
      var response := match db(q)
        case Threw => SendStatus(500)
        case Returned(rows) =>
          match Assemble(rows)
          case Failure(_) => SendStatus(500)
          case Success(garden) => SendJson(garden);
      Handled(response, [q])
  }
}
