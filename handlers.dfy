/**
 * The five `/dogs` route handlers as decision tables: from the path id, the
 * body and what the persistence client answers, to the persistence calls the
 * handler makes and the first response it sends.
 *
 * The persistence client is a parameter: a record of functions, one per
 * operation, each answering with a value or a rejection. The handler's
 * result logs the calls it made, so that "no call is made" and "the call
 * receives exactly these values" can be stated.
 */
module Handlers {
  import opened Request
  import opened Validation

  /**
   * The number `+req.params.id` yields. The coercion from the path text is
   * not modelled; only the handlers' `!id` test on its result is.
   */
  datatype NumberValue = Finite(value: real) | Infinite(positive: bool) | NaN

  /** JavaScript truthiness of a number: false for 0, -0 and NaN. */
  predicate Truthy(id: NumberValue)
  {
    match id
    case Finite(v) => v != 0.0
    case Infinite(_) => true
    case NaN => false
  }

  /** The fields `POST /dogs` hands to the persistence client. */
  datatype DogData = DogData(name: string, breed: string, description: string, age: real)

  /** A stored Dog, as the persistence client returns it. */
  datatype Dog = Dog(id: int, name: string, breed: string, description: string, age: real)

  /** A settled persistence promise. */
  datatype Reply<T> = Resolved(value: T) | Rejected

  /**
   * The persistence client: `findMany`, `findUnique` (null when absent),
   * `create`, `update` and `delete` (both reject when the id is absent).
   */
  datatype Persistence = Persistence(
    findMany: () -> Reply<seq<Dog>>,
    findUnique: NumberValue -> Reply<Option<Dog>>,
    create: DogData -> Reply<Dog>,
    update: (NumberValue, Body) -> Reply<Dog>,
    delete: NumberValue -> Reply<Dog>)

  /** A call made to the persistence client, with its arguments. */
  datatype Call =
    | FindMany
    | FindUnique(id: NumberValue)
    | CreateDog(data: DogData)
    | UpdateDog(id: NumberValue, patch: Body)
    | DeleteDog(id: NumberValue)

  /** The JSON body of a response. */
  datatype Payload =
    | DogRecord(dog: Dog)                 // the record itself
    | DogRecords(dogs: seq<Dog>)          // an array of records
    | ErrorsBody(errors: seq<string>)     // { errors: [...] }
    | MessageBody(message: string)        // { message: ... }
    | ErrorBody(error: string)            // { error: ... }

  /**
   * The first response a handler gives: a status with a body, a status set
   * with nothing sent, or a rejection left to the error middleware.
   */
  datatype Response = Send(status: nat, payload: Payload) | StatusOnly(status: nat) | Unhandled

  datatype Exchange = Exchange(calls: seq<Call>, response: Response)

  const InvalidIdResponse: Response := Send(400, MessageBody("id should be a number"))
  const NoContent: Payload := ErrorBody("No content")

  // ---------------------------------------------------------------------
  // The handlers
  // ---------------------------------------------------------------------

  /** `GET /dogs` */
  function HandleList(db: Persistence): Exchange
  {
    match db.findMany()
    case Resolved(dogs) => Exchange([FindMany], Send(200, DogRecords(dogs)))
    case Rejected => Exchange([FindMany], Send(404, NoContent))
  }

  /** `GET /dogs/:id`; an absent record is answered 204 first. */
  function HandleShow(id: NumberValue, db: Persistence): Exchange
  {
    if !Truthy(id) then Exchange([], InvalidIdResponse)
    else
      match db.findUnique(id)
      case Rejected => Exchange([FindUnique(id)], Unhandled)
      case Resolved(None) => Exchange([FindUnique(id)], Send(204, NoContent))
      case Resolved(Some(dog)) => Exchange([FindUnique(id)], Send(200, DogRecord(dog)))
  }

  /** The destructured fields of a body whose four fields have their types. */
  function CreateData(body: Body): Option<DogData>
  {
    match (Lookup(body, "name"), Lookup(body, "breed"), Lookup(body, "description"), Lookup(body, "age"))
    case (Some(JString(n)), Some(JString(b)), Some(JString(d)), Some(JNumber(a))) =>
      Some(DogData(n, b, d, a))
    case _ => None
  }

  /** `POST /dogs`; a persistence failure sets 500 and sends nothing. */
  function HandleCreate(body: Body, db: Persistence): Exchange
  {
    var errors := CreateErrors(body);
    if errors != [] then Exchange([], Send(400, ErrorsBody(errors)))
    else
      AcceptedBodyHasData(body);
      var data := CreateData(body).value;
      match db.create(data)
      case Resolved(dog) => Exchange([CreateDog(data)], Send(201, DogRecord(dog)))
      case Rejected => Exchange([CreateDog(data)], StatusOnly(500))
  }

  /** `PATCH /dogs/:id`; a rejected update (absent id or failure) is answered 204. */
  function HandleUpdate(id: NumberValue, body: Body, db: Persistence): Exchange
  {
    if !Truthy(id) then Exchange([], InvalidIdResponse)
    else
      var errors := UpdateErrors(body);
      if errors != [] then Exchange([], Send(400, ErrorsBody(errors)))
      else
        match db.update(id, body)
        case Rejected => Exchange([UpdateDog(id, body)], Send(204, NoContent))
        case Resolved(dog) => Exchange([UpdateDog(id, body)], Send(201, DogRecord(dog)))
  }

  /** `DELETE /dogs/:id`; a rejected delete (absent id or failure) is answered 204. */
  function HandleDelete(id: NumberValue, db: Persistence): Exchange
  {
    if !Truthy(id) then Exchange([], InvalidIdResponse)
    else
      match db.delete(id)
      case Rejected => Exchange([DeleteDog(id)], Send(204, NoContent))
      case Resolved(dog) => Exchange([DeleteDog(id)], Send(200, DogRecord(dog)))
  }

  // ---------------------------------------------------------------------
  // Properties
  // ---------------------------------------------------------------------

  /** A body that passes create validation supplies the four typed values. */
  lemma AcceptedBodyHasData(body: Body)
    requires CreateErrors(body) == []
    ensures CreateData(body).Some?
  {
    CreateAcceptsIff(body);
    assert FieldConforms(body, Name) && FieldConforms(body, Breed);
    assert FieldConforms(body, Description) && FieldConforms(body, Age);
  }

  /** The values handed to `create` are exactly the body's values. */
  lemma CreateDataIsBodyValues(body: Body, data: DogData)
    requires CreateData(body) == Some(data)
    ensures Lookup(body, "name") == Some(JString(data.name))
    ensures Lookup(body, "breed") == Some(JString(data.breed))
    ensures Lookup(body, "description") == Some(JString(data.description))
    ensures Lookup(body, "age") == Some(JNumber(data.age))
  {
  }

  /** The `!id` test rejects exactly the ids that coerce to 0 (or -0) and NaN. */
  lemma FalsyIds(id: NumberValue)
    ensures !Truthy(id) <==> id == Finite(0.0) || id == NaN
  {
  }

  /** `GET /dogs`: 200 with every record (possibly none), or 404 on any failure. */
  lemma ListOutcome(db: Persistence)
    ensures HandleList(db).calls == [FindMany]
    ensures db.findMany().Resolved? ==> HandleList(db).response == Send(200, DogRecords(db.findMany().value))
    ensures db.findMany().Rejected? ==> HandleList(db).response == Send(404, ErrorBody("No content"))
  {
  }

  /**
   * `GET /dogs/:id`: a falsy id is answered 400 without a lookup; otherwise
   * one lookup, then 200 with the record, 204 without one, and a rejected
   * lookup is left to the error middleware.
   */
  lemma ShowOutcome(id: NumberValue, db: Persistence)
    ensures !Truthy(id) ==> HandleShow(id, db) == Exchange([], Send(400, MessageBody("id should be a number")))
    ensures Truthy(id) ==> HandleShow(id, db).calls == [FindUnique(id)]
    ensures Truthy(id) && db.findUnique(id) == Resolved(None) ==>
      HandleShow(id, db).response == Send(204, ErrorBody("No content"))
    ensures forall dog :: Truthy(id) && db.findUnique(id) == Resolved(Some(dog)) ==>
      HandleShow(id, db).response == Send(200, DogRecord(dog))
    ensures Truthy(id) && db.findUnique(id).Rejected? ==> HandleShow(id, db).response.Unhandled?
  {
  }

  /**
   * `POST /dogs`: persistence is called exactly when validation passes, and
   * then once, with the body's four values; the answer is 400 with the error
   * list, 201 with the created record, or 500 with nothing sent.
   */
  lemma CreateOutcome(body: Body, db: Persistence)
    ensures HandleCreate(body, db).calls != [] <==> AllKeysAllowed(body) && forall f :: FieldConforms(body, f)
    ensures CreateErrors(body) != [] ==> HandleCreate(body, db).response == Send(400, ErrorsBody(CreateErrors(body)))
    ensures CreateErrors(body) == [] ==>
      && CreateData(body).Some?
      && HandleCreate(body, db).calls == [CreateDog(CreateData(body).value)]
      && HandleCreate(body, db).response ==
           match db.create(CreateData(body).value)
           case Resolved(dog) => Send(201, DogRecord(dog))
           case Rejected => StatusOnly(500)
  {
    CreateAcceptsIff(body);
    if CreateErrors(body) == [] {
      AcceptedBodyHasData(body);
    }
  }

  /**
   * `PATCH /dogs/:id`: a falsy id is answered 400 whatever the body; then 400
   * with the error list when validation fails; otherwise one `update` with
   * the body unchanged, then 201 with the record or 204 when it rejects.
   */
  lemma UpdateOutcome(id: NumberValue, body: Body, db: Persistence)
    ensures !Truthy(id) ==> HandleUpdate(id, body, db) == Exchange([], Send(400, MessageBody("id should be a number")))
    ensures Truthy(id) ==>
      (HandleUpdate(id, body, db).calls != [] <==> forall i :: 0 <= i < |body| ==> EntryAcceptable(body[i]))
    ensures Truthy(id) && UpdateErrors(body) != [] ==>
      HandleUpdate(id, body, db).response == Send(400, ErrorsBody(UpdateErrors(body)))
    ensures Truthy(id) && UpdateErrors(body) == [] ==>
      && HandleUpdate(id, body, db).calls == [UpdateDog(id, body)]
      && HandleUpdate(id, body, db).response ==
           match db.update(id, body)
           case Resolved(dog) => Send(201, DogRecord(dog))
           case Rejected => Send(204, ErrorBody("No content"))
  {
    UpdateAcceptsIff(body);
  }

  /**
   * `DELETE /dogs/:id`: a falsy id is answered 400 without a call; otherwise
   * one `delete`, then 200 with the record or 204 when it rejects.
   */
  lemma DeleteOutcome(id: NumberValue, db: Persistence)
    ensures !Truthy(id) ==> HandleDelete(id, db) == Exchange([], Send(400, MessageBody("id should be a number")))
    ensures Truthy(id) ==> HandleDelete(id, db).calls == [DeleteDog(id)]
    ensures Truthy(id) && db.delete(id).Rejected? ==> HandleDelete(id, db).response == Send(204, ErrorBody("No content"))
    ensures forall dog :: Truthy(id) && db.delete(id) == Resolved(dog) ==>
      HandleDelete(id, db).response == Send(200, DogRecord(dog))
  {
  }

  /**
   * Every handler makes at most one persistence call, and answers only with
   * the statuses of its row of the decision table.
   */
  lemma StatusTable(id: NumberValue, body: Body, db: Persistence)
    ensures |HandleList(db).calls| == 1 && HandleList(db).response.Send?
    ensures HandleList(db).response.status in {200, 404}
    ensures |HandleShow(id, db).calls| <= 1
    ensures HandleShow(id, db).response.Unhandled? || HandleShow(id, db).response.status in {200, 204, 400}
    ensures |HandleCreate(body, db).calls| <= 1 && !HandleCreate(body, db).response.Unhandled?
    ensures HandleCreate(body, db).response.status in {201, 400, 500}
    ensures |HandleUpdate(id, body, db).calls| <= 1 && HandleUpdate(id, body, db).response.Send?
    ensures HandleUpdate(id, body, db).response.status in {201, 204, 400}
    ensures |HandleDelete(id, db).calls| <= 1 && HandleDelete(id, db).response.Send?
    ensures HandleDelete(id, db).response.status in {200, 204, 400}
  {
    ShowOutcome(id, db);
    CreateOutcome(body, db);
    UpdateOutcome(id, body, db);
    DeleteOutcome(id, db);
  }

  /**
   * A body with the four fields, typed, is created with exactly its values and
   * answered 201 with the stored record (`{name: "Rex", breed: "Lab",
   * description: "friendly", age: 3}` is one such body).
   */
  lemma CreateCompleteBody(name: string, breed: string, description: string, age: real,
                           db: Persistence, stored: Dog)
    requires db.create(DogData(name, breed, description, age)) == Resolved(stored)
    ensures HandleCreate(CompleteBody(name, breed, description, age), db)
      == Exchange([CreateDog(DogData(name, breed, description, age))], Send(201, DogRecord(stored)))
  {
    CompleteBodyAccepted(name, breed, description, age);
  }

  function CompleteBody(name: string, breed: string, description: string, age: real): Body
  {
    [Entry("name", JString(name)), Entry("breed", JString(breed)),
     Entry("description", JString(description)), Entry("age", JNumber(age))]
  }

  lemma CompleteBodyAccepted(name: string, breed: string, description: string, age: real)
    ensures CreateErrors(CompleteBody(name, breed, description, age)) == []
    ensures CreateData(CompleteBody(name, breed, description, age)) == Some(DogData(name, breed, description, age))
  {
    var body := CompleteBody(name, breed, description, age);
    CompleteBodyLookups(name, breed, description, age);
    CompleteBodyKeysAllowed(name, breed, description, age);
    CreateDataFromLookups(body, name, breed, description, age);
    CreateAcceptsFourFields(body);
  }

  /** A body whose four lookups have their types hands exactly those values to `create`. */
  lemma CreateDataFromLookups(body: Body, name: string, breed: string, description: string, age: real)
    requires Lookup(body, "name") == Some(JString(name)) && Lookup(body, "breed") == Some(JString(breed))
    requires Lookup(body, "description") == Some(JString(description)) && Lookup(body, "age") == Some(JNumber(age))
    ensures CreateData(body) == Some(DogData(name, breed, description, age))
  {
  }

  lemma CompleteBodyKeysAllowed(name: string, breed: string, description: string, age: real)
    ensures AllKeysAllowed(CompleteBody(name, breed, description, age))
  {
    var body := CompleteBody(name, breed, description, age);
    assert Keys(body) == AllowedKeys;
  }

  lemma CompleteBodyLookups(name: string, breed: string, description: string, age: real)
    ensures var body := CompleteBody(name, breed, description, age);
      && Lookup(body, "name") == Some(JString(name))
      && Lookup(body, "breed") == Some(JString(breed))
      && Lookup(body, "description") == Some(JString(description))
      && Lookup(body, "age") == Some(JNumber(age))
  {
    var body := CompleteBody(name, breed, description, age);
    assert DistinctKeys(body);
    LookupFindsEntry(body, 0);
    LookupFindsEntry(body, 1);
    LookupFindsEntry(body, 2);
    LookupFindsEntry(body, 3);
  }

  /** Patching an absent id with a valid body is answered 204 "No content". */
  lemma PatchAbsentScenario(db: Persistence)
    requires db.update(Finite(999.0), [Entry("age", JNumber(5.0))]).Rejected?
    ensures HandleUpdate(Finite(999.0), [Entry("age", JNumber(5.0))], db).response == Send(204, ErrorBody("No content"))
  {
    var body := [Entry("age", JNumber(5.0))];
    assert Keys(body) == ["age"];
    assert UpdateErrors(body) == [];
  }
}
