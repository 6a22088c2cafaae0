/**
  The document-store collection of users (src/db/mongomodel/mod.rs), reduced to
  what a caller observes: a map from id to record, a unique index on `email`,
  ids handed out by the store, and a flag saying whether the server answers.
*/
module MongoModel {
  import opened Results
  import opened Errors
  import opened Externals
  import opened UserRecord

  /** Name of the unique index on `email`. */
  const EmailIndex := "email"

  datatype Db = Db(records: map<ObjectId, User>, nextId: ObjectId, reachable: bool)

  /** Every stored record carries its own id, ids below `nextId` are the only ones
      handed out, and no two records share an email (the unique index). */
  ghost predicate Valid(db: Db)
  {
    && (forall id :: id in db.records ==> id < db.nextId && db.records[id].id == Some(id))
    && (forall a, b :: a in db.records && b in db.records && db.records[a].email == db.records[b].email ==> a == b)
  }

  ghost predicate EmailTaken(db: Db, email: string)
  {
    exists id :: id in db.records && db.records[id].email == email
  }

  /** The stored records, each at most once, in id order. */
  ghost predicate Lists(db: Db, users: seq<User>)
  {
    && (forall u :: u in users <==> u in db.records.Values)
    && (forall i, j :: 0 <= i < j < |users| ==> users[i].id.Some? && users[j].id.Some? && users[i].id.value < users[j].id.value)
  }

  /** The first id in `[lo, hi)` whose record has `email`. */
  function ScanEmail(records: map<ObjectId, User>, email: string, lo: nat, hi: nat): (r: Option<ObjectId>)
    requires lo <= hi
    ensures r.Some? ==> lo <= r.value < hi && r.value in records && records[r.value].email == email
    ensures r.None? ==> forall id :: lo <= id < hi && id in records ==> records[id].email != email
    decreases hi - lo
  {
    if lo == hi then None
    else if lo in records && records[lo].email == email then Some(lo)
    else ScanEmail(records, email, lo + 1, hi)
  }

  /** The id of the record holding `email`, as the unique index finds it. */
  function FindByEmail(db: Db, email: string): (r: Option<ObjectId>)
    requires Valid(db)
    ensures r.Some? <==> EmailTaken(db, email)
    ensures r.Some? ==> r.value in db.records && db.records[r.value].email == email
  {
    ScanEmail(db.records, email, 0, db.nextId)
  }

  /** The record `create_user` builds before inserting it. */
  function NewRecord(email: string, hash: string, token: string, isAdmin: bool): User
  {
    User(None, email, isAdmin, false, token, hash, None, None, None)
  }

  /** `create_user`: insert a new record; the unique index rejects a taken email,
      and the rejection surfaces as a driver error, not `EmailAlreadyExists`. */
  function CreateUser(db: Db, email: string, hash: string, token: string, isAdmin: bool): (r: Result<Db, Error>)
    requires Valid(db)
    ensures !db.reachable ==> r == Err(MongoDBError(ServerUnavailable))
    ensures db.reachable && EmailTaken(db, email) ==> r == Err(MongoDBError(DuplicateKey(EmailIndex)))
    ensures r.Ok? <==> db.reachable && !EmailTaken(db, email)
    ensures r.Ok? ==> Valid(r.value) && r.value.reachable
    ensures r.Ok? ==> db.nextId !in db.records
    ensures r.Ok? ==>
              r.value.records == db.records[db.nextId := NewRecord(email, hash, token, isAdmin).(id := Some(db.nextId))]
  {
    if !db.reachable then Err(MongoDBError(ServerUnavailable))
    else if FindByEmail(db, email).Some? then Err(MongoDBError(DuplicateKey(EmailIndex)))
    else
      var id := db.nextId;
      Ok(Db(db.records[id := NewRecord(email, hash, token, isAdmin).(id := Some(id))], id + 1, true))
  }

  /** `update_user`: replace the record with the user's id; no match is not an error. */
  function UpdateUser(db: Db, user: User): (r: Result<Db, Error>)
    requires Valid(db) && user.id.Some?
    ensures !db.reachable ==> r == Err(MongoDBError(ServerUnavailable))
    ensures db.reachable && user.id.value !in db.records ==> r == Ok(db)
    ensures r.Ok? ==> Valid(r.value)
    ensures r.Ok? ==> forall id :: id != user.id.value ==> (id in r.value.records <==> id in db.records)
    ensures r.Ok? ==> forall id :: id != user.id.value && id in db.records ==> r.value.records[id] == db.records[id]
    ensures r.Ok? && user.id.value in db.records ==> user.id.value in r.value.records && r.value.records[user.id.value] == user
    ensures r.Err? && db.reachable ==>
              && r.error == MongoDBError(DuplicateKey(EmailIndex))
              && exists o :: o in db.records && o != user.id.value && db.records[o].email == user.email
    ensures db.reachable && (forall o :: o in db.records && o != user.id.value ==> db.records[o].email != user.email) ==>
              r.Ok?
  {
    var id := user.id.value;
    if !db.reachable then Err(MongoDBError(ServerUnavailable))
    else if id !in db.records then Ok(db)
    else
      match FindByEmail(db, user.email)
      case Some(other) =>
        if other != id then Err(MongoDBError(DuplicateKey(EmailIndex)))
        else Ok(db.(records := db.records[id := user]))
      case None => Ok(db.(records := db.records[id := user]))
  }

  /** `delete_user_by_id`: deleting an absent id is not an error. */
  function DeleteUserById(db: Db, id: ObjectId): (r: Result<Db, Error>)
    requires Valid(db)
    ensures r.Ok? <==> db.reachable
    ensures r.Err? ==> r.error == MongoDBError(ServerUnavailable)
    ensures r.Ok? ==> Valid(r.value) && r.value.records == db.records - {id}
  {
    if !db.reachable then Err(MongoDBError(ServerUnavailable)) else Ok(db.(records := db.records - {id}))
  }

  /** `delete_user_by_email`: deleting an absent email is not an error. */
  function DeleteUserByEmail(db: Db, email: string): (r: Result<Db, Error>)
    requires Valid(db)
    ensures r.Ok? <==> db.reachable
    ensures r.Err? ==> r.error == MongoDBError(ServerUnavailable)
    ensures r.Ok? ==> Valid(r.value) && !EmailTaken(r.value, email)
    ensures r.Ok? ==> forall id :: id in db.records && db.records[id].email != email ==>
                        id in r.value.records && r.value.records[id] == db.records[id]
    ensures r.Ok? ==> r.value.records.Keys <= db.records.Keys
  {
    if !db.reachable then Err(MongoDBError(ServerUnavailable))
    else
      match FindByEmail(db, email)
      case Some(id) => Ok(db.(records := db.records - {id}))
      case None => Ok(db)
  }

  /** `get_user_by_id`. */
  function GetUserById(db: Db, id: ObjectId): (r: Result<User, Error>)
    ensures r.Ok? <==> db.reachable && id in db.records
    ensures r.Ok? ==> r.value == db.records[id]
    ensures r.Err? ==> r.error == (if db.reachable then UserNotFoundError else MongoDBError(ServerUnavailable))
  {
    if !db.reachable then Err(MongoDBError(ServerUnavailable))
    else if id in db.records then Ok(db.records[id])
    else Err(UserNotFoundError)
  }

  /** `get_user_by_email`. */
  function GetUserByEmail(db: Db, email: string): (r: Result<User, Error>)
    requires Valid(db)
    ensures r.Ok? <==> db.reachable && EmailTaken(db, email)
    ensures r.Ok? ==> r.value.email == email && r.value.id.Some? && r.value.id.value in db.records
                      && db.records[r.value.id.value] == r.value
    ensures r.Err? ==> r.error == (if db.reachable then UserNotFoundError else MongoDBError(ServerUnavailable))
  {
    if !db.reachable then Err(MongoDBError(ServerUnavailable))
    else
      match FindByEmail(db, email)
      case Some(id) => Ok(db.records[id])
      case None => Err(UserNotFoundError)
  }

  /** The records with ids `from` and above, in id order. */
  function ListFrom(db: Db, from: nat): (r: seq<User>)
    requires Valid(db) && from <= db.nextId
    ensures forall u :: u in r ==> u in db.records.Values && u.id.Some? && from <= u.id.value
    ensures forall id :: from <= id && id in db.records ==> db.records[id] in r
    ensures forall i, j :: 0 <= i < j < |r| ==> r[i].id.Some? && r[j].id.Some? && r[i].id.value < r[j].id.value
    decreases db.nextId - from
  {
    if from == db.nextId then []
    else if from in db.records then [db.records[from]] + ListFrom(db, from + 1)
    else ListFrom(db, from + 1)
  }

  /** `get_all_users`: every record, or nothing at all when the server fails. */
  function GetAllUsers(db: Db): (r: seq<User>)
    requires Valid(db)
    ensures !db.reachable ==> r == []
    ensures db.reachable ==> Lists(db, r)
  {
    if !db.reachable then [] else ListFrom(db, 0)
  }

  /** A created record is found by its email with the flags `create_user` sets:
      unverified, the given token and admin flag, an empty password history. */
  lemma CreatedRecordShape(db: Db, email: string, hash: string, token: string, isAdmin: bool)
    requires Valid(db) && CreateUser(db, email, hash, token, isAdmin).Ok?
    ensures var u := GetUserByEmail(CreateUser(db, email, hash, token, isAdmin).value, email);
            && u.Ok? && u.value.id == Some(db.nextId)
            && !u.value.isVerified && u.value.verificationToken == token && u.value.password == hash
            && u.value.isAdmin == isAdmin
            && u.value.prevPassword.None? && u.value.prevPassword1.None? && u.value.prevPassword2.None?
  {
    var db' := CreateUser(db, email, hash, token, isAdmin).value;
    assert db'.records[db.nextId].email == email;
  }

  /** Of two creations with one email, the second always fails. */
  lemma SecondCreateFails(db: Db, email: string, h1: string, h2: string, t1: string, t2: string, a1: bool, a2: bool)
    requires Valid(db) && CreateUser(db, email, h1, t1, a1).Ok?
    ensures CreateUser(CreateUser(db, email, h1, t1, a1).value, email, h2, t2, a2)
            == Err(MongoDBError(DuplicateKey(EmailIndex)))
  {
    var db' := CreateUser(db, email, h1, t1, a1).value;
    assert db'.records[db.nextId].email == email;
  }

  /** Reading a record back and writing it unchanged leaves the collection as it was. */
  lemma UpdateWithCurrentIsNoOp(db: Db, id: ObjectId)
    requires Valid(db) && GetUserById(db, id).Ok?
    ensures UpdateUser(db, GetUserById(db, id).value) == Ok(db)
  {
    assert db.records[id := db.records[id]] == db.records;
  }
}
