/** What each storage operation does when nothing interleaves with its store calls. */
module StorageSpec {
  import opened Results
  import opened ObjectIds
  import opened Models
  import opened Database
  import Cache

  /** `hash` stands for the password hash.  `setOperator` says whether the delete's update document carries
      `$set`: the code as written does not. */
  datatype Settings = Settings(hash: string -> string, setOperator: bool)

  /** Everything a request does not decide itself, one field for each point where the outside is asked. */
  datatype Env = Env(
    cancelled: bool,        // the context is done when the code checks it
    readOk: bool,           // the store answers the read
    writeOk: bool,          // the store answers the write
    newId: ObjectId,        // what `NewObjectID` gives
    tokenOk: bool,          // the token can be signed
    cacheReadOk: bool,      // Redis answers the read and its entry decodes
    cache: Cache.Outcome)   // the end of the cache write

  datatype Failure =
    | Cancelled | StoreError | BadId | NotFound | InvalidRequest | NotModified
    | RejectedUpdate | WrongPassword | TokenError | CacheError(key: string)

  type Answer = Result<ProtoUser, Failure>

  function NewDocument(cfg: Settings, id: ObjectId, data: CreateRequest): Document {
    var d := FromCreate(id, data);
    d.(password := cfg.hash(d.password))
  }

  /** The document carries a registration, field by field, with the password hashed. */
  predicate CarriesRegistration(cfg: Settings, doc: Document, data: CreateRequest) {
    && doc.username == data.username
    && doc.email == data.email
    && doc.password == cfg.hash(data.password)
    && doc.profile.name == data.profile.name
    && doc.profile.address == data.profile.address
    && doc.deleted == data.deleted
  }

  lemma NewDocumentExactly(cfg: Settings, id: ObjectId, data: CreateRequest, doc: Document)
    ensures doc == NewDocument(cfg, id, data) <==> doc.id == id && CarriesRegistration(cfg, doc, data)
  {
  }

  function DeleteDoc(cfg: Settings): UpdateDoc {
    if cfg.setOperator then SetDeleted else BareDeleted
  }

  function CreateUser(cfg: Settings, db: Db, data: CreateRequest, env: Env): (Db, Answer) {
    if env.cancelled then (db, Err(Cancelled))
    else if !env.writeOk || env.newId in db.docs then (db, Err(StoreError))
    else
      var doc := NewDocument(cfg, env.newId, data);
      (Insert(db, doc, data), Ok(ToProtoUser(doc)))
  }

  datatype LookUp = ById | By(field: Field)

  /** The live document that an id or a field's value leads to. */
  function GetByField(db: Db, look: LookUp, value: string, env: Env): Result<Document, Failure> {
    if look.ById? && FromHex(value).None? then Err(BadId)
    else if env.cancelled then Err(Cancelled)
    else if !env.readOk then Err(StoreError)
    else
      match if look.ById? then FindLive(db, FromHex(value).value) else FindLiveBy(db, look.field, value)
      case None => Err(NotFound)
      case Some(doc) => Ok(doc)
  }

  function GetUserById(db: Db, key: string, env: Env): Answer {
    match GetByField(db, ById, key, env)
    case Err(e) => Err(e)
    case Ok(doc) => Ok(ToProtoUser(doc))
  }

  /** The write half of an update that read `base`.  It replaces the whole document, but only a live one. */
  function WriteMerged(db: Db, base: Document, change: ProtoUser, writeOk: bool): (Db, Answer)
    requires base.id in db.docs ==> base.id in db.versions
  {
    var doc := Merge(base, change);
    if !writeOk then (db, Err(StoreError))
    else if !Live(db, base.id) || db.docs[base.id] == doc then (db, Err(NotModified))
    else (Replace(db, doc), Ok(ToProtoUser(doc)))
  }

  function UpdateUser(db: Db, user: Option<ProtoUser>, env: Env): (Db, Answer)
    requires Indexed(db)
  {
    if user.None? || user.value.userId == "" then (db, Err(InvalidRequest))
    else
      match GetByField(db, ById, user.value.userId, env)
      case Err(e) => (db, Err(e))
      case Ok(base) => WriteMerged(db, base, user.value, env.writeOk)
  }

  /** The write half of a deletion: no filter on `deleted`, and no look at the modified count. */
  function WriteDeleted(cfg: Settings, db: Db, id: ObjectId, writeOk: bool): (Db, Option<Failure>)
    requires id in db.docs ==> id in db.versions && db.docs[id].id == id
  {
    if !HasOperator(DeleteDoc(cfg)) then (db, Some(RejectedUpdate))
    else if !writeOk then (db, Some(StoreError))
    else if id !in db.docs then (db, None)
    else (Replace(db, db.docs[id].(deleted := true)), None)
  }

  function DeleteUserById(cfg: Settings, db: Db, key: string, env: Env): (Db, Option<Failure>)
    requires Indexed(db)
  {
    match FromHex(key)
    case None => (db, Some(BadId))
    case Some(id) =>
      if !env.readOk then (db, Some(StoreError))
      else if id !in db.docs then (db, Some(NotFound))
      else WriteDeleted(cfg, db, id, env.writeOk)
  }

  /** What a login does with the document it found. */
  function Authenticate(cfg: Settings, doc: Document, password: string, tokenOk: bool): Answer {
    if cfg.hash(password) != doc.password then Err(WrongPassword)
    else if !tokenOk then Err(TokenError)
    else Ok(ToProtoUser(doc))
  }

  function LoginUser(cfg: Settings, db: Db, email: string, password: string, env: Env): Answer {
    match GetByField(db, By(Email), email, env)
    case Err(e) => Err(e)
    case Ok(doc) => Authenticate(cfg, doc, password, env.tokenOk)
  }
}
