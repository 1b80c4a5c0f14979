/** What each request does when nothing interleaves with it: first the store, then the cache. */
module ServiceSpec {
  import opened Results
  import opened Models
  import Database
  import opened StorageSpec
  import C = Cache

  datatype World = World(db: Database.Db, cache: map<string, ProtoUser>)

  datatype Call =
    | Register(data: CreateRequest)
    | Update(user: Option<ProtoUser>)
    | Delete(key: string)
    | Login(email: string, password: string)
    | Get(key: string)

  datatype Reply =
    | Registered(user: ProtoUser)
    | Updated(user: ProtoUser)
    | Removed
    | LoggedIn(user: ProtoUser)
    | Found(user: ProtoUser)
    | Failed(failure: Failure)

  function SaveUser(w: World, user: ProtoUser, o: C.Outcome): World {
    w.(cache := C.Stored(w.cache, user, o))
  }

  function RegisterUser(cfg: Settings, w: World, data: CreateRequest, env: Env): (World, Reply) {
    var (db, r) := StorageSpec.CreateUser(cfg, w.db, data, env);
    var w' := w.(db := db);
    match r
    case Err(e) => (w', Failed(e))
    case Ok(user) =>
      (SaveUser(w', user, env.cache),
       if env.cache.Acknowledged? then Registered(user) else Failed(CacheError(user.userId)))
  }

  /** A login does not look at how its cache write ends. */
  function LoginUser(cfg: Settings, w: World, email: string, password: string, env: Env): (World, Reply) {
    match StorageSpec.LoginUser(cfg, w.db, email, password, env)
    case Err(e) => (w, Failed(e))
    case Ok(user) => (SaveUser(w, user, env.cache), LoggedIn(user))
  }

  /** The store is asked only when the cache gives no user. */
  function GetById(w: World, key: string, env: Env): Reply {
    match if env.cacheReadOk then C.Cached(w.cache, key) else None
    case Some(user) => Found(user)
    case None => FromStore(w.db, key, env)
  }

  function FromStore(db: Database.Db, key: string, env: Env): Reply {
    match StorageSpec.GetUserById(db, key, env)
    case Err(e) => Failed(e)
    case Ok(user) => Found(user)
  }

  function UpdateUser(w: World, user: Option<ProtoUser>, env: Env): (World, Reply)
    requires Database.Indexed(w.db)
  {
    var (db, r) := StorageSpec.UpdateUser(w.db, user, env);
    var w' := w.(db := db);
    match r
    case Err(e) => (w', Failed(e))
    case Ok(merged) =>
      (SaveUser(w', merged, env.cache),
       if env.cache.Acknowledged? then Updated(merged) else Failed(CacheError(merged.userId)))
  }

  /** The cache key to remove is the string of the request, not the id it decodes to. */
  function DeleteUserById(cfg: Settings, w: World, key: string, env: Env): (World, Reply)
    requires Database.Indexed(w.db)
  {
    var (db, r) := StorageSpec.DeleteUserById(cfg, w.db, key, env);
    var w' := w.(db := db);
    match r
    case Some(e) => (w', Failed(e))
    case None =>
      (w'.(cache := C.Removed(w'.cache, key, env.cache)),
       if env.cache.Acknowledged? then Removed else Failed(CacheError(key)))
  }

  /** One whole request. */
  function Serve(cfg: Settings, w: World, call: Call, env: Env): (World, Reply)
    requires Database.Indexed(w.db)
  {
    match call
    case Register(data) => RegisterUser(cfg, w, data, env)
    case Update(user) => UpdateUser(w, user, env)
    case Delete(key) => DeleteUserById(cfg, w, key, env)
    case Login(email, password) => LoginUser(cfg, w, email, password, env)
    case Get(key) => (w, GetById(w, key, env))
  }
}
