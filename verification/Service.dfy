/** The service object: it calls the storage and then, on success, the cache. */
module Service {
  import opened Results
  import Models
  import opened StorageSpec
  import opened ServiceSpec
  import opened Answers
  import Storage
  import Cache

  class UserService {
    const storage: Storage.UserStorage
    const redis: Cache.RedisService

    ghost function State(): World
      reads storage.users, redis
    {
      World(storage.users.Contents(), redis.entries)
    }

    ghost predicate Valid()
      reads storage.users
    {
      storage.users.Valid()
    }

    constructor (storage: Storage.UserStorage, redis: Cache.RedisService)
      ensures this.storage == storage && this.redis == redis
    {
      this.storage, this.redis := storage, redis;
    }

    method RegisterUser(data: Models.CreateRequest, env: Env) returns (r: Reply)
      requires Valid()
      modifies storage.users, redis
      ensures Valid()
      ensures (State(), r) == ServiceSpec.RegisterUser(storage.cfg, old(State()), data, env)
    {
      var user := storage.CreateUser(data, env);
      if user.Ok? {
        var ok := redis.StoreUserInRedis(user.value, env.cache);
        if !ok {
          return Failed(CacheError(user.value.userId));
        }
        return Registered(user.value);
      }
      r := Failed(user.error);
    }

    method LoginUser(email: string, password: string, env: Env) returns (r: Reply)
      requires Valid()
      modifies redis
      ensures Valid()
      ensures (State(), r) == ServiceSpec.LoginUser(storage.cfg, old(State()), email, password, env)
    {
      var user := storage.LoginUser(email, password, env);
      if user.Ok? {
        var _ := redis.StoreUserInRedis(user.value, env.cache);
        return LoggedIn(user.value);
      }
      r := Failed(user.error);
    }

    method GetById(key: string, env: Env) returns (r: Reply)
      requires Valid()
      ensures r == ServiceSpec.GetById(State(), key, env)
      ensures r.Found? && !(env.cacheReadOk && key in redis.entries) ==>
                && NamesLive(storage.users.Contents(), key)
                && Models.Shows(r.user, Named(storage.users.Contents(), key)) && !r.user.deleted
    {
      var ok, user := redis.GetUserFromRedis(key, env.cacheReadOk);
      if ok {
        if user.Some? {
          return Found(user.value);
        }
      }
      var stored := storage.GetUserById(key, env);
      r := if stored.Ok? then Found(stored.value) else Failed(stored.error);
    }

    method UpdateUser(request: Option<Models.ProtoUser>, env: Env) returns (r: Reply)
      requires Valid()
      modifies storage.users, redis
      ensures Valid()
      ensures (State(), r) == ServiceSpec.UpdateUser(old(State()), request, env)
    {
      var updated := storage.UpdateUser(request, env);
      if updated.Err? {
        return Failed(updated.error);
      }
      var ok := redis.StoreUserInRedis(updated.value, env.cache);
      if !ok {
        return Failed(CacheError(updated.value.userId));
      }
      r := Updated(updated.value);
    }

    method DeleteUserById(key: string, env: Env) returns (r: Reply)
      requires Valid()
      modifies storage.users, redis
      ensures Valid()
      ensures (State(), r) == ServiceSpec.DeleteUserById(storage.cfg, old(State()), key, env)
    {
      var failure := storage.DeleteUserById(key, env);
      if failure.Some? {
        return Failed(failure.value);
      }
      var ok := redis.DeleteUserFromRedis(key, env.cache);
      if !ok {
        return Failed(CacheError(key));
      }
      r := Removed;
    }
  }
}
