/** The Redis cache: set, get and delete, each of which may fail. */
module Cache {
  import opened Results
  import opened Models

  /** How a write to Redis ends.  An unacknowledged one took effect although the client got an error. */
  datatype Outcome = Acknowledged | Refused | Unacknowledged

  function Stored(cache: map<string, ProtoUser>, user: ProtoUser, o: Outcome): map<string, ProtoUser> {
    if o.Refused? then cache else cache[user.userId := user]
  }

  function Removed(cache: map<string, ProtoUser>, key: string, o: Outcome): map<string, ProtoUser> {
    if o.Refused? then cache else cache - {key}
  }

  /** What a read gives when it works. */
  function Cached(cache: map<string, ProtoUser>, key: string): Option<ProtoUser> {
    if key in cache then Some(cache[key]) else None
  }

  class RedisService {
    var entries: map<string, ProtoUser>

    constructor ()
      ensures entries == map[]
    {
      entries := map[];
    }

    method StoreUserInRedis(user: ProtoUser, o: Outcome) returns (ok: bool)
      modifies this
      ensures ok == o.Acknowledged?
      ensures entries == Stored(old(entries), user, o)
    {
      if o.Refused? {
        return false;
      }
      entries := entries[user.userId := user];
      ok := o.Acknowledged?;
    }

    /** A miss is no error: it is a null user. */
    method GetUserFromRedis(userId: string, answered: bool) returns (ok: bool, user: Option<ProtoUser>)
      ensures ok == answered
      ensures user == if answered then Cached(entries, userId) else None
    {
      if !answered {
        return false, None;
      }
      ok, user := true, if userId in entries then Some(entries[userId]) else None;
    }

    /** Removing an absent key is no error. */
    method DeleteUserFromRedis(userId: string, o: Outcome) returns (ok: bool)
      modifies this
      ensures ok == o.Acknowledged?
      ensures entries == Removed(old(entries), userId, o)
    {
      if o.Refused? {
        return false;
      }
      entries := entries - {userId};
      ok := o.Acknowledged?;
    }

    /** The 24 hours of an entry are over. */
    method Expire(userId: string)
      modifies this
      ensures entries == old(entries) - {userId}
    {
      entries := entries - {userId};
    }
  }
}
