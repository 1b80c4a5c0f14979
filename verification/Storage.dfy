/** The storage layer: each operation as the sequence of store calls it makes. */
module Storage {
  import opened Results
  import opened ObjectIds
  import opened Models
  import opened Database
  import opened StorageSpec
  import opened Listing
  import opened ListingLaws
  import opened Answers

  class UserStorage {
    const users: UsersCollection
    const cfg: Settings

    constructor (users: UsersCollection, cfg: Settings)
      ensures this.users == users && this.cfg == cfg
    {
      this.users, this.cfg := users, cfg;
    }

    method CreateUser(data: CreateRequest, env: Env) returns (r: Answer)
      requires users.Valid()
      modifies users
      ensures users.Valid()
      ensures (users.Contents(), r) == StorageSpec.CreateUser(cfg, old(users.Contents()), data, env)
      ensures r.Ok? ==> && env.newId !in old(users.docs) && env.newId in users.docs
                        && users.docs == old(users.docs)[env.newId := users.docs[env.newId]]
                        && CarriesRegistration(cfg, users.docs[env.newId], data)
                        && Shows(r.value, users.docs[env.newId])
    {
      RegistrationAnswer(cfg, users.Contents(), data, env);
      var user := new User(Document(env.newId, "", "", "", Profile("", ""), false));
      user.FromProto(data);
      user.password := cfg.hash(user.password);
      if env.cancelled {
        return Err(Cancelled);
      }
      var ok := users.InsertOne(user.Value(), data, env.writeOk);
      if !ok {
        return Err(StoreError);
      }
      r := Ok(ToProtoUser(user.Value()));
    }

    /** Finds the live document whose field has the value, as a record of its own. */
    method GetByField(look: LookUp, value: string, env: Env) returns (r: Result<User, Failure>)
      requires users.Valid()
      ensures r.Ok? ==> fresh(r.value)
      ensures match r
              case Err(e) => StorageSpec.GetByField(users.Contents(), look, value, env) == Err(e)
              case Ok(user) => StorageSpec.GetByField(users.Contents(), look, value, env) == Ok(user.Value())
    {
      if look.ById? && FromHex(value).None? {
        return Err(BadId);
      }
      if env.cancelled {
        return Err(Cancelled);
      }
      if !env.readOk {
        return Err(StoreError);
      }
      var doc;
      if look.ById? {
        doc := users.FindOne(FromHex(value).value, true);
      } else {
        doc := users.FindOneBy(look.field, value);
      }
      if doc.None? {
        return Err(NotFound);
      }
      var user := new User(doc.value);
      r := Ok(user);
    }

    method UpdateUser(request: Option<ProtoUser>, env: Env) returns (r: Answer)
      requires users.Valid()
      modifies users
      ensures users.Valid()
      ensures (users.Contents(), r) == StorageSpec.UpdateUser(old(users.Contents()), request, env)
    {
      if request.None? || request.value.userId == "" {
        return Err(InvalidRequest);
      }
      var found := GetByField(ById, request.value.userId, env);
      if found.Err? {
        return Err(found.error);
      }
      var user := found.value;
      user.Update(request.value);
      var objectId := FromHex(request.value.userId);
      if objectId.None? {
        return Err(BadId);
      }
      var ok, modified := users.UpdateOne(objectId.value, true, SetDocument(user.Value()), env.writeOk);
      if !ok {
        return Err(StoreError);
      }
      if modified == 0 {
        return Err(NotModified);
      }
      r := Ok(ToProtoUser(user.Value()));
    }

    method GetUserById(key: string, env: Env) returns (r: Answer)
      requires users.Valid()
      ensures r == StorageSpec.GetUserById(users.Contents(), key, env)
      ensures r.Ok? ==> && NamesLive(users.Contents(), key)
                        && Shows(r.value, Named(users.Contents(), key)) && !r.value.deleted
    {
      ByIdAnswer(users.Contents(), key, env);
      var found := GetByField(ById, key, env);
      r := if found.Err? then Err(found.error) else Ok(ToProtoUser(found.value.Value()));
    }

    method DeleteUserById(key: string, env: Env) returns (r: Option<Failure>)
      requires users.Valid()
      modifies users
      ensures users.Valid()
      ensures (users.Contents(), r) == StorageSpec.DeleteUserById(cfg, old(users.Contents()), key, env)
    {
      var objectId := FromHex(key);
      if objectId.None? {
        return Some(BadId);
      }
      if !env.readOk {
        return Some(StoreError);
      }
      var doc := users.FindOne(objectId.value, false);
      if doc.None? {
        return Some(NotFound);
      }
      var update := DeleteDoc(cfg);
      var ok, _ := users.UpdateOne(objectId.value, false, update, env.writeOk);
      if !ok {
        return Some(if update.BareDeleted? then RejectedUpdate else StoreError);
      }
      r := None;
    }

    method LoginUser(email: string, password: string, env: Env) returns (r: Answer)
      requires users.Valid()
      ensures r == StorageSpec.LoginUser(cfg, users.Contents(), email, password, env)
      ensures r.Ok? ==> exists i: nat :: IsMailed(users.Contents(), i, email, r.value)
                                         && cfg.hash(password) == r.value.password
    {
      MailedIsShown(users.Contents(), email, env);
      var found := GetByField(By(Email), email, env);
      if found.Err? {
        return Err(found.error);
      }
      var user := ToProtoUser(found.value.Value());
      if cfg.hash(password) == user.password {
        if !env.tokenOk {
          return Err(TokenError);
        }
        return Ok(user);
      }
      r := Err(WrongPassword);
    }

    /** The live user with an email or a username. */
    method GetUserBy(field: Field, value: string, env: Env) returns (r: Answer)
      requires users.Valid()
      ensures r == match StorageSpec.GetByField(users.Contents(), By(field), value, env)
                   case Err(e) => Err(e)
                   case Ok(doc) => Ok(ToProtoUser(doc))
      ensures r.Ok? <==> && !env.cancelled && env.readOk
                         && exists id :: && id in users.docs && !users.docs[id].deleted
                                         && (field.Username? ==> users.docs[id].username == value)
                                         && (field.Email? ==> users.docs[id].email == value)
      ensures field.Username? && r.Ok? ==> exists i: nat :: IsNamed(users.Contents(), i, value, r.value)
      ensures field.Email? && r.Ok? ==> exists i: nat :: IsMailed(users.Contents(), i, value, r.value)
    {
      ByUsernameAnswer(users.Contents(), value, env);
      ByEmailAnswer(users.Contents(), value, env);
      NamedIsShown(users.Contents(), value, env);
      MailedIsShown(users.Contents(), value, env);
      var found := GetByField(By(field), value, env);
      r := if found.Err? then Err(found.error) else Ok(ToProtoUser(found.value.Value()));
    }

    method ReadCursor(found: seq<Document>, env: CursorEnv) returns (r: Result<seq<ProtoUser>, Failure>)
      requires env.findOk
      ensures r == if Reads(env, |found|) then Ok(ToProtoUsers(found)) else Err(StoreError)
      ensures r.Ok? <==> !env.broken && forall i :: 0 <= i < |found| ==> i !in env.undecodable
    {
      var response: seq<ProtoUser> := [];
      for i := 0 to |found|
        invariant response == ToProtoUsers(found[..i])
        invariant forall j :: 0 <= j < i ==> j !in env.undecodable
      {
        if i in env.undecodable {
          return Err(StoreError);
        }
        response := response + [ToProtoUser(found[i])];
      }
      if env.broken {
        return Err(StoreError);
      }
      assert found[..|found|] == found;
      r := Ok(response);
    }

    method GetAllUsers(pagination: int32, limit: int32, env: CursorEnv)
      returns (r: Result<seq<ProtoUser>, Failure>)
      requires users.Valid()
      ensures var cut := Page(LiveUsers(users.Contents()), pagination, limit);
              r == if env.findOk && cut.Ok? && Reads(env, |cut.value|) then Ok(ToProtoUsers(cut.value))
                   else Err(StoreError)
      ensures r.Ok? ==>
                var skip, live := Wrap((pagination - 1) * limit), LiveUsers(users.Contents());
                && skip >= 0 && |r.value| == Remaining(|live|, skip, limit)
                && forall i :: 0 <= i < |r.value| ==> Shows(r.value[i], live[skip + i]) && !r.value[i].deleted
      ensures limit == 0 ==>
                var live := LiveUsers(users.Contents());
                && (r.Ok? <==> env.findOk && !env.broken && forall i :: 0 <= i < |live| ==> i !in env.undecodable)
                && (r.Ok? ==> ShowAll(r.value, live))
    {
      NoLimitGivesAll(LiveUsers(users.Contents()), pagination);
      if Page(LiveUsers(users.Contents()), pagination, limit).Ok? {
        PageShows(users.Contents(), pagination, limit);
      }
      var skip: int32 := Wrap(Wrap(pagination - 1) * limit);
      var cut := Cut(LiveListing(users.docs, users.order), skip, limit);
      if !env.findOk || cut.Err? {
        return Err(StoreError);
      }
      r := ReadCursor(cut.value, env);
    }

    method GetUserByAddress(address: string, env: CursorEnv) returns (r: Result<seq<ProtoUser>, Failure>)
      requires users.Valid()
      ensures var found := ByAddress(LiveUsers(users.Contents()), address);
              r == if Reads(env, |found|) then Ok(ToProtoUsers(found)) else Err(StoreError)
      ensures r.Ok? ==> ShowAll(r.value, ByAddress(LiveUsers(users.Contents()), address))
    {
      ListedAreLive(users.Contents());
      FoundByAddress(LiveUsers(users.Contents()), address);
      RepliesShowAll(ByAddress(LiveUsers(users.Contents()), address));
      if !env.findOk {
        return Err(StoreError);
      }
      r := ReadCursor(ByAddress(LiveListing(users.docs, users.order), address), env);
    }
  }
}
