/** What each storage operation answers and leaves in the store, said of the stored documents field by
    field: exactly when it succeeds, with which user, and otherwise which check was the first to fail. */
module Answers {
  import opened Results
  import opened ObjectIds
  import opened Models
  import opened Database
  import opened StorageSpec

  /** The string decodes to the id of a stored document. */
  predicate Names(db: Db, key: string) {
    FromHex(key).Some? && FromHex(key).value in db.docs
  }

  predicate NamesLive(db: Db, key: string) {
    Names(db, key) && !db.docs[FromHex(key).value].deleted
  }

  function Named(db: Db, key: string): Document
    requires Names(db, key)
  {
    db.docs[FromHex(key).value]
  }

  /** A registration adds one document, under the new id, with the fields of the request. */
  lemma RegistrationAnswer(cfg: Settings, db: Db, data: CreateRequest, env: Env)
    ensures var (db', r) := StorageSpec.CreateUser(cfg, db, data, env);
            && (r.Ok? <==> !env.cancelled && env.writeOk && env.newId !in db.docs)
            && (r.Err? ==> db' == db && r.error == if env.cancelled then Cancelled else StoreError)
            && (r.Ok? ==>
                  && env.newId in db'.docs && db'.docs == db.docs[env.newId := db'.docs[env.newId]]
                  && db'.docs[env.newId].id == env.newId
                  && CarriesRegistration(cfg, db'.docs[env.newId], data)
                  && Shows(r.value, db'.docs[env.newId])
                  && db'.order == db.order + [env.newId])
  {
    var doc := NewDocument(cfg, env.newId, data);
    NewDocumentExactly(cfg, env.newId, data, doc);
    ReplyFormShows(ToProtoUser(doc), doc);
  }

  /** A lookup by id gives the live document that the string names. */
  lemma ByIdAnswer(db: Db, key: string, env: Env)
    ensures var r := StorageSpec.GetUserById(db, key, env);
            && (r.Ok? <==> NamesLive(db, key) && !env.cancelled && env.readOk)
            && (r.Ok? ==> Shows(r.value, Named(db, key)) && !r.value.deleted)
            && (r.Err? ==> r.error == if FromHex(key).None? then BadId
                                      else if env.cancelled then Cancelled
                                      else if !env.readOk then StoreError
                                      else NotFound)
  {
    if NamesLive(db, key) {
      ReplyFormShows(ToProtoUser(Named(db, key)), Named(db, key));
    }
  }

  /** Place `i` of the listing order holds a live document, the first with this username. */
  predicate FirstNamed(db: Db, i: nat, username: string) {
    && i < |db.order| && db.order[i] in db.docs
    && !db.docs[db.order[i]].deleted && db.docs[db.order[i]].username == username
    && forall j :: 0 <= j < i && db.order[j] in db.docs && !db.docs[db.order[j]].deleted ==>
         db.docs[db.order[j]].username != username
  }

  predicate FirstMailed(db: Db, i: nat, email: string) {
    && i < |db.order| && db.order[i] in db.docs
    && !db.docs[db.order[i]].deleted && db.docs[db.order[i]].email == email
    && forall j :: 0 <= j < i && db.order[j] in db.docs && !db.docs[db.order[j]].deleted ==>
         db.docs[db.order[j]].email != email
  }

  lemma {:induction false} FirstInOrder(
      docs: map<ObjectId, Document>, order: seq<ObjectId>, field: Field, value: string) returns (i: nat)
    requires FirstWith(LiveListing(docs, order), field, value).Some?
    ensures i < |order| && order[i] in docs && !docs[order[i]].deleted
    ensures FirstWith(LiveListing(docs, order), field, value) == Some(docs[order[i]])
    ensures FieldIs(docs[order[i]], field, value)
    ensures forall j :: 0 <= j < i && order[j] in docs && !docs[order[j]].deleted ==>
              !FieldIs(docs[order[j]], field, value)
  {
    var live := order[0] in docs && !docs[order[0]].deleted;
    if live && FieldIs(docs[order[0]], field, value) {
      i := 0;
    } else {
      i := FirstInOrder(docs, order[1..], field, value);
      i := i + 1;
    }
  }

  /** The user carries the first live document with this username, or with this email. */
  predicate IsNamed(db: Db, i: nat, username: string, user: ProtoUser) {
    FirstNamed(db, i, username) && Shows(user, db.docs[db.order[i]]) && !user.deleted
  }

  predicate IsMailed(db: Db, i: nat, email: string, user: ProtoUser) {
    FirstMailed(db, i, email) && Shows(user, db.docs[db.order[i]]) && !user.deleted
  }

  /** A lookup by username succeeds exactly when some live user has it, and gives the first such one. */
  lemma ByUsernameAnswer(db: Db, username: string, env: Env)
    requires Indexed(db) && Listed(db.docs.Keys, db.order)
    ensures var r := GetByField(db, By(Username), username, env);
            && (r.Ok? <==> && !env.cancelled && env.readOk
                           && exists id :: id in db.docs && !db.docs[id].deleted && db.docs[id].username == username)
            && (r.Ok? ==> exists i: nat :: FirstNamed(db, i, username) && r.value == db.docs[db.order[i]])
            && (r.Err? ==> r.error == if env.cancelled then Cancelled else if !env.readOk then StoreError else NotFound)
  {
    FindLiveByFinds(db, Username, username);
    if GetByField(db, By(Username), username, env).Ok? {
      var i := FirstInOrder(db.docs, db.order, Username, username);
      assert FirstNamed(db, i, username);
    }
  }

  /** The live user who alone has a username is the answer. */
  lemma OnlyHolderAnswer(db: Db, id: ObjectId, username: string, env: Env)
    requires Indexed(db) && Listed(db.docs.Keys, db.order) && !env.cancelled && env.readOk
    requires id in db.docs && !db.docs[id].deleted && db.docs[id].username == username
    requires forall other :: other in db.docs && !db.docs[other].deleted && db.docs[other].username == username ==>
               other == id
    ensures GetByField(db, By(Username), username, env) == Ok(db.docs[id])
  {
    ByUsernameAnswer(db, username, env);
  }

  /** A lookup by email does as one by username. */
  lemma ByEmailAnswer(db: Db, email: string, env: Env)
    requires Indexed(db) && Listed(db.docs.Keys, db.order)
    ensures var r := GetByField(db, By(Email), email, env);
            && (r.Ok? <==> && !env.cancelled && env.readOk
                           && exists id :: id in db.docs && !db.docs[id].deleted && db.docs[id].email == email)
            && (r.Ok? ==> exists i: nat :: FirstMailed(db, i, email) && r.value == db.docs[db.order[i]])
            && (r.Err? ==> r.error == if env.cancelled then Cancelled else if !env.readOk then StoreError else NotFound)
  {
    FindLiveByFinds(db, Email, email);
    if GetByField(db, By(Email), email, env).Ok? {
      var i := FirstInOrder(db.docs, db.order, Email, email);
      assert FirstMailed(db, i, email);
    }
  }

  lemma NamedIsShown(db: Db, username: string, env: Env)
    requires Indexed(db) && Listed(db.docs.Keys, db.order)
    ensures var r := GetByField(db, By(Username), username, env);
            r.Ok? ==> exists i: nat :: IsNamed(db, i, username, ToProtoUser(r.value))
  {
    ByUsernameAnswer(db, username, env);
    var r := GetByField(db, By(Username), username, env);
    if r.Ok? {
      var i: nat :| FirstNamed(db, i, username) && r.value == db.docs[db.order[i]];
      ReplyFormShows(ToProtoUser(r.value), r.value);
      assert IsNamed(db, i, username, ToProtoUser(r.value));
    }
  }

  lemma MailedIsShown(db: Db, email: string, env: Env)
    requires Indexed(db) && Listed(db.docs.Keys, db.order)
    ensures var r := GetByField(db, By(Email), email, env);
            r.Ok? ==> exists i: nat :: IsMailed(db, i, email, ToProtoUser(r.value))
  {
    ByEmailAnswer(db, email, env);
    var r := GetByField(db, By(Email), email, env);
    if r.Ok? {
      var i: nat :| FirstMailed(db, i, email) && r.value == db.docs[db.order[i]];
      ReplyFormShows(ToProtoUser(r.value), r.value);
      assert IsMailed(db, i, email, ToProtoUser(r.value));
    }
  }

  lemma OneFirstMailed(db: Db, i: nat, j: nat, email: string)
    requires FirstMailed(db, i, email) && FirstMailed(db, j, email)
    ensures i == j
  {
  }

  lemma MailedIsFound(db: Db, email: string, env: Env, i: nat)
    requires Indexed(db) && Listed(db.docs.Keys, db.order) && FirstMailed(db, i, email)
    ensures GetByField(db, By(Email), email, env)
            == if env.cancelled then Err(Cancelled) else if !env.readOk then Err(StoreError)
               else Ok(db.docs[db.order[i]])
  {
    ByEmailAnswer(db, email, env);
    var found := GetByField(db, By(Email), email, env);
    if found.Ok? {
      var j: nat :| FirstMailed(db, j, email) && found.value == db.docs[db.order[j]];
      OneFirstMailed(db, i, j, email);
    }
  }

  /** A login is decided by the first live user with the email: it succeeds exactly if the password hashes as
      the one stored and the token can be made, and gives that user. */
  lemma LoginAnswer(cfg: Settings, db: Db, email: string, password: string, env: Env, i: nat)
    requires Indexed(db) && Listed(db.docs.Keys, db.order) && FirstMailed(db, i, email)
    ensures var r := StorageSpec.LoginUser(cfg, db, email, password, env);
            var d := db.docs[db.order[i]];
            && (r.Ok? <==> !env.cancelled && env.readOk && cfg.hash(password) == d.password && env.tokenOk)
            && (r.Ok? ==> Shows(r.value, d) && !r.value.deleted)
            && (r.Err? ==> r.error == if env.cancelled then Cancelled
                                      else if !env.readOk then StoreError
                                      else if cfg.hash(password) != d.password then WrongPassword
                                      else TokenError)
  {
    MailedIsFound(db, email, env, i);
    ReplyFormShows(ToProtoUser(db.docs[db.order[i]]), db.docs[db.order[i]]);
  }

  /** A login with an email that no live user has. */
  lemma UnknownLoginAnswer(cfg: Settings, db: Db, email: string, password: string, env: Env)
    requires Indexed(db) && Listed(db.docs.Keys, db.order)
    requires forall id :: id in db.docs && !db.docs[id].deleted ==> db.docs[id].email != email
    ensures StorageSpec.LoginUser(cfg, db, email, password, env)
            == Err(if env.cancelled then Cancelled else if !env.readOk then StoreError else NotFound)
  {
    ByEmailAnswer(db, email, env);
  }

  /** What an update leaves in a field: the value given, or the old one if none is. */
  predicate Took(now: string, was: string, given: string) {
    now == if given != "" then given else was
  }

  /** The document after an update, field by field. */
  predicate Updated(now: Document, was: Document, change: ProtoUser) {
    && now.id == was.id && now.password == was.password && now.deleted == was.deleted
    && Took(now.username, was.username, change.username)
    && Took(now.email, was.email, change.email)
    && Took(now.profile.name, was.profile.name, change.profile.name)
    && Took(now.profile.address, was.profile.address, change.profile.address)
  }

  lemma MergeIsUpdated(now: Document, was: Document, change: ProtoUser)
    ensures now == Merge(was, change) <==> Updated(now, was, change)
  {
  }

  /** Some field is given another value than it has. */
  predicate GivesNews(was: Document, change: ProtoUser) {
    || (change.username != "" && change.username != was.username)
    || (change.email != "" && change.email != was.email)
    || (change.profile.name != "" && change.profile.name != was.profile.name)
    || (change.profile.address != "" && change.profile.address != was.profile.address)
  }

  lemma NewsExactly(was: Document, change: ProtoUser)
    ensures Merge(was, change) != was <==> GivesNews(was, change)
  {
  }

  predicate HasId(user: Option<ProtoUser>) {
    user.Some? && user.value.userId != ""
  }

  /** The first check of an update that fails. */
  function UpdateFailure(db: Db, user: Option<ProtoUser>, env: Env): Failure {
    if !HasId(user) then InvalidRequest
    else if FromHex(user.value.userId).None? then BadId
    else if env.cancelled then Cancelled
    else if !env.readOk then StoreError
    else if !NamesLive(db, user.value.userId) then NotFound
    else if !env.writeOk then StoreError
    else NotModified
  }

  /** An update succeeds exactly when it names a live user, gives news, and both calls are answered; that
      document alone then changes, field by field, and is the answer. */
  lemma UpdateAnswer(db: Db, user: Option<ProtoUser>, env: Env)
    requires Indexed(db)
    ensures var (db', r) := StorageSpec.UpdateUser(db, user, env);
            && (r.Ok? <==> && user.Some? && NamesLive(db, user.value.userId)
                           && GivesNews(Named(db, user.value.userId), user.value)
                           && !env.cancelled && env.readOk && env.writeOk)
            && (r.Err? ==> db' == db && r.error == UpdateFailure(db, user, env))
            && (r.Ok? ==>
                  var id := FromHex(user.value.userId).value;
                  && id in db'.docs && db'.docs == db.docs[id := db'.docs[id]] && db'.order == db.order
                  && Updated(db'.docs[id], db.docs[id], user.value) && Shows(r.value, db'.docs[id]))
  {
    if user.Some? && NamesLive(db, user.value.userId) {
      var was := Named(db, user.value.userId);
      assert user.value.userId != "";
      MergeIsUpdated(Merge(was, user.value), was, user.value);
      NewsExactly(was, user.value);
      ReplyFormShows(ToProtoUser(Merge(was, user.value)), Merge(was, user.value));
    }
  }

  /** The document after a deletion, field by field. */
  predicate MarkedDeleted(now: Document, was: Document) {
    && now.deleted
    && now.id == was.id && now.password == was.password
    && now.username == was.username && now.email == was.email
    && now.profile.name == was.profile.name && now.profile.address == was.profile.address
  }

  /** The first check of a deletion that fails. */
  function DeletionFailure(cfg: Settings, db: Db, key: string, env: Env): Failure {
    if FromHex(key).None? then BadId
    else if !env.readOk then StoreError
    else if !Names(db, key) then NotFound
    else if !cfg.setOperator then RejectedUpdate
    else StoreError
  }

  /** A deletion succeeds exactly when its update has an operator, the key names a stored document, deleted
      or not, and both calls are answered; that document alone is then marked. */
  lemma DeletionAnswer(cfg: Settings, db: Db, key: string, env: Env)
    requires Indexed(db)
    ensures var (db', r) := StorageSpec.DeleteUserById(cfg, db, key, env);
            && (r.None? <==> cfg.setOperator && Names(db, key) && env.readOk && env.writeOk)
            && (r.Some? ==> db' == db && r.value == DeletionFailure(cfg, db, key, env))
            && (r.None? ==>
                  var id := FromHex(key).value;
                  && id in db'.docs && db'.docs == db.docs[id := db'.docs[id]] && db'.order == db.order
                  && MarkedDeleted(db'.docs[id], db.docs[id]))
  {
    if Names(db, key) {
      var was := Named(db, key);
      assert was.(deleted := true) == was ==> db.docs == db.docs[FromHex(key).value := was];
    }
  }
}
