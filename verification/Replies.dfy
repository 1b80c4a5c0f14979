/** What each whole request replies and does to store and cache, said of the documents field by field. */
module Replies {
  import opened Results
  import opened ObjectIds
  import opened Models
  import opened Database
  import opened StorageSpec
  import opened ServiceSpec
  import opened Answers
  import opened Effects
  import C = Cache

  /** A registration replies with the new user exactly if the store took it and Redis acknowledged; if only
      Redis did not, the user is stored all the same. */
  lemma RegisterReply(cfg: Settings, w: World, data: CreateRequest, env: Env)
    ensures var (w', r) := ServiceSpec.RegisterUser(cfg, w, data, env);
            if !env.cancelled && env.writeOk && env.newId !in w.db.docs then
              && env.newId in w'.db.docs && w'.db.docs == w.db.docs[env.newId := w'.db.docs[env.newId]]
              && w'.db.docs[env.newId].id == env.newId
              && CarriesRegistration(cfg, w'.db.docs[env.newId], data)
              && CachedAs(w.cache, w'.cache, w'.db.docs[env.newId], env.cache)
              && (if env.cache.Acknowledged? then r.Registered? && Shows(r.user, w'.db.docs[env.newId])
                  else r == Failed(CacheError(Hex(env.newId))))
            else w' == w && r == Failed(if env.cancelled then Cancelled else StoreError)
  {
    RegistrationAnswer(cfg, w.db, data, env);
    SavedIsCached(w, NewDocument(cfg, env.newId, data), env.cache);
  }

  /** An update replies with the changed user exactly if the store changed it and Redis acknowledged. */
  lemma UpdateReply(w: World, user: Option<ProtoUser>, env: Env)
    requires Indexed(w.db)
    ensures var (w', r) := ServiceSpec.UpdateUser(w, user, env);
            if && user.Some? && NamesLive(w.db, user.value.userId)
               && GivesNews(Named(w.db, user.value.userId), user.value)
               && !env.cancelled && env.readOk && env.writeOk
            then
              var id := FromHex(user.value.userId).value;
              && id in w'.db.docs && w'.db.docs == w.db.docs[id := w'.db.docs[id]]
              && Answers.Updated(w'.db.docs[id], w.db.docs[id], user.value)
              && CachedAs(w.cache, w'.cache, w'.db.docs[id], env.cache)
              && (if env.cache.Acknowledged? then r.Updated? && Shows(r.user, w'.db.docs[id])
                  else r == Failed(CacheError(Hex(id))))
            else w' == w && r == Failed(UpdateFailure(w.db, user, env))
  {
    UpdateAnswer(w.db, user, env);
    var (db', r) := StorageSpec.UpdateUser(w.db, user, env);
    if r.Ok? {
      var doc := db'.docs[FromHex(user.value.userId).value];
      ReplyFormShows(r.value, doc);
      SavedIsCached(w, doc, env.cache);
    }
  }

  /** A deletion replies success exactly if the store marked the user and Redis acknowledged. */
  lemma DeleteReply(cfg: Settings, w: World, key: string, env: Env)
    requires Indexed(w.db)
    ensures var (w', r) := ServiceSpec.DeleteUserById(cfg, w, key, env);
            if cfg.setOperator && Names(w.db, key) && env.readOk && env.writeOk then
              var id := FromHex(key).value;
              && id in w'.db.docs && w'.db.docs == w.db.docs[id := w'.db.docs[id]]
              && MarkedDeleted(w'.db.docs[id], w.db.docs[id])
              && w'.cache == (if env.cache.Refused? then w.cache else w.cache - {key})
              && r == (if env.cache.Acknowledged? then Reply.Removed else Failed(CacheError(key)))
            else w' == w && r == Failed(DeletionFailure(cfg, w.db, key, env))
  {
    DeletionAnswer(cfg, w.db, key, env);
  }

  /** A login replies with the first live user with the email exactly if password and token are right; how
      the cache write ends makes no difference to the reply, and the store stays. */
  lemma LoginReply(cfg: Settings, w: World, email: string, password: string, env: Env, i: nat)
    requires Indexed(w.db) && Listed(w.db.docs.Keys, w.db.order) && FirstMailed(w.db, i, email)
    ensures var (w', r) := ServiceSpec.LoginUser(cfg, w, email, password, env);
            var d := w.db.docs[w.db.order[i]];
            && w'.db == w.db
            && (r.LoggedIn? <==> !env.cancelled && env.readOk && cfg.hash(password) == d.password && env.tokenOk)
            && (r.LoggedIn? ==> Shows(r.user, d) && !r.user.deleted && CachedAs(w.cache, w'.cache, d, env.cache))
            && (!r.LoggedIn? ==> w' == w && r.Failed? && !r.failure.CacheError?)
  {
    LoginAnswer(cfg, w.db, email, password, env, i);
    SavedIsCached(w, w.db.docs[w.db.order[i]], env.cache);
    MailedIsFound(w.db, email, env, i);
  }

  /** A read by id replies with the cache's user if Redis gives one, and otherwise, also when Redis fails,
      with the live user that the key names, as the document is. */
  lemma GetReply(w: World, key: string, env: Env)
    ensures var r := ServiceSpec.GetById(w, key, env);
            if env.cacheReadOk && key in w.cache then r == Found(w.cache[key])
            else
              && (r.Found? <==> NamesLive(w.db, key) && !env.cancelled && env.readOk)
              && (r.Found? ==> Shows(r.user, Named(w.db, key)) && !r.user.deleted)
              && (!r.Found? ==>
                    r == Failed(if FromHex(key).None? then BadId
                                else if env.cancelled then Cancelled
                                else if !env.readOk then StoreError
                                else NotFound))
  {
    ByIdAnswer(w.db, key, env);
  }
}
