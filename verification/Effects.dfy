/** What one queue message does, from its fields to the stored document, the cache entry and the settlement. */
module Effects {
  import opened Results
  import opened ObjectIds
  import opened Models
  import opened Database
  import opened StorageSpec
  import opened ServiceSpec
  import opened Answers
  import opened Deliveries
  import Protocol
  import C = Cache

  /** The cache with the document's user under the printed id, or as it was if Redis refused. */
  predicate CachedAs(before: map<string, ProtoUser>, after: map<string, ProtoUser>, doc: Document, o: C.Outcome) {
    if o.Refused? then after == before
    else
      && Hex(doc.id) in after && Shows(after[Hex(doc.id)], doc)
      && after == before[Hex(doc.id) := after[Hex(doc.id)]]
  }

  lemma SavedIsCached(w: World, doc: Document, o: C.Outcome)
    ensures CachedAs(w.cache, SaveUser(w, ToProtoUser(doc), o).cache, doc, o)
  {
    ReplyFormShows(ToProtoUser(doc), doc);
  }

  /** A message that changes nothing is nacked and leaves everything as it was. */
  predicate NothingDone(w: World, w': World, acked: bool) {
    w' == w && !acked
  }

  // ---- Registrations ----

  /** A registration message: it is stored if it decodes, the context is not done, and the store takes the new
      id; the new document has the message's fields. */
  predicate RegistrationArrives(cfg: Settings, w: World, d: Delivery, env: Env, w': World, acked: bool) {
    if d.asUser.Some? && !env.cancelled && env.writeOk && env.newId !in w.db.docs then
      && env.newId in w'.db.docs && w'.db.docs == w.db.docs[env.newId := w'.db.docs[env.newId]]
      && w'.db.docs[env.newId].id == env.newId
      && CarriesMessage(cfg, w'.db.docs[env.newId], d.asUser.value)
      && CachedAs(w.cache, w'.cache, w'.db.docs[env.newId], env.cache)
      && acked == env.cache.Acknowledged?
    else NothingDone(w, w', acked)
  }

  lemma RegistrationEffect(cfg: Settings, w: World, d: Delivery, env: Env)
    requires Indexed(w.db)
    ensures var (w', t) := Handle(cfg, w, Protocol.Registration, d, env);
            t.delivery == d && RegistrationArrives(cfg, w, d, env, w', t.acked)
  {
    if d.asUser.Some? {
      var data := ToCreateRequest(d.asUser.value);
      RegistrationAnswer(cfg, w.db, data, env);
      SavedIsCached(w, NewDocument(cfg, env.newId, data), env.cache);
    }
  }

  // ---- Updates ----

  /** The document after an update message, field by field. */
  predicate UpdatedBy(now: Document, was: Document, user: Document) {
    && now.id == was.id && now.password == was.password && now.deleted == was.deleted
    && Took(now.username, was.username, user.username)
    && Took(now.email, was.email, user.email)
    && Took(now.profile.name, was.profile.name, user.profile.name)
    && Took(now.profile.address, was.profile.address, user.profile.address)
  }

  /** Some field of the message is another value than the document has. */
  predicate BringsNews(was: Document, user: Document) {
    || (user.username != "" && user.username != was.username)
    || (user.email != "" && user.email != was.email)
    || (user.profile.name != "" && user.profile.name != was.profile.name)
    || (user.profile.address != "" && user.profile.address != was.profile.address)
  }

  /** An update message: it is stored if it decodes, its id is that of a live user, it brings news, and the
      calls are answered. */
  predicate UpdateArrives(w: World, d: Delivery, env: Env, w': World, acked: bool) {
    if && d.asUser.Some? && d.asUser.value.id in w.db.docs && !w.db.docs[d.asUser.value.id].deleted
       && BringsNews(w.db.docs[d.asUser.value.id], d.asUser.value)
       && !env.cancelled && env.readOk && env.writeOk
    then
      var id := d.asUser.value.id;
      && id in w'.db.docs && w'.db.docs == w.db.docs[id := w'.db.docs[id]]
      && UpdatedBy(w'.db.docs[id], w.db.docs[id], d.asUser.value)
      && CachedAs(w.cache, w'.cache, w'.db.docs[id], env.cache)
      && acked == env.cache.Acknowledged?
    else NothingDone(w, w', acked)
  }

  lemma UpdateEffect(cfg: Settings, w: World, d: Delivery, env: Env)
    requires Indexed(w.db)
    ensures var (w', t) := Handle(cfg, w, Protocol.Updating, d, env);
            t.delivery == d && UpdateArrives(w, d, env, w', t.acked)
  {
    if d.asUser.Some? {
      var change := ToProtoUser(d.asUser.value);
      ReplyFormShows(change, d.asUser.value);
      UpdateAnswer(w.db, Some(change), env);
      var (db', r) := StorageSpec.UpdateUser(w.db, Some(change), env);
      if r.Ok? {
        ReplyFormShows(r.value, db'.docs[d.asUser.value.id]);
        SavedIsCached(w, db'.docs[d.asUser.value.id], env.cache);
      }
    }
  }

  // ---- Deletions ----

  /** A deletion message: the document that its string names is marked if the update has an operator and the
      calls are answered, and the entry under that very string goes unless Redis refuses. */
  predicate DeletionArrives(cfg: Settings, w: World, d: Delivery, env: Env, w': World, acked: bool) {
    if d.asDelete.Some? && cfg.setOperator && Names(w.db, d.asDelete.value) && env.readOk && env.writeOk then
      var id := FromHex(d.asDelete.value).value;
      && id in w'.db.docs && w'.db.docs == w.db.docs[id := w'.db.docs[id]]
      && MarkedDeleted(w'.db.docs[id], w.db.docs[id])
      && w'.cache == (if env.cache.Refused? then w.cache else w.cache - {d.asDelete.value})
      && acked == env.cache.Acknowledged?
    else NothingDone(w, w', acked)
  }

  lemma DeletionEffect(cfg: Settings, w: World, d: Delivery, env: Env)
    requires Indexed(w.db)
    ensures var (w', t) := Handle(cfg, w, Protocol.Deletion, d, env);
            t.delivery == d && DeletionArrives(cfg, w, d, env, w', t.acked)
  {
    if d.asDelete.Some? {
      DeletionAnswer(cfg, w.db, d.asDelete.value, env);
    }
  }

  /** What a message does, by the queue it came from. */
  predicate Arrives(cfg: Settings, w: World, k: Protocol.Kind, d: Delivery, env: Env, w': World, acked: bool) {
    match k
    case Registration => RegistrationArrives(cfg, w, d, env, w', acked)
    case Updating => UpdateArrives(w, d, env, w', acked)
    case Deletion => DeletionArrives(cfg, w, d, env, w', acked)
  }

  lemma MessageEffect(cfg: Settings, w: World, k: Protocol.Kind, d: Delivery, env: Env)
    requires Indexed(w.db)
    ensures var (w', t) := Handle(cfg, w, k, d, env);
            t.delivery == d && Arrives(cfg, w, k, d, env, w', t.acked)
  {
    match k {
      case Registration => RegistrationEffect(cfg, w, d, env);
      case Updating => UpdateEffect(cfg, w, d, env);
      case Deletion => DeletionEffect(cfg, w, d, env);
    }
  }
}
