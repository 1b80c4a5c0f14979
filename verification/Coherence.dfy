/** Requests run one at a time: when the cache answers as the store would, what breaks that, and what
    repairs it. */
module Coherence {
  import opened Results
  import opened ObjectIds
  import opened Models
  import opened Database
  import opened StorageSpec
  import opened ServiceSpec
  import Answers
  import C = Cache

  /** The user that the store alone has for a key. */
  function LookUpKey(db: Db, key: string): Option<ProtoUser> {
    if FromHex(key).Some? && Live(db, FromHex(key).value)
    then Some(ToProtoUser(db.docs[FromHex(key).value])) else None
  }

  /** The entry of `key`, if there is one, is what the store would answer. */
  ghost predicate CoherentAt(w: World, key: string) {
    key in w.cache ==> LookUpKey(w.db, key) == Some(w.cache[key])
  }

  ghost predicate CoherentExcept(w: World, key: string) {
    forall k :: k != key ==> CoherentAt(w, k)
  }

  ghost predicate Coherent(w: World) {
    forall k :: CoherentAt(w, k)
  }

  predicate Healthy(env: Env) {
    !env.cancelled && env.readOk
  }

  /** `GetById` answers every key as the store lookup alone would. */
  ghost predicate Transparent(w: World) {
    forall key, env :: Healthy(env) ==> ServiceSpec.GetById(w, key, env) == FromStore(w.db, key, env)
  }

  lemma FromStoreIsLookUp(db: Db, key: string, env: Env)
    requires Healthy(env)
    ensures LookUpKey(db, key).Some? ==> FromStore(db, key, env) == Found(LookUpKey(db, key).value)
    ensures LookUpKey(db, key).None? ==> FromStore(db, key, env).Failed?
  {
  }

  lemma TransparentExactly(w: World)
    ensures Transparent(w) <==> Coherent(w)
  {
    if Coherent(w) {
      forall key, env | Healthy(env) ensures ServiceSpec.GetById(w, key, env) == FromStore(w.db, key, env) {
        assert CoherentAt(w, key);
        FromStoreIsLookUp(w.db, key, env);
      }
    }
    if Transparent(w) {
      var env := Env(false, true, true, 0, true, true, C.Acknowledged);
      forall key ensures CoherentAt(w, key) {
        assert ServiceSpec.GetById(w, key, env) == FromStore(w.db, key, env);
        FromStoreIsLookUp(w.db, key, env);
      }
    }
  }

  /** So when it does, a healthy `GetById` finds exactly the live users, each as its document is. */
  lemma TransparentAnswers(w: World, key: string, env: Env)
    requires Transparent(w) && Healthy(env)
    ensures var r := ServiceSpec.GetById(w, key, env);
            && (r.Found? <==> FromHex(key).Some? && FromHex(key).value in w.db.docs
                              && !w.db.docs[FromHex(key).value].deleted)
            && (r.Found? ==> Shows(r.user, w.db.docs[FromHex(key).value]) && !r.user.deleted)
  {
    assert ServiceSpec.GetById(w, key, env) == FromStore(w.db, key, env);
    Answers.ByIdAnswer(w.db, key, env);
  }

  // ---- When a request changes the store ----

  predicate WillCreate(db: Db, env: Env) {
    !env.cancelled && env.writeOk && env.newId !in db.docs
  }

  predicate WillUpdate(db: Db, change: ProtoUser, env: Env) {
    && FromHex(change.userId).Some? && Live(db, FromHex(change.userId).value)
    && Merge(db.docs[FromHex(change.userId).value], change) != db.docs[FromHex(change.userId).value]
    && Healthy(env) && env.writeOk
  }

  predicate WillDelete(cfg: Settings, db: Db, key: string, env: Env) {
    && cfg.setOperator && FromHex(key).Some? && FromHex(key).value in db.docs
    && env.readOk && env.writeOk
  }

  /** The requests that leave the cache wrong: the registration of a user already marked deleted, once
      cached; an update whose cache write is refused while an older entry is there; and a deletion whose
      user has an entry that it does not remove, because Redis refuses or because the key it was given is
      not the id's printed form. */
  predicate Breaks(cfg: Settings, w: World, call: Call, env: Env) {
    match call
    case Register(data) => WillCreate(w.db, env) && data.deleted && !env.cache.Refused?
    case Update(user) =>
      && user.Some? && WillUpdate(w.db, user.value, env)
      && env.cache.Refused? && Hex(FromHex(user.value.userId).value) in w.cache
    case Delete(key) =>
      && WillDelete(cfg, w.db, key, env) && Hex(FromHex(key).value) in w.cache
      && (env.cache.Refused? || key != Hex(FromHex(key).value))
    case _ => false
  }

  /** The cache key of the user that a request is to write. */
  function KeyOf(call: Call, env: Env): Option<string> {
    match call
    case Register(_) => Some(Hex(env.newId))
    case Update(user) =>
      if user.Some? && FromHex(user.value.userId).Some? then Some(Hex(FromHex(user.value.userId).value)) else None
    case Delete(key) => if FromHex(key).Some? then Some(Hex(FromHex(key).value)) else None
    case _ => None
  }

  /** Every entry is under its own user's id. */
  ghost predicate Keyed(w: World) {
    forall key :: key in w.cache ==> w.cache[key].userId == key
  }

  lemma UpdateEffect(cfg: Settings, w: World, user: Option<ProtoUser>, env: Env)
    requires Indexed(w.db)
    ensures var w' := Serve(cfg, w, Update(user), env).0;
            if user.Some? && WillUpdate(w.db, user.value, env) then
              var id := FromHex(user.value.userId).value;
              var doc := Merge(w.db.docs[id], user.value);
              w' == SaveUser(World(Replace(w.db, doc), w.cache), ToProtoUser(doc), env.cache)
            else w' == w
  {
    if user.Some? && FromHex(user.value.userId).Some? {
      assert user.value.userId != "";
    }
  }

  lemma DeleteEffect(cfg: Settings, w: World, key: string, env: Env)
    requires Indexed(w.db)
    ensures var w' := Serve(cfg, w, Delete(key), env).0;
            if WillDelete(cfg, w.db, key, env) then
              var doc := w.db.docs[FromHex(key).value].(deleted := true);
              w' == World(Replace(w.db, doc), C.Removed(w.cache, key, env.cache))
            else w' == w
  {
  }

  lemma RegisterEffect(cfg: Settings, w: World, data: CreateRequest, env: Env)
    requires Indexed(w.db)
    ensures var w' := Serve(cfg, w, Register(data), env).0;
            if WillCreate(w.db, env) then
              var doc := NewDocument(cfg, env.newId, data);
              w' == SaveUser(World(Insert(w.db, doc, data), w.cache), ToProtoUser(doc), env.cache)
            else w' == w
  {
  }

  /** A login writes the found user's own entry; a read writes nothing. */
  lemma ReadEffect(cfg: Settings, w: World, call: Call, env: Env)
    requires Indexed(w.db) && (call.Login? || call.Get?)
    ensures var w' := Serve(cfg, w, call, env).0;
            || w' == w
            || exists id :: Live(w.db, id) && w' == SaveUser(w, ToProtoUser(w.db.docs[id]), env.cache)
  {
    if call.Login? {
      FindLiveByFinds(w.db, Email, call.email);
    }
  }

  lemma ServeKeepsKeys(cfg: Settings, w: World, call: Call, env: Env)
    requires Indexed(w.db) && Keyed(w)
    ensures Indexed(Serve(cfg, w, call, env).0.db) && Keyed(Serve(cfg, w, call, env).0)
  {
    match call {
      case Register(data) =>
        RegisterEffect(cfg, w, data, env);
        if WillCreate(w.db, env) {
          InsertIndexed(w.db, NewDocument(cfg, env.newId, data), data);
        }
      case Update(user) =>
        UpdateEffect(cfg, w, user, env);
        if user.Some? && WillUpdate(w.db, user.value, env) {
          ReplaceIndexed(w.db, Merge(w.db.docs[FromHex(user.value.userId).value], user.value));
        }
      case Delete(raw) =>
        DeleteEffect(cfg, w, raw, env);
        if WillDelete(cfg, w.db, raw, env) {
          ReplaceIndexed(w.db, w.db.docs[FromHex(raw).value].(deleted := true));
        }
      case _ => ReadEffect(cfg, w, call, env);
    }
  }

  // ---- One operation and one key ----

  datatype Op = Request(call: Call, env: Env) | Expiry(key: string)

  function Apply(cfg: Settings, w: World, op: Op): World
    requires Indexed(w.db)
  {
    match op
    case Request(call, env) => Serve(cfg, w, call, env).0
    case Expiry(key) => w.(cache := w.cache - {key})
  }

  lemma ApplyKeepsKeys(cfg: Settings, w: World, op: Op)
    requires Indexed(w.db) && Keyed(w)
    ensures Indexed(Apply(cfg, w, op).db) && Keyed(Apply(cfg, w, op))
  {
    if op.Request? {
      ServeKeepsKeys(cfg, w, op.call, op.env);
    }
  }

  /** The operation makes a right entry of `key` wrong. */
  predicate BreaksAt(cfg: Settings, w: World, op: Op, key: string) {
    op.Request? && KeyOf(op.call, op.env) == Some(key) && Breaks(cfg, w, op.call, op.env)
  }

  /** The cache has the user for its key after this write: the write takes effect, or the user was there. */
  predicate Lands(w: World, user: ProtoUser, o: C.Outcome) {
    !o.Refused? || (user.userId in w.cache && w.cache[user.userId] == user)
  }

  /** What makes the entry of `key` right, whatever it was: the expiry of the key; a registration of a live
      user or an update, that reaches the store and whose user is then what the cache has; a deletion that
      reaches the store and removes this very key; a successful login whose cache write takes effect. */
  predicate Repairs(cfg: Settings, w: World, op: Op, key: string)
    requires Indexed(w.db)
  {
    match op
    case Expiry(k) => k == key
    case Request(Register(data), env) =>
      && WillCreate(w.db, env) && Hex(env.newId) == key && !data.deleted
      && Lands(w, ToProtoUser(NewDocument(cfg, env.newId, data)), env.cache)
    case Request(Update(user), env) =>
      && user.Some? && WillUpdate(w.db, user.value, env) && Hex(FromHex(user.value.userId).value) == key
      && Lands(w, ToProtoUser(Merge(w.db.docs[FromHex(user.value.userId).value], user.value)), env.cache)
    case Request(Delete(raw), env) => WillDelete(cfg, w.db, raw, env) && raw == key && !env.cache.Refused?
    case Request(Login(email, password), env) =>
      var r := StorageSpec.LoginUser(cfg, w.db, email, password, env);
      r.Ok? && r.value.userId == key && !env.cache.Refused?
    case Request(Get(_), _) => false
  }

  /** A change of one document leaves the answer for any other printed id as it was. */
  lemma OthersExactly(db: Db, db': Db, id: ObjectId, key: string, user: ProtoUser)
    requires Indexed(db) && Indexed(db') && id in db'.docs && db'.docs == db.docs[id := db'.docs[id]]
    requires key != Hex(id) && user.userId == key
    ensures LookUpKey(db', key) == Some(user) <==> LookUpKey(db, key) == Some(user)
  {
    if FromHex(key) == Some(id) {
      assert LookUpKey(db', key) == Some(user) ==> user.userId == Hex(id);
      assert LookUpKey(db, key) == Some(user) ==> user.userId == Hex(id);
    }
  }

  /** A document changes and its user is saved, or not. */
  lemma SavedExactly(w: World, db: Db, id: ObjectId, o: C.Outcome, key: string)
    requires Indexed(w.db) && Indexed(db) && Keyed(w) && id in db.docs && db.docs == w.db.docs[id := db.docs[id]]
    ensures var user := ToProtoUser(db.docs[id]);
            var w' := SaveUser(World(db, w.cache), user, o);
            && (key != Hex(id) ==> (CoherentAt(w', key) <==> CoherentAt(w, key)))
            && (CoherentAt(w', Hex(id)) <==>
                  (Hex(id) !in w.cache && o.Refused?) || (!db.docs[id].deleted && Lands(w, user, o)))
  {
    if key != Hex(id) && key in w.cache {
      OthersExactly(w.db, db, id, key, w.cache[key]);
    }
  }

  ghost predicate EntryIsExact(cfg: Settings, w: World, op: Op, key: string)
    requires Indexed(w.db)
  {
    CoherentAt(Apply(cfg, w, op), key)
    <==> Repairs(cfg, w, op, key) || (CoherentAt(w, key) && !BreaksAt(cfg, w, op, key))
  }

  lemma RegisterExactly(cfg: Settings, w: World, data: CreateRequest, env: Env, key: string)
    requires Indexed(w.db) && Keyed(w)
    ensures EntryIsExact(cfg, w, Request(Register(data), env), key)
  {
    RegisterEffect(cfg, w, data, env);
    if WillCreate(w.db, env) {
      var doc := NewDocument(cfg, env.newId, data);
      InsertIndexed(w.db, doc, data);
      SavedExactly(w, Insert(w.db, doc, data), env.newId, env.cache, key);
      assert LookUpKey(w.db, Hex(env.newId)) == None;
    }
  }

  lemma UpdateExactly(cfg: Settings, w: World, user: Option<ProtoUser>, env: Env, key: string)
    requires Indexed(w.db) && Keyed(w)
    ensures EntryIsExact(cfg, w, Request(Update(user), env), key)
  {
    UpdateEffect(cfg, w, user, env);
    if user.Some? && WillUpdate(w.db, user.value, env) {
      var id := FromHex(user.value.userId).value;
      var doc := Merge(w.db.docs[id], user.value);
      ReplaceIndexed(w.db, doc);
      SavedExactly(w, Replace(w.db, doc), id, env.cache, key);
      if ToProtoUser(doc) == ToProtoUser(w.db.docs[id]) {
        ToProtoUserInjective(doc, w.db.docs[id]);
      }
    }
  }

  lemma DeleteExactly(cfg: Settings, w: World, raw: string, env: Env, key: string)
    requires Indexed(w.db) && Keyed(w)
    ensures EntryIsExact(cfg, w, Request(Delete(raw), env), key)
  {
    DeleteEffect(cfg, w, raw, env);
    if WillDelete(cfg, w.db, raw, env) {
      var id := FromHex(raw).value;
      var doc := w.db.docs[id].(deleted := true);
      ReplaceIndexed(w.db, doc);
      assert Replace(w.db, doc).docs == w.db.docs[id := doc];
      if key != Hex(id) && key in w.cache {
        OthersExactly(w.db, Replace(w.db, doc), id, key, w.cache[key]);
      }
    }
  }

  lemma LoginExactly(cfg: Settings, w: World, email: string, password: string, env: Env, key: string)
    requires Indexed(w.db) && Keyed(w)
    ensures EntryIsExact(cfg, w, Request(Login(email, password), env), key)
  {
    FindLiveByFinds(w.db, Email, email);
  }

  /** After an operation the entry of a key is right exactly when the operation repairs it, or it was right
      and the operation does not break it.  Nothing is said of any other entry. */
  lemma EntryExactly(cfg: Settings, w: World, op: Op, key: string)
    requires Indexed(w.db) && Keyed(w)
    ensures EntryIsExact(cfg, w, op, key)
  {
    match op {
      case Expiry(_) =>
      case Request(Register(data), env) => RegisterExactly(cfg, w, data, env, key);
      case Request(Update(user), env) => UpdateExactly(cfg, w, user, env, key);
      case Request(Delete(raw), env) => DeleteExactly(cfg, w, raw, env, key);
      case Request(Login(email, password), env) => LoginExactly(cfg, w, email, password, env, key);
      case Request(Get(_), _) =>
    }
  }

  /** An operation leaves every entry but that of the user it writes as right as it was. */
  lemma OtherKeysStay(cfg: Settings, w: World, call: Call, env: Env, key: string)
    requires Indexed(w.db) && Keyed(w) && CoherentAt(w, key) && KeyOf(call, env) != Some(key)
    ensures CoherentAt(Serve(cfg, w, call, env).0, key)
  {
    EntryExactly(cfg, w, Request(call, env), key);
  }

  /** What makes a right entry wrong is a request that writes that very user and breaks: damage is
      confined, whatever else is already wrong. */
  lemma DamageIsConfined(cfg: Settings, w: World, op: Op, key: string)
    requires Indexed(w.db) && Keyed(w) && CoherentAt(w, key)
    ensures CoherentAt(Apply(cfg, w, op), key) <==> !BreaksAt(cfg, w, op, key)
  {
    EntryExactly(cfg, w, op, key);
    if BreaksAt(cfg, w, op, key) && op.call.Update? {
      var id := FromHex(op.call.user.value.userId).value;
      if ToProtoUser(Merge(w.db.docs[id], op.call.user.value)) == ToProtoUser(w.db.docs[id]) {
        ToProtoUserInjective(Merge(w.db.docs[id], op.call.user.value), w.db.docs[id]);
      }
    }
  }

  lemma CoherenceExactly(cfg: Settings, w: World, call: Call, env: Env)
    requires Indexed(w.db) && Keyed(w) && Coherent(w)
    ensures var w' := Serve(cfg, w, call, env).0; Coherent(w') <==> !Breaks(cfg, w, call, env)
    ensures Breaks(cfg, w, call, env) ==>
              KeyOf(call, env).Some? && CoherentExcept(Serve(cfg, w, call, env).0, KeyOf(call, env).value)
  {
    var op := Request(call, env);
    var w' := Serve(cfg, w, call, env).0;
    forall key ensures CoherentAt(w', key) <==> !BreaksAt(cfg, w, op, key) {
      assert CoherentAt(w, key);
      DamageIsConfined(cfg, w, op, key);
    }
    if Breaks(cfg, w, call, env) {
      assert BreaksAt(cfg, w, op, KeyOf(call, env).value);
    }
  }

  /** A whole request keeps the cache transparent exactly when it is none of those that break it, and what
      it breaks is the answer for the user it writes, and no other. */
  lemma BreaksExactly(cfg: Settings, w: World, call: Call, env: Env)
    requires Indexed(w.db) && Keyed(w) && Transparent(w)
    ensures Transparent(Serve(cfg, w, call, env).0) <==> !Breaks(cfg, w, call, env)
    ensures Breaks(cfg, w, call, env) ==>
              KeyOf(call, env).Some? && CoherentExcept(Serve(cfg, w, call, env).0, KeyOf(call, env).value)
  {
    var w' := Serve(cfg, w, call, env).0;
    TransparentExactly(w);
    TransparentExactly(w');
    CoherenceExactly(cfg, w, call, env);
  }

  // ---- Repair ----

  /** An update of a user whose entry is wrong repairs it exactly when it changes the document and either its
      cache write takes effect or it happens to bring the document back to what the cache has. */
  lemma UpdateRepairsExactly(cfg: Settings, w: World, id: ObjectId, user: ProtoUser, env: Env)
    requires Indexed(w.db) && Keyed(w) && !CoherentAt(w, Hex(id)) && FromHex(user.userId) == Some(id)
    ensures CoherentAt(Apply(cfg, w, Request(Update(Some(user)), env)), Hex(id))
            <==> && WillUpdate(w.db, user, env)
                 && (!env.cache.Refused? || ToProtoUser(Merge(w.db.docs[id], user)) == w.cache[Hex(id)])
  {
    EntryExactly(cfg, w, Request(Update(Some(user)), env), Hex(id));
  }

  /** A deletion of such a user does exactly when it reaches the store and removes the entry, for which its
      key must be the printed id. */
  lemma DeleteRepairsExactly(cfg: Settings, w: World, id: ObjectId, key: string, env: Env)
    requires Indexed(w.db) && Keyed(w) && !CoherentAt(w, Hex(id)) && FromHex(key) == Some(id)
    ensures CoherentAt(Apply(cfg, w, Request(Delete(key), env)), Hex(id))
            <==> WillDelete(cfg, w.db, key, env) && !env.cache.Refused? && key == Hex(id)
  {
    EntryExactly(cfg, w, Request(Delete(key), env), Hex(id));
  }

  /** A login does exactly when it is that user's, succeeds, and its cache write takes effect. */
  lemma LoginRepairsExactly(cfg: Settings, w: World, id: ObjectId, email: string, password: string, env: Env)
    requires Indexed(w.db) && Keyed(w) && !CoherentAt(w, Hex(id))
    ensures var r := StorageSpec.LoginUser(cfg, w.db, email, password, env);
            CoherentAt(Apply(cfg, w, Request(Login(email, password), env)), Hex(id))
            <==> r.Ok? && r.value.userId == Hex(id) && !env.cache.Refused?
  {
    EntryExactly(cfg, w, Request(Login(email, password), env), Hex(id));
  }

  /** An expiry does exactly when it is of that user's key. */
  lemma ExpiryRepairsExactly(cfg: Settings, w: World, id: ObjectId, key: string)
    requires Indexed(w.db) && Keyed(w) && !CoherentAt(w, Hex(id))
    ensures CoherentAt(Apply(cfg, w, Expiry(key)), Hex(id)) <==> key == Hex(id)
  {
    EntryExactly(cfg, w, Expiry(key), Hex(id));
  }

  /** The operation writes the user of the key, logs them in, or is the expiry of the key. */
  predicate Concerns(cfg: Settings, w: World, op: Op, key: string) {
    match op
    case Expiry(k) => k == key
    case Request(Login(email, password), env) =>
      var r := StorageSpec.LoginUser(cfg, w.db, email, password, env);
      r.Ok? && r.value.userId == key
    case Request(call, env) => KeyOf(call, env) == Some(key)
  }

  /** No other operation changes whether the entry is right: a wrong one stays wrong. */
  lemma OthersRepairNothing(cfg: Settings, w: World, op: Op, id: ObjectId)
    requires Indexed(w.db) && Keyed(w) && !Concerns(cfg, w, op, Hex(id))
    ensures CoherentAt(Apply(cfg, w, op), Hex(id)) <==> CoherentAt(w, Hex(id))
  {
    EntryExactly(cfg, w, op, Hex(id));
  }

  // ---- Runs of whole requests ----

  function ApplyAll(cfg: Settings, w: World, ops: seq<Op>): World
    requires Indexed(w.db) && Keyed(w)
    ensures Indexed(ApplyAll(cfg, w, ops).db) && Keyed(ApplyAll(cfg, w, ops))
  {
    if ops == [] then w
    else
      var before := ApplyAll(cfg, w, ops[..|ops| - 1]);
      ApplyKeepsKeys(cfg, before, ops[|ops| - 1]);
      Apply(cfg, before, ops[|ops| - 1])
  }

  /** Operation `i` of the run breaks the entry of the key where it runs. */
  ghost predicate BreaksIn(cfg: Settings, w: World, ops: seq<Op>, key: string, i: nat)
    requires Indexed(w.db) && Keyed(w) && i < |ops|
  {
    BreaksAt(cfg, ApplyAll(cfg, w, ops[..i]), ops[i], key)
  }

  /** The entry is right after the first `j` operations, because the last of these repairs it or because it
      was right at the start, and none of the rest breaks it. */
  ghost predicate RightSince(cfg: Settings, w: World, ops: seq<Op>, key: string, j: nat)
    requires Indexed(w.db) && Keyed(w) && j <= |ops|
  {
    && (if j == 0 then CoherentAt(w, key) else Repairs(cfg, ApplyAll(cfg, w, ops[..j - 1]), ops[j - 1], key))
    && forall i :: j <= i < |ops| ==> !BreaksIn(cfg, w, ops, key, i)
  }

  ghost predicate RightAfter(cfg: Settings, w: World, ops: seq<Op>, key: string)
    requires Indexed(w.db) && Keyed(w)
  {
    exists j :: 0 <= j <= |ops| && RightSince(cfg, w, ops, key, j)
  }

  lemma RightSinceFront(cfg: Settings, w: World, ops: seq<Op>, key: string, j: nat)
    requires Indexed(w.db) && Keyed(w) && j < |ops|
    ensures var front := ops[..|ops| - 1];
            RightSince(cfg, w, ops, key, j)
            <==> RightSince(cfg, w, front, key, j) && !BreaksIn(cfg, w, ops, key, |ops| - 1)
  {
    var front := ops[..|ops| - 1];
    assert forall i :: 0 <= i < |front| ==> front[..i] == ops[..i];
    assert forall i :: 0 <= i < |front| ==> (BreaksIn(cfg, w, front, key, i) <==> BreaksIn(cfg, w, ops, key, i));
  }

  /** After any run of whole requests and expiries, the entry of a key is right exactly when it was right at
      the start or some operation repaired it, and no operation since has broken it. */
  lemma {:induction false} RightExactly(cfg: Settings, w: World, ops: seq<Op>, key: string)
    requires Indexed(w.db) && Keyed(w)
    ensures CoherentAt(ApplyAll(cfg, w, ops), key) <==> RightAfter(cfg, w, ops, key)
  {
    if ops == [] {
      assert RightSince(cfg, w, ops, key, 0) <==> CoherentAt(w, key);
    } else {
      var n := |ops| - 1;
      RightExactly(cfg, w, ops[..n], key);
      EntryExactly(cfg, ApplyAll(cfg, w, ops[..n]), ops[n], key);
      assert RightSince(cfg, w, ops, key, |ops|) <==> Repairs(cfg, ApplyAll(cfg, w, ops[..n]), ops[n], key);
      forall j | 0 <= j <= n
        ensures RightSince(cfg, w, ops, key, j)
                <==> RightSince(cfg, w, ops[..n], key, j) && !BreaksIn(cfg, w, ops, key, n)
      {
        RightSinceFront(cfg, w, ops, key, j);
      }
    }
  }

  /** So after any run `GetById` answers as the store alone exactly when this is so of every key. */
  lemma TransparentAfterExactly(cfg: Settings, w: World, ops: seq<Op>)
    requires Indexed(w.db) && Keyed(w)
    ensures Transparent(ApplyAll(cfg, w, ops)) <==> forall key :: RightAfter(cfg, w, ops, key)
  {
    TransparentExactly(ApplyAll(cfg, w, ops));
    forall key ensures CoherentAt(ApplyAll(cfg, w, ops), key) <==> RightAfter(cfg, w, ops, key) {
      RightExactly(cfg, w, ops, key);
    }
  }

  /** In a run of whole requests none of which breaks the cache, whatever entries expire and whatever other
      cache calls fail, `GetById` answers as the store alone at the end, and so at every point. */
  lemma TransparencyIsKept(cfg: Settings, w: World, ops: seq<Op>)
    requires Indexed(w.db) && Keyed(w) && Transparent(w)
    requires forall key, i :: 0 <= i < |ops| ==> !BreaksIn(cfg, w, ops, key, i)
    ensures Transparent(ApplyAll(cfg, w, ops))
  {
    TransparentExactly(w);
    forall key ensures RightAfter(cfg, w, ops, key) {
      assert CoherentAt(w, key);
      assert RightSince(cfg, w, ops, key, 0);
    }
    TransparentAfterExactly(cfg, w, ops);
  }

  // ---- Sending the same update again ----

  lemma MergeTwice(d: Document, change: ProtoUser)
    ensures Merge(Merge(d, change), change) == Merge(d, change)
  {
  }

  /** The same update again and again. */
  function Retries(user: ProtoUser, envs: seq<Env>): seq<Op> {
    seq(|envs|, i requires 0 <= i < |envs| => Request(Update(Some(user)), envs[i]))
  }

  lemma RetryIsAnError(cfg: Settings, w: World, id: ObjectId, user: ProtoUser, env: Env)
    requires Indexed(w.db) && FromHex(user.userId) == Some(id)
    requires id in w.db.docs && Merge(w.db.docs[id], user) == w.db.docs[id]
    ensures Serve(cfg, w, Update(Some(user)), env).0 == w && Serve(cfg, w, Update(Some(user)), env).1.Failed?
  {
    UpdateEffect(cfg, w, Some(user), env);
  }

  /** An update whose write has taken effect changes nothing when it is sent again, any number of times and
      whatever answers: each retry is an error before it comes to the cache, so none repairs it. */
  lemma {:induction false} RetriesChangeNothing(
      cfg: Settings, w: World, id: ObjectId, user: ProtoUser, envs: seq<Env>)
    requires Indexed(w.db) && Keyed(w) && FromHex(user.userId) == Some(id)
    requires id in w.db.docs && Merge(w.db.docs[id], user) == w.db.docs[id]
    ensures ApplyAll(cfg, w, Retries(user, envs)) == w
    ensures forall i :: 0 <= i < |envs| ==> Serve(cfg, w, Update(Some(user)), envs[i]).1.Failed?
    decreases |envs|
  {
    if envs != [] {
      var n := |envs| - 1;
      RetriesChangeNothing(cfg, w, id, user, envs[..n]);
      RetryIsAnError(cfg, w, id, user, envs[n]);
      assert Retries(user, envs)[..n] == Retries(user, envs[..n]);
      forall i | 0 <= i < |envs| ensures Serve(cfg, w, Update(Some(user)), envs[i]).1.Failed? {
        RetryIsAnError(cfg, w, id, user, envs[i]);
      }
    }
  }

  /** So the damage of an update that reached the store and not the cache is never repaired by sending it
      again: the entry is then wrong exactly when there is one and it is not the merged user, and stays so. */
  lemma RetryNeverRepairs(cfg: Settings, w: World, user: ProtoUser, env: Env, envs: seq<Env>)
    requires Indexed(w.db) && Keyed(w) && WillUpdate(w.db, user, env) && env.cache.Refused?
    ensures var w' := Serve(cfg, w, Update(Some(user)), env).0;
            var id := FromHex(user.userId).value;
            && Indexed(w'.db) && Keyed(w')
            && ApplyAll(cfg, w', Retries(user, envs)) == w'
            && (CoherentAt(w', Hex(id)) <==>
                  Hex(id) in w.cache ==> w.cache[Hex(id)] == ToProtoUser(Merge(w.db.docs[id], user)))
  {
    var w' := Serve(cfg, w, Update(Some(user)), env).0;
    var id := FromHex(user.userId).value;
    ServeKeepsKeys(cfg, w, Update(Some(user)), env);
    UpdateEffect(cfg, w, Some(user), env);
    MergeTwice(w.db.docs[id], user);
    RetriesChangeNothing(cfg, w', id, user, envs);
  }
}
