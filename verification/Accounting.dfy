/** Registrations by queue, from the broker to the store: every stored document is accounted for by one
    message, and what becomes of a message taken after the signal. */
module Accounting {
  import opened Results
  import opened ObjectIds
  import Models
  import opened Database
  import opened StorageSpec
  import opened ServiceSpec
  import opened Protocol
  import opened History
  import opened Deliveries
  import opened Consumers

  /** The printed id of the document that a settled registration inserted: it was acked, or the insertion
      worked and only the cache write failed. */
  function InsertedBy(reply: Option<Reply>): Option<string> {
    match reply
    case Some(Registered(u)) => Some(u.userId)
    case Some(Failed(CacheError(key))) => Some(key)
    case _ => None
  }

  function InsertedAt(pc: Pc): Option<string> {
    match pc
    case RegisterSaving(u) => Some(u.userId)
    case Finished(reply) => InsertedBy(Some(reply))
    case _ => None
  }

  /** The printed id of the document inserted for the registration in hand. */
  function InsertedNow(s: System): Option<string> {
    if Consumer(Registration) in s.core.procs then InsertedAt(s.core.procs[Consumer(Registration)].pc) else None
  }

  /** The document under a printed id was registered by this message, and began as its fields with the
      password hashed. */
  ghost predicate RegisteredBy(cfg: Settings, db: Db, key: string, d: Delivery) {
    && FromHex(key).Some? && Hex(FromHex(key).value) == key && d.asUser.Some?
    && var id := FromHex(key).value;
       && id in db.docs && id in db.born && id in db.versions && db.versions[id] != []
       && db.versions[id][0].id == id && CarriesMessage(cfg, db.versions[id][0], d.asUser.value)
  }

  /** How many registrations were acked, and how many nacked for the cache write alone. */
  function Acked(ts: seq<Settlement>): nat {
    if ts == [] then 0 else Acked(ts[..|ts| - 1]) + (if ts[|ts| - 1].acked then 1 else 0)
  }

  function NackedForCache(ts: seq<Settlement>): nat {
    if ts == [] then 0 else NackedForCache(ts[..|ts| - 1]) + (if CacheOnly(ts[|ts| - 1]) then 1 else 0)
  }

  /** Every settled registration that inserted a document has one of its own. */
  ghost predicate Booked(cfg: Settings, db: Db, ts: seq<Settlement>) {
    && (forall i :: 0 <= i < |ts| ==> (ts[i].acked ==> InsertedBy(ts[i].reply).Some?))
    && (forall i :: 0 <= i < |ts| && InsertedBy(ts[i].reply).Some? ==>
          RegisteredBy(cfg, db, InsertedBy(ts[i].reply).value, ts[i].delivery))
    && (forall i, j :: 0 <= i < j < |ts| && InsertedBy(ts[i].reply).Some? ==>
          InsertedBy(ts[i].reply) != InsertedBy(ts[j].reply))
  }

  /** The account of the stored documents: `ts` are the settled registrations, and `now` is the printed id
      of what was inserted for the one in hand. */
  ghost predicate AccountOk(cfg: Settings, db: Db, ts: seq<Settlement>, now: Option<string>, slot: Slot) {
    && |db.docs| == Acked(ts) + NackedForCache(ts) + (if now.Some? then 1 else 0)
    && Booked(cfg, db, ts)
    && (now.Some? ==> slot.Serving? && RegisteredBy(cfg, db, now.value, slot.d) && IsNew(ts, now))
  }

  ghost predicate IsNew(ts: seq<Settlement>, now: Option<string>) {
    forall i :: 0 <= i < |ts| ==> InsertedBy(ts[i].reply) != now
  }

  ghost predicate Accounted(s: System) {
    AccountOk(s.core.cfg, s.core.world.db, s.registration.settled, InsertedNow(s), s.registration.slot)
  }

  lemma BookedMore(cfg: Settings, db: Db, ts: seq<Settlement>, t: Settlement)
    requires Booked(cfg, db, ts) && (t.acked ==> InsertedBy(t.reply).Some?)
    requires InsertedBy(t.reply).Some? ==>
               && RegisteredBy(cfg, db, InsertedBy(t.reply).value, t.delivery)
               && forall i :: 0 <= i < |ts| ==> InsertedBy(ts[i].reply) != InsertedBy(t.reply)
    ensures Booked(cfg, db, ts + [t])
  {
  }

  lemma BookedStays(cfg: Settings, db: Db, db': Db, ts: seq<Settlement>)
    requires Booked(cfg, db, ts) && Indexed(db') && SameBirths(db, db')
    ensures Booked(cfg, db', ts)
  {
    forall i | 0 <= i < |ts| && InsertedBy(ts[i].reply).Some?
      ensures RegisteredBy(cfg, db', InsertedBy(ts[i].reply).value, ts[i].delivery)
    {
      RegisteredStays(cfg, db, db', InsertedBy(ts[i].reply).value, ts[i].delivery);
    }
  }

  /** A store step that inserts is a registration's; the rest keep the documents and all that is said of
      their registration. */
  ghost predicate SameBirths(db: Db, db': Db) {
    && db'.docs.Keys == db.docs.Keys && db'.born == db.born && db'.versions.Keys == db.versions.Keys
    && forall id :: id in db.versions ==> db.versions[id] <= db'.versions[id]
  }

  lemma OnlyRegistrationsInsert(cfg: Settings, db: Db, pc: Pc, env: Env)
    requires Indexed(db) && OnStore(pc) && !StoreStep(cfg, db, pc, env).1.RegisterSaving?
    ensures SameBirths(db, StoreStep(cfg, db, pc, env).0)
  {
  }

  lemma RegisteredStays(cfg: Settings, db: Db, db': Db, key: string, d: Delivery)
    requires RegisteredBy(cfg, db, key, d) && Indexed(db') && SameBirths(db, db')
    ensures RegisteredBy(cfg, db', key, d)
  {
    var id := FromHex(key).value;
    assert db.versions[id] <= db'.versions[id];
  }

  lemma SameBirthsSameSize(db: Db, db': Db)
    requires SameBirths(db, db')
    ensures |db'.docs| == |db.docs|
  {
    assert |db.docs| == |db.docs.Keys|;
    assert |db'.docs| == |db'.docs.Keys|;
  }

  /** Anything that inserts nothing and leaves the registration line alone keeps the account. */
  lemma AccountStays(cfg: Settings, db: Db, db': Db, ts: seq<Settlement>, now: Option<string>, slot: Slot, slot': Slot)
    requires AccountOk(cfg, db, ts, now, slot) && Indexed(db') && SameBirths(db, db')
    requires now.Some? ==> slot' == slot
    ensures AccountOk(cfg, db', ts, now, slot')
  {
    SameBirthsSameSize(db, db');
    BookedStays(cfg, db, db', ts);
    if now.Some? {
      RegisteredStays(cfg, db, db', now.value, slot.d);
    }
  }

  /** Registrations come by queue only. */
  predicate ByQueue(h: Happening) {
    h.Direct? && h.e.Begin? ==> !h.e.call.Register?
  }

  ghost predicate OnlyItsConsumerRegisters(s: System) {
    forall who :: who in s.core.procs && s.core.procs[who].call.Register? ==> who == Consumer(Registration)
  }

  lemma BookedAfterInsert(cfg: Settings, db: Db, ts: seq<Settlement>, doc: Models.Document, data: Models.CreateRequest)
    requires Booked(cfg, db, ts) && Indexed(db) && doc.id !in db.docs
    ensures Booked(cfg, Insert(db, doc, data), ts)
    ensures forall i :: 0 <= i < |ts| ==> InsertedBy(ts[i].reply) != Some(Hex(doc.id))
  {
    forall i | 0 <= i < |ts| && InsertedBy(ts[i].reply).Some?
      ensures RegisteredBy(cfg, Insert(db, doc, data), InsertedBy(ts[i].reply).value, ts[i].delivery)
      ensures InsertedBy(ts[i].reply) != Some(Hex(doc.id))
    {
      assert RegisteredBy(cfg, db, InsertedBy(ts[i].reply).value, ts[i].delivery);
      assert FromHex(Hex(doc.id)) == Some(doc.id);
    }
  }

  lemma OneMoreDocument(db: Db, doc: Models.Document, data: Models.CreateRequest)
    requires doc.id !in db.docs
    ensures |Insert(db, doc, data).docs| == |db.docs| + 1
  {
    var docs := Insert(db, doc, data).docs;
    assert docs.Keys == db.docs.Keys + {doc.id};
    assert |docs| == |docs.Keys| && |db.docs| == |db.docs.Keys|;
  }

  /** A new document for the message in hand. */
  lemma InsertionAddsUp(cfg: Settings, db: Db, ts: seq<Settlement>, slot: Slot, id: ObjectId)
    requires AccountOk(cfg, db, ts, None, slot) && Indexed(db) && id !in db.docs
    requires slot.Serving? && slot.d.asUser.Some?
    ensures var data := Models.ToCreateRequest(slot.d.asUser.value);
            AccountOk(cfg, Insert(db, NewDocument(cfg, id, data), data), ts, Some(Hex(id)), slot)
  {
    var data := Models.ToCreateRequest(slot.d.asUser.value);
    var doc := NewDocument(cfg, id, data);
    OneMoreDocument(db, doc, data);
    BookedAfterInsert(cfg, db, ts, doc, data);
    assert RegisteredBy(cfg, Insert(db, doc, data), Hex(id), slot.d);
  }

  /** The one step that stores a document. */
  lemma InsertionIsAccounted(s: System, env: Env)
    requires SystemOk(s) && Accounted(s) && Can(s, Work(Registration, env))
    requires s.core.procs[Consumer(Registration)].pc.RegisterChecked?
    requires env.writeOk && env.newId !in s.core.world.db.docs
    ensures Accounted(After(s, Work(Registration, env)))
  {
    assert LineOk(s, Registration);
    var p := s.core.procs[Consumer(Registration)];
    assert ProcOk(s.core, p);
    InsertionAddsUp(s.core.cfg, s.core.world.db, s.registration.settled, s.registration.slot, env.newId);
  }

  predicate Inserts(db: Db, pc: Pc, env: Env) {
    pc.RegisterChecked? && env.writeOk && env.newId !in db.docs
  }

  lemma OtherStepInsertsNothing(cfg: Settings, w: World, call: Call, pc: Pc, env: Env)
    requires Indexed(w.db) && call.Register? && Belongs(call, pc) && InFlight(pc) && !Inserts(w.db, pc, env)
    ensures var (w', pc') := Exec(cfg, w, pc, env);
            SameBirths(w.db, w'.db) && InsertedAt(pc') == InsertedAt(pc)
  {
  }

  /** Every other step of the registration call. */
  lemma OtherWorkIsAccounted(s: System, env: Env)
    requires SystemOk(s) && Accounted(s) && Can(s, Work(Registration, env))
    requires !Inserts(s.core.world.db, s.core.procs[Consumer(Registration)].pc, env)
    ensures Accounted(After(s, Work(Registration, env)))
  {
    assert LineOk(s, Registration);
    var p := s.core.procs[Consumer(Registration)];
    assert ProcOk(s.core, p) && p.call.Register?;
    AfterKeepsIndex(s, Work(Registration, env));
    OtherStepInsertsNothing(s.core.cfg, s.core.world, p.call, p.pc, env);
    var s' := After(s, Work(Registration, env));
    AccountStays(s.core.cfg, s.core.world.db, s'.core.world.db, s.registration.settled, InsertedNow(s),
                 s.registration.slot, s'.registration.slot);
  }

  lemma AckedMore(ts: seq<Settlement>, t: Settlement)
    ensures Acked(ts + [t]) == Acked(ts) + (if t.acked then 1 else 0)
    ensures NackedForCache(ts + [t]) == NackedForCache(ts) + (if CacheOnly(t) then 1 else 0)
  {
    assert (ts + [t])[..|ts|] == ts;
  }

  /** Settling a registration moves what it inserted, if anything, from the hand to the record. */
  lemma SettlementAddsUp(cfg: Settings, db: Db, ts: seq<Settlement>, slot: Slot, t: Settlement)
    requires AccountOk(cfg, db, ts, InsertedBy(t.reply), slot) && (slot.Serving? ==> slot.d == t.delivery)
    requires InsertedBy(t.reply).Some? <==> t.acked || CacheOnly(t)
    ensures AccountOk(cfg, db, ts + [t], None, Idle)
  {
    AckedMore(ts, t);
    BookedMore(cfg, db, ts, t);
  }

  /** A registration was acked, or nacked for the cache alone, exactly if its reply says that it inserted. */
  lemma RegistrationReply(d: Delivery, call: Call, reply: Reply)
    requires call.Register? && Belongs(call, Finished(reply))
    ensures var t := Settled(d, Some(reply)); InsertedBy(t.reply).Some? <==> t.acked || CacheOnly(t)
  {
  }

  lemma SettlementIsAccounted(s: System)
    requires SystemOk(s) && Accounted(s) && Can(s, Settle(Registration))
    ensures Accounted(After(s, Settle(Registration)))
  {
    assert LineOk(s, Registration);
    var p := s.core.procs[Consumer(Registration)];
    assert ProcOk(s.core, p);
    var t := Settled(s.registration.slot.d, Some(p.pc.reply));
    RegistrationReply(s.registration.slot.d, p.call, p.pc.reply);
    SettlementAddsUp(s.core.cfg, s.core.world.db, s.registration.settled, s.registration.slot, t);
  }

  lemma DispatchIsAccounted(s: System)
    requires SystemOk(s) && Accounted(s) && Can(s, Dispatch(Registration))
    ensures Accounted(After(s, Dispatch(Registration)))
  {
    assert LineOk(s, Registration);
    var s' := After(s, Dispatch(Registration));
    assert InsertedNow(s) == None == InsertedNow(s') && s'.core.world == s.core.world;
    if Deliveries.Decode(Registration, s.registration.slot.d).None? {
      SettlementAddsUp(s.core.cfg, s.core.world.db, s.registration.settled, s.registration.slot,
                       Settled(s.registration.slot.d, None));
    }
  }

  predicate IsRegistrationWork(h: Happening) {
    h == Settle(Registration) || h == Dispatch(Registration) || (h.Work? && h.kind == Registration)
  }

  /** What the rest of the system does inserts nothing. */
  lemma OthersInsertNothing(s: System, h: Happening)
    requires SystemOk(s) && Can(s, h) && OnlyItsConsumerRegisters(s) && !IsRegistrationWork(h)
    ensures SameBirths(s.core.world.db, After(s, h).core.world.db)
    ensures After(s, h).core.cfg == s.core.cfg
  {
    var es := CoreEvents(s, h);
    if es != [] && es[0].Act? {
      var p := s.core.procs[es[0].who];
      assert ProcOk(s.core, p);
      if OnStore(p.pc) {
        assert !p.call.Register?;
        OnlyRegistrationsInsert(s.core.cfg, s.core.world.db, p.pc, es[0].env);
      }
    }
  }

  lemma OthersAreAccounted(s: System, h: Happening)
    requires SystemOk(s) && Can(s, h) && OnlyItsConsumerRegisters(s) && Accounted(s) && !IsRegistrationWork(h)
    ensures Accounted(After(s, h))
  {
    assert LineOk(s, Registration);
    AfterKeepsIndex(s, h);
    OthersInsertNothing(s, h);
    ProcOfOther(s, h);
    AccountStays(s.core.cfg, s.core.world.db, After(s, h).core.world.db, s.registration.settled, InsertedNow(s),
                 s.registration.slot, After(s, h).registration.slot);
  }

  lemma ProcOfOther(s: System, h: Happening)
    requires SystemOk(s) && Can(s, h) && !IsRegistrationWork(h)
    ensures InsertedNow(After(s, h)) == InsertedNow(s)
    ensures After(s, h).registration.settled == s.registration.settled
    ensures s.registration.slot.Serving? ==> After(s, h).registration.slot == s.registration.slot
  {
  }

  lemma WorkIsAccounted(s: System, env: Env)
    requires SystemOk(s) && Accounted(s) && Can(s, Work(Registration, env))
    ensures Accounted(After(s, Work(Registration, env)))
  {
    if Inserts(s.core.world.db, s.core.procs[Consumer(Registration)].pc, env) {
      InsertionIsAccounted(s, env);
    } else {
      OtherWorkIsAccounted(s, env);
    }
  }

  lemma RegistrationWorkIsAccounted(s: System, h: Happening)
    requires SystemOk(s) && Can(s, h) && Accounted(s) && IsRegistrationWork(h)
    ensures Accounted(After(s, h))
  {
    if h.Settle? {
      SettlementIsAccounted(s);
    } else if h.Dispatch? {
      DispatchIsAccounted(s);
    } else {
      WorkIsAccounted(s, h.env);
    }
  }

  lemma HappeningIsAccounted(s: System, h: Happening)
    requires SystemOk(s) && Can(s, h) && OnlyItsConsumerRegisters(s) && Accounted(s)
    ensures Accounted(After(s, h))
  {
    if IsRegistrationWork(h) {
      RegistrationWorkIsAccounted(s, h);
    } else {
      OthersAreAccounted(s, h);
    }
  }

  lemma OnlyConsumerStays(s: System, h: Happening)
    requires SystemOk(s) && Can(s, h) && OnlyItsConsumerRegisters(s) && ByQueue(h)
    ensures OnlyItsConsumerRegisters(After(s, h))
  {
  }

  lemma {:induction false} RunIsAccounted(s: System, hs: seq<Happening>)
    requires SystemOk(s) && OnlyItsConsumerRegisters(s) && Accounted(s)
    requires Happens(s, hs) && forall h :: h in hs ==> ByQueue(h)
    ensures Accounted(Finally(s, hs))
    decreases |hs|
  {
    if hs != [] {
      assert hs[0] in hs;
      AfterKeeps(s, hs[0]);
      HappeningIsAccounted(s, hs[0]);
      OnlyConsumerStays(s, hs[0]);
      RunIsAccounted(After(s, hs[0]), hs[1..]);
    }
  }

  /** With all registrations coming by queue, at every moment the stored documents are as many as the acked
      registrations, those nacked for the cache write alone, and the one inserted and not yet settled; each
      of these has its own document, registered by its message. */
  lemma EveryDocumentIsAccountedFor(cfg: Settings, services: int, hs: seq<Happening>)
    requires Happens(Started(cfg, services), hs) && forall h :: h in hs ==> ByQueue(h)
    ensures Accounted(Finally(Started(cfg, services), hs))
  {
    StartedIsOk(cfg, services);
    RunIsAccounted(Started(cfg, services), hs);
  }

  // ---- After the signal ----

  /** The signal has come before the registration in hand, if there is one, has passed its context check. */
  ghost predicate Closed(s: System) {
    && s.cancelled
    && (Consumer(Registration) in s.core.procs ==>
          var pc := s.core.procs[Consumer(Registration)].pc;
          pc.RegisterStart? || (pc.Finished? && pc.reply.Failed? && pc.reply.failure == Cancelled))
  }

  lemma StaysClosed(s: System, h: Happening)
    requires SystemOk(s) && Can(s, h) && Closed(s) && OnlyItsConsumerRegisters(s)
    ensures Closed(After(s, h)) && SameBirths(s.core.world.db, After(s, h).core.world.db)
    ensures s.registration.settled <= After(s, h).registration.settled
    ensures forall i :: |s.registration.settled| <= i < |After(s, h).registration.settled| ==>
              !After(s, h).registration.settled[i].acked
  {
    assert LineOk(s, Registration);
    if !IsRegistrationWork(h) {
      OthersInsertNothing(s, h);
      ClosedForOthers(s, h);
    }
  }

  lemma ClosedForOthers(s: System, h: Happening)
    requires SystemOk(s) && Can(s, h) && Closed(s) && !IsRegistrationWork(h)
    ensures Closed(After(s, h)) && After(s, h).registration.settled == s.registration.settled
  {
  }

  /** From then on no document is ever inserted, and every registration that is still taken from the queue is
      nacked, which drops it: it is neither stored nor kept for later. */
  lemma {:induction false} AfterTheSignalRegistrationsAreDropped(s: System, hs: seq<Happening>)
    requires SystemOk(s) && Closed(s) && OnlyItsConsumerRegisters(s)
    requires Happens(s, hs) && forall h :: h in hs ==> ByQueue(h)
    ensures var s' := Finally(s, hs);
            && SameBirths(s.core.world.db, s'.core.world.db)
            && s.registration.settled <= s'.registration.settled
            && forall i :: |s.registration.settled| <= i < |s'.registration.settled| ==>
                 !s'.registration.settled[i].acked
    decreases |hs|
  {
    if hs != [] {
      assert hs[0] in hs;
      AfterKeeps(s, hs[0]);
      StaysClosed(s, hs[0]);
      OnlyConsumerStays(s, hs[0]);
      AfterTheSignalRegistrationsAreDropped(After(s, hs[0]), hs[1..]);
    }
  }
}
