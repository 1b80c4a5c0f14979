/** When a deleted user can come back into the cache. */
module Resurrection {
  import opened ObjectIds
  import Database
  import opened StorageSpec
  import ServiceSpec
  import opened Protocol
  import opened History
  import C = Cache

  predicate Saving(pc: Pc) {
    pc.RegisterSaving? || pc.UpdateSaving? || pc.LoginSaving?
  }

  /** Some request in flight still holds a cache write for the id. */
  ghost predicate Pending(c: Core, id: ObjectId) {
    exists who :: who in c.procs && Saving(c.procs[who].pc) && c.procs[who].pc.user.userId == Hex(id)
  }

  /** The id's document is deleted and its cache entry is gone. */
  ghost predicate Gone(c: Core, id: ObjectId) {
    id in c.world.db.docs && c.world.db.docs[id].deleted && Hex(id) !in c.world.cache
  }

  /** A store step comes to hold a cache write only for a document that is live, or new, at that step. */
  lemma NewSavingIsLive(cfg: Settings, db: Database.Db, pc: Pc, env: Env, id: ObjectId)
    requires StoreOk(cfg, db) && OnStore(pc) && PcOk(db, pc)
    requires id in db.docs && db.docs[id].deleted
    ensures var pc' := StoreStep(cfg, db, pc, env).1; Saving(pc') ==> pc'.user.userId != Hex(id)
  {
    if pc.LoginChecked? && Saving(StoreStep(cfg, db, pc, env).1) {
      FoundIsLive(db, By(Database.Email), pc.email, env.(cancelled := false));
    }
  }

  ghost predicate Harmless(pc: Pc, id: ObjectId) {
    Saving(pc) ==> pc.user.userId != Hex(id)
  }

  lemma StepStaysHarmless(cfg: Settings, w: ServiceSpec.World, pc: Pc, env: Env, id: ObjectId)
    requires StoreOk(cfg, w.db) && PcOk(w.db, pc) && Harmless(pc, id)
    requires id in w.db.docs && w.db.docs[id].deleted && Hex(id) !in w.cache
    ensures var (w', pc') := Exec(cfg, w, pc, env); Hex(id) !in w'.cache && Harmless(pc', id)
  {
    if OnStore(pc) {
      NewSavingIsLive(cfg, w.db, pc, env, id);
    }
  }

  lemma ActStaysGone(c: Core, who: Caller, env: Env, id: ObjectId)
    requires Safe(c) && Enabled(c, Act(who, env)) && Gone(c, id) && Harmless(c.procs[who].pc, id)
    ensures var c' := Next(c, Act(who, env));
            Hex(id) !in c'.world.cache && who in c'.procs && Harmless(c'.procs[who].pc, id)
  {
    assert ProcOk(c, c.procs[who]);
    StepStaysHarmless(c.cfg, c.world, c.procs[who].pc, env, id);
  }

  lemma StaysGone(c: Core, e: Event, id: ObjectId)
    requires Safe(c) && Enabled(c, e) && Gone(c, id) && !Pending(c, id)
    requires var db' := Next(c, e).world.db; id in db'.docs && db'.docs[id].deleted
    ensures Gone(Next(c, e), id) && !Pending(Next(c, e), id)
  {
    var c' := Next(c, e);
    if e.Act? {
      assert Harmless(c.procs[e.who].pc, id);
      ActStaysGone(c, e.who, e.env, id);
    }
    forall who | who in c'.procs ensures Harmless(c'.procs[who].pc, id) {
      assert who in c.procs ==> Harmless(c.procs[who].pc, id);
    }
  }

  /** Once the entry of a deleted user is gone and no request in flight holds a cache write for the user,
      the entry is absent from every state of every continuation. */
  lemma {:induction false} NoResurrection(c: Core, events: seq<Event>, id: ObjectId)
    requires Safe(c) && Gone(c, id) && !Pending(c, id) && Valid(c, events)
    ensures Gone(Run(c, events), id) && !Pending(Run(c, events), id)
    decreases |events|
  {
    if events != [] {
      EventKeeps(c, events[0]);
      DeletedStays(c.cfg, c.world.db, Next(c, events[0]).world.db, id);
      StaysGone(c, events[0], id);
      NoResurrection(Next(c, events[0]), events[1..], id);
    }
  }

  ghost predicate CanReturn(c: Core, id: ObjectId)
    requires Database.Indexed(c.world.db)
  {
    exists events :: Valid(c, events) && Hex(id) in Run(c, events).world.cache
  }

  lemma PendingLands(c: Core, who: Caller, id: ObjectId)
    requires Database.Indexed(c.world.db) && who in c.procs
    requires Saving(c.procs[who].pc) && c.procs[who].pc.user.userId == Hex(id)
    ensures CanReturn(c, id)
  {
    var e := Act(who, Env(false, true, true, 0, true, true, C.Acknowledged));
    OneEvent(c, e);
    assert Hex(id) in Run(c, [e]).world.cache;
  }

  /** A removed entry can come back exactly when such a write is pending. */
  lemma ResurrectionExactly(c: Core, id: ObjectId)
    requires Safe(c) && Gone(c, id)
    ensures CanReturn(c, id) <==> Pending(c, id)
  {
    if Pending(c, id) {
      var who :| who in c.procs && Saving(c.procs[who].pc) && c.procs[who].pc.user.userId == Hex(id);
      PendingLands(c, who, id);
    } else if CanReturn(c, id) {
      var events :| Valid(c, events) && Hex(id) in Run(c, events).world.cache;
      NoResurrection(c, events, id);
    }
  }
}
