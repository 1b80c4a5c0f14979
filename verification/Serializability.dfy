/** When interleaved storage operations have the effect of running them one at a time, in the order of their
    deciding calls: exactly when no update overwrites what changed since it read. */
module Serializability {
  import opened Results
  import opened ObjectIds
  import opened Models
  import opened Database
  import opened StorageSpec
  import opened ServiceSpec
  import opened Protocol
  import opened History
  import opened Completeness

  function VerdictFrom(r: Answer): Verdict {
    if r.Ok? then Done(Some(r.value)) else Undone
  }

  /** The storage operation of a request, run alone. */
  function Atomic(cfg: Settings, db: Db, call: Call, env: Env): (Db, Verdict)
    requires Indexed(db)
  {
    match call
    case Register(data) =>
      var (db', r) := StorageSpec.CreateUser(cfg, db, data, env);
      (db', VerdictFrom(r))
    case Update(user) =>
      var (db', r) := StorageSpec.UpdateUser(db, user, env);
      (db', VerdictFrom(r))
    case Delete(key) =>
      var (db', r) := StorageSpec.DeleteUserById(cfg, db, key, env);
      (db', if r.None? then Done(None) else Undone)
    case Login(email, password) => (db, VerdictFrom(StorageSpec.LoginUser(cfg, db, email, password, env)))
    case Get(key) => (db, VerdictFrom(StorageSpec.GetUserById(db, key, env)))
  }

  lemma AtomicKeepsIndex(cfg: Settings, db: Db, call: Call, env: Env)
    requires Indexed(db)
    ensures Indexed(Atomic(cfg, db, call, env).0)
  {
  }

  /** The store after the operations of a log, one at a time from the empty store. */
  function Replay(cfg: Settings, log: seq<Entry>): (db: Db)
    ensures Indexed(db)
  {
    if log == [] then EMPTY
    else
      var last := log[|log| - 1];
      var before := Replay(cfg, log[..|log| - 1]);
      AtomicKeepsIndex(cfg, before, last.call, last.env);
      Atomic(cfg, before, last.call, last.env).0
  }

  /** Each operation of the log ends in the replay as it ended in the run. */
  ghost predicate Faithful(cfg: Settings, log: seq<Entry>) {
    log != [] ==>
      var front, last := log[..|log| - 1], log[|log| - 1];
      Faithful(cfg, front) && Atomic(cfg, Replay(cfg, front), last.call, last.env).1 == last.verdict
  }

  lemma {:induction false} FaithfulAt(cfg: Settings, log: seq<Entry>, i: nat)
    requires Faithful(cfg, log) && i < |log|
    ensures Atomic(cfg, Replay(cfg, log[..i]), log[i].call, log[i].env).1 == log[i].verdict
  {
    var front := log[..|log| - 1];
    if i < |front| {
      FaithfulAt(cfg, front, i);
      assert front[..i] == log[..i];
    }
  }

  lemma LogGrows(cfg: Settings, log: seq<Entry>, e: Entry)
    ensures Replay(cfg, log + [e]) == Atomic(cfg, Replay(cfg, log), e.call, e.env).0
    ensures Faithful(cfg, log + [e])
            <==> Faithful(cfg, log) && Atomic(cfg, Replay(cfg, log), e.call, e.env).1 == e.verdict
  {
    assert (log + [e])[..|log|] == log;
  }

  // ---- Updates that overwrite ----

  /** Some field that the update leaves alone is no longer as the update read it. */
  predicate Overwrites(now: Document, base: Document, change: ProtoUser) {
    || (change.email == "" && base.email != now.email)
    || (change.username == "" && base.username != now.username)
    || (change.profile.name == "" && base.profile.name != now.profile.name)
    || (change.profile.address == "" && base.profile.address != now.profile.address)
  }

  /** The step is the write of an update, to a live document, that overwrites. */
  predicate LosesAt(db: Db, pc: Pc, env: Env) {
    && pc.UpdateRead? && env.writeOk && Live(db, pc.base.id)
    && Overwrites(db.docs[pc.base.id], pc.base, pc.change)
  }

  predicate Loses(c: Core, e: Event) {
    e.Act? && e.who in c.procs && LosesAt(c.world.db, c.procs[e.who].pc, e.env)
  }

  ghost predicate NeverLoses(c: Core, events: seq<Event>)
    requires Indexed(c.world.db) && Valid(c, events)
    decreases |events|
  {
    events != [] ==>
      && !Loses(c, events[0])
      && (KeepsIndex(c, events[0]); NeverLoses(Next(c, events[0]), events[1..]))
  }

  lemma MergeExactly(base: Document, now: Document, change: ProtoUser)
    requires base.id == now.id && base.password == now.password && base.deleted == now.deleted
    ensures Merge(base, change) == Merge(now, change) <==> !Overwrites(now, base, change)
  {
  }

  /** An update's write has the end of the whole update run at that moment exactly when it overwrites
      nothing, and then the same effect. */
  lemma UpdateWriteExactly(db: Db, base: Document, change: ProtoUser)
    requires Indexed(db) && Live(db, base.id) && !base.deleted && base.password == db.docs[base.id].password
    ensures var now := db.docs[base.id];
            var run, whole := WriteMerged(db, base, change, true), WriteMerged(db, now, change, true);
            && (run.1 == whole.1 <==> !Overwrites(now, base, change))
            && (run.1 == whole.1 ==> run == whole)
            && (Overwrites(now, base, change) ==> run.1.Ok?)
  {
    var now := db.docs[base.id];
    MergeExactly(base, now, change);
    if Overwrites(now, base, change) {
      assert Merge(base, change) != now;
      if ToProtoUser(Merge(base, change)) == ToProtoUser(Merge(now, change)) {
        ToProtoUserInjective(Merge(base, change), Merge(now, change));
      }
    }
  }

  // ---- One step ----

  /** What a request has read is of a document that is still there, with the password it had. */
  predicate ReadHolds(db: Db, pc: Pc) {
    && (pc.UpdateRead? ==> pc.base.id in db.docs && !pc.base.deleted
                           && db.docs[pc.base.id].password == pc.base.password)
    && (pc.DeleteRead? ==> FromHex(pc.key).Some? && FromHex(pc.key).value in db.docs)
  }

  lemma RegisterIsAtomic(cfg: Settings, db: Db, data: CreateRequest, env: Env)
    requires Indexed(db)
    ensures var (db', pc') := StoreStep(cfg, db, RegisterChecked(data), env);
            Atomic(cfg, db, Register(data), env.(cancelled := false)) == (db', VerdictOf(pc'))
  {
  }

  /** An update whose write finds no live document is what the update alone would be: an error. */
  lemma LateUpdateIsAtomic(cfg: Settings, db: Db, base: Document, change: ProtoUser, env: Env)
    requires Indexed(db) && FromHex(change.userId) == Some(base.id) && !(env.writeOk && Live(db, base.id))
    ensures var (db', pc') := StoreStep(cfg, db, UpdateRead(base, change), env);
            Atomic(cfg, db, Update(Some(change)), env.(cancelled := false, readOk := true)) == (db', VerdictOf(pc'))
  {
    assert change.userId != "";
  }

  lemma UpdateIsAtomicExactly(cfg: Settings, db: Db, base: Document, change: ProtoUser, env: Env)
    requires Indexed(db) && FromHex(change.userId) == Some(base.id) && ReadHolds(db, UpdateRead(base, change))
    ensures var (db', pc') := StoreStep(cfg, db, UpdateRead(base, change), env);
            var alone := Atomic(cfg, db, Update(Some(change)), env.(cancelled := false, readOk := true));
            if LosesAt(db, UpdateRead(base, change), env) then alone.1 != VerdictOf(pc')
            else alone == (db', VerdictOf(pc'))
  {
    if env.writeOk && Live(db, base.id) {
      var env' := env.(cancelled := false, readOk := true);
      assert change.userId != "";
      assert GetByField(db, ById, change.userId, env') == Ok(db.docs[base.id]);
      UpdateWriteExactly(db, base, change);
    } else {
      LateUpdateIsAtomic(cfg, db, base, change, env);
    }
  }

  lemma DeleteIsAtomic(cfg: Settings, db: Db, key: string, env: Env)
    requires Indexed(db) && FromHex(key).Some? && FromHex(key).value in db.docs
    ensures var (db', pc') := StoreStep(cfg, db, DeleteRead(key), env);
            Atomic(cfg, db, Delete(key), env.(readOk := true)) == (db', VerdictOf(pc'))
  {
  }

  lemma ReadIsAtomic(cfg: Settings, db: Db, call: Call, pc: Pc, env: Env)
    requires Indexed(db) && OnStore(pc) && Belongs(call, pc) && (pc.LoginChecked? || pc.GetChecked?)
    ensures var (db', pc') := StoreStep(cfg, db, pc, env);
            Atomic(cfg, db, call, env.(cancelled := false)) == (db', VerdictOf(pc'))
  {
  }

  /** A check that ends the operation, or a read that finds nothing. */
  ghost predicate EndsEarly(cfg: Settings, db: Db, call: Call, pc: Pc, env: Env)
    requires Indexed(db) && OnStore(pc)
  {
    var (db', pc') := StoreStep(cfg, db, pc, env);
    db' == db && (!OnStore(pc') ==> Atomic(cfg, db, call, Whole(pc, env)) == (db, VerdictOf(pc')))
  }

  lemma UpdateEndsEarly(cfg: Settings, db: Db, call: Call, pc: Pc, env: Env)
    requires Indexed(db) && OnStore(pc) && Belongs(call, pc) && (pc.UpdateStart? || pc.UpdateChecked?)
    ensures EndsEarly(cfg, db, call, pc, env)
  {
    if pc.UpdateChecked? {
      assert pc.change.userId != "";
    }
  }

  lemma OthersEndEarly(cfg: Settings, db: Db, call: Call, pc: Pc, env: Env)
    requires Indexed(db) && OnStore(pc) && Belongs(call, pc)
    requires pc.RegisterStart? || pc.DeleteStart? || pc.LoginStart? || pc.GetMissed?
    ensures EndsEarly(cfg, db, call, pc, env)
  {
  }

  /** A store step either changes nothing and decides nothing, or is the whole operation run at that moment,
      unless it is an update's write that overwrites: that one has another end than the update alone. */
  lemma StepIsAtomicExactly(cfg: Settings, db: Db, call: Call, pc: Pc, env: Env)
    requires Indexed(db) && OnStore(pc) && Belongs(call, pc) && ReadHolds(db, pc)
    ensures var (db', pc') := StoreStep(cfg, db, pc, env);
            if OnStore(pc') then db' == db && !LosesAt(db, pc, env)
            else if LosesAt(db, pc, env) then Atomic(cfg, db, call, Whole(pc, env)).1 != VerdictOf(pc')
            else Atomic(cfg, db, call, Whole(pc, env)) == (db', VerdictOf(pc'))
  {
    match pc {
      case RegisterChecked(data) => RegisterIsAtomic(cfg, db, data, env);
      case UpdateRead(base, change) => UpdateIsAtomicExactly(cfg, db, base, change, env);
      case DeleteRead(key) => DeleteIsAtomic(cfg, db, key, env);
      case LoginChecked(_, _) => ReadIsAtomic(cfg, db, call, pc, env);
      case GetChecked(_) => ReadIsAtomic(cfg, db, call, pc, env);
      case UpdateStart(_) => UpdateEndsEarly(cfg, db, call, pc, env);
      case UpdateChecked(_) => UpdateEndsEarly(cfg, db, call, pc, env);
      case _ => OthersEndEarly(cfg, db, call, pc, env);
    }
  }

  ghost predicate KeepsPasswords(db: Db, db': Db) {
    forall id :: id in db.docs ==> id in db'.docs && db'.docs[id].password == db.docs[id].password
  }

  lemma UpdateKeepsPasswords(db: Db, base: Document, change: ProtoUser, writeOk: bool)
    requires Indexed(db) && base.id in db.docs && db.docs[base.id].password == base.password
    ensures KeepsPasswords(db, WriteMerged(db, base, change, writeOk).0)
  {
  }

  lemma StepKeepsPasswords(cfg: Settings, db: Db, pc: Pc, env: Env)
    requires Indexed(db) && OnStore(pc) && ReadHolds(db, pc)
    ensures KeepsPasswords(db, StoreStep(cfg, db, pc, env).0)
  {
    if pc.UpdateRead? {
      UpdateKeepsPasswords(db, pc.base, pc.change, env.writeOk);
    }
  }

  /** What a request has read stays so after a step of another. */
  lemma ReadOutlastsStep(cfg: Settings, db: Db, pc: Pc, env: Env, other: Pc)
    requires Indexed(db) && OnStore(pc) && ReadHolds(db, other) && ReadHolds(db, pc)
    ensures ReadHolds(StoreStep(cfg, db, pc, env).0, other)
  {
    StepKeepsPasswords(cfg, db, pc, env);
  }

  lemma ReadHoldsAfterStep(cfg: Settings, db: Db, call: Call, pc: Pc, env: Env)
    requires Indexed(db) && OnStore(pc) && Belongs(call, pc)
    ensures var (db', pc') := StoreStep(cfg, db, pc, env); ReadHolds(db', pc')
  {
  }

  // ---- Whole runs ----

  /** The store is the replay of the log, and every operation ended as it does there. */
  ghost predicate Serial(c: Core) {
    Replay(c.cfg, c.log) == c.world.db && Faithful(c.cfg, c.log)
  }

  ghost predicate ReadsHold(c: Core) {
    forall who :: who in c.procs ==> ReadHolds(c.world.db, c.procs[who].pc)
  }

  /** The step by which an operation ends keeps the run serial unless it loses a write, and then some
      operation has an end that it has not in the replay. */
  lemma ActIsSerialExactly(c: Core, who: Caller, env: Env)
    requires Safe(c) && Enabled(c, Act(who, env)) && Serial(c) && ReadHolds(c.world.db, c.procs[who].pc)
    ensures var c' := Next(c, Act(who, env));
            if Loses(c, Act(who, env)) then !Faithful(c'.cfg, c'.log) else Serial(c')
  {
    var p := c.procs[who];
    assert ProcOk(c, p);
    if OnStore(p.pc) {
      StepIsAtomicExactly(c.cfg, c.world.db, p.call, p.pc, env);
      var (db, pc) := StoreStep(c.cfg, c.world.db, p.pc, env);
      if !OnStore(pc) {
        LogGrows(c.cfg, c.log, Entry(p.ticket, p.call, Whole(p.pc, env), VerdictOf(pc)));
      } else {
        assert c.log + [] == c.log;
      }
    } else {
      assert c.log + [] == c.log;
    }
  }

  lemma ActReadsHold(c: Core, who: Caller, env: Env, other: Caller)
    requires Safe(c) && Enabled(c, Act(who, env)) && other in c.procs && ReadsHold(c)
    ensures ReadHolds(Next(c, Act(who, env)).world.db, Next(c, Act(who, env)).procs[other].pc)
  {
    var p := c.procs[who];
    assert ProcOk(c, p) && ReadHolds(c.world.db, p.pc) && ReadHolds(c.world.db, c.procs[other].pc);
    if OnStore(p.pc) {
      if who == other {
        ReadHoldsAfterStep(c.cfg, c.world.db, p.call, p.pc, env);
      } else {
        ReadOutlastsStep(c.cfg, c.world.db, p.pc, env, c.procs[other].pc);
      }
    }
  }

  lemma ReadsStayHeld(c: Core, e: Event)
    requires Safe(c) && Enabled(c, e) && ReadsHold(c)
    ensures ReadsHold(Next(c, e))
  {
    var c' := Next(c, e);
    forall who | who in c'.procs ensures ReadHolds(c'.world.db, c'.procs[who].pc) {
      if e.Act? {
        ActReadsHold(c, e.who, e.env, who);
      }
    }
  }

  /** An operation whose end differs from the replay's is never made good. */
  lemma {:induction false} UnfaithfulStays(c: Core, events: seq<Event>)
    requires Indexed(c.world.db) && Valid(c, events) && !Faithful(c.cfg, c.log)
    ensures !Serial(Run(c, events))
    decreases |events|
  {
    if events != [] {
      var e := events[0];
      var c' := Next(c, e);
      KeepsIndex(c, e);
      if e.Act? {
        var more := Decision(c.procs[e.who], e.env, c'.procs[e.who].pc);
        if more == [] {
          assert c'.log == c.log;
        } else {
          assert c'.log == c.log + [more[0]];
          LogGrows(c.cfg, c.log, more[0]);
        }
      }
      UnfaithfulStays(c', events[1..]);
    }
  }

  lemma {:induction false} RunIsSerialExactly(c: Core, events: seq<Event>)
    requires Safe(c) && Serial(c) && ReadsHold(c) && Valid(c, events)
    ensures Serial(Run(c, events)) <==> NeverLoses(c, events)
    decreases |events|
  {
    if events != [] {
      var e := events[0];
      EventKeeps(c, e);
      ReadsStayHeld(c, e);
      if e.Act? {
        ActIsSerialExactly(c, e.who, e.env);
      }
      if Loses(c, e) {
        UnfaithfulStays(Next(c, e), events[1..]);
      } else {
        RunIsSerialExactly(Next(c, e), events[1..]);
      }
    }
  }

  /** For every interleaving of any requests from anywhere: the store, and the success or failure of every
      storage operation with the user it gives, are those of running the operations one at a time in the
      order of their deciding calls, exactly when no update's write overwrites a field that has changed
      since it read. */
  lemma SerializableExactly(cfg: Settings, events: seq<Event>)
    requires Valid(Initial(cfg), events)
    ensures Serial(Run(Initial(cfg), events)) <==> NeverLoses(Initial(cfg), events)
  {
    InitialIsSafe(cfg);
    RunIsSerialExactly(Initial(cfg), events);
  }

  // ---- One update consumer ----

  /** Updates come from the one update consumer; every other request may come from anywhere. */
  predicate Routed(e: Event) {
    e.Begin? && e.call.Update? ==> e.who == Consumer(Updating)
  }

  /** Since an update's read only a deletion can have touched its document. */
  predicate Current(db: Db, base: Document) {
    base.id in db.docs && (db.docs[base.id] == base || db.docs[base.id] == base.(deleted := true))
  }

  /** A request that is an update is the consumer's, and what it has read is current. */
  ghost predicate InOrder(c: Core, who: Caller)
    requires who in c.procs
  {
    var p := c.procs[who];
    (p.call.Update? ==> who == Consumer(Updating)) && (p.pc.UpdateRead? ==> Current(c.world.db, p.pc.base))
  }

  lemma CurrentAfterStep(cfg: Settings, db: Db, pc: Pc, env: Env, base: Document)
    requires Indexed(db) && OnStore(pc) && !pc.UpdateRead? && Current(db, base)
    ensures Current(StoreStep(cfg, db, pc, env).0, base)
  {
  }

  lemma OwnReadIsCurrent(cfg: Settings, w: World, call: Call, pc: Pc, env: Env)
    requires Indexed(w.db) && Belongs(call, pc) && InFlight(pc)
    ensures var (w', pc') := Exec(cfg, w, pc, env); pc'.UpdateRead? ==> call.Update? && Current(w'.db, pc'.base)
  {
  }

  lemma ActStaysInOrder(c: Core, who: Caller, env: Env, other: Caller)
    requires Safe(c) && Enabled(c, Act(who, env)) && other in c.procs && InOrder(c, who) && InOrder(c, other)
    ensures InOrder(Next(c, Act(who, env)), other)
  {
    var p := c.procs[who];
    if who == other {
      assert ProcOk(c, p);
      OwnReadIsCurrent(c.cfg, c.world, p.call, p.pc, env);
    } else {
      OtherStaysInOrder(c, who, env, other);
    }
  }

  lemma OtherStaysInOrder(c: Core, who: Caller, env: Env, other: Caller)
    requires Safe(c) && Enabled(c, Act(who, env)) && other in c.procs && InOrder(c, who) && InOrder(c, other)
    requires who != other
    ensures InOrder(Next(c, Act(who, env)), other)
  {
    var p, q := c.procs[who], c.procs[other];
    assert ProcOk(c, p) && ProcOk(c, q);
    if OnStore(p.pc) && q.pc.UpdateRead? {
      CurrentAfterStep(c.cfg, c.world.db, p.pc, env, q.pc.base);
    }
  }

  lemma InOrderLosesNothing(c: Core, e: Event)
    requires e.Act? && e.who in c.procs ==> InOrder(c, e.who)
    ensures !Loses(c, e)
  {
  }

  lemma {:induction false} RoutedNeverLoses(c: Core, events: seq<Event>)
    requires Safe(c) && (forall who :: who in c.procs ==> InOrder(c, who))
    requires Valid(c, events) && (forall e :: e in events ==> Routed(e))
    ensures NeverLoses(c, events)
    decreases |events|
  {
    if events != [] {
      var e := events[0];
      var c' := Next(c, e);
      EventKeeps(c, e);
      assert Routed(e);
      forall who | who in c'.procs ensures InOrder(c', who) {
        if e.Act? {
          ActStaysInOrder(c, e.who, e.env, who);
        } else if who in c.procs {
          assert InOrder(c, who);
        }
      }
      InOrderLosesNothing(c, e);
      RoutedNeverLoses(c', events[1..]);
    }
  }

  /** So every interleaving in which the updates come from their one consumer is serial, and the record that
      says so is complete. */
  lemma EveryRunIsSerializable(cfg: Settings, events: seq<Event>)
    requires Valid(Initial(cfg), events) && forall e :: e in events ==> Routed(e)
    ensures var c := Run(Initial(cfg), events);
            Replay(cfg, c.log) == c.world.db && Faithful(cfg, c.log) && Complete(c)
  {
    InitialIsSafe(cfg);
    RunKeeps(Initial(cfg), events);
    RoutedNeverLoses(Initial(cfg), events);
    SerializableExactly(cfg, events);
    EveryRunIsComplete(cfg, events);
  }
}
