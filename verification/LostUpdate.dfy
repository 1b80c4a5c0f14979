/** A run in which two direct updates at once lose a write. */
module LostUpdate {
  import opened Results
  import opened ObjectIds
  import opened Models
  import opened Database
  import opened StorageSpec
  import opened ServiceSpec
  import opened Protocol
  import opened Serializability
  import C = Cache

  const ANN := CreateRequest("ann", "ann@old", "secret", Profile("Ann", "Main Street"), false)

  function NewEmail(id: ObjectId): ProtoUser {
    ProtoUser(Hex(id), "", "ann@new", "", Profile("", ""), false)
  }

  function NewName(id: ObjectId): ProtoUser {
    ProtoUser(Hex(id), "anna", "", "", Profile("", ""), false)
  }

  /** Nothing fails. */
  function Fine(id: ObjectId): Env {
    Env(false, true, true, id, true, true, C.Acknowledged)
  }

  const FIRST := Client(1)
  const SECOND := Client(2)

  function Registers(id: ObjectId): seq<Event> {
    [Begin(Client(0), Register(ANN)), Act(Client(0), Fine(id)), Act(Client(0), Fine(id))]
  }

  /** An update up to its write. */
  function Reads(who: Caller, id: ObjectId, change: ProtoUser): seq<Event> {
    [Begin(who, Update(Some(change))), Act(who, Fine(id)), Act(who, Fine(id))]
  }

  function Writes(id: ObjectId): seq<Event> {
    [Act(FIRST, Fine(id)), Act(SECOND, Fine(id))]
  }

  /** Ann registers, and then two clients update her at once: each reads before the other writes. */
  function Overlap(id: ObjectId): seq<Event> {
    Registers(id) + (Reads(FIRST, id, NewEmail(id)) + (Reads(SECOND, id, NewName(id)) + Writes(id)))
  }

  function Ann(cfg: Settings, id: ObjectId): Document {
    NewDocument(cfg, id, ANN)
  }

  predicate AnnIs(c: Core, id: ObjectId, doc: Document) {
    id in c.world.db.docs && c.world.db.docs[id] == doc && doc.id == id && !doc.deleted
  }

  predicate StandsAt(c: Core, who: Caller, pc: Pc) {
    who in c.procs && c.procs[who].pc == pc
  }

  lemma OneMoreEvent(c: Core, e: Event, rest: seq<Event>)
    requires Indexed(c.world.db) && Enabled(c, e)
    requires Indexed(Next(c, e).world.db) && Valid(Next(c, e), rest)
    ensures Valid(c, [e] + rest) && Run(c, [e] + rest) == Run(Next(c, e), rest)
    ensures NeverLoses(c, [e] + rest) ==> !Loses(c, e) && NeverLoses(Next(c, e), rest)
  {
    assert ([e] + rest)[1..] == rest;
  }

  lemma OneLosingEvent(c: Core, e: Event)
    requires Indexed(c.world.db) && Enabled(c, e) && Loses(c, e)
    ensures Valid(c, [e]) && Run(c, [e]) == Next(c, e) && !NeverLoses(c, [e])
  {
    OneEvent(c, e);
  }

  ghost predicate AnnIsStored(c: Core, id: ObjectId) {
    Indexed(c.world.db) && AnnIs(c, id, Ann(c.cfg, id)) && FIRST !in c.procs && SECOND !in c.procs
  }

  lemma AnnRegisters(cfg: Settings, id: ObjectId)
    ensures Valid(Initial(cfg), Registers(id))
    ensures Run(Initial(cfg), Registers(id)).cfg == cfg && AnnIsStored(Run(Initial(cfg), Registers(id)), id)
  {
    var begin, act := Begin(Client(0), Register(ANN)), Act(Client(0), Fine(id));
    var c0 := Initial(cfg);
    var c1 := Next(c0, begin);
    assert c1.procs[Client(0)].pc == RegisterStart(ANN);
    var c2 := Next(c1, act);
    assert c2.procs[Client(0)].pc == RegisterChecked(ANN);
    var c3 := Next(c2, act);
    InsertIndexed(c2.world.db, Ann(cfg, id), ANN);
    assert c3.world.db == Insert(EMPTY, Ann(cfg, id), ANN) && AnnIsStored(c3, id);
    assert Valid(c3, []) && Run(c3, []) == c3;
    OneMoreEvent(c2, act, []);
    OneMoreEvent(c1, act, [act]);
    OneMoreEvent(c0, begin, [act, act]);
  }

  /** The steps of an update up to its write, one by one. */
  lemma UpdateChecks(c: Core, who: Caller, id: ObjectId, change: ProtoUser)
    requires Indexed(c.world.db) && StandsAt(c, who, UpdateStart(Some(change))) && change.userId == Hex(id)
    ensures var c' := Next(c, Act(who, Fine(id)));
            && c'.cfg == c.cfg && c'.world == c.world
            && c'.procs == c.procs[who := c.procs[who].(pc := UpdateChecked(change))]
  {
    assert change.userId != "";
  }

  lemma UpdateFinds(c: Core, who: Caller, id: ObjectId, change: ProtoUser, doc: Document)
    requires Indexed(c.world.db) && AnnIs(c, id, doc)
    requires StandsAt(c, who, UpdateChecked(change)) && change.userId == Hex(id)
    ensures var c' := Next(c, Act(who, Fine(id)));
            && c'.cfg == c.cfg && c'.world == c.world
            && c'.procs == c.procs[who := c.procs[who].(pc := UpdateRead(doc, change))]
  {
    assert FindLive(c.world.db, id) == Some(doc);
  }

  lemma UpdateReads(c: Core, who: Caller, id: ObjectId, change: ProtoUser, doc: Document)
    requires Indexed(c.world.db) && AnnIs(c, id, doc) && who !in c.procs && change.userId == Hex(id)
    ensures Valid(c, Reads(who, id, change))
    ensures var c' := Run(c, Reads(who, id, change));
            && c'.cfg == c.cfg && c'.world == c.world && StandsAt(c', who, UpdateRead(doc, change))
            && forall w :: w != who ==> (w in c'.procs <==> w in c.procs)
                                        && (w in c.procs ==> c'.procs[w] == c.procs[w])
  {
    var begin, act := Begin(who, Update(Some(change))), Act(who, Fine(id));
    var c1 := Next(c, begin);
    UpdateChecks(c1, who, id, change);
    var c2 := Next(c1, act);
    UpdateFinds(c2, who, id, change, doc);
    var c3 := Next(c2, act);
    assert Valid(c3, []) && Run(c3, []) == c3;
    OneMoreEvent(c2, act, []);
    OneMoreEvent(c1, act, [act]);
    OneMoreEvent(c, begin, [act, act]);
  }

  /** A write that changes a live document. */
  lemma UpdateWrites(c: Core, who: Caller, id: ObjectId, now: Document, base: Document, change: ProtoUser)
    requires Indexed(c.world.db) && AnnIs(c, id, now) && base.id == id && Merge(base, change) != now
    requires StandsAt(c, who, UpdateRead(base, change))
    ensures var c' := Next(c, Act(who, Fine(id)));
            && Indexed(c'.world.db) && c'.cfg == c.cfg
            && id in c'.world.db.docs && c'.world.db.docs[id] == Merge(base, change)
            && c'.procs == c.procs[who := c.procs[who].(pc := UpdateSaving(ToProtoUser(Merge(base, change))))]
  {
    KeepsIndex(c, Act(who, Fine(id)));
  }

  /** The second write puts the old email back, and both writes succeed. */
  ghost predicate EmailIsLost(c: Core, id: ObjectId) {
    && id in c.world.db.docs && c.world.db.docs[id].email == "ann@old"
    && FIRST in c.procs && c.procs[FIRST].pc.UpdateSaving? && c.procs[FIRST].pc.user.email == "ann@new"
    && SECOND in c.procs && c.procs[SECOND].pc.UpdateSaving?
  }

  ghost predicate BothHaveRead(c: Core, id: ObjectId) {
    && Indexed(c.world.db) && AnnIs(c, id, Ann(c.cfg, id))
    && StandsAt(c, FIRST, UpdateRead(Ann(c.cfg, id), NewEmail(id)))
    && StandsAt(c, SECOND, UpdateRead(Ann(c.cfg, id), NewName(id)))
  }

  ghost predicate FirstHasWritten(c: Core, id: ObjectId) {
    && Indexed(c.world.db) && AnnIs(c, id, Ann(c.cfg, id).(email := "ann@new"))
    && StandsAt(c, FIRST, UpdateSaving(ToProtoUser(Ann(c.cfg, id).(email := "ann@new"))))
    && StandsAt(c, SECOND, UpdateRead(Ann(c.cfg, id), NewName(id)))
  }

  lemma FirstWrites(c: Core, id: ObjectId)
    requires BothHaveRead(c, id)
    ensures FirstHasWritten(Next(c, Act(FIRST, Fine(id))), id)
  {
    assert Merge(Ann(c.cfg, id), NewEmail(id)) == Ann(c.cfg, id).(email := "ann@new");
    UpdateWrites(c, FIRST, id, Ann(c.cfg, id), Ann(c.cfg, id), NewEmail(id));
  }

  lemma SecondWrites(c: Core, id: ObjectId)
    requires FirstHasWritten(c, id)
    ensures Loses(c, Act(SECOND, Fine(id)))
    ensures var c' := Next(c, Act(SECOND, Fine(id))); Indexed(c'.world.db) && EmailIsLost(c', id)
  {
    assert Merge(Ann(c.cfg, id), NewName(id)) == Ann(c.cfg, id).(username := "anna");
    UpdateWrites(c, SECOND, id, Ann(c.cfg, id).(email := "ann@new"), Ann(c.cfg, id), NewName(id));
  }

  lemma BothWrite(c: Core, id: ObjectId)
    requires BothHaveRead(c, id)
    ensures Valid(c, Writes(id)) && EmailIsLost(Run(c, Writes(id)), id) && !NeverLoses(c, Writes(id))
  {
    FirstWrites(c, id);
    var c1 := Next(c, Act(FIRST, Fine(id)));
    SecondWrites(c1, id);
    OneLosingEvent(c1, Act(SECOND, Fine(id)));
    OneMoreEvent(c, Act(FIRST, Fine(id)), [Act(SECOND, Fine(id))]);
  }

  lemma {:induction false} Joined(c: Core, first: seq<Event>, second: seq<Event>)
    requires Indexed(c.world.db) && Valid(c, first) && Valid(Run(c, first), second)
    ensures Valid(c, first + second) && Run(c, first + second) == Run(Run(c, first), second)
    ensures NeverLoses(c, first + second) ==> NeverLoses(Run(c, first), second)
    decreases |first|
  {
    if first == [] {
      assert first + second == second;
    } else {
      KeepsIndex(c, first[0]);
      assert (first + second)[1..] == first[1..] + second;
      Joined(Next(c, first[0]), first[1..], second);
    }
  }

  /** This run of the machine, in which nothing fails, loses the first client's email although both clients
      get success, and it is not serial. */
  lemma OverlappingUpdatesLose(cfg: Settings, id: ObjectId)
    ensures Valid(Initial(cfg), Overlap(id))
    ensures EmailIsLost(Run(Initial(cfg), Overlap(id)), id) && !Serial(Run(Initial(cfg), Overlap(id)))
  {
    AnnRegisters(cfg, id);
    var c := Run(Initial(cfg), Registers(id));
    UpdateReads(c, FIRST, id, NewEmail(id), Ann(cfg, id));
    var c1 := Run(c, Reads(FIRST, id, NewEmail(id)));
    UpdateReads(c1, SECOND, id, NewName(id), Ann(cfg, id));
    var c2 := Run(c1, Reads(SECOND, id, NewName(id)));
    BothWrite(c2, id);
    Joined(c1, Reads(SECOND, id, NewName(id)), Writes(id));
    Joined(c, Reads(FIRST, id, NewEmail(id)), Reads(SECOND, id, NewName(id)) + Writes(id));
    Joined(Initial(cfg), Registers(id),
           Reads(FIRST, id, NewEmail(id)) + (Reads(SECOND, id, NewName(id)) + Writes(id)));
    SerializableExactly(cfg, Overlap(id));
  }

  lemma UpdateStoresMerge(cfg: Settings, db: Db, id: ObjectId, change: ProtoUser, env: Env)
    requires Indexed(db) && id in db.docs && change.userId == Hex(id)
    ensures var (db', v) := Atomic(cfg, db, Update(Some(change)), env);
            && id in db'.docs
            && (v.Done? ==> db'.docs[id] == Merge(db.docs[id], change))
  {
  }

  /** Either order of the two updates, each run whole and each succeeding, keeps both changes. */
  lemma EitherOrderKeepsBoth(cfg: Settings, db: Db, id: ObjectId, emailFirst: bool, env1: Env, env2: Env)
    requires Indexed(db) && id in db.docs && db.docs[id] == Ann(cfg, id)
    ensures var first, second :=
              if emailFirst then NewEmail(id) else NewName(id), if emailFirst then NewName(id) else NewEmail(id);
            var (db1, v1) := Atomic(cfg, db, Update(Some(first)), env1);
            Indexed(db1) &&
            var (db2, v2) := Atomic(cfg, db1, Update(Some(second)), env2);
            v1.Done? && v2.Done? ==>
              id in db2.docs && db2.docs[id] == Ann(cfg, id).(email := "ann@new", username := "anna")
  {
    var first, second :=
      if emailFirst then NewEmail(id) else NewName(id), if emailFirst then NewName(id) else NewEmail(id);
    AtomicKeepsIndex(cfg, db, Update(Some(first)), env1);
    UpdateStoresMerge(cfg, db, id, first, env1);
    UpdateStoresMerge(cfg, Atomic(cfg, db, Update(Some(first)), env1).0, id, second, env2);
  }
}
