/** How the consumers stop. */
module Shutdown {
  import opened Database
  import opened StorageSpec
  import ServiceSpec
  import opened Protocol
  import opened Deliveries
  import opened Consumers
  import C = Cache

  function One(slot: Slot): int {
    if slot.Exited? then 1 else 0
  }

  /** How many of the three consumers have returned. */
  function Returned(s: System): int {
    One(s.registration.slot) + One(s.updating.slot) + One(s.deletion.slot)
  }

  /** The wait group's counter is what was added less the consumers that have returned, which they do only
      after the signal, and the wait is over only after a moment when the counter was zero. */
  predicate Counted(s: System) {
    && s.wg == s.services - Returned(s)
    && (s.returned ==> s.services <= Returned(s) && s.cancelled)
    && (Returned(s) > 0 ==> s.cancelled)
  }

  lemma {:induction false} CounterIsExact(s: System, hs: seq<Happening>)
    requires Indexed(s.core.world.db) && Happens(s, hs) && Counted(s)
    ensures Counted(Finally(s, hs)) && Finally(s, hs).services == s.services
    decreases |hs|
  {
    if hs != [] {
      AfterKeepsIndex(s, hs[0]);
      StepCounts(s, hs[0]);
      CounterIsExact(After(s, hs[0]), hs[1..]);
    }
  }

  lemma StepCounts(s: System, h: Happening)
    requires Indexed(s.core.world.db) && Can(s, h) && Counted(s)
    ensures Counted(After(s, h)) && After(s, h).services == s.services
  {
    if h.Exit? {
      match h.kind
      case Registration =>
      case Updating =>
      case Deletion =>
    }
  }

  /** With three services, the counter is the number of consumers still there and never goes below zero; when
      the wait returns all three have, and every message taken has been settled. */
  lemma ShutdownIsGraceful(cfg: Settings, hs: seq<Happening>, k: Kind)
    requires Happens(Started(cfg, 3), hs)
    ensures var s := Finally(Started(cfg, 3), hs);
            && s.wg == 3 - Returned(s) && s.wg >= 0
            && (At(s, k).slot.Exited? || s.returned ==> s.cancelled)
            && (s.returned ==> At(s, k).slot.Exited?
                               && At(s, k).arrived == MessagesOf(At(s, k).settled) + At(s, k).waiting)
  {
    CounterIsExact(Started(cfg, 3), hs);
    DeliveriesAreConserved(cfg, 3, hs, k);
    var s := Finally(Started(cfg, 3), hs);
    assert One(At(s, k).slot) <= Returned(s);
    if s.returned {
      assert One(At(s, k).slot) == 1;
    }
  }

  lemma OneMore(s: System, h: Happening, rest: seq<Happening>)
    requires Indexed(s.core.world.db) && Can(s, h)
    requires Indexed(After(s, h).core.world.db) && Happens(After(s, h), rest)
    ensures Happens(s, [h] + rest) && Finally(s, [h] + rest) == Finally(After(s, h), rest)
  {
    assert ([h] + rest)[1..] == rest;
  }

  const ALL_EXIT: seq<Happening> := [Cancel, Exit(Registration), Exit(Updating), Exit(Deletion)]

  /** A run in which the signal comes and all three return. */
  lemma AllCanExit(cfg: Settings, services: int)
    ensures Happens(Started(cfg, services), ALL_EXIT)
    ensures var s := Finally(Started(cfg, services), ALL_EXIT);
            s.wg == services - 3 && s.cancelled && !s.returned && s.core == Initial(cfg)
  {
    var s0 := Started(cfg, services);
    var s1 := After(s0, Cancel);
    var s2 := After(s1, Exit(Registration));
    var s3 := After(s2, Exit(Updating));
    var s4 := After(s3, Exit(Deletion));
    assert s4.wg == services - 3 && s4.cancelled && !s4.returned && s4.core == Initial(cfg);
    assert Happens(s4, []) && Finally(s4, []) == s4;
    OneMore(s3, Exit(Deletion), []);
    OneMore(s2, Exit(Updating), [Exit(Deletion)]);
    OneMore(s1, Exit(Registration), [Exit(Updating), Exit(Deletion)]);
    OneMore(s0, Cancel, [Exit(Registration), Exit(Updating), Exit(Deletion)]);
  }

  ghost predicate CounterStaysNonNegative(cfg: Settings, services: int) {
    forall hs :: Happens(Started(cfg, services), hs) ==> Finally(Started(cfg, services), hs).wg >= 0
  }

  ghost predicate WaitCanReturn(cfg: Settings, services: int) {
    exists hs :: Happens(Started(cfg, services), hs) && Finally(Started(cfg, services), hs).returned
  }

  /** Three is the one number for which shutdown works: with fewer the counter can go negative, which is a
      panic, and with more the wait never returns. */
  lemma ShutdownWorksExactly(cfg: Settings, services: int)
    ensures CounterStaysNonNegative(cfg, services) && WaitCanReturn(cfg, services) <==> services == 3
  {
    var s0 := Started(cfg, services);
    AllCanExit(cfg, services);
    var s4 := Finally(s0, ALL_EXIT);
    if services == 3 {
      forall hs | Happens(s0, hs) ensures Finally(s0, hs).wg >= 0 {
        CounterIsExact(s0, hs);
      }
      assert Can(s4, Return);
      AfterKeepsIndex(s4, Return);
      assert Happens(After(s4, Return), []);
      OneMore(s4, Return, []);
      assert [Return] + [] == [Return];
      FinallyThen(s0, ALL_EXIT, [Return]);
    } else if CounterStaysNonNegative(cfg, services) && WaitCanReturn(cfg, services) {
      assert s4.wg >= 0;
      var hs :| Happens(s0, hs) && Finally(s0, hs).returned;
      CounterIsExact(s0, hs);
    }
  }

  lemma FirstOf(s: System, hs: seq<Happening>)
    requires Indexed(s.core.world.db) && Happens(s, hs) && hs != []
    ensures Can(s, hs[0]) && Indexed(After(s, hs[0]).core.world.db) && Happens(After(s, hs[0]), hs[1..])
    ensures Finally(s, hs) == Finally(After(s, hs[0]), hs[1..])
  {
    AfterKeepsIndex(s, hs[0]);
  }

  lemma {:induction false} FinallyThen(s: System, first: seq<Happening>, second: seq<Happening>)
    requires Indexed(s.core.world.db) && Happens(s, first) && Happens(Finally(s, first), second)
    ensures Happens(s, first + second) && Finally(s, first + second) == Finally(Finally(s, first), second)
    decreases |first|
  {
    if first == [] {
      assert first + second == second;
    } else {
      FirstOf(s, first);
      FinallyThen(After(s, first[0]), first[1..], second);
      OneMore(s, first[0], first[1..] + second);
      assert first + second == [first[0]] + (first[1..] + second);
    }
  }

  // ---- Every schedule ends ----

  /** The happenings that are a consumer's own. */
  predicate IsOf(h: Happening, k: Kind) {
    (h.Take? || h.Dispatch? || h.Work? || h.Settle? || h.Exit?) && h.kind == k
  }

  predicate IsSelect(h: Happening, k: Kind) {
    (h.Take? || h.Exit?) && h.kind == k
  }

  function Count(hs: seq<Happening>, p: Happening -> bool): nat {
    if hs == [] then 0 else (if p(hs[0]) then 1 else 0) + Count(hs[1..], p)
  }

  function StepsLeft(pc: Pc): nat {
    match pc
    case UpdateStart(_) => 4
    case RegisterStart(_) | UpdateChecked(_) | DeleteStart(_) | LoginStart(_, _) | GetStart(_) => 3
    case RegisterChecked(_) | UpdateRead(_, _) | DeleteRead(_) | LoginChecked(_, _) | GetMissed(_) => 2
    case RegisterSaving(_) | UpdateSaving(_) | DeleteRemoving(_) | LoginSaving(_) | GetChecked(_) => 1
    case Finished(_) => 0
  }

  lemma StepIsProgress(cfg: Settings, w: ServiceSpec.World, pc: Pc, env: Env)
    requires Indexed(w.db) && InFlight(pc)
    ensures StepsLeft(Exec(cfg, w, pc, env).1) < StepsLeft(pc)
  {
    if OnStore(pc) {
      var pc' := StoreStep(cfg, w.db, pc, env).1;
      assert Exec(cfg, w, pc, env).1 == pc';
      assert StepsLeft(pc') < StepsLeft(pc);
    } else {
      var pc' := CacheStep(w.cache, pc, env).1;
      assert Exec(cfg, w, pc, env).1 == pc';
      assert pc'.Finished? || pc'.GetMissed?;
    }
  }

  lemma StartIsFar(call: ServiceSpec.Call)
    ensures StepsLeft(Start(call)) <= 4
  {
  }

  /** A bound on what a consumer can still do with the messages it has. */
  function Rank(s: System, k: Kind): nat
    requires Consumer(k) in s.core.procs || !At(s, k).slot.Serving?
  {
    var l := At(s, k);
    7 * |l.waiting| +
    match l.slot
    case Exited => 0
    case Idle => 1
    case Holding(_) => 7
    case Serving(_) => 2 + StepsLeft(s.core.procs[Consumer(k)].pc)
  }

  function Passes(l: Line): nat {
    |l.waiting| + (if l.slot.Exited? then 0 else 1)
  }

  /** The steps of others leave a consumer's request where it is. */
  lemma ProcIsItsOwn(s: System, h: Happening, k: Kind)
    requires SystemOk(s) && Can(s, h) && !IsOf(h, k)
    ensures Consumer(k) in s.core.procs ==>
              Consumer(k) in After(s, h).core.procs
              && After(s, h).core.procs[Consumer(k)] == s.core.procs[Consumer(k)]
  {
  }

  lemma WorkIsProgress(s: System, k: Kind, env: Env)
    requires SystemOk(s) && Can(s, Work(k, env))
    ensures At(After(s, Work(k, env)), k) == At(s, k)
    ensures Consumer(k) in After(s, Work(k, env)).core.procs
    ensures StepsLeft(After(s, Work(k, env)).core.procs[Consumer(k)].pc) < StepsLeft(s.core.procs[Consumer(k)].pc)
  {
    StepIsProgress(s.core.cfg, s.core.world, s.core.procs[Consumer(k)].pc, env);
  }

  lemma DispatchIsProgress(s: System, k: Kind)
    requires SystemOk(s) && Can(s, Dispatch(k)) && Decode(k, At(s, k).slot.d).Some?
    ensures At(After(s, Dispatch(k)), k).slot.Serving?
    ensures Consumer(k) in After(s, Dispatch(k)).core.procs
    ensures StepsLeft(After(s, Dispatch(k)).core.procs[Consumer(k)].pc) <= 4
  {
    StartIsFar(Decode(k, At(s, k).slot.d).value);
  }

  lemma OthersKeepRank(s: System, h: Happening, k: Kind)
    requires SystemOk(s) && Can(s, h) && !IsOf(h, k) && !(h.Arrive? && h.kind == k)
    ensures LineOk(s, k) && At(After(s, h), k) == At(s, k)
    ensures Consumer(k) in s.core.procs ==>
              Consumer(k) in After(s, h).core.procs
              && After(s, h).core.procs[Consumer(k)] == s.core.procs[Consumer(k)]
  {
    assert LineOk(s, k);
    assert At(After(s, h), k) == LineAfter(s, h, k) == At(s, k);
    ProcIsItsOwn(s, h, k);
  }

  lemma OwnLowersRank(s: System, h: Happening, k: Kind)
    requires SystemOk(s) && Can(s, h) && SystemOk(After(s, h)) && IsOf(h, k)
    ensures LineOk(s, k) && LineOk(After(s, h), k) && Rank(After(s, h), k) < Rank(s, k)
  {
    assert LineOk(s, k) && LineOk(After(s, h), k);
    assert At(After(s, h), k) == LineAfter(s, h, k);
    if h.Work? {
      WorkIsProgress(s, k, h.env);
    } else if h.Dispatch? && Decode(k, At(s, k).slot.d).Some? {
      DispatchIsProgress(s, k);
    }
  }

  lemma SelectIsAPass(s: System, h: Happening, k: Kind)
    requires SystemOk(s) && Can(s, h) && !(h.Arrive? && h.kind == k)
    ensures Passes(At(After(s, h), k)) == Passes(At(s, k)) - (if IsSelect(h, k) then 1 else 0)
  {
    assert At(After(s, h), k) == LineAfter(s, h, k);
  }

  ghost predicate NoNews(hs: seq<Happening>, k: Kind) {
    forall h :: h in hs ==> !(h.Arrive? && h.kind == k)
  }

  /** With no new messages for a consumer, it does at most `Rank` things more, under any schedule. */
  lemma {:induction false} EveryScheduleEnds(s: System, hs: seq<Happening>, k: Kind)
    requires SystemOk(s) && Happens(s, hs) && NoNews(hs, k)
    ensures LineOk(s, k) && LineOk(Finally(s, hs), k)
    ensures Count(hs, h => IsOf(h, k)) + Rank(Finally(s, hs), k) <= Rank(s, k)
    decreases |hs|
  {
    assert LineOk(s, k);
    if hs != [] {
      AfterKeeps(s, hs[0]);
      assert hs[0] in hs;
      EveryScheduleEnds(After(s, hs[0]), hs[1..], k);
      if IsOf(hs[0], k) {
        OwnLowersRank(s, hs[0], k);
      } else {
        OthersKeepRank(s, hs[0], k);
      }
    }
  }

  /** Its select then makes at most one pass more than there are messages waiting: a pass for each message it
      takes, and one for its exit. */
  lemma {:induction false} PassesAreBounded(s: System, hs: seq<Happening>, k: Kind)
    requires SystemOk(s) && Happens(s, hs) && NoNews(hs, k)
    ensures Count(hs, h => IsSelect(h, k)) + Passes(At(Finally(s, hs), k)) == Passes(At(s, k))
            <= |At(s, k).waiting| + 1
    decreases |hs|
  {
    if hs != [] {
      AfterKeeps(s, hs[0]);
      assert hs[0] in hs;
      SelectIsAPass(s, hs[0], k);
      PassesAreBounded(After(s, hs[0]), hs[1..], k);
    }
  }

  /** What a consumer can always do next, once the signal has come. */
  function Possible(s: System, k: Kind): Happening {
    match At(s, k).slot
    case Holding(_) => Dispatch(k)
    case Serving(_) =>
      if Consumer(k) in s.core.procs && InFlight(s.core.procs[Consumer(k)].pc)
      then Work(k, Env(s.cancelled, true, true, 0, true, true, C.Acknowledged)) else Settle(k)
    case _ => Exit(k)
  }

  /** And until it has returned it is never stuck, so it returns. */
  lemma NeverStuck(s: System, k: Kind)
    requires SystemOk(s) && s.cancelled && !At(s, k).slot.Exited?
    ensures Can(s, Possible(s, k)) && IsOf(Possible(s, k), k)
  {
    assert LineOk(s, k);
  }
}
