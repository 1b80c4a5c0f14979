/** The record of a run is complete: each request has its one place in it, and that place agrees with what
    the request came to. */
module Completeness {
  import opened Results
  import Models
  import opened Database
  import opened StorageSpec
  import opened ServiceSpec
  import opened Protocol
  import opened History

  predicate InLog(log: seq<Entry>, ticket: nat) {
    exists i :: 0 <= i < |log| && log[i].ticket == ticket
  }

  predicate Undecided(pc: Pc) {
    OnStore(pc) || pc.GetStart?
  }

  /** The end of a storage operation that a reply goes with: the user in the reply, success of some kind if
      only the cache write failed, and no success otherwise. */
  predicate FitsReply(reply: Reply, v: Verdict) {
    match reply
    case Removed => v == Done(None)
    case Failed(CacheError(key)) => v.Done? && (v.user.Some? ==> v.user.value.userId == key)
    case Failed(_) => v == Undone
    case _ => v == Done(Some(reply.user))
  }

  predicate Fits(pc: Pc, v: Verdict) {
    match pc
    case RegisterSaving(u) => v == Done(Some(u))
    case UpdateSaving(u) => v == Done(Some(u))
    case LoginSaving(u) => v == Done(Some(u))
    case DeleteRemoving(_) => v == Done(None)
    case Finished(reply) => FitsReply(reply, v)
    case _ => false
  }

  predicate EntriesFit(log: seq<Entry>, ticket: nat, pc: Pc) {
    forall i :: 0 <= i < |log| && log[i].ticket == ticket ==> Fits(pc, log[i].verdict)
  }

  /** A request has an entry exactly when its storage operation has ended, and the entry fits what the
      request now holds or has replied.  Only a read may do without one, when the cache answers it. */
  predicate Tracked(issued: seq<Call>, log: seq<Entry>, p: Proc) {
    && p.ticket < |issued| && issued[p.ticket] == p.call && Belongs(p.call, p.pc)
    && (Undecided(p.pc) ==> !InLog(log, p.ticket))
    && (!Undecided(p.pc) && !p.call.Get? ==> InLog(log, p.ticket))
    && EntriesFit(log, p.ticket, p.pc)
  }

  predicate InFlightAs(c: Core, ticket: nat) {
    exists who :: who in c.procs && c.procs[who].ticket == ticket
  }

  /** A request that is over, as it was when it ended. */
  function Over(c: Core, ticket: nat): Proc
    requires ticket < |c.issued| && ticket in c.replies
  {
    Proc(ticket, c.issued[ticket], Finished(c.replies[ticket]))
  }

  ghost predicate InFlightTracked(c: Core) {
    && (forall who :: who in c.procs ==> Tracked(c.issued, c.log, c.procs[who]))
    && (forall a, b :: a in c.procs && b in c.procs && a != b ==> c.procs[a].ticket != c.procs[b].ticket)
  }

  ghost predicate OverTracked(c: Core) {
    forall t :: t in c.replies ==>
      t < |c.issued| && !InFlightAs(c, t) && Tracked(c.issued, c.log, Over(c, t))
  }

  ghost predicate AllThere(c: Core) {
    forall t: nat :: t < |c.issued| ==> t in c.replies || InFlightAs(c, t)
  }

  /** Each entry is of a request that came, and no request has two. */
  ghost predicate LogOk(issued: seq<Call>, log: seq<Entry>) {
    && (forall i :: 0 <= i < |log| ==> log[i].ticket < |issued| && issued[log[i].ticket] == log[i].call)
    && (forall i, j :: 0 <= i < j < |log| ==> log[i].ticket != log[j].ticket)
  }

  ghost predicate Complete(c: Core) {
    InFlightTracked(c) && OverTracked(c) && AllThere(c) && LogOk(c.issued, c.log)
  }

  // ---- One request ----

  lemma TrackedAfterBegin(issued: seq<Call>, call: Call, log: seq<Entry>, p: Proc)
    requires Tracked(issued, log, p)
    ensures Tracked(issued + [call], log, p)
  {
  }

  lemma InLogGrows(log: seq<Entry>, e: Entry, t: nat)
    ensures InLog(log + [e], t) <==> InLog(log, t) || t == e.ticket
  {
    if InLog(log, t) {
      var i :| 0 <= i < |log| && log[i].ticket == t;
      assert (log + [e])[i].ticket == t;
    }
    assert (log + [e])[|log|] == e;
  }

  /** An entry of another request changes nothing for this one. */
  lemma TrackedAfterOther(issued: seq<Call>, log: seq<Entry>, e: Entry, p: Proc)
    requires Tracked(issued, log, p) && e.ticket != p.ticket
    ensures Tracked(issued, log + [e], p)
  {
    InLogGrows(log, e, p.ticket);
  }

  /** The verdict that a deciding step writes fits what it leaves the request with. */
  lemma DecisionFits(cfg: Settings, w: World, call: Call, pc: Pc, env: Env)
    requires WorldOk(cfg, w) && OnStore(pc) && Belongs(call, pc) && !OnStore(StoreStep(cfg, w.db, pc, env).1)
    ensures var pc' := StoreStep(cfg, w.db, pc, env).1; Fits(pc', VerdictOf(pc')) && !Undecided(pc')
  {
  }

  lemma CacheStepFits(cache: map<string, Models.ProtoUser>, pc: Pc, env: Env, v: Verdict)
    requires !Undecided(pc) && Fits(pc, v)
    ensures var pc' := CacheStep(cache, pc, env).1; Fits(pc', v) && !Undecided(pc')
  {
  }

  lemma BelongsAfterStep(cfg: Settings, w: World, call: Call, pc: Pc, env: Env)
    requires WorldOk(cfg, w) && Belongs(call, pc) && PcOk(w.db, pc)
    ensures Belongs(call, Exec(cfg, w, pc, env).1)
  {
    StepKeeps(cfg, w, call, pc, env);
  }

  lemma TrackedAfterDecision(issued: seq<Call>, log: seq<Entry>, p: Proc, e: Entry, pc': Pc)
    requires Tracked(issued, log, p) && Undecided(p.pc) && e.ticket == p.ticket
    requires Belongs(p.call, pc') && !Undecided(pc') && Fits(pc', e.verdict)
    ensures Tracked(issued, log + [e], p.(pc := pc'))
  {
    InLogGrows(log, e, p.ticket);
    assert forall i :: 0 <= i < |log| ==> log[i].ticket != p.ticket by {
      assert !InLog(log, p.ticket);
    }
  }

  lemma TrackedAfterCacheStep(
      issued: seq<Call>, log: seq<Entry>, p: Proc, cache: map<string, Models.ProtoUser>, env: Env)
    requires Tracked(issued, log, p) && !OnStore(p.pc)
    requires Belongs(p.call, CacheStep(cache, p.pc, env).1)
    ensures Tracked(issued, log, p.(pc := CacheStep(cache, p.pc, env).1))
  {
    var pc' := CacheStep(cache, p.pc, env).1;
    if p.pc.GetStart? {
      assert !InLog(log, p.ticket);
    } else {
      forall i | 0 <= i < |log| && log[i].ticket == p.ticket ensures Fits(pc', log[i].verdict) {
        CacheStepFits(cache, p.pc, env, log[i].verdict);
      }
    }
  }

  /** A request is tracked after its own step. */
  lemma TrackedAfterStep(cfg: Settings, w: World, issued: seq<Call>, log: seq<Entry>, p: Proc, env: Env)
    requires WorldOk(cfg, w) && PcOk(w.db, p.pc) && Tracked(issued, log, p)
    ensures var pc' := Exec(cfg, w, p.pc, env).1;
            Tracked(issued, log + Decision(p, env, pc'), p.(pc := pc'))
  {
    BelongsAfterStep(cfg, w, p.call, p.pc, env);
    var pc' := Exec(cfg, w, p.pc, env).1;
    if !OnStore(p.pc) {
      assert log + [] == log;
      TrackedAfterCacheStep(issued, log, p, w.cache, env);
    } else if OnStore(pc') {
      assert log + [] == log;
      assert !InLog(log, p.ticket);
    } else {
      DecisionFits(cfg, w, p.call, p.pc, env);
      TrackedAfterDecision(issued, log, p, Decision(p, env, pc')[0], pc');
    }
  }

  // ---- One event ----

  lemma BeginStaysComplete(c: Core, who: Caller, call: Call)
    requires Complete(c) && Indexed(c.world.db) && Enabled(c, Begin(who, call))
    ensures Complete(Next(c, Begin(who, call)))
  {
    var c' := Next(c, Begin(who, call));
    assert !InLog(c.log, |c.issued|);
    forall w | w in c'.procs ensures Tracked(c'.issued, c'.log, c'.procs[w]) {
      if w != who {
        TrackedAfterBegin(c.issued, call, c.log, c.procs[w]);
      }
    }
    BeginStaysOver(c, who, call);
    forall k: nat | k < |c'.issued| ensures k in c'.replies || InFlightAs(c', k) {
      if k == |c.issued| {
        assert c'.procs[who].ticket == k;
      } else if k !in c.replies {
        OthersFly(c, c', who, k);
      }
    }
  }

  lemma BeginStaysOver(c: Core, who: Caller, call: Call)
    requires OverTracked(c) && Indexed(c.world.db) && Enabled(c, Begin(who, call))
    ensures OverTracked(Next(c, Begin(who, call)))
  {
    var c' := Next(c, Begin(who, call));
    forall k | k in c'.replies
      ensures k < |c'.issued| && !InFlightAs(c', k) && Tracked(c'.issued, c'.log, Over(c', k))
    {
      assert k < |c.issued| && !InFlightAs(c, k);
      TrackedAfterBegin(c.issued, call, c.log, Over(c, k));
      OthersFly(c, c', who, k);
    }
  }

  /** What is in flight besides the request of `who`. */
  lemma OthersFly(c: Core, c': Core, who: Caller, ticket: nat)
    requires forall w :: w != who ==> (w in c.procs <==> w in c'.procs)
    requires forall w :: w in c.procs && w in c'.procs && w != who ==> c'.procs[w].ticket == c.procs[w].ticket
    requires who in c.procs ==> c.procs[who].ticket != ticket
    requires who in c'.procs ==> c'.procs[who].ticket != ticket
    ensures InFlightAs(c', ticket) <==> InFlightAs(c, ticket)
  {
    if InFlightAs(c, ticket) {
      var w :| w in c.procs && c.procs[w].ticket == ticket;
      assert c'.procs[w].ticket == ticket;
    }
  }

  lemma EndStaysComplete(c: Core, who: Caller)
    requires Complete(c) && Indexed(c.world.db) && Enabled(c, End(who))
    ensures Complete(Next(c, End(who)))
  {
    var c' := Next(c, End(who));
    var p := c.procs[who];
    assert Tracked(c.issued, c.log, p);
    assert InFlightAs(c, p.ticket);
    forall k | k in c'.replies
      ensures k < |c'.issued| && !InFlightAs(c', k) && Tracked(c'.issued, c'.log, Over(c', k))
    {
      if k == p.ticket {
        assert Over(c', k) == p;
      } else {
        assert Over(c', k) == Over(c, k);
        OthersFly(c, c', who, k);
      }
    }
    forall k: nat | k < |c'.issued| ensures k in c'.replies || InFlightAs(c', k) {
      if k != p.ticket && k !in c.replies {
        OthersFly(c, c', who, k);
      }
    }
  }

  /** `more` is what a step of `who` adds to the log. */
  predicate Adds(c: Core, who: Caller, more: seq<Entry>)
    requires who in c.procs
  {
    var p := c.procs[who];
    more == [] || (|more| == 1 && more[0].ticket == p.ticket && more[0].call == p.call && !InLog(c.log, p.ticket))
  }

  lemma LogStaysOk(c: Core, who: Caller, more: seq<Entry>)
    requires LogOk(c.issued, c.log) && who in c.procs && Adds(c, who, more)
    requires Tracked(c.issued, c.log, c.procs[who])
    ensures LogOk(c.issued, c.log + more)
  {
    if more == [] {
      assert c.log + more == c.log;
    } else {
      assert forall i :: 0 <= i < |c.log| ==> c.log[i].ticket != more[0].ticket by {
        assert forall i :: 0 <= i < |c.log| && c.log[i].ticket == more[0].ticket ==> InLog(c.log, more[0].ticket);
      }
    }
  }

  lemma OtherStaysTracked(c: Core, who: Caller, more: seq<Entry>, p: Proc)
    requires who in c.procs && Adds(c, who, more) && Tracked(c.issued, c.log, p) && p.ticket != c.procs[who].ticket
    ensures Tracked(c.issued, c.log + more, p)
  {
    if more == [] {
      assert c.log + more == c.log;
    } else {
      assert more == [more[0]];
      TrackedAfterOther(c.issued, c.log, more[0], p);
    }
  }

  lemma StepAdds(c: Core, who: Caller, env: Env)
    requires Safe(c) && Complete(c) && Enabled(c, Act(who, env))
    ensures var p := c.procs[who];
            var pc' := Exec(c.cfg, c.world, p.pc, env).1;
            && Adds(c, who, Decision(p, env, pc'))
            && Tracked(c.issued, c.log + Decision(p, env, pc'), p.(pc := pc'))
  {
    var p := c.procs[who];
    assert Tracked(c.issued, c.log, p) && ProcOk(c, p);
    TrackedAfterStep(c.cfg, c.world, c.issued, c.log, p, env);
  }

  /** After a step of `who` that leaves its request as `p'`. */
  lemma StepStaysComplete(c: Core, c': Core, who: Caller, more: seq<Entry>, p': Proc)
    requires Complete(c) && who in c.procs && Adds(c, who, more) && p'.ticket == c.procs[who].ticket
    requires Tracked(c.issued, c.log + more, p')
    requires c' == c.(world := c'.world, procs := c.procs[who := p'], log := c.log + more)
    ensures Complete(c')
  {
    LogStaysOk(c, who, more);
    forall w | w in c'.procs ensures Tracked(c'.issued, c'.log, c'.procs[w]) {
      if w != who {
        OtherStaysTracked(c, who, more, c.procs[w]);
      }
    }
    StaysOver(c, c', who, more, p');
    forall k: nat | k < |c'.issued| ensures k in c'.replies || InFlightAs(c', k) {
      if k == p'.ticket {
        assert c'.procs[who].ticket == k;
      } else if k !in c.replies {
        OthersFly(c, c', who, k);
      }
    }
  }

  lemma StaysOver(c: Core, c': Core, who: Caller, more: seq<Entry>, p': Proc)
    requires Complete(c) && who in c.procs && Adds(c, who, more) && p'.ticket == c.procs[who].ticket
    requires c' == c.(world := c'.world, procs := c.procs[who := p'], log := c.log + more)
    ensures OverTracked(c')
  {
    assert InFlightAs(c, p'.ticket);
    forall k | k in c'.replies
      ensures k < |c'.issued| && !InFlightAs(c', k) && Tracked(c'.issued, c'.log, Over(c', k))
    {
      assert k != p'.ticket;
      OtherStaysTracked(c, who, more, Over(c, k));
      OthersFly(c, c', who, k);
    }
  }

  lemma ExpireStaysComplete(c: Core, e: Event)
    requires Complete(c) && Indexed(c.world.db) && e.Expire?
    ensures Complete(Next(c, e))
  {
    var c' := Next(c, e);
    forall k: nat ensures InFlightAs(c', k) <==> InFlightAs(c, k) {
    }
    forall k | k in c'.replies ensures Over(c', k) == Over(c, k) {
    }
  }

  lemma EventStaysComplete(c: Core, e: Event)
    requires Safe(c) && Complete(c) && Enabled(c, e)
    ensures Complete(Next(c, e)) && c.log <= Next(c, e).log
  {
    match e {
      case Begin(who, call) => BeginStaysComplete(c, who, call);
      case Act(who, env) =>
        StepAdds(c, who, env);
        var p := c.procs[who];
        var pc' := Exec(c.cfg, c.world, p.pc, env).1;
        StepStaysComplete(c, Next(c, e), who, Decision(p, env, pc'), p.(pc := pc'));
      case End(who) => EndStaysComplete(c, who);
      case Expire(_) => ExpireStaysComplete(c, e);
    }
  }

  /** The record stays complete through every run, and the order of the operations only grows. */
  lemma {:induction false} RunStaysComplete(c: Core, events: seq<Event>)
    requires Safe(c) && Complete(c) && Valid(c, events)
    ensures Complete(Run(c, events)) && c.log <= Run(c, events).log
    decreases |events|
  {
    if events != [] {
      EventKeeps(c, events[0]);
      EventStaysComplete(c, events[0]);
      RunStaysComplete(Next(c, events[0]), events[1..]);
    }
  }

  /** In every reachable state, each request that is over has a reply that fits its place in the order of
      the operations, and each in flight fits it so far; only reads answered by the cache have no place. */
  lemma EveryRunIsComplete(cfg: Settings, events: seq<Event>)
    requires Valid(Initial(cfg), events)
    ensures Complete(Run(Initial(cfg), events))
  {
    InitialIsSafe(cfg);
    RunStaysComplete(Initial(cfg), events);
  }
}
