/** Updates as an action on documents: a run of them is one update, field by field the last that says
    anything. */
module Updates {
  import opened Results
  import opened ObjectIds
  import opened Models
  import opened Database
  import opened StorageSpec
  import opened ServiceSpec

  /** The update that does both, the second winning where both speak. */
  function Then(first: ProtoUser, second: ProtoUser): ProtoUser {
    second.(email := Override(first.email, second.email),
            username := Override(first.username, second.username),
            profile := Profile(Override(first.profile.name, second.profile.name),
                               Override(first.profile.address, second.profile.address)))
  }

  function MergeAll(d: Document, changes: seq<ProtoUser>): Document {
    if changes == [] then d else Merge(MergeAll(d, changes[..|changes| - 1]), changes[|changes| - 1])
  }

  function ThenAll(first: ProtoUser, rest: seq<ProtoUser>): ProtoUser {
    if rest == [] then first else Then(ThenAll(first, rest[..|rest| - 1]), rest[|rest| - 1])
  }

  lemma MergeThen(d: Document, first: ProtoUser, second: ProtoUser)
    ensures Merge(Merge(d, first), second) == Merge(d, Then(first, second))
  {
  }

  lemma ThenIsAssociative(a: ProtoUser, b: ProtoUser, c: ProtoUser)
    ensures Then(Then(a, b), c) == Then(a, Then(b, c))
  {
  }

  /** A run of updates is one update. */
  lemma {:induction false} RunIsOneUpdate(d: Document, first: ProtoUser, rest: seq<ProtoUser>)
    ensures MergeAll(d, [first] + rest) == Merge(d, ThenAll(first, rest))
  {
    var all := [first] + rest;
    if rest == [] {
      assert all[..0] == [] && MergeAll(d, all[..0]) == d;
    } else {
      assert all[..|all| - 1] == [first] + rest[..|rest| - 1];
      RunIsOneUpdate(d, first, rest[..|rest| - 1]);
      MergeThen(d, ThenAll(first, rest[..|rest| - 1]), rest[|rest| - 1]);
    }
  }

  /** However a run of updates is cut in two, joining the two parts gives the same one update. */
  lemma {:induction false} GroupingIsFree(
      first: ProtoUser, before: seq<ProtoUser>, second: ProtoUser, after: seq<ProtoUser>)
    ensures ThenAll(first, before + [second] + after) == Then(ThenAll(first, before), ThenAll(second, after))
    decreases |after|
  {
    var all := before + [second] + after;
    if after == [] {
      assert all[..|all| - 1] == before;
    } else {
      var n := |after| - 1;
      assert all[..|all| - 1] == before + [second] + after[..n];
      GroupingIsFree(first, before, second, after[..n]);
      ThenIsAssociative(ThenAll(first, before), ThenAll(second, after[..n]), after[n]);
    }
  }

  datatype Field = Email | Username | Name | Address

  function Part(f: Field, email: string, username: string, profile: Profile): string {
    match f
    case Email => email
    case Username => username
    case Name => profile.name
    case Address => profile.address
  }

  function Of(f: Field, d: Document): string {
    Part(f, d.email, d.username, d.profile)
  }

  function In(f: Field, change: ProtoUser): string {
    Part(f, change.email, change.username, change.profile)
  }

  lemma MergeField(d: Document, change: ProtoUser, f: Field)
    ensures Of(f, Merge(d, change)) == Override(Of(f, d), In(f, change))
  {
  }

  /** A field that no update speaks of stays as it was. */
  lemma {:induction false} SilentFieldStays(d: Document, changes: seq<ProtoUser>, f: Field)
    requires forall i :: 0 <= i < |changes| ==> In(f, changes[i]) == ""
    ensures Of(f, MergeAll(d, changes)) == Of(f, d)
  {
    if changes != [] {
      var n := |changes| - 1;
      SilentFieldStays(d, changes[..n], f);
      MergeField(MergeAll(d, changes[..n]), changes[n], f);
    }
  }

  /** Any other field ends as the last value an update gives it. */
  lemma {:induction false} FieldIsItsLastValue(d: Document, changes: seq<ProtoUser>, f: Field, last: nat)
    requires last < |changes| && In(f, changes[last]) != ""
    requires forall i :: last < i < |changes| ==> In(f, changes[i]) == ""
    ensures Of(f, MergeAll(d, changes)) == In(f, changes[last])
  {
    var n := |changes| - 1;
    if last < n {
      FieldIsItsLastValue(d, changes[..n], f, last);
    }
    MergeField(MergeAll(d, changes[..n]), changes[n], f);
  }

  /** The store after update requests served one after another. */
  function ServeAll(w: World, changes: seq<ProtoUser>, env: nat -> Env): World
    requires Indexed(w.db)
    ensures Indexed(ServeAll(w, changes, env).db)
  {
    if changes == [] then w
    else
      var n := |changes| - 1;
      ServeSpecKeepsIndex(ServeAll(w, changes[..n], env), changes[n], env(n));
      ServiceSpec.UpdateUser(ServeAll(w, changes[..n], env), Some(changes[n]), env(n)).0
  }

  lemma ServeSpecKeepsIndex(w: World, change: ProtoUser, env: Env)
    requires Indexed(w.db)
    ensures Indexed(ServiceSpec.UpdateUser(w, Some(change), env).0.db)
  {
  }

  predicate Answered(env: Env) {
    !env.cancelled && env.readOk && env.writeOk
  }

  lemma OneUpdateMerges(w: World, id: ObjectId, change: ProtoUser, env: Env)
    requires Indexed(w.db) && Live(w.db, id) && FromHex(change.userId) == Some(id) && Answered(env)
    ensures var db := ServiceSpec.UpdateUser(w, Some(change), env).0.db;
            Live(db, id) && db.docs == w.db.docs[id := Merge(w.db.docs[id], change)]
  {
    assert change.userId != "";
    assert Merge(w.db.docs[id], change) == w.db.docs[id]
           ==> w.db.docs == w.db.docs[id := Merge(w.db.docs[id], change)];
  }

  lemma ServeAllLast(w: World, changes: seq<ProtoUser>, env: nat -> Env)
    requires Indexed(w.db) && changes != []
    ensures var n := |changes| - 1;
            var before := ServeAll(w, changes[..n], env);
            ServeAll(w, changes, env) == ServiceSpec.UpdateUser(before, Some(changes[n]), env(n)).0
  {
  }

  lemma {:induction false} MergeAllKeepsIdentity(d: Document, changes: seq<ProtoUser>)
    ensures MergeAll(d, changes).id == d.id && MergeAll(d, changes).deleted == d.deleted
  {
    if changes != [] {
      MergeAllKeepsIdentity(d, changes[..|changes| - 1]);
    }
  }

  predicate AllFor(id: ObjectId, changes: seq<ProtoUser>, env: nat -> Env) {
    forall i :: 0 <= i < |changes| ==> FromHex(changes[i].userId) == Some(id) && Answered(env(i))
  }

  lemma OneMoreMerges(w: World, before: World, id: ObjectId, d: Document, change: ProtoUser, env: Env)
    requires Indexed(before.db) && id in w.db.docs && d.id == id && !d.deleted
    requires before.db.docs == w.db.docs[id := d] && FromHex(change.userId) == Some(id) && Answered(env)
    ensures var db := ServiceSpec.UpdateUser(before, Some(change), env).0.db;
            Live(db, id) && db.docs == w.db.docs[id := Merge(d, change)]
  {
    OneUpdateMerges(before, id, change, env);
  }

  /** Updates of a live user, served one after another with the store answering, store exactly the merge of
      them all and touch no other document, although each one that changes nothing, or whose cache write
      fails, returns an error. */
  lemma {:induction false} SerialUpdatesStoreTheFold(w: World, id: ObjectId, changes: seq<ProtoUser>, env: nat -> Env)
    requires Indexed(w.db) && Live(w.db, id) && AllFor(id, changes, env)
    ensures var db := ServeAll(w, changes, env).db;
            Live(db, id) && db.docs == w.db.docs[id := MergeAll(w.db.docs[id], changes)]
  {
    if changes == [] {
      assert w.db.docs == w.db.docs[id := w.db.docs[id]];
    } else {
      var n := |changes| - 1;
      var before := ServeAll(w, changes[..n], env);
      SerialUpdatesStoreTheFold(w, id, changes[..n], env);
      ServeAllLast(w, changes, env);
      MergeAllKeepsIdentity(w.db.docs[id], changes[..n]);
      OneMoreMerges(w, before, id, MergeAll(w.db.docs[id], changes[..n]), changes[n], env(n));
    }
  }

  /** An update that reaches the store is an error there exactly when it changes nothing. */
  lemma UnchangedIsError(db: Db, id: ObjectId, change: ProtoUser, env: Env)
    requires Indexed(db) && Live(db, id) && FromHex(change.userId) == Some(id) && Answered(env)
    ensures StorageSpec.UpdateUser(db, Some(change), env).1.Err? <==> Merge(db.docs[id], change) == db.docs[id]
  {
    assert change.userId != "";
  }
}
