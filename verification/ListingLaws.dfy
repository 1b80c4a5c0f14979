/** What the listing calls promise: pages that partition the live users, and addresses that do. */
module ListingLaws {
  import opened Results
  import opened ObjectIds
  import opened Models
  import Database
  import StorageSpec
  import opened Listing
  import H = History
  import P = Protocol

  lemma WrapTimes(a: int, b: int)
    ensures Wrap(Wrap(a) * b) == Wrap(a * b)
  {
    var k := (a - Wrap(a)) / 0x1_0000_0000;
    assert a == Wrap(a) + k * 0x1_0000_0000;
    calc {
      a * b;
      (Wrap(a) + k * 0x1_0000_0000) * b;
      Wrap(a) * b + (k * b) * 0x1_0000_0000;
    }
    SameLow(Wrap(a) * b, k * b);
  }

  lemma SameLow(x: int, k: int)
    ensures Wrap(x + k * 0x1_0000_0000) == Wrap(x)
  {
    assert (x + k * 0x1_0000_0000) % 0x1_0000_0000 == x % 0x1_0000_0000;
  }

  // ---- What a listing gives ----

  /** The skip is what 32 bits keep of the product. */
  lemma SkipExactly(p: int32, limit: int32)
    ensures (Skip(p, limit) - (p - 1) * limit) % 0x1_0000_0000 == 0
  {
    WrapTimes(p - 1, limit);
    WrapDiffers((p - 1) * limit);
  }

  lemma WrapDiffers(x: int)
    ensures (Wrap(x) - x) % 0x1_0000_0000 == 0
  {
    var q := x / 0x1_0000_0000;
    assert x == q * 0x1_0000_0000 + x % 0x1_0000_0000;
    assert Wrap(x) - x == -q * 0x1_0000_0000 || Wrap(x) - x == (-q - 1) * 0x1_0000_0000;
  }

  /** How many of `n` documents are left after a skip and within a limit; 0 is no limit, and a negative one
      counts as if it were positive. */
  function Remaining(n: nat, skip: nat, limit: int): nat {
    var rest := if skip >= n then 0 else n - skip;
    if limit > 0 && limit < rest then limit
    else if limit < 0 && -limit < rest then -limit
    else rest
  }

  lemma CutAnswer(ds: seq<Document>, skip: int, limit: int)
    ensures var r := Cut(ds, skip, limit);
            && (r.Err? <==> skip < 0)
            && (r.Err? ==> r.error == StorageSpec.StoreError)
            && (r.Ok? ==> && |r.value| == Remaining(|ds|, skip, limit)
                          && forall i :: 0 <= i < |r.value| ==> r.value[i] == ds[skip + i])
  {
    if skip >= 0 {
      var rest := if skip <= |ds| then ds[skip..] else [];
      assert forall i :: 0 <= i < |rest| ==> rest[i] == ds[skip + i];
    }
  }

  /** For any page number and any limit: an error exactly if the skip is negative, and otherwise the
      documents from the skip on, as many as there are within the limit. */
  lemma PageAnswer(ds: seq<Document>, p: int32, limit: int32)
    ensures var skip, r := Skip(p, limit), Page(ds, p, limit);
            && (r.Err? <==> skip < 0)
            && (r.Err? ==> r.error == StorageSpec.StoreError)
            && (r.Ok? ==> && |r.value| == Remaining(|ds|, skip, limit)
                          && forall i :: 0 <= i < |r.value| ==> r.value[i] == ds[skip + i])
  {
    CutAnswer(ds, Skip(p, limit), limit);
  }

  /** Without a limit every page is the whole listing. */
  lemma NoLimitGivesAll(ds: seq<Document>, p: int32)
    ensures Page(ds, p, 0) == Ok(ds)
  {
    PageAnswer(ds, p, 0);
  }

  /** With a positive limit, page 0 and the pages before it are errors, as long as their skip fits 32 bits. */
  lemma PagesBeforeTheFirst(ds: seq<Document>, p: int32, limit: int32)
    requires p <= 0 && limit > 0 && (p - 1) * limit >= -0x8000_0000
    ensures Page(ds, p, limit) == Err(StorageSpec.StoreError)
  {
    WrapTimes(p - 1, limit);
    Monotone(p - 1, -1, limit);
    assert Skip(p, limit) == (p - 1) * limit;
    PageAnswer(ds, p, limit);
  }

  /** A negative limit turns the pages round: page `p` is page `2 - p` with the limit made positive. */
  lemma NegativeLimitMirrors(ds: seq<Document>, p: int32, limit: int32)
    requires limit > 0 && 2 - p < 0x8000_0000
    ensures Page(ds, p, -limit) == Page(ds, 2 - p, limit)
  {
    WrapTimes(p - 1, -limit);
    WrapTimes(1 - p, limit);
    assert (p - 1) * -limit == (1 - p) * limit;
  }

  /** The users carry the documents, one by one and in order, and none of them is marked deleted. */
  ghost predicate ShowAll(us: seq<ProtoUser>, ds: seq<Document>) {
    |us| == |ds| && forall i :: 0 <= i < |ds| ==> Shows(us[i], ds[i]) && !us[i].deleted
  }

  lemma RepliesShowAll(ds: seq<Document>)
    requires forall d :: d in ds ==> !d.deleted
    ensures ShowAll(ToProtoUsers(ds), ds)
  {
    forall i | 0 <= i < |ds| ensures Shows(ToProtoUsers(ds)[i], ds[i]) && !ToProtoUsers(ds)[i].deleted {
      assert ds[i] in ds;
      ReplyFormShows(ToProtoUser(ds[i]), ds[i]);
    }
  }

  lemma ListedAreLive(db: Database.Db)
    ensures forall d :: d in LiveUsers(db) ==> !d.deleted
  {
    forall d | d in LiveUsers(db) ensures !d.deleted {
      Database.LiveListingHas(db.docs, db.order, d);
    }
  }

  /** The users of a page carry the live documents from the skip on. */
  lemma PageShows(db: Database.Db, p: int32, limit: int32)
    requires Page(LiveUsers(db), p, limit).Ok?
    ensures var skip, live := Wrap((p - 1) * limit), LiveUsers(db);
            var us := ToProtoUsers(Page(live, p, limit).value);
            && skip >= 0 && |us| == Remaining(|live|, skip, limit)
            && forall i :: 0 <= i < |us| ==> Shows(us[i], live[skip + i]) && !us[i].deleted
  {
    var ds := Page(LiveUsers(db), p, limit).value;
    WrapTimes(p - 1, limit);
    PageAnswer(LiveUsers(db), p, limit);
    ListedAreLive(db);
    assert forall d :: d in ds ==> !d.deleted;
    RepliesShowAll(ds);
  }

  /** The lookup by address keeps the order of the listing, and has each document with the address. */
  lemma {:induction false} ByAddressFollowsListing(a: seq<Document>, b: seq<Document>, address: string)
    ensures ByAddress(a + b, address) == ByAddress(a, address) + ByAddress(b, address)
  {
    if a == [] {
      assert a + b == b;
    } else {
      ByAddressFollowsListing(a[1..], b, address);
      assert a + b == [a[0]] + (a[1..] + b);
      OneByAddress(a[0], a[1..] + b, address);
      OneByAddress(a[0], a[1..], address);
      assert a == [a[0]] + a[1..];
      var one := if a[0].profile.address == address then [a[0]] else [];
      assert one + (ByAddress(a[1..], address) + ByAddress(b, address))
             == (one + ByAddress(a[1..], address)) + ByAddress(b, address);
    }
  }

  lemma OneByAddress(d: Document, ds: seq<Document>, address: string)
    ensures ByAddress([d] + ds, address) == (if d.profile.address == address then [d] else []) + ByAddress(ds, address)
  {
    assert ([d] + ds)[1..] == ds;
  }

  lemma FoundByAddress(ds: seq<Document>, address: string)
    ensures forall d :: d in ByAddress(ds, address) <==> d in ds && d.profile.address == address
  {
    forall d ensures d in ByAddress(ds, address) <==> d in ds && d.profile.address == address {
      ByAddressCounts(ds, address, d);
      assert d in ByAddress(ds, address) <==> multiset(ByAddress(ds, address))[d] > 0;
      assert d in ds <==> multiset(ds)[d] > 0;
    }
  }

  // ---- Pages ----

  /** The documents of page `p`, counted without wrapping. */
  function Slice(ds: seq<Document>, p: nat, limit: nat): seq<Document>
    requires p > 0 && limit > 0
  {
    var from, to := (p - 1) * limit, p * limit;
    if from >= |ds| then [] else if to >= |ds| then ds[from..] else ds[from..to]
  }

  lemma CutIsSlice(ds: seq<Document>, p: nat, limit: nat)
    requires p > 0 && limit > 0
    ensures Cut(ds, (p - 1) * limit, limit) == Ok(Slice(ds, p, limit))
  {
    var from, to := (p - 1) * limit, p * limit;
    assert to == from + limit;
    if to < |ds| {
      assert ds[from..][..limit] == ds[from..to];
    }
  }

  lemma CutPastNothing(ds: seq<Document>, skip: int32, limit: int)
    requires limit > 0
    ensures Cut(ds, skip, limit) == Ok([]) <==> skip >= |ds|
  {
    if 0 <= skip < |ds| {
      assert Cut(ds, skip, limit).value != [];
    }
  }

  /** A page is right exactly when its skip fits 32 bits, or what the bits keep of it is past the end
      anyway. */
  lemma PageExactly(ds: seq<Document>, p: int32, limit: int32)
    requires p > 0 && limit > 0 && |ds| <= 0x8000_0000
    ensures Page(ds, p, limit) == Ok(Slice(ds, p, limit))
            <==> (p - 1) * limit < 0x8000_0000 || Skip(p, limit) >= |ds|
  {
    var from := (p - 1) * limit;
    WrapTimes(p - 1, limit);
    if from < 0x8000_0000 {
      assert Skip(p, limit) == from;
      CutIsSlice(ds, p, limit);
    } else {
      assert Slice(ds, p, limit) == [];
      CutPastNothing(ds, Skip(p, limit), limit);
    }
  }

  /** The pages up to `n`, one after another. */
  function Pages(ds: seq<Document>, n: nat, limit: nat): seq<Document>
    requires limit > 0
  {
    if n == 0 then [] else Pages(ds, n - 1, limit) + Slice(ds, n, limit)
  }

  lemma {:induction false} PagesArePrefix(ds: seq<Document>, n: nat, limit: nat)
    requires limit > 0
    ensures Pages(ds, n, limit) == if n * limit >= |ds| then ds else ds[..n * limit]
  {
    if n > 0 {
      PagesArePrefix(ds, n - 1, limit);
      assert n * limit == (n - 1) * limit + limit;
    }
  }

  /** For any positive limit, the pages that are needed for all live users are each what they should be, so
      none of their skips wraps; together, in order, they are exactly the live users; and every later page
      is empty as long as its skip fits 32 bits.  That a needed page has a number a caller can send is
      `LastPageCanBeAskedExactly`. */
  lemma {:induction false} PagesPartitionTheListing(ds: seq<Document>, limit: int32, last: nat)
    requires limit > 0 && |ds| <= 0x8000_0000
    requires last * limit >= |ds| && (last > 0 ==> (last - 1) * limit < |ds|)
    ensures Pages(ds, last, limit) == ds
    ensures forall p: int32 :: 0 < p <= last ==>
              Page(ds, p, limit) == Ok(Slice(ds, p, limit)) && Skip(p, limit) == (p - 1) * limit
    ensures forall p: int32 :: p > last && (p - 1) * limit < 0x8000_0000 ==> Page(ds, p, limit) == Ok([])
  {
    PagesArePrefix(ds, last, limit);
    forall p: int32 | 0 < p <= last
      ensures Page(ds, p, limit) == Ok(Slice(ds, p, limit)) && Skip(p, limit) == (p - 1) * limit
    {
      NeededPage(ds, p, limit, last);
    }
    forall p: int32 | p > last && (p - 1) * limit < 0x8000_0000 ensures Page(ds, p, limit) == Ok([]) {
      Monotone(last, p - 1, limit);
      PageExactly(ds, p, limit);
    }
  }

  /** The number of the last needed page is one that a caller can send, except in one case: limit 1 and 2^31
      live users, the last of whom no page with a positive number has. */
  lemma LastPageCanBeAskedExactly(ds: seq<Document>, limit: int32, last: nat)
    requires limit > 0 && |ds| <= 0x8000_0000
    requires last * limit >= |ds| && (last > 0 ==> (last - 1) * limit < |ds|)
    ensures last < 0x8000_0000 <==> !(limit == 1 && |ds| == 0x8000_0000)
  {
    if limit > 1 && last > 0 {
      Scaled(last - 1, 2, limit);
    }
  }

  lemma Scaled(a: nat, b: nat, c: nat)
    requires b <= c
    ensures a * b <= a * c
  {
  }

  lemma NeededPage(ds: seq<Document>, p: int32, limit: int32, last: nat)
    requires limit > 0 && |ds| <= 0x8000_0000 && 0 < p <= last && (last - 1) * limit < |ds|
    ensures Page(ds, p, limit) == Ok(Slice(ds, p, limit)) && Skip(p, limit) == (p - 1) * limit
  {
    Monotone(p - 1, last - 1, limit);
    WrapTimes(p - 1, limit);
    PageExactly(ds, p, limit);
  }

  lemma Monotone(a: int, b: int, c: nat)
    requires a <= b
    ensures a * c <= b * c
  {
  }

  /** Beyond 32 bits a page can come back as an earlier one: with a limit of 2^16, page 2^16 + 1 is the
      first page again. */
  lemma LatePageRepeatsTheFirst(ds: seq<Document>)
    ensures Skip(0x1_0001, 0x1_0000) == 0
    ensures Page(ds, 0x1_0001, 0x1_0000) == Page(ds, 1, 0x1_0000)
  {
  }

  // ---- Addresses ----

  function ByAddresses(ds: seq<Document>, addresses: seq<string>): seq<Document> {
    if addresses == [] then [] else ByAddress(ds, addresses[0]) + ByAddresses(ds, addresses[1..])
  }

  /** A document is found under its own address, as often as it is listed, and under no other. */
  lemma {:induction false} ByAddressCounts(ds: seq<Document>, address: string, d: Document)
    ensures multiset(ByAddress(ds, address))[d] == if d.profile.address == address then multiset(ds)[d] else 0
  {
    if ds != [] {
      ByAddressCounts(ds[1..], address, d);
      assert ds == [ds[0]] + ds[1..];
    }
  }

  lemma {:induction false} ByAddressesCounts(ds: seq<Document>, addresses: seq<string>, d: Document)
    requires forall i, j :: 0 <= i < j < |addresses| ==> addresses[i] != addresses[j]
    ensures multiset(ByAddresses(ds, addresses))[d] == if d.profile.address in addresses then multiset(ds)[d] else 0
  {
    if addresses != [] {
      ByAddressCounts(ds, addresses[0], d);
      ByAddressesCounts(ds, addresses[1..], d);
      assert addresses == [addresses[0]] + addresses[1..];
    }
  }

  /** The lookups by all the addresses that occur, each once, give together exactly the live users, as
      often as the listing has them, and no one else. */
  lemma {:induction false} AddressesPartitionTheListing(db: Database.Db, addresses: seq<string>)
    requires forall i, j :: 0 <= i < j < |addresses| ==> addresses[i] != addresses[j]
    requires forall d :: d in LiveUsers(db) ==> d.profile.address in addresses
    ensures multiset(ByAddresses(LiveUsers(db), addresses)) == multiset(LiveUsers(db))
  {
    var ds := LiveUsers(db);
    forall d ensures multiset(ByAddresses(ds, addresses))[d] == multiset(ds)[d] {
      ByAddressesCounts(ds, addresses, d);
      if d !in ds {
        assert multiset(ds)[d] == 0;
      }
    }
  }

  /** The lookups by two addresses share no user. */
  lemma AddressesAreDisjoint(ds: seq<Document>, a: string, b: string)
    requires a != b
    ensures multiset(ByAddress(ds, a)) !! multiset(ByAddress(ds, b))
  {
    forall d ensures !(d in multiset(ByAddress(ds, a)) && d in multiset(ByAddress(ds, b))) {
      ByAddressCounts(ds, a, d);
      ByAddressCounts(ds, b, d);
    }
  }

  /** The listing has every live user once and no deleted one. */
  lemma {:induction false} ListingHasEachOnce(docs: map<ObjectId, Document>, order: seq<ObjectId>, id: ObjectId)
    requires (forall i :: 0 <= i < |order| ==> order[i] in docs && docs[order[i]].id == order[i])
    requires (forall i, j :: 0 <= i < j < |order| ==> order[i] != order[j])
    requires id in docs && docs[id].id == id
    ensures multiset(Database.LiveListing(docs, order))[docs[id]] == if id in order && !docs[id].deleted then 1 else 0
  {
    if order != [] {
      ListingHasEachOnce(docs, order[1..], id);
      assert order == [order[0]] + order[1..];
    }
  }

  /** After any run, the listing has every live user exactly once, and no deleted user. */
  lemma LiveUsersAreListedOnce(cfg: StorageSpec.Settings, events: seq<P.Event>, id: ObjectId)
    requires P.Valid(P.Initial(cfg), events) && id in P.Run(P.Initial(cfg), events).world.db.docs
    ensures var db := P.Run(P.Initial(cfg), events).world.db;
            multiset(LiveUsers(db))[db.docs[id]] == if db.docs[id].deleted then 0 else 1
  {
    H.IdentityIsKept(cfg, events, id);
    ListingHasEachOnce(P.Run(P.Initial(cfg), events).world.db.docs,
                       P.Run(P.Initial(cfg), events).world.db.order, id);
  }
}
