/** The users collection: what a find, an insert and a guarded update do.  Beside the documents and their
    listing order it records, for the proofs only, every version each document has had and the
    registration it came from. */
module Database {
  import opened Results
  import opened ObjectIds
  import opened Models

  datatype Db = Db(
    docs: map<ObjectId, Document>,
    order: seq<ObjectId>,
    versions: map<ObjectId, seq<Document>>,
    born: map<ObjectId, CreateRequest>)

  const EMPTY: Db := Db(map[], [], map[], map[])

  predicate Live(db: Db, id: ObjectId) {
    id in db.docs && !db.docs[id].deleted
  }

  /** `FindOne({_id: id, deleted: false})` */
  function FindLive(db: Db, id: ObjectId): Option<Document> {
    if Live(db, id) then Some(db.docs[id]) else None
  }

  /** `Find({deleted: false})`, in listing order. */
  function LiveListing(docs: map<ObjectId, Document>, order: seq<ObjectId>): seq<Document> {
    if order == [] then []
    else
      var rest := LiveListing(docs, order[1..]);
      if order[0] in docs && !docs[order[0]].deleted then [docs[order[0]]] + rest else rest
  }

  lemma {:induction false} LiveListingHas(docs: map<ObjectId, Document>, order: seq<ObjectId>, d: Document)
    ensures d in LiveListing(docs, order)
            <==> !d.deleted && exists id :: id in order && id in docs && docs[id] == d
  {
    if order != [] {
      LiveListingHas(docs, order[1..], d);
      if !d.deleted && exists id :: id in order && id in docs && docs[id] == d {
        var id :| id in order && id in docs && docs[id] == d;
        assert id == order[0] || id in order[1..];
      }
    }
  }

  /** The listing follows the order: what comes first there comes first here, and it has each live document
      of the order and no other. */
  lemma {:induction false} ListingFollowsOrder(docs: map<ObjectId, Document>, a: seq<ObjectId>, b: seq<ObjectId>)
    ensures LiveListing(docs, a + b) == LiveListing(docs, a) + LiveListing(docs, b)
    ensures forall id :: LiveListing(docs, [id]) == if id in docs && !docs[id].deleted then [docs[id]] else []
  {
    if a == [] {
      assert a + b == b;
    } else {
      ListingFollowsOrder(docs, a[1..], b);
      assert (a + b)[1..] == a[1..] + b;
    }
  }

  datatype Field = Email | Username

  predicate FieldIs(d: Document, field: Field, value: string) {
    (if field.Email? then d.email else d.username) == value
  }

  function FirstWith(ds: seq<Document>, field: Field, value: string): Option<Document> {
    if ds == [] then None
    else if FieldIs(ds[0], field, value) then Some(ds[0])
    else FirstWith(ds[1..], field, value)
  }

  lemma {:induction false} FirstWithFinds(ds: seq<Document>, field: Field, value: string)
    ensures var r := FirstWith(ds, field, value);
            && (r.Some? ==> r.value in ds && FieldIs(r.value, field, value))
            && (r.None? ==> forall d :: d in ds ==> !FieldIs(d, field, value))
  {
    if ds != [] {
      FirstWithFinds(ds[1..], field, value);
    }
  }

  /** `FindOne({field: value, deleted: false})`: the first such document of the listing. */
  function FindLiveBy(db: Db, field: Field, value: string): Option<Document> {
    FirstWith(LiveListing(db.docs, db.order), field, value)
  }

  lemma FindLiveByFinds(db: Db, field: Field, value: string)
    requires Indexed(db)
    ensures var r := FindLiveBy(db, field, value);
            && (r.Some? ==>
                  && r.value.id in db.docs && db.docs[r.value.id] == r.value && !r.value.deleted
                  && (field.Email? ==> r.value.email == value) && (field.Username? ==> r.value.username == value))
            && (r.None? ==> forall id :: id in db.order && id in db.docs && !db.docs[id].deleted ==>
                  && (field.Email? ==> db.docs[id].email != value)
                  && (field.Username? ==> db.docs[id].username != value))
  {
    var listing := LiveListing(db.docs, db.order);
    FirstWithFinds(listing, field, value);
    var r := FindLiveBy(db, field, value);
    if r.Some? {
      LiveListingHas(db.docs, db.order, r.value);
    } else {
      forall id | id in db.order && id in db.docs && !db.docs[id].deleted
        ensures !FieldIs(db.docs[id], field, value)
      {
        LiveListingHas(db.docs, db.order, db.docs[id]);
      }
    }
  }

  function Insert(db: Db, doc: Document, data: CreateRequest): Db {
    Db(db.docs[doc.id := doc], db.order + [doc.id],
       db.versions[doc.id := [doc]], db.born[doc.id := data])
  }

  /** Puts `doc` in the place of the document with its id; an equal document is no new version. */
  function Replace(db: Db, doc: Document): Db
    requires doc.id in db.docs && doc.id in db.versions
  {
    if db.docs[doc.id] == doc then db
    else db.(docs := db.docs[doc.id := doc],
             versions := db.versions[doc.id := db.versions[doc.id] + [doc]])
  }

  /** The update documents the service sends.  `BareDeleted` has a field name where the driver wants an
      operator. */
  datatype UpdateDoc = SetDocument(doc: Document) | SetDeleted | BareDeleted

  predicate HasOperator(u: UpdateDoc) {
    !u.BareDeleted?
  }

  /** The document that `u` makes of `d`. */
  function Applied(d: Document, u: UpdateDoc): Document
    requires HasOperator(u)
  {
    if u.SetDocument? then u.doc.(id := d.id) else d.(deleted := true)
  }

  /** Every document is under its own id and has its versions and its registration. */
  ghost predicate Indexed(db: Db) {
    && db.versions.Keys == db.docs.Keys == db.born.Keys
    && (forall id :: id in db.docs ==> db.docs[id].id == id)
  }

  lemma InsertIndexed(db: Db, doc: Document, data: CreateRequest)
    requires Indexed(db) && doc.id !in db.docs
    ensures Indexed(Insert(db, doc, data))
  {
  }

  lemma ReplaceIndexed(db: Db, doc: Document)
    requires Indexed(db) && doc.id in db.docs
    ensures Indexed(Replace(db, doc))
    ensures Replace(db, doc).docs.Keys == db.docs.Keys && Replace(db, doc).docs[doc.id] == doc
  {
  }

  /** The listing order names every document once. */
  ghost predicate Listed(keys: set<ObjectId>, order: seq<ObjectId>) {
    && (forall i :: 0 <= i < |order| ==> order[i] in keys)
    && (forall id :: id in keys ==> id in order)
    && (forall i, j :: 0 <= i < j < |order| ==> order[i] != order[j])
  }

  lemma ListedMore(keys: set<ObjectId>, order: seq<ObjectId>, id: ObjectId)
    requires Listed(keys, order) && id !in keys
    ensures Listed(keys + {id}, order + [id])
  {
    assert (order + [id])[|order|] == id;
    forall k | k in keys + {id} ensures k in order + [id] {
    }
  }

  /** The collection object.  The last parameter of each call says whether the server answered it; a call
      that fails has changed nothing. */
  class UsersCollection {
    var docs: map<ObjectId, Document>
    var order: seq<ObjectId>
    ghost var versions: map<ObjectId, seq<Document>>
    ghost var born: map<ObjectId, CreateRequest>

    ghost function Contents(): Db
      reads this
    {
      Db(docs, order, versions, born)
    }

    ghost predicate Valid()
      reads this
    {
      Indexed(Contents()) && Listed(docs.Keys, order)
    }

    constructor ()
      ensures Valid() && Contents() == EMPTY
    {
      docs, order, versions, born := map[], [], map[], map[];
    }

    /** An id that is taken is a duplicate-key error. */
    method InsertOne(doc: Document, ghost data: CreateRequest, answered: bool) returns (ok: bool)
      requires Valid()
      modifies this
      ensures Valid()
      ensures ok == (answered && doc.id !in old(docs))
      ensures Contents() == if ok then Insert(old(Contents()), doc, data) else old(Contents())
    {
      ok := answered && doc.id !in docs;
      if ok {
        ListedMore(docs.Keys, order, doc.id);
        assert docs[doc.id := doc].Keys == docs.Keys + {doc.id};
        docs, order := docs[doc.id := doc], order + [doc.id];
        versions, born := versions[doc.id := [doc]], born[doc.id := data];
      }
    }

    method FindOne(id: ObjectId, liveOnly: bool) returns (r: Option<Document>)
      requires Valid()
      ensures liveOnly ==> r == FindLive(Contents(), id)
      ensures !liveOnly ==> r == if id in docs then Some(docs[id]) else None
      ensures r.Some? ==> r.value.id == id
    {
      r := if id in docs && !(liveOnly && docs[id].deleted) then Some(docs[id]) else None;
    }

    method FindOneBy(field: Field, value: string) returns (r: Option<Document>)
      requires Valid()
      ensures r == FindLiveBy(Contents(), field, value)
    {
      r := FirstWith(LiveListing(docs, order), field, value);
    }

    /** Nothing without an operator is sent.  `modified` is the driver's `ModifiedCount`. */
    method UpdateOne(id: ObjectId, liveOnly: bool, update: UpdateDoc, answered: bool)
      returns (ok: bool, modified: nat)
      requires Valid()
      modifies this
      ensures Valid()
      ensures ok == (HasOperator(update) && answered)
      ensures !(ok && id in old(docs) && !(liveOnly && old(docs)[id].deleted))
              ==> Contents() == old(Contents()) && modified == 0
      ensures ok && id in old(docs) && !(liveOnly && old(docs)[id].deleted)
              ==> Contents() == Replace(old(Contents()), Applied(old(docs)[id], update))
                  && modified == if Applied(old(docs)[id], update) == old(docs)[id] then 0 else 1
    {
      ok, modified := !update.BareDeleted? && answered, 0;
      if ok && id in docs && !(liveOnly && docs[id].deleted) {
        var doc := if update.SetDocument? then update.doc.(id := id) else docs[id].(deleted := true);
        if doc != docs[id] {
          assert docs[id := doc].Keys == docs.Keys;
          docs := docs[id := doc];
          versions := versions[id := versions[id] + [doc]];
          modified := 1;
        }
      }
    }
  }
}
