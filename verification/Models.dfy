/** The user in its three forms: stored document, request, and reply. */
module Models {
  import opened Results
  import opened ObjectIds

  datatype Profile = Profile(name: string, address: string)

  /** The stored form. */
  datatype Document = Document(
    id: ObjectId, username: string, email: string, password: string, profile: Profile, deleted: bool)

  /** The form that replies carry and the cache holds. */
  datatype ProtoUser = ProtoUser(
    userId: string, username: string, email: string, password: string, profile: Profile, deleted: bool)

  datatype CreateRequest = CreateRequest(
    username: string, email: string, password: string, profile: Profile, deleted: bool)

  function ToProtoUser(d: Document): ProtoUser {
    ProtoUser(Hex(d.id), d.username, d.email, d.password, d.profile, d.deleted)
  }

  function ToCreateRequest(d: Document): CreateRequest {
    CreateRequest(d.username, d.email, d.password, d.profile, d.deleted)
  }

  function FromCreate(id: ObjectId, data: CreateRequest): Document {
    Document(id, data.username, data.email, data.password, data.profile, data.deleted)
  }

  function Override(before: string, after: string): string {
    if |after| > 0 then after else before
  }

  /** What an update makes of a document: the non-empty ones of four fields replace the old values. */
  function Merge(d: Document, change: ProtoUser): (r: Document)
    ensures r.id == d.id && r.password == d.password && r.deleted == d.deleted
  {
    d.(email := Override(d.email, change.email),
       username := Override(d.username, change.username),
       profile := Profile(Override(d.profile.name, change.profile.name),
                          Override(d.profile.address, change.profile.address)))
  }

  /** The user carries a document, field by field. */
  predicate Shows(u: ProtoUser, d: Document) {
    && u.userId == Hex(d.id)
    && u.username == d.username
    && u.email == d.email
    && u.password == d.password
    && u.profile.name == d.profile.name
    && u.profile.address == d.profile.address
    && u.deleted == d.deleted
  }

  /** The reply form of a document is the one user that carries it: the deletion mark and the password hash
      too, and the id printed. */
  lemma ReplyFormShows(u: ProtoUser, d: Document)
    ensures u == ToProtoUser(d) <==> Shows(u, d)
  {
  }

  /** No two documents share a reply form. */
  lemma ToProtoUserInjective(a: Document, b: Document)
    requires ToProtoUser(a) == ToProtoUser(b)
    ensures a == b
  {
    ReplyFormShows(ToProtoUser(a), b);
    assert FromHex(Hex(a.id)) == FromHex(Hex(b.id));
  }

  /** A request made from a user carries that user's fields: registering it gives the user back under the new
      id, and an update with it gives each of the four fields that is not empty and keeps the document's own
      value of each that is, and everything else. */
  lemma RequestsCarryTheirFields(d: Document, id: ObjectId, before: Document)
    ensures FromCreate(id, ToCreateRequest(d)) == d.(id := id)
    ensures FromHex(ToProtoUser(d).userId) == Some(d.id)
    ensures var r := Merge(before, ToProtoUser(d));
            && r.email == (if d.email == "" then before.email else d.email)
            && r.username == (if d.username == "" then before.username else d.username)
            && r.profile.name == (if d.profile.name == "" then before.profile.name else d.profile.name)
            && r.profile.address == (if d.profile.address == "" then before.profile.address else d.profile.address)
            && r == before.(email := r.email, username := r.username, profile := r.profile)
  {
  }

  /** The mutable record that storage decodes a document into. */
  class User {
    var id: ObjectId
    var username: string
    var email: string
    var password: string
    var profile: Profile
    var deleted: bool

    function Value(): Document
      reads this
    {
      Document(id, username, email, password, profile, deleted)
    }

    constructor (d: Document)
      ensures Value() == d
    {
      id, username, email := d.id, d.username, d.email;
      password, profile, deleted := d.password, d.profile, d.deleted;
    }

    method Update(obj: ProtoUser)
      modifies this
      ensures Value() == Merge(old(Value()), obj)
    {
      if |obj.email| > 0 {
        email := obj.email;
      }
      if |obj.username| > 0 {
        username := obj.username;
      }
      if |obj.profile.name| > 0 {
        profile := profile.(name := obj.profile.name);
      }
      if |obj.profile.address| > 0 {
        profile := profile.(address := obj.profile.address);
      }
    }

    method FromProto(data: CreateRequest)
      modifies this
      ensures Value() == FromCreate(old(id), data)
    {
      email := data.email;
      password := data.password;
      username := data.username;
      deleted := data.deleted;
      profile := Profile(data.profile.name, data.profile.address);
    }
  }
}
