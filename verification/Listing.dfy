/** Listing users: pages under the arithmetic of 32-bit integers, and lookup by address. */
module Listing {
  import opened Results
  import opened Models
  import Database
  import StorageSpec

  type int32 = x: int | -0x8000_0000 <= x < 0x8000_0000

  /** The value that 32 bits keep of a number. */
  function Wrap(x: int): int32 {
    var low := x % 0x1_0000_0000;
    if low >= 0x8000_0000 then low - 0x1_0000_0000 else low
  }

  /** `(pagination - 1) * limit`, each operation wrapping. */
  function Skip(pagination: int32, limit: int32): int32 {
    Wrap(Wrap(pagination - 1) * limit)
  }

  function Abs(x: int): nat {
    if x < 0 then -x else x
  }

  /** What a find with a skip and a limit leaves of what it matches.  The server refuses a negative skip; a
      limit of 0 is none, and the driver takes a negative one for its absolute value. */
  function Cut(ds: seq<Document>, skip: int, limit: int): Result<seq<Document>, StorageSpec.Failure> {
    if skip < 0 then Err(StorageSpec.StoreError)
    else
      var rest := if skip <= |ds| then ds[skip..] else [];
      Ok(if limit == 0 || |rest| <= Abs(limit) then rest else rest[..Abs(limit)])
  }

  /** How the cursor of a find behaves: which of its documents do not decode, and whether it ends in an
      error. */
  datatype CursorEnv = CursorEnv(findOk: bool, undecodable: set<nat>, broken: bool)

  predicate Reads(env: CursorEnv, n: nat) {
    env.findOk && !env.broken && forall i :: 0 <= i < n ==> i !in env.undecodable
  }

  function ToProtoUsers(ds: seq<Document>): (r: seq<ProtoUser>)
    ensures |r| == |ds| && forall i :: 0 <= i < |ds| ==> r[i] == ToProtoUser(ds[i])
  {
    seq(|ds|, i requires 0 <= i < |ds| => ToProtoUser(ds[i]))
  }

  function LiveUsers(db: Database.Db): seq<Document> {
    Database.LiveListing(db.docs, db.order)
  }

  function ByAddress(ds: seq<Document>, address: string): seq<Document> {
    if ds == [] then []
    else (if ds[0].profile.address == address then [ds[0]] else []) + ByAddress(ds[1..], address)
  }

  /** What the code gives for page `p`. */
  function Page(ds: seq<Document>, p: int32, limit: int32): Result<seq<Document>, StorageSpec.Failure> {
    Cut(ds, Skip(p, limit), limit)
  }
}
