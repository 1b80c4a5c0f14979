# The USERS service: store, cache and queue consumers

A Dafny model of the USERS service of the smart-house repository, with proofs. The service keeps users in a
Mongo collection with soft deletes, puts a Redis cache over it, and is driven by three queue consumers
(registrations, updates, deletions) beside direct gRPC calls. Each call is a short sequence of store and cache
operations, any of which can fail, and sequences of different requests interleave.

The model has these layers, each tied to the next.

* **Objects.** `UsersCollection`, `RedisService`, `UserStorage`, `UserService`, `DeliveryChannel` and `Broker`
  are classes whose methods make the calls the Go methods make, in the same order and with the same early
  returns. Their contracts give the whole new state as a function of the old one (`StorageSpec`,
  `ServiceSpec`, `Deliveries`).
* **Answers.** What each operation, request and queue message comes to is then said of the stored documents,
  field by field and with the first check that fails (`Answers`, `Replies`, `Effects`, `ListingLaws`).
* **Requests in steps.** `Protocol` is a step machine: any number of requests in flight, one store or Redis
  call a step, with entries expiring at any time. `Protocol.AloneIsWhole` shows that a request whose steps
  nothing interrupts is the sequential request of the first layer.
* **The system.** `Consumers` puts the three consumers, their channels, the shutdown signal and the wait group
  around that machine. Every run of the system is a run of the service (`Consumers.SystemRunIsServiceRun`),
  and one pass of the consumer loop is a run of the system (`WholeSystem.LoopPassIsARun`).

The theorems are about all runs: `History` (what never goes wrong), `Resurrection` (when a deleted user can
come back into the cache), `Staleness` (when a live user's entry can become wrong), `Serializability` and
`LostUpdate` (when a run is serial, and one that is not), `Completeness` and `Outcomes` (that the serial order
agrees with every reply and every settled message), `Coherence` (which entries are right after whole requests,
what breaks one, what repairs it), `Updates`, `ListingLaws`, `Shutdown`, `Accounting` and `WholeSystem`.

What the outside decides is a parameter. An `Env` has one field for each such point: whether the context is
done when it is checked, whether the store answers the read and the write, the new object id, whether the token
can be signed, and how the Redis calls end. A Redis write may be acknowledged, refused, or take effect although
the client gets an error. A store call that fails has changed nothing. A new id that is already taken is a
duplicate-key error, so nothing rests on ids being fresh. The password hash is an arbitrary function.

Some properties turn out to hold only under a condition; each is stated with that condition, both ways.

* `DeleteUserById` sends `bson.M{"deleted": true}` without `$set`
  (USERS/internal/storage/usersStorage.go:238-241), which the driver rejects, so as written every deletion is an
  error and no user is ever deleted. DEVICES/internal/storage/storage.go:79 has the operator. `Settings`
  carries a flag for it, and the theorems hold for both values; `History.DeleteExactly` and
  `History.AsWrittenNothingIsDeleted` are about the difference.
* Cache keys are the strings that callers send, while the store decodes them, and hex digits of either case
  decode. A deletion whose key has an upper-case digit deletes the user but leaves the cache entry
  (`Coherence.BreaksExactly`, `ObjectIds.CanonicalExactly`).
* `CreateUser` takes `Deleted` from the request, so a user registered as deleted is served from the cache and
  not from the store (`Coherence.BreaksExactly`).
* An update reads, merges and writes the whole document, so it can put back what another update has changed in
  between. A run is serial if and only if no update's write does that (`Serializability.SerializableExactly`);
  with one update consumer none can (`Serializability.EveryRunIsSerializable`), and two direct updates at once
  can (`LostUpdate.OverlappingUpdatesLose`).
* A login or an update that saw the store before the last change and writes the cache after it leaves the entry
  stale although every call succeeds; this can happen if and only if such a write is pending
  (`Staleness.StalenessExactly`).
* Pages wrap in 32-bit arithmetic (`ListingLaws.PageExactly`, `ListingLaws.LatePageRepeatsTheFirst`), and with
  limit 1 and 2^31 users the last page has no number (`ListingLaws.LastPageCanBeAskedExactly`).
* `numberOfServices` must be 3 (`Shutdown.ShutdownWorksExactly`).

## Model

| member | source | states |
|---|---|---|
| ObjectIds.Hex | USERS/vendor/go.mongodb.org/mongo-driver/bson/primitive/objectid.go:63-67 | Printing an id gives 24 digits from which decoding gets the id back, so two ids never share a cache key. |
| ObjectIds.HexDigitAt | USERS/vendor/go.mongodb.org/mongo-driver/bson/primitive/objectid.go:63-67 | Each printed digit is the one of its place value, most significant first, from 0 to f. |
| ObjectIds.CanonicalExactly | USERS/vendor/go.mongodb.org/mongo-driver/bson/primitive/objectid.go:80-92 | A string that decodes is the printed form of its id if and only if it has no upper-case hex digit. |
| ObjectIds.CaseIsIgnored | USERS/vendor/go.mongodb.org/mongo-driver/bson/primitive/objectid.go:80-92 | A string decodes as it does with its upper-case hex digits made lower-case. |
| Models.User.Update | USERS/internal/models/models.go:34-47 | The record becomes the merge of its old value and the request: four fields take the request's non-empty values; id, password and deletion mark stay. |
| Models.User.FromProto | USERS/internal/models/models.go:72-78 | The record takes all fields of a registration, its deletion mark included, and keeps its id. |
| Models.ReplyFormShows | USERS/internal/models/models.go:61-70 | The reply form is the one user that carries the document field by field: printed id, username, email, password hash, profile and deletion mark. |
| Models.ToProtoUserInjective | USERS/internal/models/models.go:61-70 | Different documents never have the same reply form. |
| Models.RequestsCarryTheirFields | USERS/internal/models/models.go:80-101 | Registering the request made from a user gives that user under the new id; an update made from a user gives, field by field, each of the four that is not empty and leaves all else. |
| Database.UsersCollection.UpdateOne | USERS/vendor/go.mongodb.org/mongo-driver/mongo/mongo.go:238-248 | An update document without an operator is refused and changes nothing; otherwise one matching document is changed, and the modified count is 0 exactly when none matches or nothing differs. |
| Database.FindLiveByFinds | USERS/internal/storage/usersStorage.go:90-108 | A lookup gives a live stored document whose email, or username, is the one asked for, and none only if no listed live document has it. |
| Database.ListingFollowsOrder | USERS/internal/storage/usersStorage.go:190-207 | The listing has each live document of the collection's order, in that order, and no other. |
| Cache.RedisService.StoreUserInRedis | USERS/internal/redisservice/redissvs.go:27-38 | The user is under its own id afterwards unless Redis refused; an error is reported unless it acknowledged. |
| Cache.RedisService.GetUserFromRedis | USERS/internal/redisservice/redissvs.go:40-56 | A miss is no error and no user; a failed read is an error and no user. |
| Cache.RedisService.DeleteUserFromRedis | USERS/internal/redisservice/redissvs.go:58-71 | Only the given key goes, unless Redis refused; an absent key is no error. |
| Cache.RedisService.Expire | USERS/internal/redisservice/redissvs.go:33 | The end of an entry's 24 hours, which nobody calls, takes that key and no other. |
| Storage.UserStorage.CreateUser | USERS/internal/storage/usersStorage.go:16-37 | Context check, then insertion; a success adds exactly one document, under the new id, with the registration's fields and the hashed password, and replies with it; a failure leaves the store as it was. |
| Storage.UserStorage.UpdateUser | USERS/internal/storage/usersStorage.go:40-75 | Read of the live document, merge, whole-document write guarded by `deleted: false`; an error with no change if any check or call fails, or if nothing differs. |
| Storage.UserStorage.GetByField | USERS/internal/storage/usersStorage.go:78-111 | A fresh record of the live document with the id or field value, or the error of the first check that fails. |
| Storage.UserStorage.GetUserBy | USERS/internal/storage/usersStorage.go:114-150 | A lookup by username or email succeeds if and only if some live user has that value, and replies with the first such document of the listing, field by field. |
| Storage.UserStorage.DeleteUserById | USERS/internal/storage/usersStorage.go:218-251 | Read without the deletion filter, then the deleting write in the form the settings say; the first failing step is the error and leaves the store as it was. |
| Storage.UserStorage.LoginUser | USERS/internal/storage/usersStorage.go:254-276 | The found user if the hash of the given password is the stored one and a token can be made, else the error of the first step that fails. |
| Storage.UserStorage.ReadCursor | USERS/internal/storage/usersStorage.go:199-212 | The loop gives the reply forms of all documents found, in order, if and only if each decodes and the cursor ends in no error. |
| Storage.UserStorage.GetAllUsers | USERS/internal/storage/usersStorage.go:183-215 | The users carry the live documents from the wrapped skip on, as many as the limit allows; without a limit, whatever the page, all of the live listing, exactly when find and cursor work. |
| Storage.UserStorage.GetUserByAddress | USERS/internal/storage/usersStorage.go:153-180 | The live users with the address, in listing order and each as its document is, or an error. |
| Service.UserService.RegisterUser | USERS/internal/service/service.go:30-43 | Store first, then cache; if only the cache write fails the reply is an error although the user is stored. |
| Service.UserService.LoginUser | USERS/internal/service/service.go:45-52 | A successful login caches the user and succeeds however that write ends; a failed one touches nothing. |
| Service.UserService.GetById | USERS/internal/service/service.go:54-63 | The cached user if Redis gives one, else the store's answer, also when Redis fails. |
| Service.UserService.UpdateUser | USERS/internal/service/service.go:75-88 | Store first, then cache with the merged user; an error of the store comes before any cache write. |
| Service.UserService.DeleteUserById | USERS/internal/service/service.go:95-107 | Store first, then removal of the raw key; if only the removal fails the reply is an error although the user is deleted. |
| Answers.RegistrationAnswer | USERS/internal/storage/usersStorage.go:16-37 | A registration succeeds if and only if the context is not done and the store takes the new id; the added document has each field of the request, the password hashed; otherwise the error is of the first check that fails. |
| Answers.ByIdAnswer | USERS/internal/storage/usersStorage.go:78-111 | A lookup by id succeeds if and only if the string names a live document and the calls work, and gives that document's fields; otherwise the first failing check. |
| Answers.ByUsernameAnswer | USERS/internal/storage/usersStorage.go:114-124 | The same for a username: the first live document of the listing that has it. |
| Answers.ByEmailAnswer | USERS/internal/storage/usersStorage.go:140-150 | The same for an email. |
| Answers.LoginAnswer | USERS/internal/storage/usersStorage.go:254-276 | A login is decided by the first live user with the email, and succeeds if and only if the password hashes as the stored one and a token is made; a wrong password is reported before a failing token. |
| Answers.UpdateAnswer | USERS/internal/storage/usersStorage.go:40-75 | An update succeeds if and only if it names a live user, gives some field a new value, and the calls work; then that document alone changes, each of four fields to the value given or else kept. |
| Answers.DeletionAnswer | USERS/internal/storage/usersStorage.go:218-251 | A deletion succeeds if and only if it names a stored document, deleted or not, with an operator and the calls working; then that document alone changes, and only in its mark. |
| Replies.RegisterReply | USERS/internal/service/service.go:30-43 | The reply is the new user if and only if the store took it and Redis acknowledged; document and cache entry have the request's fields. |
| Replies.UpdateReply | USERS/internal/service/service.go:75-88 | The same for an update: a stored change with a failed cache write is an error naming the key. |
| Replies.DeleteReply | USERS/internal/service/service.go:95-107 | The same for a deletion: the entry under the very string sent goes, unless Redis refuses. |
| Replies.LoginReply | USERS/internal/service/service.go:45-52 | A login's reply does not depend on its cache write; a failed login writes nothing. |
| Replies.GetReply | USERS/internal/service/service.go:54-63 | The cached user if Redis answers with one, else the live document's fields, else the first failing check. |
| Protocol.AloneIsWhole | USERS/internal/service/service.go:30-107 | The steps of any request, run with nothing between them, are the sequential request. |
| Protocol.EventTouches | USERS/internal/redisservice/redissvs.go:27-71 | Beside a step of a request only an expiry changes anything stored, and only its own entry; no event touches another request. |
| History.HistorySafety | USERS/internal/service/service.go:30-88 | In every reachable state every cache entry is under its own user's id and carries, field by field, a version the store has held, as does every user in a reply; a `GetById` reply is of the id asked. |
| History.DeletionIsFinal | USERS/internal/storage/usersStorage.go:45-75 | No run takes a stored document from deleted to live or removes it, also where an update read it before the deletion and writes after. |
| History.IdentityIsKept | USERS/internal/storage/usersStorage.go:16-37 | In every reachable state a document has the id it is stored under and the hash of its registration password, and its first version carries its registration field by field. |
| History.LoginExactly | USERS/internal/storage/usersStorage.go:254-276 | After any run, a live user who alone has an email logs in with it by exactly the passwords that hash as the registered one, if a token can be made, and gets the current document's fields. |
| History.UsernameExactly | USERS/internal/storage/usersStorage.go:114-124 | After any run, the live user who alone has a username is who a lookup by it gives. |
| History.DeleteExactly | USERS/internal/storage/usersStorage.go:218-251 | A deletion succeeds in the store if and only if its update has an operator, the id decodes and is stored, and both calls are answered; it then changes only the mark, and otherwise nothing. |
| History.AsWrittenNothingIsDeleted | USERS/internal/storage/usersStorage.go:238-241 | Without the operator no run ever changes a deletion mark. |
| Resurrection.NoResurrection | USERS/internal/service/service.go:95-107 | Once a deleted user's entry is gone and no request in flight holds a cache write for the user, the entry is absent from every state of every continuation. |
| Resurrection.ResurrectionExactly | USERS/internal/service/service.go:45-107 | The entry can come back in some continuation if and only if such a write is pending. |
| Staleness.NothingStaleComes | USERS/internal/service/service.go:45-88 | A right entry stays right in every continuation that leaves the document as it is, if no request in flight holds a cache write of another state of the user. |
| Staleness.StalenessExactly | USERS/internal/service/service.go:45-88 | It can become wrong in some such continuation if and only if some request in flight holds one. |
| Completeness.EveryRunIsComplete | USERS/internal/storage/usersStorage.go:40-251 | In every run of any requests each has at most one place in the order of the deciding calls, and has it once decided, reads answered by the cache apart; the verdict there fits what the request holds or replied: its user, success if only the cache write failed, no success otherwise. |
| Completeness.RunStaysComplete | USERS/internal/storage/usersStorage.go:40-251 | That order only grows, so an operation decided before another request begins comes before it. |
| Serializability.StepIsAtomicExactly | USERS/internal/storage/usersStorage.go:40-75 | For a request whose read document is still stored with its password, a store step either changes and decides nothing, or has the effect and the end of the whole operation run at that moment; only an update's write that overwrites a changed field has another end. |
| Serializability.SerializableExactly | USERS/internal/storage/usersStorage.go:40-251 | For every interleaving of any requests from anywhere, store and outcomes equal those of the operations one at a time in the order of their deciding calls if and only if no update's write overwrites a field, left empty in its request, that has changed since its read. |
| Serializability.EveryRunIsSerializable | USERS/internal/msgbroker/msgbroker.go:56-58 | So they do, with a complete record, whenever the updates come from one consumer. |
| Serializability.FaithfulAt | USERS/internal/storage/usersStorage.go:40-251 | At every place of that order the operation, run on the store left by those before it, has the success or failure and the user it had in the run. |
| Serializability.UpdateWriteExactly | USERS/internal/storage/usersStorage.go:53-74 | An update's write ends as the whole update run at that moment if and only if every field it leaves alone is as it was read, and then has the same effect. |
| LostUpdate.OverlappingUpdatesLose | USERS/internal/storage/usersStorage.go:61-65 | A run of the machine in which nothing fails: two clients update one user at once, both succeed, the first one's email is lost, and the run is not serial. |
| LostUpdate.EitherOrderKeepsBoth | USERS/internal/storage/usersStorage.go:61-65 | Either order of those two updates, run whole and succeeding, keeps both changes. |
| Coherence.TransparentExactly | USERS/internal/service/service.go:54-63 | `GetById` answers every key as the store alone would if and only if every cache entry is the store's answer for its key. |
| Coherence.TransparentAnswers | USERS/internal/service/service.go:54-63 | When it does, a `GetById` whose store works finds exactly the live users, each with its document's fields. |
| Coherence.EntryExactly | USERS/internal/service/service.go:30-107 | After an operation a key's entry is right if and only if the operation repairs it, or it was right and the operation does not break it, whatever other entries are wrong. |
| Coherence.OtherKeysStay | USERS/internal/service/service.go:30-107 | A request leaves every entry but that of the user it writes as right as it was. |
| Coherence.BreaksExactly | USERS/internal/service/service.go:30-107 | A whole request keeps that agreement if and only if it is none of: a cached registration marked deleted, an update with a refused cache write over an older entry, a deletion that leaves the entry; the damage is to that user only. |
| Coherence.RightExactly | USERS/internal/service/service.go:30-107 | After any run of whole requests and expiries a key's entry is right if and only if it was right at the start or some operation repaired it, and none since has broken it. |
| Coherence.TransparentAfterExactly | USERS/internal/service/service.go:54-63 | After any run `GetById` answers every key as the store alone if and only if this is so of every key. |
| Coherence.TransparencyIsKept | USERS/internal/service/service.go:30-107 | In runs of whole requests without breaking ones, the agreement holds throughout, whatever expires and whatever other cache calls fail. |
| Coherence.DamageIsConfined | USERS/internal/service/service.go:75-107 | An operation makes a right entry wrong if and only if it writes that very user and is one of the breaking kinds. |
| Coherence.UpdateRepairsExactly | USERS/internal/service/service.go:75-88 | An update of a user whose entry is wrong repairs it if and only if it changes the document and its cache write takes effect or the stale entry happens to be right again. |
| Coherence.DeleteRepairsExactly | USERS/internal/service/service.go:95-107 | A deletion does if and only if it reaches the store and removes the entry, by the printed id. |
| Coherence.LoginRepairsExactly | USERS/internal/service/service.go:45-52 | A login does if and only if it is that user's, succeeds, and its cache write takes effect. |
| Coherence.ExpiryRepairsExactly | USERS/internal/redisservice/redissvs.go:33 | An expiry does if and only if it is of that user's key. |
| Coherence.OthersRepairNothing | USERS/internal/service/service.go:30-107 | An operation that is no write, login or expiry of a user leaves the user's entry right or wrong as it was. |
| Coherence.RetriesChangeNothing | USERS/internal/storage/usersStorage.go:65-74 | An update that changes nothing is an error and leaves store and cache as they were, however often it is sent. |
| Coherence.RetryNeverRepairs | USERS/internal/service/service.go:75-88 | So after an update that reached the store and not the cache no retry changes anything; the entry is then right if and only if there is none or it is the merged user. |
| Updates.RunIsOneUpdate | USERS/internal/models/models.go:34-47 | Any run of updates is one update by a right-biased merge. |
| Updates.GroupingIsFree | USERS/internal/models/models.go:34-47 | However the run is cut in two, joining the merges of the parts gives the same merge. |
| Updates.FieldIsItsLastValue | USERS/internal/models/models.go:35-46 | Each of the four fields ends as the last non-empty value given to it. |
| Updates.SilentFieldStays | USERS/internal/models/models.go:35-46 | A field that no update gives a value keeps its original one. |
| Updates.SerialUpdatesStoreTheFold | USERS/internal/storage/usersStorage.go:53-74 | Serial updates of a live user store exactly that fold and touch no other document, although those that change nothing are errors. |
| Updates.UnchangedIsError | USERS/internal/storage/usersStorage.go:70-73 | An answered update of a live user is an error in the store if and only if it changes nothing. |
| ListingLaws.SkipExactly | USERS/internal/storage/usersStorage.go:184 | The skip is the 32-bit number that differs from (page - 1) times limit by a multiple of 2^32. |
| ListingLaws.PageAnswer | USERS/internal/storage/usersStorage.go:184-188 | For every page and limit: an error if and only if the skip is negative, else the documents from the skip on, up to the limit's absolute value, or all of them if it is 0. |
| ListingLaws.NoLimitGivesAll | USERS/internal/storage/usersStorage.go:184-188 | Without a limit every page is the whole live listing. |
| ListingLaws.PagesBeforeTheFirst | USERS/internal/storage/usersStorage.go:184-188 | With a positive limit a page number of 0 or less is an error while its skip fits 32 bits. |
| ListingLaws.NegativeLimitMirrors | USERS/internal/storage/usersStorage.go:184-188 | With a negative limit page p is page 2 - p of the positive one. |
| ListingLaws.PageExactly | USERS/internal/storage/usersStorage.go:184-188 | A page is the right slice if and only if its skip fits 32 bits or what they keep of it is past the end. |
| ListingLaws.PagesPartitionTheListing | USERS/internal/storage/usersStorage.go:183-215 | For a positive limit and at most 2^31 live users the needed pages concatenate to exactly the listing, each that has a 32-bit number is right and its skip does not wrap, and each later page is empty while its skip fits. |
| ListingLaws.LastPageCanBeAskedExactly | USERS/internal/storage/usersStorage.go:183-188 | All needed pages have a 32-bit number unless the limit is 1 and there are 2^31 live users. |
| ListingLaws.LatePageRepeatsTheFirst | USERS/internal/storage/usersStorage.go:184 | With a limit of 2^16, page 2^16 + 1 is page 1 again. |
| ListingLaws.ByAddressFollowsListing | USERS/internal/storage/usersStorage.go:153-180 | The lookup by address keeps the order of the listing. |
| ListingLaws.FoundByAddress | USERS/internal/storage/usersStorage.go:154 | It has exactly the listed documents with that address. |
| ListingLaws.AddressesPartitionTheListing | USERS/internal/storage/usersStorage.go:153-180 | The lookups by all addresses together have each user of the live listing as often as the listing has. |
| ListingLaws.AddressesAreDisjoint | USERS/internal/storage/usersStorage.go:154 | The lookups by two different addresses share no user. |
| ListingLaws.LiveUsersAreListedOnce | USERS/internal/storage/usersStorage.go:190-207 | After any run every live user is in the listing exactly once and no deleted user is. |
| Effects.RegistrationEffect | USERS/internal/msgbroker/msgbroker.go:80-89 | A registration message is stored if and only if it decodes and the calls work; the one new document has the message's fields with the password hashed, and so has the cache entry; it is acked if and only if stored and Redis acknowledged. |
| Effects.UpdateEffect | USERS/internal/msgbroker/msgbroker.go:90-99 | An update message changes the live document with its id: each of four fields becomes the message's non-empty value or stays; acked as above, nacked without effect if it brings nothing new. |
| Effects.DeletionEffect | USERS/internal/msgbroker/msgbroker.go:100-109 | A deletion message marks the document that its string names, given the operator, and removes the entry under that string. |
| Deliveries.SettledExactly | USERS/internal/msgbroker/msgbroker.go:72-119 | Each message a loop takes is settled once, in order, and acked if and only if it decodes and the service succeeds on the state left by those before. |
| MsgBroker.Broker.HandleMessage | USERS/internal/msgbroker/msgbroker.go:75-119 | One message: acked or nacked once, with the effect on store and cache that its own fields ask for, queue by queue. |
| MsgBroker.Broker.ConsumeMessages | USERS/internal/msgbroker/msgbroker.go:70-133 | Through any finite part of its loop, with messages coming in all along, the consumer handles in order what its turns take and leaves the rest; a turn takes a message whenever there is one; at the turn that takes the context's end it returns and takes one off the wait group. |
| MsgBroker.Broker.StartToConsume | USERS/internal/msgbroker/msgbroker.go:51-71 | The number of services is added before the consumers start, and each then takes its own off; here they run one after another, each on the state the one before left. |
| Consumers.SystemRunIsServiceRun | USERS/internal/msgbroker/msgbroker.go:51-58 | Every run of the three consumers with direct calls is a run of the service, so what holds of all those holds here. |
| Consumers.DeliveriesAreConserved | USERS/internal/msgbroker/msgbroker.go:70-133 | At every step, for each queue, the messages that arrived are in order the settled ones, at most one in hand, and the waiting ones; those given to the service are the ones that decode, once each; a settled one was acked if and only if it decoded and the reply it was settled by is no error. |
| Outcomes.SettlementsFollowTheOrder | USERS/internal/msgbroker/msgbroker.go:80-119 | At every step and for each queue, a settled message that decoded has its own place in the order of the storage operations, as the request it asks for, and was acked, or nacked for the cache alone, if and only if that operation succeeded; one that did not decode was nacked and is no operation. |
| Shutdown.ShutdownIsGraceful | USERS/internal/msgbroker/msgbroker.go:51-71 | With 3 services the counter is always the number of consumers still there; none exits before the signal; when the wait returns all have exited and no taken message is unsettled. |
| Shutdown.CounterIsExact | USERS/internal/msgbroker/msgbroker.go:52-71 | For any number of services the counter is that number less the consumers that have returned, in every run. |
| Shutdown.ShutdownWorksExactly | USERS/internal/msgbroker/msgbroker.go:52-66 | The counter never goes negative and the wait can return if and only if the number of services is 3. |
| Shutdown.EveryScheduleEnds | USERS/internal/msgbroker/msgbroker.go:72-132 | With no new messages a consumer takes a bounded number of steps, under every schedule. |
| Shutdown.PassesAreBounded | USERS/internal/msgbroker/msgbroker.go:72-132 | With no new messages its select makes at most backlog + 1 passes, under every schedule. |
| Shutdown.NeverStuck | USERS/internal/msgbroker/msgbroker.go:128-130 | After the signal a consumer that has not exited can always go on. |
| Accounting.EveryDocumentIsAccountedFor | USERS/internal/msgbroker/msgbroker.go:80-119 | With registrations by queue, stored documents equal acked registrations plus those nacked for the cache write alone plus the one inserted and unsettled; each has its own document, whose first version carries the message's fields one by one with the hashed password. |
| Accounting.AfterTheSignalRegistrationsAreDropped | USERS/internal/storage/usersStorage.go:23-28 | Once the signal has come, no registration not yet past its context check is stored, and each one still taken is nacked. |
| WholeSystem.SystemIsSerializableExactly | USERS/internal/msgbroker/msgbroker.go:51-58 | The system with any direct calls, updates included, is serial if and only if no update overwrites; its record is complete in any case. |
| WholeSystem.SystemIsSerializable | USERS/internal/msgbroker/msgbroker.go:56-58 | So it is with the updates by queue only and any direct registrations, deletions, logins and reads. |
| WholeSystem.MessagesAreSettledAsAlone | USERS/internal/msgbroker/msgbroker.go:80-119 | In a serial run every message that decodes is acked, or nacked for the cache alone, if and only if its request run alone on the store left by the operations before it succeeds. |
| WholeSystem.LoopPassIsARun | USERS/internal/msgbroker/msgbroker.go:72-119 | One pass of the loop is a run of the machine and has the effect that the loop's contract gives it. |

## Left out

- Generated protobuf and gRPC code, configuration, `main` wiring and deployment files: plumbing.
- The gateway, and the DEVICES and CONTROL services: USERS is taken as the only consumer of its three queues.
- Token contents, SHA-256 and the JSON and BSON encodings: the hash is an arbitrary function, and a message body is what its two decoders make of it.
- Update or registration requests with a null profile, which make the Go code panic: the queue never sends one.
- Negative skips and limits beyond what the driver does with them (an error, and the absolute value), and batch size caps.
- Writes during a listing: a listing reads one state of the collection, in one fixed order.
- MsgBroker.Broker.ConsumeMessages: models one consumer with nothing between its store and cache calls; the three goroutines together, with direct calls between their steps, are the step machine of `Consumers`.
- MsgBroker.Broker.StartToConsume: runs the three consumers one after another, which is one schedule of the goroutines; all schedules, the signal and the wait are in `Consumers` and `Shutdown`.
- Closed delivery channels, process crashes, redelivery and several replicas of the service.
- Log output, response texts and the marshalling of the response after the Ack, which nothing uses.
