# Verified model of the server's stateful parts

This project models, in Dafny, the parts of the backend that hold state or encode data, and proves
what they keep over whole runs.

* **WebSocket hub** (`HubProtocol`, `HubDelivery`, `HubFrames`, `HubOrder`, `Hub`): a transition system with any
  number of connections and registration requests. Taking a lock, changing the client set, releasing
  the lock, closing a channel and one non-blocking send are separate steps that interleave freely. A
  send on a closed channel, or a second close, sets `panicked`. `Hub.dfy` has the hub and its clients
  as mutable objects, stated with the same channel operations.
* **Event bus and wiring** (`Bus`, `Wiring`): listener lists as Go slices over shared backing arrays,
  appended in place while an emit iterates; and the effects a registration request runs through,
  derived from the order in which the server registers its listeners.
* **Rate limiter** (`RateLimit`, `RateLimiter`): the entry map and its sweeper as an object, and the
  properties of histories of requests and sweeps. Instants are nanoseconds, read under the mutex, so
  they never decrease.
* **Password hashes** (`Base64`, `Text`, `Password`): printer, parser and comparison of Argon2id hashes
  in PHC string format. Base 64 is that of section 4 of RFC 4648 without padding; Argon2id (section 3
  of RFC 9106) is any function of its inputs with a result of the requested length.
* **Auth** (`Schema`, `Auth`, `AuthInvariant`, `AuthTheorems`, `AuthTokens`, `AuthRuns`,
  `AuthService`): register, login and refresh calls whose lookup, hashing, insertion, announcement,
  token check and each signature are steps that interleave over one user table with a UNIQUE email. Signatures are ideal: verification accepts what was signed with the same key
  and has not reached `exp` (section 4.1.4 of RFC 7519).
* **Job queue** (`Queue`, `Broker`): publishing, delivery, acknowledgement and channel close, with any
  number of channels and workers, against an abstract AMQP 0-9-1 broker.

Where a state machine is used, `Runs.Leads` says that a finite run goes from one state to another, and
`Reachable` that one goes there from the initial state; the main results hold for every reachable
state. In the auth state machine each step reads the clock at most once and only a tick moves it, so
other calls act and time passes between any two readings of one call.

Foreign parts are parameters or nondeterministic choices: the key derivation function, the salt, the
JSON codec (which must decode what it encoded), character classes (lower-casing must be idempotent and
keep white space as it is; `AsciiLawful` and `AsciiCanRegister` show that the ASCII ones qualify and let
somebody register), database errors, identifiers the database chooses, clock readings, the
order of map iteration, write and read errors of connections, and the scheduler.

## What the code does and its documentation does not say

* The limiter is described as a sliding window. It is a fixed window that opens at the first request
  after the previous one ended. `SlidingWindowIff` proves that the description is right exactly when
  the limit is 1; `AdmittedBound` and `BoundIsExact` give the exact bound for intervals of any length,
  which is twice the limit less one for one window length. The first request of a window is never
  compared with the limit, so the quota of a window is at least 1.
* A refresh checks the old token and then reads the clock again to sign the new one, so the new token
  can outlive the sum of the two lifetimes, 30 days and 24 hours after the login. It does exactly when
  the second in which it was signed began after the old token's 30 days (`RenewalBoundIff`). The sum
  bounds every run whose refreshes pause for at most `d` between check and signature if and only if
  `d` is at most one second (`PauseThreshold`); a second and a nanosecond is enough to exceed it
  (`PausedRefresh`).
* The two kinds of token are separated only by their keys (`KindsSeparate`).
* A job can be handled successfully twice if its channel closes before the acknowledgement
  (`ClosedChannelRepeats`). Closing a channel leaves success unique, in every continuation without a
  further close, if and only if none of its unacknowledged deliveries is decodable and not yet failed
  (`CloseHarmlessIff`).
* The design document speaks of bcrypt and of listeners that react asynchronously; the code uses
  Argon2id and calls listeners synchronously. The model follows the code.

## Model

| member | source | states |
|---|---|---|
| HubProtocol.AlwaysSafe | server/internal/core/realtime/hub.go:66-131 | in every interleaving no goroutine sends on a closed channel or closes one twice; readers exclude the writer, and client-set members are exactly the registered, not yet deleted connections, all open |
| HubProtocol.SafeStep | server/internal/core/realtime/hub.go:84-135 | every single step of handlers, pumps and broadcasts keeps the lock discipline and open membership |
| HubProtocol.SafeMove | server/internal/core/realtime/hub.go:109-121 | registering and unregistering under the write lock, with the close after the unlock, keep it |
| HubProtocol.SafeSend | server/internal/core/realtime/hub.go:91-99 | one non-blocking send of a broadcast keeps it |
| HubProtocol.MovedOrderly | server/internal/core/realtime/hub.go:59-81 | the goroutines of one connection start in order, only its reader closes the channel, and the greeting finds it open |
| HubProtocol.HolderCanMove | server/internal/core/realtime/hub.go:91-119 | whoever holds the read or write lock has an enabled step, so no critical section waits for a slow client |
| HubProtocol.RequestCanMove | server/internal/core/realtime/hub.go:84-100 | a request with something left to do has an enabled step of its own, unless someone holds the write lock |
| HubDelivery.FramesConserved | server/internal/core/realtime/hub.go:93-168 | accepted frames are the written ones, then the one in the writer's hand, then the at most 256 buffered ones, in order; a frame is taken exactly when fewer than 256 are held; a writer that ends on close has written all |
| HubDelivery.EachClientOnce | server/internal/core/realtime/hub.go:84-100 | a finished broadcast was offered exactly once to each client of the set read under the lock and to no other connection |
| HubFrames.FramesGenuine | server/internal/core/realtime/hub.go:48-53 | every frame offered to a connection is the greeting from its own handler, the user's registration from a request's first broadcast, or the job from its second, and nothing else |
| HubFrames.RegistrationBroadcast | server/server.go:225-237 | a request with nothing left to do has broadcast the registration if and only if there is a hub, the job if and only if the broker took it as well, and nothing more |
| HubFrames.RegistrationReaches | server/internal/core/realtime/hub.go:84-100 | by then every client in the set of the locked read has been offered that registration frame, exactly once, and has taken it unless it held 256 frames |
| HubDelivery.AudienceFixed | server/internal/core/realtime/hub.go:91-119 | during a broadcast the live client set is the one of its locked read, though other broadcasts run |
| HubDelivery.RegistrationBeforeJob | server/server.go:73-80 | no client accepts or is written a user's job-enqueued frame before that user's user-registered frame, and a job-enqueued frame means the job was published |
| HubDelivery.InvariantStep | server/internal/core/realtime/hub.go:84-168 | every step keeps safety, coverage, conservation and order together |
| HubOrder.SwappedBreaksOrder | server/server.go:225-237 | with the queue's listener registered before the hub's, some run breaks that order |
| Realtime.Client.TrySend | server/internal/core/realtime/hub.go:160-169 | a select with a default case: append when fewer than 256 frames are held, else drop |
| Realtime.Client.WritePump | server/internal/core/realtime/hub.go:150-158 | writes the buffer in order up to the first failing write, whose frame is lost and whose successors stay; once it is empty it ends exactly if the channel is closed, and else waits |
| Realtime.Hub.Register | server/internal/core/realtime/hub.go:109-113 | adds exactly this client and keeps members open |
| Realtime.Hub.Unregister | server/internal/core/realtime/hub.go:115-121 | removes exactly this client, then closes its channel; the others stay open |
| Realtime.Hub.Serve | server/internal/core/realtime/hub.go:66-77 | a new connection is a member with exactly the greeting offered |
| Realtime.Hub.Broadcast | server/internal/core/realtime/hub.go:84-100 | every member is offered the frame exactly once, whatever the iteration order, and nobody else |
| EventBus.Bus.On | server/internal/core/events/bus.go:23-27 | appends one listener to one list, in place or in a larger array, without changing what any earlier slice header shows |
| EventBus.Bus.Emit | server/internal/core/events/bus.go:29-36 | calls exactly the listeners present at the locked read, each once and in order, whatever is registered between the calls |
| EventBus.SetUp | server/server.go:73-80 | the bus after set-up holds the lists the registrations give in their order |
| Wiring.WiredLists | server/server.go:183-237 | which listeners each event has after set-up: the hub's come before the queue's |
| Wiring.WiredProgram | server/server.go:183-237 | the exact effects of a registration in every configuration: the user's frame, the publication followed by the job's frame if the broker takes it, the audit entry |
| Wiring.ProgramWellOrdered | server/server.go:225-237 | for every configuration a registration's effects put the job frame after the publish and never the user frame after the job frame; nested emits terminate by rank |
| Wiring.SwappedProgram | server/server.go:225-237 | the effects when the two listeners are registered the other way round |
| RateLimiting.RateLimiter.Handle | server/internal/middlewares/ratelimit_middleware.go:44-66 | the critical section updates the shared entry in place as the decision and table functions say |
| RateLimiting.RateLimiter.Cleanup | server/internal/middlewares/ratelimit_middleware.go:71-83 | a sweep deletes exactly the entries whose window end lies before now |
| RateLimit.RefinesHistory | server/internal/middlewares/ratelimit_middleware.go:44-66 | every answer is the one the address's request times alone determine: among the first max(1, limit) of its window |
| RateLimit.SweeperInvisible | server/internal/middlewares/ratelimit_middleware.go:71-84 | sweeps at arbitrary points change no answer |
| RateLimit.Isolation | server/internal/middlewares/ratelimit_middleware.go:44-64 | the answers to one address are those of the history restricted to it |
| RateLimit.AdmittedBound | server/internal/middlewares/ratelimit_middleware.go:48-63 | in every history at most `Ceiling` requests of an address get through in any closed interval of a given length |
| RateLimit.CeilingInWindows | server/internal/middlewares/ratelimit_middleware.go:48-63 | that ceiling is at most (ceil(T/W)+1) times max(1, limit) |
| RateLimit.CeilingClosedForm | server/internal/middlewares/ratelimit_middleware.go:48-63 | the ceiling in closed form |
| RateLimit.BoundIsExact | server/internal/middlewares/ratelimit_middleware.go:48-63 | for every interval length some history reaches the ceiling |
| RateLimit.SlidingWindowIff | server/internal/middlewares/ratelimit_middleware.go:17-27 | the documented claim, at most `limit` per any window length, holds if and only if the limit is 1 |
| RateLimit.RefusalJustified | server/internal/middlewares/ratelimit_middleware.go:55-62 | a refused request and more than limit-1 others lie within the current window |
| RateLimit.CompliantNeverRefused | server/internal/middlewares/ratelimit_middleware.go:48-63 | a client within the limit in every closed window length is never refused |
| RateLimit.SweptTable | server/internal/middlewares/ratelimit_middleware.go:71-83 | right after a sweep the keys are exactly the addresses whose current window began within the last window length |
| RateLimit.MemoryBounded | server/internal/middlewares/ratelimit_middleware.go:71-84 | with a sweep at most one window ago the table holds only addresses seen in the last two |
| Base64.RoundTrip | server/pkg/password.go:62-63 | decoding an encoding gives back every byte string |
| Base64.EncodedLength | server/pkg/password.go:62-63 | the exact length of an encoding without padding |
| Base64.EncodedSymbols | server/pkg/password.go:62-63 | an encoding uses only the 64 characters of the alphabet |
| Base64.Alphabet | server/pkg/password.go:62-63 | the alphabet is A to Z, a to z, 0 to 9, + and / |
| Base64.StandardVectors | server/pkg/password.go:62-63 | the test vectors of section 10 of RFC 4648, without padding |
| Base64.DecodeRejects | server/pkg/password.go:109-117 | a character outside the alphabet that is no line break makes decoding fail |
| Text.ScanDecimal | server/pkg/password.go:98-105 | scanning a printed number gives it back with the text after it |
| Text.NoLeadingZero | server/pkg/password.go:56-64 | a positive number is printed without a leading zero |
| Text.SplitJoin | server/pkg/password.go:87 | splitting at the separator undoes joining of fields without it |
| Text.SplitParts | server/pkg/password.go:87 | every text is its fields joined by the separator, and no field holds it |
| Password.DecodeHash | server/pkg/password.go:86-121 | the parser, field by field, with the first error in the source's order |
| Password.SegmentsRefused | server/pkg/password.go:87-91 | a text that is not six fields is refused as such |
| Password.ForeignRefused | server/pkg/password.go:93-107 | a printed hash with any algorithm, version and cost parameters is refused for the algorithm, then for the version, then for numbers out of the integer ranges, and else parsed |
| Password.GarbledRefused | server/pkg/password.go:109-117 | then a salt that is not base 64 is refused, and then such a key |
| Password.Accepted | server/pkg/password.go:86-121 | whatever is accepted is six fields with algorithm argon2id, version 19 and the returned salt and key in base 64 |
| Password.HashPassword | server/pkg/password.go:41-66 | fails exactly when the random source does, and else prints memory 65536, 3 passes, 4 threads, a salt of 16 random bytes and the 32 bytes derived from the password with them |
| Password.RoundTrip | server/pkg/password.go:56-121 | for all parameters in the source's integer ranges, and all salts and hashes, parsing a printed hash returns them, with keyLen the hash length in 32 bits |
| Password.PrintedForm | server/pkg/password.go:56-64 | the printed form, character by character around its numbers and its base 64 |
| Password.PrintInjective | server/pkg/password.go:56-64 | different parameters, salts or keys print differently |
| Password.SelfDescribing | server/pkg/password.go:71-83 | for a hash made under any valid parameters, its password matches, and another one exactly when the derivation with the stored salt, passes, memory, threads and length gives the same key |
| Password.Compared | server/pkg/password.go:71-83 | for any stored text: malformed with the parser's error, a panic for zero passes, threads or key bytes, and else a match exactly when the derived key is the stored one |
| Password.DefaultLength | server/internal/db/migrations/000001_init_auth.up.sql:13 | hashes made with the default parameters have 97 characters |
| Schema.RegisterInput.Validate | server/internal/modules/auth/auth.schema.go:22-37 | strips the blanks around names and lower-cased email and nothing else; finds no problem if and only if the trimmed name is non-empty, the email contains @ and the password has at least 8 bytes, and else reports the first |
| Schema.LoginInput.Validate | server/internal/modules/auth/auth.schema.go:46-55 | strips the blanks around the lower-cased email and nothing else; finds no problem if and only if email and password are non-empty |
| Schema.NormalIdempotent | server/internal/modules/auth/auth.schema.go:23 | a normal form is its own normal form |
| Schema.NormalKeepsAddress | server/internal/modules/auth/auth.schema.go:23 | a normal form is the whole address, lower-cased character by character, without the blanks at its ends |
| Schema.SpellingsAgree | server/internal/modules/auth/auth.schema.go:47 | spellings that differ in case and surrounding white space have one normal form |
| Schema.TrimParts | server/internal/modules/auth/auth.schema.go:23-25 | trimming removes white space at both ends and leaves none there |
| Schema.RegisteredCanLogIn | server/internal/modules/auth/auth.schema.go:27-54 | credentials that pass registration pass the checks of login |
| AuthInvariant.StepKeeps | server/internal/modules/auth/auth.service.go:32-146 | every step of every call, each signature a step of its own, keeps the invariant on users, owners of rows, hashes and tokens |
| AuthTheorems.EmailsUnique | server/internal/db/migrations/000001_init_auth.up.sql:12 | under any interleaving stored emails are unique and in normal form |
| AuthTheorems.CreatedOnce | server/internal/modules/auth/auth.service.go:33-69 | at most one call per email is answered 201 |
| AuthTheorems.HashesFit | server/internal/db/migrations/000001_init_auth.up.sql:13 | every hash, stored or about to be, has 97 characters, so its column never refuses an insert |
| AuthTheorems.RowsMatchAnnouncements | server/internal/modules/auth/auth.service.go:43-57 | rows are the announced users plus those whose announcement is pending; each is announced at most once |
| AuthTheorems.StepKeepsRows | server/internal/modules/auth/auth.service.go:32-146 | no step changes or removes a row, takes back an answer or withdraws a token |
| AuthTokens.Lineage | server/internal/middlewares/auth_middleware.go:40-62 | with distinct keys the guard accepts a token as some user if and only if it is the access token of a login of that user, or was signed in a refresh that found the refresh token of such a login valid, and it has not expired |
| AuthTokens.Lifetimes | server/pkg/jwt.go:49-57 | the claims of access and refresh tokens: issued in the second of the signature, expiring 86400 and 2592000 seconds later |
| AuthTokens.RefreshTakes | server/internal/modules/auth/auth.service.go:128-138 | with distinct keys refresh takes exactly the refresh tokens of logins, until they expire |
| AuthTokens.RenewalBoundIff | server/internal/modules/auth/auth.service.go:128-146 | for every login and every refresh of its token, the new token is over 30 days and 24 hours after the login if and only if the second of its signature began within the 30 days |
| AuthTokens.LifetimesAddUp | server/internal/modules/auth/auth.service.go:128-146 | in a run whose refreshes pause for at most a second, whatever the guard accepts descends from a login of that user at most 30 days and 24 hours ago |
| AuthRuns.PausedRefresh | server/internal/modules/auth/auth.service.go:129-141 | a run with one login and one refresh that pauses a second and a nanosecond, whose token the guard still accepts 30 days and 24 hours after the login |
| AuthRuns.PauseThreshold | server/internal/modules/auth/auth.service.go:128-146 | if anybody can register: all runs whose refreshes pause for at most d keep that bound if and only if d is at most a second |
| AuthTokens.KindsSeparate | server/internal/modules/auth/auth.service.go:83-93 | the guard accepts a refresh token, and refresh an access token, exactly when the keys are equal |
| AuthTokens.RefreshTokensFromLogins | server/internal/modules/auth/auth.service.go:127-146 | refresh tokens come only from logins |
| AuthTheorems.RegisteredIsFound | server/internal/modules/auth/auth.service.go:73-77 | the lookup of a registered email returns its row or fails |
| AuthTheorems.LoginDecided | server/internal/modules/auth/auth.service.go:73-84 | every row is that of one registration and holds the hash of its password under some salt; a login that finds it goes on if and only if email and password are non-empty and its password derives the same key, and is answered 422 or 401 otherwise |
| AuthTheorems.LoginChecks | server/internal/modules/auth/auth.service.go:73-84 | for any outcome of the lookup, a login goes on exactly with the right password of the row found |
| AuthTheorems.RegisteredLogsIn | server/internal/modules/auth/auth.service.go:73-84 | after a 201 any spelling of the email with the same password passes lookup and password check as that user |
| AuthTheorems.LoggedInSeesSelf | server/internal/modules/auth/auth.service.go:113-125 | with the access token of a login, Me returns that user exactly until exp, or 404 if the database fails |
| AuthTheorems.RegisterThenLogin | server/internal/modules/auth/auth.service.go:73-125 | after a 201, a login with any spelling of the email and the same password whose lookup does not fail can only go on to succeed as that user, whatever other calls do; some run completes it; from then on its access token shows the registered row exactly until exp |
| AuthService.Service.Register | server/internal/modules/auth/auth.service.go:32-70 | a registration is the run of its steps in the state machine; it is answered 201 if and only if the input is valid, no row has its email, the columns are wide enough and neither salt nor insertion fails; then exactly one row is added, with the trimmed names, the normal email and the hash of the password, which matches it, and is announced; else 422, 409 or 500 as the cause is, and nothing changes |
| AuthService.Service.LogIn | server/internal/modules/auth/auth.service.go:73-110 | a login is the run of its check and two signatures in the state machine; it succeeds if and only if email and password are non-empty, the lookup finds a row and the password derives the key of that row's registration; the tokens have the claims written out; Me then shows the user exactly until exp |
| AuthService.Service.RefreshToken | server/internal/modules/auth/auth.service.go:128-147 | a refresh is the run of its check and signature in the state machine; with distinct keys it succeeds exactly on the unexpired refresh tokens of logins; the guard then accepts its token until 24 hours after the second of the signature |
| Queue.StepKeeps | server/internal/core/queue/queue.go:79-147 | every step keeps each message in exactly one place and answers consistent with the handler |
| Queue.ExactlyOnePlace | server/internal/core/queue/queue.go:100-147 | every published message is ready once or held by exactly one delivery that is unacknowledged, acknowledged or discarded |
| Queue.CountsAddUp | server/internal/core/queue/queue.go:79-147 | published = ready + unacknowledged + acknowledged + discarded, channel closes included |
| Queue.AckedSucceeded | server/internal/core/queue/queue.go:139-145 | an acknowledged delivery is one on which the handler succeeded |
| Queue.AnsweredByResult | server/internal/core/queue/queue.go:129-147 | on an open channel an answered delivery is acknowledged exactly after a success, thrown away exactly when its message cannot be decoded, and else queued again |
| Queue.FirstInFirstOut | server/internal/core/queue/queue.go:79-94 | while nothing is put back, the queue holds the last published messages in order |
| Queue.JobsNeverDiscarded | server/internal/core/queue/queue.go:130-135 | only undecodable messages are discarded, hence no published job |
| Queue.SucceedsOnceIff | server/internal/core/queue/queue.go:129-147 | from any reachable state, the handler succeeds at most once per message in every continuation without a further close if and only if no decodable, not failed delivery has lost its message to the queue by a close |
| Queue.CloseHarmlessIff | server/internal/core/queue/queue.go:150-158 | where nothing is stranded, closing a channel keeps that if and only if none of its unacknowledged deliveries is decodable and not yet failed |
| Queue.SucceedsOnce | server/internal/core/queue/queue.go:129-147 | where no delivery is stranded the handler has succeeded at most once per message |
| Queue.StrandedByClose | server/internal/core/queue/queue.go:150-158 | only the close of its channel strands a delivery |
| Queue.ClosedChannelRepeats | server/internal/core/queue/queue.go:150-158 | for every job, a run in which a close before the acknowledgement makes the handler succeed twice on it |
| QueueWorkers.Broker.Publish | server/internal/core/queue/queue.go:81-94 | appends the encoded job as a publish step |
| QueueWorkers.Broker.Nack | server/internal/core/queue/queue.go:133-141 | puts the message back or throws it away, as asked |
| QueueWorkers.Broker.Process | server/internal/core/queue/queue.go:129-147 | one delivery from the worker's hand to its answer is the protocol's steps in a row |
| QueueWorkers.Answered | server/internal/core/queue/queue.go:129-147 | what becomes of any delivery: thrown away if undecodable, else acknowledged or queued again at its position, as the handler reports, and nothing else changes |
| QueueWorkers.JobAnswered | server/internal/core/queue/queue.go:129-147 | a published job is acknowledged exactly when the handler succeeds, else queued again, and never discarded |

## Left out

- Realtime.Hub: the reader's loop over incoming messages, which ignores them, and the closing of the connection itself; reads simply fail at some point.
- HubProtocol: Go blocks new readers while a writer waits for the lock; the model allows these interleavings as well, so its results cover the code's.
- HubProtocol: marshalling of frames, which does not fail for these payloads; a frame stands for the event and the user it is about.
- EventBus.Bus.Emit: what a listener does is not run inside the loop; the effects of the wired listeners, nested emits included, are those of the wiring.
- RateLimit: 64-bit overflow of counters and of instants.
- Text.ScanDecimal: only that scanning undoes printing; other texts the scanners accept (leading blanks, signs, text after the last number) are modelled, with ASCII blanks only, but have no theorem of their own.
- Base64.RoundTrip: only that decoding undoes encoding, not the converse, since decoding skips line breaks and ignores unused bits.
- Password.SelfDescribing: how long comparison takes.
- Auth: user identifiers are non-empty texts the database chooses; parsing them as UUIDs, and audit-log entries, are not modelled.
- Auth: bearer headers only; the cookie that the guard also looks at is not modelled, nor the optional guard.
- AuthService.Service: interleavings; each method is a run of one call without interruption, and the state machine has the interleaved runs.
- Auth: a token counts as signed when it is handed out; the access token of a login that has not answered yet is known to nobody.
- Auth: the 422 answer to a blank refresh token.
- Queue: an acknowledgement on a closed channel, which the broker never sees, is no step; cancellation of the workers only stops steps.
- Queue: configured attempts and backoff, which the code does not use.
- Configuration, logging, CORS, request identifiers, health checks, cache, database connection, documentation pages and static files: plumbing without such state.
