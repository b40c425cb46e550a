# financrr backend: unique ids and the logic around them

This project models, in Dafny, the core of the financrr backend (a Rust
service on the loco/axum stack) and proves properties of the model.

The centre is the **unique-identifier subsystem**:

- **Snowflake generator** (`snowflake_generator.dfy`, `bits.dfy`,
  `heartbeat.dfy`). A class holds the node id, the last timestamp and the
  sequence. `NextId` rejects a clock reading that went backwards. Within one
  millisecond it increments the sequence modulo 4096. When the sequence wraps,
  it spin-waits on a supplied sequence of clock readings. The id is packed as
  `ts << 22 | node << 12 | seq` on 64 bits. The proofs show that the fields
  decode back, that successive ids on one generator strictly increase, and
  that generators with different node ids never collide.
- **Node allocation** (`instances.dfy`, `orm.dfy`). The instances table is a
  sequence of rows keyed by node id. Allocation picks the smallest id not held
  by an *active* row (heartbeat younger than 30 s). It then refreshes that row
  or inserts a new one. The exclusive row lock becomes the atomicity of one
  method.
- **Instance handler** (`instance_handler.dfy`). It owns the tolerance
  constant, the node-id bound and one heartbeat tick. A tick either refreshes
  the row or moves the handler to an absorbing aborted state.
- **Snowflake newtype** (`snowflake_id.dfy`, `decimal.dfy`). It covers the
  conversions and display, and serde as decimal text. Rust's `str::parse`
  for the integer types is modelled exactly, with sign, digits and range.

Around it are the small functions the rest of the backend relies on:

- bearer-token extraction and API-key authentication;
- URL-safe base64 token generation: length `min(length, 44)`, the alphabet,
  and where padding can sit;
- users' lifecycle updates;
- sessions and `last_accessed_at` clamping;
- the login decision order;
- the loco-error to API-error mapping;
- route-prefix composition;
- type-name and whitespace string helpers;
- configuration paths, the "configured" predicate and the OpenSearch URL;
- the GoCardless request URL, token renewal and institution normalisation;
- balance selection in the bank-account factory;
- apply-pending-once for OpenSearch migrations and fixtures;
- the password validator;
- the lazy `Phantom` handle;
- pagination defaults.

Effects are modelled concretely. Database tables are fields of type `seq` on
classes, with methods that rewrite them. The clock, randomness, SHA-256,
password hashing, fetches and migration/fixture bodies are parameters:
values or functions the caller supplies.

## Model

| member | source | states |
|---|---|---|
| Heartbeat.ToleranceSeconds | backend/src/services/instance_handler.rs:13-14 | a record is tolerated for three heartbeat intervals of ten seconds, thirty seconds in all |
| Bits.I16AsU64 | backend/src/services/snowflake_generator.rs:43 | `node_id as u64` keeps non-negative i16 values and adds 2^64 to negative ones, which then exceed every ten-bit id |
| Bits.I16AsU16 | backend/src/services/instance_handler.rs:52 | `node_id as u16` is the two's complement reinterpretation: negatives gain 2^16 |
| Bits.U16AsI16 | backend/src/services/instance_handler.rs:59 | `instance_id as i16` maps values above 0x7FFF back below zero |
| Bits.I16U16RoundTrip | backend/src/services/instance_handler.rs:52-59 | converting an i16 node id to u16 and back gives the original id |
| Bits.U64AsI16 | backend/src/services/snowflake_generator.rs:68 | `node_id as i16` keeps values up to 0x7FFF and otherwise truncates modulo 2^16 |
| Bits.AsI64 | backend/src/services/snowflake_generator.rs:118 | the final `as i64` keeps values below 2^63 and subtracts 2^64 from the others |
| Bits.BitOrLowBits | backend/src/services/snowflake_generator.rs:118 | or-ing a value below 2^k into a multiple of 2^k adds it |
| Bits.BitOrBound | backend/src/services/snowflake_generator.rs:118 | or of two values below 2^n stays below 2^n |
| Bits.BitAndLowMask | backend/src/services/snowflake_generator.rs:107 | masking with 2^k - 1 is the remainder modulo 2^k |
| SnowflakeGenerator.LayoutConstants | backend/src/services/snowflake_generator.rs:19-25 | the shift is 22, both limits are all-ones masks of their widths, and the node and sequence fields tile the low 22 bits |
| SnowflakeGenerator.Pack | backend/src/services/snowflake_generator.rs:118 | for fields that fit, the packed bits are timestamp·2^22 + node·2^12 + sequence |
| SnowflakeGenerator.PackLayout | backend/src/services/snowflake_generator.rs:118 | the shift-and-or expression equals that arithmetic sum when the fields fit |
| SnowflakeGenerator.IdLayout | backend/src/services/snowflake_generator.rs:118 | an id with fitting fields is non-negative and its timestamp, node and sequence read back by division and remainder |
| SnowflakeGenerator.IdsInjective | backend/src/services/snowflake_generator.rs:118 | two ids are equal exactly when all three fields are |
| SnowflakeGenerator.IdsOrdered | backend/src/services/snowflake_generator.rs:118 | on one node, ids order by timestamp and then by sequence |
| SnowflakeGenerator.IncrementSequence | backend/src/services/snowflake_generator.rs:107 | the next sequence is the successor modulo 4096 |
| SnowflakeGenerator.NextDifferent | backend/src/services/snowflake_generator.rs:125-131 | the first later reading that differs from the last timestamp, with every reading before it equal to it |
| SnowflakeGenerator.NextIdSpec | backend/src/services/snowflake_generator.rs:96-119 | a request fails exactly when the clock went back, and then leaves the state alone after one reading; otherwise the id is composed from the new state's timestamp and sequence on this node |
| SnowflakeGenerator.NextIdAdvances | backend/src/services/snowflake_generator.rs:100-116 | on a clock that never steps back, a successful request moves the state strictly forward |
| SnowflakeGenerator.SuccessiveIdsIncrease | backend/src/services/snowflake_generator.rs:96-119 | two successive successful requests on one node give strictly increasing ids |
| SnowflakeGenerator.DistinctNodesDistinctIds | backend/src/services/snowflake_generator.rs:118 | nodes with different ids never mint the same id |
| SnowflakeGenerator.SpinAcceptsEarlierReading | backend/src/services/snowflake_generator.rs:125-131 | the spin waits only for a different reading, so a clock stepping back during a wrap yields an id below the previous one |
| SnowflakeGenerator.NodeIdAccepted | backend/src/services/snowflake_generator.rs:43-46 | an i16 node id is accepted exactly when it lies in 0..=1023 (negatives turn huge as u64) |
| SnowflakeGenerator.ValidateNodeId | backend/src/services/snowflake_generator.rs:43-46 | a node id is returned unchanged when it is in 0..=1023; otherwise the error is NodeIdTooLarge |
| SnowflakeGenerator.ValidateAgreesWithNew | backend/src/services/snowflake_generator.rs:43-46 | the validation and the check in `new` agree on every i16 |
| SnowflakeGenerator.WaitEndsAtNextDifferent | backend/src/services/snowflake_generator.rs:125-131 | the reading the spin stops at is the first differing one of the whole clock |
| SnowflakeGenerator.Generator.WithNodeId | backend/src/services/snowflake_generator.rs:59-65 | a new generator keeps its node id and starts at timestamp 0, sequence 0 |
| SnowflakeGenerator.Generator.WaitForNextMillis | backend/src/services/snowflake_generator.rs:125-131 | the loop returns the first reading that differs from the last timestamp, and every reading it skipped equals it |
| SnowflakeGenerator.Generator.Advance | backend/src/services/snowflake_generator.rs:104-113 | the sequence and clock steps give the state and the reading count of the reference |
| SnowflakeGenerator.Generator.NextId | backend/src/services/snowflake_generator.rs:96-119 | result, new state and readings used are exactly those of the reference `NextIdSpec` |
| SnowflakeGenerator.Generator.HeartbeatTick | backend/src/services/snowflake_generator.rs:67-94 | the tick ends the process exactly when the node's row is missing, and otherwise refreshes that row's heartbeat |
| SnowflakeGenerator.New | backend/src/services/snowflake_generator.rs:39-55 | an id above 1023 fails with NodeIdTooLarge and writes nothing; a taken id fails the insert; otherwise one row is appended and a zero-state generator for that id is returned |
| Orm.Written | backend/src/models/instances.rs:94-99 | an update writes the fields marked Set and keeps the stored value of the others |
| Orm.FirstWhere | backend/src/models/instances.rs:62-66 | the query returns the first matching row, or none when no row matches |
| Instances.BeforeSave | backend/src/models/instances.rs:14-25 | on an update whose `updated_at` is untouched, the hook stamps it with the current time; inserts and explicit values pass through |
| Instances.IsActiveWithinTolerance | backend/src/models/instances.rs:40-49 | the truncating `num_seconds() < 30` test holds exactly when fewer than 30 000 milliseconds passed since the last heartbeat |
| Instances.NodeIds | backend/src/models/instances.rs:38 | the collected ids are exactly the node ids of the rows |
| Instances.ActiveIds | backend/src/models/instances.rs:40-49 | the active ids are exactly those of rows that pass the heartbeat test |
| Instances.SmallestAvailable | backend/src/models/instances.rs:102-112 | the result is not in the set, every smaller number is, and it is at most the set's size |
| Instances.SmallestAvailableUnique | backend/src/models/instances.rs:102-112 | that characterisation determines the result |
| Instances.FindSmallestAvailableNumber | backend/src/models/instances.rs:102-112 | the loop returns the least number missing from the active ids, never more than their count, so the trailing fallback is unreachable |
| Instances.SmallestAvailableExamples | backend/src/models/instances.rs:119-133 | the five unit-test cases give 3, 8, 0, 0 and 0 |
| Instances.IndexOf | backend/src/models/instances.rs:62-66 | a position holding the node id, or none exactly when no row has it |
| Instances.Claimed | backend/src/models/instances.rs:83-91 | an existing row gets a fresh heartbeat and update time; a missing one is created with all three times set to now |
| Instances.AllocatedId | backend/src/models/instances.rs:51 | the allocated id is not active and every smaller id is |
| Instances.Registry.FindByNodeId | backend/src/models/instances.rs:62-66 | present exactly when a row has the node id, returned with that id; otherwise EntityNotFound |
| Instances.Registry.CountInstances | backend/src/models/instances.rs:68-70 | the count is the number of distinct node ids |
| Instances.Registry.CreateNewInstance | backend/src/models/instances.rs:72-81 | a new id appends a row with all three times set to now; a taken id fails with a duplicate-key error and leaves the table alone |
| Instances.Registry.UpdateHeartbeat | backend/src/models/instances.rs:94-99 | the row gets the new heartbeat, and the hook stamps the update time; a missing row fails with RecordNotUpdated |
| Instances.Registry.CreateOrUpdateInstance | backend/src/models/instances.rs:83-91 | the table becomes the claim of the node id, and the claimed row is returned |
| Instances.Registry.CollectNodeIds | backend/src/models/instances.rs:32-49 | the two lists hold exactly all node ids and the active ones |
| Instances.Registry.GetNodeIdAndCreateNewInstance | backend/src/models/instances.rs:29-60 | the smallest inactive id is claimed, taking over a stale row or adding a new one |
| Instances.CountDistinct | backend/src/models/instances.rs:68-70 | with node id as the key, the row count equals the number of distinct ids |
| Instances.HeartbeatOnce | backend/src/services/instance_handler.rs:65-80 | the tick fails exactly when the node's row is missing, and otherwise refreshes it |
| Instances.ClaimKeepsOtherRows | backend/src/models/instances.rs:83-91 | a claim keeps the key unique, keeps every other row, and adds exactly the claimed id |
| Instances.ConsecutiveAllocation | backend/src/models/instances.rs:29-60 | with ids 0..n-1 all alive, the next start gets id n and the ids become 0..n |
| InstanceHandler.Handler.WithNodeId | backend/src/services/instance_handler.rs:50-54 | the stored instance id is the node id reinterpreted as u16 |
| InstanceHandler.Handler.GetInstanceId | backend/src/services/instance_handler.rs:93-95 | the stored u16 id, which the heartbeat's `as i16` reading casts back to without loss |
| InstanceHandler.Handler.HeartbeatTick | backend/src/services/instance_handler.rs:56-91 | a running job aborts exactly when its row is missing, and otherwise refreshes it; an aborted job stays aborted |
| InstanceHandler.New | backend/src/services/instance_handler.rs:23-39 | the row is claimed first, then the id is validated: a handler exists exactly when the id is at most 1023, and a rejected id leaves the claimed row |
| InstanceHandler.StartOutcome | backend/src/services/instance_handler.rs:23-39 | with 0..n-1 alive, a start claims id n, adds one row, and succeeds exactly when n is at most 1023 |
| SecretGenerator.SextetChar | backend/src/services/secret_generator.rs:48 | each six-bit value maps to a character of the URL-safe alphabet, never the pad |
| SecretGenerator.SextetRoundTrip | backend/src/services/secret_generator.rs:48 | the alphabet is decoded back to the six-bit value it encodes |
| SecretGenerator.Padding | backend/src/services/secret_generator.rs:48 | at most two pad characters, enough to complete the last three-byte group |
| SecretGenerator.EncodeGroup | backend/src/services/secret_generator.rs:48 | three bytes become four alphabet characters |
| SecretGenerator.EncodeOne | backend/src/services/secret_generator.rs:48 | one trailing byte becomes two characters and two pads |
| SecretGenerator.EncodeTwo | backend/src/services/secret_generator.rs:48 | two trailing bytes become three characters and one pad |
| SecretGenerator.Encode | backend/src/services/secret_generator.rs:48 | the padded encoding is four characters per started three-byte group |
| SecretGenerator.EncodeAt | backend/src/services/secret_generator.rs:48 | every position before the padding holds an alphabet character and every later one holds `=` |
| SecretGenerator.EncodeShape | backend/src/services/secret_generator.rs:48 | the same for all positions at once |
| SecretGenerator.GroupRoundTrip | backend/src/services/secret_generator.rs:48 | a group's four sextets decode to its three bytes |
| SecretGenerator.DecodeGroupOf | backend/src/services/secret_generator.rs:48 | decoding an encoded group and what follows gives its bytes and then the decoding of the rest |
| SecretGenerator.DecodeOne | backend/src/services/secret_generator.rs:48 | the one-byte tail decodes back |
| SecretGenerator.DecodeTwo | backend/src/services/secret_generator.rs:48 | the two-byte tail decodes back |
| SecretGenerator.DecodeLong | backend/src/services/secret_generator.rs:48 | decoding peels off one group at a time |
| SecretGenerator.DecodeShort | backend/src/services/secret_generator.rs:48 | inputs shorter than three bytes decode back |
| SecretGenerator.DecodeEncode | backend/src/services/secret_generator.rs:48 | decoding the encoding of any bytes gives them back: the encoding loses nothing |
| SecretGenerator.DigestEncoding | backend/src/services/secret_generator.rs:46-48 | a 32-byte digest encodes to 44 characters, 43 from the alphabet and a final `=` |
| SecretGenerator.Take | backend/src/services/secret_generator.rs:48 | `take(length)` keeps the first `length` characters, or all of them when there are fewer |
| SecretGenerator.DecimalBytes | backend/src/services/secret_generator.rs:44 | the instance id is hashed as the ASCII bytes of its decimal text |
| SecretGenerator.Hasher.Update | backend/src/services/secret_generator.rs:44-45 | each update appends its bytes to the hashed input |
| SecretGenerator.Hasher.Finalize | backend/src/services/secret_generator.rs:46 | the digest is the hash of everything fed in, in order |
| SecretGenerator.FullToken | backend/src/services/secret_generator.rs:40-48 | the untruncated token is 44 characters long |
| SecretGenerator.SecretGeneratorInner.GenerateTokenWithLength | backend/src/services/secret_generator.rs:39-49 | the token is the first `length` characters of the encoded digest of the instance id text followed by the 32 random bytes; it is at most 44 characters long, and only position 43 can hold the pad |
| SecretGenerator.SecretGeneratorInner.GenerateToken | backend/src/services/secret_generator.rs:11-37 | the default token is the whole 44-character encoding, shorter than the `DEFAULT_TOKEN_LENGTH` of 64 and the 64 characters the doc comment at line 34 promises |
| SecretGenerator.ShortTokenUnpadded | backend/src/services/secret_generator.rs:39-49 | tokens of up to 43 characters, such as the eight-character ones, never contain `=` |
| Users.NewUser | backend/src/models/users.rs:159-172 | a new account carries the id, e-mail, name and hash it is given, flags `User` (2), no token, sent or verified time, and both timestamps set to now |
| Users.EmailVerificationSent | backend/src/models/users.rs:192-203 | sets the sent time and the token, and touches no other column but `updated_at` |
| Users.ForgotPasswordSent | backend/src/models/users.rs:217-226 | sets the reset time and the reset token, and touches no other column but `updated_at` |
| Users.Verified | backend/src/models/users.rs:237-241 | sets the verification time and clears the verification token, and touches nothing else but `updated_at` |
| Users.PasswordReset | backend/src/models/users.rs:252-257 | replaces the hash and clears both reset columns, and touches nothing else but `updated_at` |
| Users.CountEmail | backend/src/models/users.rs:56-65 | the count of matching rows is at most the number of rows |
| Users.CountEmailZero | backend/src/models/users.rs:56-65 | the count is zero exactly when no row has the e-mail |
| Users.UserTable.FindByEmail | backend/src/models/users.rs:47-54 | a row with that e-mail, or none exactly when there is no such row |
| Users.UserTable.FindById | backend/src/models/users.rs:106-112 | the row with that id; EntityNotFound exactly when there is none |
| Users.UserTable.IsEmailUnique | backend/src/models/users.rs:56-65 | true exactly when no user has the e-mail |
| Users.UserTable.CreateWithPassword | backend/src/models/users.rs:151-179 | a failed hash returns the general internal error (code 1000, unknown-error details) that `From<LocoError>` gives the framework's hash error, a failed id generation its own error, and neither writes anything; otherwise the new account is appended exactly when its id and e-mail are unused |
| Users.UserTable.UpdateRow | backend/src/models/users.rs:192-257 | an update replaces the matching row with the changed one, and fails without writing when no row has the id |
| Users.UserTable.SetEmailVerificationSent | backend/src/models/users.rs:192-203 | the stored row gets the sent time and the first eight characters of the generated token, and keeps everything else |
| Users.UserTable.SetForgotPasswordSent | backend/src/models/users.rs:217-226 | the stored row gets the reset time and the first eight characters of the generated token as its reset token, and keeps everything else |
| Users.UserTable.MarkVerified | backend/src/models/users.rs:237-241 | the stored row becomes its verified form |
| Users.UserTable.ResetPassword | backend/src/models/users.rs:252-257 | a failed hash returns the hash error before any lookup and writes nothing; otherwise the stored row becomes its reset form with the new hash, and a missing row fails without writing |
| Users.VerifyAfterSent | backend/src/models/users.rs:192-241 | verifying after the verification mail keeps the sent time, clears the token and records the verification time |
| Users.ResetAfterForgot | backend/src/models/users.rs:217-257 | a reset after the forgot-password mail leaves an account that had no reset columns with only the new hash and timestamp changed |
| Authentication.ToStr | backend/src/middlewares/authentication.rs:33-34 | header bytes convert to text exactly when every byte is visible ASCII or a tab, character for character |
| Authentication.AsciiBytes | backend/src/middlewares/authentication.rs:33 | ASCII text as the header bytes that carry it |
| Authentication.ExtractApiKey | backend/src/middlewares/authentication.rs:8-38 | a missing header, then non-text bytes, then a missing case-sensitive `Bearer ` prefix are rejected in that order; a text header starting with `Bearer ` yields exactly the rest, and on success `Bearer ` followed by the key is the header text |
| Authentication.ExtractsSentKey | backend/src/middlewares/authentication.rs:29-38 | a header holding `Bearer ` and a printable key yields that key |
| Authentication.BareBearerGivesEmptyKey | backend/src/middlewares/authentication.rs:35-37 | `Bearer ` alone yields the empty key |
| Authentication.LowercasePrefixRejected | backend/src/middlewares/authentication.rs:8-36 | a lowercase `bearer ` prefix is rejected as an invalid bearer token |
| Sessions.TouchUpdatedAt | backend/src/models/sessions.rs:23-34 | an update of an untouched `updated_at` stamps it with now; inserts and explicit values pass through |
| Sessions.ClampLastAccessed | backend/src/models/sessions.rs:85-100 | a stored or set time later than now becomes now, an earlier one is kept, and an absent one becomes now |
| Sessions.ClampedNotLater | backend/src/models/sessions.rs:85-103 | after the update the column holds a time, never later than now |
| Sessions.ClampKeepsEarlier | backend/src/models/sessions.rs:94-98 | a stored time not after now is left as it was, so the update never moves it forward |
| Sessions.SessionTable.FindByToken | backend/src/models/sessions.rs:75-77 | a session with that api key, or none exactly when there is none |
| Sessions.SessionTable.FindById | backend/src/models/sessions.rs:71-73 | a session with that id, or none exactly when there is none |
| Sessions.SessionTable.FindByApiKey | backend/src/models/sessions.rs:37-47 | an unknown key is an invalid bearer token; for a known key a failed enqueue of the "session used" job is its loco error mapped to an `AppError` with no job recorded, and a successful one returns the session and records one job for it |
| Sessions.SessionTable.Authenticate | backend/src/middlewares/authentication.rs:20-26 | header errors come first and enqueue nothing; then the key lookup decides, an unknown key or a failed enqueue propagating as an error |
| Sessions.SessionTable.CreateSession | backend/src/models/sessions.rs:50-69 | a new session has the minted id, the user's id, a 44-character api key, the given name and agent, no last-access time and both timestamps now; a failed id is the 500, code 1000 unknown error that `From<LocoError>` gives, and it and a taken id write nothing |
| Sessions.SessionTable.UpdateLastAccessedAt | backend/src/models/sessions.rs:85-103 | the session's last-access time is clamped and `updated_at` refreshed, and nothing else changes |
| Sessions.SessionTable.PerformSessionUsed | backend/src/workers/session_used.rs:20-28 | the job updates an existing session: an absent or later last-access time becomes now, an earlier one is kept, and nothing else but `updated_at` changes; a missing session is skipped |
| SessionController.Decide | backend/src/controllers/session.rs:51-65 | a login is accepted only for the found, verified user whose password matches; every rejection is a validation failure, an invalid e-mail or password, or an unverified e-mail |
| SessionController.ValidationComesFirst | backend/src/controllers/session.rs:51 | invalid parameters are rejected before any lookup, whatever the user table holds |
| SessionController.UnknownEmailRejected | backend/src/controllers/session.rs:52-57 | an unknown e-mail is an invalid e-mail or password |
| SessionController.UnverifiedWhateverPassword | backend/src/controllers/session.rs:59-61 | an unverified user is refused as unverified, whatever password is sent |
| SessionController.WrongPasswordRejected | backend/src/controllers/session.rs:63-65 | a verified user with a wrong password gets the same answer as an unknown e-mail |
| SessionController.AcceptedExactlyWhenAllPass | backend/src/controllers/session.rs:51-67 | a login is accepted exactly when the parameters are valid, the user exists and is verified, and the password matches |
| SessionController.Create | backend/src/controllers/session.rs:45-71 | a rejected login returns its error and writes nothing; an accepted login with a free minted id answers 201 with the new session for that user (minted id, generated key, the given name and agent, no last access); a failed id is the 500 unknown error and writes nothing |
| SessionController.Current | backend/src/controllers/session.rs:87-94 | the answer is 200 with the session and the user who owns it, or EntityNotFound when that user is gone |
| SessionController.HandleCurrent | backend/src/controllers/session.rs:87-94 | header, key and enqueue errors propagate; otherwise the session the key belongs to decides the answer; exactly one "session used" job is queued, for that session, when the key is known and the enqueue succeeds, and none otherwise |
| AppErrors.GeneralInternalServerError | backend/src/error/app_error.rs:46-53 | status 500, code 1000, and the given message as details |
| AppErrors.QueueProviderMissing | backend/src/error/app_error.rs:57-59 | status 500, code 3001, and the code's fixed message as details |
| AppErrors.TaskNotFound | backend/src/error/app_error.rs:63-72 | status 404, code 4001, and the given message as details |
| AppErrors.Root | backend/src/error/app_error.rs:77 | the error under every backtrace wrapper is not itself a wrapper |
| AppErrors.FromLocoError | backend/src/error/app_error.rs:74-88 | the mapping is total and yields only status 500 or 404 |
| AppErrors.MappingSeesThroughBacktraces | backend/src/error/app_error.rs:77 | a wrapped error maps to exactly what its innermost error maps to |
| AppErrors.MappingByVariant | backend/src/error/app_error.rs:78-85 | a message maps to 500, code 1000 with that message; a missing queue provider to 500, code 3001; a missing task to 404, code 4001 with its text; every other variant to 500, code 1000, "An unknown error occurred." |
| AppErrors.NotFoundOnlyForTasks | backend/src/error/app_error.rs:74-88 | the status is 404 exactly for a missing task, and only codes 1000, 3001 and 4001 appear |
| AppErrors.NextIdFailedIsUnknownError | backend/src/error/app_error.rs:81-85 | the generator's unmapped `Error::Any`, passed through `?`, answers 500 with code 1000 and "An unknown error occurred." |
| Routes.RouteGroup.WithPrefix | backend/src/utils/routes.rs:48 | setting a group's prefix replaces it and keeps the handlers |
| Routes.RouteGroup.Paths | backend/src/app.rs:98-109 | each handler answers on the group prefix (empty when absent) followed by its own uri |
| Routes.ComposedPrefix | backend/src/utils/routes.rs:36-45 | without a builder prefix the group keeps its own; with one, the result starts with it and continues with the group's prefix or nothing |
| Routes.Prefixed | backend/src/utils/routes.rs:35-49 | the stored group keeps its handlers and gets the builder prefix followed by its own, or is unchanged when the builder has none |
| Routes.ExtendedAppRoutes.Empty | backend/src/utils/routes.rs:10-15 | no prefix and no groups |
| Routes.ExtendedAppRoutes.Prefix | backend/src/utils/routes.rs:17-27 | the first prefix is stored as given, later ones are appended; the groups are untouched |
| Routes.ExtendedAppRoutes.ResetPrefix | backend/src/utils/routes.rs:29-33 | the prefix is cleared and the groups are untouched |
| Routes.ExtendedAppRoutes.AddRoute | backend/src/utils/routes.rs:35-54 | the builder's prefix stays as it was, and the prefixed group is appended after the earlier ones |
| Routes.ExtendedAppRoutes.Into | backend/src/utils/routes.rs:57-61 | the app routes are the groups in the order they were added |
| Routes.PrefixTwice | backend/src/utils/routes.rs:17-27 | `prefix(a)` then `prefix(b)` on an empty builder stores `a` followed by `b` |
| Routes.ResetThenAddKeepsGroup | backend/src/utils/routes.rs:29-43 | after a reset, an added group keeps its own prefix |
| Routes.GroupWithoutPrefix | backend/src/utils/routes.rs:38 | a group without a prefix gets just the builder's |
| Routes.ComposedPrefixNests | backend/src/utils/routes.rs:17-45 | composing under `a` followed by `b` is `a` in front of composing under `b` |
| AppRouting.BuildAppRoutes | backend/src/app.rs:94-110 | the app's six groups, in order: the non-versioned status group and the openapi controller's non-versioned group under `/api`, then the user, session, status and institution groups under `/api/v1`; every group sits under `/api`, the last four under `/api/v1` |
| AppRouting.OpenapiPaths | backend/src/controllers/openapi.rs:40-44 | the openapi controller's `routes`, added under `/api`, answer at `/api/openapi.json` and `/api/openapi.yaml` |
| AppRouting.NonVersionedSpelledOut | backend/src/app.rs:100-102 | the non-versioned status group answers under `/api/status` |
| AppRouting.AccountPrefixesSpelledOut | backend/src/app.rs:101-106 | the user and session groups answer under `/api/v1/users` and `/api/v1/sessions` |
| AppRouting.StatusPrefixSpelledOut | backend/src/app.rs:101-107 | the versioned status group answers under `/api/v1/status` |
| AppRouting.InstitutionsPrefixSpelledOut | backend/src/app.rs:101-108 | the institutions group answers under `/api/v1/external-bank-institutions` |
| AppRouting.SessionPaths | backend/src/controllers/session.rs:96-101 | the stored paths of the login and current-session handlers are `/api/v1/sessions/` and `/api/v1/sessions/current` |
| TypeName.FindSeparator | backend/src/utils/type_name.rs:5 | the first position from `from` on where `::` occurs, or none when there is no later occurrence |
| TypeName.BeforeFirstSeparator | backend/src/utils/type_name.rs:5 | the text before the first `::` holds none |
| TypeName.Split | backend/src/utils/type_name.rs:5 | `split("::")` yields at least one piece, none containing `::` |
| TypeName.JoinSplit | backend/src/utils/type_name.rs:5 | joining the pieces with `::` gives the input back, so the split loses nothing |
| TypeName.SplitSeparatorFree | backend/src/utils/type_name.rs:5 | text without `::` splits into itself alone |
| TypeName.LastAfterFirst | backend/src/utils/type_name.rs:5 | the last piece of a name is the last piece of what follows its first `::` |
| TypeName.LastIsSuffix | backend/src/utils/type_name.rs:5 | the last piece is a suffix of the name |
| TypeName.PrecededInSuffix | backend/src/utils/type_name.rs:5 | a piece preceded by `::` in a suffix is so preceded in the whole name |
| TypeName.LastIsPreceded | backend/src/utils/type_name.rs:5 | when the name has a `::`, the last piece directly follows one: it is the text after the last `::` |
| TypeName.TypeNameOnly | backend/src/utils/type_name.rs:3-6 | the result is a suffix of the full name, holds no `::`, and follows a `::` whenever the name has one |
| TypeName.NoSeparatorUnchanged | backend/src/utils/type_name.rs:5 | a name without `::` comes back unchanged |
| TypeName.Idempotent | backend/src/utils/type_name.rs:5 | applying it twice gives the same as once |
| TypeName.FindsFirst | backend/src/utils/type_name.rs:5 | the search finds the earliest occurrence |
| TypeName.ColonFree | backend/src/utils/type_name.rs:5 | text without a colon contains no `::` |
| TypeName.SplitsAfterHead | backend/src/utils/type_name.rs:5 | in `head::rest` with a colon-free head, the first `::` ends the head |
| TypeName.PathExample | backend/src/utils/type_name.rs:3-6 | `financrr::models::User` reduces to `User` |
| StringExt.WordLength | backend/financrr_macros_impl/src/utils/string.rs:7 | a word runs to the first whitespace character |
| StringExt.SplitWhitespace | backend/financrr_macros_impl/src/utils/string.rs:7 | `split_whitespace` yields non-empty words without whitespace |
| StringExt.DeleteWhitespace | backend/financrr_macros_impl/src/utils/string.rs:7 | the reference deletion leaves no whitespace and never lengthens the text |
| StringExt.DeleteAppend | backend/financrr_macros_impl/src/utils/string.rs:7 | deletion distributes over concatenation, so the order of what is kept is preserved |
| StringExt.DeleteNothing | backend/financrr_macros_impl/src/utils/string.rs:7 | text without whitespace is left as it is by the deletion |
| StringExt.RemoveIsDelete | backend/financrr_macros_impl/src/utils/string.rs:5-9 | splitting on whitespace and concatenating the words is exactly deleting the whitespace characters |
| StringExt.NoWhitespaceLeft | backend/financrr_macros_impl/src/utils/string.rs:5-9 | the result has no whitespace and a second application changes nothing |
| StringExt.FreeTextUnchanged | backend/financrr_macros_impl/src/utils/string.rs:5-9 | text without whitespace comes back unchanged |
| StringExt.KeepsEveryOtherCharacter | backend/financrr_macros_impl/src/utils/string.rs:5-9 | every non-whitespace character occurs as often in the result as in the input |
| StringExt.DeleteCounts | backend/financrr_macros_impl/src/utils/string.rs:7 | the same count preservation for the reference deletion |
| StringExt.WordSpace | backend/financrr_macros_impl/src/utils/string.rs:7 | a word followed by a space loses only the space |
| StringExt.SpacedWords | backend/financrr_macros_impl/src/utils/string.rs:7 | four words separated by spaces are run together |
| StringExt.DeleteExample | backend/financrr_macros_impl/src/utils/string.rs:7 | `Option < JsonReference >` loses its spaces in the reference deletion |
| StringExt.OptionExample | backend/financrr_macros_impl/src/impls/app_errors.rs:95 | `Option < JsonReference >` normalises to `Option<JsonReference>`, the spelling the error macro compares against |
| Strings.StripSuffix | backend/src/bank_account_linking/client.rs:117-120 | a present suffix is removed once and an absent one leaves the text alone |
| BankClient.NormalizeEndpoint | backend/src/bank_account_linking/client.rs:122-130 | the endpoint gains a leading `/` when it lacks one and a trailing `/` when it lacks one, and is otherwise kept; an endpoint with both is unchanged |
| BankClient.BuildRequestUrl | backend/src/bank_account_linking/client.rs:116-133 | the url always ends with `/` |
| BankClient.RequestUrlShape | backend/src/bank_account_linking/client.rs:116-133 | the url starts with the api url with at most one trailing `/` removed, ends with the normalised endpoint, and is exactly as long as the two together |
| BankClient.StripsOneSlashOnly | backend/src/bank_account_linking/client.rs:117-120 | only one trailing slash is stripped, so `x//` keeps one, and a single trailing slash makes no difference |
| BankClient.SlashedEndpointUnchanged | backend/src/bank_account_linking/client.rs:122-130 | an endpoint that starts and ends with `/` is inserted unchanged |
| BankClient.SlashesAreNormalised | backend/src/bank_account_linking/client.rs:122-130 | adding the missing leading or trailing slash to an endpoint does not change the url |
| BankClient.TokenPaths | backend/src/bank_account_linking/client.rs:83-102 | the token, refresh and institutions endpoints land under `/api/v2/` of a base without a trailing slash |
| BankClient.SuffixesExtendApiV2 | backend/src/bank_account_linking/client.rs:17-101 | the three endpoint suffixes are `API_V2` followed by their own paths |
| BankClient.DefaultTokenUrl | backend/src/services/custom_configs/bank_data_linking.rs:17-19 | the default api url gives `https://bankaccountdata.gocardless.com/api/v2/token/new/` |
| BankClient.RenewalPeriod | backend/src/bank_account_linking/client.rs:53-57 | the period is `access_expires - 5`, defined exactly when `access_expires` is at least 5 |
| BankClient.TokenHolder.GetToken | backend/src/bank_account_linking/client.rs:112-114 | the current access token |
| BankClient.TokenHolder.ApplyRenewal | backend/src/bank_account_linking/client.rs:62-70 | a successful refresh overwrites the access token and its expiry and keeps the refresh token; a failed one changes nothing |
| BankClient.ParseResponse | backend/src/bank_account_linking/client.rs:139-150 | a successful response yields its body; any other yields a general internal server error with empty details |
| Institutions.LowerChar | backend/src/bank_account_linking/institutions.rs:36-39 | ASCII upper-case letters move to lower case and every other character is kept |
| Institutions.ToLower | backend/src/bank_account_linking/institutions.rs:36-39 | lowercasing keeps the length, maps every character, and leaves no upper-case letter |
| Institutions.LowerCountries | backend/src/bank_account_linking/institutions.rs:34-40 | only the country codes change, each to its lower-case form |
| Institutions.Normalize | backend/src/bank_account_linking/institutions.rs:34-43 | no kept institution lists `xx`, and all its country codes are lowercase |
| Institutions.NormalizeFromInput | backend/src/bank_account_linking/institutions.rs:34-43 | every output entry is an input institution with only its countries lowercased |
| Institutions.NormalizeAppend | backend/src/bank_account_linking/institutions.rs:34-43 | the transform distributes over concatenation, so relative order is kept |
| Institutions.NormalizeSingle | backend/src/bank_account_linking/institutions.rs:38-42 | one institution is kept, lowercased, exactly when its lowercased countries lack `xx` |
| Institutions.NeverDropped | backend/src/bank_account_linking/institutions.rs:34-43 | every non-sandbox institution appears, lowercased, right after the output of those before it |
| Institutions.UppercaseSandboxRemoved | backend/src/bank_account_linking/institutions.rs:38-42 | an institution listing `XX` in any case is removed |
| Institutions.GetSupportedInstitutions | backend/src/bank_account_linking/institutions.rs:19-48 | a failed response is an error and no list; a successful one yields the normalised list |
| CustomConfigBase.Environment.Name | backend/src/services/custom_configs/base.rs:43 | the file name is the environment's printed name: `development`, `production`, `test`, or the custom name |
| CustomConfigBase.GetConfigFolder | backend/src/services/custom_configs/base.rs:13-40 | the variable's value when it is set, `config` when it is not |
| CustomConfigBase.Slashed | backend/src/services/custom_configs/base.rs:46-48 | the folder ends with exactly the `/` it had, or gains one |
| CustomConfigBase.BuildPath | backend/src/services/custom_configs/base.rs:44-53 | the pushes build the folder, a `/` unless it already ends with one, the file name and `.yaml` |
| CustomConfigBase.SlashedIsStripped | backend/src/services/custom_configs/base.rs:46-48 | so there is never a doubled slash: the folder without its trailing `/`, then one `/` |
| CustomConfigBase.PathShape | backend/src/services/custom_configs/base.rs:44-53 | the path starts with the folder and ends with the file name and `.yaml` |
| CustomConfigBase.DefaultDevelopmentPath | backend/src/services/custom_configs/base.rs:14-53 | with the variable unset, development reads `config/development.yaml` |
| CustomConfigBase.CustomConfigInner.ComputeConfigured | backend/src/services/custom_configs/base.rs:76-91 | the early returns and the loop answer true exactly when the section is present, switched on, and some provider is switched on |
| CustomConfigBase.CustomConfigInner.IsBankDataLinkingConfigured | backend/src/services/custom_configs/base.rs:74-93 | the answer is that predicate, it is stored in the cell, and a stored answer is the one returned |
| CustomConfigBase.AskTwice | backend/src/services/custom_configs/base.rs:75 | asking twice gives the same answer both times |
| CustomConfigBase.ConfiguredCases | backend/src/services/custom_configs/base.rs:160-205 | the four unit-test configurations give true, false, false and false |
| CustomConfigBase.DisabledProvidersOnly | backend/src/services/custom_configs/base.rs:85-91 | a section whose providers are all switched off is not configured |
| CustomConfig.LoadPath | backend/src/services/custom_config.rs:33-48 | the path starts with the folder, defaulting to `config`, and ends with the environment's name and `.yaml` |
| CustomConfig.FolderJoin | backend/src/services/custom_config.rs:40-45 | a folder without a trailing `/` gets exactly one inserted, and one with it is used as it is |
| CustomConfig.UnsetVariableUsesDefault | backend/src/services/custom_config.rs:13-35 | an unset variable puts the file under `config/` |
| OpensearchConfig.FromFields | backend/src/services/custom_configs/opensearch.rs:3-30 | deserialising keeps the given fields, and missing flags default to `disable_proxy = true` and `disable_cert_validation = false` |
| OpensearchConfig.ProtocolPrefix | backend/src/services/custom_configs/opensearch.rs:18 | only the https protocol yields a url beginning `https://` |
| OpensearchConfig.UrlShape | backend/src/services/custom_configs/opensearch.rs:20 | in `<protocol>://<host>:<port>` the head and the `:`-prefixed port are where the format puts them |
| OpensearchConfig.GetUrl | backend/src/services/custom_configs/opensearch.rs:17-21 | the url begins `https://` exactly when https is set, begins with the protocol, `://`, host and `:`, ends with `:` and the decimal port, and has just those characters |
| OpensearchConfig.PortReadsBack | backend/src/services/custom_configs/opensearch.rs:20 | the port text at the end reads back as the port and has a leading zero only for port 0 |
| OpensearchConfig.PortHasNoColon | backend/src/services/custom_configs/opensearch.rs:20 | the port text holds no colon, so it is everything after the last one |
| BankAccountFactory.LastOfType | backend/src/factories/bank_account_factory.rs:57-61 | the position of the last balance of the type, or none when there is none |
| BankAccountFactory.AmountOrZero | backend/src/factories/bank_account_factory.rs:62-64 | an amount that parses as an i64 gives that value, any other gives 0 |
| BankAccountFactory.SelectBalance | backend/src/factories/bank_account_factory.rs:57-73 | 0 without a balance of the type, else the parsed amount (or 0) of the last one |
| BankAccountFactory.LastOneDecides | backend/src/factories/bank_account_factory.rs:57-64 | only the last balance of the type counts; earlier ones are never consulted |
| BankAccountFactory.OtherTypesIgnored | backend/src/factories/bank_account_factory.rs:60-69 | balances of other types do not change the selection |
| BankAccountFactory.FractionCountsAsZero | backend/src/factories/bank_account_factory.rs:62-64 | a last balance of `12.34` gives 0, not the earlier entries |
| BankAccountFactory.IntegerAmountTaken | backend/src/factories/bank_account_factory.rs:62 | an integer amount in decimal is taken as it is |
| BankAccountFactory.Factory.FromGoCardless | backend/src/factories/bank_account_factory.rs:35-92 | the imported account and then the bank account are appended, each with its own id; the account references the import, holds the last available balance, and the expected balance in both original and expected fields; a failed id is the 500, code 1000 unknown error that `From<LocoError>` gives; a failed first id or a taken import id writes nothing; once the import is inserted, a failed second id or a taken account id leaves the import row in place and writes no account; on a monotone clock the import's id is the smaller |
| Decimal.DigitChar | backend/src/types/snowflake.rs:44 | each digit value prints as a digit character that reads back as it |
| Decimal.Digits | backend/src/types/snowflake.rs:44 | a natural number prints as non-empty decimal digits with no leading zero except for 0 itself |
| Decimal.FormatInt | backend/src/types/snowflake.rs:44 | an integer prints as non-empty text |
| Decimal.FoldDigitsAppend | backend/src/types/snowflake.rs:92 | reading digits left to right over a concatenation reads the first part, then the second |
| Decimal.DigitsRoundTrip | backend/src/types/snowflake.rs:77-94 | the printed digits of a number read back as the number |
| Decimal.AccumulateUp | backend/src/types/snowflake.rs:92 | accumulating a non-negative number succeeds exactly on all-digit text whose value stays within the upper bound, and yields that value |
| Decimal.AccumulateDown | backend/src/types/snowflake.rs:92 | accumulating a negative number succeeds exactly on all-digit text whose negated value stays within the lower bound, and yields it |
| Decimal.AccumulateSpec | backend/src/types/snowflake.rs:92 | both directions together: the checked accumulation succeeds exactly when the signed value is in range |
| Decimal.ParseIntSpec | backend/src/types/snowflake.rs:92 | `str::parse` succeeds exactly on an optional sign (a `-` only for signed types) followed by at least one digit, with the value in the type's range, and yields that value |
| Decimal.FormatParse | backend/src/types/snowflake.rs:77-94 | parsing the printed form of any in-range integer gives it back |
| Decimal.FormatParseI64 | backend/src/types/snowflake.rs:77-94 | every i64 survives printing and parsing |
| Decimal.FormatParseU64 | backend/src/views/pagination.rs:36-42 | every u64 survives printing and parsing as u64 |
| SnowflakeId.FromI64 | backend/src/types/snowflake.rs:18-28 | the wrapper holds the given value |
| SnowflakeId.ToI64 | backend/src/types/snowflake.rs:30-40 | unwrapping and wrapping again gives the same snowflake |
| SnowflakeId.ConversionsInverse | backend/src/types/snowflake.rs:18-40 | the two conversions are mutual inverses |
| SnowflakeId.Display | backend/src/types/snowflake.rs:42-46 | the text is non-empty and starts with `-` exactly for negative ids |
| SnowflakeId.Serialize | backend/src/types/snowflake.rs:77-84 | serialising emits the same decimal text that display prints |
| SnowflakeId.Deserialize | backend/src/types/snowflake.rs:86-94 | deserialising succeeds exactly on well-formed decimal whose value fits in i64, and yields that id |
| SnowflakeId.SerializeRoundTrip | backend/src/types/snowflake.rs:77-94 | deserialising the serialised form of any id gives it back |
| SnowflakeId.DeserializeRejects | backend/src/types/snowflake.rs:91-92 | text that is not decimal, such as the empty string, `12a` or a lone `-`, is rejected |
| SnowflakeId.DeserializeRejectsOverflow | backend/src/types/snowflake.rs:91-92 | decimal numbers above the i64 maximum are rejected |
| SnowflakeId.DeserializeAcceptsNegative | backend/src/types/snowflake.rs:57-94 | negative ids are accepted although the schema advertises a minimum of 0 |
| SnowflakeId.OrderFollowsId | backend/src/types/snowflake.rs:13-16 | equality and the order of snowflakes are those of their ids: total and strict |
| PendingRunner.Pending | backend/src/opensearch/migration_system/migrator.rs:17-24 | the pending steps are no more than the declared steps |
| PendingRunner.PendingAreNew | backend/src/opensearch/migration_system/migrator.rs:21-24 | every pending step is declared and not already recorded |
| PendingRunner.PendingAppend | backend/src/opensearch/migration_system/migrator.rs:21-24 | the filter keeps declaration order: filtering a concatenation filters each part |
| PendingRunner.PendingKeepsNew | backend/src/opensearch/migration_system/migrator.rs:21-24 | every declared step that is not recorded is pending |
| PendingRunner.NotPendingMeansRecorded | backend/src/opensearch/migration_system/migrator.rs:21-24 | every declared step is either recorded already or pending |
| PendingRunner.NothingPendingAfterRecording | backend/src/opensearch/migration_system/migrator.rs:17-38 | once every declared step is recorded, nothing is pending |
| PendingRunner.RerunFindsNothing | backend/src/opensearch/migration_system/migrator.rs:16-41 | after a successful run records what it ran, a second run finds nothing pending |
| PendingRunner.RecordTable.RunPending | backend/src/opensearch/migration_system/migrator.rs:28-38 | runs the pending steps in order, stopping at the first failure; succeeds exactly when every pending step succeeds; records the whole batch in one insert only on success and only when it is non-empty; on failure reports that step's error and leaves the table unchanged |
| Migrator.MigrateUp | backend/src/opensearch/migration_system/migrator.rs:12-41 | with `Version02022025` already recorded nothing runs and nothing is written; otherwise it runs, and is recorded in one insert exactly when its `up` succeeds, whose error is returned otherwise |
| FixtureExecutor.Execute | backend/src/fixtures/system/fixture_executor.rs:13-46 | runs the unrecorded fixtures among currency then admin, in that order; on success both are recorded; on failure the error of the last fixture run is returned and nothing is recorded; a failing currency fixture stops admin from running |
| Validation.Utf8Width | backend/backend/src/util/validation.rs:73-76 | a character takes one to four UTF-8 bytes, exactly one for ASCII |
| Validation.ByteLength | backend/backend/src/util/validation.rs:73-76 | `str::len` counts bytes: at least the character count and at most four times it |
| Validation.ByteLengthAppend | backend/backend/src/util/validation.rs:73-76 | the byte length of a concatenation is the sum of the parts' byte lengths |
| Validation.AsciiByteLength | backend/backend/src/util/validation.rs:73-76 | for ASCII text the byte length equals the character count |
| Validation.MatchesIff | backend/backend/src/util/validation.rs:80-96 | an unanchored one-character-class regex matches exactly when some character of the text is in the class |
| Validation.ValidatePassword | backend/backend/src/util/validation.rs:71-105 | succeeds exactly when the byte length is within 8..128 and the password has an uppercase letter, a lowercase letter, a digit and a special character; otherwise the error carries the code `Password is invalid` and precisely one parameter, with its fixed value, per failed rule |
| Validation.MatchAt | backend/backend/src/util/validation.rs:80-96 | a class character at any position makes the regex match |
| Validation.EuroCountsThree | backend/backend/src/util/validation.rs:21-95 | `Aa1€` is six bytes and too short; `Aa1€€` has only five characters but eight bytes and passes, `€` counting as special |
| Validation.EightCharactersPass | backend/backend/src/util/validation.rs:21-105 | an eight-character ASCII password with every class passes |
| Validation.SevenCharactersFail | backend/backend/src/util/validation.rs:21-75 | a seven-character ASCII password with every class fails on the minimum length |
| Phantom.Phantom.constructor | backend/backend/src/wrapper/types/phantom.rs:20-48 | a new handle holds the id, has nothing cached, and its id reads back |
| Phantom.Phantom.FromOption | backend/backend/src/wrapper/types/phantom.rs:27-29 | no id gives no handle; an id gives a fresh handle with that id and nothing cached |
| Phantom.Phantom.GetInner | backend/backend/src/wrapper/types/phantom.rs:31-36 | a cached entity is returned without fetching; otherwise the fetch result is returned and cached on success, and the cache stays empty on failure; the id never changes |
| Phantom.Phantom.FetchInner | backend/backend/src/wrapper/types/phantom.rs:38-40 | always returns a fresh fetch by the id and changes nothing |
| Phantom.Phantom.SetInner | backend/backend/src/wrapper/types/phantom.rs:42-44 | the cache holds the given entity and the id is kept |
| Phantom.Phantom.GetId | backend/backend/src/wrapper/types/phantom.rs:46-48 | the handle's id, the same id its serialised form reads back as |
| Phantom.Phantom.Serialize | backend/backend/src/wrapper/types/phantom.rs:51-58 | the handle is written as its id alone, text that reads back as that i32 |
| Phantom.Phantom.Deserialize | backend/backend/src/wrapper/types/phantom.rs:60-68 | succeeds exactly when the text reads as an i32, passing on the parse error otherwise, and builds a fresh handle with that id and nothing cached |
| Phantom.RoundTrip | backend/backend/src/wrapper/types/phantom.rs:51-68 | serialising then deserialising keeps the id and drops the cached entity |
| Phantom.GetInnerTwice | backend/backend/src/wrapper/types/phantom.rs:31-36 | once a load succeeds, a second load returns the same entity whatever a second fetch would give; the first load on an empty cache is the fetch |
| Pagination.ReadField | backend/src/views/pagination.rs:21-42 | an absent field takes its default; a present one is accepted exactly when it is unsigned decimal within u64, and then has that value |
| Pagination.Deserialize | backend/src/views/pagination.rs:19-50 | the query is accepted exactly when both fields are, and then holds each field's value; otherwise it reports the page size's error, or the page's when only that one fails |
| Pagination.Into | backend/src/views/pagination.rs:27-34 | the conversion to the framework's query keeps page and page size |
| Pagination.DefaultsWhenAbsent | backend/src/views/pagination.rs:21-50 | an empty query gives page size 25 and page 1 |
| Pagination.DigitsReadBack | backend/src/views/pagination.rs:36-42 | any u64 page size and page written in decimal read back unchanged |
| Pagination.ZeroAccepted | backend/src/views/pagination.rs:36-42 | a page size of 0 is accepted; there is no lower bound |
| Pagination.NonNumericRejected | backend/src/views/pagination.rs:36-42 | text that is not unsigned decimal in either field rejects the query |
| Pagination.NegativeRejected | backend/src/views/pagination.rs:36-42 | a negative page size is rejected |

## Left out

- Concurrency inside `next_id`. The source loads and stores `last_timestamp`
  and `sequence` as separate atomics. The model covers sequential calls only
  and claims nothing about thread safety.
- Spin-wait liveness. The clock readings are a supplied sequence, and
  `SnowflakeGenerator.ClockSupports` requires that a later reading differs
  from the last timestamp whenever the sequence wraps. Termination of the
  real loop cannot follow from the code.
- The epoch subtraction inside `timestamp`. Clock readings are taken as the
  already-offset millisecond values.
- `find_next_node_id` (called at `snowflake_generator.rs:41`) and
  `validate_node_id` (called at `instance_handler.rs:28`) are not in the
  source. Allocation is modelled as `instances.rs:29-60`, and validation as
  the bound at `snowflake_generator.rs:43-46`.
- Timers, schedulers, `tokio::spawn`, `exit` and `abort`. A heartbeat is one
  explicit tick, and abort is a terminal state. Token renewal is one
  renewal step.
- Database and ORM effects: queries, transactions, the `lock_exclusive` row
  lock and migration statement splitting. Tables are in-memory sequences,
  and cross-process exclusion is the atomicity of one method call.
- The clock (`Utc::now`, `Local::now`) and the operating system's random
  bytes are parameters. SHA-256, argon2 hashing and verification, and the
  entity fetch `from_id` are uninterpreted function parameters. Only the
  base64 shape of a token is modelled.
- The background job queue. Queueing a "session used" job records its
  session id in `usedJobs`; whether `perform_later` succeeds is the
  `enqueue` parameter of `Sessions.SessionTable.FindByApiKey`. The job's
  later run is `Sessions.SessionTable.PerformSessionUsed`.
- The HTTP and search transports: GoCardless requests and OpenSearch health
  and transport. A response is a value handed to the model.
- The bodies of the migrations and fixtures: their effect is a supplied
  outcome function per step name.
- `Users.UserTable` omits `find_by_verification_token`, `find_by_reset_token`,
  `find_by_api_key` and `verify_password`. They are single database lookups
  or a call into the password hasher, with no logic of their own.
- Controller and router wiring other than the session controller's decision
  logic and the route groups built in `app.rs`.
- AppRouting.BuildAppRoutes: `app.rs:103` adds `openapi::non_versioned_routes()`,
  which `controllers/openapi.rs` does not define (it has only `routes`). So
  the group is a parameter, and `AppRouting.OpenapiPaths` shows where the
  `routes` handlers would land.
- Instances.FindSmallestAvailableNumber: node ids are unbounded integers, so
  the `i as i16` narrowing at `instances.rs:106-107` is left out. It could
  change the result only with 32768 or more active rows, since the result is
  at most the number of active ids.
- Instances.Registry: each method takes one `now`, where the source reads
  `Utc::now()` separately for each row it filters and for each timestamp it
  writes. The readings are taken as equal within one call.
- Sessions.SessionTable: `UpdateLastAccessedAt` uses one `now` both for the
  clamp (`sessions.rs:86`) and for the `before_save` stamp (`sessions.rs:29`),
  which the source reads separately; they are taken as equal.
- Users.UserTable: `UpdateRow` and the setters built on it use one `now` for
  the changed columns (`Local::now()` at `users.rs:198`, `users.rs:223`,
  `users.rs:238`) and the `before_save` stamp of `updated_at`
  (`users.rs:30`), which the source reads separately; they are taken as equal.
- Configuration loading (YAML, Tera templates, environment-variable reading
  beyond the path and default logic). The GoCardless provider name is not
  part of this model; it is a constructor parameter of
  `BankAccountFactory.Factory`. The currency lookup is a parameter as well.
- The JSON layer of serde. Pagination fields and `Phantom` ids are read from
  their decimal text with `str::parse` rules. No JSON tokenizer is modelled.
- Pagination.Deserialize: when both fields are malformed, serde reports the
  error of the field that comes first in the query string. The model does not
  track key order and always reports the page size's error.
- The `Service` OnceLock singleton and `is_go_cardless_client_configured`.
  The first is a concurrent lazy initialisation; the second is a trivial
  `Option` check.
- Institutions.ToLower: lowercases ASCII letters only, while Rust's
  `to_lowercase` is Unicode-aware. Country codes are ASCII in practice.
- Validation.ValidatePassword: `[A-Z]`, `[a-z]` and `\d` are ASCII classes
  here, while Rust's `regex` treats `\d` as any Unicode decimal digit.
- BankClient.RenewalPeriod: `access_expires - 5` on `u32` is `None` below 5,
  standing for the debug-build overflow panic. Release-build wrap-around is
  not modelled.
