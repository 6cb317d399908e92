# Verified model of the authentication service's hard parts

This project models, in Dafny 4.11, five components of the service and proves what they promise. Every
function, method and lemma has a body; `dafny verify dfyconfig.toml` checks the whole project.

**Authorization decisions behind a cache** (`RedisStore`, `AuthzKeys`, `GrantSql`, `Decisions`, `AuthzCache`,
`AuthzHandler`, `AuthzProtocol`, `AuthzStaleness`, `AuthzFreshness`, `AuthzRevocation`, `AuthzSolo`). The cache
and the handler are classes over a Redis client whose commands change a keyspace in place and may fail after
taking effect. `AuthzProtocol` is the step system: any number of checks, each advancing one database or Redis
operation at a time, with SETs that land late or never, deletes, counter increments, evictions, out-of-band
database edits and a clock. Its theorems hold over every run; `AuthzSolo` ties it back to the handler.

**Hosted sign-in and forced enrolment** (`LoginPolicy`, `Factors`, `EnrolStore`, `Sessions`, `LoginProtocol`,
`LoginSafety`, `LoginTheorems`, `LoginReread`, `EnrolPosts`, `OverlappingPosts`, `AttemptBound`, `EnrolHandler`,
`LoginHandler`). A step system
of password, challenge and enrolment requests that interleave freely, with a history of what was established
when. The handlers are methods over the stores, and each is proved to leave exactly what its request leaves in
the step system, so the run theorems are about them.

**Stored password hashes** (`Text`, `Base64`, `PasswordHash`, `UserStore`, `RehashLifecycle`). A printer and
parser with decimal fields, `$`-separated parts and unpadded base64 (sections 3.2, 3.5 and 4 of RFC 4648), and
the life of one account's hash over sign-ins and deployments. Argon2id (RFC 9106) is a parameter: any
deterministic function that gives keys of the length asked for.

**The audit log** (`AuditLog`, `GrantAudit`, `Redaction`). Keyset pagination while events arrive, the grant
trail as an exact replay of the grants table, and recursive redaction.

**Mail and notices** (`Mail`, `Anomaly`). Dot-stuffing for section 4.5.2 of RFC 5321, and the sliding-window
detector.

Where the code and its own comments differ, the model follows the code:

- `authz/cache.go` speaks of invalidation making a change immediate. `AuthzFreshness.FreshExactlyWithoutStragglers`
  gives the exact condition for a delete.
- `authz/cache.go` also says that the generation counter must outlive every entry that references it, and ignores
  whether the EXPIRE that sees to it was applied. `AuthzRevocation.RevokedEntriesAreNeverServed` holds for as long
  as the counter is kept; `AuthzRevocation.RetiredExactlyUntilTheDeadline` says exactly how long it keeps itself,
  and `AuthzRevocation.LostExpireShortensTheGuarantee` what a lost EXPIRE takes away.
- `authn/user.go` says every path performs one Argon2 computation of the current cost. A stored hash is checked at
  its own cost, and an unusable one at none: `UserStore.OlderHashCostsWhatItDid` is the failing family, and
  `UserStore.EffortIsTodaysIff` and the last clause of `UserStore.Table.Authenticate` the exact condition.
- `authn/password.go` says a rehash is not a downgrade. It brings every cost to the current one, so it lowers a
  cost that was above it: `RehashLifecycle.UpgradeLowersNothingIff`, `RehashLifecycle.MixedCostsAreLowered`.
- `login/mfa.go` says a login whose organization disabled password sign-in in the meantime should not complete.
  The policy is read again, but its methods are not looked at again. `LoginReread.ChallengedLoginCompletes` and
  `LoginReread.EnrolledLoginCompletes` are runs in which it does complete, `LoginReread.StoppedIff` says what does
  stop a login there, and `LoginReread.NeverDisallowedIff` in exactly which builds it never happens.
- `login/enrol.go` and `mfa` speak of an attempt bound. It holds when the posts about a handle come one at a time
  and their writes get through (`EnrolPosts.OneHandleIsBounded`), and `AttemptBound.BoundKeptIff` shows that this is
  the exact condition, for wrong codes and for sessions: two overlapping posts break it, and so does one lost write.
  `OverlappingPosts.OverlapHasNoBound` says how far.
- `login/handler.go` says the session a browser had is replaced because it would be unreachable and still live. One
  made by a commit whose acknowledgement is lost is just that: `Sessions.OneLiveSessionABrowserIff` says that these
  are the only ones.
- `management/page.go` says a token is never silently read as a first page. A token of a list ordered by name
  is, when it is given to the audit log: `AuditLog.FirstPageIff` says exactly which requests are so read. It also
  says that a token with two positions is refused; `AuditLog.NameWithAnIdIsEmpty` is the one that is not.

Instants are integers: milliseconds for the clock and Redis, nanoseconds in `LoginPolicy` and `Anomaly`, where Go's
arithmetic on time is modelled. Strings are
sequences of characters. Passwords, salts and keys are sequences of bytes.

## Model

| member | source | states |
|---|---|---|
| RedisStore.Redis.SetXXKeepTTL | backend/internal/login/enrolstore.go:123-137 | SET with XX and KEEPTTL: a live key is overwritten and keeps its expiry, an expired or missing one is not written; a failed command may or may not have been applied |
| RedisStore.Redis.SetNX | backend/internal/login/enrolstore.go:53-82 | set-if-absent with an expiry: only a key that is not live is written |
| RedisStore.Redis.Incr | backend/internal/authz/cache.go:329-348 | INCR: a missing counter starts at one with no expiry, a counter keeps its expiry, any other string is an error |
| AuthzKeys.FamiliesAreDisjoint | backend/internal/authz/cache.go:143-164 | a grants key, a roles key and a generation key are never the same string, whatever the ids |
| AuthzKeys.GrantsKeyInjective | backend/internal/authz/cache.go:143-150 | for ids without a colon a grants key determines organization, user and project |
| AuthzKeys.RolesKeyInjective | backend/internal/authz/cache.go:152-156 | for ids without a colon a roles key determines organization and project |
| AuthzKeys.KeysIdentifySubjects | backend/internal/authz/cache.go:143-164 | two cached subjects have the same key if and only if they are the same subject |
| AuthzKeys.ColonsWouldCollide | backend/internal/authz/cache.go:143-150 | the exclusion of colons is needed: with them two different subjects share a key |
| GrantSql.HoldingIsWhatTheRowConfers | backend/internal/grantsql/grantsql.go:33-43 | the effective keys are exactly those the row confers: its own as they stand when direct; those an active grant still delegates, in order, when delegated; none when the grant is not active |
| GrantSql.IntersectionIsMembership | backend/internal/grantsql/grantsql.go:37-39 | the delegated branch keeps a key if and only if the row has it and the grant delegates it |
| GrantSql.IntersectionKeyByKey | backend/internal/grantsql/grantsql.go:37-39 | key by key, each as often as the row has it |
| GrantSql.OrderByPermutes | backend/internal/grantsql/grantsql.go:37 | ordering the keys loses and repeats none |
| GrantSql.InsertKeepsOrder | backend/internal/grantsql/grantsql.go:37 | the result of the aggregate is in order |
| GrantSql.AtMostIsByCodePoint | backend/internal/grantsql/grantsql.go:37 | the order is by the first character that differs, a prefix first |
| GrantSql.ReadRoleDefinitions | backend/internal/authz/handler.go:250-273 | the row loop builds the map of role key to permissions of the project |
| GrantSql.DefinitionsAreTheRows | backend/internal/authz/handler.go:260-272 | a role is defined exactly when it has a row, with the permissions of its last one |
| Decisions.DecideNamesTheFirstCarrier | backend/internal/authz/decide.go:61-131 | the decision allows exactly when some grant carries resource type, colon, action, and names the first that does as its policy and in both reasons; a deny names that permission and no role |
| AuthzCache.Cache.RoleKeys | backend/internal/authz/cache.go:187-209 | the grants lookup: a direct entry answers by itself, a delegated one only if its stored generation is the grant's current one |
| AuthzCache.Cache.GetGeneration | backend/internal/authz/cache.go:211-223 | a missing counter reads as zero and a failure as no generation at all |
| AuthzCache.Cache.Roles | backend/internal/authz/cache.go:226-232 | the definitions lookup: a miss, an error and an undecodable entry are all misses |
| AuthzCache.Cache.PutRoleKeys | backend/internal/authz/cache.go:277-289 | a delegated entry is stamped with the generation read at that moment, and not written at all when it cannot be read |
| AuthzCache.Cache.PutRoles | backend/internal/authz/cache.go:292-312 | the definitions entry is written under its key with the TTL |
| AuthzCache.StoredAnswersForItsTtl | backend/internal/authz/cache.go:277-312 | a stored direct entry and stored definitions are what a lookup answers until the TTL is over, and nothing after it |
| AuthzCache.DelegatedAnswersWhileItsCounterStands | backend/internal/authz/cache.go:187-209 | so is a delegated entry, exactly as long as its grant's counter reads what it did when it was stored |
| AuthzCache.UnreadableCounterStoresNothing | backend/internal/authz/cache.go:279-283 | with a counter that cannot be read nothing is stored, and no delegated entry is answered |
| AuthzCache.Cache.InvalidateUser | backend/internal/authz/cache.go:320-322 | the user's entry is deleted and nothing else |
| AuthzCache.Cache.InvalidateProjectRoles | backend/internal/authz/cache.go:356-358 | the project's definitions entry is deleted and nothing else |
| AuthzCache.Cache.InvalidateGrant | backend/internal/authz/cache.go:329-348 | the counter is incremented, then given its time to live if the increment was acknowledged; AuthzRevocation.InvalidateGrantIsTheTwoSteps and AuthzCache.InvalidateGrantLastsADay say what that comes to |
| AuthzCache.InvalidateGrantRetiresExactlyItsEntries | backend/internal/authz/cache.go:329-348 | at the instant of the increment every cached entry of that grant stops answering, and no other entry |
| AuthzCache.InvalidateGrantLastsADay | backend/internal/authz/cache.go:93-96 | with both commands acknowledged the counter reads one more at every instant of the next 86,400,000 milliseconds, and zero from then on |
| AuthzHandler.Collect | backend/internal/authz/handler.go:190-203 | the loop keeps, in order, the role keys that have a definition |
| AuthzHandler.AssembleKeepsDefinedKeys | backend/internal/authz/handler.go:190-203 | a grant handed to the decision is a held key with its own definition, and every such key is handed over |
| AuthzHandler.AssembleKeyByKey | backend/internal/authz/handler.go:190-203 | key by key and in order: nothing for a key without a definition, its grant for any other |
| AuthzHandler.DecisionHasAWitness | backend/internal/authz/handler.go:190-202 | an allow names a held, defined role that carries resource type, colon, action; a deny means there is none |
| AuthzHandler.UncachedMeans | backend/internal/authz/handler.go:230-272 | of the database alone: a held and defined role carries a permission exactly when the user's row confers the role and the project's row for it lists the permission |
| AuthzHandler.Handler.Fill | backend/internal/authz/handler.go:167-188 | inside one transaction each missing input is read and then written to the cache; any database failure fails the whole |
| AuthzHandler.Handler.GrantsFor | backend/internal/authz/handler.go:148-203 | the read-through as a whole: what is answered and what the cache holds afterwards, for every pattern of failures |
| AuthzHandler.Handler.CheckAuthorization | backend/internal/authz/handler.go:47-131 | fails closed: a decision is made only from two complete inputs, and allows exactly when some held, defined role carries resource type, colon, action; without a cache, exactly when the user's row confers a role whose row lists it |
| AuthzProtocol.StepKeepsInv | backend/internal/authz/handler.go:148-203 | every step of every reader and writer keeps each cached document, each SET in flight and each held input genuine: what one snapshot said about that subject |
| AuthzProtocol.RunKeepsInv | backend/internal/authz/handler.go:148-203 | so does every run |
| AuthzProtocol.LandKeepsInv | backend/internal/authz/cache.go:277-312 | a SET that lands late stores something genuine, with an expiry counted from its landing |
| AuthzProtocol.NextIsValid | backend/internal/authz/handler.go:148-203 | each operation of a check leads to a state where what the check holds is genuine |
| AuthzProtocol.LiveDocument | backend/internal/authz/cache.go:234-273 | a live document is about the subject whose key it is under and has not outlived its TTL |
| AuthzSolo.SoloReaderIsTheHandler | backend/internal/authz/handler.go:148-203 | a check that runs without interference is exactly the handler's read-through: same answer, same cache |
| AuthzStaleness.BoundedStaleness | backend/internal/authz/handler.go:148-203 | over every interleaving, each input of a decision is what the database said at one instant no older than the TTL plus that reader's own delays |
| AuthzStaleness.CachedRefinesUncached | backend/internal/authz/cache.go:234-273 | once the database has been unchanged for that long, the decision is the one made without a cache |
| AuthzStaleness.EveryAllowHasAWitness | backend/internal/authz/decide.go:61-131 | every allow rests on a role conferred in one snapshot, by an active grant when delegated, whose row in the roles used lists resource type, colon, action; every deny on the absence of one |
| AuthzStaleness.RevokedGrantConfersNothing | backend/internal/grantsql/grantsql.go:33-43 | a delegated row under a grant that is not active confers no role |
| AuthzFreshness.FreshAfterInvalidation | backend/internal/grant/handler.go:215-231 | after the delete that follows the commit, if no older SET is under way, every check that starts later sees that version or a newer one, for all runs |
| AuthzFreshness.FreshExactlyWithoutStragglers | backend/internal/authz/cache.go:320-322 | and that is the exact condition: with an older SET under way some run serves the old row to a later check |
| AuthzFreshness.StragglersBreakFreshness | backend/internal/authz/cache.go:292-312 | how it fails: any older SET, issued or about to be, can reach a check that starts after the delete |
| AuthzFreshness.StragglersAreReached | backend/internal/grant/handler.go:101-106 | and such a SET is brought under way from every start by one check and one change |
| AuthzFreshness.RunStaysClean | backend/internal/grant/handler.go:116-121 | what every run keeps after a clean invalidation: nothing older in the cache, in flight, or about to be written |
| AuthzRevocation.RevokedEntriesAreNeverServed | backend/internal/authz/cache.go:187-223 | an entry stamped before the INCR of a revocation is never accepted after it, however late its SET lands and whatever becomes of the EXPIRE, for as long as the counter is kept |
| AuthzRevocation.InvalidateGrantIsTheTwoSteps | backend/internal/authz/cache.go:329-348 | for every pair of fates the method leaves the keyspace that the two steps of the step system leave, as far as each was applied, so the run theorems are about it |
| AuthzRevocation.ExpireKeepsThemOut | backend/internal/authz/cache.go:329-348 | with the EXPIRE applied, at once or later, such an entry is accepted only if TTL and delays add up to more than the counter's day |
| AuthzRevocation.RevocationIsFinal | backend/internal/authz/cache.go:70-96 | so with the TTL of 30 seconds and delays of at most a day less that TTL the stamp check rejects it outright, once the EXPIRE was applied |
| AuthzRevocation.RetiredExactlyUntilTheDeadline | backend/internal/authz/cache.go:329-348 | the exact guarantee after an INCR: a retired entry still on its way is refused by every check up to an instant if and only if the counter cannot have expired by then |
| AuthzRevocation.LostExpireShortensTheGuarantee | backend/internal/authz/cache.go:346-348 | what an ignored failure of EXPIRE costs: with it applied the guarantee lasts a day, with it lost only as long as the expiry the counter already had |
| AuthzRevocation.AcceptedFromTheDeadline | backend/internal/authz/cache.go:93-96 | how it ends: once the counter can have expired some run, in which nothing touches it but revocations, accepts the retired entry |
| AuthzRevocation.RetiredEntriesAreReached | backend/internal/authz/cache.go:277-289 | from every start some run has a retired delegated entry still on its way |
| AuthzRevocation.StampsStayBelow | backend/internal/authz/cache.go:329-348 | while the counter is kept it only grows, and no stamp is ahead of it |
| AuthzRevocation.NewStampsAreCurrent | backend/internal/authz/cache.go:277-289 | a stamp that was not there before was read off the counter in that very step |
| AuthzRevocation.LostCounterRevivesEntries | backend/internal/authz/cache.go:93-96 | the counter must not be lost in between: if it is, a retired value recurs and its entry is served again |
| Base64.UngroupOfRegroup | backend/internal/authn/password.go:274-275 | bytes survive being regrouped into six bits and back, for every length |
| Base64.StrictOfEncode | backend/internal/authn/password.go:319-327 | every byte string reads back from its unpadded base64, which consists of alphabet symbols only |
| Base64.EncodeOfDecode | backend/internal/authn/password.go:319-327 | strictness: apart from line breaks a byte string has one encoding |
| Base64.EncodeIsRfc4648 | backend/internal/authn/password.go:274-275 | as section 4 of RFC 4648 says: each character is the letter of the next six bits, and there are as many as the bits need |
| Base64.NewlinesAreSkipped | backend/internal/authn/password.go:319-327 | before decoding exactly the carriage returns and line feeds are dropped |
| Text.SplitOfJoin | backend/internal/authn/password.go:286 | splitting at a separator takes apart exactly what joining put together |
| Text.JoinOfSplit | backend/internal/mail/mail.go:268 | joining puts back what splitting took apart |
| Text.ScanOfDecimal | backend/internal/authn/password.go:298-307 | a printed number scans back and leaves the text after it |
| Text.ScanOfDigits | backend/internal/authn/password.go:306 | any digits scan as their number if it fits the type, leading zeros allowed, and are refused if it does not |
| Text.SpacesBeforeANumber | backend/internal/authn/password.go:306 | spaces before a number are skipped |
| Text.NothingToScan | backend/internal/authn/password.go:306 | a line break, a sign or the end where a number should be is refused |
| PasswordHash.DecodeOfEncode | backend/internal/authn/password.go:269-337 | reading back what was written gives the same salt, key and costs with the real lengths exactly with non-zero costs, 8 to 64 bytes of salt and 16 to 64 of key, and a refusal otherwise |
| PasswordHash.EncodeIsPhc | backend/internal/authn/password.go:269-277 | the stored string letter by letter: argon2id, version 19, m, t and p in decimal, then salt and key in base64 |
| PasswordHash.DecodeIff | backend/internal/authn/password.go:285-337 | what is accepted, part by part, and what is read from it; another version is told apart from everything else |
| PasswordHash.EncodeIsInjective | backend/internal/authn/password.go:269-277 | a string determines its costs, salt and key, in range or not |
| PasswordHash.DecodeIsCanonical | backend/internal/authn/password.go:285-337 | whatever is accepted has non-zero costs and bounded real lengths, and a canonical string that reads back to the same thing |
| PasswordHash.CostsReadBack | backend/internal/authn/password.go:306 | the cost fields read back whatever text follows them |
| PasswordHash.VerifyOfHash | backend/internal/authn/password.go:152-211 | a hash can be made exactly with a pass and a lane; made in range it holds the key Argon2 derives, verifies its password, flags a rehash exactly when one of the four costs is below today's, and verifies another password only if the derived keys coincide; out of range it never verifies |
| PasswordHash.HashingRefuses | backend/internal/authn/password.go:152-172 | what hashing refuses: an empty password, one over 1024 bytes, no entropy, and a panic without a pass or a lane |
| UserStore.Table.Authenticate | backend/internal/authn/user.go:95-130 | the answer and the Argon2 work for a missing address, a missing hash, an unusable hash, a wrong and a right password, and exactly when that work is one computation of the current cost |
| UserStore.EffortIsTodaysIff | backend/internal/authn/user.go:86-130 | one computation of the current cost is made exactly for a row without a hash or with one of today's passes, memory, lanes and key length |
| UserStore.OlderHashCostsWhatItDid | backend/internal/authn/password.go:190-211 | so every hash made under other costs is checked at those |
| UserStore.Table.RecordRehash | backend/internal/authn/user.go:219-231 | the stored hash and the row's timestamp change, and nothing else: not the password's age |
| UserStore.Table.Verified | backend/internal/authn/user.go:95-130 | the user whose stored hash the password opens, exactly when the row can be read |
| UserStore.Table.SignIn | backend/internal/login/handler.go:773-856 | a user is signed in exactly when the query answers and an active, admitted row at that address has a hash the password opens; no other row changes, and that one as the next row says |
| UserStore.RewrittenIff | backend/internal/authn/user.go:219-231 | the row of a sign-in is rewritten exactly when some cost is below today's and a hash can be made and stored: with today's costs, a key of the same password, the row's timestamp, and the password's age untouched |
| RehashLifecycle.RewriteStoresTodaysCosts | backend/internal/authn/user.go:219-231 | a rewrite stores a hash that is not weak: today's costs opened by the typed password in range, nothing usable out of range |
| RehashLifecycle.WeakIff | backend/internal/authn/password.go:255-260 | a hash is weak exactly when it is below today's parameters in memory, passes, lanes or key length; equal is not weak |
| RehashLifecycle.StrongHashIsNeverRewritten | backend/internal/authn/password.go:255-260 | over every run, a hash at or above the current parameters in every cost is never rewritten |
| RehashLifecycle.StoredUpgradeSettles | backend/internal/login/handler.go:834-846 | after a stored rehash there is no further one until a deployment raises a cost |
| RehashLifecycle.OneRewritePerDeployment | backend/internal/login/handler.go:834-846 | over any life the hash is rewritten at most once a deployment, and once more if it starts weak |
| RehashLifecycle.PasswordInUseKeepsMatching | backend/internal/authn/user.go:219-231 | through any sign-ins, rehashes and deployments in range, the password in use goes on matching |
| RehashLifecycle.UpgradeKeepsThePasswordIffInRange | backend/internal/authn/password.go:152-172 | a rehash keeps the password working if and only if the current parameters are in the parser's range |
| RehashLifecycle.UnreadableHashIsForEver | backend/internal/authn/password.go:285-337 | a hash that cannot be read stays unreadable, and no password opens it, in every run |
| RehashLifecycle.UpgradeLowersNothingIff | backend/internal/authn/password.go:176-184 | a rehash lowers no cost if and only if no stored cost exceeds the current one |
| RehashLifecycle.MixedCostsAreLowered | backend/internal/authn/password.go:255-260 | and hashes with more memory but fewer passes than today do lose memory at the next sign-in |
| LoginPolicy.DeadlineIsWhenEnrolmentIsForced | backend/internal/authn/loginpolicy.go:206-227 | without a factor enrolment is forced exactly from the deadline shown, fourteen days after the mandate, and once forced stays forced as time passes; the deadline is shown for every mandate with an instant |
| LoginPolicy.ForcedFromTheEndOfTheGrace | backend/internal/authn/loginpolicy.go:206-217 | the same without the page: forced exactly for a mandate whose instant is fourteen days of nanoseconds old, and no factor |
| LoginPolicy.Sanitize | backend/internal/authn/policy.go:263-298 | the length ends between 8 and 1024 and the age between 0 and 3650, one adjustment is reported for each field that moved, and a policy in bounds is left alone |
| LoginPolicy.ExpiryIsExact | backend/internal/authn/policy.go:175-186 | saturating 64-bit arithmetic never shows: a password is expired exactly when it is older than the configured age, and stays so |
| Factors.Survey | backend/internal/mfa/framework.go:160-213 | the loop finds exactly the confirmed factors of a kind this build verifies, a passkey by its own ceremony, and each of their kinds once |
| Factors.AnswerableIdsAre | backend/internal/mfa/framework.go:185-222 | the challenge names the ids of exactly those factors, in the order stored |
| Factors.HoldsAnswerableIff | backend/internal/mfa/framework.go:160-205 | an unconfirmed factor is never answerable, and a confirmed one exactly when its kind is verified here |
| Factors.Required | backend/internal/mfa/framework.go:166-289 | no challenge exactly without a framework, with an empty one, or with no confirmed factor of a kind it verifies; an error exactly when the factors cannot be read, or a challenge is due and cannot be prepared |
| EnrolStore.Enrolments.Put | backend/internal/login/enrolstore.go:53-82 | a handle's state is stored with 900,000 milliseconds to live, and a handle that is taken is refused |
| EnrolStore.Enrolments.Get | backend/internal/login/enrolstore.go:84-115 | the stored state exactly when it is live and names user, organization and factor; missing, expired or blank is no enrolment, and a store failure or an undecodable document is told apart from it |
| EnrolStore.Enrolments.Replace | backend/internal/login/enrolstore.go:123-137 | the state is overwritten, every expiry stays where it was and nothing expired comes back |
| EnrolStore.Enrolments.Delete | backend/internal/login/enrolstore.go:139-144 | the handle's state is deleted |
| Sessions.Database.Issue | backend/internal/login/handler.go:877-967 | exactly when every step and the commit go through, the new session is live and recorded, this browser's own live session is revoked, and every other session is as it was; otherwise nothing changes |
| Sessions.ChangesOneByOne | backend/internal/login/handler.go:889-960 | the same of every change: what a sign-in needs and leaves session by session, and that signing out revokes that session alone |
| Sessions.RevokedForGood | backend/internal/login/handler.go:892-904 | over every run a revoked session stays revoked |
| Sessions.OneLiveSessionABrowserIff | backend/internal/login/handler.go:892-904 | over every run of one user's sign-ins from one browser, no live session is left but the one the browser holds: exactly when no commit takes effect unheard |
| Sessions.SessionsAndAuditAgree | backend/internal/login/handler.go:889-960 | whatever fails, sessions and login-success events stay one to one |
| LoginSafety.StepKeepsInv | backend/internal/login/handler.go:689-767 | every step of every request keeps it so that whoever may go on has proven what that takes |
| LoginSafety.RunKeepsInv | backend/internal/login/handler.go:689-767 | so does every run |
| LoginSafety.ConfirmIsValid | backend/internal/login/enrol.go:348-374 | only a confirmed factor leads beyond the code |
| LoginSafety.AskFactorsIsValid | backend/internal/login/handler.go:709-727 | only an answer that there is no factor leads beyond the factor question |
| LoginTheorems.EnrolmentIsNeverBypassed | backend/internal/login/enrol.go:310-395 | every session from an enrolment was preceded by a verified password for the same user, organization and request, then the start of the factor in the handle's state, then its confirmation |
| LoginTheorems.ChallengeIsNeverBypassed | backend/internal/login/mfa.go:422-466 | every session from a challenge was preceded by a verified password, then a proven factor or recovery code, for the same user and request |
| LoginTheorems.MandateIsNeverBypassed | backend/internal/login/handler.go:699-767 | every session on a password alone was preceded by the policy, the password and the absence of a factor to ask for; that policy permitted passwords and its fourteen days were not over at that instant |
| LoginTheorems.NoPasswordSessionPastTheDeadline | backend/internal/authn/loginpolicy.go:206-217 | once every policy read is past its deadline, no run gives a session on a password alone |
| LoginTheorems.FactsAreTrue | backend/internal/mfa/framework.go:166-217 | what the history records was so at that step: the policy and password read, no confirmed factor of a kind this build verifies, a factor proven, begun, pending and then confirmed, a wrong code for a pending factor, a session new and made |
| LoginTheorems.PendingFactorsAreNotAskedFor | backend/internal/mfa/framework.go:186-193 | a user whose every factor is pending is never challenged: the question leads on to the mandate, and past the grace to another enrolment |
| LoginTheorems.EverySessionIsJustified | backend/internal/login/handler.go:877-967 | in every reachable state each session has exactly one event and rests on everything its way of signing in must rest on |
| LoginTheorems.NothingMovesTheExpiry | backend/internal/login/enrolstore.go:117-137 | no sequence of requests moves a handle's expiry for as long as it lives |
| LoginTheorems.NothingRevives | backend/internal/login/enrolstore.go:117-137 | and none brings an expired or deleted handle back: only being stored anew makes it live |
| LoginTheorems.HandleLivesFifteenMinutes | backend/internal/login/enrol.go:49-56 | from the moment it is stored a handle has 900,000 milliseconds, whatever is posted |
| LoginReread.StoppedIff | backend/internal/login/mfa.go:467-500 | a login is stopped at its second reading exactly by a failed read, a user who may no longer sign in, or a transaction that does not commit; what the policy says of passwords is not among them |
| LoginReread.NeverDisallowedIff | backend/internal/login/mfa.go:467-500 | that a login whose organization stopped permitting passwords does not complete holds, over all runs, exactly in a build with nothing to challenge with and no enrolment |
| LoginReread.ChallengedLoginCompletes | backend/internal/login/mfa.go:422-466 | a run in which such a login completes through a challenge |
| LoginReread.EnrolledLoginCompletes | backend/internal/login/enrol.go:436-471 | and one in which it completes through an enrolment |
| EnrolPosts.OneHandleIsBounded | backend/internal/login/enrol.go:348-374 | with the posts about a handle one at a time and their writes succeeding, it admits at most five wrong codes and one session, whatever else runs meanwhile and whenever it expires |
| EnrolPosts.StoredWithFive | backend/internal/login/enrol.go:172-177 | a handle is stored for its user, request and factor, unconfirmed and with five wrong codes left |
| EnrolPosts.RunSpends | backend/internal/login/enrol.go:310-395 | every such run spends only what the handle has left |
| EnrolPosts.AloneIsARun | backend/internal/login/enrol.go:264-395 | a post handled alone is a run of the step system |
| AttemptBound.BoundKeptIff | backend/internal/login/enrol.go:348-374 | over all runs from a start, with at most k posts about a handle open at once and their writes reliable or not, the bound on wrong codes and the bound on sessions are each kept if and only if there are no posts, or one at a time with reliable writes |
| AttemptBound.TwoGuessTogether | backend/internal/login/enrol.go:356-366 | two overlapping posts on a reached handle with one code left: two wrong codes |
| AttemptBound.TwoGuessInTurn | backend/internal/login/enrol.go:356-369 | and one after the other, when the first one's count and delete are lost |
| AttemptBound.TwoContinueTogether | backend/internal/login/enrol.go:323-330 | two overlapping posts that continue a reached confirmed enrolment: two sessions |
| AttemptBound.TwoContinueInTurn | backend/internal/login/enrol.go:463-463 | and one after the other, when the first one's delete is lost |
| OverlappingPosts.OverlapHasNoBound | backend/internal/login/enrol.go:359-366 | with enough overlapping posts there is no bound at all: any number of wrong codes, and one attempt counted |
| EnrolHandler.Handler.Submit | backend/internal/login/enrol.go:264-395 | the enrolment post leaves in the stores what its request does in the step system; and spelled out: nothing at all unless a live, complete state for this request is read, and otherwise what the next row says |
| EnrolHandler.Handler.Act | backend/internal/login/enrol.go:310-346 | continue completes a confirmed state, a code is checked for an unconfirmed one with fewer than five attempts; in every other case nothing changes |
| EnrolHandler.Handler.Refuse | backend/internal/login/enrol.go:350-369 | a wrong code goes on to be counted; a factor that is not pending or no verdict is an error that changes nothing |
| EnrolHandler.Handler.Prove | backend/internal/login/enrol.go:350-374 | a right code activates exactly the pending factor of the state, a wrong one changes the count alone, and no verdict changes nothing |
| EnrolHandler.Handler.CountWrongCode | backend/internal/login/enrol.go:356-369 | one attempt more and the expiry where it was; from the fifth on the handle is deleted and gone |
| EnrolHandler.Handler.GiveCodes | backend/internal/login/enrol.go:376-395 | with codes to show the state is marked confirmed and nobody signed in; with none due the sign-in completes at once; when issuing fails nothing more changes |
| EnrolHandler.Handler.Complete | backend/internal/login/enrol.go:436-471 | signed in exactly when the user loads and the transaction is acknowledged; then the session, its event and the revoked previous one are there and the handle is deleted |
| LoginHandler.SignIn.Authenticate | backend/internal/login/handler.go:689-767 | the password step leaves in the stores what its request does in the step system; refused exactly unless the policy permits passwords and the password opens an active, admitted row, and otherwise decided as the next rows say |
| LoginHandler.SignIn.AskFramework | backend/internal/mfa/framework.go:160-289 | a challenge exactly when the user has a confirmed factor of a kind this build verifies, an error exactly when that cannot be found out |
| LoginHandler.SignIn.DecideFactor | backend/internal/login/handler.go:709-727 | a user with such a factor gets a stored challenge of five minutes or an error and no session; without one the mandate decides |
| LoginHandler.SignIn.FollowMandate | backend/internal/login/handler.go:729-766 | past the fourteen days, where enrolment is wired in, an enrolment or an error; otherwise a session exactly when its transaction is acknowledged |
| LoginHandler.SignIn.BeginEnrolment | backend/internal/login/enrol.go:157-185 | a pending TOTP factor, then the state that names it for fifteen minutes; never a session |
| LoginHandler.SignIn.SubmitChallenge | backend/internal/login/mfa.go:212-317 | a right answer to the live challenge stored for this very request deletes it and gives a session if the user loads and the transaction commits; anything else changes nothing |
| LoginHandler.SignIn.FinishChallenge | backend/internal/login/mfa.go:422-500 | the user is loaded again before the session is issued |
| AuditLog.ListEvents | backend/internal/auditlog/handler.go:54-117 | the refusals in their order, and otherwise the newest rows that pass the filters and lie below the token's position, strictly newest first, complete down to the last one's place, with a token exactly when more is left |
| AuditLog.RefusedIff | backend/internal/auditlog/handler.go:57-92 | what is refused and as what: a token of no list, more than twenty kinds, an empty range; and an id that is no number fails in the database |
| AuditLog.SelectSorts | backend/internal/auditlog/handler.go:129-166 | the query returns exactly the matching rows below the cursor, strictly newest first |
| AuditLog.PageIsTheTop | backend/internal/management/page.go:164-181 | a page is the top of what is below the cursor: what it leaves out is below its own token |
| AuditLog.TokensAreTakenBack | backend/internal/auditlog/handler.go:185-201 | a token this list issued is accepted, unless it is of the zero instant, and every row of its answer is strictly below it |
| AuditLog.FollowingTokens | backend/internal/auditlog/handler.go:54-117 | request after request, each with the token of the answer before it, while events arrive and sizes vary: strictly descending, and nothing that was there at the first request is skipped |
| AuditLog.EveryEventOnce | backend/internal/auditlog/handler.go:129-201 | from the first request on no token is refused, more requests than rows come to the end, and then every matching event of the first request has been returned, none twice |
| AuditLog.ZeroInstantStopsTheWalk | backend/internal/management/page.go:86-124 | the one kind of row whose token is refused: one of the zero instant |
| AuditLog.FirstPageIff | backend/internal/management/page.go:86-124 | a token of a list ordered by name is accepted and read as the first page; the accepted requests so read are exactly those whose token has no id, or a position past the filter's own range |
| AuditLog.NameWithAnIdIsEmpty | backend/internal/auditlog/handler.go:189-201 | a token with both a name and an id is accepted only at the zero instant, and then answered with an empty page |
| AuditLog.PageSize | backend/internal/management/page.go:133-146 | a size in range is honoured, a larger one becomes one hundred, and none, a negative one or zero becomes twenty |
| GrantAudit.ValidateKeys | backend/internal/grant/store.go:236-272 | accepted exactly when non-empty, at most sixty-four and without a repeat; a repeat is reported at its first occurrence with where it stood before |
| GrantAudit.RepeatIsFirst | backend/internal/grant/store.go:255-270 | the reported pair is the first repeat, and the only one that could be reported |
| GrantAudit.RowFaultIff | backend/migrations/20260917000037_delegated_user_grants.up.sql:49-157 | a row may hold its keys exactly when its project is there and, direct, defines them all, or, delegated, its grant is active and carries them all |
| GrantAudit.FirstMissingIs | backend/migrations/20260917000037_delegated_user_grants.up.sql:85-94 | the key reported as unknown or not delegated is the first that is |
| GrantAudit.Difference | backend/internal/grant/handler.go:298-320 | the loops compute what was added and what was removed, in order |
| GrantAudit.MinusKeyByKey | backend/internal/grant/handler.go:298-320 | what was added and removed, key by key in the order of its list |
| GrantAudit.DifferenceReplays | backend/internal/grant/handler.go:298-320 | before less removed plus added is after, nothing removed that was not held and nothing added that was |
| GrantAudit.GrantIff | backend/internal/grant/handler.go:83-128 | a grant commits exactly one new row and its event, exactly when caller and user are different people, the user has no row there, and the keys are well-formed and defined by the project |
| GrantAudit.ReplacementIff | backend/internal/grant/handler.go:132-180 | a replacement commits the new keys through the same grant, with what was added and removed, exactly when caller and user differ, the row is there and an active grant or the project carries the keys |
| GrantAudit.RevocationIff | backend/internal/grant/handler.go:184-220 | a revocation takes away exactly that row and records all its keys |
| GrantAudit.Handler.GrantRoles | backend/internal/grant/handler.go:83-128 | success exactly when the grant is permitted, well-formed and new, and every statement and the commit went through; the committed state for every other case, and the cache told only on success |
| GrantAudit.Handler.ReplaceGrant | backend/internal/grant/handler.go:132-180 | the same for a replacement of somebody else's row, which keeps its grant, with the exact difference recorded |
| GrantAudit.Handler.RevokeGrant | backend/internal/grant/handler.go:184-220 | the same for a revocation, which anybody may make of their own, with the keys the row carried |
| GrantAudit.Handler.Finish | backend/internal/grant/handler.go:101-121 | a failed audit write or commit undoes the row; the cache is told after the commit |
| GrantAudit.TrailIsTheTable | backend/internal/grant/handler.go:83-220 | after every run, replaying the events of a user and project gives exactly the stored keys, and the row exists if and only if there are any |
| Redaction.RedactPayload | backend/internal/audit/audit.go:430-456 | the loop over the keys, recursing into maps, computes the cleaned payload |
| Redaction.EveryPath | backend/internal/audit/audit.go:430-456 | at every path through the maps: the mark at the first sensitive key and nothing below it, the same leaf or keys where there is none, and nothing new |
| Redaction.RedactingTwice | backend/internal/audit/audit.go:430-456 | redacting again changes nothing |
| Mail.Stuff | backend/internal/mail/mail.go:269-273 | the loop over the lines, in place, prefixes exactly the lines that start with a dot |
| Mail.CrlfBecomesLineFeed | backend/internal/mail/mail.go:267 | a CRLF anywhere in the body becomes a line feed |
| Mail.OthersStay | backend/internal/mail/mail.go:267 | and every other character stays where it is |
| Mail.Normalise | backend/internal/mail/mail.go:266-275 | the body as it goes on the wire |
| Mail.ReceivedAsWritten | backend/internal/mail/mail.go:266-275 | the receiver finds exactly the stuffed lines, none a lone dot, and taking the dots off gives back the body's lines |
| Mail.PlainBodyComesThrough | backend/internal/mail/mail.go:266-275 | so a body without carriage returns reaches the receiver exactly |
| Mail.WireHasNoBareLineFeed | backend/internal/mail/mail.go:274 | every line feed on the wire has its carriage return |
| Mail.WireDeterminesTheBody | backend/internal/mail/mail.go:266-275 | two bodies look the same on the wire exactly when they differ only in how line breaks are written |
| Anomaly.Assess | backend/internal/anomaly/anomaly.go:222-264 | the loops report exactly the signals that hold, in order |
| Anomaly.ImpossibleIsTooFar | backend/internal/anomaly/anomaly.go:185-205 | without the division: at least 300 km apart beyond both uncertainties, and farther than 1000 km an hour allow or in no time at all; more time never makes a trip impossible |
| Anomaly.Observe | backend/internal/anomaly/detector.go:98-128 | new device and new place exactly against the last twenty sign-ins, travel exactly against the one just before, and nothing when they cannot be read |
| Anomaly.DeviceFlaggedIff | backend/internal/anomaly/detector.go:98-128 | flagged for its device exactly when not the first, known, and none of the twenty before it used it |
| Anomaly.PlaceFlaggedIff | backend/internal/anomaly/detector.go:98-128 | the same for a place |
| Anomaly.QuietForTwentySignIns | backend/internal/anomaly/detector.go:79-84 | after a sign-in from a device or place none of the next twenty is flagged for it, for every sequence |
| Anomaly.NoticesAreRare | backend/internal/anomaly/detector.go:79-84 | so one device is announced at most once in twenty-one sign-ins, over any length |
| Anomaly.OlderHistoryOnlySilences | backend/internal/anomaly/anomaly.go:222-264 | enlarging a non-empty history at its old end never adds a notice, and removes one exactly when the older part has the device or place |

## Left out

- GrantSql.InsertKeepsOrder: orders keys by character code; the database's collation is not modelled, and no decision depends on the order.
- AuthzHandler.Handler.GrantsFor: one call sees one database state and one clock value; everything that can change between its operations is in AuthzProtocol instead.
- AuthzFreshness.FreshAfterInvalidation: direct entries and definitions as the delete leaves them; delegated entries have the stamp, for which see AuthzRevocation.
- PasswordHash.DecodeIsCanonical: does not say that printing a parsed string gives that string back, because leading zeros, trailing text and line breaks inside base64 are accepted.
- AuthzRevocation.RetiredExactlyUntilTheDeadline: for runs that leave the counter alone; a counter that is deleted or overwritten is AuthzRevocation.LostCounterRevivesEntries.
- UserStore.Table.Authenticate: the dummy computation panics for current parameters without a pass or a lane; that is not modelled.
- RehashLifecycle.PasswordInUseKeepsMatching: asks that no other password with the same derived key signs in; Argon2's collision resistance is not modelled.
- EnrolPosts.OneHandleIsBounded: for posts one at a time with their writes acknowledged; AttemptBound.BoundKeptIff shows that neither can be dropped.
- LoginTheorems.NothingRevives: speaks of runs in which the same key is not stored anew; handles come from 256 random bits and SHA-256, which are not modelled.
- AuditLog.EveryEventOnce: for a log that only grows, with no row of the zero instant (AuditLog.ZeroInstantStopsTheWalk); dropping old partitions between requests is not modelled. A token is what it decodes to; the JSON and base64url around it are not modelled.
- Sessions.OneLiveSessionABrowserIff: for one user in one browser; a second user's sign-in there leaves the first one's session live, as the code does. When a cookie's session is live is taken from the table, without its expiry.
- Redaction.EveryPath: through maps only; the code does not look inside lists, and the JSON round trip of nested numbers is not modelled.
- Mail.ReceivedAsWritten: for the output of normalise; the SMTP client's own data writer stuffs again after it.
- Anomaly.QuietForTwentySignIns: with every session row kept and sign-ins of one user read in the order they were made.
- Anomaly.ImpossibleIsTooFar: over exact reals with any distance function; haversine and floating-point rounding are not modelled.
- GrantAudit.TrailIsTheTable: for serial transactions and rows no other writer touches; delegated rows have their own trail in package projectgrant, which is not part of this model.
- The three collaborators mfa.AnswerType, AnswerRecovery and AnswerWebAuthn are one step that answers right or not for a stored challenge; their own counters are not modelled.
- Nil collaborators other than the cache, the factor framework and the enrolment flow; observers, metrics, loggers and audit events whose failure is only logged.
- A Redis document of the wrong kind under a key is read as a miss; AuthzKeys shows that no writer of the service produces one.
- Row-level security is modelled by giving each operation only the tenant's rows; tenants, roles and project grants change only between operations.
- PostgreSQL's isolation between concurrent writers of the grants table; a transaction is a step that commits or leaves nothing.
- Time.Time's location and monotonic parts, and the zero instant as a real instant of a mandate or a cursor.
- Email normalisation, Unicode case and normal forms, user-agent parsing and geolocation.
- audit.Query's own paging, which orders by time and id but cuts by id alone.
- HTTP, cookies, CSRF, templates, rate limiting, SMTP transport, the console and every other package: thin, or easy beside the above.
