# Verified models of OSCTF's sessions, external logins, password hashing and challenge writes

Four components of the server, each with the concurrency its own comments reason about. The proofs are about all
inputs, all runs of any length and all interleavings of the atomic steps.

* **Sessions** (`Keyspace`, `Sessions`, `SessionRuns`). `Keyspace` is the part of Redis the session store uses:
  session hashes, per-user token sets, expiries, EXPIRE of an absent key, sets that vanish with their last member,
  MULTI/EXEC. `Sessions.SessionStore` is the store; `SessionRuns` runs any number of calls at once, each Redis round
  trip one step, with the clock, abandoned calls and refreshes whose failure a Get ignores in between.
* **External logins** (`Usernames`, `ExternalTables`, `ExternalLogin`, `ExternalResolver`, `ExternalPolicies`,
  `ExternalRuns`, `ExternalOutcomes`, `ExternalDecisions`). The resolver as a state machine of database queries over a
  users and an auth_identities table that enforce their unique constraints; the class whose methods run it to its end;
  and interleavings of any number of logins with registrations, bans, role changes and failing queries.
* **Password hashing** (`HashGate`, `HashGateRuns`, `Base64`, `Phc`, `PhcCanonical`, `PhcGrammar`, `Passwords`). The
  semaphore and its lock-free high-water mark, method by method and interleaved atomic by atomic; the PHC string
  printer and the parser with Sscanf's own leniency; base64 of section 4 of RFC 4648 without padding. The Argon2id
  function of RFC 9106 is a parameter that answers with a key or panics.
* **Challenges** (`TypeRegistry`, `TypeRegistryRuns`, `Slug`, `ChallengeRows`, `ChallengeColumns`, `ChallengeReports`,
  `ChallengeService`, `ChallengeRuns`). The copy-on-write type registry against the log of its writes; the slug
  normaliser against its regular expression; the validators, the defaults, the saturating merge and the table's CHECK
  constraints; and updates whose read and write are separate steps.

`Wrappers`, `Sets` and `Text` hold Option and Result, facts about set sizes, and strings. A method that the source
writes as a step-by-step change is a method proved equal to a function of the old state; the promises are proved about
those functions.

## Where the code and its documentation differ

The model follows the code. Each of these is a theorem with its exact condition.

* `bind` (internal/auth/external.go:267-268) says the binding a concurrent login wrote "is the one we would have
  written". It is exactly when both logins assert the same email (`ReturnsTheBoundUserExactly`). Two logins with one
  subject and different emails are accepted as different users (`DifferentEmailsDiverge`), in a run that starts from
  ordinary tables (`DivergenceIsReached`, `ADivergence`).
* `validateCreate` is said to mirror the CHECK constraints (internal/challenges/validate.go:11). It lets a challenge
  that is no container name a port out of range (`CreateMeetsChecksExactly`, `PortZeroIsAccepted`). `validateUpdate`
  lets four kinds of patch through that the table refuses (`UpdateMeetsChecksExactly`, `BadPatchesAreAccepted`). In
  both cases the write then fails with a raw database error instead of a validation report.
* `validateUpdate` is said to validate the row that would result (internal/challenges/validate.go:105). With another
  update in between it validates an older row. `OnlyTheScoreCanBreak` says which promises that can cost,
  `StalePatchIsSafeExactly` for which patches, `TwoPatchesCanCross` and `FloorCanVanish` that it does, and
  `EveryRunIsOk` and `CrossingIsStopped` that the table's CHECK makes up for it.
* A session is refreshed when less than half its lifetime remains (internal/auth/session.go:79), which spaces
  refreshes half a lifetime apart exactly for a Get that asks for the TTL after the refresh before it, provided it
  then sends its own within half a lifetime (`RefreshesApart`); `OverlappingGetsRefreshTogether` is the other case and
  `OverlapIsReached` a run that leads to it.
* `DeleteAllForUser` revokes "every session" (internal/auth/session.go:136): every one that existed when it listed
  them. Sessions created between its two round trips survive (`RevokeSparesExactly`, `CreatedMeanwhileSurvives`).
* `parsePHC` accepts more than the format its printer writes (`ParseIsTolerant`); exactly what,
  `FinePiecesAreAccepted` and `AcceptedComesApart` say. Which accepted strings are printed ones is a condition on the
  string alone (`PrintedExactly`). It also accepts zero rounds or lanes, on which the library panics, and an empty
  hash, for which a key of no length is asked (`ParsedStringsPanicExactly`, `PanickingStringsParse`).
* Eight candidate usernames are eight different ones unless the base is 32 characters long and ends in one of the
  suffixes themselves (`CandidatesCoincide`, `SuffixedBasesCoincide`).

## Model

| member | source | states |
|---|---|---|
| Sessions.SessionStore.Create | internal/auth/session.go:47-77 | the four-command pipeline leaves the session live for one lifetime with the given user and profile, its token in the user's set, and the set with two lifetimes |
| Sessions.SessionStore.Get | internal/auth/session.go:80-118 | answers exactly for a stored, non-empty token, field by field what its key holds, and writes only when less than half the lifetime is left, and then the session, the set and its expiry together |
| Sessions.SessionStore.Delete | internal/auth/session.go:121-134 | after whatever refresh the lookup did, the session is gone and out of its owner's set; an unknown token changes nothing |
| Sessions.SessionStore.DeleteAllForUser | internal/auth/session.go:138-153 | in whatever order the members come, exactly the sessions of the set but the kept one are gone, the rest are unchanged, and the set holds at most the kept one |
| Sessions.CreateEffect | internal/auth/session.go:60-73 | the commands of Create, executed one by one, add up to its effect, non-positive lifetimes included |
| Sessions.RefreshEffect | internal/auth/session.go:103-107 | the commands of a refresh add up to its effect; an absent session is not brought back but its token is indexed |
| Sessions.RevokeOneMore | internal/auth/session.go:144-150 | one more DEL and SREM revokes exactly one more token, also when it empties the set |
| Sessions.RevokedExactly | internal/auth/session.go:143-151 | a revocation removes exactly the given sessions and members and touches no other session and no other user's set |
| Sessions.ReadsBackWhatWasCreated | internal/auth/session.go:61-117 | a lookup returns the user, role, creation time, address and user agent the session was created with, a refresh notwithstanding |
| SessionRuns.IndexCoversEveryRun | internal/auth/session.go:99-106 | in every reachable state every live session is in its owner's set, the set expires at least one lifetime later, and no set holds a token of another user |
| SessionRuns.RevokedForGood | internal/auth/session.go:136-153 | every session of the user live at SMEMBERS, but the kept one, is dead from the commit on for the rest of any run, a refresh still in flight included |
| SessionRuns.RevokeSparesExactly | internal/auth/session.go:139-151 | of the user's sessions live at the commit exactly the kept one and those minted after SMEMBERS survive |
| SessionRuns.CreatedMeanwhileSurvives | internal/auth/session.go:138-151 | from any reachable state, a session created with a positive lifetime between the two round trips survives the commit |
| SessionRuns.RevokeLeavesOthers | internal/auth/session.go:143-151 | a bulk revocation changes no session and no set of any other user, stale entries notwithstanding |
| SessionRuns.DeadStaysDead | internal/auth/session.go:103-107 | a session that is gone never comes back in any run |
| SessionRuns.ReadsAreWhatWasCreated | internal/auth/session.go:61-117 | whatever runs before and after a creation, as long as the session is live it is read with exactly its user and profile, field by field |
| SessionRuns.ReadOftenStaysLive | internal/auth/session.go:97-108 | a session read at gaps below half a lifetime and not deleted is live after a run of any length |
| SessionRuns.RefreshesApart | internal/auth/session.go:97-108 | a refresh comes more than half a lifetime after the one before it if that one was done before the TTL was asked for, and only if when the refresh is sent within half a lifetime of that |
| SessionRuns.OverlappingGetsRefreshTogether | internal/auth/session.go:97-107 | two Gets that both get their TTL answer before either refreshes, with no time passing, refresh the session at the same instant |
| SessionRuns.OverlapIsReached | internal/auth/session.go:80-97 | for every lifetime of at least four units and every session a run from the start leads to two such Gets |
| SessionRuns.GetStepsAreGet | internal/auth/session.go:80-118 | undisturbed, the three steps of a Get have the effect of the method |
| SessionRuns.DeleteStepsAreDelete | internal/auth/session.go:121-134 | undisturbed, the steps of a Delete have the effect of the method |
| SessionRuns.RevokeStepsAreDeleteAllForUser | internal/auth/session.go:138-153 | and so do the two steps of a bulk revocation |
| Text.TrimSpaceExactly | internal/auth/external.go:188-191 | trimming takes off exactly the white space at both ends |
| Text.SpacesAreUnicodeWhiteSpace | internal/auth/external.go:188-191 | which is the 25 characters Unicode calls so |
| Text.LowerForgetsCase | internal/auth/external.go:226 | strings that differ only in the case of ASCII letters have one lower case |
| Text.Utf8LengthOfOne | internal/challenges/validate.go:17 | a length in bytes counts one to four per character, by the ranges of section 3 of RFC 3629 |
| Text.Utf8LengthOfConcat | internal/challenges/validate.go:17 | and adds up over a text |
| Usernames.SanitizeUsername | internal/auth/external.go:340-356 | the loop yields a legal name or nothing, and leaves a string alone exactly when it is legal or empty |
| Usernames.SanitizedFixedPoints | internal/auth/external.go:340-356 | the fixed points of sanitizing are exactly the names registration accepts and the empty one |
| Usernames.SanitizingDropsTheRest | internal/auth/external.go:342-347 | a character that is no ASCII letter, digit, underscore, dot or hyphen makes no difference wherever it stands |
| Usernames.SanitizingCuts | internal/auth/external.go:348-355 | legal text is cut to 32 characters, and to nothing below three |
| Usernames.CandidatesAreLegal | internal/auth/external.go:325-336 | every candidate of a legal base is 3 to 32 legal characters |
| Usernames.CandidateInPlainWords | internal/auth/external.go:327-336 | the first candidate is the base; each later one its longest prefix that leaves room, a hyphen and the number of the attempt |
| Usernames.CandidatesCoincide | internal/auth/external.go:327-336 | two attempts try the same name, up to case, exactly when the first is attempt 0 and the 32-character base ends in the other's suffix |
| Usernames.SuffixedBasesCoincide | internal/auth/external.go:331-335 | every stem of 30 legal characters gives a base for which a later attempt repeats the first |
| Usernames.AtLeastSevenTried | internal/auth/external.go:284-291 | the eight attempts try eight different names, or exactly seven when the base ends in a suffix |
| ExternalTables.UserByEmail | internal/auth/external.go:239-251 | finds the one user with the email, or there is none |
| ExternalLogin.StepDescends | internal/auth/external.go:284-322 | every query brings the login closer to its end, so the retry loop cannot spin |
| ExternalLogin.BaseNameIsLegal | internal/auth/external.go:274-282 | suggestion, local part or fallback: the base is always a legal name |
| ExternalDecisions.LocalPartEndsAtTheFirstAt | internal/auth/external.go:276-278 | the local part is what stands before the first @ |
| ExternalDecisions.BaseNameInPlainWords | internal/auth/external.go:273-282 | a legal suggestion is the base, without a usable one a legal local part is, and else it is "user" |
| ExternalResolver.ExternalResolver.Resolve | internal/auth/external.go:187-257 | tables and outcome are those of the state machine run to its end |
| ExternalResolver.ExternalResolver.BindIdentity | internal/auth/external.go:260-270 | the link is recorded, a unique violation counts as success, any other failure is an error |
| ExternalResolver.ExternalResolver.Provision | internal/auth/external.go:273-323 | the insert, re-read and retry loop ends like the state machine started at its first insert |
| ExternalPolicies.RefusalWritesNothing | internal/auth/external.go:187-323 | an undisturbed call that is refused leaves both tables as they were, in every phase |
| ExternalDecisions.BadClaimsAreRefused | internal/auth/external.go:188-202 | no provider, no subject, a subject above 255 bytes or a reserved claim is refused for the first of these, without a write |
| ExternalDecisions.BoundIsResolvedByItsKey | internal/auth/external.go:204-217 | a bound key decides alone: its user, or a refusal when banned |
| ExternalDecisions.OffRefusesTheUnbound | internal/auth/external.go:222-225 | under off every unbound identity is refused, whatever its email, and nothing is written |
| ExternalDecisions.UnusableEmailIsRefused | internal/auth/external.go:226-237 | under the other policies an unbound identity without a verified, well-formed email is refused for the first thing wrong |
| ExternalDecisions.MatchedEmailIsBound | internal/auth/external.go:239-248 | an account with the email is bound and returned, or refused when banned; nothing but the binding is added |
| ExternalDecisions.InviteOnlyCreatesNothing | internal/auth/external.go:253-255 | invite-only refuses an email nobody has, without a write |
| ExternalDecisions.OpenCreatesTheAccount | internal/auth/external.go:256-323 | open creates the account under the first candidate nobody holds, spelled out column by column, and binds it; with none free it refuses without a write |
| ExternalDecisions.LostEmailIsMatched | internal/auth/external.go:306-316 | an insert that lost the email ends at the account that took it |
| ExternalDecisions.PoliciesBoundEveryRun | internal/auth/external.go:56-75 | in any run, only under open does a login create an account, and under off none changes a table |
| ExternalDecisions.EmailsResolveWithoutCase | internal/auth/external.go:226 | emails that differ only in ASCII case resolve to the same tables and outcome |
| ExternalDecisions.CaseDoesNotMakeAnAccount | internal/db/migrations/0001_init.sql:4-16 | no two accounts hold emails or usernames that differ only in ASCII case |
| ExternalPolicies.PoliciesFormAChain | internal/auth/external.go:56-75 | what off accepts invite-only accepts, and what that accepts open accepts, with the same user and the same tables |
| ExternalPolicies.AcceptedIsBound | internal/auth/external.go:239-302 | an accepted unbound login leaves its key bound to the returned user, who is not banned |
| ExternalPolicies.AcceptedLeavesABinding | internal/auth/external.go:187-257 | after an accepted call the key is bound to the returned user, by whichever route it came |
| ExternalPolicies.BoundLoginNeedsNoEmail | internal/auth/external.go:204-217 | a bound key decides the outcome alone: its user, or a refusal when banned, no write, whatever policy and email |
| ExternalOutcomes.BindingsDecideLaterLogins | internal/auth/external.go:204-217 | whatever runs after a binding was stored, a login with its key gets the user it names or, that user banned, a refusal, and writes nothing |
| ExternalOutcomes.RepeatLoginIsStable | internal/auth/external.go:204-217 | after any run following an accepted undisturbed call, the same subject gets the same user again while not banned, and a refusal when banned, with no write, under every policy |
| ExternalOutcomes.RepeatAfterAnyRun | internal/auth/external.go:204-217 | the same for a login accepted inside any run: the bound user, who is the one it was accepted as exactly when it came through the binding or asserted the recorder's email |
| ExternalPolicies.ProvisionTakesTheFirstFreeName | internal/auth/external.go:284-322 | an unused email gets the first candidate nobody holds, the lowest role and an unusable password, and is bound; with none free nothing is written |
| ExternalPolicies.RefusedNameMeansSevenHeld | internal/auth/external.go:143-148 | undisturbed, an unused email is refused exactly when every candidate is held, which takes at least seven different usernames |
| ExternalOutcomes.RefusedNameMeansSevenHeldInEveryRun | internal/auth/external.go:284-322 | under any interference, with fresh ids, a login refused for want of a username leaves every candidate held, at least seven different usernames |
| ExternalRuns.EveryRunIsOk | internal/auth/external.go:187-323 | the invariant of all interleavings: what each login in each phase knows of the tables and of its own writes |
| ExternalRuns.BindingsAreVerified | internal/auth/external.go:222-247 | every binding a run adds was written by a login whose email was provider-verified and is the bound user's email, trimmed and lower-cased |
| ExternalRuns.RunGrows | internal/auth/external.go:259-270 | no run overwrites or drops a binding or changes a user's email |
| ExternalRuns.AdminsComeFromRoleChanges | internal/auth/external.go:129-130 | without an administrator's role change the set of admins is the same after any run |
| ExternalRuns.RefusedWroteNothing | internal/auth/external.go:104-111 | a refused login changed neither table at any of its queries, whatever interleaved |
| ExternalRuns.ReturnsTheBoundUserExactly | internal/auth/external.go:259-270 | an accepted login's key is bound, and to the user it returns exactly when it came through the binding or asserted the recorder's email |
| ExternalRuns.SameIdentityConverges | internal/auth/external.go:306-316 | of concurrent logins with one provider, subject and email, all that are accepted return the user the stored binding names |
| ExternalRuns.AtMostOneAccountPerEmail | internal/auth/external.go:284-316 | however many logins race, at most one account is created for an email |
| ExternalRuns.DifferentEmailsDiverge | internal/auth/external.go:263-269 | two logins about to bind one key to different users: the second is accepted as its own user though the binding names the other |
| ExternalOutcomes.DivergenceIsReached | internal/auth/external.go:239-270 | a run from any tables with two accounts not banned and an unbound key ends with both logins accepted as different users and one of them bound |
| ExternalOutcomes.ADivergence | internal/auth/external.go:239-270 | such tables and identities exist: the run in full |
| ExternalRuns.UndisturbedLoginIsResolve | internal/auth/external.go:187-257 | the queries of a login that nobody disturbs lead to the tables and outcome of a single call |
| HashGate.HashGate.EnterHash | internal/auth/password.go:103-111 | against any rival updates the loop ends with the mark at the maximum of the old mark, the rivals it met and the new count |
| HashGate.HashGate.AcquireHash | internal/auth/password.go:79-100 | admitted exactly when the gate is disabled or a slot was taken; a timeout or cancellation leaves no trace |
| HashGate.HashGate.Release | internal/auth/password.go:83-90 | undoes the admission: one derivation fewer, one slot fewer, the mark kept |
| HashGateRuns.EveryRunIsOk | internal/auth/password.go:54-113 | the counters count goroutines in every interleaving of channel operations, atomic adds, loads and swaps |
| HashGateRuns.GateBoundsDerivations | internal/auth/password.go:47-53 | at most as many derivations run as slots are taken, at most as many as the gate has, and the mark never claims more |
| HashGateRuns.QuietGateIsEmpty | internal/auth/password.go:76-100 | when all calls have returned no slot is taken and nothing is in flight |
| HashGateRuns.MarkIsTheMaximum | internal/auth/password.go:57-58 | whenever no goroutine is lifting it the mark is the largest count an add returned |
| HashGateRuns.MarkNeverFalls | internal/auth/password.go:103-111 | over any run the mark never decreases |
| HashGateRuns.LiftingEnds | internal/auth/password.go:105-110 | a failed compare-and-swap brings the mark strictly closer to the goroutine's count, which bounds how often it can fail |
| Base64.DecodeOfEncode | internal/auth/password.go:138-141 | decoding undoes encoding, for all byte strings |
| Base64.LettersAreTheStandardAlphabet | internal/auth/password.go:140-141 | the 64 letters are those of Table 1 of RFC 4648 in order |
| Base64.GroupsAreTheSameNumber | internal/auth/password.go:140-141 | three bytes and their four letters are the same 24-bit number |
| Base64.ShortGroupsAreCut | internal/auth/password.go:140-141 | one or two bytes are written like three that end in zeros, cut to two or three letters |
| Base64.EncodedGroupByGroup | internal/auth/password.go:140-141 | longer texts are written group by group |
| Base64.EncodeOfDecode | internal/auth/password.go:166-171 | encoding undoes decoding exactly on texts without line breaks and without spare bits |
| Phc.ParseOfPrint | internal/auth/password.go:126-173 | for all uint32 costs, uint8 threads, salts and hashes the parser returns exactly what was printed |
| Phc.PrintIsInjective | internal/auth/password.go:138-141 | different parameters never print alike |
| Phc.ParseIsTolerant | internal/auth/password.go:152-172 | text before the first separator, after the version and after the costs is ignored as long as it extends no number |
| PhcCanonical.PrintedExactly | internal/auth/password.go:138-172 | of all strings that parse to given parameters, the printed one is exactly the canonical one: no text before, v=19, plain numerals, nothing behind, clean base64 |
| PhcCanonical.CanonicalParsesExactly | internal/auth/password.go:152-172 | a canonical string parses exactly when some parameters print as it, so only a number out of range is refused |
| PhcCanonical.ToleratedIsNotPrinted | internal/auth/password.go:159-164 | every tolerated string parses like the printed one, differs from it and is not canonical |
| PhcCanonical.LeadingZeroIsIgnored | internal/auth/password.go:162 | a cost with a leading zero is read as the cost |
| PhcCanonical.SpareBitsAreIgnored | internal/auth/password.go:166-171 | two texts that are not encodings decode like one that is |
| PhcCanonical.PlusNineteen | internal/auth/password.go:159 | the version may carry a sign |
| PhcGrammar.FinePiecesAreAccepted | internal/auth/password.go:152-172 | every string of six parts with the name, version nineteen, three numbers that fit and two decodable texts is accepted and read for what they say, whatever blanks, signs, zeros and tails surround the numbers |
| PhcGrammar.AcceptedComesApart | internal/auth/password.go:152-172 | and no other string is: an accepted one comes apart into such parts |
| Passwords.DeriveKey | internal/auth/password.go:117-124 | derives only behind the gate and gives the slot back, also when the library panics; shed callers get no key |
| Passwords.HashPassword | internal/auth/password.go:129-142 | the literal PHC string of the costs 65536, 3 and 4 with the salt and a 32-byte key derived at these costs, or an overload error, with the gate as it was |
| Passwords.VerifyPassword | internal/auth/password.go:179-190 | a bad string is an error without touching the gate, overload and panic are never a mismatch, otherwise the answer compares the key derived at the stored costs, salt and length with the stored one |
| Passwords.MatchesByItsOwnCosts | internal/auth/password.go:175-189 | a password matches any string exactly when it derives the stored key at the string's own costs, salt and key length |
| Passwords.StoredHashVerifies | internal/auth/password.go:126-190 | a hash made under any costs parses, verifies its own password and no password that derives another key |
| Passwords.FreshHashVerifies | internal/auth/password.go:126-200 | a fresh hash, written out, does so too and needs no rehash |
| Passwords.RehashExactly | internal/auth/password.go:192-200 | any string needs a rehash exactly when it does not parse or, printed anew, does not begin with the current algorithm, version and costs |
| Passwords.ParsedStringsPanicExactly | internal/auth/password.go:152-185 | a stored string that parses panics the caller, whatever the password, exactly when it names no rounds, no lanes or a hash whose 32-bit length is zero |
| Passwords.PanickingStringsParse | internal/auth/password.go:152-172 | strings with an empty last part, no rounds or no lanes do parse |
| Passwords.ProvisionedAccountHasNoPassword | internal/auth/external.go:132-136 | the password stored for a provisioned account never parses |
| TypeRegistry.TypeRegistry.constructor | internal/challenges/typeregistry.go:68-80 | the built-ins, protected, the last of several with one id |
| TypeRegistry.TypeRegistry.Register | internal/challenges/typeregistry.go:123-142 | refuses exactly a built-in id without the override; the write joins the log and the copied map differs at that id alone |
| TypeRegistry.TypeRegistry.Deregister | internal/challenges/typeregistry.go:86-104 | the write joins the log and the copied map lacks the id or has the original built-in back |
| TypeRegistry.TypeRegistry.Get | internal/challenges/typeregistry.go:107-113 | answers with the last operation on the id that the log of writes accepted, its built-in, or none |
| TypeRegistry.TypeRegistry.IsRegistered | internal/challenges/typeregistry.go:116-119 | yes exactly when that log leaves the id a type |
| TypeRegistry.ReplayFollowsTheLog | internal/challenges/typeregistry.go:82-142 | every id resolves to its last accepted operation, is protected exactly when built in, and built-ins always resolve |
| TypeRegistry.DeregisterIsIdempotent | internal/challenges/typeregistry.go:82-85 | deregistering again, or a built-in that nothing overrides, changes nothing |
| TypeRegistryRuns.ReadersSeePrefixes | internal/challenges/typeregistry.go:56-60 | whatever the interleaving, a reader's map is the state after a prefix of the writes and says what that prefix of the log says |
| TypeRegistryRuns.ReadersNeverGoBack | internal/challenges/typeregistry.go:56-60 | a read finds every store made before it, and a later read a log that extends the earlier one's |
| Slug.IsSlugExactly | internal/challenges/service.go:21 | the pattern's language is decided by splitting at hyphens into non-empty words |
| Slug.SlugifyJoinsRuns | internal/challenges/service.go:51-55 | a title's slug is its maximal runs of letters and digits, lower-cased, joined by hyphens |
| Slug.SlugifyLandsInThePattern | internal/challenges/service.go:51-55 | every title gives a slug the pattern accepts, or none exactly when it holds no letter or digit |
| Slug.SlugsAreTheFixedPoints | internal/challenges/service.go:21-55 | the fixed points of slugify are exactly what the pattern accepts and the empty string |
| Slug.SlugifyIsIdempotent | internal/challenges/service.go:51-55 | slugify twice is slugify once |
| Slug.SlugsAreSpelledOut | internal/challenges/service.go:21 | a slug is letters a to z, digits and single hyphens, none at an end |
| Slug.SlugifyInPlainWords | internal/challenges/service.go:51-55 | a title has a slug exactly when it holds an ASCII letter or digit, or U+0130 or U+212A, and every slug is so spelled |
| Slug.SlugifyForgetsCase | internal/challenges/service.go:52 | titles that differ only in ASCII case have one slug |
| Slug.SlugOfWord | internal/challenges/service.go:51-55 | the slug of a word is the word, position by position in lower case |
| Slug.SlugOfTwoWords | internal/challenges/service.go:53 | whatever stands between two words becomes one hyphen |
| ChallengeRows.CreateAccepts | internal/challenges/validate.go:12-103 | the report of a create is empty exactly when all conditions hold |
| ChallengeRows.UpdateAccepts | internal/challenges/validate.go:106-206 | the report of an update is empty exactly when all conditions on the merged values hold |
| ChallengeReports.CreateReportsExactly | internal/challenges/validate.go:12-103 | a rule of a field is reported exactly when the input breaks it, field by field with every constant spelled out |
| ChallengeReports.UpdateReportsExactly | internal/challenges/validate.go:106-206 | and of a patch exactly when the merged values break it |
| ChallengeColumns.GoodInputsAreAccepted | internal/challenges/validate.go:11-71 | nothing else is turned away: an input whose row the table takes and whose texts are proper is accepted |
| ChallengeColumns.GoodPatchesAreAccepted | internal/challenges/validate.go:105-206 | and so is a patch that leads to such a row |
| ChallengeColumns.CreatedAsGiven | internal/challenges/admin.go:56-140 | every column of a created row holds what the input gave or its documented default |
| ChallengeColumns.MergedAsPatched | internal/challenges/admin.go:254-270 | every column of an updated row holds the patch's value, saturated if a number, or its old one, and that determines the row |
| ChallengeColumns.PatchesCommute | internal/db/queries/challenges.sql:27-65 | patches of different columns commute and neither is lost |
| ChallengeRows.ClampKeepsOrder | internal/challenges/admin.go:383-394 | saturation is monotone, idempotent and the identity exactly in range |
| ChallengeRows.CreateKeepsPromises | internal/challenges/admin.go:56-140 | an accepted input, checked unbounded, is stored as a 32-bit row that keeps every promise |
| ChallengeRows.CreateMeetsChecksExactly | internal/challenges/validate.go:11-71 | an accepted input meets the CHECK constraints exactly when it is a container or its port is absent or in range |
| ChallengeRows.PortZeroIsAccepted | internal/challenges/validate.go:57-64 | an input in full that the validator accepts and the table refuses |
| ChallengeRows.UpdateKeepsPromises | internal/challenges/validate.go:105-206 | an accepted patch of a row that keeps every promise gives such a row of the same kind, saturation and mixed sides included |
| ChallengeRows.UpdateMeetsChecksExactly | internal/challenges/validate.go:105-206 | an accepted patch meets the CHECK constraints exactly when attempts and port are in range and neither mode is set empty |
| ChallengeRows.BadPatchesAreAccepted | internal/challenges/validate.go:163-205 | every good row accepts four patches that each break a CHECK |
| ChallengeRows.SampleRow | internal/challenges/admin.go:56-140 | a good dynamically scored row with its floor below its start exists |
| ChallengeService.Validation.Add | internal/challenges/validate.go:13-15 | the messages by field are the report in order |
| ChallengeService.CollectedInOrder | internal/challenges/validate.go:13-15 | what is collected under a field is what was reported of it, first to last |
| ChallengeService.ValidateInstancing | internal/challenges/validate.go:75-103 | reports, in order, the rules the placement breaks, and nothing new exactly when it is in order |
| ChallengeService.ValidateCreate | internal/challenges/validate.go:12-71 | reports, in order, the rules the input breaks, and nothing exactly when all conditions hold |
| ChallengeService.ValidateUpdate | internal/challenges/validate.go:106-206 | reports, in order, the rules the patched row breaks, and nothing exactly when all conditions hold |
| ChallengeService.Service.Create | internal/challenges/admin.go:56-140 | stores a row with every column as given or defaulted, or reports why not and changes nothing; no other row changes |
| ChallengeService.Service.Update | internal/challenges/admin.go:245-309 | applies the patch to the row column by column, or reports a missing row, a broken rule, a CHECK or a slug conflict and changes nothing; no other row changes |
| ChallengeRuns.EveryRunIsOk | internal/challenges/admin.go:244-309 | however creates, updates and deletes interleave, every stored row keeps every promise and meets every CHECK, and slugs are distinct |
| ChallengeRuns.StepsApplyWhatTheySay | internal/challenges/admin.go:244-309 | in every reachable state a step creates one row as given, applies one pending patch to one row as it is by then, deletes one, or changes nothing |
| ChallengeRuns.UpdateStepsAreUpdate | internal/challenges/admin.go:245-309 | undisturbed, the two steps of an update have the outcome of the method |
| ChallengeRuns.UpdatesInTurnKeepPromises | internal/challenges/admin.go:56-309 | without concurrency the validators alone keep every promise through any list of updates |
| ChallengeRuns.OnlyTheScoreCanBreak | internal/challenges/validate.go:105-206 | a patch checked against an older row can break nothing but the rules of the dynamic score |
| ChallengeRuns.StalePatchIsSafeExactly | internal/challenges/validate.go:105-206 | an accepted patch keeps every promise on every later state of the row exactly under a condition on the patch alone |
| ChallengeRuns.FloorCanVanish | internal/challenges/validate.go:114-145 | a patch that drops a static row's floor and one that makes it dynamic, both accepted, leave it dynamic without a floor |
| ChallengeRuns.TwoPatchesCanCross | internal/challenges/validate.go:128-145 | any dynamic row with its floor below its start has two patches, both accepted, that together put the floor above the start |
| ChallengeRuns.CrossingIsStopped | internal/challenges/admin.go:245-309 | sent at once in any reachable state, the first is stored and the table refuses the second |
| ChallengeRuns.CrossingIsReached | internal/challenges/admin.go:56-309 | the run in full, from the empty table |

## Left out

- Redis, Postgres and network errors inside the classes: the interleaved machines have a step that abandons a call or
  fails a query at any point, the classes' methods only the branches their data decides.
- Sessions: a creation time is in whole seconds, as it is stored; Create itself returns it to the nanosecond. TTLs are
  exact integers in one unit (Redis answers in whole seconds and deadlines are set by its clock), key names are the
  tokens and users themselves, and a stored user id that does not parse does not occur.
- ExternalRuns.SameIdentityConverges: holds while no user is deleted and no email is changed; neither is a step of the
  runs.
- External logins: the mail-address parser is a parameter, drawing an id never fails, and a refusal's reason is an
  enumeration without the offending key.
- Lower-casing: A to Z and the two other characters whose lower case is ASCII (U+0130 and U+212A); all else is
  unchanged, also in the case-insensitive comparison of usernames and emails.
- ExternalOutcomes.RefusedNameMeansSevenHeldInEveryRun: assumes that an account id a login draws is not in use.
- The gate's counters are unbounded integers, not 32-bit ones; a gate of size n keeps them at n. Reconfiguring the
  gate while it serves is not modelled, as the code relies on setting it once.
- Argon2id itself: assumed is only that it panics for no rounds, no lanes or no key length and otherwise delivers a
  key of the length asked for. Also the randomness of tokens and salts, and the constant time of comparisons.
- The order in which the registry copies map entries is any order; the reader's own use of the type it found is not
  modelled.
- Challenge columns without a rule: description, visibility, case-insensitivity of flags, container environment,
  connection template and timestamps; with them the guard on deleting a visible challenge.
- A challenge type's own configuration and its check by the plugin; that a type or mode stays registered after the
  write.
- The texts of validation messages: each is the field and the rule it names.
- Single-branch code that would add only easy members: API tokens, login state, events, attachments, listings, points
  computation, the policy parser and the default type registry's wrappers.
