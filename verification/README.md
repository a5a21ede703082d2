# Verified model of service-authentication

The service registers accounts, changes addresses, passwords and roles, issues one-time short codes,
signs token pairs, and decides which requests a role may make. This project models the parts of it
whose correctness spans several functions or a whole run, and proves what they promise.

| module | what it models |
|---|---|
| `RoleGraph`, `Authorization` | the role-inheritance resolver, the handler built on it, the request middleware |
| `Text`, `Base64`, `Argon2` | splitting on a separator, strict unpadded base64, the encoded Argon2id hash |
| `ShortCodes`, `ShortCodeBook` | the short-code table and its SQL statements, and the partial map it stands for |
| `ShortCodeRaces`, `ShortCodeRaceProofs`, `ShortCodeSolo`, `ShortCodeRaceOutcomes` | the same table under concurrent transactions |
| `Accounts`, `AccountOutcomes` | the identity flows, each one transaction, and what each comes to |
| `AccountHistory`, `AccountProofs` | whole runs of the flows |
| `ResetCodes`, `AccountWitnesses` | what a reset code proves, and concrete runs in which a promise fails |
| `Ranks` | role updates, one at a time and with interleaved statements |
| `Sessions` | the token pair protocol |
| `Drain` | wait groups and the bounded drain at shutdown |

Code that changes things in place is a method or a class (`Accounts.Database`) proved against a
function of the old state; code made of expressions is a function. Whatever comes from outside (clocks,
random bytes, fresh UUIDs, CPU counts, the signer's output, the order in which Go ranges over a map,
the interleaving of transactions, a failing data-access call) is a parameter or a free choice, so every
theorem holds for all of it.

## Assumptions about the environment

- The database runs each statement on the rows committed when it starts plus its own changes, keeps a
  changed row locked until its transaction ends, lets a blocked UPDATE evaluate its WHERE clause again
  on the version then committed, and lets an insert wait for a transaction that may still settle a
  conflict in the partial unique index. These are the rules `internal/dao/pg.shortCodeInsert.go:90-97`
  describes. CURRENT_TIMESTAMP is fixed when a transaction starts. Identifiers drawn with `uuid.New`
  are fresh in the concurrent model; elsewhere a reused one is an error path.
- The columns declared `timestamp(0)` round to the nearest second.
- The signer gives every refresh token a fresh non-empty JTI (section 4.1.7 of RFC 7519), never gives
  one token to two different sets of claims, and verification accepts exactly what was signed.
- Argon2id (RFC 9106) is an arbitrary function that returns as many bytes as it is asked for.

## Findings

Five promises do not hold as stated; each is proved together with the exact condition under which it does.

- The record "key consumed" is not permanent. The override UPDATE also hits rows whose `deleted_at` lies
  ahead of the database clock, and rounding to the second puts a fresh deletion up to half a second ahead,
  so a code issued right after a redemption rewrites the reason (`AuditTrailCanBeRewritten` on a table;
  `AuditTrailIsLostInARun` in a run of the flows, with a password reset asked for again at once). The consumed
  rows match the identity changes if and only if that never happens (`InsertKeepsAuditTrail`, `Conservation`,
  `ConservationFailsInARun`).
- A plain (non-overriding) insert is put-if-absent-or-expired if and only if the pair does not have exactly
  one such lingering tombstone (`IssueAgrees`, `TableRefinesBook`, `SnagsAfterRedemption`). Under one clock
  that never goes back a pair has at most one (`AtMostOneLingers`), so the check `n == 1` then catches every
  lingering tombstone; when the clock goes back there can be two, and the insert is let through
  (`TwoLingerWhenClockGoesBack`).
- The resolver reports "circular dependency" for an undefined parent too, although no cycle exists
  (`ResolveDependants`, `UndefinedParentIsNoCycle`).
- The rank guards protect holders of the highest rank one update at a time, but not when the reads of one
  update and the write of another interleave (`StaleReadDemotesTop`). They keep their role through an
  interleaving if and only if no write of it meets a target that has reached the highest rank since it was
  read (`OnlyStaleWritesReachTop`, `TopKeptExactly`). It is enough that a role is written only while no other
  update of the same target stands between its read and its write (`SerializedUpdatesKeepTop`). The bound on
  the ranks written survives every interleaving (`EveryInterleavingRespectsBound`).
- A reset code does not always prove that the caller owns the account's address
  (`internal/core/credentialsUpdatePassword.go:88-89`): it was sent to the address the account had when the reset
  was asked for, and an email change does not cancel it (`OldAddressStillResets`). It does prove it if and only
  if no email change was committed for the account since, or the latest one set that address again
  (`ResetProvesAddress`).

Where the code and its own comments disagree, the model follows the code: `internal/dao/pg.shortCode.go:17-18`
calls the uniqueness constraint one over unexpired codes, but the index also holds expired undeleted rows; the
comment of the migration that adds the index says the expired rows are discarded before either path, but the
override path runs only its own UPDATE; `internal/dao/pg.shortCodeInsert.go:104-105` speaks of live rows only.

## Model

| member | source | states |
|---|---|---|
| RoleGraph.Seed | internal/lib/resolveDependants.go:44-57 | the seeded graph has the keys of both inputs, each with the set of parents it lists |
| RoleGraph.AddParents | internal/lib/resolveDependants.go:54-56 | a module's parent set is exactly the listed parents, duplicates merged |
| RoleGraph.StrikeOut | internal/lib/resolveDependants.go:78-80 | a resolved module disappears from every remaining parent set and nothing else changes |
| RoleGraph.StripRound | internal/lib/resolveDependants.go:66-85 | whatever order a round visits the keys in, it keeps the graph equal to the unresolved parents and the resolved list in parents-first order; it shrinks the graph or leaves no leaf |
| RoleGraph.NothingToStrip | internal/lib/resolveDependants.go:83-85 | a round that resolves nothing proves a cycle or an undefined parent |
| RoleGraph.StuckMeansCycle | internal/lib/resolveDependants.go:65-85 | a set of modules each with a parent in the set contains a cycle (pigeonhole on a long walk) |
| RoleGraph.OrderedMeansNoCycle | internal/lib/resolveDependants.go:59-62 | a full parents-first order exists only without cycles and undefined parents |
| RoleGraph.AppendParents | internal/lib/resolveDependants.go:93-96 | an entry is the own items followed by the parents' entries, in listed order and with multiplicity |
| RoleGraph.Flatten | internal/lib/resolveDependants.go:88-97 | the second pass produces a flattening: domain of both inputs, every entry equal to its own items and its parents' full entries |
| RoleGraph.ResolveDependants | internal/lib/resolveDependants.go:40-100 | terminates; succeeds if and only if there is no cycle and no undefined parent, and then keeps the promise of the resolver |
| RoleGraph.FlatteningIsPromised | internal/lib/resolveDependants.go:88-97 | an entry is the module's own items followed by its listed parents' entries, one after the other in listed order; an item is in it iff a path of listed parents leads to a module that lists it |
| RoleGraph.Confluence | internal/lib/resolveDependants.go:25-39 | at most one map is a flattening, so no visiting order can change the result |
| RoleGraph.FlatteningIsReachability | internal/lib/resolveDependants.go:25-28 | an item is in a module's entry if and only if the module reaches, through parent edges, a module that lists it |
| Authorization.TablesAreTheConfiguration | pkg/go/auth.go:48-59 | the two tables given to the resolver carry the configured graph and permissions and nothing else |
| Authorization.NewAuthHandler | pkg/go/auth.go:43-58 | startup succeeds exactly without cyclic or undefined parents; a role then has its own permissions first, and a permission iff a path of inherited roles leads to one configured with it |
| Authorization.BearerParts | internal/handlers/middlewares/rest.auth.go:96-97 | the split test accepts exactly "Bearer", one space, a token without spaces |
| Authorization.CheckRoles | internal/handlers/middlewares/rest.auth.go:125-168 | each outcome of the role scan with its exact condition: first deciding role known, first deciding role unknown, none deciding |
| Authorization.Middleware | internal/handlers/middlewares/rest.auth.go:71-174 | admission and every refusal for every header, verifier answer and permission list |
| Authorization.GrantsIsInheritance | pkg/go/auth.go:39-42 | a role grants a required permission in the resolved table iff it inherits it in the configuration |
| Authorization.EndToEndAuthorization | pkg/go/auth.go:48-64 | the decision over the resolved table is the decision over the configured inheritance graph |
| Authorization.AdmissionIsInheritance | internal/handlers/middlewares/rest.auth.go:125-168 | a request is admitted iff the first role that is unknown or inherits a required permission is a known one; likewise for both refusals |
| Authorization.Authorize | pkg/go/auth.go:43-64 | from the role table to the verdict in one contract: fails exactly on unresolvable tables, otherwise decides by the configured inheritance |
| Authorization.UndefinedParentIsNoCycle | internal/lib/resolveDependants.go:11-13 | a table refused as circular that has no cycle |
| Text.SplitJoin | internal/lib/argon2.go:168-171 | fields without the separator come back from a split exactly as joined |
| Text.JoinSplit | internal/handlers/middlewares/rest.auth.go:96 | splitting loses nothing |
| Text.PartsAreClean | internal/handlers/middlewares/rest.auth.go:96 | no part of a split holds the separator |
| Base64.SymbolsComeBack | internal/lib/argon2.go:103-104 | decoding an encoding returns the bytes, for every length mod 3 |
| Base64.BytesComeBack | internal/lib/argon2.go:195 | whatever the strict decoder accepts is the encoding of what it returns |
| Base64.DecodeInvertsEncode | internal/lib/argon2.go:195-207 | strict decoding yields given bytes if and only if the text, without line breaks, is their encoding |
| Base64.AlphabetInOrder | internal/lib/argon2.go:103-104 | the alphabet of Table 1 of RFC 4648 |
| Base64.EncodesBigEndian | internal/lib/argon2.go:103-104 | the symbols are the bytes read as one number, most significant first, a short group filled up with zero bits |
| Base64.LineBreaksAreSkipped | internal/lib/argon2.go:195-207 | a line break anywhere changes nothing |
| Base64.OtherCharactersCount | internal/lib/argon2.go:195-207 | any other character outside the alphabet is refused |
| Argon2.DecimalValue | internal/lib/argon2.go:106-114 | a printed decimal is non-empty, all digits, and has the value printed |
| Argon2.ScanPrinted | internal/lib/argon2.go:188 | scanning a printed field returns the value and the rest iff the value fits the machine width |
| Argon2.ScanPrintedParams | internal/lib/argon2.go:188-193 | the parameter field scans back to memory, iterations and parallelism |
| Argon2.NoFieldHoldsDollar | internal/lib/argon2.go:106-114 | no printed field contains the separator, so the split has six parts |
| Argon2.ParseFields | internal/lib/argon2.go:167-219 | the first two fields are ignored and the other four determine the decoded hash |
| Argon2.RoundTrip | internal/lib/argon2.go:106-116 | printing then decoding returns the same parameters, lengths, salt and key |
| Argon2.AcceptedHashIsCanonical | internal/lib/argon2.go:167-219 | every accepted text decodes to a well-formed hash that prints and decodes to itself, with one spelling of its binary fields |
| Argon2.GenerateHash | internal/lib/argon2.go:76-117 | the generated text decodes to the salt and to the key that the derivation gives for the password and the five parameters; a zero parallelism becomes the CPU count, at most 255 |
| Argon2.CompareGenerated | internal/lib/argon2.go:123-145 | comparison with a generated hash succeeds iff the derivation gives the same key for the attempt, the same salt and the same parameters, whatever host generated it |
| Argon2.FieldCountIsChecked | internal/lib/argon2.go:168-171 | any other number of fields is an invalid hash |
| Argon2.VersionIsChecked | internal/lib/argon2.go:173-185 | a version other than 19 is incompatible, and only such a one |
| Argon2.WidthsAreChecked | internal/lib/argon2.go:188-193 | the three parameters scan back iff each fits its machine width |
| Argon2.BlanksAreSkipped | internal/lib/argon2.go:188 | blanks before a number are skipped |
| Argon2.SignsAreRead | internal/lib/argon2.go:175 | the version may carry a sign |
| Argon2.PrintedForm | internal/lib/argon2.go:106-114 | the text form, field by field |
| ShortCodes.InsertedIsSound | internal/dao/pg.shortCodeInsert.go:39-42 | an insert keeps at most one live row per pair |
| ShortCodes.OverrideInserts | internal/dao/pg.shortCodeInsert.go:103-106 | an overriding insert that runs alone is refused only for a reused identifier |
| ShortCodes.RoundedIsNearest | internal/models/migrations/20250208151300_short_codes_table.up.sql:11-16 | a stored time is the nearest second, the later one of two |
| ShortCodes.InsertEffect | internal/dao/pg.shortCodeInsert.go:100-150 | what an accepted insert leaves, row by row, with dates and reasons |
| ShortCodes.InsertIsAcceptedExactly | internal/dao/pg.shortCodeInsert.go:100-150 | an insert is accepted iff the identifier is fresh and, unless it overrides, nothing of the pair is in force and not exactly one row counts as a conflict |
| ShortCodes.SpendIsSound | internal/dao/pg.shortCodeDelete.sql:1-10 | a redemption keeps at most one live row per pair |
| ShortCodes.InsertKeepsAuditTrail | internal/dao/pg.shortCodeInsert.discardConflict.sql:1-11 | an insert keeps every "key consumed" record iff it does not override a pair with a consumed row dated ahead of the clock |
| ShortCodes.AuditTrailCanBeRewritten | internal/models/migrations/20250208151300_short_codes_table.up.sql:11-16 | a concrete redemption and re-issue a tenth of a second apart that lose the record |
| ShortCodeBook.MirrorIsUnique | internal/dao/pg.shortCodeSelect.go:26-28 | a table stands for exactly one partial map |
| ShortCodeBook.LingeringIsRecent | internal/dao/pg.shortCodeInsert.go:172-176 | only a deletion less than half a second old can still count as a conflict; a backdated one never does |
| ShortCodeBook.IssueAgrees | internal/dao/pg.shortCodeInsert.go:100-150 | an insert is accepted iff the map accepts it and it does not snag |
| ShortCodeBook.IssuePuts | internal/dao/pg.shortCodeInsert.go:100-150 | an accepted insert is put on the map |
| ShortCodeBook.RedeemRemoves | internal/core/shortCodeConsume.go:82-131 | a redemption is remove-if-unexpired-and-matching, with the same answer |
| ShortCodeBook.StepAgrees | internal/core/shortCodeCreate.go:90-102 | one operation: table and map answer alike iff it does not snag |
| ShortCodeBook.TableRefinesBook | internal/dao/pg.shortCodeInsert.go:71-156 | every answer of every sequence of operations agrees with the map iff no operation snags |
| ShortCodeBook.SnagsAfterRedemption | internal/dao/pg.shortCodeInsert.checkConflict.sql:1-12 | a sequence of three operations under one clock that snags |
| ShortCodeBook.AtMostOneLingers | internal/dao/pg.shortCodeInsert.checkConflict.sql:1-12 | under one clock that never goes back the conflict query never counts more than one row |
| ShortCodeBook.TwoLingerWhenClockGoesBack | internal/dao/pg.shortCodeInsert.go:236-242 | a table and an earlier clock under which two rows are counted and the insert goes through |
| ShortCodeRaceProofs.StepKeeps | internal/dao/pg.shortCodeInsert.go:90-150 | every step of every transaction keeps the invariant on rows, locks, drafts and history |
| ShortCodeRaceProofs.NeverTwoLive | internal/dao/pg.shortCodeInsert.go:32-42 | in no committed state of any interleaving are two rows of a pair live |
| ShortCodeRaceProofs.OnlyCommitShows | internal/dao/pg.shortCodeInsert.go:100-153 | nothing but a commit changes what other transactions read |
| ShortCodeRaceProofs.SingleUse | internal/core/shortCodeConsume.go:114-121 | a committed code stays in the table unchanged but for its deletion, leaves the live state once and never returns; the transaction that took it out committed and left the one reason it can have; committed redemptions and consumed retirements correspond one for one |
| ShortCodeRaceProofs.AtMostOneRedemption | internal/dao/pg.shortCodeDelete.go:54-81 | two concurrent redemptions of one code do not both commit |
| ShortCodeRaceProofs.RetiredCodeIsNotRedeemed | internal/dao/pg.shortCodeDelete.sql:5-8 | a redeemer whose selected code somebody else retires, before its delete or at any moment, never commits |
| ShortCodeRaceProofs.FailureDestroysNothing | internal/dao/pg.shortCodeInsert.go:100-153 | a failed transaction leaves no lock, draft or retirement; a live code survives unchanged unless a committed transaction retired it |
| ShortCodeRaceProofs.LoserHasWinner | internal/dao/pg.shortCodeInsert.go:39-42 | among racing overrides a refusal is already-exists and implies another racer committed |
| ShortCodeRaceProofs.ExactlyOneLive | internal/dao/pg.shortCodeInsert_test.go:313-320 | from one live code and with issues only, every committed state has exactly one live code |
| ShortCodeSolo.SoloIssueIsInserted | internal/dao/pg.shortCodeInsert.go:100-150 | an insert transaction that runs alone ends as the table function says, in whatever order it touches rows |
| ShortCodeSolo.SoloRedeemIsSpend | internal/core/shortCodeConsume.go:82-121 | a redemption that runs alone and commits spent one row its submission redeems, and nothing else |
| ShortCodeRaceOutcomes.RefusedForCause | internal/core/shortCodeConsume.go:82-121 | in every run a refused redeemer was refused by a step with the cause it names: expired when judged, a hash that rejects the code, nothing on offer, or a code taken by another committed transaction |
| ShortCodeRaceOutcomes.PassedForCause | internal/core/shortCodeConsume.go:103-115 | in every run whoever gets past the judging of a code had it matched and unexpired at that moment |
| ShortCodeRaceOutcomes.InsertRefusedForCause | internal/dao/pg.shortCodeInsert.go:128-143 | in every run a refused insert found a row of its pair in the way |
| ShortCodeRaceOutcomes.NobodyWaitsForOtherPairs | internal/dao/pg.shortCodeInsert.go:90-97 | a transaction alone on its pair can always take its next step |
| ShortCodeRaceOutcomes.SoloRedeemOutcome | internal/core/shortCodeConsume.go:82-131 | alone and not cancelled, a redemption is not-found iff nothing is on offer, and otherwise redeems exactly a matching, unexpired code and names which of the two failed |
| ShortCodeRaceOutcomes.SoloRedeemEnds | internal/core/shortCodeConsume.go:71-132 | it comes to that outcome within six steps, none of which waits |
| Accounts.Database.InsertCode | internal/dao/pg.shortCodeInsert.go:71-156 | the insert transaction, statement by statement, whichever of them fails: the table function committed, or everything restored |
| Accounts.Database.SelectCode | internal/dao/pg.shortCodeSelect.go:45-71 | returns an unexpired live row of the pair, or not-found iff there is none |
| Accounts.Database.DeleteCode | internal/dao/pg.shortCodeDelete.go:54-81 | soft-deletes the row iff it is live and unexpired |
| Accounts.RedemptionIsExact | internal/core/shortCodeConsume.go:82-121 | a redemption succeeds iff some row is redeemable and no call fails, and it is that row |
| Accounts.Database.ConsumeCode | internal/core/shortCodeConsume.go:71-132 | succeeds iff a row is redeemable and then spends exactly that row; every refusal exactly when it should be |
| Accounts.Database.SelectByEmail | internal/dao/pg.credentialsSelectByEmail.sql:1-6 | the holder of an address, if any |
| Accounts.Database.InsertAccount | internal/dao/pg.credentialsInsert.go:49-89 | an account that goes in is the one holder of its address, addresses stay unique, and a refusal names a taken identifier or address |
| Accounts.Database.WriteEmail | internal/dao/pg.credentialsUpdateEmail.go:52-86 | sets the address iff the account exists and nobody else holds it; not-found and already-exists exactly when they should be; addresses stay unique |
| Accounts.Database.RequestRegisterCode | internal/core/shortCodeCreateRegister.go:82-117 | issues a code bound to a free address, or changes nothing, with the error of whichever call fails |
| Accounts.Database.RequestEmailChangeCode | internal/core/shortCodeCreateEmailUpdate.go:84-121 | issues a code bound to the user with the address as payload, or changes nothing, with the error of whichever call fails |
| Accounts.Database.RequestPasswordResetCode | internal/core/shortCodeCreatePasswordReset.go:81-112 | issues a code bound to the account that holds the address, or changes nothing, with the error of whichever call fails |
| Accounts.Database.CredentialsCreate | internal/core/credentialsCreate.go:79-133 | redeems the code and inserts the account, or does neither, with the error of the call that fails; signs only after the commit, and a signing error leaves the account in place |
| Accounts.Database.CredentialsUpdateEmail | internal/core/credentialsUpdateEmail.go:52-112 | redeems the code and sets the address it carries, or does neither, with the error of the call that fails |
| Accounts.Database.CredentialsUpdatePassword | internal/core/credentialsUpdatePassword.go:64-141 | reset path, change path and invalid request; password set with the proof of its path, or nothing, with the error of the check or call that fails |
| Accounts.Database.CredentialsCreateSuperAdmin | internal/core/credentialsCreateSuperAdmin.go:70-146 | creates or reconciles the account, or changes nothing |
| Accounts.Database.TokenCreate | internal/core/tokenCreate.go:62-108 | signs a pair for the holder of the address iff the password matches the stored hash; every refusal exactly when it should be |
| Accounts.Database.CredentialsUpdateRole | internal/core/credentialsUpdateRole.go:66-180 | writes the role iff the guards allow it and the rank differs; otherwise the guard or call that refused, and nothing written |
| AccountOutcomes.RegisterCodeOutcome | internal/core/shortCodeCreateRegister.go:82-117 | commits iff the address is free, the identifier fresh and no call fails; the code is then in force for the address until its lifetime is over and what was in force is overridden |
| AccountOutcomes.EmailChangeCodeOutcome | internal/core/shortCodeCreateEmailUpdate.go:84-121 | the same for a change code, bound to the user and carrying the address |
| AccountOutcomes.ResetCodeOutcome | internal/core/shortCodeCreatePasswordReset.go:81-112 | the same for a reset code, bound to the holder of the address; not-found iff there is none |
| AccountOutcomes.RedemptionOutcome | internal/core/shortCodeConsume.go:82-121 | success and each refusal, told by the rows |
| AccountOutcomes.RegistrationOutcome | internal/core/credentialsCreate.go:98-125 | commits iff a code is redeemable for a free, non-empty address; then spends that code and adds that account and nothing else |
| AccountOutcomes.EmailChangeOutcome | internal/core/credentialsUpdateEmail.go:67-103 | the address the code carries is set iff nobody else holds it; every refusal in the case it belongs to |
| AccountOutcomes.ResetOutcome | internal/core/credentialsUpdatePassword.go:86-131 | the reset path commits iff a code is redeemable and the account exists |
| AccountOutcomes.ChangeOutcome | internal/core/credentialsUpdatePassword.go:100-131 | the change path commits iff the current password matches, and spends no code |
| AccountOutcomes.BootstrapExact | internal/core/credentialsCreateSuperAdmin.go:88-137 | creates an absent account and reconciles a present one, whichever call fails |
| AccountOutcomes.RoleUpdateOutcome | internal/core/credentialsUpdateRole.go:83-179 | commits iff the guards allow it, told by configured priorities, and writes the wanted role unless the rank is the same |
| AccountOutcomes.RoleRefusalIsNamed | internal/core/credentialsUpdateRole.go:83-149 | a refused update names the guard that refused it |
| AccountOutcomes.LoginOutcome | internal/core/tokenCreate.go:75-97 | a login is that of the holder of the address, exactly with its password |
| AccountOutcomes.SignedOutcome | internal/core/signTokenPair.go:36-90 | the access token verifies to the user with the stored role, the refresh token to the same user and identifier, and the one renews the other |
| AccountHistory.IssueKeepsCodes | internal/core/shortCodeCreate.go:90-102 | issuing keeps every spent code dead and tied to the change it authorised |
| AccountHistory.SpendKeepsCodes | internal/core/shortCodeConsume.go:114-121 | redeeming a live code ties it to one new change and to no earlier one |
| AccountHistory.WriteKeepsAccounts | internal/dao/pg.credentialsUpdateEmail.go:73-83 | a write explained by its event keeps addresses unique and every account's address and hash explained |
| AccountHistory.NextKeeps | internal/core/credentialsUpdatePassword.go:86-131 | every flow keeps the invariant between tables and history |
| AccountHistory.ChangesAreProved | internal/core/credentialsUpdatePassword.go:40-42 | address, password and role of an account change only with a spent code, the current password, a higher rank or the bootstrap; identity and creation time never |
| AccountHistory.CreationIsProved | internal/core/credentialsCreate.go:74-78 | an account appears only with a spent code for its address, as an ordinary user, or by bootstrap |
| AccountProofs.EmailProvenance | internal/core/credentialsUpdateEmail.go:31-33 | in every reachable state addresses are unique and each is the one most recently given: by a spent registration code, a spent change code for that account, or the bootstrap |
| AccountProofs.OneCodePerChange | internal/core/shortCodeConsume.go:48-50 | identity changes and spent codes are equally many |
| AccountProofs.NextLoses | internal/dao/pg.shortCodeInsert.discardConflict.sql:1-11 | a step loses a consumed record iff it issues for a pair just redeemed |
| AccountProofs.Conservation | internal/core/credentialsCreate.go:98-122 | each identity change has a dead code of its own, of the right usage, target and payload; the rows recorded as consumed are those codes iff no record was ever rewritten |
| AccountProofs.LoginAgreesWithHistory | internal/core/tokenCreate.go:75-107 | after any run the stored hash holds the key the last committed password derives, and a login is accepted iff the submitted password derives that key |
| AccountProofs.BootstrapOutcome | internal/core/credentialsCreateSuperAdmin.go:88-137 | success leaves one super-admin holder of the address with the given password and touches nobody else; when it can fail |
| AccountProofs.BootstrapTwice | internal/core/credentialsCreateSuperAdmin.go:39-41 | a second run finds the same account, keeps its creation time and every other account, and repeated exactly changes nothing |
| AccountWitnesses.AuditTrailIsLostInARun | internal/dao/pg.shortCodeInsert.discardConflict.sql:1-11 | a run of four flows in which a consumed record is rewritten |
| AccountWitnesses.ConservationFailsInARun | internal/dao/pg.shortCodeInsert.discardConflict.sql:1-11 | after that run the consumed rows are not the spent codes |
| AccountWitnesses.OldAddressStillResets | internal/core/credentialsUpdatePassword.go:88-98 | a run in which a reset code asked for with the old address sets the password after the address has changed |
| ResetCodes.EmailSince | internal/core/credentialsUpdateEmail.go:84-103 | from any entry of the history on, an account keeps its address but for committed email changes |
| ResetCodes.ResetProvesAddress | internal/core/credentialsUpdatePassword.go:88-98 | a committed reset spent a code asked for with the account's address of that time, which is its present address iff no email change since replaced it |
| Ranks.JudgeIsOutranking | internal/core/credentialsUpdateRole.go:132-149 | the two guards together mean: the actor outranks the target and is not outranked by the new role |
| Ranks.UpdateNeedsOutranking | internal/core/credentialsUpdateRole.go:83-146 | every accepted update is by a different, known account that outranks the target |
| Ranks.UpdateIsExact | internal/core/credentialsUpdateRole.go:83-168 | accepted exactly under the guards told by priorities; the target then holds the wanted role, or keeps its own at equal rank |
| Ranks.UpdateRefusalIsNamed | internal/core/credentialsUpdateRole.go:83-149 | each refusal, told by roles and priorities |
| Ranks.AloneIsOneUpdate | internal/core/credentialsUpdateRole.go:83-168 | the statements of an update run together do what one update does |
| Ranks.UpdateRespectsTop | internal/core/credentialsUpdateRole.go:48-50 | one update neither exceeds the highest rank held nor changes its holders |
| Ranks.RunRespectsTop | internal/core/credentialsUpdateRole.go:48-50 | so does every run of updates |
| Ranks.EveryInterleavingRespectsBound | internal/core/credentialsUpdateRole.go:95-168 | with reads and writes interleaved freely no rank above the initial maximum is written |
| Ranks.OnlyStaleWritesReachTop | internal/core/credentialsUpdateRole.go:132-168 | a statement changes a holder of the highest rank iff it is a write over a target that has reached that rank, which is then not the role its guards read |
| Ranks.TopKeptExactly | internal/core/credentialsUpdateRole.go:95-168 | holders of the highest rank keep their role throughout an interleaving iff no write of it overtakes one |
| Ranks.FreshWritesKeepTop | internal/core/credentialsUpdateRole.go:95-168 | in an interleaving without stale writes holders of the highest rank keep their role |
| Ranks.SerializedReadsAreCurrent | internal/core/credentialsUpdateRole.go:95-168 | if a role is written only while no other update of the target stands between read and write, what an update has read is what is stored |
| Ranks.SerializedUpdatesKeepTop | internal/core/credentialsUpdateRole.go:95-168 | under that discipline no write is stale and holders of the highest rank keep their role |
| Ranks.StaleReadDemotesTop | internal/core/credentialsUpdateRole.go:95-168 | an interleaving in which an account that reached the highest rank is written all the same |
| Sessions.RenewalIsOwnSession | internal/core/tokenRefresh.go:149-182 | a refresh passes iff the refresh token is the unexpired one of the access token's own session and the account exists; user and identifier are kept, the role is the stored one |
| Sessions.AnonymousNeverRenews | internal/core/tokenCreateAnon.go:18-26 | an anonymous token renews with no refresh token |
| Sessions.SignInKeepsBinding | internal/core/signTokenPair.go:36-90 | minting keeps the binding, also when the second signature fails |
| Sessions.SignedPairWorks | internal/core/signTokenPair.go:36-90 | both tokens of the pair returned verify, to the user's stored role and to the user's refresh claims, bound by the identifier, and the one renews the other |
| Sessions.RefreshedPairWorks | internal/core/tokenRefresh.go:172-195 | the pair returned is the new access token with the refresh token presented, and renews again |
| Sessions.AnonymousPair | internal/core/tokenCreateAnon.go:18-26 | an anonymous answer is one access token without user, identifier or refresh token |
| Sessions.RefusalIsNamed | internal/core/tokenRefresh.go:110-170 | each refusal of a refresh, told by what the tokens are |
| Sessions.RenewKeepsBinding | internal/core/tokenRefresh.go:172-195 | a renewed access token belongs to the session of the refresh token used |
| Sessions.SessionBinding | internal/core/tokenRefresh.go:158-162 | after any run of operations the only refresh token that renews an access token is that of its session |
| Sessions.TokensStay | internal/core/tokenRefresh.go:192-195 | what an access token was signed with, and its session, never change afterwards |
| Sessions.RenewalStaysInSession | internal/core/tokenRefresh.go:172-195 | a renewed token is of the same session, user and identifier as the one renewed |
| Sessions.ChainStaysInSession | internal/core/tokenRefresh.go:172-195 | the token at the end of any chain of renewals has the session, user and identifier of the one at its start and renews only with that session's refresh token |
| Drain.CountersStay | internal/core/shortCodeCreateRegister.go:121-131 | each wait-group counter stays equal to the sends not over, panics included |
| Drain.DrainIsSafe | internal/lib/drain.go:25-47 | in every run Drain returns nil only when every send is over and an error only when the context expired |
| Drain.DrainCanMove | internal/lib/drain.go:31-37 | while it waits, the goroutine can move or some send is still to finish |
| Drain.EverySendCanEnd | internal/core/shortCodeCreateRegister.go:128-166 | a send comes to its end delivered, failed or panicked alike, and takes exactly one off its service's counter |
| Drain.LaunchIsCounted | internal/core/shortCodeCreateRegister.go:119-123 | a send is launched only while serving, and counted |
| Drain.DrainReturns | internal/lib/drain.go:25-47 | once every send is over, Drain by itself gets to nil |
| Drain.DrainIsBounded | internal/lib/drain.go:39-46 | Drain returns an error whenever its context has expired before, however many sends are out |

## Left out

- HTTP handlers, status codes, JSON bodies, CORS, routing and health checks: plumbing with one-branch facts.
- Telemetry, logging, environment and YAML loading: role tables and lifetimes are arbitrary parameters instead.
- SMTP, mail templates, the gRPC client and JWT signatures: only the signer and verifier contract is kept.
- Argon2 itself, its refusal of zero iterations or zero lanes, random-number quality, and constant-time or dummy comparisons.
- Request validation tags, except that a password change needs a code or the current password.
- The JSON encoding of a code's payload: the payload is an optional string, absent when the code carries none.
- Unicode white space before a scanned number: the scanner skips blanks, tabs and carriage returns.
- The role CHECK constraint of the accounts table: the flows write only configured roles.
- Account rows under concurrent transactions: the flows are taken as atomic, a redemption whose flow fails is a rollback in the concurrent model of the codes.
- Deadlock detection and the order in which an UPDATE meets its rows: a transaction may be cancelled at any point instead.
- A failing verifier or lookup during a refresh: it changes nothing and its error is passed on.
- Slice capacity sharing between the resolver's entries: entries are values.
- A COMMIT that fails, and an insert called inside another transaction, which is refused: a failing call is one before the commit.
- DrainCanMove: says that a step is possible, not that the scheduler takes it.
