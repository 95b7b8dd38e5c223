# Verified core of the detection platform's backend

A Dafny model of the three parts of the backend that hold hard properties, with proofs of what each
of them promises.

- **Sigma conditions** (`condition/`). The condition checker is a bracket prescan, a tokenizer with a
  gap loop, a separator loop and a recursive-descent parser over one shared index, followed by two
  checks that scan the same text flat. It is proved to accept exactly a declarative grammar, its
  flat scans are proved to read what a parse tree would say, and acceptance is given a meaning
  under evaluation.
- **Refresh tokens and lockout** (`auth/`). Rotation, revoke-all and the lockout counter are modelled
  twice: as class methods on repositories with buffered writes, commit, rollback and calls that may
  raise, and as requests whose single database steps interleave arbitrarily. A request that runs
  alone is proved to do what the service method does. Every interleaving is proved to be some serial
  history of whole operations, and lineage, single use, burning of a family and password-guessing
  bounds are proved over every history.
- **Drafts** (`json/`, `drafts/`). The canonical JSON printer and the strict decoder are proved to undo
  each other on everything the preflight accepts; the read cap is proved to have room for everything
  the write cap lets through; every condition of a draft that is accepted, stored or served is proved
  to mean something; the structural diff is proved to say what happened to each selector and to be
  the least patch; and concurrent create and revise requests are proved to keep gap-free, immutable
  versions, each different from the one before.

`dafny verify dfyconfig.toml` checks the whole project. `Text.dfy` holds strings as sequences of code
points, lone surrogates included; `Basics.dfy` what several modules share.

## Assumptions

- The clock does not go back, raw refresh tokens and UUIDs are fresh, and hashing is injective. A
  token row is keyed by its hash, which also stands for its id.
- A row lock taken with FOR UPDATE, or by an UPDATE, is held to commit or rollback; an insert takes a
  key-share lock on the row a foreign key names and so waits for a FOR UPDATE holder; an UPDATE
  reads its predicate after it has its lock; what is not committed is not seen by others. The
  repository's own README (line 13) makes no claim of transactional family revocation over all
  interleavings: it is proved here under these lock rules.
- `AuthService.refresh` reads `existing.user_id` (backend/app/auth/service.py:197) after
  `rotate_if_active` may have rolled back (backend/app/auth/repository_sqlalchemy.py:126 and 141), which
  expires loaded rows. Both models allow that read to raise, as a revoke-all that fails at its first
  call, and allow it to succeed.
- The Unicode category table is a parameter. Floats are reals that some codec writes and reads
  exactly (`ExactCodec`), and every float that is read is a double (`ReadsDoubles`).
- `fnmatchcase` patterns contain `*` and no other special character, which the tokenizer guarantees.

## Where a promise has an exact condition

- A quantifier's target may be any word token (backend/app/detection/validation.py:101), keywords
  included, so "every quantifier of an accepted condition ranges over some selector" is false:
  `all of and and s` is accepted. `Exemption.KeywordTargetIsAccepted` gives that input, and
  `Exemption.OnlyKeywordTargetsAreEmpty` shows that a quantifier ranges over nothing if and only if
  it is `all of` an operator word other than `them`.
- `revoke` overwrites `revoked_at` unconditionally, so a revocation time is not immutable.
  `Rotation.StaleLogoutRewritesTheTime` gives a run in which the second of two logouts rewrites it, and
  `Rotation.OnlyALogoutRewritesTheTime` shows that a set time changes if and only if the step is the
  UPDATE of a single logout of that token at another time. What is invariant is that a revoked token
  is never live again (`Lineage.RevokedForGood`, `Rotation.RevokedStaysRevoked`).
- A lock that is running can be taken off: `reset_failed_login` is unconditional, and a login may
  have passed its lock test before another login set the lock.
  `LockoutRace.StaleSuccessClearsARunningLock` gives the run, and
  `LockoutRace.OnlyAPassedLoginClearsARunningLock` shows that this is the only way, and that it always
  does so.
- Text round trips except that the decoder joins a high and a low surrogate escape that stand next
  to each other. `RoundTrip.StringReads` gives what is read for every string, and
  `RoundTrip.MergeKeepsOnlyUnpaired` that it is the string itself if and only if it has no such pair.
- The second half of the separator test, `operator.end() == target.start()`, never rejects a
  grammatical condition (`Scans.SeparatorsOfDisj`), and the bracket prescan rejects one only for
  depth (`Recognizer.TreePassesFlatScans`).

## Model

| member | source | states |
|---|---|---|
| Lexer.IdentifierScanIsWordTokens | backend/app/detection/validation.py:24-26 | on every string the identifier regex finds exactly the word tokens of the full tokenizer |
| Lexer.GapLoopIsExact | backend/app/detection/validation.py:52-63 | the gap loop accepts the matches if and only if the text can be cut into complete lexemes separated by whitespace alone |
| Lexer.LexesIsScan | backend/app/detection/validation.py:52-63 | such a cutting is unique: it is what the leftmost greedy scan finds |
| Lexer.LexesKeepsWordsApart | backend/app/detection/validation.py:65-75 | in a lexed text tokens do not overlap and two words never touch |
| Lexer.KindMeaning | backend/app/detection/validation.py:85-104 | each test the parser makes on a token's text is a test on its grammatical kind; operators match in any case |
| Lexer.OperatorsInAnyCase | backend/app/detection/validation.py:85-118 | a token is an operator if and only if it spells the operator's word letter by letter, each letter in either case |
| Parser.ParseDisjSound | backend/app/detection/validation.py:116-124 | what the parser accepts is a valid tree over exactly the tokens it consumed |
| Parser.ParseDisjComplete | backend/app/detection/validation.py:116-124 | wherever a valid tree's tokens stand, not continued by an operator, the parser finds that tree |
| Parser.ParseIsExact | backend/app/detection/validation.py:77-126 | the whole token list parses to a tree if and only if the tree is valid and yields the list |
| Scans.BracketsOfDisj | backend/app/detection/validation.py:40-51 | over the tokens of a tree the prescan passes exactly when its parentheses nest within the cap |
| Scans.SeparatorsOfDisj | backend/app/detection/validation.py:68-75 | over the tokens of a tree the separator scan passes exactly when every numeric count stands apart from its "of" |
| Scans.WindowsOfDisj | backend/app/detection/validation.py:173-176 | the sliding scan's windows are the tree's numeric quantifiers, in order |
| Recognizer.DerivationUnique | backend/app/detection/validation.py:30-126 | a condition has at most one parse tree |
| Recognizer.TreePassesFlatScans | backend/app/detection/validation.py:40-75 | the prescan rejects a derivable text only for depth, the separator scan only for a count that touches its "of" |
| Recognizer.StagesAreExact | backend/app/detection/validation.py:30-126 | the four stages together pass if and only if the text is grammatical, at most 64 deep, and separated |
| Recognizer.PrescanBrackets | backend/app/detection/validation.py:40-51 | the depth loop decides the bracket predicate |
| Recognizer.CollectTokens | backend/app/detection/validation.py:52-63 | the offset loop decides whether the gaps are blank and collects the tokens |
| Recognizer.CheckSeparators | backend/app/detection/validation.py:68-75 | the window loop decides the separator predicate |
| Recognizer.ConditionParser.Atom | backend/app/detection/validation.py:79-104 | advances the shared index to where the declarative parse of an atom ends, or fails exactly when there is none; the deepest stack seen covers this call and, on success, every call its tree nests, and stays within the call bound |
| Recognizer.ConditionParser.Conjunction | backend/app/detection/validation.py:106-114 | the same for a conjunction, through its loop |
| Recognizer.ConditionParser.Disjunction | backend/app/detection/validation.py:116-124 | the same for a disjunction |
| Recognizer.RoomBounded | backend/app/detection/validation.py:38-50 | on any prescanned input the calls active at a token number at most 3 * (64 + 1) plus the "not" tokens |
| Recognizer.CallBoundOfText | backend/app/detection/validation.py:322-323 | that bound is at most 323 for a condition of 512 characters |
| Recognizer.WellFormedBooleanCondition | backend/app/detection/validation.py:30-126 | accepts a string if and only if it is grammatical; the deepest stack is at least what the parse tree of an accepted string nests, and never more than 323 on 512 characters, accepted or not |
| Selectors.PlainPatternMatchesItself | backend/app/detection/validation.py:159-162 | a pattern without "*" matches itself alone |
| Selectors.StarStandsForAnyText | backend/app/detection/validation.py:159-162 | a "*" stands for any text: what precedes it is at the front of the name and what follows it matches some rest |
| Selectors.FeasibleQuantifiers | backend/app/detection/validation.py:166-185 | the early-exit loop accepts if and only if every numeric window asks for no more selectors than its target ranges over |
| Selectors.FeasibilityReadsTheTree | backend/app/detection/validation.py:172-176 | for a derivable condition the windows are the numeric quantifiers of its one tree |
| Selectors.WordsReadTheTree | backend/app/detection/validation.py:154-156 | the words of the reference scan, operators apart, are exactly the tokens the tree's leaves refer to |
| Selectors.ChecksReadTheTree | backend/app/detection/validation.py:145-185 | the two flat checks pass if and only if every name of the tree resolves and some leaf names more than an exempt keyword |
| Selectors.FeasibleIsSatisfiable | backend/app/detection/validation.py:183-184 | a numeric quantifier is feasible if and only if some assignment of the selectors satisfies it |
| Selectors.DisjHoldsByTerms | backend/app/detection/validation.py:106-124 | evaluation is "or" over "and": a condition holds if and only if all factors of some term do |
| Selectors.QuantifierCounts | backend/app/detection/validation.py:166-185 | a numeric quantifier holds if and only if some set of that many matching selectors lies in its range, "all of" when its whole range matches |
| Selectors.AcceptedConditionMeansSomething | backend/app/detection/validation.py:145-185 | a derivable condition that passes the two flat checks: every name in it resolves; without "not" it holds when all selectors match and is monotone in what matches |
| Selectors.DeclaringMoreKeepsNames | backend/app/detection/validation.py:155-184 | declaring another selector breaks no name that resolved |
| Exemption.OnlyKeywordTargetsAreEmpty | backend/app/detection/validation.py:93-101 | a quantifier of an accepted condition ranges over nothing if and only if it is "all of" an operator word |
| Exemption.KeywordTargetIsAccepted | backend/app/detection/validation.py:101 | "all of and and s" is grammatical and passes both checks with s the only selector |
| Exemption.NothingOnDisj | backend/app/detection/validation.py:93-104 | without "not", and unless a quantifier ranges over nothing, a condition is false when no selector matches |
| Conditions.AcceptedMeansSensible | backend/app/detection/validation.py:318-345 | the preflight accepts a condition if and only if its text is bounded and readable on both sides of a pipe and it has a parse tree, at most 64 deep, with counts apart, whose names all resolve against the draft's selectors and of which one is more than an exempt keyword |
| Conditions.AcceptedDraftMeansSomething | backend/app/detection/validation.py:281-361 | every condition of an accepted draft has such a tree; without "not" it holds when all selectors match, is monotone, and is false when none does unless a quantifier ranges over nothing; no selector is called like an operator |
| Conditions.CheckConditions | backend/app/detection/validation.py:317-345 | the condition checks, run in the order of the source over all conditions with the recognizer and the feasibility loop, accept if and only if every condition is valid |
| Conditions.AcceptedTimeframe | backend/app/detection/validation.py:300-304 | the time frame of an accepted draft is a number from 1 to 999999, without leading zeros, and a unit |
| Lineage.HistoryKeepsLineage | backend/app/auth/repository_sqlalchemy.py:106-186 | in every serial history tokens form chains rooted at logins of their user, each with at most one live token, none surviving a revoke-all |
| Lineage.ConsumedOnce | backend/app/auth/repository_sqlalchemy.py:129-142 | no token is consumed twice |
| Lineage.RowsStay | backend/app/auth/repository_sqlalchemy.py:84-86 | what a hash is looked up to is the row it was issued with, in every later state, but for its revocation |
| Lineage.RevokedForGood | backend/app/auth/repository_sqlalchemy.py:160-166 | a revoked token is never live again, whatever is written over its revocation time |
| Lineage.LiveTokensBounded | backend/app/auth/service.py:216-228 | a user's live tokens never outnumber the logins since the last revoke-all |
| Lineage.BurnIsForGood | backend/app/auth/service.py:164-168 | after a revoke-all every live token of that user descends from a login that came later |
| Rotation.StepKeeps | backend/app/auth/repository_sqlalchemy.py:117-186 | every database step of every interleaved request keeps the invariant: serial log, locks held apart, snapshots of a transaction still true |
| Rotation.InterleavingsAreSerial | backend/app/auth/repository_sqlalchemy.py:117-186 | every interleaving of lock, update, insert, commit and rollback steps leaves the table of a serial history; each finished request was told what one entry of that history, its own and made between its start and its finish, records for what it asked; a reported reuse is shown by an entry since its start |
| Rotation.RotatedOnce | backend/app/auth/service.py:186-198 | two requests never both rotate the same token |
| Rotation.ReuseBurnsTheFamily | backend/app/auth/service.py:195-198 | once a request has reported reuse, every live token of the user in that and any later state descends from a login after its revoke-all |
| Rotation.RevokedStaysRevoked | backend/app/auth/repository_sqlalchemy.py:160-186 | in every run a token revoked in some state is revoked in every later state, single revocations included |
| Rotation.ReplayIsDetected | backend/app/auth/service.py:164-198 | in every run a refresh of a token that was revoked before the request began is told of the reuse, unless a call raises |
| Rotation.InactiveNeverRotates | backend/app/auth/service.py:174-176 | a refresh that finds the account disabled never rotates, whatever runs beside it or after it |
| Rotation.OnlyRaisingFails | backend/app/auth/service.py:164-198 | in the interleaved model a request fails only at a call of its own that raises |
| Alone.LoneRefresh | backend/app/auth/service.py:155-205 | the interleaved steps of a refresh, run alone, leave the table and give the answer of the service method |
| Alone.LoneLogout | backend/app/auth/service.py:207-211 | so do the steps of a logout |
| Alone.LoneLogoutAll | backend/app/auth/service.py:213-214 | and those of a logout everywhere |
| Rotation.OnlyALogoutRewritesTheTime | backend/app/auth/repository_sqlalchemy.py:160-166 | in every run a revocation time that is set changes if and only if the step is the UPDATE of a single logout of that token at another time |
| Rotation.StaleLogoutRewritesTheTime | backend/app/auth/service.py:207-211 | such a run: two logouts read the token live, and the second to write rewrites the time |
| Rotation.LiveTokensStayBounded | backend/app/auth/service.py:216-228 | after any run a user's live tokens never outnumber the logins since the last revoke-all |
| Repositories.UserRepository.IncrementFailedLogin | backend/app/auth/repository_sqlalchemy.py:25-33 | adds one to the count of that user alone and returns the new count; raises without a row |
| Repositories.UserRepository.ResetExpiredLockout | backend/app/auth/repository_sqlalchemy.py:47-55 | changes a row only when its lock has expired at the request's time, and never the last login |
| Repositories.RefreshTokenRepository.Create | backend/app/auth/repository_sqlalchemy.py:62-82 | inserts one live token, or raises with the table as it was |
| Repositories.RefreshTokenRepository.ConsumeIfActive | backend/app/auth/repository_sqlalchemy.py:88-104 | consumes exactly an unrevoked, unexpired token |
| Repositories.RefreshTokenRepository.RotateIfActive | backend/app/auth/repository_sqlalchemy.py:106-158 | old token and replacement are written together or not at all, whichever call raises; which faults raise is exact |
| Repositories.RefreshTokenRepository.RevokeAllForUser | backend/app/auth/repository_sqlalchemy.py:168-186 | revokes every live token of the user and touches no other row, or raises with the table as it was |
| AuthService.AuthService.Login | backend/app/auth/service.py:111-153 | logged in if and only if the account exists, is active and not locked, and the password is right, unless a call raises; AccountLocked exactly while the stored lock runs, with nothing moved; the row afterwards is given for success and for a wrong password, and when an update raises it has exactly the updates before it; a token is inserted exactly when its key is returned |
| AuthService.AuthService.Refresh | backend/app/auth/service.py:155-205 | happens in full with the answer of the atomic operation, which `AnswersOfARefresh` describes, or raises with the table as it was; it raises exactly when a call it gets to does |
| AuthService.AuthService.ContinueRefresh | backend/app/auth/service.py:164-205 | the same from any stale snapshot of the token, with faults of the rotation and of the revoke-all apart |
| AuthService.AnswersOfARefresh | backend/app/auth/service.py:164-205 | what each answer means: a new token if and only if the snapshot is live, the account active and the stored row still consumable, and then with the full lifetime; expired and inactive leave the table alone; a reuse leaves the user no live token |
| AuthService.NewTokenLivesItsTime | backend/app/auth/service.py:183-198 | on the table a refresh leaves, the new token can be refreshed in its turn until its lifetime ends, and answers "expired" from then on; a disabled account is refused in between |
| AuthService.AuthService.Logout | backend/app/auth/service.py:207-211 | revokes the presented token if it is live and nothing else |
| AuthService.AuthService.LogoutAll | backend/app/auth/service.py:213-214 | revokes all of the user's tokens, or raises with the table as it was |
| AuthService.SecondUseBurnsEverything | backend/app/auth/service.py:164-198 | presenting a rotated token again leaves its user no live token, the one just issued included |
| AuthService.BurnLeavesNothing | backend/app/auth/repository_sqlalchemy.py:178-182 | a revoke-all leaves its user no live token and other users' rows alone |
| Lockout.GuessRateBounded | backend/app/auth/service.py:124-150 | over a span T without success at most max * (floor(T / duration) + 1) passwords are verified, and one more for each attempt whose calls raise |
| Lockout.SuccessOpensAFreshWindow | backend/app/auth/repository_sqlalchemy.py:35-41 | after a success it takes exactly max wrong passwords in a row, none of which raises, to lock an active account |
| Lockout.LockRefusesUntilItsEnd | backend/app/auth/repository_sqlalchemy.py:43-45 | until its end a lock refuses every attempt and nothing moves; from its end on, and not before, an active account's password is looked at again |
| Lockout.AllWritesAreTheLogin | backend/app/auth/service.py:124-152 | the row after all of a login's separate updates is that of the whole login |
| Lockout.MissedLockIsMadeUp | backend/app/auth/service.py:144-149 | when the call that sets the lock raises, the count stays at the limit without a lock and the next wrong password sets it |
| LockoutRace.ChecksBeforeFirstExpiry | backend/app/auth/service.py:125-150 | with k logins in flight and no right password at most max - 1 + k passwords are verified before the first lock expires, and one more for each login that ends early because a call raises |
| LockoutRace.LeavingCostsACheck | backend/app/auth/service.py:144-149 | such a login does cost a check: one that raises after the count and before the lock lets another password be verified |
| LockoutRace.ResetsClearOnlyExpiredLocks | backend/app/auth/repository_sqlalchemy.py:47-55 | in every interleaving a lock that a reset takes off had expired at the reset's time |
| LockoutRace.OnlyAPassedLoginClearsARunningLock | backend/app/auth/repository_sqlalchemy.py:35-41 | in every interleaving a running lock is taken off if and only if the step is the success of a login whose own read showed no lock, or one expired at its test |
| LockoutRace.StaleSuccessClearsARunningLock | backend/app/auth/service.py:125-152 | such a run: a login that read the row unlocked succeeds after another has set the lock |
| LockoutRace.ClearedOncePerLock | backend/app/auth/repository_sqlalchemy.py:35-55 | however many stale resets and successes there are, each lock that was set is taken off at most once |
| LoneLogin.AloneIsTheLogin | backend/app/auth/service.py:124-152 | the interleaved steps of a login, run alone, leave the row of the whole login and check a password exactly when it does |
| RoundTrip.StringReads | backend/app/detection/service.py:51-53 | a quoted string reads back with adjacent surrogate halves joined, escapes and surrogate pairs included (sections 7 and 8.2 of RFC 8259) |
| RoundTrip.MergeKeepsOnlyUnpaired | backend/app/detection/service.py:51-53 | joining changes a string if and only if it holds a high surrogate followed by a low one |
| RoundTrip.ValueReads | backend/app/detection/service.py:99 | every printed value is read back in front of any text that may follow it |
| RoundTrip.LoadsUndoesPrint | backend/app/detection/service.py:51-53 | loading the printed text gives the value back |
| RoundTrip.OnlyBlanksAround | backend/app/detection/service.py:51-53 | around the value there may be blanks and nothing else: any other text after it is refused |
| Strictness.StringsHaveNoControls | backend/app/detection/service.py:51-53 | a string that is read has no raw control character (section 7 of RFC 8259) |
| Strictness.NumberIsRead | backend/app/detection/service.py:51-53 | what is read as a number is one by section 6 of RFC 8259, an integer of at most 4300 digits or what float() makes of it |
| Reading.CollectPairs | backend/app/detection/service.py:37-43 | the pairs hook gives a dict of all the pairs if and only if no key is repeated |
| Canonical.CanonIsSame | backend/app/detection/service.py:99 | sorting the keys at every level changes nothing but their order |
| Canonical.TextNamesTheMapping | backend/app/detection/service.py:213-218 | two values are written alike if and only if they differ in nothing but key order |
| Canonical.EqComparesMeanings | backend/app/detection/service.py:219 | Python's == on well-formed values is equality of a normal form written apart from it: numbers by what they come to (True == 1 == 1.0), lists by items, dicts by what each key is bound to |
| Canonical.EqTransitive | backend/app/detection/service.py:219 | the equality of the "unchanged" test and the diff is transitive |
| Canonical.EqSymmetric | backend/app/detection/service.py:219 | and symmetric |
| Canonical.SameIsEqual | backend/app/detection/service.py:219 | mappings that differ only in key order are equal |
| Sizes.EscapeGrowth | backend/app/detection/service.py:20-24 | escaping one character for ASCII takes at most six times its UTF-8 size |
| Sizes.SizeIsTheEncoding | backend/app/detection/validation.py:359 | the size counted for a character is that of a byte sequence from which it can be read back (section 3 of RFC 3629) |
| Sizes.PrintGrowth | backend/app/detection/service.py:20-24 | so does printing any value |
| Sizes.SameBytes | backend/app/detection/validation.py:359 | the UTF-8 size of a draft does not depend on key order |
| Sizes.StoredSize | backend/app/detection/service.py:99 | the stored text, keys sorted, is at most six times the size the write cap measures |
| Snapshots.PreflightIgnoresKeyOrder | backend/app/detection/validation.py:281-361 | drafts that differ only in key order, at any level, are both accepted or both rejected |
| Snapshots.ValidDraftPrintable | backend/app/detection/validation.py:188-271 | what the preflight accepts has no lone surrogate, no oversized integer and no infinity, so it can be written and read faithfully |
| Snapshots.BitLengthIsTheExponent | backend/app/detection/validation.py:255 | the bit length compared with 4096 is that of the least power of two above the number |
| Snapshots.SplitUndoesJoin | backend/app/detection/validation.py:233 | the parts of a field key have no pipe and give the key when joined by pipes |
| Snapshots.ReadCapHasRoom | backend/app/detection/service.py:48 | a draft within 65536 bytes is stored in at most 393216 characters, within the read cap of 1048576 |
| Snapshots.StoredDraftReadsBack | backend/app/detection/service.py:27-74 | for every accepted draft the reader never raises 404 and yields a mapping equal to the draft |
| Smallest.SmallestIsAccepted | backend/app/detection/validation.py:281-361 | a one-selector draft passes every check of the preflight, so what is proved of accepted drafts is proved of something |
| Reading.ReadIsRepresentable | backend/app/detection/service.py:37-53 | whatever is read has unique keys at every level and doubles for floats |
| Reading.ServedIsDiffable | backend/app/detection/service.py:48-74 | whatever text is in the row, what the reader serves is within the read cap, well formed, accepted, free of nulls a diff would confuse with absence, and has conditions that mean something |
| Reading.ServedDiffIsInequality | backend/app/detection/service.py:371-386 | on any two texts that read back, has_changes is true if and only if the snapshots are unequal |
| Diff.SummaryListsDisagreements | backend/app/detection/service.py:330-350 | each field and name is listed somewhere if and only if the two snapshots disagree about it, absent time frames included |
| Diff.ListsSayWhatHappened | backend/app/detection/service.py:329-350 | which list a selector is in: added if and only if only the new snapshot has it, removed if only the old one has, modified if both have it with values of different meaning; condition and timeframe are in none |
| Diff.ListsAreSortedAndDisjoint | backend/app/detection/service.py:335-350 | added, removed and modified are sorted, without repetition, and disjoint; changed fields are listed once and in order |
| Diff.ChangesAreInequality | backend/app/detection/service.py:351-357 | has_changes agrees with the "unchanged" test of a revision |
| Diff.SummaryIsTheLeastPatch | backend/app/detection/service.py:324-357 | replacing a set of fields and names in the old snapshot rebuilds the new one if and only if the set covers everything listed |
| Diff.SwappingSwapsAddedAndRemoved | backend/app/detection/service.py:324-357 | swapping the snapshots swaps added and removed and changes nothing else |
| Diff.StepsCoverTheSpan | backend/app/detection/service.py:360-372 | what changed over two versions is listed by one of the two steps |
| Drafting.RuntimeIsFaithful | backend/app/detection/service.py:88-99 | the preflight, printer and reader satisfy what the history theorems ask: stored drafts read back equal, with the same title and log source |
| Drafting.LogSourceIsText | backend/app/detection/service.py:88-91 | the log source picked for a valid draft is never null and has 1 to 100 characters |
| Drafting.ProductComesFirst | backend/app/detection/service.py:88-91 | of what a draft names the product is shown before the category and the category before the service |
| DraftService.DraftService.CreateRuleDraft | backend/app/detection/service.py:77-119 | a rule and its version 1 appear together or not at all, whichever call raises |
| DraftService.DraftService.ReviseOwnedRuleDraft | backend/app/detection/service.py:183-250 | appends one version and moves title, log source and current version with it if the stored rule is the caller's, a draft, at the expected version and not equal to the new draft, and otherwise refuses with the error of the first test that fails, stated of the stored rows, and nothing written |
| DraftService.DraftService.AppendVersion | backend/app/detection/service.py:222-241 | version and rule row are written together or not at all |
| History.JudgedByTheHistory | backend/app/detection/service.py:196-220 | a revision is refused only for a rule that is not the caller's, a version that is not the newest, or a draft with the same meaning as the newest; never for a corrupt snapshot |
| History.HistoryKeepsVersions | backend/app/detection/service.py:77-250 | every serial history keeps the i-th stored draft as version i of its rule, and the row at its newest draft |
| History.NumberedWithoutGaps | backend/app/detection/service.py:222-228 | a rule's versions are numbered exactly 1 to k, and its current version is number k of that rule |
| History.NumbersAreUnique | backend/alembic/versions/0001_initial_schema.py:162 | no two versions share rule and number |
| History.RuleMirrorsItsSnapshot | backend/app/detection/service.py:232-237 | title and log source of the row are those of the current snapshot, which reads back; the log source is never null nor over 100 characters |
| History.OwnerIsTheCreator | backend/app/detection/service.py:92 | in every later state a rule belongs to whoever created it |
| History.VersionsNeverChange | backend/app/detection/service.py:190-195 | a stored version row is the same in every later state |
| History.RevisedOnce | backend/app/detection/service.py:210-211 | of all revisions of a rule that expected the same version one commits |
| History.EveryVersionReadsBack | backend/app/detection/service.py:294-321 | the owner, and nobody else, reads every version 1 to k, under its own id, as the draft that was stored, with conditions that mean something |
| History.NeighboursAlwaysDiffer | backend/app/detection/service.py:219-220 | adjacent versions are never equal |
| History.EveryDiffReportsAChange | backend/app/detection/service.py:360-386 | the diff exists for every version but the first, to the owner alone, compares the version before with this one in that order, and always reports a change |
| DraftRaces.StepKeeps | backend/app/detection/service.py:102-111 | every database step of every interleaved create or revise keeps the invariant: serial log, row locks and new ids held apart, checks of a transaction still true |
| DraftRaces.InterleavingsAreSerial | backend/app/detection/service.py:196-241 | every interleaving, with rollback at any step, leaves the tables of a serial history; each finished request was told what one entry of that history, its own and made between its start and its finish, records for what it asked |
| DraftRaces.UniqueNeverFires | backend/alembic/versions/0001_initial_schema.py:162 | the unique constraint never fires, and no version insert waits for another request's |
| DraftRaces.OnlyRaisingFails | backend/app/detection/service.py:229-241 | a request fails only at a call of its own that raises |
| DraftRaces.SameVersionRevisedOnce | backend/app/detection/service.py:192-195 | two concurrent revisions with the same expected version never both commit |
| DraftRaces.CommittedForGood | backend/app/detection/service.py:190-195 | a committed version is the same row in every later state of a run |
| DraftRaces.EveryRunKeepsRules | backend/app/detection/service.py:77-250 | with the program's own preflight, printer and reader, every run keeps rows that mirror their snapshot and gap-free numbers |
| Paging.WalkSeesTheRest | backend/app/detection/service.py:159-180 | stepping the offset by the limit until has_more is false concatenates to every remaining row, each once |
| Paging.WalkShowsEveryRule | backend/app/detection/service.py:152-180 | the (title, id) order is total, so a walk shows every rule of the owner once; the join on the current version drops none |
| Text.LessIsLexicographic | backend/app/detection/service.py:159 | the order of titles is by the first code point that differs, a prefix first |
| Paging.WalkShowsEveryVersion | backend/app/detection/service.py:269-289 | a walk through a rule's versions shows version k down to version 1 |
| Paging.RuleListingExists | backend/app/detection/service.py:152-162 | there is a listing of any owner's rules in that order |
| Paging.VersionListingExists | backend/app/detection/service.py:269-275 | a rule's chain, newest first, is a listing of its versions |

## Left out

- Routers, middleware, logging, configuration, health checks, Celery and the front end: plumbing with one-branch claims.
- JWT signing, Argon2, SHA-256 and token generation: library cryptography; a password verdict is an input, and the timing equalisation with the dummy hash is not a functional property.
- `_bounded_device_info` and `_validated_ip_address`: they would only add easy members; the two columns they fill are not modelled.
- The Unicode category table and float formatting: parameters. Floats are reals, so the sign of a negative zero is not modelled; it is equal to zero in Python as well.
- The aggregation text after a pipe beyond the boundary test: the source does not interpret it either.
- The decoder on texts that json.dumps does not write: it follows Python's `json.loads`, and what is proved is what it refuses (`Strictness`, `RoundTrip.OnlyBlanksAround`) and what it can yield (`Reading.ReadIsRepresentable`), not that it accepts every JSON text.
- The character rules of titles, log sources and field keys are predicates of the preflight as the source writes them; what is proved of them is what later stages need.
- RecursionError in the decoder: accepted drafts nest five levels deep, and a text that nests deeper is refused by its shape, where the source refuses it with the same 404.
- The limit on digits that int() converts is modelled for JSON numbers and not for the counts of a condition, where 512 characters cannot reach it.
- SMALLINT overflow of failed_login_count: the count is unbounded here.
- Deadlock between transactions and connection loss: a failing step is an exception and a rollback; a request that never takes its next step is a run that never schedules it.
- FOR UPDATE on a rule that another user owns does not wait, as the owner is part of the WHERE clause; rows are never deleted, and statuses other than draft never arise, since nothing in the source writes them.
- `get_owned_rule_draft`: the read of a rule's current version, which `History.EveryVersionReadsBack` covers for every version.
- Rotation.InterleavingsAreSerial: "expired" and "inactive" are recorded as the lookup that found a live row, with the time the service compared its expiry to; the user's active flag is an input. Logins take one step each and are not numbered as requests.
- Lockout.GuessRateBounded: for sequential attempts; concurrent ones are bounded up to the first expiry by `LockoutRace.ChecksBeforeFirstExpiry`, and `Lockout.MissedLockIsMadeUp` says what a missed lock costs.
- LockoutRace.ChecksBeforeFirstExpiry: no password is right; a login that finds the account inactive counts among those that end early.
- Paging.WalkSeesTheRest: the listing itself; the routes cap `offset` at 10000 (backend/app/detection/router.py:61 and 94), so through them a walk ends after 10000 rows and one page.
- Paging.WalkShowsEveryRule: titles are compared by code point; a database collation would be another total order.
