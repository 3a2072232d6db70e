# User account table of an investment platform, in Dafny

This project models the account service of an investment platform's back end
(`UserService` in `src/user/user.service.ts`) together with the stored user document
it works on (`User` in `src/user/schemas/user.schema.ts`).

The service keeps one document per account in a collection keyed by `_id`. Its operations:

- **Registration** (`createUser`, `registerUser`) refuses a username already in use. Otherwise it
  - hashes the password with a fresh salt and stores both;
  - builds a referral code from a random number and the username's first three characters;
  - inserts the document and hands `{ username, sub: _id }` to the token signer.
- **Login** (`findOne`, `validateUser`, `loginUser`) finds the document by email, compares the password and returns a copy with the credential fields blanked.
- **Profile** operations (`getUserProfile`, `updateUserProfile`) read a blanked copy by id, or replace the username.
- **Ledger** operations (`updateUserBalance`, `increaseNumberOf...`) read a counter stored as a decimal string, add to it and write it back.
- **Deletion** (`deleteUserData`) removes a document.
- **Password reset** (`resetPassword`, `verifyResetKey`) stores a hashed random key on the document, and later checks a presented key.

Files:

- `wrappers.dfy`: the `Option` type.
- `decimal.dfy`: integers written with `toString()` and read back with `Number()`. It proves that reading back what was written gives the same integer.
- `user_schema.dfy`: the `Account` document and the defaults the store fills in. It also holds the store's `required` and `unique` constraints, which an insert or a save must satisfy.
- `user_service.dfy`:
  - the class `UserService`, which holds the table (`users: map<Id, Account>`) and the next `_id`;
  - one method per operation that changes the table, each specified by a function of the old table;
  - the read-only operations, as functions of the table;
  - lemmas about those functions.

bcrypt's `hash` and `compare` are the class's two constant function values. They are left
uninterpreted, and a lemma that needs `compare` to accept a password against its own hash
says so in its `requires`. `genSalt` and `Math.random()` are method inputs. The random
value is the integer `r = Math.floor(Math.random() * 1000000)`, so `0 <= r < 1000000`.
Of the signed JSON Web Token only the payload is modelled.

On these points the model follows the code:

- The referral code's number is written without zero-padding, so it has 1 to 6 digits, not a fixed 6.
- `validateUser` folds "wrong password" (`null`) into "no such user" (`undefined`).
- `updateUserProfile` does not re-check that the new username is unique. The store's unique index on `username` still refuses a duplicate, so the model lets that save fail and leaves the table unchanged. The returned copy shows the new username anyway, because the save is not awaited.
- `verifyResetKey` compares the presented key verbatim (see Findings).

## Model

| member | source | states |
|---|---|---|
| `Decimal.NatToString` | src/user/user.service.ts:99 | `toString()` of a non-negative integer writes a canonical numeral: non-empty, all digits, and no leading zero unless the integer is 0 |
| `Decimal.IntToString` | src/user/user.service.ts:79 | `toString()` of an integer writes a canonical numeral, with a leading minus sign exactly when the integer is negative |
| `Decimal.ParseNatDefined` | src/user/user.service.ts:97 | the model's `Number`, defined on strings of digits: it reads a number exactly when `s` is a non-empty string of digits, and a k-digit string reads as a number below 10^k. Every other string is outside the model (`None`) |
| `Decimal.ParseInt` | src/user/user.service.ts:74 | the model's `Number`, defined on strings of digits with an optional minus sign: a value comes only from a non-empty string, and a negative value only from a string that starts with a minus sign. Every other string is outside the model (`None`) |
| `Decimal.CanonicalRoundTrip` | src/user/user.service.ts:97-99 | writing the value of a canonical numeral gives back the same string, so `toString` and `Number` are inverse on canonical numerals |
| `Decimal.CanonicalIntRoundTrip` | src/user/user.service.ts:74-79 | `(Number(s)).toString() == s` for every canonical signed numeral `s` |
| `Decimal.NatToStringDenotes` | src/user/user.service.ts:227 | `toString()` of a non-negative integer is a non-empty string of digits with no leading zero, and its digits denote the integer |
| `Decimal.NatRoundTrip` | src/user/user.service.ts:97-99 | `Number(n.toString()) == n` for every counter value `n`, so the stored counter string reads back as the number written |
| `Decimal.IntRoundTrip` | src/user/user.service.ts:74-79 | `Number(b.toString()) == b` for every integer balance `b`, negative ones included |
| `Decimal.NatToStringInjective` | src/user/user.service.ts:99 | two different counter values are never written as the same string |
| `Decimal.NatToStringLength` | src/user/user.service.ts:224-227 | a number below 10^k is written with at least 1 and at most k digits, with no padding |
| `UserSchema.NewDocument` | src/user/schemas/user.schema.ts:7-59 | a new document keeps the supplied fields. Every field left out gets its default: `socialId` '', `image` the gravatar placeholder, `roles` ["user"], `isAdmin` false. Counters start at "0" |
| `UserSchema.UniqueUsernames` | src/user/schemas/user.schema.ts:13-15 | the unique index on `username`: a username names at most one document |
| `UserSchema.UniqueEmails` | src/user/schemas/user.schema.ts:36-38 | the unique index on `email`, which is not sparse: no two documents share an email, so at most one document lacks one |
| `UserSchema.Consistent` | src/user/schemas/user.schema.ts:13-15 | the store's invariant: both unique indexes hold, and every stored document has its required username |
| `UserSchema.RenameKeepsConsistent` | src/user/schemas/user.schema.ts:13-15 | saving a document under a username no other document holds, with its email unchanged, keeps usernames and emails unique |
| `UserSchema.InsertCheck` | src/user/schemas/user.schema.ts:13-38 | the store accepts an insert exactly when the username is non-empty (`required`) and no document already holds the username or the email (`unique`). An empty username is a validation error |
| `UserSchema.InsertKeepsConsistent` | src/user/schemas/user.schema.ts:13-38 | an insert the store accepts, under a fresh `_id`, keeps usernames and emails unique across documents |
| `UserSchema.SaveKeepsConsistent` | src/user/schemas/user.schema.ts:13-38 | saving a document whose username and email are unchanged keeps usernames and emails unique |
| `UserAccounts.RandomNumber` | src/user/user.service.ts:225-228 | `generateRandomNumber` writes `r`'s canonical numeral: 1 to 6 digits, no zero-padding, reading back as `r` |
| `UserAccounts.UsernamePrefix` | src/user/user.service.ts:260 | `username.slice(0, 3)` is the first min(3, length) characters of the username |
| `UserAccounts.ReferralCode` | src/user/user.service.ts:260 | the referral code is 1 to 6 characters longer than the username's prefix, and ends with that prefix |
| `UserAccounts.ReferralCodeRoundTrip` | src/user/user.service.ts:259-260 | the referral code is `r`'s canonical numeral (1 to 6 digits, no zero-padding) followed by the username's prefix, and reading the digit part back gives `r` |
| `UserAccounts.Sanitized` | src/user/user.service.ts:283-288 | the copy has password, salt and reset key set to "" and every other field equal to the document's |
| `UserAccounts.PasswordHidden` | src/user/user.service.ts:321-325 | the copy has password and salt set to "". Every other field is equal to the document's, the reset key included |
| `UserAccounts.FindByEmail` | src/user/user.service.ts:274-277 | the lookup by email returns the document holding that email, or nothing when no document holds it |
| `UserAccounts.FindOne` | src/user/user.service.ts:272-292 | `undefined` exactly when no document with the email has a stored password. `null` exactly when the document's password does not match. Otherwise the blanked copy of the document with that email |
| `UserAccounts.ValidateUser` | src/user/user.service.ts:155-165 | a profile exactly when `findOne` matched, and then the same one. Both failure kinds become `undefined` |
| `UserAccounts.GetUserProfile` | src/user/user.service.ts:295-310 | a profile exactly when the id is present. It is that document with credentials blanked. `getProfile` (lines 52-62) passes it through |
| `UserAccounts.VerifyResetKey` | src/user/user.service.ts:196-204 | true exactly when the presented key is, verbatim, one of the reset keys stored in the table |
| `UserAccounts.ResetKeyIssued` | src/user/user.service.ts:196-204 | the intended check. When it accepts a key, the as-written check accepts that key's hash under some document's salt. With no salt stored it accepts nothing |
| `UserAccounts.LoginPayload` | src/user/user.service.ts:33-40 | a payload exactly when a user was found. Its `username` is the user's email and its `sub` the user's `_id` |
| `UserAccounts.SignTokenPayload` | src/user/user.service.ts:207-214 | the payload's `username` is the user's username and its `sub` the user's `_id` |
| `UserAccounts.RegisteredDocument` | src/user/user.service.ts:253-262 | the document `createUser` builds: password `hash(plaintext, salt)`, that same salt, the referral code from `r`. It is well-formed exactly when the username is non-empty |
| `UserAccounts.Bumped` | src/user/user.service.ts:97-99 | the counter reads one more than before, and no other field changes |
| `UserAccounts.BalanceAdded` | src/user/user.service.ts:74-79 | after the update the balance field still reads back as an integer |
| `UserAccounts.Patched` | src/user/user.service.ts:317-319 | the patch changes only the username. The username becomes the patch's username when that is non-empty, and stays as it was otherwise |
| `UserAccounts.Increased` | src/user/user.service.ts:97-100 | an increment keeps the same ids and leaves every other document as it was. The document stays readable, and its counter reads one more |
| `UserAccounts.ProfilePatched` | src/user/user.service.ts:317-320 | a profile update keeps the same ids and leaves every other document as it was. The document is either unchanged or renamed to the non-empty new username |
| `UserAccounts.ResetRequested` | src/user/user.service.ts:171-178 | a reset request keeps the same ids, and every document not holding the email is unchanged |
| `UserAccounts.IncreasedTimes` | src/user/user.service.ts:91-139 | repeated increments keep the document present and its counters readable |
| `UserAccounts.IncreasedSpec` | src/user/user.service.ts:91-139 | an increment on a present id turns the numeral of n into the numeral of n + 1. Every other field, every other counter and every other document are unchanged, and the store stays consistent |
| `UserAccounts.IncreasedTimesAddsK` | src/user/user.service.ts:97-100 | k increments on one id add exactly k to that counter and change nothing else in the table |
| `UserAccounts.BalanceAddedSpec` | src/user/user.service.ts:65-88 | a balance update on a present id sets the balance to old balance + amount. Every other field and every other document are unchanged, and the store stays consistent |
| `UserAccounts.BalanceAddsUp` | src/user/user.service.ts:74-81 | two balance updates by a and b leave the same table as one update by a + b |
| `UserAccounts.ProfilePatchedSpec` | src/user/user.service.ts:313-320 | a profile update changes at most the username of that one document. It takes the new username exactly when it is non-empty and no other document holds it, so usernames stay unique |
| `UserAccounts.ResetRequestedSpec` | src/user/user.service.ts:171-178 | a reset request changes at most the reset key, and only on the document holding the email. That document, if it has a salt, gets `hash(key, salt)` as its reset key. When no document holds the email, or that document has no salt, the table is unchanged. The store stays consistent |
| `UserAccounts.ResetThenKeyIssued` | src/user/user.service.ts:175-178 | after a reset request on a document with a salt, the emailed key passes the intended check |
| `UserAccounts.SecondResetSupersedesFirst` | src/user/user.service.ts:168-199 | under the intended check, after two reset requests for one email the newer key passes and the older one fails. This needs the two keys to hash differently, and no other document to hold the older key's hash |
| `UserAccounts.EmailedKeyRejected` | src/user/user.service.ts:175-199 | as written, the emailed key is refused by `verifyResetKey` once bcrypt hashes are 60 characters long and no document held the key verbatim before |
| `UserAccounts.RegisterThenLogin` | src/user/user.service.ts:253-288 | after a registration the store accepts, logging in with the same email and password finds the new document, provided `compare` accepts a password against its own hash. `loginUser` then signs `{ username: email, sub: new _id }` |
| `UserAccounts.DeletedHasNoProfile` | src/user/user.service.ts:146-147 | after deletion the id has no profile, and every other id's profile is as before |
| `UserAccounts.UserService.constructor` | src/user/user.service.ts:13-17 | the service starts over an empty, consistent table with the given bcrypt functions |
| `UserAccounts.UserService.CreateUser` | src/user/user.service.ts:243-269 | a taken username gives the "already exists" object and no change. A document the store refuses gives `{message}` and no change. Otherwise the document is inserted under a fresh `_id` and nothing else changes |
| `UserAccounts.UserService.RegisterUser` | src/user/user.service.ts:20-30 | a payload exactly when the username is free and the store accepts the registered document. Then the document is inserted under the next `_id`, which advances by one, and the payload is `{ username, sub: new _id }` as `signToken` builds it. Otherwise there is no payload and no change |
| `UserAccounts.UserService.UpdateUserBalance` | src/user/user.service.ts:65-88 | "User not found" exactly when the id is absent, and then no change. Otherwise the balance is updated as `BalanceAdded` says |
| `UserAccounts.UserService.IncreaseCounter` | src/user/user.service.ts:91-139 | true exactly when the id is present. Then the named counter is incremented; otherwise there is no change |
| `UserAccounts.UserService.IncreaseNumberOfDeposits` | src/user/user.service.ts:91-105 | true exactly when the id is present. Then deposits are incremented; otherwise there is no change |
| `UserAccounts.UserService.IncreaseNumberOfReferrals` | src/user/user.service.ts:108-122 | true exactly when the id is present. Then referrals are incremented; otherwise there is no change |
| `UserAccounts.UserService.IncreaseNumberOfWithdrawals` | src/user/user.service.ts:125-139 | true exactly when the id is present. Then withdrawals are incremented; otherwise there is no change |
| `UserAccounts.UserService.DeleteUserData` | src/user/user.service.ts:143-152 | true exactly when the id was present. Afterwards the id is absent and every other document is unchanged |
| `UserAccounts.UserService.UpdateUserProfile` | src/user/user.service.ts:313-327 | an absent id gives "no user matching this id" and no change. Otherwise the table becomes `ProfilePatched`, and the result is the edited copy with password and salt blanked. `updateProfile` (lines 43-49) passes it through |
| `UserAccounts.UserService.ResetPassword` | src/user/user.service.ts:168-193 | no change and `undefined` unless the password argument is `null`. With `null` the table becomes `ResetRequested` for the key `r`, and the answer is false |

## Findings

| source | as written | input that shows it | evidently intended | confidence | as-written member | corrected member |
|---|---|---|---|---|---|---|
| src/user/user.service.ts:196-199 | `verifyResetKey` looks for a document whose `passwordResetKey` equals the presented key verbatim. But `resetPassword` stores `hashPassword(key, salt)` there (line 177) and emails the plain key | `resetPassword(email, null)` with r = 123456 stores a 60-character bcrypt hash. `verifyResetKey("123456")` then finds no document and answers false | hash the presented key with the owning document's salt (or use `bcrypt.compare`) before comparing | high; not executed | `UserAccounts.EmailedKeyRejected` | `UserAccounts.ResetThenKeyIssued` |

## Left out

- HTTP routing, cookies, the logout redirect, API documentation and versioning (`src/user/user.controller.ts`, `src/main.ts`) are transport. The reset-password route passes the body's password as the only argument (`src/user/user.controller.ts:57-58`). `resetPassword` therefore sees no password argument and does nothing.
- Dependency wiring and configuration loading carry no logic.
- bcrypt `genSalt`, `hash` and `compare` are a foreign library: uninterpreted, with no cost factor or timing.
- JWT signing is a foreign library: only the payload is modelled, not the signature or the expiry.
- `Math.random()` is nondeterministic: the integer `r` is an input.
- Floating-point arithmetic on the balance is not modelled: balance and amount are integers.
- The counters are JavaScript numbers as well, but the model reads and writes them as unbounded integers. They are exact only below 2^53: from 2^53 on, `Number(x) + 1` no longer changes the value. From 10^21 on, `toString()` writes exponent notation ("1e+21"). Neither effect is modelled, so `NatToString`'s all-digits numeral and `IncreasedTimesAddsK`'s "k increments add exactly k" hold in the model for every counter value, but in the source only for values below 2^53.
- `Number()` is modelled only on strings of digits with an optional minus sign; the model gives `None` for every other string. JavaScript instead gives 0 for the empty string and for whitespace, reads surrounding whitespace, exponents and hexadecimal, and gives NaN for the rest. None of that is modelled. Every stored counter is kept readable by the class invariant.
- The counters and the referral code are not declared in the schema (`src/user/schemas/user.schema.ts:7-59`), and a strict-mode store would discard them. The model stores them as the service means to, with counters starting at "0". Counter values supplied in the registration payload are not modelled.
- Malformed ids are not modelled. Ids are the store's own `_id` values (natural numbers handed out in order), so the cast errors a malformed id string raises, and the catch blocks that answer them, are left out.
- Store failures other than a validation error or a duplicate key (connectivity, timeouts) are not modelled. The many `catch` blocks are collapsed into the result datatypes.
- A registration payload that omits the username (`undefined`, which would make the username lookup match any document) is not modelled: the username is a string.
- Concurrency is not modelled: each service call is one atomic step. The lost update that the read-then-save pattern allows under interleaving is not modelled.
- The un-awaited save in `updateUserProfile` is modelled as completed. It either succeeds or is refused by the unique index, and a refusal leaves the table unchanged.
- The `createdAt` and `updatedAt` timestamps come from a clock and are not modelled.
- Email delivery is not modelled: `sendEmail` only logs and answers false, so `ResetPassword` answers false. The second lookup by email in `resetPassword` (line 180) always finds the document just saved, so it is not modelled as a separate step.
- `roles` are plain strings: the `Role` enumeration is not part of this model.
- UsernamePrefix: counts Unicode characters, while JavaScript's `slice(0, 3)` counts UTF-16 code units. For a username with a character outside the Basic Multilingual Plane among its first three, the source's prefix is shorter than the model's and may end in half a surrogate pair. Strings here are sequences of Unicode characters, and UTF-16 is not modelled.
- CreateUser: a registration without a password is not modelled. The model's password is a string, so `CreateUser` always inserts once the username is free and the store accepts the document. In the source, `bcrypt.hash` rejects an undefined password (line 258), the catch at lines 264-267 returns `{message}`, and nothing is inserted.
- CreateUser: fields of the registration body beyond the DTO's are not modelled. The body is passed on whole (`src/user/user.controller.ts:30-32`), the global validation pipe does not strip unknown fields (`src/main.ts:68`), and `new this.userModel(createUserDto)` (line 262) stores every schema field the body carries. Those fields are `roles`, `isAdmin`, `socialId`, `displayName`, `firstName`, `fullName` and `lastName`. The defaults that `NewDocument` and `RegisteredDocument` state (`roles` ["user"], `isAdmin` false, `socialId` '', no names) hold only for bodies that omit them.
- FindOne: a login without an email or without a password is not modelled, because both are strings here. In the source a missing email queries `{email: undefined}` (line 274), and a missing password makes `bcrypt.compare` throw (line 279), which the catch turns into `undefined`.
- `getProfile` and `updateProfile` are pass-through wrappers, covered by `GetUserProfile` and `UpdateUserProfile`.
