/**
 * The account table behind `UserService` (src/user/user.service.ts).
 *
 * Read-only operations (`findOne`, `validateUser`, `getUserProfile`, `verifyResetKey`,
 * the token payloads, the random number and the referral code) are functions over the
 * table value. Operations that fetch a document, assign a field and save it are methods
 * of the class `UserService`, each specified by a function of the old table; the lemmas
 * about those functions state what the operations promise.
 *
 * bcrypt's `hash` and `compare` are the class's `hash` and `compare` constants, left
 * uninterpreted. `genSalt` and `Math.random` are method inputs. Of a signed JSON Web
 * Token only the payload is modelled.
 */
module UserAccounts {
  import opened Wrappers
  import opened Decimal
  import opened UserSchema

  /** `bcrypt.hash(data, salt)`. */
  type Hasher = (string, string) -> string

  /** `bcrypt.compare(data, encrypted)`. */
  type Comparer = (string, string) -> bool

  /** The registration payload; a client-supplied salt is overwritten, so it is not a field here. */
  datatype CreateUserDto = CreateUserDto(
    username: string,
    password: string,
    email: Option<string>,
    image: Option<string>,
    passwordResetKey: Option<string>)

  /** A copy of a document with its `_id`, as the service hands it out. */
  datatype Profile = Profile(id: Id, fields: Account)

  /** The payload given to the token signer: `{ username, sub }`. */
  datatype TokenPayload = TokenPayload(username: Option<string>, sub: Id)

  /** What `createUser` returns: the saved document, the "already exists" object, or `{message}`. */
  datatype CreateResult = Created(id: Id) | UsernameTaken | StoreRejected(error: StoreError)

  /** What `findOne` returns: `undefined`, `null`, or the blanked copy. */
  datatype Lookup = NoSuchUser | WrongPassword | Match(profile: Profile)

  /** What `updateUserBalance` returns: `true` or `{ message: "User not found" }`. */
  datatype BalanceResult = BalanceUpdated | UserNotFound

  /** What `updateUserProfile` returns: the view, or `{ message: "no user matching this id" }`. */
  datatype UpdateResult = ProfileUpdated(view: Profile) | NoUserMatchingId

  /** The optional `password` argument of `resetPassword`: absent, `null`, or a string. */
  datatype PasswordArg = NoPassword | NullPassword | Password(value: string)

  /** The three counters that only ever go up by one. */
  datatype Counter = Deposits | Withdrawals | Referrals

  // ---------------------------------------------------------------------------
  // Random number, reset key and referral code

  /** `generateRandomNumber` for `Math.floor(Math.random() * 1000000) == r`. */
  function RandomNumber(r: nat): (s: string)
    requires r < 1000000
    ensures 1 <= |s| <= 6 && CanonicalNat(s)
    ensures ParseNat(s) == Some(r)
  {
    NatToStringDenotes(r);
    NatToStringLength(r, 6);
    NatToString(r)
  }

  /** `username.slice(0, 3)`. */
  function UsernamePrefix(username: string): (p: string)
    ensures |p| == if |username| < 3 then |username| else 3
    ensures username == p + username[|p|..]
  {
    username[..if |username| < 3 then |username| else 3]
  }

  /** The referral code built at registration: the random number followed by the username's prefix. */
  function ReferralCode(r: nat, username: string): (code: string)
    requires r < 1000000
    ensures |UsernamePrefix(username)| + 1 <= |code| <= |UsernamePrefix(username)| + 6
    ensures code[|code| - |UsernamePrefix(username)|..] == UsernamePrefix(username)
  {
    var digits, prefix := RandomNumber(r), UsernamePrefix(username);
    assert (digits + prefix)[|digits|..] == prefix;
    digits + prefix
  }

  /** Reads the number back out of a referral code, given the username it was built for. */
  function ReferralNumber(code: string, username: string): Option<nat>
  {
    var k := |UsernamePrefix(username)|;
    if |code| >= k && code[|code| - k..] == UsernamePrefix(username) then ParseNat(code[..|code| - k])
    else None
  }

  /**
   * A referral code is 1 to 6 digits (not zero-padded) followed by the first
   * min(3, |username|) characters of the username, and the digits give `r` back.
   */
  lemma {:induction false} ReferralCodeRoundTrip(r: nat, username: string)
    requires r < 1000000
    ensures var code := ReferralCode(r, username);
            var k := |code| - |UsernamePrefix(username)|;
            && 1 <= k <= 6 && CanonicalNat(code[..k])
            && code[k..] == UsernamePrefix(username)
            && ReferralNumber(code, username) == Some(r)
  {
    var digits, prefix := RandomNumber(r), UsernamePrefix(username);
    var code := digits + prefix;
    assert code[..|digits|] == digits;
    assert code[|digits|..] == prefix;
  }

  // ---------------------------------------------------------------------------
  // Read-only lookups

  /** Blanks the three credential fields of a copy, as `findOne` and `getUserProfile` do. */
  function Sanitized(a: Account): (v: Account)
    ensures v.password == Some("") && v.salt == Some("") && v.passwordResetKey == Some("")
    ensures v.(password := a.password, salt := a.salt, passwordResetKey := a.passwordResetKey) == a
  {
    a.(password := Some(""), salt := Some(""), passwordResetKey := Some(""))
  }

  /** Blanks only password and salt, as `updateUserProfile` does: the reset key stays visible. */
  function PasswordHidden(a: Account): (v: Account)
    ensures v.password == Some("") && v.salt == Some("")
    ensures v.(password := a.password, salt := a.salt) == a
  {
    a.(password := Some(""), salt := Some(""))
  }

  /** `findOne({ email })`: the document holding the email, if any (at most one, by the unique index). */
  function FindByEmail(users: map<Id, Account>, email: string): (r: Option<Id>)
    requires UniqueEmails(users)
    ensures r.Some? ==> r.value in users && users[r.value].email == Some(email)
    ensures r.None? ==> forall id :: id in users ==> users[id].email != Some(email)
  {
    if exists id :: id in users && users[id].email == Some(email) then
      var id :| id in users && users[id].email == Some(email);
      Some(id)
    else
      None
  }

  /**
   * `findOne(email, password)`: `undefined` when no document has the email, or when it
   * has no stored password (bcrypt.compare throws and the catch answers `undefined`);
   * `null` when the password does not match; otherwise the blanked copy.
   */
  function FindOne(users: map<Id, Account>, compare: Comparer, email: string, password: string): (r: Lookup)
    requires UniqueEmails(users)
    ensures r == NoSuchUser <==>
      forall id :: id in users && users[id].email == Some(email) ==> users[id].password.None?
    ensures r == WrongPassword <==>
      exists id :: id in users && users[id].email == Some(email) && users[id].password.Some?
        && !compare(password, users[id].password.value)
    ensures r.Match? ==>
      var id := r.profile.id;
      && id in users && users[id].email == Some(email)
      && users[id].password.Some? && compare(password, users[id].password.value)
      && r.profile.fields == Sanitized(users[id])
  {
    match FindByEmail(users, email)
    case None => NoSuchUser
    case Some(id) =>
      match users[id].password
      case None => NoSuchUser
      case Some(stored) =>
        if !compare(password, stored) then WrongPassword
        else Match(Profile(id, Sanitized(users[id])))
  }

  /** `validateUser`: `findOne`, with `null` (wrong password) folded into `undefined`. */
  function ValidateUser(users: map<Id, Account>, compare: Comparer, email: string, password: string): (r: Option<Profile>)
    requires UniqueEmails(users)
    ensures r.Some? <==> FindOne(users, compare, email, password).Match?
    ensures r.Some? ==> r.value == FindOne(users, compare, email, password).profile
  {
    match FindOne(users, compare, email, password)
    case Match(p) => Some(p)
    case _ => None
  }

  /** `getUserProfile` (and `getProfile`, which passes it through): the blanked copy by id. */
  function GetUserProfile(users: map<Id, Account>, id: Id): (r: Option<Profile>)
    ensures r.Some? <==> id in users
    ensures r.Some? ==> r.value.id == id && r.value.fields == Sanitized(users[id])
  {
    if id in users then Some(Profile(id, Sanitized(users[id]))) else None
  }

  /** The reset keys stored in the table, as they are stored. */
  ghost function ResetKeys(users: map<Id, Account>): set<string> {
    set id | id in users && users[id].passwordResetKey.Some? :: users[id].passwordResetKey.value
  }

  /** `verifyResetKey` as written: some document's stored reset key equals `key` verbatim. */
  function VerifyResetKey(users: map<Id, Account>, key: string): (r: bool)
    ensures r <==> key in ResetKeys(users)
  {
    exists id :: id in users && users[id].passwordResetKey == Some(key)
  }

  /**
   * `verifyResetKey` as intended: the stored reset key is a hash, so the presented key is
   * hashed with each document's own salt before it is compared.
   */
  function ResetKeyIssued(users: map<Id, Account>, hash: Hasher, key: string): (r: bool)
    ensures r ==> exists id :: id in users && users[id].salt.Some? &&
                               VerifyResetKey(users, hash(key, users[id].salt.value))
    ensures (forall id :: id in users ==> users[id].salt.None?) ==> !r
  {
    exists id :: id in users && users[id].salt.Some?
      && users[id].passwordResetKey == Some(hash(key, users[id].salt.value))
  }

  /** `loginUser`: `{ username: user.email, sub: user._id }`; with no user the access throws and no token is made. */
  function LoginPayload(user: Option<Profile>): (r: Option<TokenPayload>)
    ensures r.Some? <==> user.Some?
    ensures r.Some? ==> r.value.sub == user.value.id && r.value.username == user.value.fields.email
  {
    match user
    case Some(p) => Some(TokenPayload(p.fields.email, p.id))
    case None => None
  }

  /** `signToken` (social login): `{ username: user.username, sub: user._id }`. */
  function SignTokenPayload(user: Profile): (r: TokenPayload)
    ensures r.sub == user.id && r.username == Some(user.fields.username)
  {
    TokenPayload(Some(user.fields.username), user.id)
  }

  // ---------------------------------------------------------------------------
  // The documents and tables the mutating operations produce

  /** The document `createUser` builds: hashed password, its salt, the referral code, schema defaults. */
  function RegisteredDocument(dto: CreateUserDto, salt: string, r: nat, hash: Hasher): (a: Account)
    requires r < 1000000
    ensures a.username == dto.username && a.email == dto.email
    ensures a.password == Some(hash(dto.password, salt)) && a.salt == Some(salt)
    ensures a.referralCode == ReferralCode(r, dto.username)
    ensures WellFormed(a) <==> dto.username != ""
  {
    NewDocument(dto.username, Some(hash(dto.password, salt)), dto.email, Some(salt),
                dto.passwordResetKey, dto.image, ReferralCode(r, dto.username))
  }

  function CounterOf(a: Account, c: Counter): string {
    match c
    case Deposits => a.deposits
    case Withdrawals => a.withdrawals
    case Referrals => a.referrals
  }

  function WithCounter(a: Account, c: Counter, s: string): Account {
    match c
    case Deposits => a.(deposits := s)
    case Withdrawals => a.(withdrawals := s)
    case Referrals => a.(referrals := s)
  }

  /** `Number(user.<counter>)`. */
  function CounterValue(a: Account, c: Counter): nat
    requires WellFormed(a)
  {
    ParseNat(CounterOf(a, c)).value
  }

  /** `Number(user.balance)`. */
  function BalanceValue(a: Account): int
    requires WellFormed(a)
  {
    ParseInt(a.balance).value
  }

  /**
   * A document after `user.<counter> = (Number(user.<counter>) + 1).toString()`: the
   * counter reads one more than before, and nothing else differs.
   */
  function Bumped(a: Account, c: Counter): (b: Account)
    requires WellFormed(a)
    ensures WellFormed(b)
    ensures CounterValue(b, c) == CounterValue(a, c) + 1
    ensures WithCounter(b, c, CounterOf(a, c)) == a
    ensures b.username == a.username && b.email == a.email
  {
    var s := NatToString(CounterValue(a, c) + 1);
    NatRoundTrip(CounterValue(a, c) + 1);
    assert ParseNat(s) == Some(CounterValue(a, c) + 1);
    match c
    case Deposits => a.(deposits := s)
    case Withdrawals => a.(withdrawals := s)
    case Referrals => a.(referrals := s)
  }

  /** The table after `increaseNumberOf<Counter>(id)` on a present id. */
  function Increased(users: map<Id, Account>, id: Id, c: Counter): (r: map<Id, Account>)
    requires id in users && WellFormed(users[id])
    ensures r.Keys == users.Keys && WellFormed(r[id])
    ensures CounterValue(r[id], c) == CounterValue(users[id], c) + 1
    ensures forall o :: o in users && o != id ==> r[o] == users[o]
  {
    users[id := Bumped(users[id], c)]
  }

  /** The table after `updateUserBalance(id, amount)` on a present id. */
  function BalanceAdded(users: map<Id, Account>, id: Id, amount: int): (r: map<Id, Account>)
    requires id in users && WellFormed(users[id])
    ensures id in r && WellFormed(r[id])
  {
    IntRoundTrip(BalanceValue(users[id]) + amount);
    users[id := users[id].(balance := IntToString(BalanceValue(users[id]) + amount))]
  }

  /** `updateUserProfile`'s in-memory edit: the username is replaced only by a non-empty one. */
  function Patched(a: Account, username: string): (p: Account)
    ensures p.username == (if username == "" then a.username else username)
    ensures p.(username := a.username) == a
  {
    if username != "" then a.(username := username) else a
  }

  /** Another document than `id` already holds `username`. */
  predicate HeldByOther(users: map<Id, Account>, id: Id, username: string) {
    exists o :: o in users && o != id && users[o].username == username
  }

  /**
   * The table after `updateUserProfile(id, patch)` on a present id: the save goes
   * through unless the unique index on username refuses it.
   */
  function ProfilePatched(users: map<Id, Account>, id: Id, username: string): (r: map<Id, Account>)
    requires id in users
    ensures r.Keys == users.Keys
    ensures forall o :: o in users && o != id ==> r[o] == users[o]
    ensures r[id] == users[id] || (username != "" && r[id] == users[id].(username := username))
  {
    if username == "" || HeldByOther(users, id, username) then users
    else users[id := Patched(users[id], username)]
  }

  /**
   * The table after `resetPassword(email, null)` with the key `key`: the reset key of the
   * document holding the email becomes `hash(key, salt)`. A document without a salt makes
   * bcrypt.hash throw before anything is saved.
   */
  function ResetRequested(users: map<Id, Account>, hash: Hasher, email: string, key: string): (r: map<Id, Account>)
    requires UniqueEmails(users)
    ensures r.Keys == users.Keys
    ensures forall o :: o in users && users[o].email != Some(email) ==> r[o] == users[o]
  {
    match FindByEmail(users, email)
    case None => users
    case Some(id) =>
      match users[id].salt
      case None => users
      case Some(salt) => users[id := users[id].(passwordResetKey := Some(hash(key, salt)))]
  }

  // ---------------------------------------------------------------------------
  // What the operations promise

  /**
   * An increment on a present id moves the named counter from the numeral of n to the
   * numeral of n + 1; every other field, every other counter and every other document
   * stay as they were, and the store stays consistent.
   */
  lemma IncreasedSpec(users: map<Id, Account>, id: Id, c: Counter)
    requires Consistent(users) && id in users
    ensures var after := Increased(users, id, c);
            && after.Keys == users.Keys
            && (forall o :: o in users && o != id ==> after[o] == users[o])
            && WellFormed(after[id])
            && CounterOf(after[id], c) == NatToString(CounterValue(users[id], c) + 1)
            && CounterValue(after[id], c) == CounterValue(users[id], c) + 1
            && WithCounter(after[id], c, CounterOf(users[id], c)) == users[id]
            && Consistent(after)
  {
    NatRoundTrip(CounterValue(users[id], c) + 1);
    SaveKeepsConsistent(users, id, Increased(users, id, c)[id]);
  }

  /** Saving the document with the counter's numeral rewritten is the increment, and keeps the store consistent. */
  lemma IncrementSaved(users: map<Id, Account>, id: Id, c: Counter, user: Account)
    requires Consistent(users) && id in users
    requires user == WithCounter(users[id], c, NatToString(CounterValue(users[id], c) + 1))
    ensures users[id := user] == Increased(users, id, c)
    ensures Consistent(users[id := user])
  {
    IncreasedSpec(users, id, c);
    assert user == Bumped(users[id], c);
  }

  /** The table after `k` increments of the same counter on the same present id. */
  function IncreasedTimes(users: map<Id, Account>, id: Id, c: Counter, k: nat): (r: map<Id, Account>)
    requires id in users && WellFormed(users[id])
    ensures id in r && WellFormed(r[id])
    decreases k
  {
    if k == 0 then users else IncreasedTimes(Increased(users, id, c), id, c, k - 1)
  }

  /** A document after `k` increments of the same counter. */
  function BumpedTimes(a: Account, c: Counter, k: nat): (b: Account)
    requires WellFormed(a)
    ensures WellFormed(b)
    decreases k
  {
    if k == 0 then a else BumpedTimes(Bumped(a, c), c, k - 1)
  }

  /** `k` increments of a document add `k` to the counter and change no other field. */
  lemma {:induction false} BumpedTimesAddsK(a: Account, c: Counter, k: nat)
    requires WellFormed(a)
    ensures CounterValue(BumpedTimes(a, c, k), c) == CounterValue(a, c) + k
    ensures WithCounter(BumpedTimes(a, c, k), c, CounterOf(a, c)) == a
    decreases k
  {
    if k > 0 {
      var m := Bumped(a, c);
      BumpedTimesAddsK(m, c, k - 1);
      WithCounterTwice(BumpedTimes(m, c, k - 1), c, CounterOf(m, c), CounterOf(a, c));
    }
  }

  /** `k` increments of the table touch only the document `id`. */
  lemma {:induction false} IncreasedTimesBumps(users: map<Id, Account>, id: Id, c: Counter, k: nat)
    requires id in users && WellFormed(users[id])
    ensures IncreasedTimes(users, id, c, k) == users[id := BumpedTimes(users[id], c, k)]
    decreases k
  {
    if k > 0 {
      var mid := Increased(users, id, c);
      IncreasedTimesBumps(mid, id, c, k - 1);
      OverwriteIncreased(users, id, c, BumpedTimes(users[id], c, k));
    }
  }

  /** Overwriting the incremented document forgets the increment. */
  lemma OverwriteIncreased(users: map<Id, Account>, id: Id, c: Counter, z: Account)
    requires id in users && WellFormed(users[id])
    ensures Increased(users, id, c)[id := z] == users[id := z]
  {
  }

  /** `k` increments add exactly `k` to the counter and change nothing else. */
  lemma IncreasedTimesAddsK(users: map<Id, Account>, id: Id, c: Counter, k: nat)
    requires id in users && WellFormed(users[id])
    ensures var after := IncreasedTimes(users, id, c, k);
            && after == users[id := after[id]]
            && CounterValue(after[id], c) == CounterValue(users[id], c) + k
            && WithCounter(after[id], c, CounterOf(users[id], c)) == users[id]
  {
    IncreasedTimesBumps(users, id, c, k);
    BumpedTimesAddsK(users[id], c, k);
  }

  /** Setting a counter twice is setting it once to the second value. */
  lemma WithCounterTwice(a: Account, c: Counter, s: string, t: string)
    ensures WithCounter(WithCounter(a, c, s), c, t) == WithCounter(a, c, t)
  {
  }

  /**
   * A balance update on a present id sets the balance to the numeral of old balance +
   * amount, keeps every other field and document, and keeps the store consistent.
   */
  lemma BalanceAddedSpec(users: map<Id, Account>, id: Id, amount: int)
    requires Consistent(users) && id in users
    ensures var after := BalanceAdded(users, id, amount);
            && after.Keys == users.Keys
            && (forall o :: o in users && o != id ==> after[o] == users[o])
            && WellFormed(after[id])
            && BalanceValue(after[id]) == BalanceValue(users[id]) + amount
            && after[id].(balance := users[id].balance) == users[id]
            && Consistent(after)
  {
    IntRoundTrip(BalanceValue(users[id]) + amount);
    SaveKeepsConsistent(users, id, BalanceAdded(users, id, amount)[id]);
  }

  /** Two balance updates on one id leave the same table as one update by their sum. */
  lemma BalanceAddsUp(users: map<Id, Account>, id: Id, a: int, b: int)
    requires Consistent(users) && id in users
    ensures BalanceAdded(BalanceAdded(users, id, a), id, b) == BalanceAdded(users, id, a + b)
  {
    BalanceAddedSpec(users, id, a);
  }

  /**
   * A profile update changes at most the username of the document `id`; it does so
   * exactly when the new username is non-empty and no other document holds it, so the
   * usernames stay unique.
   */
  lemma ProfilePatchedSpec(users: map<Id, Account>, id: Id, username: string)
    requires Consistent(users) && id in users
    ensures var after := ProfilePatched(users, id, username);
            && after.Keys == users.Keys
            && (forall o :: o in users && o != id ==> after[o] == users[o])
            && after[id].(username := users[id].username) == users[id]
            && (after[id].username == username <==>
                  (username != "" && !HeldByOther(users, id, username)) || users[id].username == username)
            && Consistent(after)
  {
    if username != "" && !HeldByOther(users, id, username) {
      RenameKeepsConsistent(users, id, Patched(users[id], username));
    }
  }

  /**
   * A reset request changes at most the reset key of the document holding the email;
   * the store stays consistent.
   */
  lemma ResetRequestedSpec(users: map<Id, Account>, hash: Hasher, email: string, key: string)
    requires Consistent(users)
    ensures var after := ResetRequested(users, hash, email, key);
            && after.Keys == users.Keys
            && (forall o :: o in users && users[o].email != Some(email) ==> after[o] == users[o])
            && (forall o :: o in users ==> after[o].(passwordResetKey := users[o].passwordResetKey) == users[o])
            && Consistent(after)
    ensures forall id :: id in users && users[id].email == Some(email) && users[id].salt.Some? ==>
              ResetRequested(users, hash, email, key)[id].passwordResetKey == Some(hash(key, users[id].salt.value))
    ensures (forall id :: id in users && users[id].email == Some(email) ==> users[id].salt.None?) ==>
              ResetRequested(users, hash, email, key) == users
  {
    var found := FindByEmail(users, email);
    if found.Some? && users[found.value].salt.Some? {
      SaveKeepsConsistent(users, found.value, ResetRequested(users, hash, email, key)[found.value]);
    }
  }

  /** After a reset request for a document with a salt, the emailed key passes the intended check. */
  lemma ResetThenKeyIssued(users: map<Id, Account>, hash: Hasher, email: string, key: string, id: Id)
    requires Consistent(users)
    requires id in users && users[id].email == Some(email) && users[id].salt.Some?
    ensures ResetKeyIssued(ResetRequested(users, hash, email, key), hash, key)
  {
    var after := ResetRequested(users, hash, email, key);
    assert FindByEmail(users, email) == Some(id);
    assert after[id].passwordResetKey == Some(hash(key, after[id].salt.value));
  }

  /**
   * A second reset request supersedes the first: under the intended check the newer key
   * passes and the older one no longer does, provided the two keys hash differently and
   * no other document's reset key is the older key's hash under that document's salt.
   */
  lemma SecondResetSupersedesFirst(users: map<Id, Account>, hash: Hasher, email: string,
                                   older: string, newer: string, id: Id)
    requires Consistent(users)
    requires id in users && users[id].email == Some(email) && users[id].salt.Some?
    requires hash(older, users[id].salt.value) != hash(newer, users[id].salt.value)
    requires forall o :: o in users && o != id && users[o].salt.Some? ==>
               users[o].passwordResetKey != Some(hash(older, users[o].salt.value))
    ensures var after := ResetRequested(ResetRequested(users, hash, email, older), hash, email, newer);
            ResetKeyIssued(after, hash, newer) && !ResetKeyIssued(after, hash, older)
  {
    var mid := ResetRequested(users, hash, email, older);
    ResetRequestedSpec(users, hash, email, older);
    assert FindByEmail(users, email) == Some(id);
    assert mid[id].email == Some(email);
    assert FindByEmail(mid, email) == Some(id);
    ResetThenKeyIssued(mid, hash, email, newer, id);
    var after := ResetRequested(mid, hash, email, newer);
    ResetRequestedSpec(mid, hash, email, newer);
    var salt := users[id].salt.value;
    assert after[id].passwordResetKey == Some(hash(newer, salt));
    forall o | o in after && after[o].salt.Some?
      ensures after[o].passwordResetKey != Some(hash(older, after[o].salt.value))
    {
      if o != id {
        assert after[o] == users[o];
      }
    }
  }

  /**
   * As written, `verifyResetKey` compares the emailed key with the stored hash of it.
   * A bcrypt hash is 60 characters long and the key at most 6, so once no document held
   * the key verbatim before, the key just sent is never accepted.
   */
  lemma EmailedKeyRejected(users: map<Id, Account>, hash: Hasher, email: string, r: nat)
    requires Consistent(users) && r < 1000000
    requires forall o :: o in users ==> users[o].passwordResetKey != Some(RandomNumber(r))
    requires forall data, salt :: |hash(data, salt)| == 60
    ensures !VerifyResetKey(ResetRequested(users, hash, email, RandomNumber(r)), RandomNumber(r))
  {
    var key := RandomNumber(r);
    var after := ResetRequested(users, hash, email, key);
    forall o | o in after
      ensures after[o].passwordResetKey != Some(key)
    {
      if after[o] != users[o] {
        assert after[o].passwordResetKey == Some(hash(key, users[o].salt.value));
      }
    }
  }

  /**
   * Register, then log in with the same email and password: provided bcrypt.compare
   * accepts the password against its own hash, `validateUser` finds the new document
   * and `loginUser` signs `{ username: email, sub: new _id }`.
   */
  lemma RegisterThenLogin(users: map<Id, Account>, hash: Hasher, compare: Comparer,
                          dto: CreateUserDto, salt: string, r: nat, id: Id)
    requires Consistent(users) && id !in users && r < 1000000
    requires InsertCheck(users, RegisteredDocument(dto, salt, r, hash)) == None
    requires dto.email.Some?
    requires compare(dto.password, hash(dto.password, salt))
    ensures var after := users[id := RegisteredDocument(dto, salt, r, hash)];
            && Consistent(after)
            && ValidateUser(after, compare, dto.email.value, dto.password)
               == Some(Profile(id, Sanitized(RegisteredDocument(dto, salt, r, hash))))
            && LoginPayload(ValidateUser(after, compare, dto.email.value, dto.password))
               == Some(TokenPayload(dto.email, id))
  {
    var doc := RegisteredDocument(dto, salt, r, hash);
    var after := users[id := doc];
    InsertKeepsConsistent(users, id, doc);
    var found := FindByEmail(after, dto.email.value);
    assert after[id].email == Some(dto.email.value);
    assert found.Some?;
    assert found.value == id;
  }

  /** A deleted id has no profile afterwards; every other profile is as before. */
  lemma DeletedHasNoProfile(users: map<Id, Account>, id: Id)
    ensures GetUserProfile(users - {id}, id) == None
    ensures forall o :: o != id ==> GetUserProfile(users - {id}, o) == GetUserProfile(users, o)
  {
  }

  // ---------------------------------------------------------------------------
  // The service: the table of documents and the operations that change it

  class UserService {
    /** The collection, by `_id`. */
    var users: map<Id, Account>
    /** The next `_id` the store hands out. */
    var nextId: Id
    const hash: Hasher
    const compare: Comparer

    ghost predicate Valid()
      reads this
    {
      && (forall id :: id in users ==> id < nextId)
      && Consistent(users)
    }

    constructor (hash: Hasher, compare: Comparer)
      ensures Valid() && users == map[] && this.hash == hash && this.compare == compare
    {
      users := map[];
      nextId := 0;
      this.hash := hash;
      this.compare := compare;
    }

    /**
     * `createUser`: refuses a username already in use, otherwise builds the document
     * (hashed password, salt, referral code, defaults) and inserts it, unless the store
     * refuses it (empty username, duplicate email).
     */
    method CreateUser(dto: CreateUserDto, salt: string, r: nat) returns (res: CreateResult)
      requires Valid() && r < 1000000
      modifies this
      ensures Valid()
      ensures UsernameHeld(old(users), dto.username) ==> res == UsernameTaken
      ensures res.UsernameTaken? ==> UsernameHeld(old(users), dto.username)
      ensures res.StoreRejected? ==>
        !UsernameHeld(old(users), dto.username)
        && InsertCheck(old(users), RegisteredDocument(dto, salt, r, hash)) == Some(res.error)
      ensures res.Created? <==>
        !UsernameHeld(old(users), dto.username)
        && InsertCheck(old(users), RegisteredDocument(dto, salt, r, hash)) == None
      ensures !res.Created? ==> users == old(users) && nextId == old(nextId)
      ensures res.Created? ==>
        && res.id == old(nextId) && res.id !in old(users) && nextId == old(nextId) + 1
        && users == old(users)[res.id := RegisteredDocument(dto, salt, r, hash)]
    {
      if UsernameHeld(users, dto.username) {
        return UsernameTaken;
      }
      var doc := RegisteredDocument(dto, salt, r, hash);
      var refused := InsertCheck(users, doc);
      if refused.Some? {
        return StoreRejected(refused.value);
      }
      InsertKeepsConsistent(users, nextId, doc);
      res := Created(nextId);
      users := users[nextId := doc];
      nextId := nextId + 1;
    }

    /** `registerUser`: creates the document and, when one was created, signs `{ username, sub: _id }`. */
    method RegisterUser(dto: CreateUserDto, salt: string, r: nat) returns (payload: Option<TokenPayload>)
      requires Valid() && r < 1000000
      modifies this
      ensures Valid()
      ensures UsernameHeld(old(users), dto.username) ==> payload == None && users == old(users)
      ensures payload.None? ==> users == old(users)
      ensures nextId == old(nextId) + (if payload.Some? then 1 else 0)
      ensures payload.Some? <==>
        !UsernameHeld(old(users), dto.username)
        && InsertCheck(old(users), RegisteredDocument(dto, salt, r, hash)) == None
      ensures payload.Some? ==>
        && payload.value == TokenPayload(Some(dto.username), old(nextId))
        && users == old(users)[old(nextId) := RegisteredDocument(dto, salt, r, hash)]
    {
      var created := CreateUser(dto, salt, r);
      if created.Created? {
        payload := Some(SignTokenPayload(Profile(created.id, users[created.id])));
      } else {
        payload := None;
      }
    }

    /** `updateUserBalance`: adds `amount` to the balance of a present id. */
    method UpdateUserBalance(id: Id, amount: int) returns (res: BalanceResult)
      requires Valid()
      modifies this
      ensures Valid() && nextId == old(nextId)
      ensures res == UserNotFound <==> id !in old(users)
      ensures id !in old(users) ==> users == old(users)
      ensures id in old(users) ==> users == BalanceAdded(old(users), id, amount)
    {
      if id !in users {
        return UserNotFound;
      }
      BalanceAddedSpec(users, id, amount);
      var user := users[id];
      var balance := BalanceValue(user);
      user := user.(balance := IntToString(balance + amount));
      assert users[id := user] == BalanceAdded(users, id, amount);
      users := users[id := user];
      res := BalanceUpdated;
    }

    /** The shared body of the three `increaseNumberOf...` operations. */
    method IncreaseCounter(id: Id, c: Counter) returns (ok: bool)
      requires Valid()
      modifies this
      ensures Valid() && nextId == old(nextId)
      ensures ok <==> id in old(users)
      ensures !ok ==> users == old(users)
      ensures ok ==> users == Increased(old(users), id, c)
    {
      if id !in users {
        return false;
      }
      var user := users[id];
      var n := CounterValue(user, c);
      user := WithCounter(user, c, NatToString(n + 1));
      IncrementSaved(users, id, c, user);
      users := users[id := user];
      ok := true;
    }

    /** `increaseNumberOfDeposits`. */
    method IncreaseNumberOfDeposits(id: Id) returns (ok: bool)
      requires Valid()
      modifies this
      ensures Valid() && nextId == old(nextId)
      ensures ok <==> id in old(users)
      ensures !ok ==> users == old(users)
      ensures ok ==> users == Increased(old(users), id, Deposits)
    {
      ok := IncreaseCounter(id, Deposits);
    }

    /** `increaseNumberOfRefferals`. */
    method IncreaseNumberOfReferrals(id: Id) returns (ok: bool)
      requires Valid()
      modifies this
      ensures Valid() && nextId == old(nextId)
      ensures ok <==> id in old(users)
      ensures !ok ==> users == old(users)
      ensures ok ==> users == Increased(old(users), id, Referrals)
    {
      ok := IncreaseCounter(id, Referrals);
    }

    /** `increaseNumberOfWithdrawals`. */
    method IncreaseNumberOfWithdrawals(id: Id) returns (ok: bool)
      requires Valid()
      modifies this
      ensures Valid() && nextId == old(nextId)
      ensures ok <==> id in old(users)
      ensures !ok ==> users == old(users)
      ensures ok ==> users == Increased(old(users), id, Withdrawals)
    {
      ok := IncreaseCounter(id, Withdrawals);
    }

    /** `deleteUserData`: removes the document; true exactly when there was one. */
    method DeleteUserData(id: Id) returns (found: bool)
      requires Valid()
      modifies this
      ensures Valid() && nextId == old(nextId)
      ensures found <==> id in old(users)
      ensures users == old(users) - {id}
    {
      found := id in users;
      users := users - {id};
    }

    /**
     * `updateUserProfile` (and `updateProfile`, which passes it through): on a present id,
     * replaces the username by a non-empty one and returns the edited copy with password
     * and salt blanked, whether or not the store accepted the save.
     */
    method UpdateUserProfile(id: Id, patch: CreateUserDto) returns (res: UpdateResult)
      requires Valid()
      modifies this
      ensures Valid() && nextId == old(nextId)
      ensures id !in old(users) ==> res == NoUserMatchingId && users == old(users)
      ensures id in old(users) ==>
        && users == ProfilePatched(old(users), id, patch.username)
        && res == ProfileUpdated(Profile(id, PasswordHidden(Patched(old(users)[id], patch.username))))
    {
      if id !in users {
        return NoUserMatchingId;
      }
      ProfilePatchedSpec(users, id, patch.username);
      var user := users[id];
      if patch.username != "" {
        user := user.(username := patch.username);
      }
      if patch.username != "" && !HeldByOther(users, id, patch.username) {
        users := users[id := user];
      }
      res := ProfileUpdated(Profile(id, PasswordHidden(user)));
    }

    /**
     * `resetPassword(email, password)`: does nothing and answers `undefined` unless
     * `password` is `null`; then stores the hashed key `r` on the document holding the
     * email and answers the result of `sendEmail`, which is always false.
     */
    method ResetPassword(email: string, password: PasswordArg, r: nat) returns (res: Option<bool>)
      requires Valid() && r < 1000000
      modifies this
      ensures Valid() && nextId == old(nextId)
      ensures password != NullPassword ==> res == None && users == old(users)
      ensures password == NullPassword ==>
        res == Some(false) && users == ResetRequested(old(users), hash, email, RandomNumber(r))
    {
      if password != NullPassword {
        return None;
      }
      ResetRequestedSpec(users, hash, email, RandomNumber(r));
      var found := FindByEmail(users, email);
      if found.None? {
        return Some(false);
      }
      var id := found.value;
      var user := users[id];
      if user.salt.None? {
        return Some(false);
      }
      var key := RandomNumber(r);
      user := user.(passwordResetKey := Some(hash(key, user.salt.value)));
      users := users[id := user];
      res := Some(false);
    }
  }
}
