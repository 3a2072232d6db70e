/**
 * The stored user document (`User` in src/user/schemas/user.schema.ts): its fields,
 * the defaults the store fills in, and the `required` / `unique` constraints the store
 * enforces when a document is inserted or saved.
 */
module UserSchema {
  import opened Wrappers
  import opened Decimal

  /** The `_id` the store assigns on insert. */
  type Id = nat

  /** Placeholder avatar used when a new document has no `image`. */
  const GravatarPlaceholder: string :=
    "https://www.gravatar.com/avatar/00000000000000000000000000000000?d=mp&f=y"

  /** Roles given to a new document that brings none. */
  const DefaultRoles: seq<string> := ["user"]

  /**
   * One user document. Fields the schema marks as not required and gives no default
   * are `Option`s: `None` means the document lacks the field. The referral code and
   * the four counters come from the registration payload; counters are decimal strings.
   */
  datatype Account = Account(
    socialId: string,
    username: string,
    password: Option<string>,
    displayName: Option<string>,
    firstName: Option<string>,
    fullName: Option<string>,
    lastName: Option<string>,
    email: Option<string>,
    salt: Option<string>,
    passwordResetKey: Option<string>,
    image: string,
    roles: seq<string>,
    isAdmin: bool,
    referralCode: string,   // spelled `refferalCode` in the payload
    balance: string,
    deposits: string,
    withdrawals: string,
    referrals: string)

  /** Why the store refused a write. */
  datatype StoreError =
    | ValidationError   // a `required` field is missing or empty
    | DuplicateKey      // a `unique` index already holds the value

  /**
   * A new document as the store builds it from the fields supplied: every field the
   * caller leaves out gets the schema's default (`socialId` '', `image` the placeholder,
   * `roles` ["user"], `isAdmin` false) and every counter starts at "0".
   */
  function NewDocument(
    username: string, password: Option<string>, email: Option<string>, salt: Option<string>,
    passwordResetKey: Option<string>, image: Option<string>, referralCode: string): (a: Account)
    ensures a.username == username && a.email == email
    ensures a.password == password && a.salt == salt && a.passwordResetKey == passwordResetKey
    ensures a.referralCode == referralCode
    ensures image.None? ==> a.image == GravatarPlaceholder
    ensures image.Some? ==> a.image == image.value
    ensures a.socialId == "" && a.roles == DefaultRoles && !a.isAdmin
    ensures ParseNat(a.deposits) == Some(0) && ParseNat(a.withdrawals) == Some(0)
    ensures ParseNat(a.referrals) == Some(0) && ParseInt(a.balance) == Some(0)
  {
    Account(
      socialId := "",
      username := username,
      password := password,
      displayName := None,
      firstName := None,
      fullName := None,
      lastName := None,
      email := email,
      salt := salt,
      passwordResetKey := passwordResetKey,
      image := match image case Some(url) => url case None => GravatarPlaceholder,
      roles := DefaultRoles,
      isAdmin := false,
      referralCode := referralCode,
      balance := "0",
      deposits := "0",
      withdrawals := "0",
      referrals := "0")
  }

  /** No two documents share a username. */
  ghost predicate UniqueUsernames(users: map<Id, Account>)
    ensures UniqueUsernames(users) ==>
      forall a, b :: a in users && b in users && users[a].username == users[b].username ==> a == b
  {
    forall a, b :: a in users && b in users && a != b ==> users[a].username != users[b].username
  }

  /**
   * No two documents share an email. The index is not sparse, so a document without
   * an email counts as holding the value "missing": at most one document may lack one.
   */
  ghost predicate UniqueEmails(users: map<Id, Account>)
    ensures UniqueEmails(users) ==>
      forall a, b :: a in users && b in users && users[a].email.None? && users[b].email.None? ==> a == b
  {
    forall a, b :: a in users && b in users && a != b ==> users[a].email != users[b].email
  }

  /** The fields the service reads back: a non-empty username and counters `Number` can read. */
  predicate WellFormed(a: Account) {
    && a.username != ""
    && ParseInt(a.balance).Some?
    && ParseNat(a.deposits).Some?
    && ParseNat(a.withdrawals).Some?
    && ParseNat(a.referrals).Some?
  }

  /** The state the store keeps at all times. */
  ghost predicate Consistent(users: map<Id, Account>)
    ensures Consistent(users) ==> forall id :: id in users ==> users[id].username != ""
  {
    && UniqueUsernames(users)
    && UniqueEmails(users)
    && forall id :: id in users ==> WellFormed(users[id])
  }

  predicate UsernameHeld(users: map<Id, Account>, username: string) {
    exists id :: id in users && users[id].username == username
  }

  predicate EmailHeld(users: map<Id, Account>, email: Option<string>) {
    exists id :: id in users && users[id].email == email
  }

  /**
   * What the store says to inserting `a`: the `required` validator runs first, then the
   * unique indexes on username and email.
   */
  function InsertCheck(users: map<Id, Account>, a: Account): (r: Option<StoreError>)
    ensures r == None <==> a.username != "" && !UsernameHeld(users, a.username) && !EmailHeld(users, a.email)
    ensures r == Some(ValidationError) <==> a.username == ""
  {
    if a.username == "" then Some(ValidationError)
    else if UsernameHeld(users, a.username) || EmailHeld(users, a.email) then Some(DuplicateKey)
    else None
  }

  /** Saving a document without touching its username or email keeps the store consistent. */
  lemma SaveKeepsConsistent(users: map<Id, Account>, id: Id, a: Account)
    requires Consistent(users) && id in users && WellFormed(a)
    requires a.username == users[id].username && a.email == users[id].email
    ensures Consistent(users[id := a])
  {
  }

  /** Saving a document under a username no other document holds keeps the store consistent. */
  lemma RenameKeepsConsistent(users: map<Id, Account>, id: Id, a: Account)
    requires Consistent(users) && id in users && WellFormed(a)
    requires a.email == users[id].email
    requires forall o :: o in users && o != id ==> users[o].username != a.username
    ensures Consistent(users[id := a])
  {
  }

  /** An insert the store accepts keeps every document's username and email unique. */
  lemma InsertKeepsConsistent(users: map<Id, Account>, id: Id, a: Account)
    requires Consistent(users) && id !in users
    requires InsertCheck(users, a) == None && WellFormed(a)
    ensures Consistent(users[id := a])
  {
  }
}
