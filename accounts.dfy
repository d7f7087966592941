/** The account record the user controller reads and writes, the projection
    it returns to clients, and the collaborators it calls through the record:
    password hashing and token signing. */
module Accounts {
  import opened Wrappers
  import opened JsText
  import opened Otp

  /** The roles registration accepts, after lower-casing. */
  const ROLES: seq<string> := ["admin", "manager", "user"]
  /** The only role allowed to delete accounts. */
  const ADMIN: string := "admin"

  /** A password digest. Hashing is modelled as an ideal one-way function: a
      digest is determined by, and determines, the plain text behind it; the
      model never reads the plain text back out of a digest. */
  datatype Digest = Digest(preimage: string)

  function Hash(plain: string): Digest {
    Digest(plain)
  }

  /** Signed tokens. The signing key and the lifetimes are process-wide
      configuration, and signing is deterministic; a token is identified by
      its class, the account it names and its `iat` claim, the issue instant
      in whole seconds. */
  datatype TokenKind = Access | Refresh
  datatype Token = Token(kind: TokenKind, subject: nat, issuedAt: nat)
  datatype TokenPair = TokenPair(accessToken: Token, refreshToken: Token)

  /** `Math.floor(Date.now() / 1000)`: the `iat` claim of a token signed at
      `now` milliseconds. */
  function IssuedAt(now: nat): nat {
    now / 1000
  }

  /** `user.generateAccessToken()` and `user.generateRefreshToken()` at `now`
      milliseconds. */
  function AccessTokenFor(id: nat, now: nat): Token {
    Token(Access, id, IssuedAt(now))
  }

  function RefreshTokenFor(id: nat, now: nat): Token {
    Token(Refresh, id, IssuedAt(now))
  }

  /** One stored account document. */
  datatype Account = Account(
    id: nat,
    userName: string,
    email: string,
    role: string,
    password: Digest,
    refreshToken: Option<Token>,
    otpCode: Option<string>,
    otpExpiry: Option<int>)

  /** An account as returned by `select("-password -refreshToken")`: every
      field except the password digest and the refresh token. */
  datatype View = View(
    id: nat,
    userName: string,
    email: string,
    role: string,
    otpCode: Option<string>,
    otpExpiry: Option<int>)

  function ViewOf(a: Account): View {
    View(a.id, a.userName, a.email, a.role, a.otpCode, a.otpExpiry)
  }

  /** `user.isPasswordCorrect(plain)` */
  predicate PasswordMatches(a: Account, plain: string) {
    a.password == Hash(plain)
  }

  /** The invariant every stored account keeps: an accepted role, a password
      that is not blank, a refresh token (at most one) that is a refresh-class
      token naming this account, and an OTP code and expiry that are present
      together, the code well-formed and the expiry a positive instant. */
  ghost predicate WellFormed(a: Account) {
    && a.role in ROLES
    && !AllSpace(a.password.preimage)
    && (a.refreshToken.Some? ==> a.refreshToken.value.kind == Refresh && a.refreshToken.value.subject == a.id)
    && (a.otpCode.Some? <==> a.otpExpiry.Some?)
    && (a.otpCode.Some? ==> IsOtpCode(a.otpCode.value))
    && (a.otpExpiry.Some? ==> a.otpExpiry.value >= OTP_VALIDITY_MS)
  }

  /** The invariant of the whole collection: distinct ids, all drawn below
      `nextId`, and well-formed accounts. */
  ghost predicate ValidTable(s: seq<Account>, nextId: nat) {
    && (forall i, j | 0 <= i < j < |s| :: s[i].id != s[j].id)
    && (forall i | 0 <= i < |s| :: s[i].id < nextId && WellFormed(s[i]))
  }

  /** Replacing one account by a well-formed account with the same id keeps
      the collection valid. */
  lemma UpdateKeepsValid(s: seq<Account>, nextId: nat, k: nat, a: Account)
    requires ValidTable(s, nextId) && k < |s| && a.id == s[k].id && WellFormed(a)
    ensures ValidTable(s[k := a], nextId)
  {
  }

  /** Appending a well-formed account whose id is `nextId` keeps the
      collection valid once `nextId` moves past it. */
  lemma AppendKeepsValid(s: seq<Account>, nextId: nat, a: Account)
    requires ValidTable(s, nextId) && a.id == nextId && WellFormed(a)
    ensures ValidTable(s + [a], nextId + 1)
  {
  }

  /** Removing one account keeps the collection valid. */
  lemma RemoveKeepsValid(s: seq<Account>, nextId: nat, k: nat)
    requires ValidTable(s, nextId) && k < |s|
    ensures ValidTable(s[..k] + s[k + 1..], nextId)
  {
    var t := s[..k] + s[k + 1..];
    assert forall i | 0 <= i < |t| :: t[i] == s[if i < k then i else i + 1];
  }

  /** `findOne(filter)` on a collection in natural order: the position of the
      first account that satisfies `p`, or `None` when none does. */
  function FindFirst(s: seq<Account>, p: Account -> bool): (r: Option<nat>)
    ensures r.Some? ==> r.value < |s| && p(s[r.value]) && forall j | 0 <= j < r.value :: !p(s[j])
    ensures r.None? ==> forall j | 0 <= j < |s| :: !p(s[j])
  {
    if s == [] then None
    else if p(s[0]) then Some(0)
    else match FindFirst(s[1..], p)
      case None => None
      case Some(k) => Some(k + 1)
  }

  /** Changing fields of one account that the filter does not look at leaves
      the result of `findOne` unchanged. */
  lemma FindFirstAfterUpdate(s: seq<Account>, p: Account -> bool, k: nat, a: Account)
    requires k < |s| && p(a) == p(s[k])
    ensures FindFirst(s[k := a], p) == FindFirst(s, p)
  {
    var t := s[k := a];
    assert forall j | 0 <= j < |s| :: p(t[j]) == p(s[j]);
    var r, r' := FindFirst(s, p), FindFirst(t, p);
    if r.Some? && r'.Some? {
      assert !(r.value < r'.value) && !(r'.value < r.value);
    }
  }

  /** The filter `{ email }` */
  function WithEmail(email: string): Account -> bool {
    (a: Account) => a.email == email
  }

  /** The filter `{ _id: id }` */
  function WithId(id: nat): Account -> bool {
    (a: Account) => a.id == id
  }

  /** The filter `{ $or: [{ userName }, { email }] }` */
  function WithNameOrEmail(userName: string, email: string): Account -> bool {
    (a: Account) => a.userName == userName || a.email == email
  }
}
