/** Request sequences against an account collection, with what their
    responses must be. They follow the handlers' contracts only. */
module Scenarios {
  import opened Wrappers
  import opened JsText
  import opened Otp
  import opened Pagination
  import opened Accounts
  import opened UserController

  /** The account stored by registering `alice`, role `user`, `a@x.com`,
      password `Password1` into an empty collection. */
  function Alice(): Account {
    Account(0, "alice", "a@x.com", "user", Hash("Password1"), None, None, None)
  }

  /** Lower-casing a string with no upper-case letter leaves it unchanged. */
  lemma LowerLiteral(s: string)
    requires forall i | 0 <= i < |s| :: !IsUpper(s[i])
    ensures ToLower(s) == s
  {
    ToLowerFixedPoints(s);
  }

  /** A string whose first character is not white space is not blank. */
  lemma NotBlank(s: string)
    requires s != [] && !IsSpace(s[0])
    ensures !Blank(Some(s))
  {
  }

  /** The inputs registering `Alice()`: present, not blank, already
      lower-case, and `user` is a known role. */
  lemma AliceInputs()
    ensures !Blank(Some("alice")) && !Blank(Some("user")) && !Blank(Some("a@x.com")) && !Blank(Some("Password1"))
    ensures ToLower("alice") == "alice" && ToLower("a@x.com") == "a@x.com" && ToLower("user") == "user"
    ensures "user" in ROLES
  {
    NotBlank("alice");
    NotBlank("user");
    NotBlank("a@x.com");
    NotBlank("Password1");
    LowerLiteral("alice");
    LowerLiteral("a@x.com");
    LowerLiteral("user");
    assert ROLES[2] == "user";
  }

  /** Registration into a fresh collection succeeds with 201 and stores the
      input lower-cased, with no refresh token and no pending code. */
  method RegisterAlice() returns (store: AccountStore, status: Status, view: Option<View>)
    ensures fresh(store) && store.Valid()
    ensures status == Created && store.accounts == [Alice()] && store.nextId == 1 && view == Some(ViewOf(Alice()))
  {
    store := new AccountStore();
    AliceInputs();
    status, view := store.RegisterUser(Some("alice"), Some("user"), Some("a@x.com"), Some("Password1"), true);
  }

  /** A login stores the refresh token it returns; logging out clears it, and
      logging out again succeeds as well. */
  method LoginThenLogoutTwice(store: AccountStore)
    returns (loggedIn: Status, session: Option<Session>, firstLogout: Status, secondLogout: Status)
    requires store.Valid() && store.accounts == [Alice()]
    modifies store
    ensures loggedIn == Ok && session.Some? && session.value.tokens.refreshToken == RefreshTokenFor(0, 1000)
    ensures firstLogout == Ok && secondLogout == Ok
    ensures store.accounts == [Alice()]
  {
    loggedIn, session := store.LoginUser(Some("a@x.com"), Some("Password1"), 1000);
    assert store.accounts == [Alice().(refreshToken := Some(RefreshTokenFor(0, 1000)))];
    firstLogout := store.LogoutUser(Some(0));
    assert store.accounts == [Alice()];
    secondLogout := store.LogoutUser(Some(0));
  }

  /** After login: a wrong old password is a 400 (not a 401), and so is a
      new password shorter than eight characters; neither changes anything. */
  method PasswordChangeRejections(store: AccountStore) returns (wrongOld: Status, tooShort: Status)
    requires store.Valid() && store.accounts == [Alice()]
    modifies store
    ensures wrongOld == BadRequest && tooShort == BadRequest
    ensures store.accounts == [Alice()]
  {
    assert "Wrong1234"[0] == 'W' && "NewPassword2"[0] == 'N' && "short"[0] == 's' && "a@x.com"[0] == 'a';
    wrongOld := store.ChangePasswordAfterLogin(Some("a@x.com"), Some("Wrong1234"), Some("NewPassword2"));
    tooShort := store.ChangePasswordAfterLogin(Some("a@x.com"), Some("Password1"), Some("short"));
  }

  /** `Alice()` with a pending code drawn from `draw`, requested at `t`. */
  function PendingAlice(draw: nat, t: nat): Account
    requires draw < OTP_RANGE
  {
    Alice().(otpCode := Some(GenerateOtp(draw)), otpExpiry := Some(OtpExpiry(t)))
  }

  /** `Alice()` after her password was reset to `NewPassword2`. */
  function ResetAlice(): Account {
    Alice().(password := Hash("NewPassword2"))
  }

  /** Requesting a reset code at `t` mails the code and stores it with its
      expiry. */
  method RequestReset(store: AccountStore, draw: nat, t: nat) returns (requested: Status, code: Option<string>)
    requires store.Valid() && store.accounts == [Alice()]
    requires draw < OTP_RANGE
    modifies store
    ensures requested == Ok && code == Some(GenerateOtp(draw))
    ensures store.Valid() && store.accounts == [PendingAlice(draw, t)]
  {
    assert "a@x.com"[0] == 'a';
    requested, code := store.ChangeUserPassword(Some("a@x.com"), draw, t, true);
  }

  /** With a code requested at `t`: a wrong code is refused, the right code
      after 61 minutes is refused, and the right code after 59 minutes is
      accepted and clears the pending code. */
  method PasswordResetFlow(store: AccountStore, draw: nat, t: nat)
    returns (wrongCode: Status, late: Status, onTime: Status)
    requires draw < OTP_RANGE
    requires store.Valid() && store.accounts == [PendingAlice(draw, t)]
    modifies store
    ensures wrongCode == BadRequest && late == BadRequest && onTime == Ok
    ensures store.Valid() && store.accounts == [ResetAlice()]
  {
    assert "a@x.com"[0] == 'a' && "000000"[0] == '0' && "NewPassword2"[0] == 'N';
    var code := Some(GenerateOtp(draw));
    assert GenerateOtp(draw) != "000000";
    wrongCode := store.ResetUserPassword(Some("a@x.com"), Some("000000"), Some("NewPassword2"), t);
    late := store.ResetUserPassword(Some("a@x.com"), code, Some("NewPassword2"), t + 61 * 60000);
    assert store.accounts == [PendingAlice(draw, t)];
    onTime := store.ResetUserPassword(Some("a@x.com"), code, Some("NewPassword2"), t + 59 * 60000);
  }

  /** After the reset, the same code is refused, the new password logs in and
      the old one no longer does. */
  method ResetIsFinal(store: AccountStore, draw: nat, t: nat)
    returns (replay: Status, newLogin: Status, oldLogin: Status)
    requires draw < OTP_RANGE
    requires store.Valid() && store.accounts == [ResetAlice()]
    modifies store
    ensures replay == BadRequest && newLogin == Ok && oldLogin == Unauthorized
  {
    assert "a@x.com"[0] == 'a' && "NewPassword2"[0] == 'N' && "Password1"[0] == 'P';
    replay := store.ResetUserPassword(Some("a@x.com"), Some(GenerateOtp(draw)), Some("NewPassword2"), t + 59 * 60000);
    var session;
    oldLogin, session := store.LoginUser(Some("a@x.com"), Some("Password1"), t);
    newLogin, session := store.LoginUser(Some("a@x.com"), Some("NewPassword2"), t);
  }

  /** The upper-case variants of `Alice()`'s inputs: present, not blank,
      lower-casing to the stored name and e-mail, and `admin` is a known
      role. */
  lemma VariantInputs()
    ensures !Blank(Some("ALICE")) && !Blank(Some("admin")) && !Blank(Some("A@X.COM")) && !Blank(Some("Password9"))
    ensures ToLower("ALICE") == "alice" && ToLower("A@X.COM") == "a@x.com" && ToLower("admin") == "admin"
    ensures "admin" in ROLES
  {
    NotBlank("ALICE");
    NotBlank("admin");
    NotBlank("A@X.COM");
    NotBlank("Password9");
    ToLowerPointwise("ALICE");
    assert ToLower("ALICE") == "alice";
    ToLowerPointwise("A@X.COM");
    assert ToLower("A@X.COM") == "a@x.com";
    LowerLiteral("admin");
    assert ROLES[0] == "admin";
  }

  /** The account stored by registering the upper-case variants `ALICE`,
      role `admin`, `A@X.COM`, password `Password9` after `Alice()`. */
  function AliceVariant(): Account {
    Account(1, "alice", "a@x.com", "admin", Hash("Password9"), None, None, None)
  }

  /** The duplicate check compares the raw input with the stored lower-cased
      values, so an upper-case variant of an existing name and e-mail is
      accepted and stored under the same lower-case name and e-mail. */
  method CaseVariantIsNotDuplicate(store: AccountStore) returns (variant: Status)
    requires store.Valid() && store.accounts == [Alice()] && store.nextId == 1
    modifies store
    ensures variant == Created
    ensures store.Valid() && store.accounts == [Alice(), AliceVariant()]
    ensures store.accounts[0].userName == store.accounts[1].userName
    ensures store.accounts[0].email == store.accounts[1].email
  {
    VariantInputs();
    var view;
    variant, view := store.RegisterUser(Some("ALICE"), Some("admin"), Some("A@X.COM"), Some("Password9"), true);
  }

  /** An exact repeat of a registered name and e-mail is refused with 409;
      an admin deleting by the shared e-mail then removes only the first of
      the two accounts that carry it. */
  method RepeatThenDelete(store: AccountStore) returns (repeat: Status, deleted: Status, deletedEmail: Option<string>)
    requires store.Valid() && store.accounts == [Alice(), AliceVariant()]
    modifies store
    ensures repeat == Conflict && deleted == Ok && deletedEmail == Some("a@x.com")
    ensures store.accounts == [AliceVariant()]
  {
    AliceInputs();
    assert store.accounts[0].userName == "alice";
    var view;
    repeat, view := store.RegisterUser(Some("alice"), Some("user"), Some("a@x.com"), Some("Password1"), true);
    assert store.accounts == [Alice(), AliceVariant()];
    deleted, deletedEmail := store.UserDelete(1, Some("a@x.com"));
  }

  /** The listing omits the credentials but not the pending code: any caller
      of the listing learns the code of an account that requested a reset. */
  method ListingRevealsPendingCode(store: AccountStore, draw: nat, t: nat)
    returns (listed: Option<string>)
    requires store.Valid() && store.accounts == [Alice()]
    requires draw < OTP_RANGE
    modifies store
    ensures listed == Some(GenerateOtp(draw))
    ensures store.Valid() && store.accounts == [PendingAlice(draw, t)]
  {
    assert "a@x.com"[0] == 'a';
    var requested, mailed := store.ChangeUserPassword(Some("a@x.com"), draw, t, true);
    assert store.accounts == [PendingAlice(draw, t)];
    var status, listing := store.GetAllUser(None, None);
    assert Window(store.accounts, 0, 10) == [PendingAlice(draw, t)];
    assert listing.value.users[0] == ViewOf(PendingAlice(draw, t));
    listed := listing.value.users[0].otpCode;
  }

  /** The code read from the listing resets the account's password, for a
      caller that never received the mail. */
  method ListedCodeResetsPassword(store: AccountStore, draw: nat, t: nat) returns (takeover: Status)
    requires draw < OTP_RANGE
    requires store.Valid() && store.accounts == [PendingAlice(draw, t)]
    modifies store
    ensures takeover == Ok
    ensures store.accounts == [Alice().(password := Hash("Attacker99"))]
  {
    assert "a@x.com"[0] == 'a' && "Attacker99"[0] == 'A';
    takeover := store.ResetUserPassword(Some("a@x.com"), Some(GenerateOtp(draw)), Some("Attacker99"), t);
  }
}
