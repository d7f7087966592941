/** The request handlers of the user controller, over an in-memory account
    collection. Each handler takes the request fields it reads, plus the
    outcomes of the collaborators the model does not contain (the e-mail
    validator, the mail transport, the clock and the random draw), and
    returns the response status with the response payload, updating the
    collection as the original does. */
module UserController {
  import opened Wrappers
  import opened JsText
  import opened Otp
  import opened Pagination
  import opened Accounts

  /** The response statuses the handlers produce. */
  datatype Status = Ok | Created | BadRequest | Unauthorized | Forbidden | NotFound | Conflict | InternalError
  {
    function Code(): nat {
      match this
      case Ok => 200
      case Created => 201
      case BadRequest => 400
      case Unauthorized => 401
      case Forbidden => 403
      case NotFound => 404
      case Conflict => 409
      case InternalError => 500
    }
  }

  /** The payload of a successful login: the account without its credentials,
      and the two tokens just issued. */
  datatype Session = Session(user: View, tokens: TokenPair)

  /** The payload of the account listing. */
  datatype Listing = Listing(users: seq<View>, page: int, limit: int, total: nat, totalPages: int)

  /** The account collection. `accounts` is in the collection's natural
      (insertion) order, which `findOne` and `find().skip().limit()` follow;
      `nextId` is the source of fresh document ids. */
  class AccountStore {
    var accounts: seq<Account>
    var nextId: nat

    /** Ids are distinct and were all drawn from `nextId`; every account is
        well-formed. */
    ghost predicate Valid()
      reads this
    {
      ValidTable(accounts, nextId)
    }

    constructor ()
      ensures Valid() && accounts == [] && nextId == 0
    {
      accounts := [];
      nextId := 0;
    }

    /** `generateAccessAndRefereshTokens(userId)`: finds the account by id,
        issues an access and a refresh token for it, and stores the refresh
        token in place of any earlier one. Every failure inside, the
        not-found case included, is re-thrown as a 500. */
    method GenerateAccessAndRefreshTokens(userId: nat, now: nat) returns (status: Status, pair: Option<TokenPair>)
      requires Valid()
      modifies this
      ensures Valid() && nextId == old(nextId)
      ensures pair.Some? <==> status == Ok
      ensures match FindFirst(old(accounts), WithId(userId))
        case None => status == InternalError && accounts == old(accounts)
        case Some(k) =>
          && status == Ok
          && pair == Some(TokenPair(AccessTokenFor(userId, now), RefreshTokenFor(userId, now)))
          && accounts == old(accounts)[k := old(accounts)[k].(refreshToken := Some(RefreshTokenFor(userId, now)))]
    {
      var found := FindFirst(accounts, WithId(userId));
      if found.None? {
        return InternalError, None;
      }
      var k := found.value;
      var accessToken := AccessTokenFor(userId, now);
      var refreshToken := RefreshTokenFor(userId, now);
      accounts := accounts[k := accounts[k].(refreshToken := Some(refreshToken))];
      status, pair := Ok, Some(TokenPair(accessToken, refreshToken));
    }

    /** `registerUser`: 400 when a field is missing or blank, when the
        validator rejects the e-mail address, or when the lower-cased role is
        not an accepted one; 409 when some account has exactly the given
        user name or exactly the given e-mail (the comparison uses the raw
        input, while the record is stored lower-cased); otherwise appends one
        new account and returns it without its credentials. */
    method RegisterUser(userName: Option<string>, role: Option<string>, email: Option<string>,
                        password: Option<string>, emailValid: bool)
      returns (status: Status, created: Option<View>)
      requires Valid()
      modifies this
      ensures Valid()
      ensures created.Some? <==> status == Created
      ensures status != Created ==> accounts == old(accounts) && nextId == old(nextId)
      ensures Blank(userName) || Blank(role) || Blank(email) || Blank(password) ==> status == BadRequest
      ensures !(Blank(userName) || Blank(role) || Blank(email) || Blank(password)) ==>
        status == (
          if !emailValid then BadRequest
          else if ToLower(role.value) !in ROLES then BadRequest
          else if exists j | 0 <= j < |old(accounts)| ::
                    old(accounts)[j].userName == userName.value || old(accounts)[j].email == email.value
          then Conflict
          else Created)
      ensures status == Created ==>
        var user := Account(old(nextId), ToLower(userName.value), ToLower(email.value), ToLower(role.value),
                            Hash(password.value), None, None, None);
        && accounts == old(accounts) + [user]
        && nextId == old(nextId) + 1
        && created == Some(ViewOf(user))
    {
      if Blank(userName) || Blank(role) || Blank(email) || Blank(password) {
        return BadRequest, None;
      }
      if !emailValid {
        return BadRequest, None;
      }
      if ToLower(role.value) !in ROLES {
        return BadRequest, None;
      }
      var existing := FindFirst(accounts, WithNameOrEmail(userName.value, email.value));
      if existing.Some? {
        return Conflict, None;
      }
      var user := Account(nextId, ToLower(userName.value), ToLower(email.value), ToLower(role.value),
                          Hash(password.value), None, None, None);
      AppendKeepsValid(accounts, nextId, user);
      accounts := accounts + [user];
      nextId := nextId + 1;
      status, created := Created, Some(ViewOf(user));
    }

    /** `loginUser`: 400 when the e-mail or the password is falsy, 404 when
        no account has exactly that e-mail, 401 when the password does not
        verify; otherwise issues tokens through
        `GenerateAccessAndRefreshTokens`, which overwrites the stored refresh
        token of that account and nothing else. */
    method LoginUser(email: Option<string>, password: Option<string>, now: nat)
      returns (status: Status, session: Option<Session>)
      requires Valid()
      modifies this
      ensures Valid() && nextId == old(nextId)
      ensures session.Some? <==> status == Ok
      ensures Falsy(email) || Falsy(password) ==> status == BadRequest && accounts == old(accounts)
      ensures !Falsy(email) && !Falsy(password) ==>
        match FindFirst(old(accounts), WithEmail(email.value))
        case None => status == NotFound && accounts == old(accounts)
        case Some(k) =>
          var user := old(accounts)[k];
          if !PasswordMatches(user, password.value) then
            status == Unauthorized && accounts == old(accounts)
          else
            && status == Ok
            && session == Some(Session(ViewOf(user), TokenPair(AccessTokenFor(user.id, now), RefreshTokenFor(user.id, now))))
            && accounts == old(accounts)[k := user.(refreshToken := Some(RefreshTokenFor(user.id, now)))]
    {
      if Falsy(email) || Falsy(password) {
        return BadRequest, None;
      }
      var found := FindFirst(accounts, WithEmail(email.value));
      if found.None? {
        return NotFound, None;
      }
      var user := accounts[found.value];
      if !PasswordMatches(user, password.value) {
        return Unauthorized, None;
      }
      var pair;
      status, pair := GenerateAccessAndRefreshTokens(user.id, now);
      session := if pair.Some? then Some(Session(ViewOf(accounts[found.value]), pair.value)) else None;
    }

    /** `logoutUser`: 401 without an authenticated account id; otherwise
        removes the refresh token of the account with that id, if there is
        one, and succeeds either way. */
    method LogoutUser(requester: Option<nat>) returns (status: Status)
      requires Valid()
      modifies this
      ensures Valid() && nextId == old(nextId)
      ensures requester.None? ==> status == Unauthorized && accounts == old(accounts)
      ensures requester.Some? ==>
        && status == Ok
        && |accounts| == |old(accounts)|
        && forall i | 0 <= i < |accounts| ::
             accounts[i] == if old(accounts)[i].id == requester.value
                            then old(accounts)[i].(refreshToken := None)
                            else old(accounts)[i]
    {
      if requester.None? {
        return Unauthorized;
      }
      var found := FindFirst(accounts, WithId(requester.value));
      if found.Some? {
        var k := found.value;
        accounts := accounts[k := accounts[k].(refreshToken := None)];
      }
      status := Ok;
    }

    /** `changePasswordAfterLogin`. The blank test `field?.trim() === ""`
        only catches present fields, so an absent new password reaches
        `newPassword.length` and fails with a 500; a new password shorter
        than 8 characters is a 400; an absent or unknown e-mail is a 404; an
        absent old password reaches the hasher and fails with a 500; a wrong
        old password is a 400 (not a 401). On success only the password of
        the account found changes. */
    method ChangePasswordAfterLogin(email: Option<string>, oldPassword: Option<string>, newPassword: Option<string>)
      returns (status: Status)
      requires Valid()
      modifies this
      ensures Valid() && nextId == old(nextId)
      ensures status != Ok ==> accounts == old(accounts)
      ensures PresentButBlank(email) || PresentButBlank(oldPassword) || PresentButBlank(newPassword) ==> status == BadRequest
      ensures !(PresentButBlank(email) || PresentButBlank(oldPassword) || PresentButBlank(newPassword)) ==>
        if newPassword.None? then status == InternalError
        else if |newPassword.value| < 8 then status == BadRequest
        else if email.None? then status == NotFound
        else match FindFirst(old(accounts), WithEmail(email.value))
          case None => status == NotFound
          case Some(k) =>
            if oldPassword.None? then status == InternalError
            else if !PasswordMatches(old(accounts)[k], oldPassword.value) then status == BadRequest
            else status == Ok && accounts == old(accounts)[k := old(accounts)[k].(password := Hash(newPassword.value))]
    {
      if PresentButBlank(email) || PresentButBlank(oldPassword) || PresentButBlank(newPassword) {
        return BadRequest;
      }
      if newPassword.None? {
        return InternalError;
      }
      if |newPassword.value| < 8 {
        return BadRequest;
      }
      if email.None? {
        return NotFound;
      }
      var found := FindFirst(accounts, WithEmail(email.value));
      if found.None? {
        return NotFound;
      }
      var k := found.value;
      if oldPassword.None? {
        return InternalError;
      }
      if !PasswordMatches(accounts[k], oldPassword.value) {
        return BadRequest;
      }
      UpdateKeepsValid(accounts, nextId, k, accounts[k].(password := Hash(newPassword.value)));
      accounts := accounts[k := accounts[k].(password := Hash(newPassword.value))];
      status := Ok;
    }

    /** `changeUserPassword`, the OTP request: 400 when the e-mail is falsy,
        404 when no account has exactly that e-mail; otherwise a code is
        generated from `draw` and mailed. When the mail transport fails the
        handler fails with a 500 before anything is stored; when it succeeds
        the code and the expiry `now + 3600000` are stored on the account,
        replacing any pending pair. `mailed` is the code handed to the
        transport. */
    method ChangeUserPassword(email: Option<string>, draw: nat, now: nat, mailDelivered: bool)
      returns (status: Status, mailed: Option<string>)
      requires Valid()
      requires draw < OTP_RANGE
      modifies this
      ensures Valid() && nextId == old(nextId)
      ensures status != Ok ==> accounts == old(accounts)
      ensures Falsy(email) ==> status == BadRequest && mailed.None?
      ensures !Falsy(email) ==>
        match FindFirst(old(accounts), WithEmail(email.value))
        case None => status == NotFound && mailed.None?
        case Some(k) =>
          && mailed == Some(GenerateOtp(draw))
          && status == (if mailDelivered then Ok else InternalError)
          && (mailDelivered ==>
                accounts == old(accounts)[k := old(accounts)[k].(otpCode := mailed, otpExpiry := Some(OtpExpiry(now)))])
    {
      if Falsy(email) {
        return BadRequest, None;
      }
      var found := FindFirst(accounts, WithEmail(email.value));
      if found.None? {
        return NotFound, None;
      }
      var k := found.value;
      var code := GenerateOtp(draw);
      var expiry := OtpExpiry(now);
      mailed := Some(code);
      if !mailDelivered {
        return InternalError, mailed;
      }
      accounts := accounts[k := accounts[k].(otpCode := Some(code), otpExpiry := Some(expiry))];
      status := Ok;
    }

    /** `resetUserPassword`, the OTP confirmation: 400 when a field is falsy
        or the new password is blank. Every later failure is also reported
        as 400 ("Invalid or expired token"): no account with exactly that
        e-mail, a code other than the stored one (an absent stored code never
        matches), or a stored expiry strictly before now. The code is checked
        before the expiry. On success the password is replaced and both OTP
        fields are cleared. */
    method ResetUserPassword(email: Option<string>, otpCode: Option<string>, newPassword: Option<string>, now: nat)
      returns (status: Status)
      requires Valid()
      modifies this
      ensures Valid() && nextId == old(nextId)
      ensures status == Ok || status == BadRequest
      ensures status != Ok ==> accounts == old(accounts)
      ensures status == Ok <==>
        && !Falsy(email) && !Falsy(otpCode) && !Blank(newPassword)
        && var found := FindFirst(old(accounts), WithEmail(email.value));
           && found.Some?
           && old(accounts)[found.value].otpCode == otpCode
           && !Expired(old(accounts)[found.value].otpExpiry, now)
      ensures status == Ok ==>
        var k := FindFirst(old(accounts), WithEmail(email.value)).value;
        accounts == old(accounts)[k := old(accounts)[k].(password := Hash(newPassword.value), otpCode := None, otpExpiry := None)]
    {
      if Falsy(email) || Falsy(otpCode) || Falsy(newPassword) || Blank(newPassword) {
        return BadRequest;
      }
      var found := FindFirst(accounts, WithEmail(email.value));
      if found.None? {
        return BadRequest;
      }
      var k := found.value;
      if accounts[k].otpCode != otpCode {
        return BadRequest;
      }
      if Expired(accounts[k].otpExpiry, now) {
        return BadRequest;
      }
      UpdateKeepsValid(accounts, nextId, k, accounts[k].(password := Hash(newPassword.value), otpCode := None, otpExpiry := None));
      accounts := accounts[k := accounts[k].(password := Hash(newPassword.value), otpCode := None, otpExpiry := None)];
      status := Ok;
    }

    /** `getAllUser`: page and limit default to 1 and 10 when absent,
        non-numeric or zero; `skip = (page - 1) * limit`. A negative skip is
        rejected by the store, which the handler reports as a 500. Otherwise
        the listing holds the accounts at positions skip, skip + 1, ... (at
        most |limit| of them) without their credentials, the total count,
        and `totalPages = ceil(total / limit)`. */
    method GetAllUser(pageQuery: Option<int>, limitQuery: Option<int>) returns (status: Status, listing: Option<Listing>)
      ensures
        var page := OrDefault(pageQuery, DEFAULT_PAGE);
        var limit := OrDefault(limitQuery, DEFAULT_LIMIT);
        var skip := Skip(page, limit);
        && (skip < 0 ==> status == InternalError && listing.None?)
        && (skip >= 0 ==>
              && status == Ok && listing.Some?
              && listing.value.page == page && listing.value.limit == limit
              && listing.value.total == |accounts|
              && listing.value.totalPages == CeilDiv(|accounts|, limit)
              && |listing.value.users| == |Window(accounts, skip, Abs(limit))| <= Abs(limit)
              && forall k | 0 <= k < |listing.value.users| :: listing.value.users[k] == ViewOf(accounts[skip + k]))
    {
      var page := OrDefault(pageQuery, DEFAULT_PAGE);
      var limit := OrDefault(limitQuery, DEFAULT_LIMIT);
      var skip := Skip(page, limit);
      if skip < 0 {
        return InternalError, None;
      }
      var window := Window(accounts, skip, Abs(limit));
      var users := seq(|window|, k requires 0 <= k < |window| => ViewOf(window[k]));
      status := Ok;
      listing := Some(Listing(users, page, limit, |accounts|, CeilDiv(|accounts|, limit)));
    }

    /** `editUserName` for the authenticated account `requester`: 400 when
        the new name is missing or blank, 404 when the account is gone, 400
        when the name equals the stored one; otherwise stores the name as
        given (neither lower-cased nor checked for uniqueness) and returns
        the whole updated record. */
    method EditUserName(requester: nat, userName: Option<string>) returns (status: Status, updated: Option<Account>)
      requires Valid()
      modifies this
      ensures Valid() && nextId == old(nextId)
      ensures updated.Some? <==> status == Ok
      ensures status != Ok ==> accounts == old(accounts)
      ensures Blank(userName) ==> status == BadRequest
      ensures !Blank(userName) ==>
        match FindFirst(old(accounts), WithId(requester))
        case None => status == NotFound
        case Some(k) =>
          if old(accounts)[k].userName == userName.value then status == BadRequest
          else
            && status == Ok
            && accounts == old(accounts)[k := old(accounts)[k].(userName := userName.value)]
            && updated == Some(accounts[k])
    {
      if Blank(userName) {
        return BadRequest, None;
      }
      var found := FindFirst(accounts, WithId(requester));
      if found.None? {
        return NotFound, None;
      }
      var k := found.value;
      if accounts[k].userName == userName.value {
        return BadRequest, None;
      }
      accounts := accounts[k := accounts[k].(userName := userName.value)];
      status, updated := Ok, Some(accounts[k]);
    }

    /** `userDelete` for the authenticated account `requester`: 404 when the
        requester's account is gone, 403 when its role is not "admin", 400
        when the e-mail is falsy, 404 when no account has exactly that
        e-mail; otherwise removes the first account with that e-mail and no
        other, and answers with that e-mail. */
    method UserDelete(requester: nat, email: Option<string>) returns (status: Status, deleted: Option<string>)
      requires Valid()
      modifies this
      ensures Valid() && nextId == old(nextId)
      ensures status != Ok ==> accounts == old(accounts)
      ensures deleted == if status == Ok then email else None
      ensures match FindFirst(old(accounts), WithId(requester))
        case None => status == NotFound
        case Some(r) =>
          if old(accounts)[r].role != ADMIN then status == Forbidden
          else if Falsy(email) then status == BadRequest
          else match FindFirst(old(accounts), WithEmail(email.value))
            case None => status == NotFound
            case Some(k) => status == Ok && accounts == old(accounts)[..k] + old(accounts)[k + 1..]
      ensures status == Ok ==>
        && |accounts| == |old(accounts)| - 1
        && forall a | a in old(accounts) && a.email != email.value :: a in accounts
    {
      var found := FindFirst(accounts, WithId(requester));
      if found.None? {
        return NotFound, None;
      }
      if accounts[found.value].role != ADMIN {
        return Forbidden, None;
      }
      if Falsy(email) {
        return BadRequest, None;
      }
      var target := FindFirst(accounts, WithEmail(email.value));
      if target.None? {
        return NotFound, None;
      }
      var k := target.value;
      RemoveKeepsValid(accounts, nextId, k);
      accounts := accounts[..k] + accounts[k + 1..];
      status, deleted := Ok, email;
    }
  }
}
