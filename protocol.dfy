/** Properties of request sequences, for every collection and every input:
    what one handler leaves behind constrains what the next one answers. */
module Protocol {
  import opened Wrappers
  import opened JsText
  import opened Accounts
  import opened UserController

  /** A passcode is accepted at most once: after a successful reset, the same
      request fields are refused, whatever the new password and the time. */
  method CodeIsSingleUse(store: AccountStore, email: Option<string>, code: Option<string>,
                         newPassword: Option<string>, otherPassword: Option<string>, now: nat, later: nat)
    returns (first: Status, second: Status)
    requires store.Valid()
    modifies store
    ensures first == Ok ==> second == BadRequest
  {
    ghost var before := store.accounts;
    first := store.ResetUserPassword(email, code, newPassword, now);
    if first == Ok {
      var k := FindFirst(before, WithEmail(email.value)).value;
      FindFirstAfterUpdate(before, WithEmail(email.value), k, store.accounts[k]);
    }
    second := store.ResetUserPassword(email, code, otherPassword, later);
  }

  /** Logout is idempotent: a second logout by the same requester answers the
      same and changes nothing. */
  method LogoutIsIdempotent(store: AccountStore, requester: Option<nat>)
    returns (first: Status, second: Status, afterFirst: seq<Account>)
    requires store.Valid()
    modifies store
    ensures second == first
    ensures store.accounts == afterFirst
    ensures requester.Some? ==> forall i | 0 <= i < |afterFirst| && afterFirst[i].id == requester.value ::
              afterFirst[i].refreshToken.None?
  {
    first := store.LogoutUser(requester);
    afterFirst := store.accounts;
    second := store.LogoutUser(requester);
  }

  /** A single active session per account: after two successful logins, the
      stored refresh token is the one the second login returned. When the two
      logins fall in different seconds, the first refresh token is no longer
      stored on any account; within one second both logins sign the same
      token. */
  method SecondLoginReplacesSession(store: AccountStore, email: Option<string>, password: Option<string>, t1: nat, t2: nat)
    returns (first: Status, second: Status, session1: Option<Session>, session2: Option<Session>)
    requires store.Valid()
    modifies store
    ensures first == Ok ==> second == Ok
    ensures second == Ok ==>
      && session2.Some?
      && forall i | 0 <= i < |store.accounts| && store.accounts[i].id == session2.value.user.id ::
           store.accounts[i].refreshToken == Some(session2.value.tokens.refreshToken)
    ensures first == Ok ==> session1.Some?
    ensures first == Ok && IssuedAt(t1) != IssuedAt(t2) ==>
      forall i | 0 <= i < |store.accounts| :: store.accounts[i].refreshToken != Some(session1.value.tokens.refreshToken)
  {
    ghost var before := store.accounts;
    first, session1 := store.LoginUser(email, password, t1);
    if first == Ok {
      var k := FindFirst(before, WithEmail(email.value)).value;
      FindFirstAfterUpdate(before, WithEmail(email.value), k, store.accounts[k]);
    }
    second, session2 := store.LoginUser(email, password, t2);
  }

  /** A password change takes effect: afterwards the new password logs in and
      a different old password is refused with 401. */
  method ChangedPasswordTakesEffect(store: AccountStore, email: Option<string>, oldPassword: Option<string>,
                                    newPassword: Option<string>, now: nat)
    returns (changed: Status, withNew: Status, withOld: Status)
    requires store.Valid()
    modifies store
    ensures changed == Ok ==> withNew == Ok
    ensures changed == Ok && oldPassword != newPassword ==> withOld == Unauthorized
  {
    ghost var before := store.accounts;
    changed := store.ChangePasswordAfterLogin(email, oldPassword, newPassword);
    if changed == Ok {
      var k := FindFirst(before, WithEmail(email.value)).value;
      FindFirstAfterUpdate(before, WithEmail(email.value), k, store.accounts[k]);
    }
    ghost var changedAccounts := store.accounts;
    var session;
    withNew, session := store.LoginUser(email, newPassword, now);
    if changed == Ok {
      var k := FindFirst(changedAccounts, WithEmail(email.value)).value;
      FindFirstAfterUpdate(changedAccounts, WithEmail(email.value), k, store.accounts[k]);
    }
    withOld, session := store.LoginUser(email, oldPassword, now);
  }
}
