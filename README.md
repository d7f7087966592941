# Account lifecycle of the tech_Mart user controller, in Dafny

This project models the request handlers in `src/controllers/user.controller.js`.
They cover registration, login with token issue, logout, and a password change
for a logged-in user. They also cover the reset flow: a one-time passcode (OTP)
is requested by e-mail (`changeUserPassword`) and confirmed (`resetUserPassword`).
Finally they cover the paginated account listing, renaming an account, and the
admin-only delete. The handlers are modelled as written, quirks included.

- `AccountStore` (module `UserController`) is the account collection. It is a
  class whose `accounts: seq<Account>` field keeps the collection's natural
  (insertion) order. `findOne`, `findOneAndDelete` and
  `find().skip().limit()` all follow that order.
- Each handler is a method of the class. It takes the request fields it reads,
  as `Option<string>`, where `None` stands for an absent field. It returns the
  response status (`Status`, with `Code()` giving the HTTP number) and the
  payload, and updates `accounts` exactly as the handler updates the
  collection.
- Each handler's `ensures` gives its status and new collection for every
  input, in the handler's own check order, error paths included.
- `Valid()` is an invariant that every handler preserves:
  - ids are distinct and below `nextId`;
  - the role is one of `admin`, `manager`, `user`;
  - the stored password preimage is non-blank;
  - a stored refresh token belongs to its account;
  - a pending code and its expiry are present together;
  - a pending code is six digits.
- JavaScript semantics are written out:
  - truthiness of a string field (`Falsy`);
  - `trim() === ""` (`Blank`, `PresentButBlank`, linked to `Trim`);
  - ASCII `toLowerCase`;
  - `parseInt(q) || default`;
  - `Math.ceil(total / limit)`, including a negative limit;
  - `Math.floor(100000 + Math.random() * 900000).toString()`.
- Module `Protocol` states properties across several requests, for every
  collection and every input. Module `Scenarios` plays concrete request
  sequences.

The collaborators are parameters:
- the e-mail validator's verdict (`emailValid`);
- the mail transport's outcome (`mailDelivered`);
- `Date.now()` (`now`);
- `Math.random()` as an integer `draw` in [0, 900000).

Password hashing is an ideal hash (`Digest(preimage)`): equal digests mean
equal passwords. Signed JWTs are modelled as
`Token(kind, subject, issuedAt)`, where `issuedAt` is the `iat` claim,
`Date.now()` in whole seconds (`IssuedAt(now) = now / 1000`). Signing is
deterministic, so two logins in the same second issue the same tokens.

Four behaviours of the code shape the model:
- In `resetUserPassword`, every failure after the field check is caught and
  answered with 400 (lines 249-281). This covers an unknown e-mail, a wrong
  code and an expired code.
- In `changePasswordAfterLogin`, a wrong old password is answered with 400,
  not 401 (lines 183-185).
- The duplicate check in `registerUser` compares the raw request values
  (lines 57-59), while the record is stored lower-cased (lines 67-69).
  Registering `ALICE` / `A@X.COM` after `alice` / `a@x.com` therefore passes
  the check. Two accounts then share a name and an e-mail, and `findOne`
  returns the older one (see `Scenarios.CaseVariantIsNotDuplicate`, and the
  user-model assumption under "Left out").
- `changeUserPassword` sends the mail before it stores the code
  (lines 229-233). A failed send (500) therefore stores nothing.

Three more behaviours of the code are worth knowing:
- The listing strips the password, the refresh token and the bookkeeping
  fields (`createdAt`, `updatedAt`, `__v`, line 292), but not the pending
  reset code. Any caller of the listing can therefore reset the password of
  an account with a pending code (`Scenarios.ListingRevealsPendingCode`,
  `Scenarios.ListedCodeResetsPassword`).
- `editUserName` returns the whole updated record, password digest included.
- `changePasswordAfterLogin` does not tie the e-mail in the body to the
  authenticated account.

## Model

| member | source | states |
|---|---|---|
| UserController.AccountStore.GenerateAccessAndRefreshTokens | src/controllers/user.controller.js:8-30 | Finds the account by id and returns an access and a refresh token for it. It stores the refresh token on that account only, and the rest of the collection is unchanged. An unknown id is reported as 500, as the catch re-throws it. |
| UserController.AccountStore.RegisterUser | src/controllers/user.controller.js:32-85 | A missing or blank field gives 400, then an invalid e-mail gives 400, then a lower-cased role outside admin/manager/user gives 400. An account with exactly the raw name or exactly the raw e-mail gives 409. Otherwise the new account is appended with a fresh id: name, e-mail and role lower-cased, password hashed, no token, no code. It returns 201 with the account without its credentials. Any failure leaves the collection unchanged. |
| UserController.AccountStore.LoginUser | src/controllers/user.controller.js:87-133 | A falsy e-mail or password gives 400. No account with exactly that e-mail gives 404. A wrong password gives 401. Otherwise 200: the first matching account without credentials, plus the token pair. Only that account's stored refresh token changes, to the new one. |
| UserController.AccountStore.LogoutUser | src/controllers/user.controller.js:135-161 | No authenticated id gives 401. Otherwise 200, with the refresh token of the account with that id cleared and every other account unchanged. |
| UserController.AccountStore.ChangePasswordAfterLogin | src/controllers/user.controller.js:163-194 | A present but blank field gives 400. An absent new password gives 500. A new password shorter than 8 gives 400. An absent or unknown e-mail gives 404. An absent old password gives 500. A wrong old password gives 400. Otherwise only the found account's password becomes the hash of the new one. Every failure leaves the collection unchanged. |
| UserController.AccountStore.ChangeUserPassword | src/controllers/user.controller.js:208-240 | A falsy e-mail gives 400. No account with that e-mail gives 404. Otherwise the mailed code is `GenerateOtp(draw)`. A failed send gives 500 with nothing stored. A delivered send stores the code and the expiry `now + 3600000` on the found account only. |
| UserController.AccountStore.ResetUserPassword | src/controllers/user.controller.js:242-283 | The status is always 200 or 400. It is 200 exactly when all of these hold: the e-mail and the code are truthy, the new password is non-blank, an account has that e-mail, its stored code equals the given one, and its expiry is not past. On 200 that account's password is replaced and both code fields are cleared, and nothing else changes. |
| UserController.AccountStore.GetAllUser | src/controllers/user.controller.js:285-316 | Page and limit come from `parseInt(..) \|\| default`. A negative skip gives 500. Otherwise 200 with: the accounts from position skip onwards, at most abs(limit) of them, in order and without credentials; the total count; and `CeilDiv(total, limit)` pages. |
| UserController.AccountStore.EditUserName | src/controllers/user.controller.js:318-358 | A blank name gives 400. The requester's account missing gives 404. The same name gives 400. Otherwise only that account's name changes, stored as given, and the whole updated record is returned. |
| UserController.AccountStore.UserDelete | src/controllers/user.controller.js:360-399 | The requester's account missing gives 404. A requester that is not admin gives 403. A falsy e-mail gives 400. No account with that e-mail gives 404. Otherwise exactly the first account with that e-mail is removed, the order of the rest is kept, every account with another e-mail remains, and the e-mail is returned as the payload. |
| Accounts.FindFirst | src/controllers/user.controller.js:96 | Returns the position of the first account that satisfies the filter, or None exactly when no account does (`findOne` in natural order). |
| Accounts.FindFirstAfterUpdate | src/controllers/user.controller.js:96 | Replacing an account with one the filter judges the same way does not change which account `findOne` returns. |
| Accounts.UpdateKeepsValid | src/controllers/user.controller.js:188-189 | Replacing one account by a well-formed account with the same id keeps the collection invariant. |
| Accounts.AppendKeepsValid | src/controllers/user.controller.js:66-73 | Appending a well-formed account with the next fresh id keeps the collection invariant. |
| Accounts.RemoveKeepsValid | src/controllers/user.controller.js:381 | Removing one account keeps the collection invariant. |
| JsText.TrimStart | src/controllers/user.controller.js:36 | The result is a suffix of the input. What it removes is all white space, and it does not start with white space. |
| JsText.TrimEnd | src/controllers/user.controller.js:36 | The result is a prefix of the input. What it removes is all white space, and it does not end with white space. |
| JsText.Trim | src/controllers/user.controller.js:36 | The result is a slice of the input with only white space before and after it (`Framed`), and when non-empty it neither starts nor ends with white space. |
| JsText.TrimIsSlice | src/controllers/user.controller.js:36 | Trimming both ends keeps exactly the slice that starts where the leading white space ends, with only white space around it. |
| JsText.TrimEmptyIffAllSpace | src/controllers/user.controller.js:36 | `s.trim() === ""` holds exactly when every character of `s` is white space. |
| JsText.BlankIsTrimEmpty | src/controllers/user.controller.js:166 | `!f \|\| f.trim() === ""` is `Blank(f)`, and `f?.trim() === ""` is `PresentButBlank(f)`. A falsy field is blank. |
| JsText.ToLowerPointwise | src/controllers/user.controller.js:67-69 | Lower-casing keeps the length, maps each character on its own, and leaves no upper-case letter. |
| JsText.ToLowerFixedPoints | src/controllers/user.controller.js:52 | Lower-casing is idempotent, and it leaves a string unchanged exactly when the string has no upper-case letter. |
| Otp.DecimalString | src/controllers/user.controller.js:197 | `toString` of a natural number is a non-empty digit string without a leading zero. |
| Otp.ParseDecimalString | src/controllers/user.controller.js:197 | Reading back the decimal string of a number gives the number. |
| Otp.DecimalStringParse | src/controllers/user.controller.js:197 | A digit string without a leading zero is the decimal string of its value. |
| Otp.DecimalLength | src/controllers/user.controller.js:197 | A number in [10^(k-1), 10^k) has exactly k decimal digits. |
| Otp.GenerateOtp | src/controllers/user.controller.js:196-198 | The code is six digits without a leading zero, and its value is 100000 + draw, so it lies in [100000, 999999]. |
| Otp.OtpCodesMatchDraws | src/controllers/user.controller.js:196-198 | Distinct draws give distinct codes, and every six-digit code without a leading zero comes from some draw. |
| Otp.OtpExpiry | src/controllers/user.controller.js:220 | The expiry lies after the issue time. |
| Otp.ValidityWindow | src/controllers/user.controller.js:220-263 | A code issued at t is not expired exactly at the instants up to t + 3600000 ms. |
| Pagination.OrDefault | src/controllers/user.controller.js:286-287 | NaN or 0 gives the default, and any other integer is kept. With a non-zero default the result is non-zero. |
| Pagination.CeilDiv | src/controllers/user.controller.js:307 | The least integer not below total / limit, for a positive and for a negative limit. |
| Pagination.Window | src/controllers/user.controller.js:291-294 | `skip(skip).limit(count)`: min(count, length - skip) elements (none past the end), element k being element skip + k. |
| Pagination.PagesCoverAll | src/controllers/user.controller.js:286-307 | With a positive limit, the account at position i lies on page i / limit + 1, which is among the pages 1..totalPages, and on no other page. |
| Pagination.PagesBeyondLastAreEmpty | src/controllers/user.controller.js:288-307 | Every page after totalPages is empty. |
| Pagination.SecondOfThreePages | src/controllers/user.controller.js:286-307 | 25 accounts at 10 per page: page 2 holds 10, and there are 3 pages. |
| Protocol.CodeIsSingleUse | src/controllers/user.controller.js:257-270 | After a successful reset, the same e-mail and code are refused with 400, for any new password and time. |
| Protocol.LogoutIsIdempotent | src/controllers/user.controller.js:135-161 | A second logout answers like the first and changes nothing. Afterwards the requester's account has no refresh token. |
| Protocol.SecondLoginReplacesSession | src/controllers/user.controller.js:87-133 | A login that succeeds once succeeds again. After it, the account stores the second session's refresh token. When the logins fall in different seconds, no account still stores the first one. |
| Protocol.ChangedPasswordTakesEffect | src/controllers/user.controller.js:163-194 | After a successful change, the new password logs in and a different old password is refused with 401. |
| Scenarios.RegisterAlice | src/controllers/user.controller.js:32-85 | Registering `alice`/`user`/`a@x.com`/`Password1` into an empty collection gives 201 and stores exactly that lower-cased account. |
| Scenarios.LoginThenLogoutTwice | src/controllers/user.controller.js:87-161 | Login gives 200 and returns the stored refresh token. Both logouts give 200, and the account is as before the login. |
| Scenarios.PasswordChangeRejections | src/controllers/user.controller.js:171-185 | A wrong old password gives 400, not 401. A 5-character new password gives 400. Neither changes anything. |
| Scenarios.RequestReset | src/controllers/user.controller.js:208-240 | A reset request for `a@x.com` gives 200, mails `GenerateOtp(draw)` and stores it with expiry t + 3600000. |
| Scenarios.PasswordResetFlow | src/controllers/user.controller.js:242-283 | With a code requested at t: the wrong code gives 400, the right code at +61 min gives 400, and at +59 min it gives 200 and resets the password. |
| Scenarios.ResetIsFinal | src/controllers/user.controller.js:87-133 | After the reset, the same code gives 400, the new password logs in, and the old one gives 401. |
| Scenarios.CaseVariantIsNotDuplicate | src/controllers/user.controller.js:57-71 | `ALICE`/`A@X.COM` after `alice`/`a@x.com` gives 201. Two accounts then share the stored name and e-mail. |
| Scenarios.RepeatThenDelete | src/controllers/user.controller.js:57-63 | The exact repeat gives 409. The admin's delete by the shared e-mail removes only the older account and returns that e-mail. |
| Scenarios.ListingRevealsPendingCode | src/controllers/user.controller.js:285-294 | After a reset request, the default listing shows the pending code. |
| Scenarios.ListedCodeResetsPassword | src/controllers/user.controller.js:242-283 | The code read from the listing resets the account's password with 200. |

## Left out

- `searchUser` and `getUserCount` (lines 401-447): these are read-only helpers
  outside the account lifecycle.
- The user model (`src/models/user.model.js`) is not part of this model. This
  covers the pre-save hashing hook, `isPasswordCorrect`, and
  `generateAccessToken`/`generateRefreshToken`. Hashing is an ideal hash, and
  the tokens are values naming their kind, subject and `iat` second. Secrets,
  expiry and signatures are left out. The model assumes the schema has no
  unique index on `userName` or `email`, and no `lowercase` or `trim`
  setters. With a unique index, the case-variant registration would fail in
  `newUser.save()` (line 73) with a 500 instead of a 201. With a `lowercase`
  setter, `editUserName` would store the new name lower-cased (line 339).
- The `verifyJWT` middleware is not part of this model. An authenticated
  request is modelled by the requester's id (`Option<nat>` for logout, `nat`
  where the handler reads `req.user._id` unguarded).
- There is no refresh-token endpoint in the source, so none is modelled.
- Cookies, response messages and JSON serialisation are left out. The status
  and the payload are kept, except for the payloads that carry only a message
  or an empty object.
- The e-mail validator, the mail transport, `Date.now()` and `Math.random()`
  are left out: they are the parameters `emailValid`, `mailDelivered`, `now`
  and `draw`.
- Mongoose schema validation on `editUserName`'s `save()` (for example a
  unique index) is left out. That save always succeeds in the model.
- Storage, hashing and network failures other than the ones named above are
  left out.
- Request fields other than strings (numbers, arrays, objects in the JSON
  body) are left out. A field is absent or a string.
- JsText.ToLower: lower-cases ASCII letters only. JavaScript's full Unicode
  case mapping is left out.
- JsText.IsSpace: covers the JavaScript white-space and line-terminator
  characters. Lengths count code points, not UTF-16 code units (this matters
  only for the 8-character minimum).
- UserController.AccountStore.GetAllUser: a negative limit returns abs(limit)
  accounts, a negative skip is a 500, and ids stand for MongoDB ObjectIds.
  Other store-specific paging details are left out.
- Concurrent requests are left out. Each handler runs to completion before the
  next, so the model has no lost updates between two logins.
- Routing, application bootstrap and the database connection are left out.
