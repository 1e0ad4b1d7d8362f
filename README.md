# Secret box: accounts, tokens, anonymous messages and the auth screens

This project models, in Dafny, the core of a "secret box" application: an
Express/MongoDB server where people sign up (with a password or a Google
account), confirm their e-mail with a one-time code, log in with a pair of
JSON Web Tokens, change or reset their password, freeze, restore and delete
their account, search for other users and send each other anonymous
messages; and the two React/Redux front ends that talk to it (their auth,
theme and app stores, the password strength meter and the one-time-code
input).

How the model is built:

- **Server state.** The three MongoDB collections (users in natural order,
  revoked tokens keyed by `jti`, messages) are one `Store.Database` object.
  Every request handler is a method that `modifies` it and is proved equal to
  a pure transition function (`...Step`) of the collections before the
  request. The transition functions state the handler's responses and error
  cases in their contracts; what spans several requests is proved as lemmas
  about them, and `Store.Valid` (unique `_id`/`email`/`jti`, well-formed
  users, fresh message ids) is proved to be preserved by every handler.
- **Tokens.** A JWT is a value (`Tokens.Jwt`: the key it was signed with and
  its claims); the text of a token reaches the gate through a `decode`
  parameter. `Tokens.DecodedToken` is the authentication gate with its checks
  in the source's order.
- **Validation.** Request schemas are data (`Schema.PartSchema`,
  `Schema.Field`), `Schema.ValidationMiddleware` is the middleware's loop,
  and every route's schema is proved equivalent to a plain statement of what
  it accepts. The regular expressions of the shared field rules are written
  out character by character in `GeneralFields`.
- **Client stores.** Each Redux slice is a pure `Reduce(state, action)` plus a
  class whose `Dispatch` updates the fields in place, as the reducers' draft
  does, and is proved to match `Reduce`.
- **Components.** The strength meter is a method proved against a
  specification function; the one-time-code input is a class whose handlers
  are proved against step functions, with its `split`/assign/`join` as an
  array method.

## Model

| member | source | states |
|---|---|---|
| Crypto.Hash | server/src/utils/security/hash.security.js:4-6 | a digest made from a plaintext compares equal to that plaintext |
| Crypto.HashIsSaltedAndBinding | server/src/utils/security/hash.security.js:4-10 | two hashes of one password under different salts differ, both compare true, and a digest compares true only for its own plaintext |
| Crypto.Encrypt | server/src/modules/auth/auth.service.js:21 | an encrypted phone number decrypts back to the number |
| UserModel.ParseGender | server/src/DB/models/user.model.js:40-44 | the gender enum accepts exactly "male" and "female" and casts back to the same text |
| UserModel.ParseProvider | server/src/DB/models/user.model.js:65-69 | the provider enum accepts exactly "system" and "google" and casts back to the same text |
| UserModel.SplitUserName | server/src/DB/models/user.model.js:82-84 | the userName setter: no name without a value, neither part contains a space, a last name exactly when the value has a space, a value without a space becomes the first name |
| UserModel.UserNameRoundTrip | server/src/DB/models/user.model.js:82-87 | setting "first last" (no inner spaces) stores exactly those two names, so the getter gives the same text back |
| UserModel.UserNameDropsExtraPieces | server/src/DB/models/user.model.js:83 | a name with more than one space keeps only its first two pieces |
| UserModel.CreateUser | server/src/DB/models/user.model.js:8-84 | create succeeds exactly when the base fields and the provider-dependent required fields hold; a Google draft needs no password; the stored user carries the defaults (role user, gender male, provider system, empty history), the draft's email, password, phone, confirmation state and OTP, the first and last name the userName setter splits off, and no freeze, restore, reset code or credential change |
| UserModel.CreatedUserNameReadsBack | server/src/DB/models/user.model.js:82-87 | a user created from a two-word name reads that name back |
| UserModel.UpdateKeepsInvariant | server/src/DB/models/user.model.js:22-26 | replacing a user by a well-formed one with the same `_id` and email keeps the unique indexes and well-formedness |
| UserModel.AppendKeepsInvariant | server/src/DB/models/user.model.js:22-26 | appending a well-formed user with a new `_id` and email keeps them |
| UserModel.RemoveKeepsInvariant | server/src/DB/models/user.model.js:22-26 | removing a user keeps them |
| UserModel.Inbox | server/src/DB/models/user.model.js:89-93 | the `messages` virtual holds exactly the messages whose receiver is the user |
| UserModel.SentBy | server/src/DB/models/user.model.js:96-100 | the `messagesSent` virtual holds exactly the messages the user sent |
| Store.FreshUserId | server/src/DB/DB.service.js:20-24 | a created user gets an `_id` no stored user has |
| Store.FreshMessageId | server/src/DB/DB.service.js:20-24 | a created message gets an `_id` no stored message has |
| Store.FreshId | server/src/DB/DB.service.js:20-24 | the id chosen for a new document is above every stored document's id |
| Tokens.GetSignatures | server/src/utils/security/token.security.js:33-50 | an access and a refresh key of one tier; the System tier exactly for the level "System", the User tier for anything else |
| Tokens.Verify | server/src/utils/security/token.security.js:24-31 | a token verifies exactly when it was signed with the key and has not expired at the current second, and then yields its claims |
| Tokens.TierFor | server/src/utils/security/token.security.js:92 | every role other than `user` signs with the System keys |
| Tokens.GenerateLoginCredentials | server/src/utils/security/token.security.js:91-115 | both tokens carry the user's id and one shared `jti`, are signed with the role's tier keys, issued now, and live one hour and one year (365.25 days) |
| Tokens.FindUser | server/src/utils/security/token.security.js:76-80 | finds a stored user with the id, or reports that none has it |
| Tokens.DecodedToken | server/src/utils/security/token.security.js:52-89 | 401 exactly for a header without both parts; 400 "jwt malformed", 400 "invalid signature" for a token signed with another key, 400 "jwt expired" for a correctly signed expired one; then, each once the earlier guards pass: 401 for a revoked `jti`, 400 "In-Valid token" without an id, 404 "Not Registerd Account" for an unknown user, 401 for a credential change after `iat`; success exactly when every guard passes, handing over a stored user and the token's claims |
| Tokens.RevokeInsert | server/src/utils/security/token.security.js:117-128 | inserting a revocation fails exactly for a missing or already revoked `jti` (unique index); otherwise it adds exactly that record, keeps the others and the store invariant |
| Tokens.Sweep | server/src/modules/auth/auth.service.js:529-548 | keeps exactly the records not yet expired, unchanged, and the store invariant |
| Tokens.HeaderParts | server/src/utils/security/token.security.js:55 | "level token" splits back into the level and the token |
| Tokens.FreshTokenAccepted | server/src/utils/security/token.security.js:52-89 | a freshly issued, unrevoked, unexpired token of a `user` account, sent as "Bearer token", passes the gate with that user and its claims |
| Tokens.AdminTokenRejectedUnderBearer | server/src/utils/security/token.security.js:61-66 | an admin's token sent under "Bearer" is refused with an invalid signature |
| Tokens.RevokedPairRejected | server/src/utils/security/token.security.js:69-71 | once the shared `jti` is revoked, neither token of the pair passes the gate |
| Tokens.ChangedCredentialsRejectOlderTokens | server/src/utils/security/token.security.js:83-85 | a token issued before the last credential change is refused with 401 |
| Tokens.SameSecondTokenRejected | server/src/utils/security/token.security.js:83-85 | a token issued in the same second as, but after, a credential change is refused too, because `iat` is in whole seconds |
| Tokens.RevokedRefreshTokenRefused | server/src/utils/security/token.security.js:117-128 | in the example, a revoked refresh token is refused before the sweep |
| Tokens.SweptRefreshTokenPasses | server/src/modules/auth/auth.service.js:531-532 | in the example, once the sweep drops its 365-day record, the still valid refresh token passes the gate again |
| Tokens.SweepRevivesRevokedRefreshTokenAsWritten | server/src/utils/security/token.security.js:123 | as written: a revoked refresh token is refused, and after the sweep it is accepted again |
| Tokens.SweepKeepsLiveRevocations | server/src/utils/security/token.security.js:106-112 | with a record lifetime equal to the refresh token's, no sweep drops the revocation of a token that still verifies |
| AuthService.PendingIndex | server/src/modules/auth/auth.service.js:59-67 | finds an unconfirmed account with a confirmation code for the email, or reports there is none |
| AuthService.RecoverableIndex | server/src/modules/auth/auth.service.js:378-389 | finds a confirmed, unfrozen `system` account for the email, or reports there is none |
| AuthService.ResettableIndex | server/src/modules/auth/auth.service.js:412-421 | the same, holding a forgot-password code |
| AuthService.SignUpStep | server/src/modules/auth/auth.service.js:14-47 | 409 exactly when the email is taken; success exactly when create succeeds, and then the one user added is the user `CreateUser` builds from the request (unconfirmed, `system`, hashed password and code, expiring in two minutes, one code sent) and the code is mailed; nothing changes otherwise |
| AuthService.ConfirmEmailStep | server/src/modules/auth/auth.service.js:51-103 | 404 without email, code or pending account; then 400 for an expired code before 409 for a wrong one; success confirms that account and removes its code fields; nothing changes on failure |
| AuthService.ResendStep | server/src/modules/auth/auth.service.js:108-189 | 404 without a pending account; a running block answers 409; an elapsed block resets the count; five codes sent sets a five-minute block and answers 409; otherwise a new hashed code expiring in two minutes, the count up by one, the code mailed |
| AuthService.GoogleStep | server/src/modules/auth/auth.service.js:208-248 | 400 for an unverified Google email; an existing Google account logs in; an existing account of another provider gets 409; otherwise, for a new verified email, success exactly when create succeeds, and then the one user added is the user `CreateUser` builds from the profile (confirmed, `google`, no password), answered 201 with its token pair |
| AuthService.LoginStep | server/src/modules/auth/auth.service.js:252-294 | 404 without a `system` account, then 400 unconfirmed, 400 frozen, 409 wrong password; only then the user's token pair |
| AuthService.RefreshStep | server/src/modules/auth/auth.service.js:298-303 | success exactly when the presented `jti` can be revoked, with a record expiring 31536000 s after `iat` as createRevokeToken writes it, and then a new pair for the same user; otherwise 400 and no change |
| AuthService.ChangePasswordStep | server/src/modules/auth/auth.service.js:309-367 | 400 for a wrong old password, 400 for a new password found in the history, 400 with nothing changed when the `logout` revocation cannot be inserted; past those checks, 200 "Password Changed Succses" exactly when a confirmed account has the session's id, and otherwise 400 "Something Went Worng" with the revocation kept; on success the new hash, the old one pushed onto the history, `changeCredentialsTime` for `fromAll`; only the flag `logout` revokes the session, with a record expiring 31536000 s after `iat` |
| AuthService.ForgetStep | server/src/modules/auth/auth.service.js:372-401 | 400 without a recoverable account; otherwise a new hashed code on that account, mailed to it |
| AuthService.VerifyForgetStep | server/src/modules/auth/auth.service.js:407-434 | succeeds exactly when a resettable account exists and the code matches its hash, and changes nothing |
| AuthService.ResetStep | server/src/modules/auth/auth.service.js:438-480 | succeeds exactly when verification would, and then removes the code, sets `changeCredentialsTime` and the new password hash; fails as verification fails, with no change |
| AuthService.LogOutStep | server/src/modules/auth/auth.service.js:484-517 | `fromAll` sets `changeCredentialsTime` (200); any other or missing flag revokes the session's `jti` (201) with a record expiring 31536000 s after `iat` |
| AuthService.CreateRevokeToken | server/src/utils/security/token.security.js:117-128 | inserts the session's revocation record, expiring 31536000 s after `iat`, when the unique index allows, and reports whether it did; users and messages unchanged |
| AuthService.SignUp | server/src/modules/auth/auth.service.js:14-47 | the handler's reply, mail and new collections are those of SignUpStep |
| AuthService.ConfirmEmail | server/src/modules/auth/auth.service.js:51-103 | as ConfirmEmailStep |
| AuthService.ReSendConfirmOtp | server/src/modules/auth/auth.service.js:108-189 | as ResendStep, including the in-memory reset of an elapsed block |
| AuthService.SignUpWithGmail | server/src/modules/auth/auth.service.js:208-248 | as GoogleStep |
| AuthService.RefreshToken | server/src/modules/auth/auth.service.js:298-303 | as RefreshStep, revocation lifetime included |
| AuthService.ChangePassword | server/src/modules/auth/auth.service.js:309-367 | as ChangePasswordStep, revocation lifetime included, with the history checked by a loop over the old hashes |
| AuthService.ForgetPassword | server/src/modules/auth/auth.service.js:372-401 | as ForgetStep |
| AuthService.ReSetPassword | server/src/modules/auth/auth.service.js:438-480 | as ResetStep |
| AuthService.LogOut | server/src/modules/auth/auth.service.js:484-517 | as LogOutStep, revocation lifetime included |
| AuthService.SweepExpiredTokens | server/src/modules/auth/auth.service.js:529-548 | the revocation store becomes its Sweep; users and messages unchanged |
| AuthProperties.SignUpKeepsValid | server/src/modules/auth/auth.service.js:14-47 | signUp keeps the store invariant |
| AuthProperties.ConfirmEmailKeepsValid | server/src/modules/auth/auth.service.js:51-103 | confirmEmail keeps it |
| AuthProperties.ResendKeepsValid | server/src/modules/auth/auth.service.js:108-189 | reSendConfirmOTP keeps it, including "a block is set only after five codes" |
| AuthProperties.GoogleKeepsValid | server/src/modules/auth/auth.service.js:208-248 | signUpWithGmail keeps it |
| AuthProperties.RefreshKeepsValid | server/src/modules/auth/auth.service.js:298-303 | refreshToken keeps it |
| AuthProperties.ChangePasswordKeepsValid | server/src/modules/auth/auth.service.js:309-367 | changePassword keeps it |
| AuthProperties.ForgetKeepsValid | server/src/modules/auth/auth.service.js:372-401 | forgetPassword keeps it |
| AuthProperties.ResetKeepsValid | server/src/modules/auth/auth.service.js:438-480 | reSetPassword keeps it |
| AuthProperties.LogOutKeepsValid | server/src/modules/auth/auth.service.js:484-517 | logOut keeps it |
| AuthProperties.ResendNeverHangs | server/src/modules/auth/auth.service.js:130-150 | on a valid store every resend request gets a response |
| AuthProperties.ResendHangsOnBlockEndingNow | server/src/modules/auth/auth.service.js:130-150 | on a store with a block set before five codes, a request at the block's last millisecond gets none |
| AuthProperties.ResendCountsUp | server/src/modules/auth/auth.service.js:163-176 | without a block, a resend succeeds and raises the count by one |
| AuthProperties.ResendBlocksAtFive | server/src/modules/auth/auth.service.js:152-161 | with five codes sent the next request sets a five-minute block and sends nothing, and a request during the block is refused with 409 |
| AuthProperties.ResendAfterBlockRestarts | server/src/modules/auth/auth.service.js:134-150 | after the block has elapsed the count restarts and the request leaves one code sent |
| AuthProperties.ResendsAccumulate | server/src/modules/auth/auth.service.js:163-176 | n resends without a block raise the count by n |
| AuthProperties.ResendsInRunSucceed | server/src/modules/auth/auth.service.js:163-176 | every resend of a run that stays below the five-code limit succeeds with 200 |
| AuthProperties.FourResendsThenBlock | server/src/modules/auth/auth.service.js:34 | counting the signup's code, each of the four resends that follow succeeds with 200 and the fifth request is blocked |
| AuthProperties.SignUpConfirmLogin | server/src/modules/auth/auth.service.js:14-103 | a new account confirmed with its code within two minutes can log in with its password, and a second confirmation finds no pending account |
| AuthProperties.ChangeBackRefused | server/src/modules/auth/auth.service.js:323-329 | after a change from p0 to p1, changing back to p0 is refused |
| AuthProperties.ResetForgetsReplacedPassword | server/src/modules/auth/auth.service.js:466-476 | a reset does not record the replaced password, so changing back to it is accepted |
| AuthProperties.ForgetThenVerifyThenReset | server/src/modules/auth/auth.service.js:372-480 | the forgot-password code is neither consumed by verification nor expires: verify and then reset both succeed with it |
| AuthProperties.LogOutEndsSession | server/src/modules/auth/auth.service.js:488-515 | after logOut with any flag but `fromAll`, neither token of the session passes the gate |
| AuthProperties.LogOutRevocationLapsesEarly | server/src/utils/security/token.security.js:123 | as written, one second after 365 days from `iat` the logout's revocation record is swept while the session's refresh token still verifies |
| AuthProperties.RefreshEndsPresentedPair | server/src/modules/auth/auth.service.js:298-303 | refreshToken shuts out the pair it was presented with |
| AuthProperties.LogOutFromAllEndsEarlierTokens | server/src/modules/auth/auth.service.js:488-496 | logOut with `fromAll` shuts out every token of the account issued before it |
| UsersService.FreezeStep | server/src/modules/users/users.service.js:81-111 | a path `userId` from a non-admin is refused with 403 and nothing changes; otherwise success exactly when the target (the path id, or the requester) is not frozen yet, which then records when and by whom it was frozen |
| UsersService.RestorableIndex | server/src/modules/users/users.service.js:118-124 | finds an account frozen by someone other than itself, or reports there is none |
| UsersService.RestoreStep | server/src/modules/users/users.service.js:113-139 | succeeds exactly for such an account, unfreezing it and recording who restored it; 400 otherwise with no change |
| UsersService.FrozenIndex | server/src/modules/users/users.service.js:146-150 | finds a frozen account with the id, or reports there is none |
| UsersService.DeleteStep | server/src/modules/users/users.service.js:141-159 | only a frozen account is removed and only then are its media cleaned up; 400 otherwise with no change |
| UsersService.FreezAccount | server/src/modules/users/users.service.js:81-111 | as FreezeStep |
| UsersService.RestoreAccount | server/src/modules/users/users.service.js:113-139 | as RestoreStep |
| UsersService.DeleteAccount | server/src/modules/users/users.service.js:141-159 | as DeleteStep |
| UsersService.FreezeKeepsValid | server/src/modules/users/users.service.js:91-109 | freezing keeps the store invariant |
| UsersService.RestoreKeepsValid | server/src/modules/users/users.service.js:118-137 | restoring keeps it |
| UsersService.DeleteKeepsValid | server/src/modules/users/users.service.js:146-157 | deleting keeps it |
| UsersService.SelfFrozenStaysFrozen | server/src/modules/users/users.service.js:118-124 | an account that froze itself cannot be restored by anyone |
| UsersService.AdminFreezeUndoneByAnyUser | server/src/modules/users/users.service.js:113-139 | restore checks no role: an account an admin froze can be restored by any user |
| UsersService.FreezeThenDelete | server/src/modules/users/users.service.js:81-159 | after freezing itself an account can be deleted, its media are cleaned up and it is gone |
| UsersService.TotalPages | server/src/modules/users/users.service.js:246 | `Math.ceil(total / limit)`: the fewest pages of `limit` that hold every match |
| UsersService.Window | server/src/modules/users/users.service.js:223-224 | `.skip(s).limit(n)`: the matches from position s on, n of them or all when n is 0, in order |
| UsersService.Page | server/src/modules/users/users.service.js:223-224 | a page holds at most `limit` matches, is empty past the end, and is the window that skips `(page - 1) * limit` and takes `limit` |
| UsersService.FirstPagesArePrefix | server/src/modules/users/users.service.js:223-224 | pages 1 to n, read in turn, are the first n·limit matches |
| UsersService.PagesCoverAllMatches | server/src/modules/users/users.service.js:223-246 | reading pages 1 to totalPages returns every match exactly once, in order |
| UsersService.SearchForUser | server/src/modules/users/users.service.js:207-250 | 400 exactly for an empty query; otherwise 200 with the projected users of the window that skips `(page - 1) * limit` computed on the numbers the texts denote and takes `parseInt(limit)`, the number of matches, `totalPages` = `TotalPages(total, Number(limit))` and `currentPage` = `parseInt(page)` |
| UsersService.Summarize | server/src/modules/users/users.service.js:224-236 | a found user keeps only `_id`, email, phone and the two names; names without spaces come back unchanged from the `userName` assignment |
| UsersService.SetterSplitsJoinedName | server/src/modules/users/users.service.js:235 | the joined name always splits into two pieces, the original names when they hold no space |
| UsersService.Summaries | server/src/modules/users/users.service.js:234-236 | every found user is projected, in order |
| UsersService.PageNumber | server/src/modules/users/users.service.js:208-223 | the page the skip uses: the number the text denotes, 1 by default, at least 1 |
| UsersService.PageSize | server/src/modules/users/users.service.js:208-246 | the limit the skip and the page count use: the number the text denotes, 20 by default, 1 to 50 |
| UsersService.Take | server/src/modules/users/users.service.js:224 | the window size `parseInt(limit)`, never negative for an accepted limit |
| UsersService.Skip | server/src/modules/users/users.service.js:223 | `(page - 1) * limit` is never negative |
| UsersService.SearchForUserIntended | server/src/modules/users/users.service.js:207-250 | the search with one number for the limit throughout: 400 exactly for an empty query, otherwise page `page` of the matches, their number, their page count and the page number |
| UsersService.ReadPagesAreFirstPages | server/src/modules/users/users.service.js:223-224 | the users of pages 1 to n of the intended search are the first n pages of the matches, projected |
| UsersService.IntendedSearchCoversAllMatches | server/src/modules/users/users.service.js:223-246 | reading pages 1 to `totalPages` of the intended search returns every matching user exactly once, in order |
| UsersService.PlainNumbersAgree | server/src/modules/users/users.service.js:207-250 | page and limit written as plain digits give exactly the intended search's answer |
| UsersService.DefaultsAgree | server/src/modules/users/users.service.js:208 | without page and limit the search is the intended one with page 1 and 20 per page |
| UsersService.ExponentLimitShrinksPages | server/src/modules/users/users.service.js:223-246 | as written, `limit=1e1` is accepted as 10 but the window holds one user, fewer than the intended first page, and the announced pages cannot reach every match |
| UsersService.FractionLimitRemovesLimit | server/src/modules/users/users.service.js:224-246 | as written, `limit=0.5e2` is accepted as 50 but `parseInt` gives 0, so one response holds every match while the page count assumes 50 per page |
| Numerals.ParseIntPrefix | server/src/modules/users/users.service.js:224-247 | reference definition of `parseInt` (whitespace, an optional sign and the longest run of digits; nothing without a digit); its contract: text of plain digits reads as the number they write |
| Numerals.JoiInteger | server/src/modules/users/users.validation.js:77-78 | text is a whole number to joi exactly when it is a numeral whose value is whole and within the safe range, and then has that value |
| Numerals.DigitTextReads | server/src/modules/users/users.validation.js:77-78 | plain digits are a numeral with exponent 0 and read as the same number by `parseInt` |
| Numerals.DigitTextIsInteger | server/src/modules/users/users.validation.js:77-78 | plain digits within the safe range are a whole number to joi and to `parseInt` alike |
| Numerals.UnsignedDigits | server/src/modules/users/users.validation.js:77-78 | plain digits are a numeral without fraction or exponent |
| Numerals.PointedNumeral | server/src/modules/users/users.validation.js:77-78 | a numeral with a point takes the digits on both sides as the mantissa and lowers the exponent by the fraction digits |
| Numerals.PositiveTextReadsNonNegative | server/src/modules/users/users.service.js:224 | `parseInt` of text joi accepts as at least 1 is never negative: both see the same sign |
| Numerals.NonPositiveWhole | server/src/modules/users/users.validation.js:77-78 | a numeral with a sign of `-` has no whole value above zero |
| Numerals.ReadsExponent | server/src/modules/users/users.validation.js:78 | `"1e1"` is the whole number 10 |
| Numerals.ParseIntStopsAtExponent | server/src/modules/users/users.service.js:224 | `parseInt("1e1")` is 1 |
| Numerals.ReadsFractionWithExponent | server/src/modules/users/users.validation.js:78 | `"0.5e2"` is the whole number 50 |
| Numerals.ParseIntStopsAtPoint | server/src/modules/users/users.service.js:224 | `parseInt("0.5e2")` is 0 |
| Numerals.ReadsLeadingPoint | server/src/modules/users/users.validation.js:78 | `".5e2"` is the whole number 50 |
| Numerals.ParseIntFindsNoDigit | server/src/modules/users/users.service.js:224 | `parseInt(".5e2")` is NaN |
| Numerals.ReadsZeroFraction | server/src/modules/users/users.validation.js:77-78 | `"2.0"` is the whole number 2 |
| Numerals.RefusesFraction | server/src/modules/users/users.validation.js:77-78 | `"2.5"` is not a whole number |
| Numerals.ReadsPlusSign | server/src/modules/users/users.validation.js:77-78 | `"+2"` is the whole number 2 |
| Numerals.ParseIntSkipsPlusSign | server/src/modules/users/users.service.js:224-247 | `parseInt("+2")` is 2 |
| Numerals.ReadsSpaced | server/src/modules/users/users.validation.js:77-78 | `" 2 "` is the whole number 2 |
| Numerals.ParseIntSkipsSpaces | server/src/modules/users/users.service.js:224-247 | `parseInt(" 2 ")` is 2 |
| Numerals.RefusesIncomplete | server/src/modules/users/users.validation.js:77-78 | `"1e"` and the empty text are not numbers |
| MessagesService.MessageIndex | server/src/modules/messages/messages.service.js:77 | finds the message with the id, or reports there is none |
| MessagesService.Create | server/src/modules/messages/messages.service.js:44-52 | a message is stored exactly when its content length is within the schema's bounds, with a fresh id, the given receiver, sender and image; otherwise 400 with Mongoose's "Message validation failed: content: …" text and nothing stored |
| MessageModel.ContentError | server/src/DB/models/Message.Model.js:4-11 | the content validator's message exists exactly when the length is outside 5 to 20000, and it quotes the content |
| MessagesService.SendStep | server/src/modules/messages/messages.service.js:8-56 | 400 with nothing to send, 400 "Cannot Send Message To Yourself , شوفلك حياة" to oneself, 404 for a missing, unconfirmed or frozen receiver; otherwise exactly the message `Create` stores, to the receiver from the sender with the content and image, 201 |
| MessagesService.DeleteStep | server/src/modules/messages/messages.service.js:71-97 | 404 for a missing message, 403 unless the requester received it, and otherwise it is removed |
| MessagesService.ReplyStep | server/src/modules/messages/messages.service.js:99-140 | 400 with nothing to send; 404 "Cannot Reply This Message , Message Sender Id Is Not Exsists!" for a missing or anonymous message, 404 "Message Not Found" for one the requester did not receive; otherwise exactly the message `Create` stores, to the original sender from the requester with the content and image, 201 |
| MessagesService.SendMessage | server/src/modules/messages/messages.service.js:8-56 | as SendStep, every reply and message text included |
| MessagesService.DeleteMessage | server/src/modules/messages/messages.service.js:71-97 | as DeleteStep |
| MessagesService.ReplyMessage | server/src/modules/messages/messages.service.js:99-140 | as ReplyStep, every reply and message text included |
| MessagesService.AppendMessageKeepsValid | server/src/modules/messages/messages.service.js:44-52 | appending a message with a fresh id keeps the store invariant |
| MessagesService.SendKeepsValid | server/src/modules/messages/messages.service.js:8-56 | sending keeps it |
| MessagesService.ReplyKeepsValid | server/src/modules/messages/messages.service.js:99-140 | replying keeps it |
| MessagesService.DeleteKeepsValid | server/src/modules/messages/messages.service.js:71-97 | deleting keeps it |
| MessagesService.SentMessageIsListed | server/src/modules/messages/messages.service.js:44-54 | a sent message shows in the receiver's inbox and, unless anonymous, in the sender's sent list |
| MessagesService.DeletedMessageIsGone | server/src/modules/messages/messages.service.js:77-93 | after a delete no message with that id remains |
| MessagesService.ReplyReachesFrozenSender | server/src/modules/messages/messages.service.js:109-137 | a reply checks nothing about the original sender's account: it reaches a frozen one |
| MessagesService.CastId | server/src/modules/messages/messages.service.js:22-30 | the recipient lookup casts the path text to an ObjectId, reading its hex digits in either case |
| MessagesService.UpperCaseOwnIdPassesSelfCheck | server/src/modules/messages/messages.service.js:17-30 | as written: one's own id spelled in upper case is a valid ObjectId, is not refused by the text comparison at line 17, and the lookup still finds one's own account |
| MessagesService.IntendedSelfCheckRefusesEverySpelling | server/src/modules/messages/messages.service.js:17-30 | the intended check, comparing ObjectIds, refuses everything the written one refuses and also the upper-case spelling of one's own id |
| Schema.Get | server/src/middleware/validation.middleware.js:59-75 | the value under a key, or none exactly when no entry has the key |
| Schema.AsInteger | server/src/modules/users/users.validation.js:77-78 | `joi.number().integer()` with conversion: a whole number in the safe range, or text joi reads as a numeral with such a value |
| Schema.Names | server/src/middleware/validation.middleware.js:59-75 | the keys a schema names, in order |
| Schema.KnownProblems | server/src/middleware/validation.middleware.js:59-75 | no details exactly when every key of the schema passes |
| Schema.UnknownProblems | server/src/middleware/validation.middleware.js:59-75 | no details exactly when the object has no key the schema does not name |
| Schema.ObjectProblems | server/src/middleware/validation.middleware.js:59-75 | no details exactly when the object conforms |
| Schema.ItemProblems | server/src/modules/users/users.validation.js:50-64 | no details exactly when every array item is a conforming object |
| Schema.Tag | server/src/modules/users/users.validation.js:50-64 | each item detail keeps its order and is tagged with its index |
| Schema.PartProblemsIff | server/src/middleware/validation.middleware.js:61-66 | a request part has no error details exactly when it meets its schema |
| Schema.Collected | server/src/middleware/validation.middleware.js:59-75 | at most one entry per schema key, none exactly when every part passes, each a failing part with its details |
| Schema.CollectedLists | server/src/middleware/validation.middleware.js:67-73 | every failing part yields its entry |
| Schema.ValidationMiddleware | server/src/middleware/validation.middleware.js:53-91 | `next()` exactly when every part passes; otherwise 400 with the collected errors |
| Schema.AcceptsIff | server/src/middleware/validation.middleware.js:53-91 | a schema accepts a request exactly when each part meets its rule |
| Schema.AppendConforms | server/src/modules/auth/auth.validation.js:15-22 | `object.append`: the extended schema demands both schemas' keys and allows only their names |
| GeneralFields.LeadingLetters | server/src/middleware/validation.middleware.js:11 | the length of the longest all-letter prefix |
| GeneralFields.LeadingLettersAt | server/src/middleware/validation.middleware.js:11 | a letter prefix followed by a non-letter is that longest prefix |
| GeneralFields.UserNameMatchesPattern | server/src/middleware/validation.middleware.js:10-16 | reading the first word decides `^[a-zA-Z]{2,20}\s[a-zA-Z]{2,20}$` exactly |
| GeneralFields.SpacedUserNameSplits | server/src/middleware/validation.middleware.js:10-16 | a user name with a plain space reaches the setter as two valid names |
| GeneralFields.TabbedUserNamePassesButCannotBeStored | server/src/middleware/validation.middleware.js:11 | a name with a tab passes validation, the setter leaves no last name and create refuses it |
| GeneralFields.PhoneMatchesPattern | server/src/middleware/validation.middleware.js:43 | the phone check decides `^(002\|\+20)?01[0125][0-9]{8}$` exactly, and accepted numbers have 11 or 14 characters |
| GeneralFields.EmailHasOneAt | server/src/middleware/validation.middleware.js:35 | an accepted email is a non-empty local part, one `@` and a domain with a dot |
| AuthValidation.RequiredBodyAccepts | server/src/modules/auth/auth.validation.js:6-13 | a body-only schema accepts exactly an object body that conforms |
| AuthValidation.LoginConforms | server/src/modules/auth/auth.validation.js:6-13 | login: a valid email and a valid password, nothing else |
| AuthValidation.SignUpConforms | server/src/modules/auth/auth.validation.js:15-22 | signUp: email, password, user name and phone valid, gender absent or an enum value, the confirmation equal to the password, no other key |
| AuthValidation.SignUpExtendsLogin | server/src/modules/auth/auth.validation.js:15-22 | a body signUp accepts passes login's key checks |
| AuthValidation.ConfirmEmailConforms | server/src/modules/auth/auth.validation.js:24-32 | confirmEmail: a valid email and a six-digit code, nothing else |
| AuthValidation.ForgetPasswordConforms | server/src/modules/auth/auth.validation.js:38-44 | forgetPassword: a valid email, nothing else |
| AuthValidation.VerifyForgetPasswordConforms | server/src/modules/auth/auth.validation.js:47-51 | verifyForgetPassword: a valid email and a six-digit code, nothing else |
| AuthValidation.ReSetPasswordConforms | server/src/modules/auth/auth.validation.js:53-57 | reSetPassword: that and a valid new password, nothing else |
| AuthValidation.LogOutAccepts | server/src/modules/auth/auth.validation.js:60-64 | logOut: no body, or an object with at most a known flag |
| AuthValidation.ChangePasswordConforms | server/src/modules/auth/auth.validation.js:67-73 | changePassword: a known flag if any, two valid passwords that differ, a confirmation equal to the new one if given, nothing else |
| AuthValidation.MissingFlagActsAsDefault | server/src/modules/auth/auth.validation.js:60-64 | the default flag never reaches the handlers, which treat a missing flag as `stayLoggedIn` |
| UsersValidation.ParamsAccepts | server/src/modules/users/users.validation.js:5-9 | a params-only schema accepts exactly params that conform |
| UsersValidation.UserIdParams | server/src/modules/users/users.validation.js:20-30 | shareProfile and restoreAccount need exactly a valid `userId`; freezAccount allows it to be absent |
| UsersValidation.UpdateBasicInfoFieldsOk | server/src/modules/users/users.validation.js:11-18 | each of the four keys is absent or valid |
| UsersValidation.UpdateBasicInfoConforms | server/src/modules/users/users.validation.js:11-18 | updateBasicInfo: any of the four keys, each valid when present, no other |
| UsersValidation.FileNameFieldOk | server/src/modules/users/users.validation.js:36 | the file names the upload field the route expects |
| UsersValidation.FileTypeFieldOk | server/src/modules/users/users.validation.js:39 | the file is a JPEG, PNG or TIFF image |
| UsersValidation.FileSizeFieldOk | server/src/modules/users/users.validation.js:44 | the file's size is a positive number |
| UsersValidation.FileFieldNames | server/src/modules/users/users.validation.js:36-44 | the eight keys of a file object |
| UsersValidation.FileConforms | server/src/modules/users/users.validation.js:33-47 | an accepted file names the expected field, has an image type and a positive size, and no other key |
| UsersValidation.ProfileCoverAccepts | server/src/modules/users/users.validation.js:50-64 | uploadProfileCover: one or two files, each a conforming `images` upload |
| UsersValidation.SearchTextFieldOk | server/src/modules/users/users.validation.js:71-76 | the query is a string whose trimmed text matches `^[\w\s@.]+$` with 1 to 50 characters |
| UsersValidation.PageFieldOk | server/src/modules/users/users.validation.js:77 | page is absent or a value joi converts to a whole number of at least 1; for text, exactly the numerals (sign, whitespace, vanishing fraction and exponent allowed) with such a value |
| UsersValidation.LimitFieldOk | server/src/modules/users/users.validation.js:78 | limit is absent or a value joi converts to a whole number from 1 to 50; for text, exactly the numerals with such a value |
| UsersValidation.ValidatedSearchMeetsHandler | server/src/modules/users/users.validation.js:69-80 | a validated query string reaches the handler unchanged, with a non-empty query and page and limit texts that are absent or numerals of a page at least 1 and a limit from 1 to 50 |
| UsersValidation.QueryText | server/src/middleware/validation.middleware.js:61-66 | the handler reads the text under a key exactly as sent: the middleware validates a copy and never writes the converted values back |
| MessagesValidation.IdParamConforms | server/src/modules/messages/messages.validation.js:6-8 | the path holds exactly one valid ObjectId |
| MessagesValidation.ContentPartConforms | server/src/modules/messages/messages.validation.js:10-12 | the body is absent or an object with at most a 5 to 20000 character content |
| MessagesValidation.SendMessageAccepts | server/src/modules/messages/messages.validation.js:5-26 | sendMessage: a valid `reciverId`, an optional content, an optional image file |
| MessagesValidation.ReplyMessageAccepts | server/src/modules/messages/messages.validation.js:28-34 | replyMessage: the same body and file and a valid `messageId` |
| MessagesValidation.ValidatedContentFitsModel | server/src/modules/messages/messages.validation.js:11 | validated content meets the message schema's length bounds |
| PasswordStrength.Tested | src/components/auth/PasswordStrengthIndicator.tsx:44-46 | four requirements, each with `met` set to its own test of the password |
| PasswordStrength.MetCount | src/components/auth/PasswordStrengthIndicator.tsx:48 | at most the number of requirements |
| PasswordStrength.Evaluate | src/components/auth/PasswordStrengthIndicator.tsx:128-171 | the hook's loop computes the meter's specification |
| PasswordStrength.MetIsSumOfTests | src/components/auth/PasswordStrengthIndicator.tsx:16-48 | the count is one per passing test |
| PasswordStrength.ScoreCountsRequirements | src/components/auth/PasswordStrengthIndicator.tsx:48-49 | the score is 25 per requirement met, one of 0, 25, 50, 75, 100, and each item's `met` is its test |
| PasswordStrength.ValidIffFullScore | src/components/auth/PasswordStrengthIndicator.tsx:50 | valid exactly when all four tests pass, exactly when the score is 100 |
| PasswordStrength.ZeroScoreNeedsWhitespace | src/components/auth/PasswordStrengthIndicator.tsx:20-38 | a score of 0 means every test fails, which needs whitespace |
| PasswordStrength.EmptyPasswordIsWeak | src/components/auth/PasswordStrengthIndicator.tsx:30-33 | the empty password meets "No spaces" and shows 25, Weak |
| PasswordStrength.TextAndColorFollowMet | src/components/auth/PasswordStrengthIndicator.tsx:59-73 | each number of requirements met has its own label and colour, and "Strong" exactly when valid |
| PasswordStrength.FewCapitalsNotStrong | src/components/auth/PasswordStrengthIndicator.tsx:26 | fewer than two capitals keep the meter below Strong |
| PasswordStrength.ServerPasswordMeterRejects | server/src/middleware/validation.middleware.js:36 | a password the server accepts can show as not valid |
| PasswordStrength.StrongPasswordServerRejects | src/components/auth/PasswordStrengthIndicator.tsx:20-38 | a password the meter calls Strong can be refused by the server, which wants a digit |
| OtpInput.LastDigit | client/src/components/auth/OTPInput.tsx:34 | at most one digit, empty exactly when the input has none, taken from the input |
| OtpInput.LastDigitIsLastOfDigits | client/src/components/auth/OTPInput.tsx:34 | removing the non-digits and keeping the last character gives the last digit |
| OtpInput.Spread | client/src/components/auth/OTPInput.tsx:36-37 | the array grows to hold the assigned slot |
| OtpInput.AssignedInside | client/src/components/auth/OTPInput.tsx:36-38 | inside the string the piece replaces one character |
| OtpInput.AssignedPastEnd | client/src/components/auth/OTPInput.tsx:36-38 | past the end the holes vanish and the piece is appended |
| OtpInput.SetSlot | client/src/components/auth/OTPInput.tsx:36-38 | split, assign and join on an array give the assigned string |
| OtpInput.AssignedDigits | client/src/components/auth/OTPInput.tsx:32-38 | assigning a digit to a digit string keeps it digits and grows it by at most one |
| OtpInput.HandlersKeepSettled | client/src/components/auth/OTPInput.tsx:32-93 | every handler keeps the value digits, at most `length` long, and the focus on a box |
| OtpInput.CompletedCodesAreOtps | client/src/components/auth/OTPInput.tsx:49-51 | with six boxes, every completed code is six digits, as the server's OTP rule wants |
| OtpInput.TypingReplacesOneSlot | client/src/components/auth/OTPInput.tsx:32-46 | a typed digit replaces the digit in its box and leaves the others |
| OtpInput.TypingPastEndAppends | client/src/components/auth/OTPInput.tsx:36-38 | a digit typed past the end of the string lands in the first empty box |
| OtpInput.ClearingShiftsLeft | client/src/components/auth/OTPInput.tsx:60-65 | a change without a digit acts as Backspace, removing the character and shifting the later digits left |
| OtpInput.BackspaceOnEmptyBoxMovesLeft | client/src/components/auth/OTPInput.tsx:55-59 | Backspace on an empty box moves the focus left and changes nothing else |
| OtpInput.ArrowKeysStayInRange | client/src/components/auth/OTPInput.tsx:66-72 | the arrow keys move the focus by one box and never off the row |
| OtpInput.PasteCompleteIff | client/src/components/auth/OTPInput.tsx:79-93 | a paste completes the code exactly when the text holds at least `length` digits |
| OtpInput.OtpBoxes.constructor | client/src/components/auth/OTPInput.tsx:16-24 | the first box has the focus and nothing was completed |
| OtpInput.OtpBoxes.HandleChange | client/src/components/auth/OTPInput.tsx:32-52 | the new state is ChangeStep's |
| OtpInput.OtpBoxes.HandleKeyDown | client/src/components/auth/OTPInput.tsx:54-73 | the new state is KeyDownStep's |
| OtpInput.OtpBoxes.HandleFocus | client/src/components/auth/OTPInput.tsx:75-77 | the new state is FocusStep's |
| OtpInput.OtpBoxes.HandlePaste | client/src/components/auth/OTPInput.tsx:79-93 | the new state is PasteStep's |
| ClientTypes.Opposite | client/src/store/slices/themeSlice.ts:30 | the other scheme |
| ClientTypes.MessageOr | client/src/store/slices/authSlice.ts:70 | a non-empty message is kept, a missing or empty one gives way to the fallback |
| ClientAuthSlice.ReducersWriteOnlyTheirFields | client/src/store/slices/authSlice.ts:19-132 | no reducer touches a field outside its write set |
| ClientAuthSlice.LogoutResets | client/src/store/slices/authSlice.ts:111-119 | logout returns to the initial state |
| ClientAuthSlice.ClearCredentialsIsLogoutButLoading | client/src/store/slices/authSlice.ts:31-37 | clearCredentials is a logout that leaves the loading flag |
| ClientAuthSlice.SignupNeverAuthenticates | client/src/store/slices/authSlice.ts:74-89 | no run of sign-up outcomes stores a token, changes the account or signs anyone in |
| ClientAuthSlice.RejectionsReportAndSignOut | client/src/store/slices/authSlice.ts:68-89 | a rejected login or sign-up leaves a non-empty error and signs out, keeping tokens and account |
| ClientAuthSlice.SessionsKeepTokens | client/src/store/slices/authSlice.ts:19-132 | every action but a fetched account keeps "signed in implies both tokens" |
| ClientAuthSlice.SignedInWithoutTokensOrAccount | client/src/store/slices/authSlice.ts:59-67 | a fetched account signs in without tokens, and a login signs in before any account is known |
| ClientAuthSlice.AuthStore.constructor | client/src/store/slices/authSlice.ts:6-13 | the initial state |
| ClientAuthSlice.AuthStore.Dispatch | client/src/store/slices/authSlice.ts:19-132 | the new state is Reduce's |
| RootAuthSlice.ReducersWriteOnlyTheirFields | src/store/slices/authSlice.ts:18-106 | no reducer touches a field outside its write set |
| RootAuthSlice.LogoutResets | src/store/slices/authSlice.ts:27-32 | logout returns to the initial state; clearCredentials too, but for the loading flag |
| RootAuthSlice.SignupActsAsLogin | src/store/slices/authSlice.ts:67-84 | with the sign-up matchers keyed to a declared endpoint, sign-up outcomes act as the login's, apart from the fallback error text |
| RootAuthSlice.MissingEndpoint | src/store/slices/authSlice.ts:47-107 | the first matcher naming an endpoint the API slice does not declare, none exactly when every matcher's endpoint exists |
| RootAuthSlice.StartStore | src/store/index.ts:22-27 | the store starts, in the initial state, exactly when every matcher names a declared endpoint |
| RootAuthSlice.StoreNeverStartsAsWritten | src/store/slices/authSlice.ts:69-84 | as written: the API slice (src/store/api/apiSlice.ts:34-129) has no `signup`, the second matcher fails, and the store never starts |
| RootAuthSlice.IntendedStoreStarts | src/store/slices/authSlice.ts:67-84 | with the sign-up matchers keyed to `register`, the store starts signed out |
| RootAuthSlice.SessionsKeepAccount | src/store/slices/authSlice.ts:18-106 | every action keeps "signed in implies an account" |
| RootAuthSlice.SignedInWithoutToken | src/store/slices/authSlice.ts:98-101 | a fetched account signs in without a token |
| RootAuthSlice.AuthStore.constructor | src/store/slices/authSlice.ts:6-12 | the initial state |
| RootAuthSlice.AuthStore.Dispatch | src/store/slices/authSlice.ts:18-106 | the new state is Reduce's |
| ThemeSlice.ToggleFlipsShown | client/src/store/slices/themeSlice.ts:23-32 | toggling flips the scheme on screen, leaves an explicit choice and keeps the system scheme |
| ThemeSlice.ToggleTwice | client/src/store/slices/themeSlice.ts:23-32 | toggling twice restores an explicit choice and turns "system" into the system's scheme |
| ThemeSlice.SettersAssignOneField | client/src/store/slices/themeSlice.ts:15-21 | each setter assigns its own field; a new system scheme shows only while following the system |
| ThemeSlice.ThemeStore.constructor | client/src/store/slices/themeSlice.ts:5-8 | the initial state |
| ThemeSlice.ThemeStore.Dispatch | client/src/store/slices/themeSlice.ts:14-32 | the new state is Reduce's |
| AppSlice.ToggleSidebarTwice | src/store/slices/appSlice.ts:36-38 | toggling flips the sidebar, and twice changes nothing |
| AppSlice.AddAppendsOne | src/store/slices/appSlice.ts:45-51 | adding appends exactly one toast, with the new id and the payload's kind, title, description and duration, after the others, and touches nothing else |
| AppSlice.RemoveDropsExactlyTheId | src/store/slices/appSlice.ts:52-56 | removing keeps exactly the toasts with another id |
| AppSlice.RemoveKeepsOrder | src/store/slices/appSlice.ts:52-56 | removal works piece by piece, so the survivors keep their order, and an unknown id changes nothing |
| AppSlice.RemoveUndoesAdd | src/store/slices/appSlice.ts:45-56 | removing a freshly added toast by its new id restores the state |
| AppSlice.ClearAndActivity | src/store/slices/appSlice.ts:57-62 | clearing empties the list, recording activity stores the clock, nothing else changes |
| AppSlice.AppStore.constructor | src/store/slices/appSlice.ts:21-27 | the initial state at load time |
| AppSlice.AppStore.Dispatch | src/store/slices/appSlice.ts:33-59 | the new state is Reduce's |

## Left out

- Password hashing is a `Digest` of the plaintext and a salt, and phone encryption a `Ciphertext` holding the plaintext; bcrypt and AES themselves are not modelled.
- JWT signing and parsing: tokens are values, and the text sent in the header reaches the gate through a `decode` parameter.
- Randomness and the clock: the codes (`customAlphabet`), `jti` values (`nanoid`), salts, notification ids and `Date.now()` are parameters of the operations.
- Google ID-token verification (`OAuth2Client.verifyIdToken`) is outside the model; `GoogleStep` takes the verified payload.
- Mail sending, Cloudinary uploads and multer storage are effects outside the model: a handler returns the mail it would send, and `DeleteStep` reports whether the media would be cleaned up.
- profile, shareProfile, updateBasicInfo, uploadProfileImage and uploadProfilecover in users.service.js, and inpox and getSentMessages in messages.service.js, are not modelled as handlers: they read or overwrite profile fields and media without rules of their own. Their request schemas are modelled, and the inbox and sent lists are the `Inbox` and `SentBy` virtuals.
- The authentication middleware's wiring (server/src/middleware/authentication.middleware.js) is not part of this model; handlers receive the `Session` that `DecodedToken` returns.
- The daily job of `node-schedule` is the method `SweepExpiredTokens`; when it runs is not modelled.
- Concurrency: each request runs alone against the collections, with no interleaving between its awaits.
- JavaScript strings are sequences of UTF-16 code units; the model's characters stand for them one to one, and `\s` is the ECMAScript white-space set written out in `Text.IsSpace`.
- `regex` search in searchForUser is a `matches` parameter; the regular expression the query builds is not modelled.
- The userName setter and getter work on values (`SplitUserName`, `UserName`), not on a live document.
- The OTP input's focus calls on DOM refs and its rendering are left out; `activeIndex` is modelled.
- The React memoisation of the strength meter and the component's markup are left out; the JavaScript floating-point score is exact for 0 to 4 requirements met and is written as an integer.
- The client `AuthStore` payloads follow the shapes the reducers read (client/src/store/slices/authSlice.ts:62 reads `credentials`); whether the API actually returns those shapes is not modelled.
- RootAuthSlice.Reduce and RootAuthSlice.AuthStore.Dispatch: they model the case reducers of the slice as they would run once the store starts; as written, src/store/slices/authSlice.ts:69 names the `signup` endpoint, which the `src/` API slice does not declare, so the slice is never built (`StoreNeverStartsAsWritten`). The `Signup...` actions are those of the corrected slice, keyed to `register`.
- MessagesService.SendStep: user and message ids are abstract numbers, and SendStep compares them as ObjectIds, the intended self check; the written comparison of the path text with the id's lower-case text is modelled apart (`SelfCheckAsWritten`, `UpperCaseOwnIdPassesSelfCheck`).
- OtpInput.LastDigit: its own contract says what the result may be; that it is the last digit of the input is proved in `LastDigitIsLastOfDigits`.
- AuthProperties.ResendsAccumulate: stated for runs of requests at one instant that stay within the five-code limit; what happens at the limit is `ResendBlocksAtFive`.
- GeneralFields.IsEmail: joi checks the top-level domain against the IANA list and accepts Unicode (internationalised) domain names; the model's domain rule stands in for that list and works on the characters as given.
- UsersService.SearchForUser: requires that `parseInt` reads a number from the limit text; an accepted limit such as `.5e2` makes `parseInt` return NaN, and what the database does with `.limit(NaN)` is not modelled.
- Numerals.ParseIntPrefix: the `0x` prefix that `parseInt` reads as hexadecimal is not modelled; no numeral joi accepts contains an `x`.
- Numerals.JoiInteger: joi's `number.unsafe` test on the written digits is not modelled. For whole values in the safe range it only refuses zero written as `.0`, `.00` and so on, which `min(1)` refuses as well.
- AuthService.SignUpStep: a failed `create` answers 400 "User validation failed"; Mongoose's message goes on with each failing path and its validator's message, in an order set by Mongoose's internal bookkeeping of set and required paths, and that list is not modelled.
- AuthService.GoogleStep: the same "User validation failed" text stands for Mongoose's message with its list of failing paths (for a one-word Google name, the required `lastName`).
- AuthService.RefreshStep: a revocation insert that fails (here also in ChangePasswordStep and LogOutStep) answers 400 with `Tokens.RevokeFailure`: Mongoose's required-path message for a token without `jti`, and the text "E11000 duplicate key error" for a duplicate; MongoDB's full duplicate-key message, which names the collection, index and key, is not modelled.
- MessagesService.Create: the content is quoted into Mongoose's message as given; any rewriting of `$` sequences by JavaScript's `replace` is not modelled.
- Schema.IsPositiveNumber: joi also refuses, as `number.unsafe`, fractional text with more digits than a double keeps; the model accepts such text when its value is positive.

## Findings

| source | as written | input that shows it | evidently intended | confidence | as-written member | corrected member |
|---|---|---|---|---|---|---|
| server/src/utils/security/token.security.js:123 | a revocation record expires 31536000 s (365 days) after `iat`, while the refresh token it revokes lives `"1y"` = 365.25 days (line 109) | a refresh token revoked at `iat` = 0 and presented at 31536001 s, after the daily sweep | the record outlives the token it revokes | not executed | Tokens.SweepRevivesRevokedRefreshTokenAsWritten | Tokens.SweepKeepsLiveRevocations |
| server/src/modules/users/users.service.js:223-224 | the skip and `totalPages` (line 246) read `limit` with JavaScript's number conversion, but `.limit` reads it with `parseInt`; joi accepts numerals such as `1e1` and `0.5e2` and the handler sees the text as sent | `limit=1e1` with two or more matches: 10 per page for the skip and the page count, one user per response | one number for the limit throughout | not executed | UsersService.ExponentLimitShrinksPages | UsersService.IntendedSearchCoversAllMatches |
| src/store/slices/authSlice.ts:69-84 | the sign-up matchers read `apiSlice.endpoints.signup`, but the `src/` API slice declares `register` and no `signup`, so reading `.matchPending` throws when the reducer is built | creating the store in src/store/index.ts:22-27 | the sign-up matchers keyed to `register`, so that a registration signs in as a login does | not executed | RootAuthSlice.StoreNeverStartsAsWritten | RootAuthSlice.IntendedStoreStarts |
| server/src/modules/messages/messages.service.js:17 | `reciverId == req.user?._id` compares the path text with the id's lower-case hex text, while the lookup at lines 22-30 casts the text case-insensitively | `POST /<own id in upper-case hex>/user`: a valid ObjectId that passes the self check and finds the sender as recipient, so a message to oneself is stored | refuse every spelling of one's own id | not executed | MessagesService.UpperCaseOwnIdPassesSelfCheck | MessagesService.IntendedSelfCheckRefusesEverySpelling |
