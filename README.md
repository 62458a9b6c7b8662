# Account service core, modelled in Dafny

This project models the core of a Go account service built on MongoDB. It has five parts.

- **Document store.** `repository/instance.go` is one reflective CRUD engine over a collection. Here it is the class `Repository.Instance`, holding the collection as a `seq` of documents (`map<Key, Value>`) and the next ObjectID the driver would generate.
  - A filter or a `$set` is the record's non-zero persisted fields. `omitempty` drops zero fields.
  - `created_time` is stamped only when absent, and `last_updated_time` on every update.
  - A miss in `QueryOne` or `UpdateOne` is an error. `DeleteOne` removes the first match, or nothing.
- **Account store.** `repository/auth.storage.go` is the class `AccountStore.AuthStorage`: user-shaped pass-throughs over an `Instance` bound to the collection `auth`.
- **Account flows.** `service/auth/auth.service.go` is the class `Auth.AuthService`: sign-up, login, token refresh, Google login, profile read and update, password reset and logout. Each flow is a read-check-write sequence over the store. Password hashing, JWT issue and validation, account-id generation and the Google profile are values handed in (module `Oracles`).
- **Bearer header.** `middleware/auth.middleware.go` holds the parsing of `Authorization: Bearer <token>` (section 2.1 of RFC 6750) and the guard that admits a request only when the token validates.
- **The record.** `model/user.model.go` is the `User` record, its bson keys and its `omitempty`, `bson:"-"` and `json:"-"` tags (module `UserModel`).

Module `Mongo` gives the database semantics the engine relies on:
- filters as conjunctions of field equalities plus the operands of a top-level `$and`;
- natural order;
- first-match updates and deletes;
- ordered inserts that assign fresh ObjectIDs;
- `$set`.

Module `Scenarios` runs client sequences over a store bound to an empty collection, as in a fresh database. It shows what a caller observes across several flows.

Two flows do less than their own comments say, and the model follows the code.
- **Refresh.** RefreshToken stores the new refresh token on the user (the comment at service/auth/auth.service.go:110). It never compares the presented token with the stored one, so storing revokes nothing: an old refresh token keeps working until it expires (`Scenarios.RefreshTokenReuse`).
- **Logout.** The comment at service/auth/auth.service.go:233 says logout revokes the user's refresh token. The code deletes the whole account document found by that token (see Findings).

## Model

| member | source | states |
|---|---|---|
| `UserModel.ToDocWellFormed` | model/user.model.go:11-25 | every record encodes to a document whose stored values are non-zero and of their field's bson type |
| `UserModel.ToDocKeys` | model/user.model.go:12-25 | a field is in the stored document exactly when it is non-zero: non-empty string, non-nil pointer, non-zero ObjectID or time; a pointer to "" for bio is kept |
| `UserModel.DecodeEncode` | model/user.model.go:11-32 | decoding the encoding of a record gives the record with its zero pointers nil and its unstored fields (access token, complex query) cleared |
| `UserModel.EncodeDecode` | model/user.model.go:11-25 | encoding the decoding of a well-formed stored document gives the document back |
| `UserModel.AccessTokenNotPersisted` | model/user.model.go:28 | the access token never changes the stored document and is never read back from one |
| `UserModel.EmptyUserEncodesEmpty` | model/user.model.go:11-25 | the all-zero record encodes to the empty document, the filter that matches everything |
| `UserModel.JsonHidesSecrets` | model/user.model.go:12-31 | the JSON output does not depend on ID, HashedPassword, RefreshToken or ComplexQuery |
| `Mongo.FirstMatch` | repository/instance.go:292-296 | the index of the first document the filter matches, with no match before it; none exactly when no document matches |
| `Mongo.Select` | repository/instance.go:241 | the documents Find returns before skip and limit: only matching documents of the collection, and every matching document |
| `Mongo.Page` | repository/instance.go:221-230 | the skip-then-limit window: at most limit documents, exactly the documents from position skip onward |
| `Mongo.DeleteFirst` | repository/instance.go:343 | with no match the collection is unchanged; otherwise it loses exactly one document and keeps every non-matching one |
| `Mongo.SetFields` | repository/instance.go:203 | `$set` overwrites the updater's fields and keeps every other field of the document |
| `Mongo.InsertSeq` | repository/instance.go:166 | ordered inserts stop at the first duplicate key; what came before stays, each inserted document carrying its own or a fresh id |
| `Mongo.InsertBatch` | repository/instance.go:166 | InsertMany refuses an empty batch and changes nothing |
| `Mongo.SelectCount` | repository/instance.go:323 | Find selects exactly one document per matching position, so its length is the count CountDocuments gives |
| `Mongo.FirstMatchOfMatchAll` | repository/instance.go:45-47 | the empty filter finds the first document of a non-empty collection |
| `Mongo.InsertDocKeepsInvariant` | repository/instance.go:125 | an insert keeps the ids distinct and the documents well-formed; it appends one document with a fresh or its own id, or fails with a duplicate key and changes nothing |
| `Mongo.InsertSeqKeepsInvariant` | repository/instance.go:166 | ordered inserts of well-formed documents keep the store invariant |
| `Mongo.IdFilterFindsIt` | repository/instance.go:292 | a filter on a stored document's _id finds that document first |
| `Mongo.SetKeepsInvariant` | repository/instance.go:203 | a well-formed `$set` that keeps the _id keeps the store invariant |
| `Mongo.DeleteKeepsInvariant` | repository/instance.go:343 | deleting the first match keeps the store invariant |
| `Repository.ConvertToBson` | repository/instance.go:44-58 | nil converts to `{}`; a record converts to its non-zero fields and its `$and` operands; anything else fails to marshal |
| `Repository.ConvertToObject` | repository/instance.go:60-74 | decoding a well-formed document gives a record that encodes back to it, with no access token or complex query |
| `Repository.ConvertRoundTrip` | repository/instance.go:44-74 | converting an entity to bson and back gives its stored form |
| `Repository.StampCreated` | repository/instance.go:119-122 | created_time is set to now only when the document has none; an existing one is kept |
| `Repository.ConvertAll` | repository/instance.go:153-164 | a batch converts only when every item converts; each item is stamped with the batch's single timestamp when it has no created_time |
| `Repository.UpdateDoc` | repository/instance.go:182-186 | the `$set` document always carries last_updated_time = now and is well-formed |
| `Repository.UpdateTarget` | repository/instance.go:203-210 | the update hits the first match; no match is "no documents", and a `$set` that changes the _id is refused |
| `Repository.EffectiveLimit` | repository/instance.go:222-227 | a positive limit is kept; zero or negative becomes 1000 |
| `Repository.QueryPageBounds` | repository/instance.go:221-254 | Query returns at most the effective limit, never an empty list, only decodings of matching documents, and nil exactly when the window is empty |
| `Repository.NewList` | repository/instance.go:39-42 | allocating the result list panics exactly when the capacity is negative or its pointer array exceeds the runtime's largest allocation; otherwise the list is empty |
| `Repository.SelectMatchAll` | repository/instance.go:263 | the empty filter selects the whole collection in order |
| `Repository.CreateInsert` | repository/instance.go:107-137 | Create fails with a duplicate key exactly when the record carries a taken _id; otherwise it appends one document decoding to the stored record, stamped, with its own or the next id |
| `Repository.CreatedRecord` | repository/instance.go:130-137 | the record Create returns is the stored form of the input with created_time and the inserted _id |
| `Repository.Instance.constructor` | repository/instance.go:15-22 | a new Instance for a collection name is unbound (nil collection), so it holds no documents |
| `Repository.Instance.ApplyDatabase` | repository/instance.go:24-30 | binding a database sets the database name and binds the collection as it stands in that database: its existing documents and the driver's next id |
| `Repository.Instance.InterfaceSlice` | repository/instance.go:76-89 | a slice is copied element by element; any other value is "given a non-slice type" |
| `Repository.Instance.Create` | repository/instance.go:107-138 | unbound or unmarshalable input fails with nothing written; otherwise the collection becomes the insert of the stamped document and the result is the one-element list of the inserted record |
| `Repository.Instance.CreateMany` | repository/instance.go:141-172 | unbound, non-slice or any unconvertible item fails with nothing inserted; otherwise one ordered insert of the stamped batch, returning the inserted ids |
| `Repository.Instance.ConvertBatch` | repository/instance.go:153-164 | the conversion loop computes exactly ConvertAll of the items |
| `Repository.Instance.UpdateOne` | repository/instance.go:175-213 | on the first match only the updater's non-zero fields and last_updated_time are set and every other document is unchanged; by default the post-update document is returned; a miss writes nothing and fails |
| `Repository.Instance.QueryAsWritten` | repository/instance.go:216-255 | as written, Query panics exactly when the collection is bound, the filter converts and the raw limit is negative or past the allocation bound (2^45 pointers); otherwise it returns the defaulted page |
| `Repository.Instance.Query` | repository/instance.go:216-255 | limit defaulted to 1000 for Find and for the list, skip only for a positive offset, at most limit documents, nil with no error when the window is empty; it panics only for a limit past the allocation bound |
| `Repository.Instance.QueryAll` | repository/instance.go:258-276 | every document decoded in order, nil for an empty collection |
| `Repository.Instance.QueryOne` | repository/instance.go:279-299 | the first matching document, or "document is not existed" |
| `Repository.Instance.Count` | repository/instance.go:311-329 | the number of positions in the collection whose document matches the filter |
| `Repository.Instance.DeleteOne` | repository/instance.go:331-349 | the first match is removed and success is reported even when nothing matched |
| `Repository.Instance.UnsetOne` | repository/auth.storage.go:98-102 | the corrected revocation's write: on the first match the field is removed and last_updated_time set, nothing else changes; a miss fails and writes nothing |
| `AccountStore.Lookup` | repository/instance.go:279-299 | a lookup fails exactly when no document matches; otherwise it returns the decoding of the first matching document |
| `AccountStore.EmailQueryFilter` | repository/auth.storage.go:65-68 | the e-mail query converts to the equality on email, or to `{}` when the e-mail is empty |
| `AccountStore.IdQueryFilter` | repository/auth.storage.go:76-79 | the id query converts to the equality on user_id, or to `{}` when the id is empty |
| `AccountStore.TokenQueryFilter` | repository/auth.storage.go:98-101 | the token query converts to the equality on refresh_token, or to `{}` when the token is empty |
| `AccountStore.EqualityMatches` | model/user.model.go:16-23 | an equality on an omitempty string field matches a stored user holding the value, and everyone when the value is empty |
| `AccountStore.LookupByField` | repository/auth.storage.go:65-85 | a one-field lookup finds a user holding the value; with "" it returns the first user of the collection |
| `AccountStore.LookupByEmail` | repository/auth.storage.go:65-74 | GetUserByEmail succeeds iff some user has the e-mail, returning one with it; an empty e-mail returns the first user |
| `AccountStore.LookupById` | repository/auth.storage.go:76-85 | GetUserByID succeeds iff some user has the account id, returning one with it; an empty id returns the first user |
| `AccountStore.UsernameOrEmailMatches` | repository/auth.storage.go:46-57 | the `$and:[{$or:[…]}]` query matches a stored user iff its username or its e-mail is equal and non-empty |
| `AccountStore.LookupByUsernameOrEmail` | repository/auth.storage.go:46-63 | GetUserByUsernameOrEmail succeeds iff some stored user has the username or the e-mail |
| `AccountStore.PasswordUpdateWrites` | repository/auth.storage.go:87-90 | the password updater sets hashed_password (when non-empty) and last_updated_time, nothing else |
| `AccountStore.DeleteFirstRemovesIt` | repository/instance.go:343 | the delete takes out exactly the first matching document, whole |
| `AccountStore.DeleteTokenRemoves` | repository/auth.storage.go:98-102 | DeleteToken removes one whole document holding the token, and the first document of the collection when the token is empty |
| `AccountStore.AuthStorage.constructor` | repository/auth.storage.go:14-26 | the store is an Instance named "auth", bound to the database's existing "auth" collection and its next id |
| `AccountStore.AuthStorage.CreateUser` | repository/auth.storage.go:28-35 | the collection becomes the insert of the stamped record and the result is the stored user with its new _id |
| `AccountStore.AuthStorage.UpdateUser` | repository/auth.storage.go:37-44 | UpdateOne with default options: the first match gets the updater's fields and the updated record is returned; a miss changes nothing |
| `AccountStore.AuthStorage.GetUserByUsernameOrEmail` | repository/auth.storage.go:46-63 | the answer is the `$or` lookup on the current collection |
| `AccountStore.AuthStorage.GetUserByEmail` | repository/auth.storage.go:65-74 | the answer is the e-mail lookup on the current collection |
| `AccountStore.AuthStorage.GetUserByID` | repository/auth.storage.go:76-85 | the answer is the account-id lookup on the current collection |
| `AccountStore.AuthStorage.UpdateUserPassword` | repository/auth.storage.go:87-96 | only hashed_password and last_updated_time are set on the matched user |
| `AccountStore.AuthStorage.DeleteToken` | repository/auth.storage.go:98-102 | always succeeds and removes the first document whose refresh_token equals the argument |
| `AccountStore.AuthStorage.RevokeToken` | repository/auth.storage.go:98-102 | the corrected revocation: the matched user's refresh_token is removed and the user kept |
| `Auth.ToLower` | service/auth/auth.service.go:135 | same length, each ASCII capital lowered, every other character kept |
| `Auth.ToLowerIdempotent` | service/auth/auth.service.go:135 | lower-casing twice is lower-casing once and leaves no ASCII capital |
| `Auth.ProfilePatchWrites` | service/auth/auth.service.go:178-191 | the profile update writes email and username when non-empty, bio when non-nil and non-empty, avatar when non-zero, and last_updated_time, nothing else |
| `Auth.WithRefreshTokenDoc` | service/auth/auth.service.go:79 | a stored record with a new refresh token encodes to the document with that one field replaced, or removed when empty |
| `Auth.ResaveWritesOnlyToken` | service/auth/auth.service.go:73-81 | writing back the found record with both tokens has the same effect as writing only the refresh token |
| `Auth.RefreshTokenUpdateDoc` | service/auth/auth.service.go:113-115 | the refresh-token updater encodes to the token alone, or to nothing when empty |
| `Auth.RefreshTarget` | service/auth/auth.service.go:111-115 | the refresh write hits the first user with the token's subject as account id |
| `Auth.RefreshTokenWrite` | service/auth/auth.service.go:110-115 | the refresh write stores the token and changes no field but last_updated_time |
| `Auth.PasswordWriteKeepsProfile` | service/auth/auth.service.go:217-219 | the password write stores the new hash and leaves every other field of the user but last_updated_time |
| `Auth.ByObjectIdFindsIt` | service/auth/auth.service.go:192-194 | the query by a stored user's ObjectID finds that user |
| `Auth.UpdateByIdHits` | service/auth/auth.service.go:81 | an update by a stored user's ObjectID targets that user |
| `Auth.ResaveTarget` | service/auth/auth.service.go:81 | Login's write-back targets the user's own document and writes only the refresh token |
| `Auth.PatchHasNoId` | service/auth/auth.service.go:178-191 | a profile update never carries an _id |
| `Auth.FreshAccount` | service/auth/auth.service.go:40-50 | creating a new account always succeeds and appends one document decoding to the record with the next ObjectID and created_time now |
| `Auth.TokenHolderFound` | service/auth/auth.service.go:234 | the token query finds the holder of a token some user holds, and the first document when the token is empty |
| `Auth.LogoutDeletesDocument` | service/auth/auth.service.go:227-235 | a successful Logout deletes one whole document holding the user's token, the first of all when that token is empty |
| `Auth.LogoutDeletesAnotherUser` | service/auth/auth.service.go:227-235 | Logout of a user without a refresh token deletes the other user and keeps the caller |
| `Auth.RevokeKeepsEveryUser` | service/auth/auth.service.go:227-235 | the corrected logout keeps every document, changes only the user's own, and removes its refresh_token |
| `Auth.RevokeKeepsAnotherUser` | service/auth/auth.service.go:227-235 | on the same collection the corrected logout keeps both users |
| `Auth.AuthService.constructor` | service/auth/auth.service.go:22-27 | the service holds the given store and collaborators |
| `Auth.AuthService.SignUp` | service/auth/auth.service.go:29-57 | a taken username or e-mail gives "username or email is existed" with nothing written; otherwise one ACTIVE USER account with the hashed password and generated id is inserted and returned |
| `Auth.AuthService.Login` | service/auth/auth.service.go:59-87 | unknown e-mail or wrong password fails with no write; on success the user's refresh_token becomes the issued refresh token, nothing else but last_updated_time changes, and the access token is returned unstored |
| `Auth.AuthService.RefreshToken` | service/auth/auth.service.go:89-121 | an invalid token or unknown subject fails with no write; otherwise a new pair is returned and the new refresh token stored on that user; the stored token is never compared |
| `Auth.AuthService.LoginWithGoogle` | service/auth/auth.service.go:123-161 | the lower-cased e-mail is looked up; only a miss creates a GOOGLE USER account with the provider id; an existing user is untouched; only an access token is issued |
| `Auth.AuthService.GetUserProfileByID` | service/auth/auth.service.go:163-170 | the answer is the account-id lookup |
| `Auth.AuthService.UpdateUserProfile` | service/auth/auth.service.go:172-200 | a missing user fails with no write; otherwise the patch is `$set` on that user's own document and the updated record returned |
| `Auth.AuthService.ResetPassword` | service/auth/auth.service.go:202-225 | a missing user or wrong current password fails with no write; otherwise only the hash of the new password is stored |
| `Auth.AuthService.Logout` | service/auth/auth.service.go:227-235 | a missing user fails with no write; otherwise the first document holding the user's stored refresh token is deleted |
| `Auth.AuthService.LogoutRevoking` | service/auth/auth.service.go:227-235 | the corrected logout: the user's refresh_token is cleared and every account kept |
| `Middleware.Split` | middleware/auth.middleware.go:32 | strings.Split on one character gives at least one piece and no piece holds the separator |
| `Middleware.JoinSplit` | middleware/auth.middleware.go:32 | joining the pieces gives the header back |
| `Middleware.SplitJoin` | middleware/auth.middleware.go:32 | splitting a join of separator-free pieces gives the pieces back |
| `Middleware.TrimLeft` | middleware/auth.middleware.go:33 | removes exactly the leading white space |
| `Middleware.TrimRight` | middleware/auth.middleware.go:33 | removes exactly the trailing white space |
| `Middleware.TrimSpaceEmpty` | middleware/auth.middleware.go:33 | TrimSpace leaves nothing exactly when every character is white space |
| `Middleware.ExtractTokenFromHeader` | middleware/auth.middleware.go:31-38 | every refusal is "missing access token" |
| `Middleware.ExtractSound` | middleware/auth.middleware.go:31-38 | an accepted header is "Bearer ", then a token with no space and some non-white character, then nothing or a space; the token is returned untrimmed |
| `Middleware.ExtractComplete` | middleware/auth.middleware.go:31-38 | every header of that shape is accepted with exactly that token, whatever follows it |
| `Middleware.SchemeIsCaseSensitive` | middleware/auth.middleware.go:33 | "bearer tok" is refused |
| `Middleware.DoubleSpaceRejected` | middleware/auth.middleware.go:32-33 | "Bearer  tok" is refused because the second piece is empty |
| `Middleware.ExtraPartsIgnored` | middleware/auth.middleware.go:37 | "Bearer tok extra" gives "tok" |
| `Middleware.SchemeAloneRejected` | middleware/auth.middleware.go:33 | "Bearer" alone is refused |
| `Middleware.AuthMiddleware` | middleware/auth.middleware.go:13-29 | the next handler runs only when extraction and validation succeed, and then the context's "userId" is the token subject; otherwise 401 with the context unchanged |
| `Scenarios.SignUpTwice` | service/auth/auth.service.go:29-57 | a second sign-up with a taken e-mail is refused, whatever the username |
| `Scenarios.SignUpThenLogin` | service/auth/auth.service.go:59-87 | after sign-up, login with the same password returns the issued access token and the stored refresh token is the issued one |
| `Scenarios.RefreshKeepsUserId` | service/auth/auth.service.go:111-115 | the refresh write keeps the account id |
| `Scenarios.RefreshTokenReuse` | service/auth/auth.service.go:89-121 | a refresh token used once can be presented again with the same result |
| `Scenarios.GoogleLoginTwice` | service/auth/auth.service.go:134-160 | two Google logins with one profile create the account once and issue the same access token |
| `Scenarios.SecondUserLogout` | service/auth/auth.service.go:227-235 | logout of a second user holding no refresh token leaves only that user |
| `Scenarios.SecondUserRevoke` | service/auth/auth.service.go:227-235 | the corrected logout of the second user keeps the first user's document and the second user's id |
| `Scenarios.GoogleLogoutDeletesOtherAccount` | service/auth/auth.service.go:227-235 | after a password sign-up and a Google sign-up, the Google user's logout leaves only the Google user |
| `Scenarios.GoogleLogoutRevokingKeepsBoth` | service/auth/auth.service.go:227-235 | with the corrected logout both accounts remain |
| `Scenarios.MiddlewareAdmitsLoginToken` | middleware/auth.middleware.go:13-29 | the access token Login returns admits its request until it expires and the handler sees the account id, when the middleware's verification key is the service's signing key |

## Left out

- JWT signing and validation (helper/jwt.helper.go, helper/token.helper.go): validation is an oracle with the law that a token validates to its subject under its key until it expires. These files are not part of this model, and the two files declare the same names, so they cannot both be taken as written.
- Password hashing and verification, `utils.GenAccountID` and `utils.RandomString`: their code is not part of this model. They are parameters, with only the law that a hash verifies against its password.
- Google OAuth HTTP calls (helper/google-oauth.helper.go): network I/O. LoginWithGoogle takes the profile lookup's result as a parameter.
- ForgetPassword (service/auth/auth.service.go:237-258): it does not compile (a redeclared `err`, an undefined `client`, an undeclared result variable), and it sends e-mail through a service outside the repository.
- repository/auth.repository.go: an older copy of the flows, written against an Instance API that no longer exists.
- File storage and S3 (repository/file.storage.go, service/file): foreign calls plus thin Instance pass-throughs.
- HTTP routing, controllers, configuration, DTO validation and the database connection: plumbing with no state of its own.
- CreateIndex, sort order (`sortFields`) and FindOneAndUpdate options other than the returned-document choice: outside the behaviour the flows use.
- Reflection (`newObject`, `newList`, `parseSingleResult`): replaced by the concrete User record. Lists are `seq<User>`, and `newList` appears only as the capacity checks that can panic.
- Repository.Instance.QueryAsWritten and Repository.Instance.Query: the allocation bound is the one of linux/amd64 (2^48 bytes, 8-byte pointers). A smaller capacity that the machine cannot supply ends the process with a fatal out-of-memory error, which the model does not capture.
- Wall-clock time and the Asia/Ho_Chi_Minh time zone: each operation takes `now` as a parameter, and each flow uses one `now` for all its steps.
- Concurrency: the sign-up and Google create-or-fetch races are not modelled; every flow runs alone.
- Transient database failures: the model's only driver errors are the ones the data determines (duplicate key, no document, immutable _id, empty batch). So SignUp's "any lookup error counts as free" is exercised only by not-found.
- What the server does with a `$and` key in an inserted or `$set` document: writes use only the record's plain fields.
- Auth.ToLower: lowers ASCII capitals only; `strings.ToLower` also maps the rest of Unicode.
- Nil pointer arguments and the JSON response shaping in entity/*: the flows return the records and fields those responses are built from.
- Scenarios.MiddlewareAdmitsLoginToken: the service signs access tokens with `access_token_key` of config/env (service/auth/auth.service.go:69), while the middleware verifies with `access_token_public_key` of config (middleware/auth.middleware.go:21). Admission holds only when those two settings are configured to match, and the scenario assumes they are equal. main.go loads only the config package, so how config/env gets its values is not part of this model.
- Mongo.Select: its contract states bounds and membership in both directions, not the natural order, which its definition fixes.
- Mongo.DeleteFirst: its contract states the length change and which documents remain; the exact position is stated in AccountStore.DeleteFirstRemovesIt.
- Repository.Instance.ApplyDatabase: the collection's existing documents and the driver's next id are parameters. They are taken to satisfy the store invariant: well-formed User documents, distinct ids (MongoDB's unique `_id` index), each below the next id the driver generates. Documents written by other programs in another shape are not modelled.
- AccountStore.AuthStorage.constructor: binds through ApplyDatabase, so the existing "auth" collection carries the same assumption.
- Repository.Instance.UnsetOne and AccountStore.AuthStorage.RevokeToken: instance.go and auth.storage.go have no such operation. They exist only for the corrected logout.

## Findings

| source | as written | input that shows it | evidently intended | confidence | as-written member | corrected member |
|---|---|---|---|---|---|---|
| repository/instance.go:247 | the result list is allocated with the caller's raw limit rather than the defaulted one, so a negative limit reaches `reflect.MakeSlice` with a negative capacity and panics; the default at line 223 only rescues a limit of 0 | `Query(nil, 0, -1)` on a bound collection | a limit of zero or below means the default of 1000, as lines 222-227 say | not executed | `Repository.Instance.QueryAsWritten` | `Repository.Instance.Query` |
| service/auth/auth.service.go:234 | Logout calls DeleteToken with the user's stored refresh token, and DeleteToken deletes the whole document matching it (repository/auth.storage.go:98-102). A user with no refresh token (every Google user) yields the empty filter, so the first document in the collection, another user's, is deleted | collection [user "b" with refresh token "t", Google user "a" with none]; `Logout("a")` deletes "b" and keeps "a" | clear the user's own refresh token and keep every account | not executed | `Auth.LogoutDeletesAnotherUser` | `Auth.AuthService.LogoutRevoking` |
