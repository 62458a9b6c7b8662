/**
 * Client sequences over a fresh account store, with collaborators that obey
 * the hashing and token laws: what a caller of the service observes across
 * several flows.
 */
module Scenarios {
  import opened Results
  import opened UserModel
  import opened Mongo
  import opened Repository
  import opened AccountStore
  import opened Oracles
  import opened Auth
  import opened Middleware

  /** A second sign-up with an e-mail already taken is refused, whatever the username. */
  method SignUpTwice(crypto: Crypto, config: TokenConfig, email: string, username1: string, username2: string,
                     password: string, id1: string, id2: string, now: Instant)
    returns (first: Result<User>, second: Result<User>)
    requires crypto.hashPassword(password).Ok?
    requires email != ""
    ensures first.Ok? && first.value.email == email && first.value.status == StatusActive
    ensures second == Err(UserExisted)
  {
    var storage := new AuthStorage("accounts", [], 1);
    var service := new AuthService(storage, crypto, config);
    FreshAccount([], 1, SignUpRecord(email, username1, crypto.hashPassword(password).value, id1), now);
    first := service.SignUp(email, username1, password, id1, now);
    ghost var docs := storage.instance.docs;
    assert Lookup(docs, UsernameOrEmailQuery(username2, email)).Ok? by {
      assert FromDoc(docs[0]).email == email;
      LookupByUsernameOrEmail(docs, username2, email);
    }
    second := service.SignUp(email, username2, password, id2, now);
  }

  /** Signs a user up: the collection then holds exactly that user. */
  method SignedUp(crypto: Crypto, config: TokenConfig, email: string, username: string,
                  password: string, accountId: string, now: Instant)
    returns (service: AuthService)
    requires crypto.hashPassword(password).Ok?
    ensures service.Valid() && fresh(service.storage) && fresh(service.storage.instance)
    ensures service.crypto == crypto && service.config == config
    ensures |service.storage.instance.docs| == 1
    ensures FromDoc(service.storage.instance.docs[0])
      == SignUpRecord(email, username, crypto.hashPassword(password).value, accountId)
           .(id := Some(1), createdTime := Some(now))
  {
    var storage := new AuthStorage("accounts", [], 1);
    service := new AuthService(storage, crypto, config);
    ghost var u := SignUpRecord(email, username, crypto.hashPassword(password).value, accountId);
    ghost var ins := InsertDoc([], 1, StampCreated(ToDoc(u), now));
    FreshAccount([], 1, u, now);
    assert Lookup([], UsernameOrEmailQuery(username, email)).Err?;
    var created := service.SignUp(email, username, password, accountId, now);
    assert storage.instance.docs == ins.docs;
  }

  /** After sign-up, logging in with the same password succeeds and leaves the issued refresh token stored. */
  method SignUpThenLogin(crypto: Crypto, config: TokenConfig, email: string, username: string,
                         password: string, accountId: string, now: Instant)
    returns (login: Result<LoginResponse>, storedToken: string)
    requires Lawful(crypto)
    requires crypto.hashPassword(password).Ok?
    requires crypto.generateJwt(accountId, config.accessTokenExpiredIn, config.accessTokenKey, now).Ok?
    requires crypto.generateJwt(accountId, config.refreshTokenExpiredIn, config.refreshTokenKey, now).Ok?
    ensures login == Ok(LoginResponse(email, username,
      crypto.generateJwt(accountId, config.accessTokenExpiredIn, config.accessTokenKey, now).value))
    ensures storedToken == crypto.generateJwt(accountId, config.refreshTokenExpiredIn, config.refreshTokenKey, now).value
  {
    var service := SignedUp(crypto, config, email, username, password, accountId, now);
    var d := service.storage.instance.docs[0];
    EmailQueryFilter(email);
    EqualityMatches(d, Email, email);
    assert FirstMatch(service.storage.instance.docs, AsFilter(EmailQuery(email))) == Some(0);
    login := service.Login(email, password, now);
    var refresh := service.IssueRefresh(accountId, now).value;
    RefreshTokenWrite(d, refresh, now);
    storedToken := FromDoc(service.storage.instance.docs[0]).refreshToken;
  }

  /** The only user of a one-user collection is the one a lookup by its account id finds. */
  lemma OnlyUserFound(docs: seq<Doc>, id: string)
    requires |docs| == 1 && WellFormed(docs[0]) && FromDoc(docs[0]).userId == id
    ensures FirstMatch(docs, AsFilter(IdQuery(id))) == Some(0)
  {
    IdQueryFilter(id);
    EqualityMatches(docs[0], UserId, id);
  }

  /** The refresh-token write keeps the account id. */
  lemma RefreshKeepsUserId(d: Doc, token: string, now: Instant)
    ensures FromDoc(SetFields(d, UpdateDoc(RefreshTokenUpdate(token), now))).userId == FromDoc(d).userId
  {
    RefreshTokenUpdateDoc(token);
    var upd := UpdateDoc(RefreshTokenUpdate(token), now);
    assert UserId !in upd;
    var r := SetFields(d, upd);
    assert (UserId in r <==> UserId in d) && (UserId in d ==> r[UserId] == d[UserId]);
  }

  /** Signs a user up and logs them in. */
  method LoggedIn(crypto: Crypto, config: TokenConfig, email: string, username: string,
                  password: string, accountId: string, now: Instant)
    returns (service: AuthService)
    requires Lawful(crypto)
    requires crypto.hashPassword(password).Ok?
    requires crypto.generateJwt(accountId, config.accessTokenExpiredIn, config.accessTokenKey, now).Ok?
    requires crypto.generateJwt(accountId, config.refreshTokenExpiredIn, config.refreshTokenKey, now).Ok?
    ensures service.Valid() && fresh(service.storage) && fresh(service.storage.instance)
    ensures service.crypto == crypto && service.config == config
    ensures |service.storage.instance.docs| == 1
    ensures FromDoc(service.storage.instance.docs[0]).userId == accountId
  {
    service := SignedUp(crypto, config, email, username, password, accountId, now);
    var d := service.storage.instance.docs[0];
    EmailQueryFilter(email);
    EqualityMatches(d, Email, email);
    assert FirstMatch(service.storage.instance.docs, AsFilter(EmailQuery(email))) == Some(0);
    var login := service.Login(email, password, now);
    RefreshKeepsUserId(d, service.IssueRefresh(accountId, now).value, now);
  }

  /** A refresh token can be presented again after it was rotated: the stored token is never compared, so both calls succeed. */
  method RefreshTokenReuse(crypto: Crypto, config: TokenConfig, email: string, username: string,
                           password: string, accountId: string, now: Instant, later: Instant)
    returns (first: Result<TokenPair>, second: Result<TokenPair>)
    requires Lawful(crypto)
    requires crypto.hashPassword(password).Ok?
    requires crypto.generateJwt(accountId, config.accessTokenExpiredIn, config.accessTokenKey, now).Ok?
    requires crypto.generateJwt(accountId, config.refreshTokenExpiredIn, config.refreshTokenKey, now).Ok?
    requires crypto.generateJwt(accountId, config.accessTokenExpiredIn, config.accessTokenKey, later).Ok?
    requires crypto.generateJwt(accountId, config.refreshTokenExpiredIn, config.refreshTokenKey, later).Ok?
    requires now <= later < now + config.refreshTokenExpiredIn
    ensures first.Ok? && second == first
  {
    var service := LoggedIn(crypto, config, email, username, password, accountId, now);
    var token := service.IssueRefresh(accountId, now).value;
    assert crypto.validateToken(token, config.refreshTokenKey, later) == Ok(accountId);
    ghost var d := service.storage.instance.docs[0];
    OnlyUserFound(service.storage.instance.docs, accountId);
    first := service.RefreshToken(token, later);
    RefreshKeepsUserId(d, service.IssueRefresh(accountId, later).value, later);
    OnlyUserFound(service.storage.instance.docs, accountId);
    second := service.RefreshToken(token, later);
  }

  /** Two Google logins with the same profile create the account once and issue the same access token. */
  method GoogleLoginTwice(crypto: Crypto, config: TokenConfig, info: GoogleUserInfo, now: Instant)
    returns (first: Result<string>, second: Result<string>, accounts: nat)
    ensures first == second
    ensures first == crypto.generateJwt(info.id, config.accessTokenExpiredIn, config.accessTokenKey, now)
    ensures accounts == 1
  {
    var storage := new AuthStorage("accounts", [], 1);
    var service := new AuthService(storage, crypto, config);
    var email := ToLower(info.email);
    FreshAccount([], 1, GoogleRecord(info, email), now);
    first := service.LoginWithGoogle(Ok(info), now);
    assert FromDoc(storage.instance.docs[0]).userId == info.id;
    LookupByEmail(storage.instance.docs, email);
    second := service.LoginWithGoogle(Ok(info), now);
    accounts := |storage.instance.docs|;
  }

  /** Signs up the password user and then the Google user, in that order. */
  method TwoAccounts(crypto: Crypto, config: TokenConfig, email: string, username: string, password: string,
                     accountId: string, info: GoogleUserInfo, now: Instant)
    returns (service: AuthService)
    requires crypto.hashPassword(password).Ok?
    requires ToLower(info.email) != "" && ToLower(info.email) != email
    ensures service.Valid() && fresh(service.storage) && fresh(service.storage.instance)
    ensures |service.storage.instance.docs| == 2
    ensures FromDoc(service.storage.instance.docs[0]).userId == accountId
    ensures FromDoc(service.storage.instance.docs[1]).userId == info.id
    ensures FromDoc(service.storage.instance.docs[1]).refreshToken == ""
  {
    service := SignedUp(crypto, config, email, username, password, accountId, now);
    var docs := service.storage.instance.docs;
    assert FromDoc(docs[0]).email == email;
    LookupByEmail(docs, ToLower(info.email));
    FreshAccount(docs, service.storage.instance.nextId, GoogleRecord(info, ToLower(info.email)), now);
    var token := service.LoginWithGoogle(Ok(info), now);
  }

  /** The first match of an account-id lookup in a two-user collection where only the second user holds the id. */
  lemma SecondUserFound(docs: seq<Doc>, a: string, b: string)
    requires |docs| == 2 && AllWellFormed(docs)
    requires FromDoc(docs[0]).userId == a && FromDoc(docs[1]).userId == b
    requires b != "" && a != b
    ensures FirstMatch(docs, AsFilter(IdQuery(b))) == Some(1)
  {
    IdQueryFilter(b);
    EqualityMatches(docs[0], UserId, b);
    EqualityMatches(docs[1], UserId, b);
  }

  /** Logout of a second user holding no refresh token deletes the first user. */
  lemma SecondUserLogout(docs: seq<Doc>, a: string, b: string)
    requires |docs| == 2 && AllWellFormed(docs)
    requires FromDoc(docs[0]).userId == a && FromDoc(docs[1]).userId == b
    requires FromDoc(docs[1]).refreshToken == ""
    requires b != "" && a != b
    ensures LogoutOutcome(docs, b) == Ok([docs[1]])
  {
    assert Lookup(docs, IdQuery(b)) == Ok(FromDoc(docs[1])) by {
      SecondUserFound(docs, a, b);
    }
    assert DeleteFirst(docs, AsFilter(TokenQuery(""))) == [docs[1]] by {
      TokenQueryFilter("");
      FirstMatchOfMatchAll(docs);
      DeleteFirstRemovesIt(docs, MatchAll);
      assert docs[..0] + docs[1..] == [docs[1]];
    }
  }

  /** The intended logout of the second user keeps the first user's document and the second user's id. */
  lemma SecondUserRevoke(docs: seq<Doc>, a: string, b: string, now: Instant)
    requires |docs| == 2 && AllWellFormed(docs)
    requires FromDoc(docs[0]).userId == a && FromDoc(docs[1]).userId == b
    requires b != "" && a != b
    ensures RevokeOutcome(docs, b, now) == Ok([docs[0], Unset(docs[1], RefreshToken, now)])
    ensures FromDoc(Unset(docs[1], RefreshToken, now)).userId == b
  {
    SecondUserFound(docs, a, b);
    assert docs[1 := Unset(docs[1], RefreshToken, now)] == [docs[0], Unset(docs[1], RefreshToken, now)];
    assert UserId in docs[1];
  }

  /** A Google user, who holds no refresh token, logging out deletes the other account and keeps their own. */
  method GoogleLogoutDeletesOtherAccount(crypto: Crypto, config: TokenConfig, email: string, username: string,
                                         password: string, accountId: string, info: GoogleUserInfo, now: Instant)
    returns (r: Result<()>, remaining: seq<string>)
    requires crypto.hashPassword(password).Ok?
    requires ToLower(info.email) != "" && ToLower(info.email) != email
    requires info.id != "" && accountId != info.id
    ensures r == Ok(())
    ensures remaining == [info.id]
  {
    var service := TwoAccounts(crypto, config, email, username, password, accountId, info, now);
    ghost var docs := service.storage.instance.docs;
    SecondUserLogout(docs, accountId, info.id);
    r := service.Logout(info.id);
    remaining := [FromDoc(service.storage.instance.docs[0]).userId];
  }

  /** The intended logout on the same two accounts keeps both and clears nothing of the other. */
  method GoogleLogoutRevokingKeepsBoth(crypto: Crypto, config: TokenConfig, email: string, username: string,
                                       password: string, accountId: string, info: GoogleUserInfo, now: Instant)
    returns (r: Result<()>, remaining: seq<string>)
    requires crypto.hashPassword(password).Ok?
    requires ToLower(info.email) != "" && ToLower(info.email) != email
    requires info.id != "" && accountId != info.id
    ensures r == Ok(())
    ensures remaining == [accountId, info.id]
  {
    var service := TwoAccounts(crypto, config, email, username, password, accountId, info, now);
    ghost var docs := service.storage.instance.docs;
    SecondUserRevoke(docs, accountId, info.id, now);
    r := service.LogoutRevoking(info.id, now);
    remaining := [FromDoc(service.storage.instance.docs[0]).userId, FromDoc(service.storage.instance.docs[1]).userId];
  }

  /**
   * The access token Login issues admits its request until it expires, and the
   * handler sees the account id, provided the middleware's verification key is
   * the key the service signs access tokens with.
   */
  method MiddlewareAdmitsLoginToken(crypto: Crypto, config: TokenConfig, publicKey: string, email: string,
                                    username: string, password: string, accountId: string, now: Instant, at: Instant)
    returns (r: Response, userId: string)
    requires Lawful(crypto)
    requires crypto.hashPassword(password).Ok?
    requires crypto.generateJwt(accountId, config.accessTokenExpiredIn, config.accessTokenKey, now).Ok?
    requires crypto.generateJwt(accountId, config.refreshTokenExpiredIn, config.refreshTokenKey, now).Ok?
    requires TokenShaped(crypto.generateJwt(accountId, config.accessTokenExpiredIn, config.accessTokenKey, now).value)
    requires publicKey == config.accessTokenKey
    requires now <= at < now + config.accessTokenExpiredIn
    ensures r == Next && userId == accountId
  {
    var login, _ := SignUpThenLogin(crypto, config, email, username, password, accountId, now);
    var token := login.value.accessToken;
    var c := new Context("Bearer " + token);
    ExtractComplete(token, "");
    assert "Bearer " + token + "" == "Bearer " + token;
    r := AuthMiddleware(c, crypto, publicKey, at);
    userId := c.values["userId"];
  }
}
