/**
 * service/auth/auth.service.go: the account flows. Each is a short sequence
 * of reads and writes on the account store; the contracts say which writes
 * happen and which do not.
 */
module Auth {
  import opened Results
  import opened UserModel
  import opened Mongo
  import opened Repository
  import opened AccountStore
  import opened Oracles

  /** UserLoginResponse. */
  datatype LoginResponse = LoginResponse(email: string, username: string, accessToken: string)
  /** TokenResponse. */
  datatype TokenPair = TokenPair(accessToken: string, refreshToken: string)
  /** UserPasswordResponse. */
  datatype PasswordResponse = PasswordResponse(email: string, username: string, isChangedPassword: bool)
  /** UserProfileUpdateDto. */
  datatype ProfileUpdate = ProfileUpdate(email: string, username: string, bio: Option<string>, avatar: Option<ObjectId>)

  // ----- records the flows build -----

  /** The account SignUp stores. */
  function SignUpRecord(email: string, username: string, hashed: string, accountId: string): User {
    EmptyUser.(email := email, username := username, hashedPassword := hashed, userId := accountId,
               status := StatusActive, role := RoleUser)
  }

  /** The account LoginWithGoogle stores for a new e-mail. */
  function GoogleRecord(info: GoogleUserInfo, email: string): User {
    EmptyUser.(userId := info.id, email := email, username := info.name,
               provider := ProviderGoogle, role := RoleUser)
  }

  /** `&model.User{ID: u.ID}`: the query by ObjectID. */
  function ObjectIdQuery(u: User): User {
    EmptyUser.(id := u.id)
  }

  /** `&model.User{RefreshToken: token}` as an updater. */
  function RefreshTokenUpdate(token: string): User {
    EmptyUser.(refreshToken := token)
  }

  /** The updater UpdateUserProfile builds: email and username when non-empty, bio when non-nil and non-empty, avatar when non-nil. */
  function ProfilePatch(p: ProfileUpdate): User {
    EmptyUser.(email := p.email, username := p.username,
               bio := if p.bio.Some? && p.bio.value != "" then p.bio else None,
               avatar := p.avatar)
  }

  function LowerChar(c: char): char {
    if 'A' <= c <= 'Z' then (c as int + 32) as char else c
  }

  /** strings.ToLower, on ASCII letters. */
  function ToLower(s: string): (r: string)
    ensures |r| == |s|
    ensures forall i :: 0 <= i < |s| ==> r[i] == LowerChar(s[i])
  {
    seq(|s|, i requires 0 <= i < |s| => LowerChar(s[i]))
  }

  /** Lower-casing twice is lower-casing once, and it leaves no upper-case ASCII letter. */
  lemma ToLowerIdempotent(s: string)
    ensures ToLower(ToLower(s)) == ToLower(s)
    ensures forall i :: 0 <= i < |s| ==> !('A' <= ToLower(s)[i] <= 'Z')
  {
  }

  // ----- what the flows write -----

  /** A profile update writes the given email and username, a non-empty bio, a non-zero avatar and last_updated_time, and nothing else. */
  lemma ProfilePatchWrites(p: ProfileUpdate, now: Instant)
    ensures var upd := UpdateDoc(ProfilePatch(p), now);
      && (Email in upd <==> p.email != "") && (Email in upd ==> upd[Email] == Str(p.email))
      && (Username in upd <==> p.username != "") && (Username in upd ==> upd[Username] == Str(p.username))
      && (Bio in upd <==> p.bio.Some? && p.bio.value != "") && (Bio in upd ==> upd[Bio] == Str(p.bio.value))
      && (Avatar in upd <==> p.avatar.Some? && p.avatar.value != NilObjectId)
      && (Avatar in upd ==> upd[Avatar] == Oid(p.avatar.value))
      && upd.Keys <= {Email, Username, Bio, Avatar, LastUpdatedTime}
  {
    var u := ProfilePatch(p);
    ToDocKeys(u);
    forall k | k in ToDoc(u) ensures k in {Email, Username, Bio, Avatar} {
      assert Field(u, k).Some?;
    }
  }

  /** A stored document with its refresh_token replaced: dropped when the new token is empty. */
  lemma WithRefreshTokenDoc(d: Doc, refresh: string)
    requires WellFormed(d)
    ensures ToDoc(FromDoc(d).(refreshToken := refresh)) ==
      if refresh == "" then d - {RefreshToken} else d[RefreshToken := Str(refresh)]
  {
    var u := FromDoc(d);
    var v := u.(refreshToken := refresh);
    EncodeDecode(d);
    var e := ToDoc(v);
    var want := if refresh == "" then d - {RefreshToken} else d[RefreshToken := Str(refresh)];
    forall k ensures (k in e <==> k in want) && (k in e ==> e[k] == want[k]) {
      AllKeysComplete(k);
      if k != RefreshToken {
        assert Field(v, k) == Field(u, k);
        assert (k in d) == Field(u, k).Some?;
      }
    }
  }

  /** Writing back a decoded record with new tokens writes only refresh_token (when non-empty) and last_updated_time. */
  lemma ResaveWritesOnlyToken(d: Doc, access: string, refresh: string, now: Instant)
    requires WellFormed(d)
    ensures SetFields(d, UpdateDoc(FromDoc(d).(accessToken := access, refreshToken := refresh), now))
         == SetFields(d, UpdateDoc(RefreshTokenUpdate(refresh), now))
  {
    var v := FromDoc(d).(refreshToken := refresh);
    assert FromDoc(d).(accessToken := access, refreshToken := refresh) == v.(accessToken := access);
    AccessTokenNotPersisted(v, access, d);
    WithRefreshTokenDoc(d, refresh);
    RefreshTokenUpdateDoc(refresh);
    var e := ToDoc(v);
    var f := ToDoc(RefreshTokenUpdate(refresh));
    assert UpdateDoc(v.(accessToken := access), now) == e[LastUpdatedTime := At(now)];
    assert UpdateDoc(RefreshTokenUpdate(refresh), now) == f[LastUpdatedTime := At(now)];
    SetFieldsUpdate(d, e, LastUpdatedTime, At(now));
    SetFieldsUpdate(d, f, LastUpdatedTime, At(now));
    assert SetFields(d, e) == SetFields(d, f) by {
      if refresh == "" {
        SetIncluded(d, e);
        SetIncluded(d, f);
      } else {
        SetCovering(d, e);
        SetFieldsUpdate(d, map[], RefreshToken, Str(refresh));
        SetIncluded(d, map[]);
      }
    }
  }

  /** The refresh-token updater encodes to the token alone, or to nothing when the token is empty. */
  lemma RefreshTokenUpdateDoc(token: string)
    ensures ToDoc(RefreshTokenUpdate(token)) == if token == "" then map[] else map[RefreshToken := Str(token)]
  {
    SingleFieldDoc(RefreshTokenUpdate(token), RefreshToken);
  }

  /** The refresh-token write targets the first user the account-id query finds. */
  lemma RefreshTarget(docs: seq<Doc>, sub: string, refresh: string, now: Instant)
    ensures var q := AsFilter(IdQuery(sub));
      UpdateTarget(docs, q, UpdateDoc(RefreshTokenUpdate(refresh), now))
        == if FirstMatch(docs, q).None? then Err(NoDocuments) else Ok(FirstMatch(docs, q).value)
  {
    RefreshTokenUpdateDoc(refresh);
    assert Id !in UpdateDoc(RefreshTokenUpdate(refresh), now);
  }

  /** The refresh-token write stores the token (when non-empty) and changes no other field but last_updated_time. */
  lemma RefreshTokenWrite(d: Doc, token: string, now: Instant)
    ensures var r := SetFields(d, UpdateDoc(RefreshTokenUpdate(token), now));
      && (token != "" ==> FromDoc(r).refreshToken == token)
      && (token == "" ==> FromDoc(r).refreshToken == FromDoc(d).refreshToken)
      && r[LastUpdatedTime] == At(now)
      && forall k :: k in d && k != RefreshToken && k != LastUpdatedTime ==> k in r && r[k] == d[k]
  {
    SingleFieldDoc(RefreshTokenUpdate(token), RefreshToken);
  }

  /** The password write stores the new hash and keeps every other field but last_updated_time. */
  lemma PasswordWriteKeepsProfile(d: Doc, hashed: string, now: Instant)
    ensures var r := SetFields(d, UpdateDoc(PasswordUpdate(hashed), now));
      && (hashed != "" ==> FromDoc(r).hashedPassword == hashed)
      && (hashed == "" ==> FromDoc(r).hashedPassword == FromDoc(d).hashedPassword)
      && FromDoc(r) == FromDoc(d).(hashedPassword := FromDoc(r).hashedPassword, lastUpdatedTime := Some(now))
  {
    PasswordUpdateWrites(hashed, now);
    SetIncluded(d, map[]);
    if hashed == "" {
      SetFieldsUpdate(d, map[], LastUpdatedTime, At(now));
      FromDocWithLastUpdated(d, now);
    } else {
      var one := map[HashedPassword := Str(hashed)];
      assert UpdateDoc(PasswordUpdate(hashed), now) == one[LastUpdatedTime := At(now)];
      SetFieldsUpdate(d, map[], HashedPassword, Str(hashed));
      SetFieldsUpdate(d, one, LastUpdatedTime, At(now));
      FromDocWithPassword(d, hashed);
      FromDocWithLastUpdated(d[HashedPassword := Str(hashed)], now);
    }
  }

  /** The query by a stored user's ObjectID finds that user and no other. */
  lemma ByObjectIdFindsIt(docs: seq<Doc>, nextId: ObjectId, j: nat)
    requires StoreInvariant(docs, nextId)
    requires j < |docs|
    ensures FirstMatch(docs, AsFilter(ObjectIdQuery(FromDoc(docs[j])))) == Some(j)
  {
    assert WellFormed(docs[j]) && Id in docs[j];
    assert Fits(Id, docs[j][Id]);
    var q := ObjectIdQuery(FromDoc(docs[j]));
    SingleFieldDoc(q, Id);
    assert AsFilter(q) == Bson(map[Id := Oid(IdOf(docs[j]))], []);
    IdFilterFindsIt(docs, nextId, j);
  }

  /** An update by a stored user's ObjectID targets that user, unless the `$set` changes the _id. */
  lemma UpdateByIdHits(docs: seq<Doc>, nextId: ObjectId, j: nat, upd: Doc)
    requires StoreInvariant(docs, nextId)
    requires j < |docs|
    requires Id in upd ==> upd[Id] == docs[j][Id]
    ensures UpdateTarget(docs, AsFilter(ObjectIdQuery(FromDoc(docs[j]))), upd) == Ok(j)
  {
    ByObjectIdFindsIt(docs, nextId, j);
    assert WellFormed(docs[j]) && Id in docs[j];
    assert Fits(Id, docs[j][Id]);
  }

  /**
   * Login's write-back of the user it found, carrying both new tokens: it
   * targets that user's own document and writes only the refresh token.
   */
  lemma ResaveTarget(docs: seq<Doc>, nextId: ObjectId, i: nat, access: string, refresh: string, now: Instant)
    requires StoreInvariant(docs, nextId)
    requires i < |docs|
    ensures var u := FromDoc(docs[i]).(accessToken := access, refreshToken := refresh);
      && UpdateTarget(docs, AsFilter(ObjectIdQuery(u)), UpdateDoc(u, now)) == Ok(i)
      && SetFields(docs[i], UpdateDoc(u, now)) == SetFields(docs[i], UpdateDoc(RefreshTokenUpdate(refresh), now))
  {
    var d := docs[i];
    var u := FromDoc(d).(accessToken := access, refreshToken := refresh);
    assert WellFormed(d) && Id in d && Fits(Id, d[Id]);
    ResaveWritesOnlyToken(d, access, refresh, now);
    ToDocAt(u, Id);
    assert ObjectIdQuery(u) == ObjectIdQuery(FromDoc(d));
    UpdateByIdHits(docs, nextId, i, UpdateDoc(u, now));
  }

  /** A profile patch never carries an _id. */
  lemma PatchHasNoId(p: ProfileUpdate, now: Instant)
    ensures Id !in UpdateDoc(ProfilePatch(p), now)
  {
    ToDocKeys(ProfilePatch(p));
  }

  /** A record the flows build from scratch: no _id, no timestamps, no avatar, nothing unstored. */
  predicate NewAccount(u: User) {
    && u.id.None? && u.createdTime.None? && u.lastUpdatedTime.None? && u.avatar.None?
    && u.accessToken == "" && u.complexQuery == []
  }

  /**
   * Creating a new account always succeeds: it appends one document, which
   * decodes to the record with the next free ObjectID and created_time now.
   */
  lemma FreshAccount(docs: seq<Doc>, nextId: ObjectId, u: User, now: Instant)
    requires StoreInvariant(docs, nextId)
    requires NewAccount(u)
    ensures var ins := InsertDoc(docs, nextId, StampCreated(ToDoc(u), now));
      && ins.error.None? && ins.ids == [nextId] && ins.nextId == nextId + 1
      && |ins.docs| == |docs| + 1 && ins.docs[..|docs|] == docs
      && FromDoc(ins.docs[|docs|]) == u.(id := Some(nextId), createdTime := Some(now))
  {
    CreateInsert(docs, nextId, u, now);
    ToDocKeys(u);
    assert Stored(u) == u;
    assert Id !in StampCreated(ToDoc(u), now);
  }

  // ----- logout, as written and as intended -----

  /** The collection after Logout: the first document holding the user's stored refresh token is deleted. */
  function LogoutOutcome(docs: seq<Doc>, userID: string): Result<seq<Doc>> {
    match Lookup(docs, IdQuery(userID))
    case Err(e) => Err(e)
    case Ok(u) => Ok(DeleteFirst(docs, AsFilter(TokenQuery(u.refreshToken))))
  }

  /** The collection after the intended logout: the user's refresh_token is cleared and every document kept. */
  function RevokeOutcome(docs: seq<Doc>, userID: string, now: Instant): Result<seq<Doc>> {
    match FirstMatch(docs, AsFilter(IdQuery(userID)))
    case None => Err(DocumentNotExisted)
    case Some(j) => Ok(docs[j := Unset(docs[j], RefreshToken, now)])
  }

  /** The first holder of a token some user holds; with the empty token, the first document. */
  lemma TokenHolderFound(docs: seq<Doc>, i: nat, t: string)
    requires AllWellFormed(docs)
    requires i < |docs| && FromDoc(docs[i]).refreshToken == t
    ensures FirstMatch(docs, AsFilter(TokenQuery(t))).Some?
    ensures t == "" ==> FirstMatch(docs, AsFilter(TokenQuery(t))).value == 0
    ensures t != "" ==> FromDoc(docs[FirstMatch(docs, AsFilter(TokenQuery(t))).value]).refreshToken == t
  {
    TokenQueryFilter(t);
    EqualityMatches(docs[i], RefreshToken, t);
    if t == "" {
      FirstMatchOfMatchAll(docs);
    } else {
      var k := FirstMatch(docs, AsFilter(TokenQuery(t))).value;
      EqualityMatches(docs[k], RefreshToken, t);
    }
  }

  /** Logout deletes a whole document: the first one holding the user's token, which is the first of all when that token is empty. */
  lemma LogoutDeletesDocument(docs: seq<Doc>, userID: string)
    requires AllWellFormed(docs)
    requires LogoutOutcome(docs, userID).Ok?
    ensures var t := Lookup(docs, IdQuery(userID)).value.refreshToken;
      && FirstMatch(docs, AsFilter(TokenQuery(t))).Some?
      && var k := FirstMatch(docs, AsFilter(TokenQuery(t))).value;
      && LogoutOutcome(docs, userID).value == docs[..k] + docs[k + 1..]
      && (t == "" ==> k == 0)
      && (t != "" ==> FromDoc(docs[k]).refreshToken == t)
  {
    var i := FirstMatch(docs, AsFilter(IdQuery(userID))).value;
    var t := Lookup(docs, IdQuery(userID)).value.refreshToken;
    assert t == FromDoc(docs[i]).refreshToken;
    var q := AsFilter(TokenQuery(t));
    assert FirstMatch(docs, q).Some?
      && (t == "" ==> FirstMatch(docs, q).value == 0)
      && (t != "" ==> FromDoc(docs[FirstMatch(docs, q).value]).refreshToken == t) by {
      TokenHolderFound(docs, i, t);
    }
    var k := FirstMatch(docs, q).value;
    assert DeleteFirst(docs, q) == docs[..k] + docs[k + 1..] by {
      DeleteFirstRemovesIt(docs, q);
    }
    assert LogoutOutcome(docs, userID) == Ok(DeleteFirst(docs, q));
  }

  /** The user "b" holding a refresh token, first in the collection. */
  const UserB: Doc := map[Id := Oid(1), UserId := Str("b"), RefreshToken := Str("t")]
  /** The Google user "a", who never received a refresh token. */
  const UserA: Doc := map[Id := Oid(2), UserId := Str("a"), Provider := Str(ProviderGoogle)]

  lemma DistinctIds()
    ensures "a" != "" && "b" != "a" && UserB[UserId] == Str("b")
  {
    assert "b"[0] != "a"[0];
  }

  /** Logout of "a" as written deletes "b" and keeps "a". */
  lemma LogoutDeletesAnotherUser()
    ensures LogoutOutcome([UserB, UserA], "a") == Ok([UserA])
  {
    var docs := [UserB, UserA];
    IdQueryFilter("a");
    DistinctIds();
    assert !Matches(UserB, Equality(UserId, "a"));
    assert Matches(UserA, Equality(UserId, "a"));
    assert FirstMatch(docs, Equality(UserId, "a")) == Some(1);
    assert FromDoc(UserA).refreshToken == "";
    TokenQueryFilter("");
    FirstMatchOfMatchAll(docs);
    assert DeleteFirst(docs, MatchAll) == docs[1..];
  }

  /** The intended logout changes only the user's own document: same length, others equal, its refresh_token gone. */
  lemma RevokeKeepsEveryUser(docs: seq<Doc>, userID: string, now: Instant)
    requires RevokeOutcome(docs, userID, now).Ok?
    ensures var r := RevokeOutcome(docs, userID, now).value;
      var j := FirstMatch(docs, AsFilter(IdQuery(userID))).value;
      && |r| == |docs|
      && (forall k :: 0 <= k < |docs| && k != j ==> r[k] == docs[k])
      && RefreshToken !in r[j]
      && (forall key :: key in docs[j] && key != RefreshToken && key != LastUpdatedTime ==> r[j][key] == docs[j][key])
  {
  }

  /** On the same collection the intended logout of "a" keeps "b". */
  lemma RevokeKeepsAnotherUser(now: Instant)
    ensures RevokeOutcome([UserB, UserA], "a", now) == Ok([UserB, Unset(UserA, RefreshToken, now)])
  {
    IdQueryFilter("a");
    DistinctIds();
    assert !Matches(UserB, Equality(UserId, "a"));
    assert Matches(UserA, Equality(UserId, "a"));
    assert FirstMatch([UserB, UserA], Equality(UserId, "a")) == Some(1);
    assert [UserB, UserA][1 := Unset(UserA, RefreshToken, now)] == [UserB, Unset(UserA, RefreshToken, now)];
  }

  class AuthService {
    const storage: AuthStorage
    const crypto: Crypto
    const config: TokenConfig

    ghost predicate Valid()
      reads this, storage, storage.instance
    {
      storage.Valid()
    }

    /** NewAuthService. */
    constructor (storage: AuthStorage, crypto: Crypto, config: TokenConfig)
      requires storage.Valid()
      ensures Valid() && this.storage == storage && this.crypto == crypto && this.config == config
    {
      this.storage := storage;
      this.crypto := crypto;
      this.config := config;
    }

    /** GenerateJWT for an access token. */
    function IssueAccess(sub: string, now: Instant): Result<string> {
      crypto.generateJwt(sub, config.accessTokenExpiredIn, config.accessTokenKey, now)
    }

    /** GenerateJWT for a refresh token. */
    function IssueRefresh(sub: string, now: Instant): Result<string> {
      crypto.generateJwt(sub, config.refreshTokenExpiredIn, config.refreshTokenKey, now)
    }

    /** SignUp: refuses a taken username or email; otherwise stores one ACTIVE USER account with the hashed password. */
    method SignUp(email: string, username: string, password: string, accountId: string, now: Instant)
      returns (r: Result<User>)
      requires Valid()
      modifies storage.instance
      ensures Valid()
      ensures r.Err? ==> storage.instance.docs == old(storage.instance.docs)
      ensures Lookup(old(storage.instance.docs), UsernameOrEmailQuery(username, email)).Ok? ==>
        r == Err(UserExisted)
      ensures Lookup(old(storage.instance.docs), UsernameOrEmailQuery(username, email)).Err? ==>
        if crypto.hashPassword(password).Err? then r == Err(crypto.hashPassword(password).error)
        else
          var u := SignUpRecord(email, username, crypto.hashPassword(password).value, accountId);
          && storage.instance.docs == InsertDoc(old(storage.instance.docs), old(storage.instance.nextId),
                                                StampCreated(ToDoc(u), now)).docs
          && r.Ok? && |storage.instance.docs| > 0
          && r.value == FromDoc(storage.instance.docs[|storage.instance.docs| - 1])
    {
      var existing := storage.GetUserByUsernameOrEmail(username, email);
      if existing.Ok? {
        return Err(UserExisted);
      }
      var hashedPassword :- crypto.hashPassword(password);
      var user := SignUpRecord(email, username, hashedPassword, accountId);
      FreshAccount(storage.instance.docs, storage.instance.nextId, user, now);
      r := storage.CreateUser(user, now);
    }

    /** Login: checks the password, issues both tokens, stores only the refresh token, returns the access token. */
    method Login(email: string, password: string, now: Instant) returns (r: Result<LoginResponse>)
      requires Valid()
      modifies storage.instance
      ensures Valid()
      ensures r.Err? ==> storage.instance.docs == old(storage.instance.docs)
      ensures match FirstMatch(old(storage.instance.docs), AsFilter(EmailQuery(email)))
        case None => r == Err(DocumentNotExisted)
        case Some(i) =>
          var u := FromDoc(old(storage.instance.docs)[i]);
          if !crypto.verifyPassword(u.hashedPassword, password) then r == Err(PasswordNotMatched)
          else if IssueAccess(u.userId, now).Err? then r == Err(IssueAccess(u.userId, now).error)
          else if IssueRefresh(u.userId, now).Err? then r == Err(IssueRefresh(u.userId, now).error)
          else
            && r == Ok(LoginResponse(u.email, u.username, IssueAccess(u.userId, now).value))
            && storage.instance.docs == old(storage.instance.docs)[i :=
                 SetFields(old(storage.instance.docs)[i], UpdateDoc(RefreshTokenUpdate(IssueRefresh(u.userId, now).value), now))]
    {
      ghost var docs0 := storage.instance.docs;
      var existUser :- storage.GetUserByEmail(email);
      ghost var i := FirstMatch(docs0, AsFilter(EmailQuery(email))).value;
      if !crypto.verifyPassword(existUser.hashedPassword, password) {
        return Err(PasswordNotMatched);
      }
      var accessToken :- IssueAccess(existUser.userId, now);
      existUser := existUser.(accessToken := accessToken);
      var refreshToken :- IssueRefresh(existUser.userId, now);
      existUser := existUser.(refreshToken := refreshToken);
      ResaveTarget(docs0, storage.instance.nextId, i, accessToken, refreshToken, now);
      var updated := storage.UpdateUser(ObjectIdQuery(existUser), existUser, now);
      if updated.Err? {
        // the user was just found, and the query is its own _id
        assert false;
      }
      return Ok(LoginResponse(existUser.email, existUser.username, existUser.accessToken));
    }

    /**
     * RefreshToken: validates the presented token and issues a new pair for its
     * subject, storing the new refresh token; the presented token is never
     * compared with the stored one.
     */
    method RefreshToken(token: string, now: Instant) returns (r: Result<TokenPair>)
      requires Valid()
      modifies storage.instance
      ensures Valid()
      ensures r.Err? ==> storage.instance.docs == old(storage.instance.docs)
      ensures match crypto.validateToken(token, config.refreshTokenKey, now)
        case Err(e) => r == Err(e)
        case Ok(sub) =>
          match FirstMatch(old(storage.instance.docs), AsFilter(IdQuery(sub)))
          case None => r == Err(DocumentNotExisted)
          case Some(j) =>
            if IssueAccess(sub, now).Err? then r == Err(IssueAccess(sub, now).error)
            else if IssueRefresh(sub, now).Err? then r == Err(IssueRefresh(sub, now).error)
            else
              && r == Ok(TokenPair(IssueAccess(sub, now).value, IssueRefresh(sub, now).value))
              && storage.instance.docs == old(storage.instance.docs)[j :=
                   SetFields(old(storage.instance.docs)[j], UpdateDoc(RefreshTokenUpdate(IssueRefresh(sub, now).value), now))]
    {
      var sub :- crypto.validateToken(token, config.refreshTokenKey, now);
      var existing :- storage.GetUserByID(sub);
      var accessToken :- IssueAccess(sub, now);
      var refreshToken :- IssueRefresh(sub, now);
      RefreshTarget(storage.instance.docs, sub, refreshToken, now);
      var updated := storage.UpdateUser(IdQuery(sub), RefreshTokenUpdate(refreshToken), now);
      if updated.Err? {
        // the user was just found by the same query
        assert false;
      }
      return Ok(TokenPair(accessToken, refreshToken));
    }

    /**
     * LoginWithGoogle: looks the lower-cased profile email up, creates a GOOGLE
     * USER account only when the lookup fails, and issues an access token only.
     */
    method LoginWithGoogle(profile: Result<GoogleUserInfo>, now: Instant) returns (r: Result<string>)
      requires Valid()
      modifies storage.instance
      ensures Valid()
      ensures profile.Err? ==> r == Err(profile.error) && storage.instance.docs == old(storage.instance.docs)
      ensures profile.Ok? ==>
        var email := ToLower(profile.value.email);
        match Lookup(old(storage.instance.docs), EmailQuery(email))
        case Ok(u) => storage.instance.docs == old(storage.instance.docs) && r == IssueAccess(u.userId, now)
        case Err(_) =>
          && storage.instance.docs == InsertDoc(old(storage.instance.docs), old(storage.instance.nextId),
                                                StampCreated(ToDoc(GoogleRecord(profile.value, email)), now)).docs
          && r == IssueAccess(profile.value.id, now)
    {
      var googleUserInfo :- profile;
      var userEmail := ToLower(googleUserInfo.email);
      var userResp := storage.GetUserByEmail(userEmail);
      var user: User;
      if userResp.Err? {
        user := GoogleRecord(googleUserInfo, userEmail);
        FreshAccount(storage.instance.docs, storage.instance.nextId, user, now);
        var created := storage.CreateUser(user, now);
        if created.Err? {
          assert false;
        }
      } else {
        user := userResp.value;
      }
      var accessToken :- IssueAccess(user.userId, now);
      return Ok(accessToken);
    }

    /** GetUserProfileByID: the user with the account id. */
    method GetUserProfileByID(userID: string) returns (r: Result<User>)
      requires Valid()
      ensures r == Lookup(storage.instance.docs, IdQuery(userID))
    {
      r := storage.GetUserByID(userID);
    }

    /** UpdateUserProfile: `$set` of the fields the update carries on the user with the account id. */
    method UpdateUserProfile(userID: string, input: ProfileUpdate, now: Instant) returns (r: Result<User>)
      requires Valid()
      modifies storage.instance
      ensures Valid()
      ensures match FirstMatch(old(storage.instance.docs), AsFilter(IdQuery(userID)))
        case None => r == Err(DocumentNotExisted) && storage.instance.docs == old(storage.instance.docs)
        case Some(j) =>
          && storage.instance.docs == old(storage.instance.docs)[j :=
               SetFields(old(storage.instance.docs)[j], UpdateDoc(ProfilePatch(input), now))]
          && r == Ok(FromDoc(storage.instance.docs[j]))
    {
      ghost var docs0 := storage.instance.docs;
      var existUser :- storage.GetUserByID(userID);
      ghost var j := FirstMatch(docs0, AsFilter(IdQuery(userID))).value;
      var updateData := EmptyUser;
      if input.email != "" {
        updateData := updateData.(email := input.email);
      }
      if input.username != "" {
        updateData := updateData.(username := input.username);
      }
      if input.bio.Some? && input.bio.value != "" {
        updateData := updateData.(bio := input.bio);
      }
      if input.avatar.Some? {
        updateData := updateData.(avatar := input.avatar);
      }
      assert updateData == ProfilePatch(input);
      PatchHasNoId(input, now);
      UpdateByIdHits(docs0, storage.instance.nextId, j, UpdateDoc(updateData, now));
      r := storage.UpdateUser(ObjectIdQuery(existUser), updateData, now);
    }

    /** ResetPassword: checks the current password, then stores the hash of the new one and nothing else. */
    method ResetPassword(userID: string, currentPassword: string, newPassword: string, now: Instant)
      returns (r: Result<PasswordResponse>)
      requires Valid()
      modifies storage.instance
      ensures Valid()
      ensures r.Err? ==> storage.instance.docs == old(storage.instance.docs)
      ensures match FirstMatch(old(storage.instance.docs), AsFilter(IdQuery(userID)))
        case None => r == Err(DocumentNotExisted)
        case Some(j) =>
          var u := FromDoc(old(storage.instance.docs)[j]);
          if !crypto.verifyPassword(u.hashedPassword, currentPassword) then r == Err(CurrentPasswordNotMatched)
          else if crypto.hashPassword(newPassword).Err? then r == Err(crypto.hashPassword(newPassword).error)
          else
            && storage.instance.docs == old(storage.instance.docs)[j :=
                 SetFields(old(storage.instance.docs)[j], UpdateDoc(PasswordUpdate(crypto.hashPassword(newPassword).value), now))]
            && r == Ok(PasswordResponse(u.email, u.username, true))
    {
      ghost var docs0 := storage.instance.docs;
      var existUser :- storage.GetUserByID(userID);
      ghost var j := FirstMatch(docs0, AsFilter(IdQuery(userID))).value;
      if !crypto.verifyPassword(existUser.hashedPassword, currentPassword) {
        return Err(CurrentPasswordNotMatched);
      }
      var hashedPassword :- crypto.hashPassword(newPassword);
      PasswordWriteKeepsProfile(docs0[j], hashedPassword, now);
      ToDocKeys(PasswordUpdate(hashedPassword));
      UpdateByIdHits(docs0, storage.instance.nextId, j, UpdateDoc(PasswordUpdate(hashedPassword), now));
      var updated := storage.UpdateUserPassword(ObjectIdQuery(existUser), hashedPassword, now);
      if updated.Err? {
        // the user was just found, and the query is its own _id
        assert false;
      }
      assert updated.value.email == existUser.email && updated.value.username == existUser.username;
      return Ok(PasswordResponse(updated.value.email, updated.value.username, true));
    }

    /** Logout as written: DeleteToken with the user's stored refresh token. */
    method Logout(userID: string) returns (r: Result<()>)
      requires Valid()
      modifies storage.instance
      ensures Valid()
      ensures match LogoutOutcome(old(storage.instance.docs), userID)
        case Err(e) => r == Err(e) && storage.instance.docs == old(storage.instance.docs)
        case Ok(d) => r == Ok(()) && storage.instance.docs == d
    {
      var existUser :- storage.GetUserByID(userID);
      r := storage.DeleteToken(existUser.refreshToken);
    }

    /** Logout as intended: the user's refresh_token is cleared and the account kept. */
    method LogoutRevoking(userID: string, now: Instant) returns (r: Result<()>)
      requires Valid()
      modifies storage.instance
      ensures Valid()
      ensures match RevokeOutcome(old(storage.instance.docs), userID, now)
        case Err(e) => r == Err(e) && storage.instance.docs == old(storage.instance.docs)
        case Ok(d) => r == Ok(()) && storage.instance.docs == d
    {
      ghost var docs0 := storage.instance.docs;
      var existUser :- storage.GetUserByID(userID);
      ghost var j := FirstMatch(docs0, AsFilter(IdQuery(userID))).value;
      ByObjectIdFindsIt(docs0, storage.instance.nextId, j);
      r := storage.RevokeToken(ObjectIdQuery(existUser), now);
    }
  }
}
