/**
 * repository/auth.storage.go: the account store, user-shaped pass-throughs over
 * an Instance bound to the collection "auth". Lookups by one field build a
 * record with only that field set, so an empty argument builds the empty
 * filter, which matches whichever user comes first.
 */
module AccountStore {
  import opened Results
  import opened UserModel
  import opened Mongo
  import opened Repository

  const AuthCollection: string := "auth"

  /** Every document of the collection is in the store's shape. */
  predicate AllWellFormed(docs: seq<Doc>) {
    forall i :: 0 <= i < |docs| ==> WellFormed(docs[i])
  }

  /** The string-valued keys: those omitempty drops when "". */
  predicate StrKey(k: Key) {
    !(k == Id || k == CreatedTime || k == LastUpdatedTime || k == Bio || k == Avatar)
  }

  /** The filter a record with the single string field k set to v converts to. */
  function Equality(k: Key, v: string): Bson {
    if v == "" then MatchAll else Bson(map[k := Str(v)], [])
  }

  // ----- the records the store builds -----

  /** GetUserByUsernameOrEmail's query: `$and: [{$or: [{username}, {email}]}]`, raw bson.M, so "" is compared. */
  function UsernameOrEmailQuery(username: string, email: string): User {
    EmptyUser.(complexQuery := [AnyOf([map[Username := Str(username)], map[Email := Str(email)]])])
  }

  function EmailQuery(email: string): User {
    EmptyUser.(email := email)
  }

  function IdQuery(id: string): User {
    EmptyUser.(userId := id)
  }

  function TokenQuery(token: string): User {
    EmptyUser.(refreshToken := token)
  }

  function PasswordUpdate(password: string): User {
    EmptyUser.(hashedPassword := password)
  }

  /** What QueryOne answers for the record query: the first match decoded, or "document is not existed". */
  function Lookup(docs: seq<Doc>, query: User): (r: Result<User>)
    ensures r.Err? <==> forall j :: 0 <= j < |docs| ==> !Matches(docs[j], AsFilter(query))
    ensures r.Err? ==> r.error == DocumentNotExisted
    ensures r.Ok? ==> exists j :: 0 <= j < |docs| && Matches(docs[j], AsFilter(query)) && r.value == FromDoc(docs[j])
    ensures r.Ok? ==> exists i :: FirstMatch(docs, AsFilter(query)) == Some(i) && r.value == FromDoc(docs[i])
  {
    match FirstMatch(docs, AsFilter(query))
    case None => Err(DocumentNotExisted)
    case Some(i) => Ok(FromDoc(docs[i]))
  }

  // ----- filters -----

  lemma SingleFieldDoc(u: User, k: Key)
    requires forall k' :: k' != k ==> Field(u, k').None?
    ensures ToDoc(u) == if Field(u, k).Some? then map[k := Field(u, k).value] else map[]
  {
    AllKeysComplete(k);
  }

  lemma EmailQueryFilter(email: string)
    ensures AsFilter(EmailQuery(email)) == Equality(Email, email)
  {
    SingleFieldDoc(EmailQuery(email), Email);
  }

  lemma IdQueryFilter(id: string)
    ensures AsFilter(IdQuery(id)) == Equality(UserId, id)
  {
    SingleFieldDoc(IdQuery(id), UserId);
  }

  lemma TokenQueryFilter(token: string)
    ensures AsFilter(TokenQuery(token)) == Equality(RefreshToken, token)
  {
    SingleFieldDoc(TokenQuery(token), RefreshToken);
  }

  /** A one-field equality on a stored document: the empty value matches anything, any other value only itself. */
  lemma EqualityMatches(d: Doc, k: Key, v: string)
    requires WellFormed(d) && StrKey(k)
    ensures Matches(d, Equality(k, v)) <==> v == "" || StrAt(d, k) == v
  {
    if v != "" && k in d {
      assert Fits(k, d[k]);
    }
    if v == "" {
      MatchAllMatches(d);
    }
  }

  /** A lookup by one string field finds a user holding the value; with "" it finds the first user, whoever that is. */
  lemma LookupByField(docs: seq<Doc>, k: Key, v: string, q: User)
    requires AllWellFormed(docs) && StrKey(k)
    requires AsFilter(q) == Equality(k, v)
    ensures Lookup(docs, q).Ok? <==> exists j :: 0 <= j < |docs| && (v == "" || StrAt(docs[j], k) == v)
    ensures Lookup(docs, q).Ok? && v != "" ==> StrAt(docs[FirstMatch(docs, AsFilter(q)).value], k) == v
    ensures v == "" ==> Lookup(docs, q) == if |docs| == 0 then Err(DocumentNotExisted) else Ok(FromDoc(docs[0]))
  {
    forall j | 0 <= j < |docs| ensures Matches(docs[j], AsFilter(q)) <==> v == "" || StrAt(docs[j], k) == v {
      EqualityMatches(docs[j], k, v);
    }
    if v == "" {
      FirstMatchOfMatchAll(docs);
    }
  }

  /** GetUserByEmail succeeds iff some user has the email, returning one; an empty email returns the first user. */
  lemma LookupByEmail(docs: seq<Doc>, email: string)
    requires AllWellFormed(docs)
    ensures Lookup(docs, EmailQuery(email)).Ok? <==>
      exists j :: 0 <= j < |docs| && (email == "" || FromDoc(docs[j]).email == email)
    ensures Lookup(docs, EmailQuery(email)).Ok? && email != "" ==> Lookup(docs, EmailQuery(email)).value.email == email
    ensures email == "" ==>
      Lookup(docs, EmailQuery(email)) == if |docs| == 0 then Err(DocumentNotExisted) else Ok(FromDoc(docs[0]))
  {
    EmailQueryFilter(email);
    LookupByField(docs, Email, email, EmailQuery(email));
  }

  /** GetUserByID succeeds iff some user has the account id, returning one; an empty id returns the first user. */
  lemma LookupById(docs: seq<Doc>, id: string)
    requires AllWellFormed(docs)
    ensures Lookup(docs, IdQuery(id)).Ok? <==>
      exists j :: 0 <= j < |docs| && (id == "" || FromDoc(docs[j]).userId == id)
    ensures Lookup(docs, IdQuery(id)).Ok? && id != "" ==> Lookup(docs, IdQuery(id)).value.userId == id
    ensures id == "" ==>
      Lookup(docs, IdQuery(id)) == if |docs| == 0 then Err(DocumentNotExisted) else Ok(FromDoc(docs[0]))
  {
    IdQueryFilter(id);
    LookupByField(docs, UserId, id, IdQuery(id));
  }

  /** The `$or` query matches a stored user iff the username or the email is equal (an empty one equals nothing stored). */
  lemma UsernameOrEmailMatches(d: Doc, username: string, email: string)
    requires WellFormed(d)
    ensures Matches(d, AsFilter(UsernameOrEmailQuery(username, email))) <==>
      (username != "" && FromDoc(d).username == username) || (email != "" && FromDoc(d).email == email)
  {
    var q := UsernameOrEmailQuery(username, email);
    SingleFieldDoc(q, Email);
    assert AsFilter(q).fields == map[];
    var c := q.complexQuery[0];
    assert Satisfies(d, c) <==> Includes(d, c.branches[0]) || Includes(d, c.branches[1]);
    if Username in d { assert Fits(Username, d[Username]); }
    if Email in d { assert Fits(Email, d[Email]); }
  }

  /** GetUserByUsernameOrEmail succeeds iff some stored user has the given username or the given email. */
  lemma LookupByUsernameOrEmail(docs: seq<Doc>, username: string, email: string)
    requires AllWellFormed(docs)
    ensures Lookup(docs, UsernameOrEmailQuery(username, email)).Ok? <==>
      exists j :: 0 <= j < |docs| &&
        ((username != "" && FromDoc(docs[j]).username == username) || (email != "" && FromDoc(docs[j]).email == email))
  {
    forall j | 0 <= j < |docs|
      ensures Matches(docs[j], AsFilter(UsernameOrEmailQuery(username, email))) <==>
        (username != "" && FromDoc(docs[j]).username == username) || (email != "" && FromDoc(docs[j]).email == email)
    {
      UsernameOrEmailMatches(docs[j], username, email);
    }
  }

  /** UpdateUserPassword's `$set`: hashed_password (when non-empty) and last_updated_time, nothing else. */
  lemma PasswordUpdateWrites(password: string, now: Instant)
    ensures UpdateDoc(PasswordUpdate(password), now) ==
      if password == "" then map[LastUpdatedTime := At(now)]
      else map[HashedPassword := Str(password), LastUpdatedTime := At(now)]
  {
    SingleFieldDoc(PasswordUpdate(password), HashedPassword);
  }

  /** DeleteFirst takes out exactly the first matching document, whole. */
  lemma DeleteFirstRemovesIt(docs: seq<Doc>, q: Bson)
    requires FirstMatch(docs, q).Some?
    ensures var i := FirstMatch(docs, q).value; DeleteFirst(docs, q) == docs[..i] + docs[i + 1..]
  {
  }

  /**
   * DeleteToken removes the whole document of the first user holding the token;
   * with the empty token it removes the first document of the collection.
   */
  lemma DeleteTokenRemoves(docs: seq<Doc>, token: string)
    requires AllWellFormed(docs)
    ensures var r := DeleteFirst(docs, AsFilter(TokenQuery(token)));
      && (token == "" && |docs| > 0 ==> r == docs[1..])
      && (token != "" ==> forall j :: 0 <= j < |docs| && FromDoc(docs[j]).refreshToken != token ==> docs[j] in r)
      && |r| == if exists j :: 0 <= j < |docs| && (token == "" || FromDoc(docs[j]).refreshToken == token)
                then |docs| - 1 else |docs|
  {
    TokenQueryFilter(token);
    forall j | 0 <= j < |docs|
      ensures Matches(docs[j], AsFilter(TokenQuery(token))) <==> token == "" || StrAt(docs[j], RefreshToken) == token
    {
      EqualityMatches(docs[j], RefreshToken, token);
    }
    if token == "" && |docs| > 0 {
      FirstMatchOfMatchAll(docs);
      DeleteFirstRemovesIt(docs, AsFilter(TokenQuery(token)));
    }
  }

  class AuthStorage {
    const instance: Instance

    ghost predicate Valid()
      reads this, instance
    {
      instance.Valid() && instance.inited && instance.colName == AuthCollection
    }

    /** NewAuthStorage: an Instance for "auth", bound to the database's existing collection. */
    constructor (dbName: string, existing: seq<Doc>, next: ObjectId)
      requires StoreInvariant(existing, next)
      ensures Valid() && fresh(instance) && instance.dbName == dbName
      ensures instance.docs == existing && instance.nextId == next
    {
      var ins := new Instance(AuthCollection);
      ins.ApplyDatabase(dbName, existing, next);
      instance := ins;
    }

    /** CreateUser: the single record Create returns, i.e. the stored user with its new _id. */
    method CreateUser(data: User, now: Instant) returns (r: Result<User>)
      requires Valid()
      modifies instance
      ensures Valid()
      ensures var ins := InsertDoc(old(instance.docs), old(instance.nextId), StampCreated(ToDoc(data), now));
        && instance.docs == ins.docs && instance.nextId == ins.nextId
        && (r.Ok? <==> ins.error.None?)
        && (r.Err? ==> r.error == ins.error.value)
      ensures r.Ok? ==> |instance.docs| > 0 && r.value == FromDoc(instance.docs[|instance.docs| - 1])
    {
      var dataRes :- instance.Create(Record(data), now);
      return Ok(dataRes[0]);
    }

    /** UpdateUser: UpdateOne with the default options, returning the updated record. */
    method UpdateUser(query: User, data: User, now: Instant) returns (r: Result<User>)
      requires Valid()
      modifies instance
      ensures Valid() && instance.nextId == old(instance.nextId)
      ensures match UpdateTarget(old(instance.docs), AsFilter(query), UpdateDoc(data, now))
        case Err(e) => r == Err(e) && instance.docs == old(instance.docs)
        case Ok(i) =>
          && instance.docs == old(instance.docs)[i := SetFields(old(instance.docs)[i], UpdateDoc(data, now))]
          && r == Ok(FromDoc(instance.docs[i]))
    {
      var dataRes :- instance.UpdateOne(Record(query), Record(data), now, []);
      return Ok(dataRes[0]);
    }

    /** GetUserByUsernameOrEmail: QueryOne with the `$or` query. */
    method GetUserByUsernameOrEmail(username: string, email: string) returns (r: Result<User>)
      requires Valid()
      ensures r == Lookup(instance.docs, UsernameOrEmailQuery(username, email))
    {
      var dataRes :- instance.QueryOne(Record(UsernameOrEmailQuery(username, email)));
      return Ok(dataRes[0]);
    }

    /** GetUserByEmail: QueryOne on the email. */
    method GetUserByEmail(email: string) returns (r: Result<User>)
      requires Valid()
      ensures r == Lookup(instance.docs, EmailQuery(email))
    {
      var dataRes :- instance.QueryOne(Record(EmailQuery(email)));
      return Ok(dataRes[0]);
    }

    /** GetUserByID: QueryOne on the account id (user_id). */
    method GetUserByID(id: string) returns (r: Result<User>)
      requires Valid()
      ensures r == Lookup(instance.docs, IdQuery(id))
    {
      var dataRes :- instance.QueryOne(Record(IdQuery(id)));
      return Ok(dataRes[0]);
    }

    /** UpdateUserPassword: `$set` of hashed_password on the user the query matches. */
    method UpdateUserPassword(query: User, password: string, now: Instant) returns (r: Result<User>)
      requires Valid()
      modifies instance
      ensures Valid() && instance.nextId == old(instance.nextId)
      ensures match UpdateTarget(old(instance.docs), AsFilter(query), UpdateDoc(PasswordUpdate(password), now))
        case Err(e) => r == Err(e) && instance.docs == old(instance.docs)
        case Ok(i) =>
          && instance.docs == old(instance.docs)[i := SetFields(old(instance.docs)[i], UpdateDoc(PasswordUpdate(password), now))]
          && r == Ok(FromDoc(instance.docs[i]))
    {
      var dataRes :- instance.UpdateOne(Record(query), Record(PasswordUpdate(password)), now, []);
      return Ok(dataRes[0]);
    }

    /** DeleteToken: DeleteOne on refresh_token, which removes the user's whole document. */
    method DeleteToken(token: string) returns (r: Result<()>)
      requires Valid()
      modifies instance
      ensures Valid() && instance.nextId == old(instance.nextId)
      ensures r == Ok(()) && instance.docs == DeleteFirst(old(instance.docs), AsFilter(TokenQuery(token)))
    {
      r := instance.DeleteOne(Record(TokenQuery(token)));
    }

    /** What DeleteToken is meant to do: clear refresh_token on the user the query matches, keeping the user. */
    method RevokeToken(query: User, now: Instant) returns (r: Result<()>)
      requires Valid()
      modifies instance
      ensures Valid() && instance.nextId == old(instance.nextId)
      ensures match FirstMatch(old(instance.docs), AsFilter(query))
        case None => r == Err(NoDocuments) && instance.docs == old(instance.docs)
        case Some(i) =>
          r == Ok(()) && instance.docs == old(instance.docs)[i := Unset(old(instance.docs)[i], RefreshToken, now)]
    {
      r := instance.UnsetOne(Record(query), RefreshToken, now);
    }
  }
}
