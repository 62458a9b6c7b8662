/**
 * The account record (model.User) and its two serialisations: the bson
 * document the store keeps and the JSON object the API returns. Every
 * persisted field is tagged `omitempty`, so a zero field is simply absent
 * from the document; AccessToken is tagged `bson:"-"` and never stored;
 * ID, HashedPassword, RefreshToken and ComplexQuery are tagged `json:"-"`.
 */
module UserModel {
  import opened Results

  /** A 12-byte ObjectID; 0 stands for primitive.NilObjectID, the value its IsZero reports. */
  type ObjectId = nat
  /** An instant; 0 stands for Go's zero time.Time, the value its IsZero reports. */
  type Time = int
  /** What time.Now() returns: never the zero time. */
  type Instant = t: Time | t > 0 witness 1

  const NilObjectId: ObjectId := 0
  const ZeroTime: Time := 0

  // enum.UserRole, enum.UserStatus and enum.ProviderName
  const RoleUser: string := "USER"
  const RoleAdmin: string := "ADMIN"
  const RoleAuthor: string := "AUTHOR"
  const StatusActive: string := "ACTIVE"
  const StatusInactive: string := "INACTIVE"
  const ProviderGoogle: string := "GOOGLE"
  const ProviderGithub: string := "GITHUB"

  /** The bson keys of the persisted fields of User. */
  datatype Key =
    | Id | CreatedTime | LastUpdatedTime | UserId | Email | Username
    | HashedPassword | Role | RefreshToken | Status | Provider | Bio | Avatar
  {
    function Name(): string {
      match this
      case Id => "_id"
      case CreatedTime => "created_time"
      case LastUpdatedTime => "last_updated_time"
      case UserId => "user_id"
      case Email => "email"
      case Username => "username"
      case HashedPassword => "hashed_password"
      case Role => "role"
      case RefreshToken => "refresh_token"
      case Status => "status"
      case Provider => "provider"
      case Bio => "bio"
      case Avatar => "avatar"
    }
  }

  const AllKeys: set<Key> := {Id, CreatedTime, LastUpdatedTime, UserId, Email, Username,
                              HashedPassword, Role, RefreshToken, Status, Provider, Bio, Avatar}

  /** A bson value as the store keeps it. */
  datatype Value = Str(s: string) | Oid(id: ObjectId) | At(t: Time)

  /** A stored document, or the field equalities of a filter or a $set. */
  type Doc = map<Key, Value>

  /** One operand of a "$and": the document {"$or": branches}; a plain equality document d is AnyOf([d]). */
  datatype Clause = AnyOf(branches: seq<Doc>)

  /** model.User; pointer fields are Options, None standing for nil. */
  datatype User = User(
    id: Option<ObjectId>,
    createdTime: Option<Time>,
    lastUpdatedTime: Option<Time>,
    userId: string,
    email: string,
    username: string,
    hashedPassword: string,
    role: string,
    refreshToken: string,
    status: string,
    provider: string,
    bio: Option<string>,
    avatar: Option<ObjectId>,
    accessToken: string,          // bson:"-"
    complexQuery: seq<Clause>)    // bson:"$and,omitempty", only meaningful in a filter

  /** model.User{}: every field zero. */
  const EmptyUser: User :=
    User(None, None, None, "", "", "", "", "", "", "", "", None, None, "", [])

  // ----- bson encoding: omitempty drops a zero field -----

  /** A *ObjectID field: dropped when nil or when the ObjectID is zero (it implements IsZero). */
  function OidField(o: Option<ObjectId>): Option<Value> {
    if o.Some? && o.value != NilObjectId then Some(Oid(o.value)) else None
  }

  /** A *time.Time field: dropped when nil or when the time is zero (it implements IsZero). */
  function TimeField(o: Option<Time>): Option<Value> {
    if o.Some? && o.value != ZeroTime then Some(At(o.value)) else None
  }

  /** A string field: dropped when empty. */
  function StrField(s: string): Option<Value> {
    if s == "" then None else Some(Str(s))
  }

  /** A *string field: dropped only when nil, so a pointer to "" is stored. */
  function PtrStrField(o: Option<string>): Option<Value> {
    if o.Some? then Some(Str(o.value)) else None
  }

  /** The value u stores under k, or None when the field is zero for omitempty. */
  function Field(u: User, k: Key): Option<Value> {
    match k
    case Id => OidField(u.id)
    case CreatedTime => TimeField(u.createdTime)
    case LastUpdatedTime => TimeField(u.lastUpdatedTime)
    case UserId => StrField(u.userId)
    case Email => StrField(u.email)
    case Username => StrField(u.username)
    case HashedPassword => StrField(u.hashedPassword)
    case Role => StrField(u.role)
    case RefreshToken => StrField(u.refreshToken)
    case Status => StrField(u.status)
    case Provider => StrField(u.provider)
    case Bio => PtrStrField(u.bio)
    case Avatar => OidField(u.avatar)
  }

  /** bson.Marshal of a User, restricted to its persisted fields. */
  function ToDoc(u: User): Doc {
    map k | k in AllKeys && Field(u, k).Some? :: Field(u, k).value
  }

  // ----- bson decoding -----

  function OidAt(d: Doc, k: Key): Option<ObjectId> {
    if k in d && d[k].Oid? then Some(d[k].id) else None
  }

  function TimeAt(d: Doc, k: Key): Option<Time> {
    if k in d && d[k].At? then Some(d[k].t) else None
  }

  function StrAt(d: Doc, k: Key): string {
    if k in d && d[k].Str? then d[k].s else ""
  }

  function PtrStrAt(d: Doc, k: Key): Option<string> {
    if k in d && d[k].Str? then Some(d[k].s) else None
  }

  /** bson.Unmarshal of a stored document into a fresh User. */
  function FromDoc(d: Doc): User {
    User(OidAt(d, Id), TimeAt(d, CreatedTime), TimeAt(d, LastUpdatedTime),
         StrAt(d, UserId), StrAt(d, Email), StrAt(d, Username), StrAt(d, HashedPassword),
         StrAt(d, Role), StrAt(d, RefreshToken), StrAt(d, Status), StrAt(d, Provider),
         PtrStrAt(d, Bio), OidAt(d, Avatar), "", [])
  }

  /** A value of the bson type of k that omitempty would keep. */
  predicate Fits(k: Key, v: Value) {
    match k
    case Id => v.Oid? && v.id != NilObjectId
    case Avatar => v.Oid? && v.id != NilObjectId
    case CreatedTime => v.At? && v.t != ZeroTime
    case LastUpdatedTime => v.At? && v.t != ZeroTime
    case Bio => v.Str?
    case _ => v.Str? && v.s != ""
  }

  /** A document some User encodes to. */
  predicate WellFormed(d: Doc) {
    forall k :: k in d ==> Fits(k, d[k])
  }

  /** What survives a store round trip: zero pointers become nil, the unstored fields are cleared. */
  function Stored(u: User): User {
    u.(id := if OidField(u.id).Some? then u.id else None,
       createdTime := if TimeField(u.createdTime).Some? then u.createdTime else None,
       lastUpdatedTime := if TimeField(u.lastUpdatedTime).Some? then u.lastUpdatedTime else None,
       avatar := if OidField(u.avatar).Some? then u.avatar else None,
       accessToken := "",
       complexQuery := [])
  }

  /** Every key belongs to AllKeys, so ToDoc looks at every field. */
  lemma AllKeysComplete(k: Key)
    ensures k in AllKeys
  {
  }

  /** The encoding of a record is a document in the store's shape. */
  lemma ToDocWellFormed(u: User)
    ensures WellFormed(ToDoc(u))
  {
    forall k | k in ToDoc(u) ensures Fits(k, ToDoc(u)[k]) {
      match k
      case Id =>
      case Avatar =>
      case CreatedTime =>
      case LastUpdatedTime =>
      case Bio =>
      case _ =>
    }
  }

  /** Decoding an encoded record gives the record with its unstored fields cleared. */
  lemma DecodeEncode(u: User)
    ensures FromDoc(ToDoc(u)) == Stored(u)
  {
    DecodeEncodeIds(u);
    DecodeEncodeNames(u);
    DecodeEncodeAccount(u);
  }

  /** The identifier, time and avatar fields survive a round trip when non-zero. */
  lemma DecodeEncodeIds(u: User)
    ensures var v, w := FromDoc(ToDoc(u)), Stored(u);
      v.id == w.id && v.createdTime == w.createdTime && v.lastUpdatedTime == w.lastUpdatedTime
      && v.avatar == w.avatar
  {
    ToDocAt(u, Id);
    ToDocAt(u, CreatedTime);
    ToDocAt(u, LastUpdatedTime);
    ToDocAt(u, Avatar);
  }

  /** The naming fields survive a round trip. */
  lemma DecodeEncodeNames(u: User)
    ensures var v := FromDoc(ToDoc(u));
      v.userId == u.userId && v.email == u.email && v.username == u.username && v.bio == u.bio
  {
    ToDocAt(u, UserId);
    ToDocAt(u, Email);
    ToDocAt(u, Username);
    ToDocAt(u, Bio);
  }

  /** The credential and account-state fields survive a round trip. */
  lemma DecodeEncodeAccount(u: User)
    ensures var v := FromDoc(ToDoc(u));
      v.hashedPassword == u.hashedPassword && v.role == u.role && v.refreshToken == u.refreshToken
      && v.status == u.status && v.provider == u.provider
  {
    ToDocAt(u, HashedPassword);
    ToDocAt(u, Role);
    ToDocAt(u, RefreshToken);
    ToDocAt(u, Status);
    ToDocAt(u, Provider);
  }

  /** The entry of one key in an encoded record. */
  lemma ToDocAt(u: User, k: Key)
    ensures k in ToDoc(u) <==> Field(u, k).Some?
    ensures k in ToDoc(u) ==> ToDoc(u)[k] == Field(u, k).value
  {
  }

  /** Encoding a decoded well-formed document gives the document back. */
  lemma EncodeDecode(d: Doc)
    requires WellFormed(d)
    ensures ToDoc(FromDoc(d)) == d
  {
    var u := FromDoc(d);
    forall k | k in AllKeys
      ensures Field(u, k) == (if k in d then Some(d[k]) else None)
    {
      if k in d {
        assert Fits(k, d[k]);
      }
    }
    var e := ToDoc(u);
    assert forall k :: k in e <==> k in d by {
      forall k ensures k in e <==> k in d { AllKeysComplete(k); }
    }
  }

  /** Which fields a record stores: exactly its non-zero persisted fields. */
  lemma ToDocKeys(u: User)
    ensures Id in ToDoc(u) <==> u.id.Some? && u.id.value != NilObjectId
    ensures CreatedTime in ToDoc(u) <==> u.createdTime.Some? && u.createdTime.value != ZeroTime
    ensures LastUpdatedTime in ToDoc(u) <==> u.lastUpdatedTime.Some? && u.lastUpdatedTime.value != ZeroTime
    ensures UserId in ToDoc(u) <==> u.userId != ""
    ensures Email in ToDoc(u) <==> u.email != ""
    ensures Username in ToDoc(u) <==> u.username != ""
    ensures HashedPassword in ToDoc(u) <==> u.hashedPassword != ""
    ensures Role in ToDoc(u) <==> u.role != ""
    ensures RefreshToken in ToDoc(u) <==> u.refreshToken != ""
    ensures Status in ToDoc(u) <==> u.status != ""
    ensures Provider in ToDoc(u) <==> u.provider != ""
    ensures Bio in ToDoc(u) <==> u.bio.Some?
    ensures Avatar in ToDoc(u) <==> u.avatar.Some? && u.avatar.value != NilObjectId
  {
    ToDocAt(u, Id);
    ToDocAt(u, CreatedTime);
    ToDocAt(u, LastUpdatedTime);
    ToDocAt(u, UserId);
    ToDocAt(u, Email);
    ToDocAt(u, Username);
    ToDocAt(u, HashedPassword);
    ToDocAt(u, Role);
    ToDocAt(u, RefreshToken);
    ToDocAt(u, Status);
    ToDocAt(u, Provider);
    ToDocAt(u, Bio);
    ToDocAt(u, Avatar);
  }

  /** Giving a record a non-zero _id adds exactly that field to its encoding. */
  lemma ToDocWithId(u: User, id: ObjectId)
    requires id != NilObjectId
    ensures ToDoc(u.(id := Some(id))) == ToDoc(u)[Id := Oid(id)]
  {
    var v := u.(id := Some(id));
    assert forall k :: k != Id ==> Field(v, k) == Field(u, k);
  }

  /** Giving a record a non-zero created_time adds exactly that field to its encoding. */
  lemma ToDocWithCreatedTime(u: User, t: Time)
    requires t != ZeroTime
    ensures ToDoc(u.(createdTime := Some(t))) == ToDoc(u)[CreatedTime := At(t)]
  {
    var v := u.(createdTime := Some(t));
    assert forall k :: k != CreatedTime ==> Field(v, k) == Field(u, k);
  }

  /** A record and its stored form encode alike. */
  lemma ToDocStored(u: User)
    ensures ToDoc(Stored(u)) == ToDoc(u)
  {
    assert forall k :: Field(Stored(u), k) == Field(u, k);
  }

  /** Writing last_updated_time into a document changes only that field of its decoding. */
  lemma FromDocWithLastUpdated(d: Doc, t: Time)
    ensures FromDoc(d[LastUpdatedTime := At(t)]) == FromDoc(d).(lastUpdatedTime := Some(t))
  {
  }

  /** Writing hashed_password into a document changes only that field of its decoding. */
  lemma FromDocWithPassword(d: Doc, hashed: string)
    ensures FromDoc(d[HashedPassword := Str(hashed)]) == FromDoc(d).(hashedPassword := hashed)
  {
  }

  /** AccessToken is tagged bson:"-": it is never written and never read back. */
  lemma AccessTokenNotPersisted(u: User, token: string, d: Doc)
    ensures ToDoc(u.(accessToken := token)) == ToDoc(u)
    ensures FromDoc(d).accessToken == ""
  {
    assert forall k :: Field(u.(accessToken := token), k) == Field(u, k);
  }

  /** The empty record encodes to the empty document: the filter that matches everything. */
  lemma EmptyUserEncodesEmpty()
    ensures ToDoc(EmptyUser) == map[]
  {
    assert forall k :: Field(EmptyUser, k).None?;
  }

  // ----- JSON encoding (encoding/json: omitempty drops "", and nil pointers only) -----

  function PutJson(m: map<string, Value>, name: string, v: Option<Value>): map<string, Value> {
    if v.Some? then m[name := v.value] else m
  }

  function PtrTimeJson(o: Option<Time>): Option<Value> {
    if o.Some? then Some(At(o.value)) else None
  }

  function PtrOidJson(o: Option<ObjectId>): Option<Value> {
    if o.Some? then Some(Oid(o.value)) else None
  }

  /** json.Marshal of a User. */
  function ToJson(u: User): map<string, Value> {
    var m := PutJson(map[], "createdTime", PtrTimeJson(u.createdTime));
    var m := PutJson(m, "lastUpdatedTime", PtrTimeJson(u.lastUpdatedTime));
    var m := PutJson(m, "userId", StrField(u.userId));
    var m := PutJson(m, "email", StrField(u.email));
    var m := PutJson(m, "username", StrField(u.username));
    var m := PutJson(m, "role", StrField(u.role));
    var m := PutJson(m, "status", StrField(u.status));
    var m := PutJson(m, "provider", StrField(u.provider));
    var m := PutJson(m, "bio", PtrStrField(u.bio));
    var m := PutJson(m, "avatar", PtrOidJson(u.avatar));
    PutJson(m, "accessToken", StrField(u.accessToken))
  }

  /** The json:"-" fields (ID, HashedPassword, RefreshToken, ComplexQuery) never reach a response. */
  lemma JsonHidesSecrets(u: User, id: Option<ObjectId>, hash: string, token: string, q: seq<Clause>)
    ensures ToJson(u) == ToJson(u.(id := id, hashedPassword := hash, refreshToken := token, complexQuery := q))
  {
  }
}
