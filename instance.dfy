/**
 * repository/instance.go: one CRUD engine over one collection. Queries and
 * updaters are records whose non-zero fields are the equalities of a filter or
 * the fields of a `$set`; the engine stamps created_time on insert and
 * last_updated_time on every update.
 */
module Repository {
  import opened Results
  import opened UserModel
  import opened Mongo

  /** An `interface{}` argument of Instance: nil, a User record, a slice, or any other value. */
  datatype Entity = Nil | Record(user: User) | List(items: seq<Entity>) | Scalar

  /** What a call ended in: a returned value, or a run-time panic. */
  datatype Outcome<T> = Returned(value: T) | Panicked(reason: string)

  /** FindOneAndUpdateOptions.ReturnDocument. */
  datatype ReturnDocument = Before | After
  datatype FindOneAndUpdateOptions = FindOneAndUpdateOptions(returnDocument: Option<ReturnDocument>)

  /** Find's default limit when the caller gives none. */
  const DefaultLimit: nat := 1000

  /** The record an entity converts from; nil converts like the zero record. */
  function UserOf(ent: Entity): User {
    if ent.Record? then ent.user else EmptyUser
  }

  /** The filter a record stands for: its non-zero persisted fields, conjoined with its ComplexQuery. */
  function AsFilter(u: User): Bson {
    Bson(ToDoc(u), u.complexQuery)
  }

  lemma EncodeDecodeIfWellFormed(d: Doc)
    ensures WellFormed(d) ==> ToDoc(FromDoc(d)) == d
  {
    if WellFormed(d) { EncodeDecode(d); }
  }

  /** convertToObject: a document decoded into a fresh record. */
  function ConvertToObject(b: Doc): (u: User)
    ensures WellFormed(b) ==> ToDoc(u) == b
    ensures u.accessToken == "" && u.complexQuery == []
  {
    EncodeDecodeIfWellFormed(b);
    FromDoc(b)
  }

  /** convertToBson: nil gives {}, a record its bson.M, any other value fails to marshal. */
  function ConvertToBson(ent: Entity): (r: Result<Bson>)
    ensures r.Ok? <==> ent.Nil? || ent.Record?
    ensures r.Err? ==> r.error == MarshalFailed
    ensures ent.Nil? ==> r == Ok(MatchAll)
    ensures r.Ok? ==> r.value == AsFilter(UserOf(ent)) && WellFormed(r.value.fields)
  {
    match ent
    case Nil =>
      EmptyUserEncodesEmpty();
      Ok(MatchAll)
    case Record(u) =>
      ToDocWellFormed(u);
      Ok(AsFilter(u))
    case _ => Err(MarshalFailed)
  }

  /** Converting an entity to bson and back gives its stored form. */
  lemma ConvertRoundTrip(ent: Entity)
    requires ConvertToBson(ent).Ok?
    ensures ConvertToObject(ConvertToBson(ent).value.fields) == Stored(UserOf(ent))
  {
    DecodeEncode(UserOf(ent));
  }

  /** Create's stamp: created_time becomes now only when the document has none. */
  function StampCreated(d: Doc, now: Instant): (r: Doc)
    ensures CreatedTime in r
    ensures CreatedTime in d ==> r == d
    ensures CreatedTime !in d ==> r == d[CreatedTime := At(now)]
  {
    if CreatedTime in d then d else d[CreatedTime := At(now)]
  }

  lemma StampKeepsWellFormed(d: Doc, now: Instant)
    requires WellFormed(d)
    ensures WellFormed(StampCreated(d, now))
  {
    var r := StampCreated(d, now);
    forall k | k in r ensures Fits(k, r[k]) {
      if k != CreatedTime || CreatedTime in d { assert r[k] == d[k]; }
    }
  }

  /** A record as Create returns it: the stored form, with created_time now when it had none. */
  function WithCreatedTime(u: User, now: Instant): User {
    if u.createdTime.Some? then u else u.(createdTime := Some(now))
  }

  /** The items of a batch converted and stamped with the batch's single timestamp. */
  function ConvertAll(items: seq<Entity>, now: Instant): (r: Result<seq<Doc>>)
    ensures r.Ok? <==> forall i :: 0 <= i < |items| ==> ConvertToBson(items[i]).Ok?
    ensures r.Err? ==> r.error == MarshalFailed
    ensures r.Ok? ==> |r.value| == |items|
    ensures r.Ok? ==> forall i :: 0 <= i < |items| ==>
      r.value[i] == StampCreated(ToDoc(UserOf(items[i])), now) && WellFormed(r.value[i])
    decreases |items|
  {
    if |items| == 0 then Ok([])
    else
      var init :- ConvertAll(items[..|items| - 1], now);
      var b :- ConvertToBson(items[|items| - 1]);
      StampKeepsWellFormed(b.fields, now);
      Ok(init + [StampCreated(b.fields, now)])
  }

  /** The `$set` document of UpdateOne: the updater's non-zero fields and last_updated_time = now. */
  function UpdateDoc(u: User, now: Instant): (r: Doc)
    ensures LastUpdatedTime in r && r[LastUpdatedTime] == At(now)
    ensures WellFormed(r)
  {
    ToDocWellFormed(u);
    ToDoc(u)[LastUpdatedTime := At(now)]
  }

  /**
   * The document FindOneAndUpdate changes: the first match, unless the `$set`
   * would change its _id; no match and an _id change are errors.
   */
  function UpdateTarget(docs: seq<Doc>, q: Bson, upd: Doc): (r: Result<nat>)
    ensures r.Ok? ==> r.value < |docs| && Matches(docs[r.value], q)
    ensures r.Ok? ==> forall j :: 0 <= j < r.value ==> !Matches(docs[j], q)
    ensures r.Ok? ==> Id in upd ==> upd[Id] == Oid(IdOf(docs[r.value]))
    ensures r == Err(NoDocuments) <==> forall j :: 0 <= j < |docs| ==> !Matches(docs[j], q)
    ensures r.Err? ==> r.error in {NoDocuments, ImmutableId}
  {
    match FirstMatch(docs, q)
    case None => Err(NoDocuments)
    case Some(i) => if Id in upd && upd[Id] != Oid(IdOf(docs[i])) then Err(ImmutableId) else Ok(i)
  }

  /** The driver merges option structs in order, a later set field winning; its own default is Before. */
  function MergedReturnDocument(opts: seq<FindOneAndUpdateOptions>): ReturnDocument
    decreases |opts|
  {
    if |opts| == 0 then Before
    else if opts[|opts| - 1].returnDocument.Some? then opts[|opts| - 1].returnDocument.value
    else MergedReturnDocument(opts[..|opts| - 1])
  }

  /** Which document UpdateOne returns: after the update unless the caller's options say Before. */
  function ReturnsAfter(opts: seq<FindOneAndUpdateOptions>): bool {
    opts == [] || MergedReturnDocument(opts) == After
  }

  /** The limit Query passes to Find. */
  function EffectiveLimit(limit: int): (k: nat)
    ensures k > 0
    ensures limit > 0 ==> k == limit
    ensures limit <= 0 ==> k == DefaultLimit
  {
    if limit <= 0 then DefaultLimit else limit
  }

  /** The skip Query passes to Find: set only for a positive offset. */
  function Skip(offset: int): nat {
    if offset > 0 then offset else 0
  }

  /** Decoding a list of documents. */
  function Decode(page: seq<Doc>): (r: seq<User>)
    ensures |r| == |page| && forall i :: 0 <= i < |page| ==> r[i] == FromDoc(page[i])
  {
    seq(|page|, i requires 0 <= i < |page| => FromDoc(page[i]))
  }

  /** Query's answer on a bound collection: nil (None) when the window is empty. */
  function QueryPage(docs: seq<Doc>, q: Bson, offset: int, limit: int): Option<seq<User>> {
    var page := Page(Select(docs, q), Skip(offset), EffectiveLimit(limit));
    if |page| == 0 then None else Some(Decode(page))
  }

  /** The runtime's largest allocation on linux/amd64 (48 address bits), in bytes. */
  const MaxAlloc: int := 0x1_0000_0000_0000
  /** The list holds *User elements, one pointer each. */
  const PointerSize: int := 8
  /** The largest capacity whose backing array the runtime will allocate. */
  const MaxCapacity: int := MaxAlloc / PointerSize

  /**
   * reflect.MakeSlice(t, 0, capacity) on a slice of pointers: a negative capacity panics in
   * reflect, and one whose backing array exceeds MaxAlloc panics in the runtime's allocator.
   */
  function NewList(capacity: int): (r: Outcome<seq<User>>)
    ensures r.Panicked? <==> capacity < 0 || capacity * PointerSize > MaxAlloc
    ensures r.Returned? ==> r.value == []
  {
    if capacity < 0 then Panicked("reflect.MakeSlice: negative cap")
    else if capacity > MaxCapacity then Panicked("runtime: allocation size out of range")
    else Returned([])
  }

  /** Query returns at most the effective limit, never an empty list, and only documents the filter matches. */
  lemma QueryPageBounds(docs: seq<Doc>, q: Bson, offset: int, limit: int)
    ensures var r := QueryPage(docs, q, offset, limit);
      && (r.Some? ==> 0 < |r.value| <= EffectiveLimit(limit))
      && (r.Some? ==> forall i :: 0 <= i < |r.value| ==>
            exists j :: 0 <= j < |docs| && Matches(docs[j], q) && r.value[i] == FromDoc(docs[j]))
      && (r.None? <==> |Select(docs, q)| <= Skip(offset))
  {
    var s := Select(docs, q);
    var page := Page(s, Skip(offset), EffectiveLimit(limit));
    var r := QueryPage(docs, q, offset, limit);
    if r.Some? {
      assert r.value == Decode(page);
      forall i | 0 <= i < |r.value|
        ensures exists j :: 0 <= j < |docs| && Matches(docs[j], q) && r.value[i] == FromDoc(docs[j])
      {
        var x := s[Skip(offset) + i];
        assert page[i] == x && Matches(x, q) && x in docs;
        var j :| 0 <= j < |docs| && docs[j] == x;
        assert r.value[i] == FromDoc(docs[j]);
      }
    }
  }

  /** The filter {} selects the whole collection. */
  lemma {:induction false} SelectMatchAll(docs: seq<Doc>)
    ensures Select(docs, MatchAll) == docs
  {
    if |docs| > 0 {
      SelectMatchAll(docs[1..]);
      MatchAllMatches(docs[0]);
      assert docs == [docs[0]] + docs[1..];
    }
  }

  class Instance {
    var dbName: string
    const colName: string
    /** coll != nil: a collection has been bound by ApplyDatabase. */
    var inited: bool
    /** The bound collection, in natural order. */
    var docs: seq<Doc>
    /** The next ObjectID the driver generates for a document without _id. */
    var nextId: ObjectId

    ghost predicate Valid()
      reads this
    {
      StoreInvariant(docs, nextId)
    }

    constructor (colName: string)
      ensures this.colName == colName && !inited && docs == [] && nextId == 1 && Valid()
    {
      this.colName := colName;
      dbName := "";
      inited := false;
      docs := [];
      nextId := 1;
    }

    /**
     * ApplyDatabase: binds the collection named colName of the database. The collection's
     * documents as they stand in the database, and the next id the driver will generate,
     * come in as values; MongoDB's unique _id index keeps their ids distinct.
     */
    method ApplyDatabase(dbName: string, existing: seq<Doc>, next: ObjectId)
      requires StoreInvariant(existing, next)
      modifies this
      ensures Valid() && inited && this.dbName == dbName
      ensures docs == existing && nextId == next
    {
      this.dbName := dbName;
      inited := true;
      docs := existing;
      nextId := next;
    }

    /** interfaceSlice: the elements of a slice, copied one by one. */
    method InterfaceSlice(slice: Entity) returns (r: Result<seq<Entity>>)
      ensures slice.List? ==> r == Ok(slice.items)
      ensures !slice.List? ==> r == Err(NonSlice)
    {
      if !slice.List? {
        return Err(NonSlice);
      }
      var s := slice.items;
      var ret := new Entity[|s|];
      var i := 0;
      while i < |s|
        invariant 0 <= i <= |s|
        invariant ret[..i] == s[..i]
      {
        ret[i] := s[i];
        i := i + 1;
      }
      assert ret[..] == ret[..i] && s[..i] == s;
      return Ok(ret[..]);
    }

    /** Create: convert, stamp created_time if absent, insert, return the stored record with its _id. */
    method Create(ent: Entity, now: Instant) returns (r: Result<seq<User>>)
      requires Valid()
      modifies this
      ensures Valid() && inited == old(inited)
      ensures !old(inited) ==> r == Err(NotInited(colName)) && docs == old(docs) && nextId == old(nextId)
      ensures old(inited) && ConvertToBson(ent).Err? ==>
        r == Err(MarshalFailed) && docs == old(docs) && nextId == old(nextId)
      ensures old(inited) && ConvertToBson(ent).Ok? ==>
        var ins := InsertDoc(old(docs), old(nextId), StampCreated(ToDoc(UserOf(ent)), now));
        && docs == ins.docs && nextId == ins.nextId
        && (r.Ok? <==> ins.error.None?)
        && (r.Err? ==> r.error == ins.error.value)
      ensures r.Ok? ==> |docs| > 0 && r.value == [FromDoc(docs[|docs| - 1])]
    {
      if !inited {
        return Err(NotInited(colName));
      }
      var obj :- ConvertToBson(ent);
      var fields := obj.fields;
      if CreatedTime !in fields {
        fields := fields[CreatedTime := At(now)];
      }
      assert fields == StampCreated(obj.fields, now);
      StampKeepsWellFormed(obj.fields, now);
      var ins := InsertDoc(docs, nextId, fields);
      InsertDocKeepsInvariant(docs, nextId, fields);
      if ins.error.Some? {
        return Err(ins.error.value);
      }
      docs, nextId := ins.docs, ins.nextId;
      var stored := fields[Id := Oid(ins.ids[0])];
      assert stored == docs[|docs| - 1] by {
        if Id in fields { assert Fits(Id, fields[Id]); }
      }
      var created := ConvertToObject(stored);
      return Ok([created]);
    }

    /** CreateMany: every item converted first (one shared timestamp), then one ordered insert. */
    method CreateMany(entityList: Entity, now: Instant) returns (r: Result<seq<ObjectId>>)
      requires Valid()
      modifies this
      ensures Valid() && inited == old(inited)
      ensures !old(inited) ==> r == Err(NotInited(colName)) && docs == old(docs) && nextId == old(nextId)
      ensures old(inited) && !entityList.List? ==>
        r == Err(NonSlice) && docs == old(docs) && nextId == old(nextId)
      ensures old(inited) && entityList.List? ==>
        match ConvertAll(entityList.items, now)
        case Err(e) => r == Err(e) && docs == old(docs) && nextId == old(nextId)
        case Ok(batch) =>
          var ins := InsertBatch(old(docs), old(nextId), batch);
          && docs == ins.docs && nextId == ins.nextId
          && r == (if ins.error.None? then Ok(ins.ids) else Err(ins.error.value))
    {
      if !inited {
        return Err(NotInited(colName));
      }
      var list :- InterfaceSlice(entityList);
      var bsonList :- ConvertBatch(list, now);
      var ins := InsertBatch(docs, nextId, bsonList);
      if |bsonList| > 0 {
        InsertSeqKeepsInvariant(docs, nextId, bsonList);
      }
      docs, nextId := ins.docs, ins.nextId;
      if ins.error.Some? {
        return Err(ins.error.value);
      }
      return Ok(ins.ids);
    }

    /** CreateMany's conversion loop: each item marshalled, created_time stamped when absent. */
    method ConvertBatch(list: seq<Entity>, now: Instant) returns (r: Result<seq<Doc>>)
      ensures r == ConvertAll(list, now)
    {
      var bsonList: seq<Doc> := [];
      var i := 0;
      while i < |list|
        invariant 0 <= i <= |list|
        invariant ConvertAll(list[..i], now) == Ok(bsonList)
      {
        assert list[..i + 1][..i] == list[..i];
        var b :- ConvertToBson(list[i]);
        if CreatedTime !in b.fields {
          b := b.(fields := b.fields[CreatedTime := At(now)]);
        }
        bsonList := bsonList + [b.fields];
        i := i + 1;
      }
      assert list[..i] == list;
      return Ok(bsonList);
    }

    /** UpdateOne: `$set` the updater's non-zero fields and last_updated_time on the first match. */
    method UpdateOne(query: Entity, updater: Entity, now: Instant, opts: seq<FindOneAndUpdateOptions>)
      returns (r: Result<seq<User>>)
      requires Valid()
      modifies this
      ensures Valid() && nextId == old(nextId) && inited == old(inited)
      ensures r.Err? ==> docs == old(docs)
      ensures !old(inited) ==> r == Err(NotInited(colName))
      ensures old(inited) && !(ConvertToBson(updater).Ok? && ConvertToBson(query).Ok?) ==>
        r == Err(MarshalFailed)
      ensures old(inited) && ConvertToBson(updater).Ok? && ConvertToBson(query).Ok? ==>
        var upd := UpdateDoc(UserOf(updater), now);
        match UpdateTarget(old(docs), AsFilter(UserOf(query)), upd)
        case Err(e) => r == Err(e)
        case Ok(i) =>
          && docs == old(docs)[i := SetFields(old(docs)[i], upd)]
          && r == Ok([FromDoc(if ReturnsAfter(opts) then docs[i] else old(docs)[i])])
    {
      if !inited {
        return Err(NotInited(colName));
      }
      var bUpdater :- ConvertToBson(updater);
      var upd := bUpdater.fields[LastUpdatedTime := At(now)];
      var converted :- ConvertToBson(query);
      var o := opts;
      if o == [] {
        o := [FindOneAndUpdateOptions(Some(After))];
      }
      // FindOneAndUpdate
      var target := UpdateTarget(docs, converted, upd);
      if target.Err? {
        return Err(target.error);
      }
      var i := target.value;
      var before := docs[i];
      SetKeepsInvariant(docs, nextId, i, upd);
      docs := docs[i := SetFields(before, upd)];
      var returned := if MergedReturnDocument(o) == After then docs[i] else before;
      return Ok([ConvertToObject(returned)]);
    }

    /**
     * Query as written: the raw limit reaches reflect.MakeSlice, so a negative limit panics,
     * and so does one past the allocation bound.
     */
    method QueryAsWritten(query: Entity, offset: int, limit: int)
      returns (r: Outcome<Result<Option<seq<User>>>>)
      requires Valid()
      ensures r.Panicked? <==> inited && ConvertToBson(query).Ok? && (limit < 0 || limit > MaxCapacity)
      ensures !inited ==> r == Returned(Err(NotInited(colName)))
      ensures inited && ConvertToBson(query).Err? ==> r == Returned(Err(MarshalFailed))
      ensures inited && ConvertToBson(query).Ok? && 0 <= limit <= MaxCapacity ==>
        r == Returned(Ok(QueryPage(docs, AsFilter(UserOf(query)), offset, limit)))
    {
      if !inited {
        return Returned(Err(NotInited(colName)));
      }
      var converted := ConvertToBson(query);
      if converted.Err? {
        return Returned(Err(converted.error));
      }
      // Find with the limit defaulted and the skip set only for a positive offset
      var found := Page(Select(docs, converted.value), Skip(offset), EffectiveLimit(limit));
      var list := NewList(limit);
      if list.Panicked? {
        return Panicked(list.reason);
      }
      if |found| == 0 {
        return Returned(Ok(None));
      }
      return Returned(Ok(Some(Decode(found))));
    }

    /**
     * Query: Find with skip and limit; a nil list and no error when nothing is in the window.
     * The list is allocated with the defaulted limit, so only a limit past the allocation
     * bound still panics.
     */
    method Query(query: Entity, offset: int, limit: int) returns (r: Outcome<Result<Option<seq<User>>>>)
      requires Valid()
      ensures r.Panicked? <==> inited && ConvertToBson(query).Ok? && limit > MaxCapacity
      ensures !inited ==> r == Returned(Err(NotInited(colName)))
      ensures inited && ConvertToBson(query).Err? ==> r == Returned(Err(MarshalFailed))
      ensures inited && ConvertToBson(query).Ok? && limit <= MaxCapacity ==>
        r == Returned(Ok(QueryPage(docs, AsFilter(UserOf(query)), offset, limit)))
      ensures r.Returned? && r.value.Ok? && r.value.value.Some? ==>
        0 < |r.value.value.value| <= EffectiveLimit(limit)
    {
      if !inited {
        return Returned(Err(NotInited(colName)));
      }
      var converted := ConvertToBson(query);
      if converted.Err? {
        return Returned(Err(converted.error));
      }
      var found := Page(Select(docs, converted.value), Skip(offset), EffectiveLimit(limit));
      var list := NewList(EffectiveLimit(limit));
      if list.Panicked? {
        return Panicked(list.reason);
      }
      QueryPageBounds(docs, converted.value, offset, limit);
      if |found| == 0 {
        return Returned(Ok(None));
      }
      return Returned(Ok(Some(Decode(found))));
    }

    /** QueryAll: every document, with no limit; nil when the collection is empty. */
    method QueryAll() returns (r: Result<Option<seq<User>>>)
      requires Valid()
      ensures !inited ==> r == Err(NotInited(colName))
      ensures inited ==> r == Ok(if |docs| == 0 then None else Some(Decode(docs)))
    {
      if !inited {
        return Err(NotInited(colName));
      }
      var rs := Select(docs, MatchAll);
      SelectMatchAll(docs);
      if |rs| == 0 {
        return Ok(None);
      }
      return Ok(Some(Decode(rs)));
    }

    /** QueryOne: the first matching document, or "document is not existed". */
    method QueryOne(query: Entity) returns (r: Result<seq<User>>)
      requires Valid()
      ensures !inited ==> r == Err(NotInited(colName))
      ensures inited && ConvertToBson(query).Err? ==> r == Err(MarshalFailed)
      ensures inited && ConvertToBson(query).Ok? ==>
        match FirstMatch(docs, AsFilter(UserOf(query)))
        case None => r == Err(DocumentNotExisted)
        case Some(i) => r == Ok([FromDoc(docs[i])])
    {
      if !inited {
        return Err(NotInited(colName));
      }
      var converted :- ConvertToBson(query);
      var result := FirstMatch(docs, converted);
      if result.None? {
        return Err(DocumentNotExisted);
      }
      return Ok([ConvertToObject(docs[result.value])]);
    }

    /** Count: the number of matching documents. */
    method Count(query: Entity) returns (r: Result<nat>)
      requires Valid()
      ensures !inited ==> r == Err(NotInited(colName))
      ensures inited && ConvertToBson(query).Err? ==> r == Err(MarshalFailed)
      ensures inited && ConvertToBson(query).Ok? ==>
        r == Ok(|MatchingIndices(docs, AsFilter(UserOf(query)))|)
    {
      if !inited {
        return Err(NotInited(colName));
      }
      var converted :- ConvertToBson(query);
      SelectCount(docs, converted);
      return Ok(|Select(docs, converted)|);
    }

    /**
     * `$unset` of one field together with `$set` of last_updated_time on the
     * first match. instance.go has no such operation; the corrected logout uses it.
     */
    method UnsetOne(query: Entity, key: Key, now: Instant) returns (r: Result<()>)
      requires Valid()
      requires key != Id
      modifies this
      ensures Valid() && nextId == old(nextId) && inited == old(inited)
      ensures r.Err? ==> docs == old(docs)
      ensures !old(inited) ==> r == Err(NotInited(colName))
      ensures old(inited) && ConvertToBson(query).Err? ==> r == Err(MarshalFailed)
      ensures old(inited) && ConvertToBson(query).Ok? ==>
        match FirstMatch(old(docs), AsFilter(UserOf(query)))
        case None => r == Err(NoDocuments)
        case Some(i) => r == Ok(()) && docs == old(docs)[i := Unset(old(docs)[i], key, now)]
    {
      if !inited {
        return Err(NotInited(colName));
      }
      var converted :- ConvertToBson(query);
      var found := FirstMatch(docs, converted);
      if found.None? {
        return Err(NoDocuments);
      }
      var i := found.value;
      UnsetKeepsInvariant(docs, nextId, i, key, now);
      docs := docs[i := Unset(docs[i], key, now)];
      return Ok(());
    }

    /** DeleteOne: removes the first match; the delete result is discarded, so no match is a success. */
    method DeleteOne(query: Entity) returns (r: Result<()>)
      requires Valid()
      modifies this
      ensures Valid() && nextId == old(nextId) && inited == old(inited)
      ensures !old(inited) ==> r == Err(NotInited(colName)) && docs == old(docs)
      ensures old(inited) && ConvertToBson(query).Err? ==> r == Err(MarshalFailed) && docs == old(docs)
      ensures old(inited) && ConvertToBson(query).Ok? ==>
        r == Ok(()) && docs == DeleteFirst(old(docs), AsFilter(UserOf(query)))
    {
      if !inited {
        return Err(NotInited(colName));
      }
      var converted :- ConvertToBson(query);
      DeleteKeepsInvariant(docs, nextId, converted);
      docs := DeleteFirst(docs, converted);
      return Ok(());
    }
  }

  /** A document after `$unset` of key and `$set` of last_updated_time. */
  function Unset(d: Doc, key: Key, now: Instant): (r: Doc)
    ensures key != LastUpdatedTime ==> key !in r
    ensures LastUpdatedTime in r && r[LastUpdatedTime] == At(now)
    ensures forall k :: k in d && k != key && k != LastUpdatedTime ==> k in r && r[k] == d[k]
    ensures forall k :: k in r ==> k in d || k == LastUpdatedTime
  {
    (d - {key})[LastUpdatedTime := At(now)]
  }

  lemma UnsetKeepsInvariant(docs: seq<Doc>, nextId: ObjectId, i: nat, key: Key, now: Instant)
    requires StoreInvariant(docs, nextId)
    requires i < |docs|
    requires key != Id
    ensures StoreInvariant(docs[i := Unset(docs[i], key, now)], nextId)
  {
    var d := Unset(docs[i], key, now);
    assert WellFormed(docs[i]);
    assert IdOf(d) == IdOf(docs[i]);
    var r := docs[i := d];
    forall a | 0 <= a < |r| ensures IdOf(r[a]) == IdOf(docs[a]) && WellFormed(r[a]) && Id in r[a] {
    }
  }

  /**
   * What Create does to a record u on a collection in the store invariant: it
   * fails with a duplicate key exactly when u carries an _id already taken;
   * otherwise it appends one document, whose decoding is the stored form of u
   * stamped with created_time and carrying u's own _id or a fresh one.
   */
  lemma CreateInsert(docs: seq<Doc>, nextId: ObjectId, u: User, now: Instant)
    requires StoreInvariant(docs, nextId)
    ensures var ins := InsertDoc(docs, nextId, StampCreated(ToDoc(u), now));
      && StoreInvariant(ins.docs, ins.nextId) && ins.nextId >= nextId
      && (ins.error.Some? <==> Id in ToDoc(u) && IdTaken(docs, ToDoc(u)))
      && (ins.error.Some? ==> ins.error.value == DuplicateKey && ins.docs == docs && ins.nextId == nextId)
      && (ins.error.None? ==>
            && |ins.ids| == 1 && ins.ids[0] != NilObjectId
            && |ins.docs| == |docs| + 1 && ins.docs[..|docs|] == docs
            && FromDoc(ins.docs[|docs|]) == WithCreatedTime(Stored(u), now).(id := Some(ins.ids[0]))
            && (Stored(u).id.Some? ==> ins.ids[0] == Stored(u).id.value)
            && (Stored(u).id.None? ==> ins.ids[0] == nextId))
  {
    var d := StampCreated(ToDoc(u), now);
    ToDocWellFormed(u);
    StampKeepsWellFormed(ToDoc(u), now);
    InsertDocKeepsInvariant(docs, nextId, d);
    var ins := InsertDoc(docs, nextId, d);
    assert (Id in d) == (Id in ToDoc(u)) && (Id in d ==> d[Id] == ToDoc(u)[Id]);
    assert IdTaken(docs, d) == IdTaken(docs, ToDoc(u));
    ToDocKeys(u);
    if ins.error.None? {
      var id := ins.ids[0];
      assert ins.docs[|docs|] == WithId(d, id);
      if Id in d {
        assert Fits(Id, d[Id]);
        assert WithId(d, id) == d[Id := Oid(id)];
      }
      CreatedRecord(u, now, id);
      assert Stored(u).id.Some? ==> Id in ToDoc(u);
    }
  }

  /** The record Create returns is the stored form of the input, stamped and carrying its _id. */
  lemma CreatedRecord(u: User, now: Instant, id: ObjectId)
    requires id != NilObjectId
    requires Id in ToDoc(u) ==> IdOf(ToDoc(u)) == id
    ensures var stored := StampCreated(ToDoc(u), now)[Id := Oid(id)];
      FromDoc(stored) == WithCreatedTime(Stored(u), now).(id := Some(id))
  {
    var w := Stored(u);
    var c := WithCreatedTime(w, now);
    var v := c.(id := Some(id));
    ToDocStored(u);
    ToDocAt(u, CreatedTime);
    if w.createdTime.None? {
      ToDocWithCreatedTime(w, now);
    } else {
      assert c == w;
    }
    assert ToDoc(c) == StampCreated(ToDoc(u), now);
    ToDocWithId(c, id);
    DecodeEncode(v);
    assert Stored(v) == v;
  }
}
