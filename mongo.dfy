/**
 * The document collection behind Instance, as the database driver and server
 * treat it: a sequence of documents in natural order, filters that are
 * conjunctions of field equalities (plus the operands of a top-level "$and"),
 * ordered inserts that assign fresh ObjectIDs, `$set` updates and deletes that
 * act on the first match.
 */
module Mongo {
  import opened Results
  import opened UserModel

  /** A converted bson.M filter: its field equalities and the operands of its "$and" key. */
  datatype Bson = Bson(fields: Doc, and: seq<Clause>)

  /** The filter {}: converting a nil or all-zero query gives it. */
  const MatchAll: Bson := Bson(map[], [])

  /** d carries every field of sub with the same value. */
  predicate Includes(d: Doc, sub: Doc) {
    forall k :: k in sub ==> k in d && d[k] == sub[k]
  }

  /** d satisfies {"$or": branches}. */
  predicate Satisfies(d: Doc, c: Clause) {
    exists i :: 0 <= i < |c.branches| && Includes(d, c.branches[i])
  }

  /** d matches the filter q. */
  predicate Matches(d: Doc, q: Bson) {
    Includes(d, q.fields) && forall j :: 0 <= j < |q.and| ==> Satisfies(d, q.and[j])
  }

  /** The index of the first document, in natural order, that q matches. */
  function FirstMatch(docs: seq<Doc>, q: Bson): (r: Option<nat>)
    ensures r.Some? ==> r.value < |docs| && Matches(docs[r.value], q)
    ensures r.Some? ==> forall j :: 0 <= j < r.value ==> !Matches(docs[j], q)
    ensures r.None? <==> forall j :: 0 <= j < |docs| ==> !Matches(docs[j], q)
  {
    if |docs| == 0 then None
    else if Matches(docs[0], q) then Some(0)
    else match FirstMatch(docs[1..], q)
      case None => None
      case Some(i) => Some(i + 1)
  }

  /** The documents q matches, in natural order (what Find returns before skip and limit). */
  function Select(docs: seq<Doc>, q: Bson): (r: seq<Doc>)
    ensures |r| <= |docs|
    ensures forall i :: 0 <= i < |r| ==> Matches(r[i], q)
    ensures forall i :: 0 <= i < |r| ==> r[i] in docs
    ensures forall j :: 0 <= j < |docs| && Matches(docs[j], q) ==> docs[j] in r
  {
    if |docs| == 0 then []
    else
      var rest := Select(docs[1..], q);
      assert docs == [docs[0]] + docs[1..];
      if Matches(docs[0], q) then [docs[0]] + rest else rest
  }

  /** The positions below n of the documents q matches. */
  function MatchingBelow(docs: seq<Doc>, q: Bson, n: nat): set<nat>
    requires n <= |docs|
  {
    set j: nat | j < n && Matches(docs[j], q)
  }

  /** The positions of the documents q matches: what CountDocuments counts. */
  function MatchingIndices(docs: seq<Doc>, q: Bson): set<nat> {
    MatchingBelow(docs, q, |docs|)
  }

  /** Selecting from a collection with one more document at the end. */
  lemma {:induction false} SelectSnoc(docs: seq<Doc>, x: Doc, q: Bson)
    ensures Select(docs + [x], q) == Select(docs, q) + (if Matches(x, q) then [x] else [])
    decreases |docs|
  {
    if |docs| > 0 {
      assert (docs + [x])[1..] == docs[1..] + [x];
      SelectSnoc(docs[1..], x, q);
    } else {
      assert Select([x], q) == (if Matches(x, q) then [x] else []) + Select([], q);
    }
  }

  /** One more position adds one to the count exactly when its document matches. */
  lemma MatchingBelowStep(docs: seq<Doc>, q: Bson, n: nat)
    requires n < |docs|
    ensures MatchingBelow(docs, q, n + 1) ==
      MatchingBelow(docs, q, n) + (if Matches(docs[n], q) then {n} else {})
    ensures |MatchingBelow(docs, q, n + 1)| ==
      |MatchingBelow(docs, q, n)| + (if Matches(docs[n], q) then 1 else 0)
  {
    assert n !in MatchingBelow(docs, q, n);
  }

  /** The prefix of length n selects as many documents as there are matching positions below n. */
  lemma {:induction false} SelectCountBelow(docs: seq<Doc>, q: Bson, n: nat)
    requires n <= |docs|
    ensures |Select(docs[..n], q)| == |MatchingBelow(docs, q, n)|
    decreases n
  {
    if n == 0 {
      assert MatchingBelow(docs, q, 0) == {};
    } else {
      SelectCountBelow(docs, q, n - 1);
      assert docs[..n] == docs[..n - 1] + [docs[n - 1]];
      SelectSnoc(docs[..n - 1], docs[n - 1], q);
      MatchingBelowStep(docs, q, n - 1);
    }
  }

  /** Select returns one document per matching position. */
  lemma SelectCount(docs: seq<Doc>, q: Bson)
    ensures |Select(docs, q)| == |MatchingIndices(docs, q)|
  {
    SelectCountBelow(docs, q, |docs|);
    assert docs[..|docs|] == docs;
  }

  /** Skip, then limit: the window Find returns. */
  function Page(s: seq<Doc>, skip: nat, limit: nat): (r: seq<Doc>)
    ensures |r| <= limit
    ensures skip <= |s| ==> |r| == if |s| - skip < limit then |s| - skip else limit
    ensures skip >= |s| ==> r == []
    ensures forall i :: 0 <= i < |r| ==> skip + i < |s| && r[i] == s[skip + i]
  {
    if skip >= |s| then []
    else if |s| - skip <= limit then s[skip..]
    else s[skip..skip + limit]
  }

  /** The collection after deleting the first document q matches, if any. */
  function DeleteFirst(docs: seq<Doc>, q: Bson): (r: seq<Doc>)
    ensures FirstMatch(docs, q).None? ==> r == docs
    ensures FirstMatch(docs, q).Some? ==> |r| == |docs| - 1
    ensures forall x :: x in r ==> x in docs
    ensures forall j :: 0 <= j < |docs| && !Matches(docs[j], q) ==> docs[j] in r
  {
    match FirstMatch(docs, q)
    case None => docs
    case Some(i) =>
      assert docs == docs[..i] + [docs[i]] + docs[i + 1..];
      assert forall j :: 0 <= j < |docs| && j != i ==>
        docs[j] in docs[..i] + docs[i + 1..] by {
        forall j | 0 <= j < |docs| && j != i ensures docs[j] in docs[..i] + docs[i + 1..] {
          if j < i { assert docs[j] == (docs[..i] + docs[i + 1..])[j]; }
          else { assert docs[j] == (docs[..i] + docs[i + 1..])[j - 1]; }
        }
      }
      docs[..i] + docs[i + 1..]
  }

  /** `$set`: the fields of upd overwrite those of d; every other field of d stays. */
  function SetFields(d: Doc, upd: Doc): (r: Doc)
    ensures r.Keys == d.Keys + upd.Keys
    ensures forall k :: k in upd ==> r[k] == upd[k]
    ensures forall k :: k in d && k !in upd ==> r[k] == d[k]
  {
    d + upd
  }

  /** A `$set` whose fields d already holds changes nothing. */
  lemma SetIncluded(d: Doc, upd: Doc)
    requires Includes(d, upd)
    ensures SetFields(d, upd) == d
  {
  }

  /** A `$set` that names every field of d replaces d. */
  lemma SetCovering(d: Doc, upd: Doc)
    requires d.Keys <= upd.Keys
    ensures SetFields(d, upd) == upd
  {
  }

  /** One more field in a `$set` is one more write after it. */
  lemma SetFieldsUpdate(d: Doc, upd: Doc, k: Key, v: Value)
    ensures SetFields(d, upd[k := v]) == SetFields(d, upd)[k := v]
  {
  }

  // ----- identifiers and inserts -----

  /** The ObjectID a document stores under _id (0 when it has none). */
  function IdOf(d: Doc): ObjectId {
    if Id in d && d[Id].Oid? then d[Id].id else NilObjectId
  }

  /** What every reachable collection satisfies: well-formed documents with distinct _ids below nextId. */
  predicate StoreInvariant(docs: seq<Doc>, nextId: ObjectId) {
    && nextId > NilObjectId
    && (forall i :: 0 <= i < |docs| ==> WellFormed(docs[i]) && Id in docs[i] && IdOf(docs[i]) < nextId)
    && (forall i, j :: 0 <= i < j < |docs| ==> IdOf(docs[i]) != IdOf(docs[j]))
  }

  /** The collection state and outcome of an insert. */
  datatype Insertion = Insertion(docs: seq<Doc>, nextId: ObjectId, ids: seq<ObjectId>, error: Option<Error>)

  /** Some document of docs already has d's _id. */
  predicate IdTaken(docs: seq<Doc>, d: Doc) {
    exists j :: 0 <= j < |docs| && IdOf(docs[j]) == IdOf(d)
  }

  /** d as inserted under the ObjectID id: its own _id if it has one, else id. */
  function WithId(d: Doc, id: ObjectId): Doc {
    if Id in d then d else d[Id := Oid(id)]
  }

  /** InsertOne: a document without _id gets a fresh ObjectID; an _id already present is a duplicate key. */
  function InsertDoc(docs: seq<Doc>, nextId: ObjectId, d: Doc): Insertion {
    if Id in d then
      if IdTaken(docs, d) then Insertion(docs, nextId, [], Some(DuplicateKey))
      else Insertion(docs + [d], if IdOf(d) < nextId then nextId else IdOf(d) + 1, [IdOf(d)], None)
    else Insertion(docs + [d[Id := Oid(nextId)]], nextId + 1, [nextId], None)
  }

  /** Ordered inserts of batch, stopping at the first failure; what is inserted before it stays. */
  function InsertSeq(docs: seq<Doc>, nextId: ObjectId, batch: seq<Doc>): (r: Insertion)
    ensures r.error.None? ==> |r.ids| == |batch|
    ensures r.error.Some? ==> |r.ids| < |batch| && r.error.value == DuplicateKey
    ensures |r.docs| == |docs| + |r.ids|
    ensures r.docs[..|docs|] == docs
    ensures forall i :: 0 <= i < |r.ids| ==> r.docs[|docs| + i] == WithId(batch[i], r.ids[i])
    decreases |batch|
  {
    if |batch| == 0 then Insertion(docs, nextId, [], None)
    else
      var one := InsertDoc(docs, nextId, batch[0]);
      if one.error.Some? then one
      else
        var rest := InsertSeq(one.docs, one.nextId, batch[1..]);
        assert one.ids == [IdOf(one.docs[|docs|])];
        Insertion(rest.docs, rest.nextId, one.ids + rest.ids, rest.error)
  }

  /** InsertMany: the driver refuses an empty batch, otherwise ordered inserts. */
  function InsertBatch(docs: seq<Doc>, nextId: ObjectId, batch: seq<Doc>): (r: Insertion)
    ensures |batch| == 0 ==> r == Insertion(docs, nextId, [], Some(EmptyBatch))
  {
    if |batch| == 0 then Insertion(docs, nextId, [], Some(EmptyBatch))
    else InsertSeq(docs, nextId, batch)
  }

  // ----- lemmas -----

  /** The filter {} matches every document. */
  lemma MatchAllMatches(d: Doc)
    ensures Matches(d, MatchAll)
  {
  }

  /** FirstMatch of {} is the first document of a non-empty collection. */
  lemma FirstMatchOfMatchAll(docs: seq<Doc>)
    ensures FirstMatch(docs, MatchAll) == if |docs| == 0 then None else Some(0)
  {
    if |docs| > 0 { MatchAllMatches(docs[0]); }
  }

  /** Inserting a well-formed document keeps the store invariant and its outcome is as described. */
  lemma InsertDocKeepsInvariant(docs: seq<Doc>, nextId: ObjectId, d: Doc)
    requires StoreInvariant(docs, nextId)
    requires WellFormed(d)
    ensures var r := InsertDoc(docs, nextId, d);
      && StoreInvariant(r.docs, r.nextId)
      && r.nextId >= nextId
      && (r.error.None? ==>
            r.docs == docs + [WithId(d, r.ids[0])] && |r.ids| == 1
            && IdOf(WithId(d, r.ids[0])) == r.ids[0] && r.ids[0] != NilObjectId)
      && (r.error.Some? ==> r.docs == docs && r.nextId == nextId && r.ids == [] && Id in d && IdTaken(docs, d))
  {
    var r := InsertDoc(docs, nextId, d);
    if Id in d {
      assert Fits(Id, d[Id]);
      if !IdTaken(docs, d) {
        forall i, j | 0 <= i < j < |r.docs| ensures IdOf(r.docs[i]) != IdOf(r.docs[j]) {
          if j == |docs| { assert r.docs[j] == d; }
        }
      }
    } else {
      var e := d[Id := Oid(nextId)];
      assert WellFormed(e) by {
        forall k | k in e ensures Fits(k, e[k]) {
          if k != Id { assert e[k] == d[k]; }
        }
      }
      assert r.docs == docs + [e];
    }
  }

  /** Ordered inserts of well-formed documents keep the store invariant. */
  lemma {:induction false} InsertSeqKeepsInvariant(docs: seq<Doc>, nextId: ObjectId, batch: seq<Doc>)
    requires StoreInvariant(docs, nextId)
    requires forall i :: 0 <= i < |batch| ==> WellFormed(batch[i])
    ensures StoreInvariant(InsertSeq(docs, nextId, batch).docs, InsertSeq(docs, nextId, batch).nextId)
    decreases |batch|
  {
    if |batch| > 0 {
      InsertDocKeepsInvariant(docs, nextId, batch[0]);
      var one := InsertDoc(docs, nextId, batch[0]);
      if one.error.None? {
        InsertSeqKeepsInvariant(one.docs, one.nextId, batch[1..]);
      }
    }
  }

  /** Under the store invariant the filter {_id: id of docs[i]} finds docs[i] and nothing before it. */
  lemma IdFilterFindsIt(docs: seq<Doc>, nextId: ObjectId, i: nat)
    requires StoreInvariant(docs, nextId)
    requires i < |docs|
    ensures FirstMatch(docs, Bson(map[Id := Oid(IdOf(docs[i]))], [])) == Some(i)
  {
    var q := Bson(map[Id := Oid(IdOf(docs[i]))], []);
    assert Fits(Id, docs[i][Id]);
    assert docs[i][Id] == Oid(IdOf(docs[i]));
    assert Includes(docs[i], q.fields);
    assert Matches(docs[i], q);
    forall j | 0 <= j < i ensures !Matches(docs[j], q) {
      assert IdOf(docs[j]) != IdOf(docs[i]);
      assert Fits(Id, docs[j][Id]);
      assert docs[j][Id] != Oid(IdOf(docs[i]));
      assert !Includes(docs[j], q.fields);
    }
  }

  /** A `$set` of well-formed fields that keeps the _id keeps the store invariant. */
  lemma SetKeepsInvariant(docs: seq<Doc>, nextId: ObjectId, i: nat, upd: Doc)
    requires StoreInvariant(docs, nextId)
    requires i < |docs|
    requires WellFormed(upd)
    requires Id in upd ==> upd[Id] == docs[i][Id]
    ensures StoreInvariant(docs[i := SetFields(docs[i], upd)], nextId)
  {
    var e := SetFields(docs[i], upd);
    assert IdOf(e) == IdOf(docs[i]);
    assert WellFormed(e) by {
      forall k | k in e ensures Fits(k, e[k]) {
        if k in upd { assert Fits(k, upd[k]); } else { assert Fits(k, docs[i][k]); }
      }
    }
  }

  /** Removing the document at i keeps the store invariant. */
  lemma RemoveAtKeepsInvariant(docs: seq<Doc>, nextId: ObjectId, i: nat)
    requires StoreInvariant(docs, nextId)
    requires i < |docs|
    ensures StoreInvariant(docs[..i] + docs[i + 1..], nextId)
  {
    var r := docs[..i] + docs[i + 1..];
    forall a | 0 <= a < |r| ensures r[a] == docs[if a < i then a else a + 1] {
      if a < i { assert r[a] == docs[..i][a]; } else { assert r[a] == docs[i + 1..][a - i]; }
    }
    forall a, b | 0 <= a < b < |r| ensures IdOf(r[a]) != IdOf(r[b]) {
      var a', b' := if a < i then a else a + 1, if b < i then b else b + 1;
      assert r[a] == docs[a'] && r[b] == docs[b'];
    }
  }

  /** Deleting a document keeps the store invariant. */
  lemma DeleteKeepsInvariant(docs: seq<Doc>, nextId: ObjectId, q: Bson)
    requires StoreInvariant(docs, nextId)
    ensures StoreInvariant(DeleteFirst(docs, q), nextId)
  {
    match FirstMatch(docs, q)
    case None =>
    case Some(i) => RemoveAtKeepsInvariant(docs, nextId, i);
  }
}
