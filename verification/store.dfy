/** One document collection of the store, in its natural (insertion) order, and the four driver
    operations the handlers use: `findOne`, `insertOne`, `deleteOne` and `updateOne` with `$set`. */
module Store {
  import opened Wrappers
  import opened Json
  import opened ObjectIds

  /** A stored document: its `_id` and its other properties. */
  datatype Entry = Entry(id: ObjectId, fields: Doc)

  type Collection = seq<Entry>

  function Ids(c: Collection): set<ObjectId> {
    set i | 0 <= i < |c| :: c[i].id
  }

  /** The `_id` index is unique. */
  predicate UniqueIds(c: Collection) {
    forall i, j :: 0 <= i < j < |c| ==> c[i].id != c[j].id
  }

  /** The two filters the handlers use: `{_id: id}` and `{key: value}`. */
  datatype Query = ById(id: ObjectId) | ByField(key: string, value: Field)

  /** Equality matching: an `undefined` query value is sent as null, and null matches a missing property. */
  predicate Matches(e: Entry, q: Query)
    ensures q.ByField? && (q.value.None? || q.value == Some(VNull)) ==>
      (Matches(e, q) <==> q.key !in e.fields || e.fields[q.key] == VNull)
    ensures q.ByField? && q.value.Some? && q.value.value != VNull ==>
      (Matches(e, q) <==> q.key in e.fields && e.fields[q.key] == q.value.value)
  {
    match q
    case ById(id) => e.id == id
    case ByField(key, v) => FieldOrNull(e.fields, key) == Stored(v)
  }

  /** `findOne(q)`: the position of the first matching document, if any. */
  function FindFirst(c: Collection, q: Query): (r: Option<nat>)
    ensures r.Some? ==> r.value < |c| && Matches(c[r.value], q)
    ensures r.Some? ==> forall j :: 0 <= j < r.value ==> !Matches(c[j], q)
    ensures r.None? <==> forall j :: 0 <= j < |c| ==> !Matches(c[j], q)
    decreases |c|
  {
    if |c| == 0 then None
    else if Matches(c[0], q) then Some(0)
    else
      match FindFirst(c[1..], q)
      case None => None
      case Some(i) => Some(i + 1)
  }

  /** With a unique `_id` index the first entry with an id is the only one. */
  lemma FindByIdUnique(c: Collection, id: ObjectId, i: nat)
    requires UniqueIds(c)
    requires i < |c| && c[i].id == id
    ensures FindFirst(c, ById(id)) == Some(i)
  {
    var r := FindFirst(c, ById(id));
    assert Matches(c[i], ById(id));
    assert r.value <= i;
  }

  /** Why a write fails inside the store. */
  datatype WriteError = DuplicateKey | ImmutableId

  /** `insertOne`: appends the document under a driver-generated id; an id already taken violates
      the unique `_id` index. */
  function InsertOne(c: Collection, id: ObjectId, doc: Doc): (r: Result<Collection, WriteError>)
    ensures r.Failure? <==> id in Ids(c)
    ensures r.Success? ==> |r.value| == |c| + 1 && r.value[..|c|] == c && r.value[|c|] == Entry(id, doc)
    ensures r.Success? && UniqueIds(c) ==> UniqueIds(r.value)
    ensures r.Success? ==> Ids(r.value) == Ids(c) + {id}
  {
    if id in Ids(c) then Failure(DuplicateKey)
    else
      var c' := c + [Entry(id, doc)];
      assert forall i :: 0 <= i < |c| ==> c[i].id in Ids(c);
      assert c'[..|c|] == c;
      assert Ids(c') == Ids(c) + {id} by {
        forall x | x in Ids(c') ensures x in Ids(c) + {id} {
          var i :| 0 <= i < |c'| && c'[i].id == x;
          if i < |c| { assert c[i].id == x; }
        }
        forall x | x in Ids(c) + {id} ensures x in Ids(c') {
          if x in Ids(c) {
            var i :| 0 <= i < |c| && c[i].id == x;
            assert c'[i].id == x;
          } else {
            assert c'[|c|].id == x;
          }
        }
      }
      Success(c')
  }

  /** What `deleteOne` reports. */
  datatype DeleteResult = DeleteResult(deletedCount: nat)

  /** `deleteOne({_id: id})`: removes the first entry with that id and nothing else. */
  function DeleteOne(c: Collection, id: ObjectId): (r: (Collection, DeleteResult))
    ensures r.1.deletedCount == 0 <==> id !in Ids(c)
    ensures r.1.deletedCount == 0 ==> r.0 == c
    ensures r.1.deletedCount != 0 ==> r.1.deletedCount == 1 && |r.0| == |c| - 1
    ensures r.1.deletedCount != 0 ==>
      exists i :: 0 <= i < |c| && c[i].id == id && r.0 == c[..i] + c[i + 1..]
    ensures forall e :: e in c && e.id != id ==> e in r.0
    ensures forall e :: e in r.0 ==> e in c
    ensures UniqueIds(c) ==> UniqueIds(r.0) && Ids(r.0) == Ids(c) - {id}
  {
    match FindFirst(c, ById(id))
    case None =>
      assert forall j :: 0 <= j < |c| ==> c[j].id != id by {
        forall j | 0 <= j < |c| ensures c[j].id != id {
          assert !Matches(c[j], ById(id));
        }
      }
      (c, DeleteResult(0))
    case Some(i) =>
      assert c[i].id in Ids(c);
      RemoveAtFacts(c, i);
      (c[..i] + c[i + 1..], DeleteResult(1))
  }

  /** Removing the entry at `i` keeps every other entry and adds none. */
  lemma RemoveAtFacts(c: Collection, i: nat)
    requires i < |c|
    ensures forall e :: e in c && e.id != c[i].id ==> e in c[..i] + c[i + 1..]
    ensures forall e :: e in c[..i] + c[i + 1..] ==> e in c
    ensures UniqueIds(c) ==> UniqueIds(c[..i] + c[i + 1..])
    ensures UniqueIds(c) ==> Ids(c[..i] + c[i + 1..]) == Ids(c) - {c[i].id}
  {
    var c' := c[..i] + c[i + 1..];
    forall e | e in c && e.id != c[i].id ensures e in c' {
      var k :| 0 <= k < |c| && c[k] == e;
      if k < i { assert c'[k] == e; } else { assert c'[k - 1] == e; }
    }
    forall e | e in c' ensures e in c {
      var k :| 0 <= k < |c'| && c'[k] == e;
      if k < i { assert c[k] == e; } else { assert c[k + 1] == e; }
    }
    if UniqueIds(c) {
      RemovePreservesUnique(c, i);
    }
  }

  lemma RemovePreservesUnique(c: Collection, i: nat)
    requires UniqueIds(c) && i < |c|
    ensures UniqueIds(c[..i] + c[i + 1..])
    ensures Ids(c[..i] + c[i + 1..]) == Ids(c) - {c[i].id}
  {
    var c' := c[..i] + c[i + 1..];
    assert forall k :: 0 <= k < |c'| ==> c'[k] == (if k < i then c[k] else c[k + 1]);
    forall x | x in Ids(c) - {c[i].id} ensures x in Ids(c') {
      var k :| 0 <= k < |c| && c[k].id == x;
      if k < i { assert c'[k].id == x; } else { assert c'[k - 1].id == x; }
    }
  }

  /** What `updateOne` reports. */
  datatype UpdateResult = UpdateResult(matchedCount: nat, modifiedCount: nat)

  /** `$set`: the submitted properties overwrite or extend the document; all others stay. */
  function Merge(doc: Doc, patch: Doc): (r: Doc)
    ensures r.Keys == doc.Keys + patch.Keys
    ensures forall k :: k in patch ==> r[k] == patch[k]
    ensures forall k :: k in doc && k !in patch ==> r[k] == doc[k]
  {
    doc + patch
  }

  /** Setting the same properties twice is the same as setting them once. */
  lemma MergeIdempotent(doc: Doc, patch: Doc)
    ensures Merge(Merge(doc, patch), patch) == Merge(doc, patch)
  {
  }

  /** `updateOne({_id: id}, {$set: patch})`. No match is not an error (both counts are 0). On a
      match, a patch naming `_id` fails, since `_id` is immutable; otherwise only the matched
      entry changes, and it counts as modified only if some value actually changed. */
  function UpdateOne(c: Collection, id: ObjectId, patch: Doc): (r: Result<(Collection, UpdateResult), WriteError>)
    ensures r.Failure? <==> id in Ids(c) && "_id" in patch
    ensures r.Success? && id !in Ids(c) ==> r.value == (c, UpdateResult(0, 0))
    ensures r.Success? && id in Ids(c) ==>
      && r.value.1.matchedCount == 1
      && |r.value.0| == |c|
      && exists i :: 0 <= i < |c| && c[i].id == id
           && r.value.0 == c[i := Entry(id, Merge(c[i].fields, patch))]
           && (r.value.1.modifiedCount == 0 <==> Merge(c[i].fields, patch) == c[i].fields)
    ensures r.Success? ==> Ids(r.value.0) == Ids(c)
  {
    match FindFirst(c, ById(id))
    case None =>
      assert forall j :: 0 <= j < |c| ==> c[j].id != id by {
        forall j | 0 <= j < |c| ensures c[j].id != id {
          assert !Matches(c[j], ById(id));
        }
      }
      Success((c, UpdateResult(0, 0)))
    case Some(i) =>
      assert c[i].id in Ids(c);
      if "_id" in patch then Failure(ImmutableId)
      else
        var merged := Merge(c[i].fields, patch);
        var c' := c[i := Entry(id, merged)];
        assert Ids(c') == Ids(c) by {
          forall x | x in Ids(c) ensures x in Ids(c') {
            var k :| 0 <= k < |c| && c[k].id == x;
            assert c'[k].id == x;
          }
          forall x | x in Ids(c') ensures x in Ids(c) {
            var k :| 0 <= k < |c'| && c'[k].id == x;
            assert c[k].id == x;
          }
        }
        Success((c', UpdateResult(1, if merged == c[i].fields then 0 else 1)))
  }

  /** With a unique `_id` index, an update changes the document with that id and no other. */
  lemma UpdateOnePointwise(c: Collection, id: ObjectId, patch: Doc)
    requires UpdateOne(c, id, patch).Success?
    ensures var c' := UpdateOne(c, id, patch).value.0;
      UniqueIds(c) ==>
        && |c'| == |c|
        && forall j :: 0 <= j < |c| ==>
             && c'[j].id == c[j].id
             && c'[j].fields == (if c[j].id == id then Merge(c[j].fields, patch) else c[j].fields)
  {
    var c' := UpdateOne(c, id, patch).value.0;
    if UniqueIds(c) && id in Ids(c) {
      var i :| 0 <= i < |c| && c[i].id == id && c' == c[i := Entry(id, Merge(c[i].fields, patch))];
      assert forall j :: 0 <= j < |c| && j != i ==> c[j].id != id;
    }
  }
}
