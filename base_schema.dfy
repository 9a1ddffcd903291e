/**
 * The base fields every owned record type carries (`ownerId`, `isArchived`), the
 * soft-delete rewrite that find-family queries apply to their filter, and the two ways
 * a record's owner can be written: a document-level save, which keeps the immutable
 * `ownerId`, and the bulk `updateMany` rewrite, which changes it.
 */
module BaseSchema {
  import opened Common

  const OWNER_ID_REQUIRED := "ownerId is required"
  const OWNER_ID := "ownerId"
  const IS_ARCHIVED := "isArchived"
  const UPDATE_MANY := "updateMany"

  /** A field value as stored. */
  datatype Value = Str(s: string) | Bool(b: bool) | Num(n: int)

  /** An owned record: the base fields, and the record type's own fields by path. */
  datatype Doc = Doc(ownerId: string, isArchived: bool, body: map<string, Value>)

  /** A query filter: one equality condition per path. */
  type Filter = map<string, Value>

  /** One failed validator: the path and its message. */
  datatype FieldError = FieldError(path: string, message: string)

  // ---- Base fields of a new document

  /** `isArchived` defaults to false. */
  function DefaultArchived(isArchived: Option<bool>): (b: bool)
    ensures isArchived.None? ==> !b
    ensures isArchived.Some? ==> b == isArchived.value
  {
    if isArchived.Some? then isArchived.value else false
  }

  /** The `required` validator on `ownerId`: a missing or empty string fails with its message. */
  function OwnerIdErrors(ownerId: Option<string>): (errs: seq<FieldError>)
    ensures errs == [] <==> ownerId.Some? && ownerId.value != ""
    ensures errs != [] ==> errs == [FieldError(OWNER_ID, OWNER_ID_REQUIRED)]
  {
    if ownerId.Some? && ownerId.value != "" then [] else [FieldError(OWNER_ID, OWNER_ID_REQUIRED)]
  }

  /**
   * A document-level change saved on an existing record: `ownerId` is immutable, so an
   * assignment to it is dropped; `isArchived` and the record's own fields take the new values.
   */
  function SaveAssigned(d: Doc, ownerId: Option<string>, isArchived: Option<bool>, body: map<string, Value>): (r: Doc)
    ensures r.ownerId == d.ownerId
    ensures isArchived.Some? ==> r.isArchived == isArchived.value
    ensures isArchived.None? ==> r.isArchived == d.isArchived
    ensures r.body == d.body + body
  {
    Doc(d.ownerId, if isArchived.Some? then isArchived.value else d.isArchived, d.body + body)
  }

  // ---- Queries and the soft-delete hook

  /** The value of a path in a record, if it has one. */
  function FieldOf(d: Doc, path: string): Option<Value>
  {
    if path == OWNER_ID then Some(Str(d.ownerId))
    else if path == IS_ARCHIVED then Some(Bool(d.isArchived))
    else if path in d.body then Some(d.body[path])
    else None
  }

  /** A record satisfies a filter when each of its paths holds the filter's value. */
  predicate Matches(d: Doc, f: Filter)
  {
    forall p :: p in f ==> FieldOf(d, p) == Some(f[p])
  }

  /** The hook is registered for `/^find/`: operations whose name starts with "find". */
  predicate IsFindOperation(op: string)
  {
    "find" <= op
  }

  /** The hook itself: a filter that says nothing about `isArchived` gets `isArchived: false`. */
  function SoftDeleteFilter(f: Filter): (r: Filter)
    ensures IS_ARCHIVED in r
    ensures IS_ARCHIVED in f ==> r == f
    ensures IS_ARCHIVED !in f ==> r[IS_ARCHIVED] == Bool(false)
    ensures r.Keys == f.Keys + {IS_ARCHIVED}
    ensures forall p :: p in f ==> r[p] == f[p]
  {
    if IS_ARCHIVED in f then f else f[IS_ARCHIVED := Bool(false)]
  }

  /** The filter an operation actually runs with. */
  function EffectiveFilter(op: string, f: Filter): (r: Filter)
    ensures !IsFindOperation(op) ==> r == f
    ensures IsFindOperation(op) ==> r == SoftDeleteFilter(f)
  {
    if IsFindOperation(op) then SoftDeleteFilter(f) else f
  }

  /** Rewriting twice is rewriting once. */
  lemma SoftDeleteIdempotent(f: Filter)
    ensures SoftDeleteFilter(SoftDeleteFilter(f)) == SoftDeleteFilter(f)
  {
  }

  /** A find query without an `isArchived` condition sees exactly the unarchived records its filter matches. */
  lemma FindHidesArchived(op: string, d: Doc, f: Filter)
    requires IsFindOperation(op) && IS_ARCHIVED !in f
    ensures Matches(d, EffectiveFilter(op, f)) <==> Matches(d, f) && !d.isArchived
  {
    var r := EffectiveFilter(op, f);
    if Matches(d, f) && !d.isArchived {
      forall p | p in r
        ensures FieldOf(d, p) == Some(r[p])
      {
        if p != IS_ARCHIVED {
          assert p in f;
        }
      }
    }
    if Matches(d, r) {
      assert FieldOf(d, IS_ARCHIVED) == Some(Bool(false));
      forall p | p in f
        ensures FieldOf(d, p) == Some(f[p])
      {
        assert p in r;
      }
    }
  }

  /** `updateMany` is not a find operation, so its filter reaches archived records too. */
  lemma UpdateManySeesArchived(f: Filter)
    ensures EffectiveFilter(UPDATE_MANY, f) == f
  {
    assert UPDATE_MANY[0] != "find"[0];
  }

  /** The records of a collection a query returns. */
  function Select(docs: seq<Doc>, op: string, f: Filter): (r: seq<Doc>)
    ensures |r| <= |docs|
    ensures forall d :: d in r <==> d in docs && Matches(d, EffectiveFilter(op, f))
    decreases |docs|
  {
    if docs == [] then []
    else (if Matches(docs[0], EffectiveFilter(op, f)) then [docs[0]] else [])
         + Select(docs[1..], op, f)
  }

  /** A query returns each matching record as many times as the collection holds it, and no other record. */
  lemma {:induction false} SelectMultiplicity(docs: seq<Doc>, op: string, f: Filter, d: Doc)
    ensures multiset(Select(docs, op, f))[d]
         == if Matches(d, EffectiveFilter(op, f)) then multiset(docs)[d] else 0
    decreases |docs|
  {
    if docs != [] {
      assert docs == [docs[0]] + docs[1..];
      SelectMultiplicity(docs[1..], op, f, d);
    }
  }

  /** How many unarchived records of a collection an owner has. */
  function CountLiveOwnedBy(docs: seq<Doc>, o: string): (n: nat)
    ensures n <= CountOwnedBy(docs, o)
    decreases |docs|
  {
    if docs == [] then 0
    else (if docs[0].ownerId == o && !docs[0].isArchived then 1 else 0) + CountLiveOwnedBy(docs[1..], o)
  }

  /** `find({ ownerId: o })` returns as many records as the owner has unarchived ones. */
  lemma {:induction false} FindByOwnerCount(docs: seq<Doc>, o: string)
    ensures |Select(docs, "find", map[OWNER_ID := Str(o)])| == CountLiveOwnedBy(docs, o)
    decreases |docs|
  {
    var f: Filter := map[OWNER_ID := Str(o)];
    if docs != [] {
      assert IS_ARCHIVED !in f;
      FindHidesArchived("find", docs[0], f);
      assert Matches(docs[0], f) <==> docs[0].ownerId == o by {
        assert OWNER_ID in f;
      }
      FindByOwnerCount(docs[1..], o);
    }
  }

  /** `find({ ownerId: o })` lists exactly the owner's unarchived records. */
  lemma {:induction false} FindByOwner(docs: seq<Doc>, o: string, d: Doc)
    ensures d in Select(docs, "find", map[OWNER_ID := Str(o)])
        <==> d in docs && d.ownerId == o && !d.isArchived
    decreases |docs|
  {
    var f: Filter := map[OWNER_ID := Str(o)];
    assert IS_ARCHIVED !in f;
    if docs != [] {
      FindHidesArchived("find", docs[0], f);
      assert Matches(docs[0], f) <==> docs[0].ownerId == o by {
        assert OWNER_ID in f;
      }
      FindByOwner(docs[1..], o, d);
      assert docs == [docs[0]] + docs[1..];
      assert d in docs <==> d == docs[0] || d in docs[1..];
    }
  }

  // ---- The bulk owner rewrite

  /** The filter the bulk rewrite runs with: `{ ownerId: from }`, untouched by the find hook. */
  function OwnerFilter(from: string): Filter
  {
    map[OWNER_ID := Str(from)]
  }

  /** The owner filter picks exactly the records of that owner, whatever their archive flag. */
  lemma OwnerFilterMatches(from: string)
    ensures forall d :: Matches(d, OwnerFilter(from)) <==> d.ownerId == from
  {
    forall d
      ensures Matches(d, OwnerFilter(from)) <==> d.ownerId == from
    {
      assert OWNER_ID in OwnerFilter(from);
    }
  }

  /** `updateMany({ ownerId: from }, { $set: { ownerId: to } })` over one collection, archived records included. */
  function UpdateManyOwner(docs: seq<Doc>, from: string, to: string): (r: seq<Doc>)
    ensures |r| == |docs|
    ensures forall i :: 0 <= i < |docs| && docs[i].ownerId == from ==>
      r[i].ownerId == to && r[i].isArchived == docs[i].isArchived && r[i].body == docs[i].body
    ensures forall i :: 0 <= i < |docs| && docs[i].ownerId != from ==> r[i] == docs[i]
  {
    UpdateManySeesArchived(OwnerFilter(from));
    OwnerFilterMatches(from);
    seq(|docs|, i requires 0 <= i < |docs| =>
      if Matches(docs[i], EffectiveFilter(UPDATE_MANY, OwnerFilter(from)))
      then docs[i].(ownerId := to) else docs[i])
  }

  /** How many records of a collection an owner has. */
  function CountOwnedBy(docs: seq<Doc>, o: string): (n: nat)
    ensures n <= |docs|
  {
    if docs == [] then 0
    else (if docs[0].ownerId == o then 1 else 0) + CountOwnedBy(docs[1..], o)
  }

  /**
   * `modifiedCount` of the bulk rewrite: every record its filter matches. The `timestamps`
   * option adds an `updatedAt` write to every update, so a matched record counts as modified
   * even when its new owner is the old one.
   */
  function ModifiedCount(docs: seq<Doc>, from: string): (n: nat)
    ensures n <= |docs|
  {
    |Select(docs, UPDATE_MANY, OwnerFilter(from))|
  }

  /** The rewrite modifies exactly the records the old owner has, archived or not. */
  lemma {:induction false} ModifiedCountIsOwned(docs: seq<Doc>, from: string)
    ensures ModifiedCount(docs, from) == CountOwnedBy(docs, from)
    decreases |docs|
  {
    if docs != [] {
      UpdateManySeesArchived(OwnerFilter(from));
      OwnerFilterMatches(from);
      ModifiedCountIsOwned(docs[1..], from);
    }
  }

  /** After the rewrite the new owner's unarchived records are its own plus the old owner's. */
  lemma {:induction false} UpdateManyMovesLive(docs: seq<Doc>, from: string, to: string)
    requires from != to
    ensures CountLiveOwnedBy(UpdateManyOwner(docs, from, to), to)
         == CountLiveOwnedBy(docs, to) + CountLiveOwnedBy(docs, from)
    ensures CountLiveOwnedBy(UpdateManyOwner(docs, from, to), from) == 0
    decreases |docs|
  {
    if docs != [] {
      var r := UpdateManyOwner(docs, from, to);
      assert r[1..] == UpdateManyOwner(docs[1..], from, to);
      UpdateManyMovesLive(docs[1..], from, to);
    }
  }

  /** After the rewrite the old owner has nothing left, unless the two owners are the same. */
  lemma {:induction false} UpdateManyLeavesNothing(docs: seq<Doc>, from: string, to: string)
    requires from != to
    ensures CountOwnedBy(UpdateManyOwner(docs, from, to), from) == 0
    decreases |docs|
  {
    if docs != [] {
      var r := UpdateManyOwner(docs, from, to);
      assert r[1..] == UpdateManyOwner(docs[1..], from, to);
      UpdateManyLeavesNothing(docs[1..], from, to);
    }
  }

  /**
   * After the rewrite the new owner has its old records plus exactly the modified ones; when
   * the two owners are the same id, no record changes owner.
   */
  lemma {:induction false} UpdateManyMovesCount(docs: seq<Doc>, from: string, to: string)
    ensures from != to ==> CountOwnedBy(UpdateManyOwner(docs, from, to), to)
                           == CountOwnedBy(docs, to) + ModifiedCount(docs, from)
    ensures from == to ==> UpdateManyOwner(docs, from, to) == docs
    decreases |docs|
  {
    var r := UpdateManyOwner(docs, from, to);
    ModifiedCountIsOwned(docs, from);
    if docs == [] {
    } else if from == to {
      assert r == docs;
    } else {
      assert r[1..] == UpdateManyOwner(docs[1..], from, to);
      UpdateManyMovesCount(docs[1..], from, to);
      ModifiedCountIsOwned(docs[1..], from);
    }
  }
}
