/** The transaction store (src/store/transactionStore.ts): an ordered list of
    records and the four operations over it.  Each mutating operation builds a
    new list (spread, map, filter) and assigns it to the store's field; the
    list-building steps are the functions below, the assignments are the
    methods of class `Store`. */
module TransactionStore {
  import opened Transactions

  /** `transactions.map(t => t.id === id ? { ...fields, id } : t)`. */
  function Updated(ts: seq<Transaction>, id: string, f: TransactionFields): (r: seq<Transaction>)
    ensures |r| == |ts|
    ensures forall i :: 0 <= i < |ts| && ts[i].id != id ==> r[i] == ts[i]
    ensures forall i :: 0 <= i < |ts| && ts[i].id == id ==> r[i] == WithId(f, id)
  {
    if |ts| == 0 then []
    else
      var last := ts[|ts| - 1];
      Updated(ts[..|ts| - 1], id, f) + [if last.id == id then WithId(f, id) else last]
  }

  /** `transactions.filter(t => t.id !== id)`. */
  function Deleted(ts: seq<Transaction>, id: string): (r: seq<Transaction>)
    ensures forall t :: t in r <==> t in ts && t.id != id
    ensures |r| <= |ts|
  {
    if |ts| == 0 then []
    else
      var rest := Deleted(ts[..|ts| - 1], id);
      if ts[|ts| - 1].id == id then rest else rest + [ts[|ts| - 1]]
  }

  /** `transactions.find(t => t.id === id)`: the first record with that id. */
  function Lookup(ts: seq<Transaction>, id: string): (r: Option<Transaction>)
    ensures r.None? <==> id !in Ids(ts)
    ensures r.Some? ==> r.value.id == id
    ensures r.Some? ==>
      exists k :: 0 <= k < |ts| && ts[k] == r.value && forall j :: 0 <= j < k ==> ts[j].id != id
  {
    if |ts| == 0 then None
    else if ts[0].id == id then Some(ts[0])
    else
      var r := Lookup(ts[1..], id);
      assert Ids(ts) == {ts[0].id} + Ids(ts[1..]) by {
        forall x | x in Ids(ts) ensures x in {ts[0].id} + Ids(ts[1..]) {
          var i :| 0 <= i < |ts| && ts[i].id == x;
          if i > 0 { assert ts[1..][i - 1].id == x; }
        }
      }
      if r.Some? then
        var k :| 0 <= k < |ts[1..]| && ts[1..][k] == r.value && forall j :: 0 <= j < k ==> ts[1..][j].id != id;
        assert ts[k + 1] == r.value && forall j :: 0 <= j < k + 1 ==> ts[j].id != id;
        r
      else r
  }

  /** Adding a record under an id not yet in the list keeps ids unique. */
  lemma AddKeepsIdsUnique(ts: seq<Transaction>, f: TransactionFields, id: string)
    requires UniqueIds(ts) && id !in Ids(ts)
    ensures UniqueIds(ts + [WithId(f, id)])
  {
    forall i | 0 <= i < |ts| ensures ts[i].id != id {
      assert ts[i].id in Ids(ts);
    }
  }

  /** An update never changes an id, so it keeps ids unique. */
  lemma UpdateKeepsIdsUnique(ts: seq<Transaction>, id: string, f: TransactionFields)
    requires UniqueIds(ts)
    ensures UniqueIds(Updated(ts, id, f))
    ensures Ids(Updated(ts, id, f)) == Ids(ts)
  {
    var r := Updated(ts, id, f);
    assert forall i :: 0 <= i < |ts| ==> r[i].id == ts[i].id;
  }

  /** A delete keeps ids unique: what is left is a sub-list. */
  lemma {:induction false} DeleteKeepsIdsUnique(ts: seq<Transaction>, id: string)
    requires UniqueIds(ts)
    ensures UniqueIds(Deleted(ts, id))
  {
    if |ts| > 0 {
      var init, last := ts[..|ts| - 1], ts[|ts| - 1];
      DeleteKeepsIdsUnique(init, id);
      var rest := Deleted(init, id);
      if last.id != id {
        forall i | 0 <= i < |rest| ensures rest[i].id != last.id {
          assert rest[i] in init;
          var j :| 0 <= j < |init| && init[j] == rest[i];
          assert ts[j] == rest[i];
        }
      }
    }
  }

  /** Updating an id the list does not hold changes nothing. */
  lemma UpdateAbsentIsNoOp(ts: seq<Transaction>, id: string, f: TransactionFields)
    requires id !in Ids(ts)
    ensures Updated(ts, id, f) == ts
  {
    forall i | 0 <= i < |ts| ensures ts[i].id != id {
      assert ts[i].id in Ids(ts);
    }
  }

  /** Deleting an id the list does not hold changes nothing. */
  lemma {:induction false} DeleteAbsentIsNoOp(ts: seq<Transaction>, id: string)
    requires id !in Ids(ts)
    ensures Deleted(ts, id) == ts
  {
    if |ts| > 0 {
      var init := ts[..|ts| - 1];
      assert Ids(init) <= Ids(ts) by {
        forall x | x in Ids(init) ensures x in Ids(ts) {
          var i :| 0 <= i < |init| && init[i].id == x;
          assert ts[i].id == x;
        }
      }
      DeleteAbsentIsNoOp(init, id);
      assert ts[|ts| - 1].id in Ids(ts);
      assert init + [ts[|ts| - 1]] == ts;
    }
  }

  /** Filtering keeps relative order: it distributes over concatenation. */
  lemma {:induction false} DeletedDistributes(a: seq<Transaction>, b: seq<Transaction>, id: string)
    ensures Deleted(a + b, id) == Deleted(a, id) + Deleted(b, id)
  {
    if |b| == 0 {
      assert a + b == a;
    } else {
      var binit := b[..|b| - 1];
      assert (a + b)[..|a + b| - 1] == a + binit;
      assert (a + b)[|a + b| - 1] == b[|b| - 1];
      DeletedDistributes(a, binit, id);
    }
  }

  /** With unique ids, deleting a present id removes exactly one record. */
  lemma {:induction false} DeletePresentRemovesOne(ts: seq<Transaction>, id: string)
    requires UniqueIds(ts) && id in Ids(ts)
    ensures |Deleted(ts, id)| == |ts| - 1
  {
    var init, last := ts[..|ts| - 1], ts[|ts| - 1];
    if last.id == id {
      forall i | 0 <= i < |init| ensures init[i].id != id {
        assert ts[i].id != ts[|ts| - 1].id;
      }
      DeleteAbsentIsNoOp(init, id);
    } else {
      var i :| 0 <= i < |ts| && ts[i].id == id;
      assert init[i].id == id;
      assert id in Ids(init);
      DeletePresentRemovesOne(init, id);
    }
  }

  /** After update(id, f) on a present id, getById(id) yields f with that id. */
  lemma LookupAfterUpdate(ts: seq<Transaction>, id: string, f: TransactionFields)
    requires id in Ids(ts)
    ensures Lookup(Updated(ts, id, f), id) == Some(WithId(f, id))
  {
    var r := Updated(ts, id, f);
    var i :| 0 <= i < |ts| && ts[i].id == id;
    assert r[i].id == id;
    assert id in Ids(r);
  }

  /** After delete(id), getById(id) yields nothing. */
  lemma LookupAfterDelete(ts: seq<Transaction>, id: string)
    ensures Lookup(Deleted(ts, id), id) == None
  {
    var r := Deleted(ts, id);
    forall i | 0 <= i < |r| ensures r[i].id != id {
      assert r[i] in r;
    }
  }

  /** After add under a fresh id, getById(id) yields the new record. */
  lemma LookupAfterAdd(ts: seq<Transaction>, f: TransactionFields, id: string)
    requires id !in Ids(ts)
    ensures Lookup(ts + [WithId(f, id)], id) == Some(WithId(f, id))
  {
    var r := ts + [WithId(f, id)];
    assert r[|ts|].id == id;
    assert id in Ids(r);
    forall j | 0 <= j < |ts| ensures r[j].id != id {
      assert ts[j].id in Ids(ts);
    }
  }

  /** With unique ids, the record found is the only one carrying the id. */
  lemma LookupIsOnlyMatch(ts: seq<Transaction>, id: string)
    ensures UniqueIds(ts) && Lookup(ts, id).Some? ==>
      forall i :: 0 <= i < |ts| && ts[i].id == id ==> ts[i] == Lookup(ts, id).value
  {
    var r := Lookup(ts, id);
    if UniqueIds(ts) && r.Some? {
      var k :| 0 <= k < |ts| && ts[k] == r.value && forall j :: 0 <= j < k ==> ts[j].id != id;
      forall i | 0 <= i < |ts| && ts[i].id == id ensures ts[i] == r.value {
        assert ts[i].id == ts[k].id;
      }
    }
  }

  /** The store object.  Persistence to local storage is not modelled. */
  class Store {
    var transactions: seq<Transaction>

    /** The invariant the store relies on but never checks: ids are unique. */
    ghost predicate Valid()
      reads this
    {
      UniqueIds(transactions)
    }

    /** `transactions: []`. */
    constructor ()
      ensures transactions == [] && Valid()
    {
      transactions := [];
    }

    /** `addTransaction`: the fresh id is supplied by the caller, in place of
        the random UUID. */
    method AddTransaction(fields: TransactionFields, newId: string)
      requires newId !in Ids(transactions)
      modifies this
      ensures transactions == old(transactions) + [WithId(fields, newId)]
      ensures old(Valid()) ==> Valid()
    {
      if Valid() {
        AddKeepsIdsUnique(transactions, fields, newId);
      }
      transactions := transactions + [WithId(fields, newId)];
    }

    /** `updateTransaction`. */
    method UpdateTransaction(id: string, fields: TransactionFields)
      modifies this
      ensures transactions == Updated(old(transactions), id, fields)
      ensures old(Valid()) ==> Valid()
    {
      if Valid() {
        UpdateKeepsIdsUnique(transactions, id, fields);
      }
      transactions := Updated(transactions, id, fields);
    }

    /** `deleteTransaction`.  In a valid store, deleting a present id removes
        exactly one record. */
    method DeleteTransaction(id: string)
      modifies this
      ensures transactions == Deleted(old(transactions), id)
      ensures old(Valid()) ==> Valid()
      ensures old(Valid()) && id in Ids(old(transactions)) ==> |transactions| == |old(transactions)| - 1
    {
      if Valid() {
        DeleteKeepsIdsUnique(transactions, id);
        if id in Ids(transactions) {
          DeletePresentRemovesOne(transactions, id);
        }
      }
      transactions := Deleted(transactions, id);
    }

    /** `getTransactionById`: a read-only lookup.  In a valid store the record
        found is the only one with that id. */
    function GetTransactionById(id: string): (r: Option<Transaction>)
      reads this
      ensures r.None? <==> id !in Ids(transactions)
      ensures r.Some? ==> r.value.id == id && r.value in transactions
      ensures Valid() && r.Some? ==>
        forall i :: 0 <= i < |transactions| && transactions[i].id == id ==> transactions[i] == r.value
    {
      LookupIsOnlyMatch(transactions, id);
      Lookup(transactions, id)
    }
  }
}
