/** What `_updateStore` does to the local mirror, as functions of the
    mirror and the incoming documents, with the properties it guarantees.
    The mirror is keyed by the documents' own ids, as the Mongo collection
    is; stale documents are recognised by canonical id. */
module Mirror {
  import opened Documents

  type Store = map<Id, Doc>

  /** `data.forEach(item => store.update(item._id, item, {upsert: true}))`:
      each incoming document replaces (or inserts) the one with its id, in
      order, so a later duplicate wins. */
  function Upsert(store: Store, data: seq<Doc>): Store
    decreases |data|
  {
    if data == [] then store
    else
      var n := |data| - 1;
      Upsert(store, data[..n])[data[n].id := data[n]]
  }

  /** The ids of the incoming documents. */
  function IdsOf(data: seq<Doc>): set<Id> {
    set i | 0 <= i < |data| :: data[i].id
  }

  /** The canonical ids of the incoming documents (`currentIdMappings`). */
  function CanonicalIds(data: seq<Doc>): set<string> {
    set i | 0 <= i < |data| :: CanonicalId(data[i].id)
  }

  /** The canonical ids of the documents a store holds. */
  function StoreCanonicalIds(store: Store): set<string> {
    set k | k in store :: CanonicalId(k)
  }

  /** `_updateStore(data)`: upsert every incoming document, then remove every
      document that was resident before and whose canonical id is not among
      the incoming ones. */
  function Reconcile(store: Store, data: seq<Doc>): Store {
    var u := Upsert(store, data);
    var c := CanonicalIds(data);
    map k | k in u && (k !in store || CanonicalId(k) in c) :: u[k]
  }

  /** Document `i` is the last incoming document with its id. */
  predicate IsLast(data: seq<Doc>, i: int) {
    0 <= i < |data| && forall j :: i < j < |data| ==> data[j].id != data[i].id
  }

  lemma IdsOfSnoc(data: seq<Doc>)
    requires data != []
    ensures IdsOf(data) == IdsOf(data[..|data| - 1]) + {data[|data| - 1].id}
  {
    var n := |data| - 1;
    var init := data[..n];
    forall k | k in IdsOf(data) ensures k in IdsOf(init) + {data[n].id} {
      var i :| 0 <= i < |data| && data[i].id == k;
      if i < n { assert init[i].id == k; }
    }
    forall k | k in IdsOf(init) ensures k in IdsOf(data) {
      var i :| 0 <= i < |init| && init[i].id == k;
      assert data[i].id == k;
    }
  }

  /** Upserting adds exactly the incoming ids and keeps the documents it
      does not touch. */
  lemma {:induction false} UpsertKeys(store: Store, data: seq<Doc>)
    ensures Upsert(store, data).Keys == store.Keys + IdsOf(data)
    ensures forall k :: k in store && k !in IdsOf(data) ==> Upsert(store, data)[k] == store[k]
    decreases |data|
  {
    if data != [] {
      UpsertKeys(store, data[..|data| - 1]);
      IdsOfSnoc(data);
    }
  }

  /** Upserting leaves each incoming id with its last incoming document. */
  lemma {:induction false} UpsertLast(store: Store, data: seq<Doc>)
    ensures forall i :: IsLast(data, i) ==> data[i].id in Upsert(store, data) && Upsert(store, data)[data[i].id] == data[i]
    decreases |data|
  {
    if data != [] {
      var n := |data| - 1;
      var init := data[..n];
      UpsertLast(store, init);
      forall i | IsLast(data, i) ensures data[i].id in Upsert(store, data) && Upsert(store, data)[data[i].id] == data[i] {
        if i < n {
          assert IsLast(init, i);
        }
      }
    }
  }

  lemma UpsertContents(store: Store, data: seq<Doc>)
    ensures Upsert(store, data).Keys == store.Keys + IdsOf(data)
    ensures forall k :: k in store && k !in IdsOf(data) ==> Upsert(store, data)[k] == store[k]
    ensures forall i :: IsLast(data, i) ==> data[i].id in Upsert(store, data) && Upsert(store, data)[data[i].id] == data[i]
  {
    UpsertKeys(store, data);
    UpsertLast(store, data);
  }

  /** After `_updateStore(data)` the mirror holds a document for exactly the
      canonical ids of `data`: no resident whose canonical id is not incoming
      survives, and no incoming canonical id is missing.
      Each incoming id holds the last incoming document with that id; any
      other document in the result was resident before, unchanged, and shares
      its canonical id with an incoming one; and every resident that shares
      its canonical id with an incoming one stays. */
  lemma ReconcileMirrors(store: Store, data: seq<Doc>)
    ensures StoreCanonicalIds(Reconcile(store, data)) == CanonicalIds(data)
    ensures IdsOf(data) <= Reconcile(store, data).Keys
    ensures forall i :: IsLast(data, i) ==> Reconcile(store, data)[data[i].id] == data[i]
    ensures forall k :: k in Reconcile(store, data) && k !in IdsOf(data) ==>
              k in store && Reconcile(store, data)[k] == store[k] && CanonicalId(k) in CanonicalIds(data)
    ensures forall k :: k in store && CanonicalId(k) in CanonicalIds(data) ==> k in Reconcile(store, data)
  {
    var r := Reconcile(store, data);
    UpsertContents(store, data);
    forall c | c in StoreCanonicalIds(r) ensures c in CanonicalIds(data) {
      var k :| k in r && CanonicalId(k) == c;
      if k !in store {
        var i :| 0 <= i < |data| && data[i].id == k;
      }
    }
    forall c | c in CanonicalIds(data) ensures c in StoreCanonicalIds(r) {
      var i :| 0 <= i < |data| && CanonicalId(data[i].id) == c;
      assert data[i].id in IdsOf(data);
      assert data[i].id in r;
    }
    forall k | k in IdsOf(data) ensures k in r {
      var i :| 0 <= i < |data| && data[i].id == k;
    }
    forall i | IsLast(data, i) ensures r[data[i].id] == data[i] {
      assert data[i].id in IdsOf(data);
    }
  }

  /** When no incoming id shares its canonical id with a different resident
      id, the mirror's ids are exactly the incoming ids. */
  lemma ReconcileExactIds(store: Store, data: seq<Doc>)
    requires forall k, i :: k in store && 0 <= i < |data| && CanonicalId(k) == CanonicalId(data[i].id) ==> k == data[i].id
    ensures Reconcile(store, data).Keys == IdsOf(data)
  {
    UpsertContents(store, data);
    forall k | k in Reconcile(store, data) ensures k in IdsOf(data) {
      if k in store {
        assert CanonicalId(k) in CanonicalIds(data);
        var i :| 0 <= i < |data| && CanonicalId(data[i].id) == CanonicalId(k);
        assert k == data[i].id;
      }
    }
  }

  /** Reconciling twice with the same documents changes nothing more. */
  lemma ReconcileIdempotent(store: Store, data: seq<Doc>)
    ensures Reconcile(Reconcile(store, data), data) == Reconcile(store, data)
  {
    var r := Reconcile(store, data);
    ReconcileMirrors(store, data);
    ReconcileMirrors(r, data);
    UpsertContents(r, data);
    UpsertContents(store, data);
    var r2 := Reconcile(r, data);
    assert r2.Keys == r.Keys;
    forall k | k in r ensures r2[k] == r[k] {
      if k in IdsOf(data) {
        var i :| 0 <= i < |data| && data[i].id == k;
        var j := LastIndex(data, i);
        assert data[j].id == k;
      }
    }
  }

  /** The last position holding the same id as position `i`. */
  ghost function LastIndex(data: seq<Doc>, i: nat): (j: nat)
    requires i < |data|
    ensures i <= j < |data| && data[j].id == data[i].id && IsLast(data, j)
    decreases |data| - i
  {
    if exists k :: i < k < |data| && data[k].id == data[i].id then
      var k :| i < k < |data| && data[k].id == data[i].id;
      LastIndex(data, k)
    else i
  }
}
