/** `SearchSource` of lib/client.js as an object whose methods update its
    fields in place. Each method is proved to do what the matching function
    of `Coordinator` (or `Mirror`, `View`) says, so the lemmas proved there
    hold of the object. */
module Client {
  import opened Wrappers
  import opened Values
  import opened Documents
  import opened Mirror
  import opened RegExpText
  import opened View
  import Coordinator

  class SearchSource {
    const source: string
    const searchFields: seq<string>
    /** `options.keepHistory`: the history TTL in milliseconds, 0 for off. */
    const keepHistory: int
    /** `options.localSearch` */
    const localSearch: bool

    var currentQuery: Option<string>
    var status: Coordinator.Status
    var metaData: Value
    var history: map<string, Coordinator.Entry>
    var store: Store
    var currentVersion: nat
    var loadedVersion: nat
    /** The history key captured by the callback of each fetch started. */
    var issued: map<nat, string>
    var storeChanges: nat
    var queryChanges: nat

    /** The fields as a `Coordinator.State`. */
    function Model(): Coordinator.State
      reads this
    {
      Coordinator.State(keepHistory, localSearch, currentQuery, status, metaData, history, store,
                        currentVersion, loadedVersion, issued, storeChanges, queryChanges)
    }

    ghost predicate Valid()
      reads this
    {
      Coordinator.Valid(Model())
    }

    constructor (source: string, fields: seq<string>, keepHistory: int, localSearch: bool)
      ensures this.source == source && searchFields == fields
      ensures Model() == Coordinator.Init(keepHistory, localSearch)
      ensures Valid()
    {
      this.source := source;
      this.searchFields := fields;
      this.keepHistory := keepHistory;
      this.localSearch := localSearch;
      currentQuery := None;
      status := Coordinator.Loaded;
      metaData := EmptyObject;
      history := map[];
      store := map[];
      currentVersion := 0;
      loadedVersion := 0;
      issued := map[];
      storeChanges := 0;
      queryChanges := 0;
    }

    /** `_updateStore(data)`: upsert every incoming document, collect the
        canonical ids of the incoming documents, then remove every document
        resident before the call whose canonical id is not among them. */
    method UpdateStore(data: seq<Doc>)
      modifies this`store
      ensures store == Reconcile(old(store), data)
    {
      var storeIds := store.Keys;
      var currentIds: seq<Id> := [];
      var i := 0;
      while i < |data|
        invariant 0 <= i <= |data|
        invariant store == Upsert(old(store), data[..i])
        invariant |currentIds| == i && forall j :: 0 <= j < i ==> currentIds[j] == data[j].id
      {
        assert data[..i + 1][..i] == data[..i];
        currentIds := currentIds + [data[i].id];
        store := store[data[i].id := data[i]];
        i := i + 1;
      }
      assert data[..|data|] == data;

      var mappings: set<string> := {};
      var m := 0;
      while m < |currentIds|
        invariant 0 <= m <= |currentIds|
        invariant mappings == set j | 0 <= j < m :: CanonicalId(data[j].id)
      {
        mappings := mappings + {CanonicalId(currentIds[m])};
        m := m + 1;
      }
      assert mappings == CanonicalIds(data);

      ghost var upserted := store;
      var remaining := storeIds;
      while remaining != {}
        invariant remaining <= storeIds
        invariant store == map k | k in upserted && (k in remaining || k !in storeIds || CanonicalId(k) in mappings) :: upserted[k]
        decreases remaining
      {
        var k :| k in remaining;
        if CanonicalId(k) !in mappings {
          store := store - {k};
        }
        remaining := remaining - {k};
      }
    }

    /** `_loadData` for a history key: reuse the history, or start a fetch
        and return the version its callback will complete with. */
    method LoadData(key: string, now: int) returns (version: nat)
      requires Valid()
      modifies this
      ensures (Model(), version) == Coordinator.Load(old(Model()), key, now)
      ensures Valid()
    {
      Coordinator.LoadKeepsValid(Model(), key, now);
      version := 0;
      if Coordinator.CanUseHistory(history, keepHistory, key, now) {
        UpdateStore(history[key].data);
        metaData := history[key].metadata;
        storeChanges := storeChanges + 1;
      } else {
        status := Coordinator.Loading;
        currentVersion := currentVersion + 1;
        version := currentVersion;
        issued := issued[version := key];
      }
    }

    /** `handleData(err, payload)` of the fetch started with `version`, at
        time `now`; `thrown` is the error it throws. */
    method HandleData(version: nat, err: Option<Coordinator.ErrorInfo>, payload: Option<Coordinator.Payload>, now: int)
      returns (thrown: Option<Coordinator.ErrorInfo>)
      requires Valid() && version in issued
      modifies this
      ensures (Model(), thrown) == Coordinator.Complete(old(Model()), version, err, payload, now)
      ensures Valid()
    {
      Coordinator.CompleteKeepsValid(Model(), version, err, payload, now);
      thrown := None;
      if payload.None? {
        return;
      }
      if err.Some? {
        status := Coordinator.Failed(err.value);
        thrown := err;
        return;
      }
      Accept(version, payload.value, now);
    }

    /** The successful branch of `handleData`, step by step. */
    method Accept(version: nat, p: Coordinator.Payload, now: int)
      requires version in issued
      modifies this`metaData, this`history, this`store, this`loadedVersion, this`status, this`storeChanges
      ensures Model() == Coordinator.Accept(old(Model()), version, p, now)
    {
      var data := Coordinator.PayloadData(p);
      var metadata := Coordinator.PayloadMetadata(p);
      if p.Envelope? {
        metaData := OrElse(p.metadata, EmptyObject);
      }
      if keepHistory != 0 {
        history := history[issued[version] := Coordinator.Entry(data, now, metadata)];
      }
      if version > loadedVersion {
        UpdateStore(data);
        loadedVersion := version;
      }
      if version == currentVersion {
        status := Coordinator.Loaded;
      }
      storeChanges := storeChanges + 1;
    }

    /** `search(query, options)`, the options given as their EJSON text. */
    method Search(query: Option<string>, optionsJson: string, now: int) returns (version: nat)
      requires Valid()
      modifies this
      ensures (Model(), version) == Coordinator.Search(old(Model()), query, optionsJson, now)
      ensures Valid()
    {
      Coordinator.SearchKeepsValid(Model(), query, optionsJson, now);
      currentQuery := query;
      queryChanges := queryChanges + 1;
      version := LoadData(Coordinator.HistoryKey(query, optionsJson), now);
      if localSearch {
        storeChanges := storeChanges + 1;
      }
    }

    /** `cleanHistory()` */
    method CleanHistory()
      requires Valid()
      modifies this`history
      ensures Model() == Coordinator.CleanHistory(old(Model()))
      ensures Valid()
    {
      Coordinator.CleanHistoryForgets(Model());
      history := map[];
    }

    /** `getData(options)` up to the collection query: the selector it
        builds, and the transformed documents of `matched`, the documents
        the collection yields for that selector, sort and limit. */
    method GetData(fieldTransform: Option<FieldTransform>, docTransform: Option<Doc -> Doc>, matched: seq<Doc>)
      returns (selector: Selector, docs: Option<seq<Doc>>)
      ensures selector == SelectorFor(status.Loading?, searchFields, BuildPattern(currentQuery))
      ensures docs == TransformAll(matched, searchFields, currentQuery, BuildPattern(currentQuery), fieldTransform, docTransform)
    {
      var pattern := BuildPattern(currentQuery);
      selector := SelectorFor(status.Loading?, searchFields, pattern);
      docs := Fetch(matched, searchFields, currentQuery, pattern, fieldTransform, docTransform);
    }
  }
}
