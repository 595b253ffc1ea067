/** The request coordinator of `SearchSource` as a state machine over
    values: what `search`, `_loadData`, the fetch callback `handleData`,
    `_canUseHistory` and `cleanHistory` do to the instance's fields. The
    class `Client.SearchSource` is proved to follow these functions; the
    lemmas below state what the version counters, the history and the
    status guarantee. */
module Coordinator {
  import opened Wrappers
  import opened Values
  import opened Documents
  import opened Mirror

  /** The `err` a fetch reports, as its message; its content is opaque here.
      A falsy `err` (`undefined`, `null`, `""`, ...) is modelled as `None`,
      so an error that is present is never the empty string. */
  type ErrorInfo = e: string | e != "" witness "error"

  /** `{loading: true}`, `{loaded: true}` or `{error: err}`. */
  datatype Status = Loading | Loaded | Failed(error: ErrorInfo)

  /** A history entry: `{data, loaded, metadata}`, `loaded` in milliseconds. */
  datatype Entry = Entry(data: seq<Doc>, loaded: int, metadata: Value)

  /** What a fetch delivers: a bare array of documents, or an envelope
      `{data, metadata}`. */
  datatype Payload = Bare(docs: seq<Doc>) | Envelope(data: seq<Doc>, metadata: Value)

  /** The instance fields the coordinator reads and writes. `keepHistory` is
      the TTL in milliseconds, 0 when history keeping is off. `issued` maps
      each version a fetch was started with to the history key its callback
      captured. `storeChanges` and `queryChanges` count the calls of
      `_storeDep.changed()` and `_currentQueryDep.changed()`. */
  datatype State = State(
    keepHistory: int,
    localSearch: bool,
    currentQuery: Option<string>,
    status: Status,
    metaData: Value,
    history: map<string, Entry>,
    store: Store,
    currentVersion: nat,
    loadedVersion: nat,
    issued: map<nat, string>,
    storeChanges: nat,
    queryChanges: nat)

  /** The state right after `new SearchSource(source, fields, options)`. */
  function Init(keepHistory: int, localSearch: bool): State {
    State(keepHistory, localSearch, None, Loaded, EmptyObject, map[], map[], 0, 0, map[], 0, 0)
  }

  /** `query + EJSON.stringify(options)`, the serialised options being
      given; a null query reads as "null". */
  function HistoryKey(query: Option<string>, optionsJson: string): (r: string)
    ensures query.Some? ==> |query.value| <= |r| && r[..|query.value|] == query.value
    ensures query.None? ==> |r| >= 4 && r[..4] == "null"
    ensures |optionsJson| <= |r| && r[|r| - |optionsJson|..] == optionsJson
  {
    (if query.Some? then query.value else "null") + optionsJson
  }

  /** `_canUseHistory(key)` at time `now`. */
  predicate CanUseHistory(history: map<string, Entry>, keepHistory: int, key: string, now: int) {
    keepHistory != 0 && key in history && now - history[key].loaded < keepHistory
  }

  /** `_loadData` for a key: a history hit reloads the mirror and the
      metadata from the entry; a miss sets the status to loading and starts
      a fetch with the next version. Returns the version (0 on a hit). */
  function Load(s: State, key: string, now: int): (State, nat) {
    if CanUseHistory(s.history, s.keepHistory, key, now) then
      var e := s.history[key];
      (s.(store := Reconcile(s.store, e.data), metaData := e.metadata, storeChanges := s.storeChanges + 1), 0)
    else
      var v := s.currentVersion + 1;
      (s.(status := Loading, currentVersion := v, issued := s.issued[v := key]), v)
  }

  /** `search(query, options)` at time `now`. */
  function Search(s: State, query: Option<string>, optionsJson: string, now: int): (State, nat) {
    var s1 := s.(currentQuery := query, queryChanges := s.queryChanges + 1);
    var (s2, v) := Load(s1, HistoryKey(query, optionsJson), now);
    (if s.localSearch then s2.(storeChanges := s2.storeChanges + 1) else s2, v)
  }

  function PayloadData(p: Payload): seq<Doc> {
    match p
    case Bare(docs) => docs
    case Envelope(data, _) => data
  }

  /** The metadata a payload is recorded with in the history. */
  function PayloadMetadata(p: Payload): Value {
    match p
    case Bare(_) => EmptyObject
    case Envelope(_, metadata) => metadata
  }

  /** `handleData(err, payload)` of the fetch started with version `v`, run
      at time `now`. A falsy payload (None) is ignored; an error sets the
      status and is thrown (the second component); otherwise the payload is
      accepted. */
  function Complete(s: State, v: nat, err: Option<ErrorInfo>, payload: Option<Payload>, now: int): (State, Option<ErrorInfo>)
    requires v in s.issued
  {
    if payload.None? then (s, None)
    else if err.Some? then (s.(status := Failed(err.value)), err)
    else (Accept(s, v, payload.value, now), None)
  }

  /** The successful branch of `handleData`: metadata, history, mirror,
      loaded version and status are updated, each behind its own guard, and
      the mirror's change is announced. */
  function Accept(s: State, v: nat, p: Payload, now: int): State
    requires v in s.issued
  {
    var data := PayloadData(p);
    var newer := v > s.loadedVersion;
    s.(metaData := if p.Envelope? then OrElse(p.metadata, EmptyObject) else s.metaData,
       history := if s.keepHistory != 0 then s.history[s.issued[v] := Entry(data, now, PayloadMetadata(p))] else s.history,
       store := if newer then Reconcile(s.store, data) else s.store,
       loadedVersion := if newer then v else s.loadedVersion,
       status := if v == s.currentVersion then Loaded else s.status,
       storeChanges := s.storeChanges + 1)
  }

  /** `cleanHistory()` */
  function CleanHistory(s: State): State {
    s.(history := map[])
  }

  /** What holds between the fields at every moment: the mirror never shows
      a response newer than the newest request, every version up to the
      current one has been issued (and nothing else), and while loading some
      issued response is newer than the one the mirror shows. */
  ghost predicate Valid(s: State) {
    && s.loadedVersion <= s.currentVersion
    && (forall v :: v in s.issued <==> 1 <= v <= s.currentVersion)
    && (s.status.Loading? ==> s.loadedVersion < s.currentVersion)
  }

  lemma InitValid(keepHistory: int, localSearch: bool)
    ensures Valid(Init(keepHistory, localSearch))
    ensures Init(keepHistory, localSearch).status == Loaded
    ensures Init(keepHistory, localSearch).currentVersion == 0 && Init(keepHistory, localSearch).loadedVersion == 0
    ensures Init(keepHistory, localSearch).issued == map[]
  {
  }

  /** A history hit changes neither version counter nor the status: it
      reloads the mirror and the metadata from the entry and notifies. */
  lemma LoadOnHit(s: State, key: string, now: int)
    requires CanUseHistory(s.history, s.keepHistory, key, now)
    ensures var (r, v) := Load(s, key, now);
      && v == 0
      && r.currentVersion == s.currentVersion && r.loadedVersion == s.loadedVersion
      && r.status == s.status && r.issued == s.issued && r.history == s.history
      && r.store == Reconcile(s.store, s.history[key].data)
      && r.metaData == s.history[key].metadata
      && r.storeChanges == s.storeChanges + 1
  {
  }

  /** A history miss sets the status to loading and issues the next version
      for this key; the mirror, the history and the loaded version stay. */
  lemma LoadOnMiss(s: State, key: string, now: int)
    requires !CanUseHistory(s.history, s.keepHistory, key, now)
    ensures var (r, v) := Load(s, key, now);
      && v == s.currentVersion + 1 == r.currentVersion
      && r.status == Loading
      && r.issued == s.issued[v := key]
      && r.store == s.store && r.history == s.history && r.loadedVersion == s.loadedVersion
      && r.storeChanges == s.storeChanges
  {
  }

  lemma LoadKeepsValid(s: State, key: string, now: int)
    requires Valid(s)
    ensures Valid(Load(s, key, now).0)
  {
    var (r, v) := Load(s, key, now);
    if !CanUseHistory(s.history, s.keepHistory, key, now) {
      forall w ensures w in r.issued <==> 1 <= w <= r.currentVersion {
        assert w in r.issued <==> w in s.issued || w == v;
      }
    }
  }

  /** A falsy payload is ignored altogether, even when an error comes with it. */
  lemma CompleteIgnoresFalsyPayload(s: State, v: nat, err: Option<ErrorInfo>, now: int)
    requires v in s.issued
    ensures Complete(s, v, err, None, now) == (s, None)
  {
  }

  /** An error with a payload sets the status to that error and is thrown
      before history, mirror, metadata or versions change. */
  lemma CompleteFails(s: State, v: nat, e: ErrorInfo, p: Payload, now: int)
    requires v in s.issued
    ensures var (r, thrown) := Complete(s, v, Some(e), Some(p), now);
      && thrown == Some(e)
      && r.status == Failed(e)
      && r == s.(status := Failed(e))
  {
  }

  /** The version gate: a response replaces the mirror only when it is newer
      than the one shown, and the loaded version then becomes its version;
      an older one leaves mirror and loaded version as they were. */
  lemma CompleteVersionGate(s: State, v: nat, p: Payload, now: int)
    requires v in s.issued
    ensures var (r, thrown) := Complete(s, v, None, Some(p), now);
      && thrown == None
      && (v > s.loadedVersion ==> r.store == Reconcile(s.store, PayloadData(p)) && r.loadedVersion == v)
      && (v <= s.loadedVersion ==> r.store == s.store && r.loadedVersion == s.loadedVersion)
      && r.currentVersion == s.currentVersion && r.issued == s.issued
      && r.storeChanges == s.storeChanges + 1
  {
  }

  /** The status gate: only the response to the newest request marks the
      source loaded; a superseded one leaves the status as it was. */
  lemma CompleteStatusGate(s: State, v: nat, p: Payload, now: int)
    requires v in s.issued
    ensures Complete(s, v, None, Some(p), now).0.status == if v == s.currentVersion then Loaded else s.status
  {
  }

  /** Every successful response, superseded or not, overwrites the history
      entry of its key when history keeping is on, and is then reusable for
      exactly `keepHistory` milliseconds; with history keeping off the
      history is untouched. An envelope's metadata (or `{}`) becomes the
      current metadata; a bare array leaves it alone. */
  lemma CompleteRecordsHistory(s: State, v: nat, p: Payload, now: int)
    requires v in s.issued
    ensures var r := Complete(s, v, None, Some(p), now).0;
      var key := s.issued[v];
      && (s.keepHistory != 0 ==> r.history == s.history[key := Entry(PayloadData(p), now, PayloadMetadata(p))])
      && (s.keepHistory != 0 ==> forall t :: CanUseHistory(r.history, r.keepHistory, key, t) <==> t - now < s.keepHistory)
      && (s.keepHistory == 0 ==> r.history == s.history)
      && r.metaData == (if p.Envelope? then OrElse(p.metadata, EmptyObject) else s.metaData)
  {
  }

  /** Completing a fetch keeps the invariant and never moves the loaded
      version backwards. */
  lemma CompleteKeepsValid(s: State, v: nat, err: Option<ErrorInfo>, payload: Option<Payload>, now: int)
    requires Valid(s) && v in s.issued
    ensures Valid(Complete(s, v, err, payload, now).0)
    ensures Complete(s, v, err, payload, now).0.loadedVersion >= s.loadedVersion
  {
    var r := Complete(s, v, err, payload, now).0;
    if payload.Some? && err.None? {
      CompleteVersionGate(s, v, payload.value, now);
      CompleteStatusGate(s, v, payload.value, now);
      assert r.loadedVersion <= r.currentVersion;
      assert r.status.Loading? ==> v != s.currentVersion && s.status.Loading?;
    }
  }

  /** After `cleanHistory()` no key is reusable at any time. */
  lemma CleanHistoryForgets(s: State)
    ensures forall key, t :: !CanUseHistory(CleanHistory(s).history, s.keepHistory, key, t)
    ensures Valid(s) ==> Valid(CleanHistory(s))
  {
  }

  /** `search` records the query, notifies its observers, then loads under
      the history key of the query and the options: a usable entry reloads
      the mirror and the metadata, otherwise the next version is issued for
      that key. With local search on it notifies the mirror's observers once
      more. The version invariant is kept. */
  lemma SearchKeepsValid(s: State, query: Option<string>, optionsJson: string, now: int)
    requires Valid(s)
    ensures var (r, _) := Search(s, query, optionsJson, now);
      && Valid(r)
      && r.currentQuery == query
      && r.queryChanges == s.queryChanges + 1
      && r.history == s.history && r.loadedVersion == s.loadedVersion
    ensures var key := HistoryKey(query, optionsJson);
      var (r, v) := Search(s, query, optionsJson, now);
      var extra := if s.localSearch then 1 else 0;
      CanUseHistory(s.history, s.keepHistory, key, now) ==>
        && v == 0
        && r.currentVersion == s.currentVersion && r.status == s.status && r.issued == s.issued
        && r.store == Reconcile(s.store, s.history[key].data)
        && r.metaData == s.history[key].metadata
        && r.storeChanges == s.storeChanges + 1 + extra
    ensures var key := HistoryKey(query, optionsJson);
      var (r, v) := Search(s, query, optionsJson, now);
      var extra := if s.localSearch then 1 else 0;
      !CanUseHistory(s.history, s.keepHistory, key, now) ==>
        && v == s.currentVersion + 1 == r.currentVersion
        && r.status == Loading
        && r.issued == s.issued[v := key]
        && r.store == s.store && r.metaData == s.metaData
        && r.storeChanges == s.storeChanges + extra
  {
    var s1 := s.(currentQuery := query, queryChanges := s.queryChanges + 1);
    var key := HistoryKey(query, optionsJson);
    LoadKeepsValid(s1, key, now);
    if CanUseHistory(s.history, s.keepHistory, key, now) {
      LoadOnHit(s1, key, now);
    } else {
      LoadOnMiss(s1, key, now);
    }
  }

  /** Anything that can happen to a search source: a search, the completion
      of a fetch callback, or a history wipe. */
  datatype Event =
    | SearchEvent(query: Option<string>, optionsJson: string, now: int)
    | CompleteEvent(version: nat, err: Option<ErrorInfo>, payload: Option<Payload>, now: int)
    | CleanEvent

  /** One event; a completion for a version never issued has no callback and
      changes nothing. A thrown error does not stop later events. */
  function Step(s: State, e: Event): State {
    match e
    case SearchEvent(q, o, t) => Search(s, q, o, t).0
    case CompleteEvent(v, err, p, t) => if v in s.issued then Complete(s, v, err, p, t).0 else s
    case CleanEvent => CleanHistory(s)
  }

  function Run(s: State, es: seq<Event>): State
    decreases |es|
  {
    if es == [] then s else Run(Step(s, es[0]), es[1..])
  }

  /** Along any interleaving of searches and completions, in any order, the
      invariant holds and neither version counter ever decreases; in
      particular the loaded version never passes the current one. */
  lemma {:induction false} RunKeepsValid(s: State, es: seq<Event>)
    requires Valid(s)
    ensures Valid(Run(s, es))
    ensures Run(s, es).loadedVersion >= s.loadedVersion
    ensures Run(s, es).currentVersion >= s.currentVersion
    decreases |es|
  {
    if es != [] {
      var s1 := Step(s, es[0]);
      match es[0] {
        case SearchEvent(q, o, t) => SearchKeepsValid(s, q, o, t);
        case CompleteEvent(v, err, p, t) =>
          if v in s.issued { CompleteKeepsValid(s, v, err, p, t); }
        case CleanEvent => CleanHistoryForgets(s);
      }
      RunKeepsValid(s1, es[1..]);
    }
  }

  /** Two searches whose fetches complete newest first: the older response,
      arriving last, is recorded in the history under its own key but shows
      neither in the mirror nor in the status. */
  lemma OutOfOrderResponses(s: State, k1: string, k2: string, t1: int, t2: int,
                            p1: Payload, p2: Payload, t3: int, t4: int)
    requires Valid(s)
    requires !CanUseHistory(s.history, s.keepHistory, k1, t1)
    requires !CanUseHistory(s.history, s.keepHistory, k2, t2)
    ensures
      var (a, v1) := Load(s, k1, t1);
      var (b, v2) := Load(a, k2, t2);
      var (c, _) := Complete(b, v2, None, Some(p2), t3);
      var (d, _) := Complete(c, v1, None, Some(p1), t4);
      && v1 < v2
      && d.store == c.store == Reconcile(s.store, PayloadData(p2))
      && d.loadedVersion == v2 == d.currentVersion
      && d.status == Loaded
      && (s.keepHistory != 0 ==> k1 in d.history && d.history[k1] == Entry(PayloadData(p1), t4, PayloadMetadata(p1)))
  {
    var (a, v1) := Load(s, k1, t1);
    LoadOnMiss(s, k1, t1);
    assert a.history == s.history;
    LoadOnMiss(a, k2, t2);
    var (b, v2) := Load(a, k2, t2);
    var (c, _) := Complete(b, v2, None, Some(p2), t3);
    CompleteVersionGate(b, v2, p2, t3);
    CompleteStatusGate(b, v2, p2, t3);
    CompleteVersionGate(c, v1, p1, t4);
    CompleteStatusGate(c, v1, p1, t4);
    CompleteRecordsHistory(c, v1, p1, t4);
  }

  /** A history hit does not supersede a fetch still in flight: that fetch,
      completing later, replaces the mirror the hit just showed. */
  lemma HitThenPendingResponse(s: State, key: string, now: int, v: nat, p: Payload, later: int)
    requires Valid(s)
    requires CanUseHistory(s.history, s.keepHistory, key, now)
    requires v in s.issued && v > s.loadedVersion
    ensures
      var (a, _) := Load(s, key, now);
      var (b, _) := Complete(a, v, None, Some(p), later);
      && a.store == Reconcile(s.store, s.history[key].data)
      && b.store == Reconcile(a.store, PayloadData(p))
      && b.loadedVersion == v
  {
    LoadOnHit(s, key, now);
    var (a, _) := Load(s, key, now);
    CompleteVersionGate(a, v, p, later);
  }
}
