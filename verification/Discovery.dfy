/** The replica of the server list kept by `ClientDis` (pkg/etcd/etcddis.go): a snapshot of
    the keys under a prefix, then the events of a watch that starts later. */
module Discovery {

  datatype Option<T> = None | Some(value: T)

  /** An entry of a response; the value is nil when there are no bytes. */
  datatype KeyValue = KeyValue(key: string, value: Option<string>)

  datatype Event = Put(key: string, value: string) | Delete(key: string)

  type Store = map<string, string>

  // ---- what the members compute ----

  function Apply(m: Store, e: Event): Store {
    match e
    case Put(key, value) => m[key := value]
    case Delete(key) => m - {key}
  }

  function Replay(m: Store, events: seq<Event>): Store {
    if events == [] then m else Apply(Replay(m, events[..|events| - 1]), events[|events| - 1])
  }

  /** The entries of a response, nil values skipped. */
  function Load(m: Store, kvs: seq<KeyValue>): Store {
    if kvs == [] then m
    else
      var rest, last := Load(m, kvs[..|kvs| - 1]), kvs[|kvs| - 1];
      if last.value.None? then rest else rest[last.key := last.value.value]
  }

  function Addrs(kvs: seq<KeyValue>): seq<string> {
    if kvs == [] then []
    else
      var rest, last := Addrs(kvs[..|kvs| - 1]), kvs[|kvs| - 1];
      if last.value.None? then rest else rest + [last.value.value]
  }

  function Concat(batches: seq<seq<Event>>): seq<Event> {
    if batches == [] then [] else Concat(batches[..|batches| - 1]) + batches[|batches| - 1]
  }

  lemma {:induction false} ReplayConcat(m: Store, a: seq<Event>, b: seq<Event>)
    ensures Replay(m, a + b) == Replay(Replay(m, a), b)
    decreases |b|
  {
    if b == [] {
      assert a + b == a;
    } else {
      assert (a + b)[..|a + b| - 1] == a + b[..|b| - 1];
      ReplayConcat(m, a, b[..|b| - 1]);
    }
  }

  /** The events of all responses, one response after the other. */
  lemma {:induction false} ConcatInOrder(a: seq<seq<Event>>, x: seq<Event>, b: seq<seq<Event>>)
    ensures Concat([]) == [] && Concat([x]) == x && Concat(a + b) == Concat(a) + Concat(b)
    decreases |b|
  {
    assert [x][..0] == [];
    if b == [] {
      assert a + b == a;
    } else {
      assert (a + b)[..|a + b| - 1] == a + b[..|b| - 1];
      ConcatInOrder(a, x, b[..|b| - 1]);
    }
  }

  // ---- the last word on a key ----

  function At(m: Store, key: string): Option<string> {
    if key in m then Some(m[key]) else None
  }

  /** Event `i` of response `r` is the last one about the key. */
  ghost predicate LastEvent(responses: seq<seq<Event>>, r: nat, i: nat, key: string) {
    && r < |responses| && i < |responses[r]| && responses[r][i].key == key
    && (forall j :: i < j < |responses[r]| ==> responses[r][j].key != key)
    && (forall q, j :: r < q < |responses| && 0 <= j < |responses[q]| ==> responses[q][j].key != key)
  }

  ghost predicate Silent(responses: seq<seq<Event>>, key: string) {
    forall q, j :: 0 <= q < |responses| && 0 <= j < |responses[q]| ==> responses[q][j].key != key
  }

  /** What the responses leave under a key: what the last event about it says, or else what
      was there before. */
  ghost predicate Updated(was: Store, now: Store, responses: seq<seq<Event>>) {
    && (forall r: nat, i: nat, key :: LastEvent(responses, r, i, key) ==>
          At(now, key) == if responses[r][i].Put? then Some(responses[r][i].value) else None)
    && (forall key :: Silent(responses, key) ==> At(now, key) == At(was, key))
  }

  lemma {:induction false} ReplayEvent(m: Store, events: seq<Event>, i: nat, key: string)
    requires i < |events| && events[i].key == key
    requires forall j :: i < j < |events| ==> events[j].key != key
    ensures At(Replay(m, events), key) == if events[i].Put? then Some(events[i].value) else None
  {
    if i < |events| - 1 {
      ReplayEvent(m, events[..|events| - 1], i, key);
    }
  }

  lemma {:induction false} ReplaySilent(m: Store, events: seq<Event>, key: string)
    requires forall j :: 0 <= j < |events| ==> events[j].key != key
    ensures At(Replay(m, events), key) == At(m, key)
  {
    if events != [] {
      ReplaySilent(m, events[..|events| - 1], key);
    }
  }

  lemma {:induction false} BatchesSilent(m: Store, responses: seq<seq<Event>>, key: string)
    requires Silent(responses, key)
    ensures At(Replay(m, Concat(responses)), key) == At(m, key)
  {
    if responses != [] {
      var n := |responses| - 1;
      BatchesSilent(m, responses[..n], key);
      ReplayConcat(m, Concat(responses[..n]), responses[n]);
      ReplaySilent(Replay(m, Concat(responses[..n])), responses[n], key);
    }
  }

  lemma {:induction false} BatchesEvent(m: Store, responses: seq<seq<Event>>, r: nat, i: nat, key: string)
    requires LastEvent(responses, r, i, key)
    ensures At(Replay(m, Concat(responses)), key) ==
            if responses[r][i].Put? then Some(responses[r][i].value) else None
  {
    var n := |responses| - 1;
    var before := Replay(m, Concat(responses[..n]));
    ReplayConcat(m, Concat(responses[..n]), responses[n]);
    if r == n {
      ReplayEvent(before, responses[n], i, key);
    } else {
      assert LastEvent(responses[..n], r, i, key);
      BatchesEvent(m, responses[..n], r, i, key);
      ReplaySilent(before, responses[n], key);
    }
  }

  lemma BatchesUpdate(m: Store, responses: seq<seq<Event>>)
    ensures Updated(m, Replay(m, Concat(responses)), responses)
  {
    forall r: nat, i: nat, key | LastEvent(responses, r, i, key)
      ensures At(Replay(m, Concat(responses)), key) ==
              if responses[r][i].Put? then Some(responses[r][i].value) else None
    {
      BatchesEvent(m, responses, r, i, key);
    }
    forall key | Silent(responses, key) ensures At(Replay(m, Concat(responses)), key) == At(m, key) {
      BatchesSilent(m, responses, key);
    }
  }

  /** Entry `i` is the last one of the key that has a value. */
  ghost predicate LastEntry(kvs: seq<KeyValue>, i: nat, key: string) {
    && i < |kvs| && kvs[i].key == key && kvs[i].value.Some?
    && (forall j :: i < j < |kvs| ==> kvs[j].key != key || kvs[j].value.None?)
  }

  /** What the entries of a response leave under a key. */
  ghost predicate Loaded(was: Store, now: Store, kvs: seq<KeyValue>) {
    && (forall i: nat, key :: LastEntry(kvs, i, key) ==> At(now, key) == kvs[i].value)
    && (forall key :: (forall i :: 0 <= i < |kvs| ==> kvs[i].key != key || kvs[i].value.None?) ==>
          At(now, key) == At(was, key))
  }

  lemma {:induction false} LoadLoads(m: Store, kvs: seq<KeyValue>)
    ensures Loaded(m, Load(m, kvs), kvs)
  {
    if kvs != [] {
      var n := |kvs| - 1;
      LoadLoads(m, kvs[..n]);
      forall i: nat, key | LastEntry(kvs, i, key) ensures At(Load(m, kvs), key) == kvs[i].value {
        assert i < n ==> LastEntry(kvs[..n], i, key);
      }
    }
  }

  /** The addresses come in the order of the response, one for each entry with a value. */
  lemma {:induction false} AddrsInOrder(kvs: seq<KeyValue>) returns (at: seq<nat>)
    ensures FromEntries(kvs, at, Addrs(kvs))
    ensures forall i :: 0 <= i < |kvs| && kvs[i].value.Some? ==> i in at
  {
    at := [];
    if kvs != [] {
      var n := |kvs| - 1;
      var front := AddrsInOrder(kvs[..n]);
      EntriesLonger(kvs, front, Addrs(kvs[..n]));
      at := front;
      if kvs[n].value.Some? {
        at := front + [n];
        assert at[|front|] == n;
        assert forall i :: i in front ==> i in at;
      }
    }
  }

  /** The addresses are the values of the entries at these indices, in this order. */
  ghost predicate FromEntries(kvs: seq<KeyValue>, at: seq<nat>, addrs: seq<string>) {
    && |at| == |addrs|
    && (forall j :: 0 <= j < |at| ==> at[j] < |kvs| && kvs[at[j]].value == Some(addrs[j]))
    && (forall j, k :: 0 <= j < k < |at| ==> at[j] < at[k])
  }

  lemma EntriesLonger(kvs: seq<KeyValue>, at: seq<nat>, addrs: seq<string>)
    requires kvs != [] && FromEntries(kvs[..|kvs| - 1], at, addrs)
    ensures FromEntries(kvs, at, addrs)
    ensures kvs[|kvs| - 1].value.Some? ==> FromEntries(kvs, at + [|kvs| - 1], addrs + [kvs[|kvs| - 1].value.value])
  {
  }

  // ---- ClientDis ----

  class ClientDis {
    var ServerList: Store

    constructor ()
      ensures ServerList == map[]
    {
      ServerList := map[];
    }

    method SetServiceList(key: string, val: string)
      modifies this
      ensures ServerList == Apply(old(ServerList), Put(key, val))
    {
      ServerList := ServerList[key := val];
    }

    method DelServiceList(key: string)
      modifies this
      ensures ServerList == Apply(old(ServerList), Delete(key))
    {
      ServerList := ServerList - {key};
    }

    /** `extractAddrs`; there are no entries when the response or its list is nil. */
    method ExtractAddrs(resp: Option<seq<KeyValue>>) returns (addrs: seq<string>)
      modifies this
      ensures resp.None? ==> addrs == [] && ServerList == old(ServerList)
      ensures resp.Some? ==> addrs == Addrs(resp.value) && ServerList == Load(old(ServerList), resp.value)
      ensures Loaded(old(ServerList), ServerList, if resp.None? then [] else resp.value)
    {
      addrs := [];
      if resp.None? {
        LoadLoads(ServerList, []);
        return;
      }
      var kvs := resp.value;
      for i := 0 to |kvs|
        invariant addrs == Addrs(kvs[..i]) && ServerList == Load(old(ServerList), kvs[..i])
      {
        assert kvs[..i + 1][..i] == kvs[..i];
        if kvs[i].value.Some? {
          SetServiceList(kvs[i].key, kvs[i].value.value);
          addrs := addrs + [kvs[i].value.value];
        }
      }
      assert kvs[..|kvs|] == kvs;
      LoadLoads(old(ServerList), kvs);
    }

    /** `watcher`, for the responses received so far. */
    method Watcher(responses: seq<seq<Event>>)
      modifies this
      ensures ServerList == Replay(old(ServerList), Concat(responses))
      ensures Updated(old(ServerList), ServerList, responses)
    {
      for i := 0 to |responses|
        invariant ServerList == Replay(old(ServerList), Concat(responses[..i]))
      {
        ghost var before := ServerList;
        var events := responses[i];
        for j := 0 to |events|
          invariant ServerList == Replay(before, events[..j])
        {
          assert events[..j + 1][..j] == events[..j];
          match events[j] {
            case Put(key, value) => SetServiceList(key, value);
            case Delete(key) => DelServiceList(key);
          }
        }
        assert events[..|events|] == events && responses[..i + 1][..i] == responses[..i];
        ReplayConcat(old(ServerList), Concat(responses[..i]), events);
      }
      assert responses[..|responses|] == responses;
      BatchesUpdate(old(ServerList), responses);
    }

    /** `GetService`: the snapshot, then the watch. */
    method GetService(resp: Option<seq<KeyValue>>, responses: seq<seq<Event>>) returns (addrs: seq<string>)
      modifies this
      ensures var kvs := if resp.None? then [] else resp.value;
              && addrs == Addrs(kvs) && ServerList == Replay(Load(old(ServerList), kvs), Concat(responses))
              && Loaded(old(ServerList), Load(old(ServerList), kvs), kvs)
              && Updated(Load(old(ServerList), kvs), ServerList, responses)
    {
      addrs := ExtractAddrs(resp);
      Watcher(responses);
    }
  }

  // ---- against the store ----

  predicate Under(key: string, prefix: string) {
    prefix <= key
  }

  /** The events of a watch: those under the prefix, in order. */
  function Watched(events: seq<Event>, prefix: string): seq<Event> {
    if events == [] then []
    else
      var last := events[|events| - 1];
      Watched(events[..|events| - 1], prefix) + if Under(last.key, prefix) then [last] else []
  }

  /** A response lists the entries of the store under the prefix, each once in some order;
      an empty value arrives as nil. */
  ghost predicate Answers(kvs: seq<KeyValue>, store: Store, prefix: string) {
    && (forall i, j :: 0 <= i < j < |kvs| ==> kvs[i].key != kvs[j].key)
    && (forall i :: 0 <= i < |kvs| ==>
          kvs[i].key in store && Under(kvs[i].key, prefix)
          && kvs[i].value == if store[kvs[i].key] == "" then None else Some(store[kvs[i].key]))
    && (forall key :: key in store && Under(key, prefix) ==> Listed(kvs, key))
  }

  ghost predicate Listed(kvs: seq<KeyValue>, key: string) {
    exists i :: 0 <= i < |kvs| && kvs[i].key == key
  }

  predicate Touches(events: seq<Event>, key: string) {
    exists i :: 0 <= i < |events| && events[i].key == key
  }

  /** What the last event for a key leaves under it. */
  function Latest(events: seq<Event>, key: string): Option<string>
    requires Touches(events, key)
  {
    var last := events[|events| - 1];
    if last.key != key then
      assert forall i :: 0 <= i < |events| - 1 ==> events[..|events| - 1][i] == events[i];
      Latest(events[..|events| - 1], key)
    else if last.Put? then Some(last.value) else None
  }

  lemma {:induction false} ReplayAt(m: Store, events: seq<Event>, key: string)
    ensures At(Replay(m, events), key) == if Touches(events, key) then Latest(events, key) else At(m, key)
  {
    if events != [] {
      var before := events[..|events| - 1];
      assert forall i :: 0 <= i < |before| ==> before[i] == events[i];
      ReplayAt(m, before, key);
      assert events[|events| - 1].key != key ==> (Touches(events, key) <==> Touches(before, key));
    }
  }

  lemma {:induction false} WatchedAt(m: Store, events: seq<Event>, prefix: string, key: string)
    ensures At(Replay(m, Watched(events, prefix)), key) ==
            if Under(key, prefix) && Touches(events, key) then Latest(events, key) else At(m, key)
  {
    if events != [] {
      var before, last := events[..|events| - 1], events[|events| - 1];
      assert forall i :: 0 <= i < |before| ==> before[i] == events[i];
      WatchedAt(m, before, prefix, key);
      if Under(last.key, prefix) {
        ReplayConcat(m, Watched(before, prefix), [last]);
      } else {
        assert Watched(before, prefix) + [] == Watched(before, prefix);
      }
      assert last.key != key ==> (Touches(events, key) <==> Touches(before, key));
    }
  }

  lemma {:induction false} LoadUnlisted(kvs: seq<KeyValue>, key: string)
    requires forall i :: 0 <= i < |kvs| ==> kvs[i].key != key
    ensures At(Load(map[], kvs), key) == None
  {
    if kvs != [] {
      LoadUnlisted(kvs[..|kvs| - 1], key);
    }
  }

  lemma {:induction false} LoadListed(kvs: seq<KeyValue>, i: nat)
    requires i < |kvs|
    requires forall j, k :: 0 <= j < k < |kvs| ==> kvs[j].key != kvs[k].key
    ensures At(Load(map[], kvs), kvs[i].key) == kvs[i].value
  {
    var n := |kvs| - 1;
    if i == n {
      LoadUnlisted(kvs[..n], kvs[n].key);
    } else {
      LoadListed(kvs[..n], i);
    }
  }

  lemma SnapshotAt(kvs: seq<KeyValue>, store: Store, prefix: string, key: string)
    requires Answers(kvs, store, prefix)
    ensures At(Load(map[], kvs), key) ==
            if Under(key, prefix) && key in store && store[key] != "" then Some(store[key]) else None
  {
    if Listed(kvs, key) {
      var i: nat :| i < |kvs| && kvs[i].key == key;
      LoadListed(kvs, i);
    } else {
      LoadUnlisted(kvs, key);
    }
  }

  /** The keys under the prefix that hold `value`. */
  ghost function Holders(store: Store, prefix: string, value: string): set<string> {
    set key | key in store && Under(key, prefix) && store[key] == value
  }

  ghost function KeysWith(kvs: seq<KeyValue>, value: string): set<string> {
    if kvs == [] then {}
    else
      var last := kvs[|kvs| - 1];
      KeysWith(kvs[..|kvs| - 1], value) + if last.value == Some(value) then {last.key} else {}
  }

  lemma {:induction false} KeysWithMeans(kvs: seq<KeyValue>, value: string, key: string)
    ensures key in KeysWith(kvs, value) <==>
            exists i :: 0 <= i < |kvs| && kvs[i].key == key && kvs[i].value == Some(value)
  {
    if kvs != [] {
      KeysWithMeans(kvs[..|kvs| - 1], value, key);
    }
  }

  lemma {:induction false} AddrsCount(kvs: seq<KeyValue>, value: string)
    requires forall i, j :: 0 <= i < j < |kvs| ==> kvs[i].key != kvs[j].key
    ensures multiset(Addrs(kvs))[value] == |KeysWith(kvs, value)|
  {
    if kvs != [] {
      var front, last := kvs[..|kvs| - 1], kvs[|kvs| - 1];
      AddrsCount(front, value);
      KeysWithMeans(front, value, last.key);
    }
  }

  /** The addresses that `GetService` returns: each value of the store under the prefix that is
      not empty, once for each key that holds it, and nothing else. */
  lemma AddrsAreValues(kvs: seq<KeyValue>, store: Store, prefix: string, value: string)
    requires Answers(kvs, store, prefix)
    ensures multiset(Addrs(kvs))[value] == if value == "" then 0 else |Holders(store, prefix, value)|
  {
    AddrsCount(kvs, value);
    forall key ensures key in KeysWith(kvs, value) <==> value != "" && key in Holders(store, prefix, value) {
      KeysWithMeans(kvs, value, key);
      if key in Holders(store, prefix, value) {
        assert Listed(kvs, key);
      }
    }
    assert KeysWith(kvs, value) == if value == "" then {} else Holders(store, prefix, value);
  }

  /** A history of the store: what the snapshot saw, what happened before the watch started,
      what the watch delivered, response by response, and what it has not delivered yet. */
  datatype Story = Story(before: seq<Event>, gap: seq<Event>, delivered: seq<seq<Event>>, pending: seq<Event>)

  function StoreOf(h: Story): Store {
    Replay(map[], h.before + h.gap + Concat(h.delivered) + h.pending)
  }

  /** The responses of the watch: of each part of the history delivered together, the events
      under the prefix. */
  function Responses(delivered: seq<seq<Event>>, prefix: string): seq<seq<Event>> {
    seq(|delivered|, i requires 0 <= i < |delivered| => Watched(delivered[i], prefix))
  }

  /** What `GetService` makes of an empty list, given the snapshot and these responses. */
  function ReplicaOf(h: Story, prefix: string, kvs: seq<KeyValue>): Store {
    Replay(Load(map[], kvs), Concat(Responses(h.delivered, prefix)))
  }

  lemma {:induction false} WatchedAppend(a: seq<Event>, b: seq<Event>, prefix: string)
    ensures Watched(a + b, prefix) == Watched(a, prefix) + Watched(b, prefix)
    decreases |b|
  {
    if b == [] {
      assert a + b == a;
    } else {
      assert (a + b)[..|a + b| - 1] == a + b[..|b| - 1];
      WatchedAppend(a, b[..|b| - 1], prefix);
    }
  }

  lemma {:induction false} ResponsesWatched(delivered: seq<seq<Event>>, prefix: string)
    ensures Concat(Responses(delivered, prefix)) == Watched(Concat(delivered), prefix)
  {
    if delivered != [] {
      var n := |delivered| - 1;
      ResponsesWatched(delivered[..n], prefix);
      assert Responses(delivered, prefix)[..n] == Responses(delivered[..n], prefix);
      WatchedAppend(Concat(delivered[..n]), delivered[n], prefix);
    }
  }

  /** What the replica has been told last about a key: by an event delivered, or else by the
      snapshot, in which an empty value looks like none. */
  function Told(h: Story, key: string): Option<string> {
    if Touches(Concat(h.delivered), key) then Latest(Concat(h.delivered), key)
    else
      var known := At(Replay(map[], h.before), key);
      if known == Some("") then None else known
  }

  /** What happened to a key last, in the whole story. */
  function Actual(h: Story, key: string): Option<string> {
    if Touches(h.pending, key) then Latest(h.pending, key)
    else if Touches(Concat(h.delivered), key) then Latest(Concat(h.delivered), key)
    else if Touches(h.gap, key) then Latest(h.gap, key)
    else At(Replay(map[], h.before), key)
  }

  lemma StoreAt(h: Story, key: string)
    ensures At(StoreOf(h), key) == Actual(h, key)
  {
    var known := Replay(map[], h.before);
    var delivered := Concat(h.delivered);
    ReplayConcat(map[], h.before + h.gap + delivered, h.pending);
    ReplayConcat(map[], h.before + h.gap, delivered);
    ReplayConcat(map[], h.before, h.gap);
    ReplayAt(known, h.gap, key);
    ReplayAt(Replay(known, h.gap), delivered, key);
    ReplayAt(Replay(Replay(known, h.gap), delivered), h.pending, key);
  }

  /** For every story: a key under the prefix has in the replica what was told last about it,
      and other keys are never there. So the replica agrees with the store on a key exactly
      when the last event that happened to it left what the last word told about it says. */
  lemma ReplicaAgreesIff(h: Story, prefix: string, kvs: seq<KeyValue>, key: string)
    requires Answers(kvs, Replay(map[], h.before), prefix)
    ensures At(ReplicaOf(h, prefix, kvs), key) == if Under(key, prefix) then Told(h, key) else None
    ensures At(StoreOf(h), key) == Actual(h, key)
    ensures Under(key, prefix) ==>
              (At(ReplicaOf(h, prefix, kvs), key) == At(StoreOf(h), key) <==> Told(h, key) == Actual(h, key))
  {
    ResponsesWatched(h.delivered, prefix);
    WatchedAt(Load(map[], kvs), Concat(h.delivered), prefix, key);
    SnapshotAt(kvs, Replay(map[], h.before), prefix, key);
    StoreAt(h, key);
  }

  /** No event for the key went unseen. */
  predicate SeenLast(h: Story, key: string) {
    !Touches(h.pending, key) && (Touches(Concat(h.delivered), key) || !Touches(h.gap, key))
  }

  /** A key whose last event was in the snapshot or was delivered has the store's value in the
      replica, or is absent from both, unless what the snapshot saw was an empty value. */
  lemma ReplicaAgrees(h: Story, prefix: string, kvs: seq<KeyValue>, key: string)
    requires Answers(kvs, Replay(map[], h.before), prefix)
    requires Under(key, prefix) && SeenLast(h, key)
    ensures At(ReplicaOf(h, prefix, kvs), key) == At(StoreOf(h), key)
            <==> Touches(Concat(h.delivered), key) || At(Replay(map[], h.before), key) != Some("")
  {
    ReplicaAgreesIff(h, prefix, kvs, key);
  }

  /** A key that changed between the snapshot and the watch, and not since: the replica keeps
      what the snapshot saw, so it agrees exactly when the last change left just that. */
  lemma GapIsLost(h: Story, prefix: string, kvs: seq<KeyValue>, key: string)
    requires Answers(kvs, Replay(map[], h.before), prefix)
    requires Under(key, prefix) && Touches(h.gap, key)
    requires !Touches(Concat(h.delivered), key) && !Touches(h.pending, key)
    ensures At(ReplicaOf(h, prefix, kvs), key) == At(Load(map[], kvs), key)
    ensures At(ReplicaOf(h, prefix, kvs), key) == At(StoreOf(h), key)
            <==> Latest(h.gap, key) == At(Load(map[], kvs), key)
  {
    ReplicaAgreesIff(h, prefix, kvs, key);
    SnapshotAt(kvs, Replay(map[], h.before), prefix, key);
  }

  ghost function Restrict(m: Store, prefix: string): Store {
    map key | key in m && Under(key, prefix) :: m[key]
  }

  /** For every story, with any gap and anything pending: the replica is the store under the
      prefix exactly when, for every key there, what was told last is what happened last. */
  lemma WholeReplicaIff(h: Story, prefix: string, kvs: seq<KeyValue>)
    requires Answers(kvs, Replay(map[], h.before), prefix)
    ensures ReplicaOf(h, prefix, kvs) == Restrict(StoreOf(h), prefix)
            <==> forall key :: Under(key, prefix) ==> Told(h, key) == Actual(h, key)
  {
    var replica, store := ReplicaOf(h, prefix, kvs), Restrict(StoreOf(h), prefix);
    forall key
      ensures At(replica, key) == At(store, key) <==> (Under(key, prefix) ==> Told(h, key) == Actual(h, key))
    {
      ReplicaAgreesIff(h, prefix, kvs, key);
    }
    if forall key :: At(replica, key) == At(store, key) {
      SameStore(replica, store);
    }
  }

  /** With nothing in the gap and nothing pending that is when the snapshot saw no empty value
      there, other than of a key that the watch has delivered since. */
  lemma FullAgreement(h: Story, prefix: string, kvs: seq<KeyValue>)
    requires Answers(kvs, Replay(map[], h.before), prefix)
    requires h.gap == [] && h.pending == []
    ensures ReplicaOf(h, prefix, kvs) == Restrict(StoreOf(h), prefix)
            <==> forall key :: Under(key, prefix) && At(Replay(map[], h.before), key) == Some("")
                   ==> Touches(Concat(h.delivered), key)
  {
    WholeReplicaIff(h, prefix, kvs);
    forall key
      ensures Told(h, key) == Actual(h, key)
              <==> Touches(Concat(h.delivered), key) || At(Replay(map[], h.before), key) != Some("")
    {
    }
  }

  lemma SameStore(a: Store, b: Store)
    requires forall key :: At(a, key) == At(b, key)
    ensures a == b
  {
    forall key ensures key in a <==> key in b {
      assert At(a, key) == At(b, key);
    }
    forall key | key in a ensures a[key] == b[key] {
      assert At(a, key) == At(b, key);
    }
  }
}
