/** `ClientManager` and `Client` as objects. The inner maps of `ClientIdMap` and the backing
    arrays of the lists are shared by reference, as in Go; every method is proved to do to
    the registry as a value, `Sessions()` and `Lists()`, what the functions of module
    `Registry` say. Each method is one critical section, or a sequence of them run by one
    goroutine. */
module ClientManager {
  import opened Lists
  import opened Slices
  import opened Registry
  import History
  import opened Groups
  import opened SliceMaps

  class Client {
    const conn: Conn
    var UserId: string
    var Extend: string
    var GroupList: seq<string>
    var IsDeleted: bool

    /** `NewClient`. */
    constructor (conn: Conn)
      ensures this.conn == conn && GroupList == [] && !IsDeleted
    {
      this.conn := conn;
      UserId, Extend, GroupList, IsDeleted := "", "", [], false;
    }

    /** Whether the client was added to that group before. */
    method InGroup(groupName: string) returns (found: bool)
      ensures found <==> groupName in GroupList
    {
      for i := 0 to |GroupList|
        invariant forall j :: 0 <= j < i ==> GroupList[j] != groupName
      {
        if GroupList[i] == groupName {
          return true;
        }
      }
      found := false;
    }
  }

  ghost function ConnsOf(m: map<string, Client>): map<string, Conn> {
    map addr | addr in m :: m[addr].conn
  }

  /** A value of type `map[string]*Client`: a reference to a mutable map. */
  class AddrMap {
    var m: map<string, Client>
    ghost var Conns: map<string, Conn>

    ghost predicate Valid()
      reads this
    {
      Conns == ConnsOf(m)
    }

    constructor ()
      ensures Valid() && m == map[] && Conns == map[]
    {
      m, Conns := map[], map[];
    }

    /** `m[addr] = client`. */
    method Put(client: Client)
      requires Valid()
      modifies this
      ensures Valid() && m == old(m)[client.conn.addr := client]
      ensures Conns == old(Conns)[client.conn.addr := client.conn]
    {
      m := m[client.conn.addr := client];
      Conns := Conns[client.conn.addr := client.conn];
      assert Conns == ConnsOf(m);
    }

    /** `delete(m, key)`, and whether nothing is left. */
    method Remove(key: string) returns (empty: bool)
      requires Valid()
      modifies this
      ensures Valid() && m == old(m) - {key} && Conns == old(Conns) - {key}
      ensures empty <==> Conns == map[]
    {
      m := m - {key};
      Conns := Conns - {key};
      assert Conns == ConnsOf(m);
      empty := |m| == 0;
      assert m.Keys == Conns.Keys;
    }
  }

  lemma DropUpdated<V>(m: map<string, V>, id: string, v: V)
    ensures m[id := v] - {id} == m - {id}
  {
  }

  lemma UpdateTwice<V>(m: map<string, V>, key: string, a: V, b: V)
    ensures m[key := a][key := b] == m[key := b]
  {
  }

  /** The list of the system went through the deletion loop, unless one of the deletions from
      the groups before it went out of range. */
  ghost predicate SystemLeft(c: Conn, names: seq<string>, r: Indexes, r': Indexes) {
    if LeaveGroups(r, c, names).1 then r'.systems == r.systems
    else History.Shrinks(r.systems, r'.systems, c.systemId, c.clientId, |r.groups|)
  }

  class ClientManager {
    var ClientIdMap: map<string, AddrMap>
    var PlatformAccountMap: map<string, seq<string>>
    const Groups: SliceMap
    const SystemClients: SliceMap
    var DisConnect: seq<Client>
    ghost var Clients: map<string, map<string, Conn>>
    ghost var Inner: set<AddrMap>

    /** Different ids have different inner maps. */
    ghost predicate ValidSessions()
      reads this, Inner
    {
      && (forall i, j :: i in ClientIdMap && j in ClientIdMap && ClientIdMap[i] == ClientIdMap[j] ==> i == j)
      && Clients.Keys == ClientIdMap.Keys
      && (forall id :: id in ClientIdMap ==>
            ClientIdMap[id] in Inner && ClientIdMap[id].Valid() && Clients[id] == ClientIdMap[id].Conns)
    }

    ghost predicate ValidLists()
      reads this, Groups, SystemClients, Groups.Repr, SystemClients.Repr
    {
      Groups.Valid() && SystemClients.Valid() && Groups.Repr !! SystemClients.Repr
    }

    /** The sessions and the lists share nothing. */
    ghost predicate Apart()
      reads this, Groups, SystemClients
    {
      && this !in Groups.Repr && this !in SystemClients.Repr
      && Inner !! Groups.Repr && Inner !! SystemClients.Repr
    }

    /** What is under `ClientIdMapLock`, as a registry without lists. */
    ghost function Sessions(): Indexes
      reads this
    {
      Indexes(Clients, PlatformAccountMap, map[], map[])
    }

    /** The two maps of lists, as a registry without sessions. */
    ghost function Lists(): Indexes
      reads this, Groups, SystemClients
    {
      Indexes(map[], map[], Groups.Lists, SystemClients.Lists)
    }

    /** `NewClientManager`. */
    constructor ()
      ensures ValidSessions() && ValidLists() && Apart()
      ensures Sessions() == EMPTY && Lists() == EMPTY && DisConnect == []
    {
      ClientIdMap, PlatformAccountMap, DisConnect := map[], map[], [];
      Groups := new SliceMap();
      SystemClients := new SliceMap();
      Clients, Inner := map[], {};
    }

    // ---- ClientIdMap and PlatformAccountMap ----

    /** `AddClient`. The assignment on line 128 declares a new variable, so for an id that is
        not "APP_" the outer one is still nil, and `size` 0, at line 142. */
    method AddClient(client: Client)
      requires ValidSessions()
      modifies this`ClientIdMap, this`PlatformAccountMap, this`Clients, this`Inner, Inner
      ensures ValidSessions() && fresh(Inner - old(Inner))
      ensures Sessions() == Registry.AddClient(old(Sessions()), client.conn)
    {
      var id := client.conn.clientId;
      var size := 0;
      if IsApp(id) {
        size := StoreOnly(id, client);
      } else {
        if id in ClientIdMap {
          PutUnder(id, client);
          return;
        }
        var _ := StoreOnly(id, client);
      }
      if size < 2 {
        IndexId(id);
      }
    }

    /** A new inner map with one session, stored under `id`; returns its size. */
    method StoreOnly(id: string, client: Client) returns (size: nat)
      requires ValidSessions()
      modifies this`ClientIdMap, this`Clients, this`Inner
      ensures ValidSessions() && fresh(Inner - old(Inner)) && size == 1
      ensures Sessions() == old(Sessions()).(clients := old(Clients)[id := map[client.conn.addr := client.conn]])
    {
      var inner;
      inner, size := OneSession(client);
      SetInner(id, inner);
    }

    /** `make(map[string]*Client)` and the assignment to it. */
    static method OneSession(client: Client) returns (inner: AddrMap, size: nat)
      ensures fresh(inner) && inner.Valid() && inner.Conns == map[client.conn.addr := client.conn] && size == 1
    {
      inner := new AddrMap();
      inner.Put(client);
      size := |inner.m|;
    }

    /** `manager.ClientIdMap[id] = inner`, for an inner map that is nowhere else. */
    method SetInner(id: string, inner: AddrMap)
      requires ValidSessions() && inner.Valid() && inner !in Inner
      modifies this`ClientIdMap, this`Clients, this`Inner
      ensures ValidSessions() && Inner == old(Inner) + {inner}
      ensures Sessions() == old(Sessions()).(clients := old(Clients)[id := inner.Conns])
    {
      ClientIdMap := ClientIdMap[id := inner];
      Clients := Clients[id := inner.Conns];
      Inner := Inner + {inner};
    }

    /** `addrToClientMap[client.Addr] = client` on the live inner map of `id`. */
    method PutUnder(id: string, client: Client)
      requires ValidSessions() && id in ClientIdMap
      modifies this`Clients, ClientIdMap[id]
      ensures ValidSessions()
      ensures Sessions() == old(Sessions()).(clients :=
                              old(Clients)[id := old(Clients)[id][client.conn.addr := client.conn]])
    {
      ClientIdMap[id].Put(client);
      Clients := Clients[id := ClientIdMap[id].Conns];
    }

    /** The part of `AddClient` about `PlatformAccountMap`. */
    method IndexId(id: string)
      requires ValidSessions()
      modifies this`PlatformAccountMap
      ensures ValidSessions() && Sessions() == old(Sessions()).(accounts := Index(old(PlatformAccountMap), id))
    {
      if !Indexed(id) {
        return;
      }
      var key := AccountKey(id);
      PlatformAccountMap := PlatformAccountMap[key := Get(PlatformAccountMap, key) + [id]];
    }

    /** `delClientIdMap`, deleting the key line 248 names (`ByClientId`) or the one its test
        expects (`ByAddr`). */
    method DelClientIdMap(clientId: string, addr: string, keying: Keying)
      requires ValidSessions()
      modifies this`ClientIdMap, this`PlatformAccountMap, this`Clients, Inner
      ensures ValidSessions()
      ensures Sessions() == DelSession(old(Sessions()), clientId, addr, Victim(keying, clientId, addr))
    {
      if clientId !in ClientIdMap {
        return;
      }
      if addr !in ClientIdMap[clientId].m {
        return;
      }
      RemoveSession(clientId, Victim(keying, clientId, addr));
    }

    /** The rest of `delClientIdMap`, once the session was found. */
    method RemoveSession(clientId: string, victim: string)
      requires ValidSessions() && clientId in ClientIdMap
      modifies this`ClientIdMap, this`PlatformAccountMap, this`Clients, Inner
      ensures ValidSessions()
      ensures var r, left := old(Sessions()), old(Clients[clientId]) - {victim};
              Sessions() ==
              if left == map[] then r.(clients := r.clients - {clientId}, accounts := Unindex(r.accounts, clientId))
              else r.(clients := r.clients[clientId := left])
    {
      ghost var was := Clients;
      var empty := RemoveUnder(clientId, victim);
      if empty {
        DropUpdated(was, clientId, Clients[clientId]);
        RemoveId(clientId);
        DropAccount(clientId);
      }
    }

    /** `delete(addrToClientMap, key)` on the live inner map of `id`. */
    method RemoveUnder(id: string, key: string) returns (empty: bool)
      requires ValidSessions() && id in ClientIdMap
      modifies this`Clients, ClientIdMap[id]
      ensures ValidSessions()
      ensures Sessions() == old(Sessions()).(clients := old(Clients)[id := old(Clients)[id] - {key}])
      ensures empty <==> Clients[id] == map[]
    {
      empty := ClientIdMap[id].Remove(key);
      Clients := Clients[id := ClientIdMap[id].Conns];
    }

    /** `delete(manager.ClientIdMap, clientId)`. */
    method RemoveId(id: string)
      requires ValidSessions()
      modifies this`ClientIdMap, this`Clients
      ensures ValidSessions() && Sessions() == old(Sessions()).(clients := old(Clients) - {id})
    {
      ClientIdMap := ClientIdMap - {id};
      Clients := Clients - {id};
    }

    /** The part of `delClientIdMap` about `PlatformAccountMap`. */
    method DropAccount(clientId: string)
      requires ValidSessions()
      modifies this`PlatformAccountMap
      ensures ValidSessions() && Sessions() == old(Sessions()).(accounts := Unindex(old(PlatformAccountMap), clientId))
    {
      if !Indexed(clientId) {
        return;
      }
      var key := AccountKey(clientId);
      if key !in PlatformAccountMap {
        return;
      }
      var rest := RemoveElement(PlatformAccountMap[key], clientId);
      PlatformAccountMap := PlatformAccountMap[key := rest];
    }

    /** `Count`. */
    method Count() returns (n: nat)
      requires ValidSessions()
      ensures n == |Sessions().clients|
    {
      n := |ClientIdMap|;
      assert |Clients.Keys| == |Clients| && |ClientIdMap.Keys| == |ClientIdMap|;
    }

    /** `PlatformAccountCount`: a copy of the list, and its length. */
    method PlatformAccountCount(platform: string, account: string) returns (ids: seq<string>, count: nat)
      ensures (ids, count) == Registry.PlatformAccountCount(Sessions(), platform, account)
    {
      ids := Get(PlatformAccountMap, platform + "_" + account);
      count := |ids|;
    }

    /** `GetByClientId`: a copy that shares nothing with the registry, nil when the id is
        absent. The map is ranged over in an arbitrary order. */
    method GetByClientId(clientId: string) returns (addrToClient: AddrMap?)
      ensures clientId !in ClientIdMap ==> addrToClient == null
      ensures clientId in ClientIdMap ==>
                addrToClient != null && fresh(addrToClient) && addrToClient.m == ClientIdMap[clientId].m
    {
      if clientId !in ClientIdMap {
        return null;
      }
      addrToClient := new AddrMap();
      var source := ClientIdMap[clientId].m;
      var todo := source.Keys;
      while todo != {}
        invariant todo <= source.Keys
        invariant fresh(addrToClient) && addrToClient.m.Keys == source.Keys - todo
        invariant forall addr :: addr in addrToClient.m ==> addrToClient.m[addr] == source[addr]
        modifies addrToClient
        decreases |todo|
      {
        var addr :| addr in todo;
        addrToClient.m := addrToClient.m[addr := source[addr]];
        todo := todo - {addr};
      }
    }

    /** `AllClient`: a new outer map whose values are the registry's own inner maps. */
    method AllClient() returns (result: map<string, AddrMap>)
      ensures result == ClientIdMap
    {
      result := map[];
      var todo := ClientIdMap.Keys;
      while todo != {}
        invariant todo <= ClientIdMap.Keys
        invariant result.Keys == ClientIdMap.Keys - todo
        invariant forall id :: id in result ==> result[id] == ClientIdMap[id]
        decreases |todo|
      {
        var key :| key in todo;
        result := result[key := ClientIdMap[key]];
        todo := todo - {key};
      }
    }

    // ---- Groups and SystemClients ----

    /** `addClient2Group`. */
    method AddClient2Group(groupKey: string, client: Client, growth: nat)
      requires ValidLists()
      modifies Groups.Repr
      ensures ValidLists() && fresh(Groups.Repr - old(Groups.Repr))
      ensures Lists() == AddToGroup(old(Lists()), groupKey, client.conn.clientId)
    {
      Groups.Append(groupKey, client.conn.clientId, growth);
    }

    /** `delGroupClient`. */
    method DelGroupClient(groupKey: string, clientId: string) returns (panicked: bool)
      requires ValidLists()
      modifies Groups.Repr
      ensures ValidLists() && Groups.Repr == old(Groups.Repr)
      ensures (Lists(), panicked) == DelFromGroup(old(Lists()), groupKey, clientId)
    {
      var bound := Groups.Size();
      panicked := Groups.DeleteAt(groupKey, clientId, bound);
    }

    /** `AddClient2SystemClient`: two critical sections, the first one of `AddClient`. */
    method AddClient2SystemClient(systemId: string, client: Client, growth: nat)
      requires ValidSessions() && ValidLists() && Apart()
      modifies this`ClientIdMap, this`PlatformAccountMap, this`Clients, this`Inner, Inner, SystemClients.Repr
      ensures ValidSessions() && ValidLists() && Apart()
      ensures Sessions() == Registry.AddClient(old(Sessions()), client.conn)
      ensures Lists() == AddToSystem(old(Lists()), systemId, client.conn.clientId)
    {
      AddClient(client);
      SystemClients.Append(systemId, client.conn.clientId, growth);
    }

    /** `delSystemClient`: the bound is the number of groups. */
    method DelSystemClient(client: Client) returns (panicked: bool)
      requires ValidLists()
      modifies SystemClients.Repr
      ensures ValidLists() && SystemClients.Repr == old(SystemClients.Repr)
      ensures (Lists(), panicked) == DelFromSystem(old(Lists()), client.conn)
    {
      var bound := Groups.Size();
      panicked := SystemClients.DeleteAt(client.conn.systemId, client.conn.clientId, bound);
    }

    /** Lines 223-227 of `DelClient`. */
    method LeaveEach(client: Client) returns (panicked: bool)
      requires ValidLists()
      modifies Groups.Repr
      ensures ValidLists() && Groups.Repr == old(Groups.Repr)
      ensures (Lists(), panicked) == LeaveGroups(old(Lists()), client.conn, old(client.GroupList))
    {
      ghost var was := Lists();
      var names := client.GroupList;
      var i := 0;
      while i < |names|
        invariant i <= |names| && ValidLists() && Groups.Repr == old(Groups.Repr)
        invariant LeaveGroups(Lists(), client.conn, names[i..]) == LeaveGroups(was, client.conn, names)
      {
        assert names[i..][0] == names[i] && names[i..][1..] == names[i + 1..];
        panicked := DelGroupClient(GroupKey(client.conn.systemId, names[i]), client.conn.clientId);
        if panicked {
          return;
        }
        i := i + 1;
      }
      assert names[i..] == [];
      panicked := false;
    }

    /** Lines 223-230 of `DelClient`; a panic ends them and is recovered. */
    method LeaveAll(client: Client)
      requires ValidLists()
      modifies Groups.Repr, SystemClients.Repr
      ensures ValidLists() && Groups.Repr == old(Groups.Repr) && SystemClients.Repr == old(SystemClients.Repr)
      ensures Lists() == LeaveLists(old(Lists()), client.conn, old(client.GroupList))
      ensures SystemLeft(client.conn, old(client.GroupList), old(Lists()), Lists())
    {
      History.LeavesSystem(Lists(), client.conn, client.GroupList);
      var panicked := LeaveEach(client);
      if !panicked {
        var _ := DelSystemClient(client);
      }
    }

    /** `DelClient`. */
    method DelClient(client: Client, keying: Keying)
      requires ValidSessions() && ValidLists() && Apart()
      modifies this`ClientIdMap, this`PlatformAccountMap, this`Clients, Inner, Groups.Repr, SystemClients.Repr
      ensures ValidSessions() && ValidLists() && Apart()
      ensures Groups.Repr == old(Groups.Repr) && SystemClients.Repr == old(SystemClients.Repr)
      ensures var c := client.conn;
              if c.clientId == "" then Sessions() == old(Sessions()) && Lists() == old(Lists())
              else
                && Sessions() == DelSession(old(Sessions()), c.clientId, c.addr, Victim(keying, c.clientId, c.addr))
                && Lists() == LeaveLists(old(Lists()), c, old(client.GroupList))
                && SystemLeft(c, old(client.GroupList), old(Lists()), Lists())
    {
      if client.conn.clientId == "" {
        return;
      }
      DelClientIdMap(client.conn.clientId, client.conn.addr, keying);
      assert client.GroupList == old(client.GroupList);
      LeaveAll(client);
    }

    /** `EventConnect`: the connection is added once more, and the ids are counted. */
    method EventConnect(client: Client) returns (counts: nat)
      requires ValidSessions()
      modifies this`ClientIdMap, this`PlatformAccountMap, this`Clients, this`Inner, Inner
      ensures ValidSessions() && fresh(Inner - old(Inner))
      ensures Sessions() == Registry.AddClient(old(Sessions()), client.conn)
      ensures counts == |Sessions().clients|
    {
      AddClient(client);
      counts := Count();
    }

    /** `EventDisconnect`: the socket is closed elsewhere; the client is marked at the end. */
    method EventDisconnect(client: Client, keying: Keying) returns (counts: nat)
      requires ValidSessions() && ValidLists() && Apart()
      requires client !in Groups.Repr && client !in SystemClients.Repr
      modifies this`ClientIdMap, this`PlatformAccountMap, this`Clients, Inner, Groups.Repr, SystemClients.Repr
      modifies client`IsDeleted
      ensures ValidSessions() && ValidLists() && Apart()
      ensures client.IsDeleted && counts == |Sessions().clients|
      ensures var c := client.conn;
              if c.clientId == "" then Sessions() == old(Sessions()) && Lists() == old(Lists())
              else
                && Sessions() == DelSession(old(Sessions()), c.clientId, c.addr, Victim(keying, c.clientId, c.addr))
                && Lists() == LeaveLists(old(Lists()), c, old(client.GroupList))
                && SystemLeft(c, old(client.GroupList), old(Lists()), Lists())
    {
      DelClient(client, keying);
      counts := Count();
      MarkDeleted(client);
    }

    /** `client.IsDeleted = true`; the registry does not depend on it. */
    method MarkDeleted(client: Client)
      requires ValidSessions() && ValidLists() && Apart()
      requires client !in Groups.Repr && client !in SystemClients.Repr
      modifies client`IsDeleted
      ensures ValidSessions() && ValidLists() && Apart()
      ensures Sessions() == old(Sessions()) && Lists() == old(Lists()) && client.IsDeleted
    {
      client.IsDeleted := true;
    }

    /** `AddClient2LocalGroup`. */
    method AddClient2LocalGroup(groupName: string, client: Client, userId: string, extend: string, growth: nat)
      requires ValidLists() && client !in Groups.Repr
      modifies client`UserId, client`Extend, client`GroupList, Groups.Repr
      ensures client.UserId == userId && client.Extend == extend && ValidLists()
      ensures var was := Binding(old(Groups.Lists), map[client.conn := old(client.GroupList)]);
              var b := Bind(was, client.conn, groupName);
              Groups.Lists == b.groups && client.GroupList == b.groupLists[client.conn]
    {
      BindOne(Groups.Lists, client.GroupList, client.conn, groupName);
      Describe(client, userId, extend);
      var already := client.InGroup(groupName);
      if !already {
        Join(groupName, client, growth);
      }
    }

    method Describe(client: Client, userId: string, extend: string)
      requires ValidLists() && client !in Groups.Repr
      modifies client`UserId, client`Extend
      ensures client.UserId == userId && client.Extend == extend && ValidLists() && Groups.Lists == old(Groups.Lists)
    {
      client.UserId := userId;
      client.Extend := extend;
    }

    method Join(groupName: string, client: Client, growth: nat)
      requires ValidLists() && client !in Groups.Repr
      modifies client`GroupList, Groups.Repr
      ensures ValidLists() && client.GroupList == old(client.GroupList) + [groupName]
      ensures Groups.Lists ==
              AppendTo(old(Groups.Lists), GroupKey(client.conn.systemId, groupName), client.conn.clientId)
    {
      AddClient2Group(GroupKey(client.conn.systemId, groupName), client, growth);
      client.GroupList := client.GroupList + [groupName];
    }

    /** `SendMessage2LocalGroup`, with the ids a message was enqueued for as its result. It
        ranges over the live slice that `GetGroupClientList` returned. */
    method SendMessage2LocalGroup(systemId: string, groupName: string) returns (to: seq<string>, panicked: bool)
      requires ValidLists() && this !in Groups.Repr
      modifies Groups.Repr
      ensures ValidLists()
      ensures var key := GroupKey(systemId, groupName);
              var before := old(Groups.Lists);
              if groupName == "" || key !in before then
                to == [] && !panicked && Groups.Lists == before
              else
                var sent := SendToGroup(before[key], ClientIdMap.Keys, |before|);
                to == sent.to && panicked == sent.panicked && Groups.Lists == before[key := sent.list]
    {
      to, panicked := [], false;
      var key := GroupKey(systemId, groupName);
      if groupName == "" || key !in Groups.m {
        return;
      }
      to, panicked := SendToEach(key, Groups.m[key]);
    }

    /** The loop over the live slice `header` of the group has sent to `to` before index `i`:
        what it does altogether is settled, or still up to what is left in the array. */
    ghost predicate Sending(key: string, header: Slice<string>, before: Lookup, to: seq<string>, i: nat, panicked: bool)
      reads this, Groups, SystemClients, Groups.Repr, SystemClients.Repr, header.data
    {
      && ValidLists() && key in before && key in Groups.m && i <= header.len
      && Groups.m[key].data == header.data && Groups.m[key].len <= header.len <= header.data.Length
      && Groups.Lists == before[key := Groups.Lists[key]]
      && SendToGroup(before[key], ClientIdMap.Keys, |before|) ==
         if panicked then Sent(to, Groups.Lists[key], true)
         else Prepend(to, SendFrom(header.data[..header.len], Groups.m[key].len, i, ClientIdMap.Keys, |before|))
    }

    /** The member at index `i` is not registered: it is deleted from the group. */
    method DropMember(key: string, header: Slice<string>, i: nat, ghost before: Lookup, ghost to: seq<string>)
      returns (panicked: bool)
      requires this !in Groups.Repr && Sending(key, header, before, to, i, false)
      requires i < header.len && header.data[i] !in ClientIdMap
      modifies Groups.Repr
      ensures Groups.Repr == old(Groups.Repr) && Sending(key, header, before, to, i + 1, panicked)
    {
      ghost var back, len := header.data[..header.len], Groups.m[key].len;
      var x := header.data[i];
      var bound := Groups.Size();
      assert |Groups.Lists.Keys| == |before.Keys|;
      UpdateTwice(before, key, Groups.Lists[key], Delete(back[..len], x, bound).list);
      panicked := Groups.DeleteUnder(header, key, x, bound);
      SentDrop(key, header, before, to, i, back, len, panicked);
    }

    /** The state after that deletion, `back` and `len` being those before it. */
    lemma SentDrop(key: string, header: Slice<string>, before: Lookup, to: seq<string>, i: nat,
                   back: seq<string>, len: nat, panicked: bool)
      requires ValidLists() && key in before && key in Groups.m && i < header.len
      requires Groups.m[key].data == header.data && Groups.m[key].len <= header.len <= header.data.Length
      requires len <= |back| == header.len && back[i] !in ClientIdMap
      requires SendToGroup(before[key], ClientIdMap.Keys, |before|) ==
               Prepend(to, SendFrom(back, len, i, ClientIdMap.Keys, |before|))
      requires var outcome := Delete(back[..len], back[i], |before|);
               Groups.Lists == before[key := outcome.list] && panicked == outcome.panicked
      requires header.data[..header.len] == BackAfter(back[..len], len, 0, back[i], |before|) + back[len..]
      ensures Sending(key, header, before, to, i + 1, panicked)
    {
      SendDrop(to, back, len, i, ClientIdMap.Keys, |before|);
      assert Groups.m[key].len == |Groups.Lists[key]|;
    }

    /** The member at index `i` is registered: a message is enqueued for it. */
    lemma SentOne(key: string, header: Slice<string>, before: Lookup, to: seq<string>, i: nat)
      requires Sending(key, header, before, to, i, false)
      requires i < header.len && header.data[i] in ClientIdMap
      ensures Sending(key, header, before, to + [header.data[i]], i + 1, false)
    {
      SendNext(to, header.data[..header.len], Groups.m[key].len, i, ClientIdMap.Keys, |before|);
    }

    /** At the end of the array, or after a panic, everything is settled. */
    lemma SentAll(key: string, header: Slice<string>, before: Lookup, to: seq<string>, i: nat, panicked: bool)
      requires Sending(key, header, before, to, i, panicked) && (i == header.len || panicked)
      ensures SendToGroup(before[key], ClientIdMap.Keys, |before|) == Sent(to, Groups.Lists[key], panicked)
    {
      assert !panicked ==> header.data[..header.len][..Groups.m[key].len] == Groups.Lists[key];
    }

    /** The loop over the live slice `clientIds`. */
    method SendToEach(key: string, clientIds: Slice<string>) returns (to: seq<string>, panicked: bool)
      requires ValidLists() && this !in Groups.Repr && key in Groups.m && clientIds == Groups.m[key]
      modifies Groups.Repr
      ensures ValidLists()
      ensures var before := old(Groups.Lists);
              var sent := SendToGroup(before[key], ClientIdMap.Keys, |before|);
              to == sent.to && panicked == sent.panicked && Groups.Lists == before[key := sent.list]
    {
      to, panicked := [], false;
      ghost var before := Groups.Lists;
      var i := 0;
      assert before[key := before[key]] == before;
      while i < clientIds.len && !panicked
        invariant Groups.Repr == old(Groups.Repr) && Sending(key, clientIds, before, to, i, panicked)
      {
        var clientId := clientIds.data[i];
        if clientId in ClientIdMap {
          SentOne(key, clientIds, before, to, i);
          to := to + [clientId];
        } else {
          panicked := DropMember(key, clientIds, i, before, to);
        }
        i := i + 1;
      }
      SentAll(key, clientIds, before, to, i, panicked);
    }

    // ---- WriteMessage and CloseLocalClient ----

    /** One message of `WriteMessage`: an attempt on every connection of the id in an
        arbitrary order; `reachable` are the connections whose socket takes the write. The
        addresses served and failed are returned in the order of the attempts. */
    method WriteMessage(clientId: string, reachable: set<Client>) returns (delivered: seq<string>, failed: seq<string>)
      modifies this`DisConnect
      ensures clientId !in ClientIdMap ==> delivered == [] && failed == [] && DisConnect == old(DisConnect)
      ensures clientId in ClientIdMap ==>
                var conns := ClientIdMap[clientId].m;
                && NoDuplicates(delivered) && NoDuplicates(failed)
                && (forall addr :: addr in delivered <==> addr in conns && conns[addr] in reachable)
                && (forall addr :: addr in failed <==> addr in conns && conns[addr] !in reachable)
                && DisConnect == old(DisConnect) + seq(|failed|, i requires 0 <= i < |failed| => conns[failed[i]])
    {
      delivered, failed := [], [];
      var addrToConn := GetByClientId(clientId);
      if addrToConn == null {
        return;
      }
      var conns := addrToConn.m;
      var todo := conns.Keys;
      while todo != {}
        invariant todo <= conns.Keys
        invariant NoDuplicates(delivered) && NoDuplicates(failed)
        invariant forall addr :: addr in delivered <==> addr in conns && addr !in todo && conns[addr] in reachable
        invariant forall addr :: addr in failed <==> addr in conns && addr !in todo && conns[addr] !in reachable
        invariant DisConnect == old(DisConnect) + seq(|failed|, i requires 0 <= i < |failed| => conns[failed[i]])
        decreases |todo|
      {
        var addr :| addr in todo;
        todo := todo - {addr};
        if conns[addr] in reachable {
          delivered := delivered + [addr];
        } else {
          DisConnect := DisConnect + [conns[addr]];
          failed := failed + [addr];
        }
      }
    }

    /** `CloseLocalClient`: a disconnect is queued exactly when the id has a connection from
        that address and it belongs to the given system. */
    method CloseLocalClient(clientId: string, systemId: string, addr: string)
      modifies this`DisConnect
      ensures DisConnect == old(DisConnect) +
                if clientId in ClientIdMap && addr in ClientIdMap[clientId].m
                   && ClientIdMap[clientId].m[addr].conn.systemId == systemId
                then [ClientIdMap[clientId].m[addr]] else []
    {
      var addrToClientMap := GetByClientId(clientId);
      if addrToClientMap != null && addr in addrToClientMap.m {
        var conn := addrToClientMap.m[addr];
        if conn.conn.systemId != systemId {
          return;
        }
        DisConnect := DisConnect + [conn];
      }
    }
  }
}
