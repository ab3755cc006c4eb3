/** The four indexes of `ClientManager` as values, and what each critical section of
    servers/clientmanager.go does to them. */
module Registry {
  import opened Lists
  import opened Slices

  /** A connection object; `serial` is its identity (two connections may share an id and an
      address). */
  datatype Conn = Conn(serial: nat, clientId: string, addr: string, systemId: string)

  type Lookup = map<string, seq<string>>

  datatype Indexes = Indexes(
    clients: map<string, map<string, Conn>>, // ClientIdMap: id -> address -> connection
    accounts: Lookup,                        // PlatformAccountMap: platform_account -> ids
    groups: Lookup,                          // Groups: system:group -> ids
    systems: Lookup)                         // SystemClients: system -> ids

  const EMPTY := Indexes(map[], map[], map[], map[])

  /** Reading an absent key of a Go map of slices gives the nil slice. */
  function Get(m: Lookup, key: string): seq<string> {
    if key in m then m[key] else []
  }

  // ---- keys derived from an id ----

  predicate IsApp(id: string) {
    Contains(id, "APP_")
  }

  lemma IsAppIff(id: string)
    ensures IsApp(id) <==> exists a, b :: id == a + "APP_" + b
  {
    ContainsIff(id, "APP_");
  }

  /** An id of one part only is kept out of the account index. */
  predicate Indexed(id: string) {
    |Split(id, '_')| >= 2
  }

  /** Ids of four parts or more all fall under the key "_". */
  function AccountKey(id: string): string {
    var parts := Split(id, '_');
    if |parts| == 3 then parts[0] + "_" + parts[2]
    else if |parts| == 2 then parts[0] + "_" + parts[1]
    else "_"
  }

  function GroupKey(systemId: string, groupName: string): string {
    systemId + ":" + groupName
  }

  // ---- AddClient and delClientIdMap ----

  function Index(accounts: Lookup, id: string): Lookup {
    if !Indexed(id) then accounts
    else accounts[AccountKey(id) := Get(accounts, AccountKey(id)) + [id]]
  }

  function Unindex(accounts: Lookup, id: string): Lookup {
    if !Indexed(id) || AccountKey(id) !in accounts then accounts
    else accounts[AccountKey(id) := Without(accounts[AccountKey(id)], id)]
  }

  function AddClient(r: Indexes, c: Conn): Indexes {
    var id := c.clientId;
    if IsApp(id) || id !in r.clients then
      r.(clients := r.clients[id := map[c.addr := c]], accounts := Index(r.accounts, id))
    else
      r.(clients := r.clients[id := r.clients[id][c.addr := c]])
  }

  /** Which key of the inner map line 248 deletes. */
  datatype Keying = ByClientId | ByAddr

  function Victim(keying: Keying, id: string, addr: string): string {
    if keying.ByClientId? then id else addr
  }

  /** `delClientIdMap(id, addr)`, deleting `victim` from the inner map. */
  function DelSession(r: Indexes, id: string, addr: string, victim: string): Indexes {
    if id !in r.clients || addr !in r.clients[id] then r
    else
      var left := r.clients[id] - {victim};
      if left == map[] then r.(clients := r.clients - {id}, accounts := Unindex(r.accounts, id))
      else r.(clients := r.clients[id := left])
  }

  // ---- Groups and SystemClients ----

  /** `m[key] = append(m[key], x)`. */
  function AppendTo(m: Lookup, key: string, x: string): Lookup {
    m[key := Get(m, key) + [x]]
  }

  /** The deletion loop on `m[key]`, with its bound; the flag says that it went out of range. */
  function DeleteIn(m: Lookup, key: string, x: string, bound: nat): (Lookup, bool) {
    if key !in m then (m, false)
    else
      var outcome := Delete(m[key], x, bound);
      (m[key := outcome.list], outcome.panicked)
  }

  function AddToGroup(r: Indexes, key: string, id: string): Indexes {
    r.(groups := AppendTo(r.groups, key, id))
  }

  function DelFromGroup(r: Indexes, key: string, id: string): (Indexes, bool) {
    var (groups, panicked) := DeleteIn(r.groups, key, id, |r.groups|);
    (r.(groups := groups), panicked)
  }

  function AddToSystem(r: Indexes, systemId: string, id: string): Indexes {
    r.(systems := AppendTo(r.systems, systemId, id))
  }

  /** `delSystemClient` compares its index with the number of groups, not with the length of
      the list it is deleting from. */
  function DelFromSystem(r: Indexes, c: Conn): (Indexes, bool) {
    var (systems, panicked) := DeleteIn(r.systems, c.systemId, c.clientId, |r.groups|);
    (r.(systems := systems), panicked)
  }

  /** The client leaves its groups one by one; a loop that goes out of range ends it there. */
  function LeaveGroups(r: Indexes, c: Conn, groupList: seq<string>): (Indexes, bool)
    decreases |groupList|
  {
    if groupList == [] then (r, false)
    else
      var (r', panicked) := DelFromGroup(r, GroupKey(c.systemId, groupList[0]), c.clientId);
      if panicked then (r', true) else LeaveGroups(r', c, groupList[1..])
  }

  /** The lists part of `DelClient`; a panic is recovered, but the system list is skipped. */
  function LeaveLists(r: Indexes, c: Conn, groupList: seq<string>): Indexes {
    var (r', panicked) := LeaveGroups(r, c, groupList);
    if panicked then r' else DelFromSystem(r', c).0
  }

  function PlatformAccountCount(r: Indexes, platform: string, account: string): (seq<string>, nat) {
    var ids := Get(r.accounts, platform + "_" + account);
    (ids, |ids|)
  }

  // ---- what every critical section keeps ----

  /** The sessions of one id: at least one, each under its own id and address, and no
      second one for an "APP_" id. */
  ghost predicate Proper(id: string, sessions: map<string, Conn>) {
    && |sessions| > 0
    && (forall addr :: addr in sessions ==> sessions[addr].clientId == id && sessions[addr].addr == addr)
    && (IsApp(id) ==> |sessions| == 1)
  }

  ghost predicate SessionsConsistent(clients: map<string, map<string, Conn>>) {
    forall id :: id in clients ==> Proper(id, clients[id])
  }

  /** The account index holds exactly the registered ids, those not "APP_" once. */
  ghost predicate AccountsConsistent(clients: map<string, map<string, Conn>>, accounts: Lookup) {
    && (forall key, id :: id in Get(accounts, key)
          <==> id in clients && Indexed(id) && AccountKey(id) == key)
    && (forall key, id :: !IsApp(id) ==> Count(Get(accounts, key), id) <= 1)
  }

  ghost predicate Consistent(r: Indexes) {
    SessionsConsistent(r.clients) && AccountsConsistent(r.clients, r.accounts)
  }

  lemma IndexCounts(accounts: Lookup, id: string, key: string, other: string)
    ensures Count(Get(Index(accounts, id), key), other) ==
            Count(Get(accounts, key), other) +
            if Indexed(id) && key == AccountKey(id) && other == id then 1 else 0
  {
    CountAppend(Get(accounts, AccountKey(id)), [id], other);
  }

  lemma UnindexCounts(accounts: Lookup, id: string, key: string, other: string)
    ensures Count(Get(Unindex(accounts, id), key), other) ==
            if Indexed(id) && key == AccountKey(id) && other == id then 0 else Count(Get(accounts, key), other)
  {
    WithoutCounts(Get(accounts, AccountKey(id)), id, other);
  }

  /** `AccountsConsistent` for one key and id, in terms of counts. */
  ghost predicate AccountsAgree(clients: map<string, map<string, Conn>>, accounts: Lookup, key: string, id: string) {
    && (Count(Get(accounts, key), id) > 0 <==> id in clients && Indexed(id) && AccountKey(id) == key)
    && (!IsApp(id) ==> Count(Get(accounts, key), id) <= 1)
  }

  lemma AgreeIffConsistent(clients: map<string, map<string, Conn>>, accounts: Lookup)
    ensures AccountsConsistent(clients, accounts)
            <==> forall key, id :: AccountsAgree(clients, accounts, key, id)
  {
    forall key, id
      ensures id in Get(accounts, key) <==> Count(Get(accounts, key), id) > 0
    {
      CountPositive(Get(accounts, key), id);
    }
    if forall key, id :: AccountsAgree(clients, accounts, key, id) {
      forall key, id
        ensures id in Get(accounts, key) <==> id in clients && Indexed(id) && AccountKey(id) == key
      {
        assert AccountsAgree(clients, accounts, key, id);
      }
      forall key, id | !IsApp(id) ensures Count(Get(accounts, key), id) <= 1 {
        assert AccountsAgree(clients, accounts, key, id);
      }
    }
  }

  lemma ProperOne(c: Conn)
    ensures Proper(c.clientId, map[c.addr := c])
  {
  }

  lemma ProperMore(c: Conn, sessions: map<string, Conn>)
    requires Proper(c.clientId, sessions) && !IsApp(c.clientId)
    ensures Proper(c.clientId, sessions[c.addr := c])
  {
  }

  lemma ProperLess(id: string, sessions: map<string, Conn>, victim: string)
    requires Proper(id, sessions) && sessions - {victim} != map[]
    ensures Proper(id, sessions - {victim})
  {
  }

  lemma AddClientSessions(r: Indexes, c: Conn)
    requires SessionsConsistent(r.clients)
    ensures SessionsConsistent(AddClient(r, c).clients)
  {
    ProperOne(c);
    if c.clientId in r.clients && !IsApp(c.clientId) {
      ProperMore(c, r.clients[c.clientId]);
    }
  }

  lemma DelSessionSessions(r: Indexes, id: string, addr: string, victim: string)
    requires SessionsConsistent(r.clients)
    ensures SessionsConsistent(DelSession(r, id, addr, victim).clients)
  {
    if id in r.clients && r.clients[id] - {victim} != map[] {
      ProperLess(id, r.clients[id], victim);
    }
  }

  lemma IndexAccounts(clients: map<string, map<string, Conn>>, accounts: Lookup, id: string,
                      sessions: map<string, Conn>)
    requires AccountsConsistent(clients, accounts)
    requires IsApp(id) || id !in clients
    ensures AccountsConsistent(clients[id := sessions], Index(accounts, id))
  {
    AgreeIffConsistent(clients, accounts);
    var clients', accounts' := clients[id := sessions], Index(accounts, id);
    forall key, other ensures AccountsAgree(clients', accounts', key, other) {
      assert AccountsAgree(clients, accounts, key, other);
      IndexCounts(accounts, id, key, other);
    }
    AgreeIffConsistent(clients', accounts');
  }

  lemma UnindexAccounts(clients: map<string, map<string, Conn>>, accounts: Lookup, id: string)
    requires AccountsConsistent(clients, accounts)
    ensures AccountsConsistent(clients - {id}, Unindex(accounts, id))
  {
    AgreeIffConsistent(clients, accounts);
    var clients', accounts' := clients - {id}, Unindex(accounts, id);
    forall key, other ensures AccountsAgree(clients', accounts', key, other) {
      assert AccountsAgree(clients, accounts, key, other);
      UnindexCounts(accounts, id, key, other);
    }
    AgreeIffConsistent(clients', accounts');
  }

  lemma AddClientConsistent(r: Indexes, c: Conn)
    requires Consistent(r)
    ensures Consistent(AddClient(r, c))
  {
    AddClientSessions(r, c);
    if IsApp(c.clientId) || c.clientId !in r.clients {
      IndexAccounts(r.clients, r.accounts, c.clientId, map[c.addr := c]);
    }
  }

  /** Whatever key the deletion uses, in particular with line 248 as written and as meant. */
  lemma DelSessionConsistent(r: Indexes, id: string, addr: string, victim: string)
    requires Consistent(r)
    ensures Consistent(DelSession(r, id, addr, victim))
  {
    DelSessionSessions(r, id, addr, victim);
    UnindexAccounts(r.clients, r.accounts, id);
  }
}
