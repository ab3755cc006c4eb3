/** Laws of the registry over whole histories of critical sections, in the order the locks
    serialised them. */
module History {
  import opened Lists
  import opened Slices
  import opened Registry

  // ---- one deletion: what line 248 does, and what it is meant to do ----

  predicate HasSession(r: Indexes, id: string, addr: string) {
    id in r.clients && addr in r.clients[id]
  }

  /** How often `id` stands in the account list of `key`. */
  function Entries(r: Indexes, key: string, id: string): nat {
    Count(Get(r.accounts, key), id)
  }

  ghost predicate OnlySession(r: Indexes, id: string, addr: string) {
    id in r.clients && r.clients[id].Keys == {addr}
  }

  ghost predicate Dropped(r: Indexes, r': Indexes, id: string) {
    id in r.clients && id !in r'.clients
  }

  lemma SessionsAsMeant(r: Indexes, c: Conn, id: string, addr: string)
    ensures var r' := DelSession(r, c.clientId, c.addr, c.addr);
            && (HasSession(r', id, addr) <==> HasSession(r, id, addr) && !(id == c.clientId && addr == c.addr))
            && (HasSession(r', id, addr) ==> r'.clients[id][addr] == r.clients[id][addr])
  {
    if HasSession(r, c.clientId, c.addr) && id == c.clientId && addr != c.addr && addr in r.clients[id] {
      assert addr in (r.clients[id] - {c.addr}).Keys;
    }
  }

  lemma IdsAsMeant(r: Indexes, c: Conn, id: string)
    ensures var r' := DelSession(r, c.clientId, c.addr, c.addr);
            && (id in r'.clients ==> id in r.clients)
            && (Dropped(r, r', id) <==> id == c.clientId && OnlySession(r, id, c.addr))
  {
    if HasSession(r, c.clientId, c.addr) {
      LastSession(r, c);
    }
  }

  lemma AccountsAsMeant(r: Indexes, c: Conn, key: string, id: string)
    requires Consistent(r)
    ensures var r' := DelSession(r, c.clientId, c.addr, c.addr);
            Entries(r', key, id) == if id == c.clientId && id !in r'.clients then 0 else Entries(r, key, id)
  {
    AgreeIffConsistent(r.clients, r.accounts);
    assert AccountsAgree(r.clients, r.accounts, key, id);
    if HasSession(r, c.clientId, c.addr) && r.clients[c.clientId] - {c.addr} == map[] {
      UnindexCounts(r.accounts, c.clientId, key, id);
    }
  }

  /** Keyed by the address, the deletion removes exactly the session of the given id and
      address, whatever else is registered; the id leaves both indexes exactly when that was
      its last session, and every other id keeps its entries. */
  lemma DeletionAsMeant(r: Indexes, c: Conn)
    requires Consistent(r)
    ensures var r' := DelSession(r, c.clientId, c.addr, Victim(ByAddr, c.clientId, c.addr));
            && (forall id, addr :: HasSession(r', id, addr)
                  <==> HasSession(r, id, addr) && !(id == c.clientId && addr == c.addr))
            && (forall id, addr :: HasSession(r', id, addr) ==> r'.clients[id][addr] == r.clients[id][addr])
            && (forall id :: Dropped(r, r', id) <==> id == c.clientId && OnlySession(r, id, c.addr))
            && (forall key, id :: Entries(r', key, id) ==
                  if id == c.clientId && id !in r'.clients then 0 else Entries(r, key, id))
  {
    forall id, addr {
      SessionsAsMeant(r, c, id, addr);
    }
    var r' := DelSession(r, c.clientId, c.addr, c.addr);
    forall id ensures Dropped(r, r', id) <==> id == c.clientId && OnlySession(r, id, c.addr) {
      IdsAsMeant(r, c, id);
    }
    forall key, id
      ensures Entries(r', key, id) ==
              if id == c.clientId && id !in r'.clients then 0 else Entries(r, key, id)
    {
      AccountsAsMeant(r, c, key, id);
    }
  }

  lemma LastSession(r: Indexes, c: Conn)
    requires HasSession(r, c.clientId, c.addr)
    ensures r.clients[c.clientId] - {c.addr} == map[] <==> r.clients[c.clientId].Keys == {c.addr}
  {
    var left := r.clients[c.clientId] - {c.addr};
    assert left.Keys == r.clients[c.clientId].Keys - {c.addr};
    assert left == map[] <==> left.Keys == {};
  }

  /** As written, a disconnect changes the registry exactly when the session exists and some
      session of that id has the id itself as its address, and then that one goes. */
  lemma DeletionAsWrittenIff(r: Indexes, c: Conn)
    requires Consistent(r)
    ensures DelSession(r, c.clientId, c.addr, Victim(ByClientId, c.clientId, c.addr)) != r
            <==> HasSession(r, c.clientId, c.addr) && HasSession(r, c.clientId, c.clientId)
    ensures HasSession(r, c.clientId, c.addr) && HasSession(r, c.clientId, c.clientId) ==>
              DelSession(r, c.clientId, c.addr, Victim(ByClientId, c.clientId, c.addr)) ==
              DelSession(r, c.clientId, c.clientId, Victim(ByAddr, c.clientId, c.clientId))
  {
    var id := c.clientId;
    if HasSession(r, id, c.addr) {
      var left := r.clients[id] - {id};
      assert c.addr in r.clients[id].Keys;
      if id in r.clients[id] {
        assert id !in left && id in r.clients[id];
      } else {
        assert left == r.clients[id];
        assert r.clients[id := left] == r.clients;
      }
    }
  }

  /** It does what is meant exactly when there is no such session, or the connection's
      address is its id. */
  lemma WrittenIsMeantIff(r: Indexes, c: Conn)
    requires Consistent(r)
    ensures DelSession(r, c.clientId, c.addr, Victim(ByClientId, c.clientId, c.addr)) ==
            DelSession(r, c.clientId, c.addr, Victim(ByAddr, c.clientId, c.addr))
            <==> !HasSession(r, c.clientId, c.addr) || c.addr == c.clientId
  {
    var id := c.clientId;
    if HasSession(r, id, c.addr) && c.addr != id {
      var written := DelSession(r, id, c.addr, id);
      assert c.addr in (r.clients[id] - {id}).Keys;
      assert HasSession(written, id, c.addr);
      DeletionAsMeant(r, c);
    }
  }

  // ---- histories ----

  datatype Op =
    | Add(c: Conn)                     // AddClient
    | Del(c: Conn)                     // delClientIdMap
    | Enter(c: Conn)                   // the list part of AddClient2SystemClient
    | Exit(c: Conn)                    // delSystemClient
    | JoinGroup(key: string, id: string)   // addClient2Group
    | LeaveGroup(c: Conn, groupName: string) // delGroupClient, for a group of the connection

  function Apply(keying: Keying, r: Indexes, op: Op): Indexes {
    match op
    case Add(c) => AddClient(r, c)
    case Del(c) => DelSession(r, c.clientId, c.addr, Victim(keying, c.clientId, c.addr))
    case Enter(c) => AddToSystem(r, c.systemId, c.clientId)
    case Exit(c) => DelFromSystem(r, c).0
    case JoinGroup(key, id) => AddToGroup(r, key, id)
    case LeaveGroup(c, groupName) => DelFromGroup(r, GroupKey(c.systemId, groupName), c.clientId).0
  }

  /** The deletion loop of the section goes out of range. */
  predicate Panics(r: Indexes, op: Op) {
    match op
    case LeaveGroup(c, groupName) => DelFromGroup(r, GroupKey(c.systemId, groupName), c.clientId).1
    case Exit(c) => DelFromSystem(r, c).1
    case _ => false
  }

  function Replay(keying: Keying, ops: seq<Op>): Indexes {
    if ops == [] then EMPTY
    else Apply(keying, Replay(keying, ops[..|ops| - 1]), ops[|ops| - 1])
  }

  lemma ReplayAppend(keying: Keying, ops: seq<Op>, op: Op)
    ensures Replay(keying, ops + [op]) == Apply(keying, Replay(keying, ops), op)
  {
  }

  lemma ApplyConsistent(keying: Keying, r: Indexes, op: Op)
    requires Consistent(r)
    ensures Consistent(Apply(keying, r, op))
  {
    match op
    case Add(c) => AddClientConsistent(r, c);
    case Del(c) => DelSessionConsistent(r, c.clientId, c.addr, Victim(keying, c.clientId, c.addr));
    case _ =>
  }

  lemma IdsStay(keying: Keying, r: Indexes, op: Op)
    ensures var r' := Apply(keying, r, op);
            && (forall id :: id in r.clients && id !in r'.clients ==> op.Del? && id == op.c.clientId)
            && (forall id :: id !in r.clients && id in r'.clients ==> op.Add? && id == op.c.clientId)
            && (op.Add? ==> op.c.clientId in r'.clients)
  {
  }

  /** The indexes agree after every history, with line 248 as written or as meant. */
  lemma {:induction false} ReplayConsistent(keying: Keying, ops: seq<Op>)
    ensures Consistent(Replay(keying, ops))
  {
    if ops != [] {
      ReplayConsistent(keying, ops[..|ops| - 1]);
      ApplyConsistent(keying, Replay(keying, ops[..|ops| - 1]), ops[|ops| - 1]);
    }
  }

  /** What the test of `DelClient` does: meant to leave an empty registry, it leaves the
      session there unless the connection's address is its id. */
  lemma AddThenDelete(c: Conn)
    ensures Replay(ByAddr, [Add(c), Del(c)]).clients == map[]
    ensures Replay(ByClientId, [Add(c), Del(c)]).clients ==
            if c.addr == c.clientId then map[] else map[c.clientId := map[c.addr := c]]
  {
    var ops := [Add(c), Del(c)];
    assert ops[..1] == [Add(c)] && [Add(c)][..0] == [];
    var sessions := map[c.addr := c];
    assert sessions - {c.addr} == map[];
    assert c.addr != c.clientId ==> sessions - {c.clientId} == sessions && c.addr in sessions;
    forall keying ensures Replay(keying, [Add(c)]) == AddClient(EMPTY, c) {
      ReplayAppend(keying, [], Add(c));
      assert [] + [Add(c)] == [Add(c)];
    }
    forall keying ensures Replay(keying, ops) == Apply(keying, AddClient(EMPTY, c), Del(c)) {
      ReplayAppend(keying, [Add(c)], Del(c));
      assert [Add(c)] + [Del(c)] == ops;
    }
  }

  ghost predicate HasOnly(r: Indexes, c: Conn) {
    c.clientId in r.clients && r.clients[c.clientId] == map[c.addr := c]
  }

  /** Neither another connection of the id nor a disconnect from the address in use. */
  predicate LeavesAlone(op: Op, c: Conn) {
    && (op.Add? ==> op.c.clientId != c.clientId)
    && (op.Del? && op.c.clientId == c.clientId ==> op.c.addr != c.addr)
  }

  lemma ReplacementStep(keying: Keying, r: Indexes, current: Conn, op: Op)
    requires HasOnly(r, current) && LeavesAlone(op, current)
    ensures HasOnly(Apply(keying, r, op), current)
  {
  }

  /** An "APP_" id taken over by a connection from another address keeps exactly that
      connection, whatever happens afterwards, in particular however late the disconnects of
      the connections it replaced arrive: only another connection of the id, or a disconnect
      from the address in use, can change that. */
  lemma {:induction false} ReplacementSurvives(keying: Keying, ops: seq<Op>, current: Conn, more: seq<Op>)
    requires exists a, b :: current.clientId == a + "APP_" + b
    requires forall i :: 0 <= i < |more| ==> LeavesAlone(more[i], current)
    ensures HasOnly(Replay(keying, ops + [Add(current)] + more), current)
    decreases |more|
  {
    var taken := ops + [Add(current)];
    IsAppIff(current.clientId);
    if more == [] {
      assert taken + more == taken;
      ReplayAppend(keying, ops, Add(current));
    } else {
      var less, last := more[..|more| - 1], more[|more| - 1];
      assert taken + more == (taken + less) + [last];
      ReplacementSurvives(keying, ops, current, less);
      ReplayAppend(keying, taken + less, last);
      ReplacementStep(keying, Replay(keying, taken + less), current, last);
    }
  }

  /** The late Connect event of a connection that was replaced adds it again, and evicts its
      replacement, whichever key line 248 deletes. */
  lemma LateConnectEvicts(keying: Keying, ops: seq<Op>, late: Conn)
    requires exists a, b :: late.clientId == a + "APP_" + b
    ensures HasOnly(Replay(keying, ops + [Add(late)]), late)
  {
    IsAppIff(late.clientId);
    ReplayAppend(keying, ops, Add(late));
  }

  /** The last `AddClient` of the id. */
  ghost predicate LastAdded(ops: seq<Op>, i: nat, id: string) {
    && i < |ops| && ops[i].Add? && ops[i].c.clientId == id
    && forall j :: i < j < |ops| ==> !(ops[j].Add? && ops[j].c.clientId == id)
  }

  lemma OnlySessionStays(keying: Keying, r: Indexes, op: Op, c: Conn)
    requires HasOnly(r, c) && !(op.Add? && op.c.clientId == c.clientId)
    requires c.clientId in Apply(keying, r, op).clients
    ensures HasOnly(Apply(keying, r, op), c)
  {
    if op.Del? && op.c.clientId == c.clientId {
      var victim := Victim(keying, op.c.clientId, op.c.addr);
      assert map[c.addr := c] - {victim} == if victim == c.addr then map[] else map[c.addr := c];
    }
  }

  lemma LastAddedStill(before: seq<Op>, op: Op, i: nat, id: string)
    requires LastAdded(before, i, id) && !(op.Add? && op.c.clientId == id)
    ensures LastAdded(before + [op], i, id)
  {
  }

  lemma AddedOnly(keying: Keying, before: seq<Op>, c: Conn)
    requires IsApp(c.clientId)
    ensures HasOnly(Replay(keying, before + [Add(c)]), c)
  {
    ReplayAppend(keying, before, Add(c));
  }

  lemma KeptOnly(keying: Keying, before: seq<Op>, op: Op, c: Conn)
    requires HasOnly(Replay(keying, before), c) && !(op.Add? && op.c.clientId == c.clientId)
    requires c.clientId in Replay(keying, before + [op]).clients
    ensures HasOnly(Replay(keying, before + [op]), c)
  {
    ReplayAppend(keying, before, op);
    OnlySessionStays(keying, Replay(keying, before), op, c);
  }

  lemma WasThere(keying: Keying, before: seq<Op>, op: Op, id: string)
    requires id in Replay(keying, before + [op]).clients && !(op.Add? && op.c.clientId == id)
    ensures id in Replay(keying, before).clients
  {
    ReplayAppend(keying, before, op);
    IdsStay(keying, Replay(keying, before), op);
  }

  lemma {:induction false} AppSession(keying: Keying, ops: seq<Op>, id: string) returns (i: nat)
    requires IsApp(id) && id in Replay(keying, ops).clients
    ensures LastAdded(ops, i, id) && HasOnly(Replay(keying, ops), ops[i].c)
  {
    assert ops != [];
    var before, op := ops[..|ops| - 1], ops[|ops| - 1];
    assert ops == before + [op];
    if op.Add? && op.c.clientId == id {
      i := |before|;
      AddedOnly(keying, before, op.c);
    } else {
      WasThere(keying, before, op, id);
      i := AppSession(keying, before, id);
      LastAddedStill(before, op, i, id);
      KeptOnly(keying, before, op, before[i].c);
    }
  }

  /** After every history: an id with "APP_" anywhere in it, if it is registered, has exactly
      one session, that of the connection added last. */
  lemma OneAppSession(keying: Keying, ops: seq<Op>, a: string, b: string)
    requires a + "APP_" + b in Replay(keying, ops).clients
    ensures exists i: nat :: LastAdded(ops, i, a + "APP_" + b) && HasOnly(Replay(keying, ops), ops[i].c)
  {
    IsAppIff(a + "APP_" + b);
    var i := AppSession(keying, ops, a + "APP_" + b);
  }

  // ---- who is registered, when the deletion is keyed by address ----

  /** Is about the session of `c`: an `AddClient` or a deletion with its id and address, or an
      `AddClient` of its id from another address if that is an "APP_" id. */
  predicate Concerns(op: Op, c: Conn) {
    && (op.Add? || op.Del?) && op.c.clientId == c.clientId
    && (op.c.addr == c.addr || (op.Add? && IsApp(c.clientId)))
  }

  /** The session of `c` was put there at index `i`, and nothing concerned it since. */
  ghost predicate LastPut(ops: seq<Op>, i: nat, c: Conn) {
    && i < |ops| && ops[i] == Add(c)
    && forall j :: i < j < |ops| ==> !Concerns(ops[j], c)
  }

  predicate Registered(r: Indexes, c: Conn) {
    HasSession(r, c.clientId, c.addr) && r.clients[c.clientId][c.addr] == c
  }

  lemma RegisteredAfterAdd(r: Indexes, a: Conn, c: Conn)
    ensures Registered(AddClient(r, a), c) <==>
              a == c || (Registered(r, c) && !Concerns(Add(a), c))
  {
  }

  lemma RegisteredAfterDel(r: Indexes, d: Conn, c: Conn)
    ensures Registered(DelSession(r, d.clientId, d.addr, d.addr), c) <==>
              Registered(r, c) && !Concerns(Del(d), c)
  {
    SessionsAsMeant(r, d, c.clientId, c.addr);
  }

  lemma RegisteredAfter(r: Indexes, op: Op, c: Conn)
    ensures Registered(Apply(ByAddr, r, op), c) <==>
              op == Add(c) || (Registered(r, c) && !Concerns(op, c))
  {
    match op
    case Add(a) => RegisteredAfterAdd(r, a, c);
    case Del(d) => RegisteredAfterDel(r, d, c);
    case _ =>
  }

  /** After every history with the deletion keyed by address: a connection is registered
      exactly when some `AddClient` of it was the last word on its id and address. So a
      disconnect that is handled before the Connect event of the same connection does not
      keep it out. */
  lemma {:induction false} RegisteredIff(ops: seq<Op>, c: Conn)
    ensures Registered(Replay(ByAddr, ops), c) <==> exists i: nat :: LastPut(ops, i, c)
  {
    if ops != [] {
      var before, op := ops[..|ops| - 1], ops[|ops| - 1];
      RegisteredIff(before, c);
      RegisteredAfter(Replay(ByAddr, before), op, c);
      LastPutStep(before, op, c);
      assert ops == before + [op];
    }
  }

  lemma LastPutStep(before: seq<Op>, op: Op, c: Conn)
    ensures (exists i: nat :: LastPut(before + [op], i, c)) <==>
              || op == Add(c)
              || ((exists i: nat :: LastPut(before, i, c)) && !Concerns(op, c))
  {
    var ops := before + [op];
    if op == Add(c) {
      assert LastPut(ops, |before|, c);
    } else if exists i: nat :: LastPut(ops, i, c) {
      var i: nat :| LastPut(ops, i, c);
      assert ops[|before|] == op;
      assert forall j :: i < j < |before| ==> before[j] == ops[j];
      assert LastPut(before, i, c);
    } else if (exists i: nat :: LastPut(before, i, c)) && !Concerns(op, c) {
      var i: nat :| LastPut(before, i, c);
      assert forall j :: i < j < |before| ==> before[j] == ops[j];
      assert LastPut(ops, i, c);
    }
  }

  /** Every session is of a connection that was added. */
  lemma {:induction false} SessionWasAdded(keying: Keying, ops: seq<Op>, id: string, addr: string)
    requires HasSession(Replay(keying, ops), id, addr)
    ensures Add(Replay(keying, ops).clients[id][addr]) in ops
  {
    var before, op := ops[..|ops| - 1], ops[|ops| - 1];
    var r := Replay(keying, before);
    var c := Replay(keying, ops).clients[id][addr];
    assert ops == before + [op];
    if !(op.Add? && op.c == c) {
      assert HasSession(r, id, addr) && r.clients[id][addr] == c;
      SessionWasAdded(keying, before, id, addr);
    }
  }

  // ---- the lists ----

  /** The list of `key` got `x` at its end; the other lists are as before. */
  ghost predicate Grows(m: Lookup, m': Lookup, key: string, x: string) {
    && Get(m', key) == Get(m, key) + [x] && m'.Keys == m.Keys + {key}
    && forall k :: k != key ==> Get(m', k) == Get(m, k)
  }

  /** The list of `key` went through the deletion loop; the other lists are as before. */
  ghost predicate Shrinks(m: Lookup, m': Lookup, key: string, x: string, bound: nat) {
    && Get(m', key) == Delete(Get(m, key), x, bound).list && m'.Keys == m.Keys
    && forall k :: k != key ==> Get(m', k) == Get(m, k)
  }

  lemma AppendGrows(m: Lookup, key: string, x: string)
    ensures Grows(m, AppendTo(m, key, x), key, x)
  {
  }

  lemma DeleteShrinks(m: Lookup, key: string, x: string, bound: nat)
    ensures var (m', panicked) := DeleteIn(m, key, x, bound);
            Shrinks(m, m', key, x, bound) && panicked == Delete(Get(m, key), x, bound).panicked
  {
    if key !in m {
      assert Delete([], x, bound) == Outcome([], false);
    }
  }

  /** What each section does to the two maps of lists, and when it goes out of range: one list
      grows at its end, or goes through the deletion loop with the number of groups as its
      bound. */
  ghost predicate ListEffect(r: Indexes, r': Indexes, op: Op, panics: bool) {
    match op
    case Enter(c) =>
      r'.groups == r.groups && Grows(r.systems, r'.systems, c.systemId, c.clientId) && !panics
    case Exit(c) =>
      && r'.groups == r.groups && Shrinks(r.systems, r'.systems, c.systemId, c.clientId, |r.groups|)
      && panics == Delete(Get(r.systems, c.systemId), c.clientId, |r.groups|).panicked
    case JoinGroup(key, id) =>
      r'.systems == r.systems && Grows(r.groups, r'.groups, key, id) && !panics
    case LeaveGroup(c, g) =>
      && r'.systems == r.systems && Shrinks(r.groups, r'.groups, GroupKey(c.systemId, g), c.clientId, |r.groups|)
      && panics == Delete(Get(r.groups, GroupKey(c.systemId, g)), c.clientId, |r.groups|).panicked
    case _ => r'.groups == r.groups && r'.systems == r.systems && !panics
  }

  lemma ExitEffect(keying: Keying, r: Indexes, c: Conn)
    ensures ListEffect(r, Apply(keying, r, Exit(c)), Exit(c), Panics(r, Exit(c)))
  {
    DeleteShrinks(r.systems, c.systemId, c.clientId, |r.groups|);
  }

  lemma LeaveEffect(keying: Keying, r: Indexes, c: Conn, g: string)
    ensures ListEffect(r, Apply(keying, r, LeaveGroup(c, g)), LeaveGroup(c, g), Panics(r, LeaveGroup(c, g)))
  {
    DeleteShrinks(r.groups, GroupKey(c.systemId, g), c.clientId, |r.groups|);
  }

  lemma ListEffects(keying: Keying, r: Indexes, op: Op)
    ensures ListEffect(r, Apply(keying, r, op), op, Panics(r, op))
  {
    match op
    case Enter(c) => AppendGrows(r.systems, c.systemId, c.clientId);
    case Exit(c) => ExitEffect(keying, r, c);
    case JoinGroup(key, id) => AppendGrows(r.groups, key, id);
    case LeaveGroup(c, g) => LeaveEffect(keying, r, c, g);
    case _ =>
  }

  // ---- DelClient as a run of sections ----

  /** The sections of `DelClient` that are about lists. */
  function Leavings(c: Conn, names: seq<string>): seq<Op> {
    seq(|names|, i requires 0 <= i < |names| => LeaveGroup(c, names[i])) + [Exit(c)]
  }

  function ApplyAll(keying: Keying, r: Indexes, ops: seq<Op>): Indexes
    decreases |ops|
  {
    if ops == [] then r else ApplyAll(keying, Apply(keying, r, ops[0]), ops[1..])
  }

  /** The first `n` of the sections run, the last one of them being the last one there is, or
      the first one to go out of range. */
  ghost predicate RunsTo(keying: Keying, r: Indexes, ops: seq<Op>, n: nat) {
    && 0 < n <= |ops|
    && (forall i :: 0 <= i < n - 1 ==> !Panics(ApplyAll(keying, r, ops[..i]), ops[i]))
    && (n == |ops| || Panics(ApplyAll(keying, r, ops[..n - 1]), ops[n - 1]))
  }

  lemma LeavingsFirst(c: Conn, names: seq<string>)
    requires names != []
    ensures Leavings(c, names) == [LeaveGroup(c, names[0])] + Leavings(c, names[1..])
  {
  }

  lemma ApplyFirst(keying: Keying, r: Indexes, op: Op, ops: seq<Op>)
    ensures ApplyAll(keying, r, [op] + ops) == ApplyAll(keying, Apply(keying, r, op), ops)
  {
    assert ([op] + ops)[1..] == ops;
  }

  /** One more section in front, that does not go out of range. */
  lemma RunsOneMore(keying: Keying, r: Indexes, op: Op, ops: seq<Op>, n: nat)
    requires !Panics(r, op) && RunsTo(keying, Apply(keying, r, op), ops, n)
    ensures RunsTo(keying, r, [op] + ops, n + 1)
    ensures ApplyAll(keying, r, ([op] + ops)[..n + 1]) == ApplyAll(keying, Apply(keying, r, op), ops[..n])
  {
    var all := [op] + ops;
    forall i | 0 < i <= n + 1 ensures ApplyAll(keying, r, all[..i]) ==
                                      ApplyAll(keying, Apply(keying, r, op), ops[..i - 1])
    {
      assert all[..i] == [op] + ops[..i - 1];
      ApplyFirst(keying, r, op, ops[..i - 1]);
    }
    forall i | 0 <= i < n ensures !Panics(ApplyAll(keying, r, all[..i]), all[i]) {
      if i == 0 {
        assert all[..0] == [];
      } else {
        assert all[i] == ops[i - 1];
      }
    }
  }

  lemma {:induction false} LeavesUntil(keying: Keying, r: Indexes, c: Conn, names: seq<string>) returns (n: nat)
    ensures RunsTo(keying, r, Leavings(c, names), n)
    ensures LeaveLists(r, c, names) == ApplyAll(keying, r, Leavings(c, names)[..n])
    decreases |names|
  {
    if names == [] {
      n := 1;
      RunsOne(keying, r, Exit(c), []);
      assert Leavings(c, names) == [Exit(c)] + [];
    } else {
      var op := LeaveGroup(c, names[0]);
      LeavingsFirst(c, names);
      if Panics(r, op) {
        n := 1;
        RunsOne(keying, r, op, Leavings(c, names[1..]));
      } else {
        n := LeavesUntil(keying, Apply(keying, r, op), c, names[1..]);
        RunsOneMore(keying, r, op, Leavings(c, names[1..]), n);
        n := n + 1;
      }
    }
  }

  /** The first section is the last one run. */
  lemma RunsOne(keying: Keying, r: Indexes, op: Op, ops: seq<Op>)
    ensures ApplyAll(keying, r, ([op] + ops)[..1]) == Apply(keying, r, op)
    ensures ops == [] || Panics(r, op) ==> RunsTo(keying, r, [op] + ops, 1)
  {
    assert ([op] + ops)[..1] == [op] + [] && ([op] + ops)[..0] == [];
    ApplyFirst(keying, r, op, []);
  }

  /** `DelClient` leaves the lists as the sections it runs leave them: the groups one by one
      and then the system, up to the first one that goes out of range. */
  lemma LeavesBySections(keying: Keying, r: Indexes, c: Conn, names: seq<string>) returns (n: nat)
    ensures |Leavings(c, names)| == |names| + 1
    ensures forall i :: 0 <= i <= |names| ==>
              Leavings(c, names)[i] == if i < |names| then LeaveGroup(c, names[i]) else Exit(c)
    ensures RunsTo(keying, r, Leavings(c, names), n)
    ensures LeaveLists(r, c, names) == ApplyAll(keying, r, Leavings(c, names)[..n])
  {
    n := LeavesUntil(keying, r, c, names);
  }

  lemma {:induction false} GroupsLeft(r: Indexes, c: Conn, names: seq<string>)
    ensures var r' := LeaveGroups(r, c, names).0;
            r'.systems == r.systems && |r'.groups| == |r.groups|
    decreases |names|
  {
    if names != [] {
      var r' := DelFromGroup(r, GroupKey(c.systemId, names[0]), c.clientId).0;
      assert r'.groups.Keys == r.groups.Keys;
      assert |r'.groups| == |r'.groups.Keys| && |r.groups| == |r.groups.Keys|;
      GroupsLeft(r', c, names[1..]);
    }
  }

  /** Unless leaving a group goes out of range, the list of the system then goes through the
      deletion loop, with the number of groups as its bound; if it does, no system's list
      changes. */
  lemma LeavesSystem(r: Indexes, c: Conn, names: seq<string>)
    ensures var r' := LeaveLists(r, c, names);
            if LeaveGroups(r, c, names).1 then r'.systems == r.systems
            else Shrinks(r.systems, r'.systems, c.systemId, c.clientId, |r.groups|)
  {
    GroupsLeft(r, c, names);
    ListEffects(ByClientId, LeaveGroups(r, c, names).0, Exit(c));
  }

  lemma {:induction false} NothingToLeave(r: Indexes, c: Conn, names: seq<string>)
    requires r.groups == map[]
    ensures LeaveGroups(r, c, names) == (r, false)
    decreases |names|
  {
    if names != [] {
      NothingToLeave(r, c, names[1..]);
    }
  }

  /** In production, where there are no groups and a system's list is copies of its name, a
      disconnect takes one of them away. */
  lemma ProductionLeaves(r: Indexes, c: Conn, names: seq<string>, n: nat)
    requires r.groups == map[] && c.clientId == c.systemId && Get(r.systems, c.systemId) == Copies(n, c.systemId)
    ensures Get(LeaveLists(r, c, names).systems, c.systemId) == Copies(if n == 0 then 0 else n - 1, c.systemId)
  {
    NothingToLeave(r, c, names);
    LeavesSystem(r, c, names);
    DeleteFromCopies(n, c.systemId, |r.groups|);
  }

  // ---- how often an id stands in the account index ----

  /** The number of `AddClient` calls for `id` since it last left the registry. */
  function AddsSinceRemoval(keying: Keying, ops: seq<Op>, id: string): nat {
    if ops == [] then 0
    else
      var before, op := ops[..|ops| - 1], ops[|ops| - 1];
      if op.Add? && op.c.clientId == id then AddsSinceRemoval(keying, before, id) + 1
      else if id !in Replay(keying, ops).clients then 0
      else AddsSinceRemoval(keying, before, id)
  }

  lemma {:induction false} CountHasSeparator(id: string, i: nat)
    requires i < |id| && id[i] == '_'
    ensures Count(id, '_') > 0
  {
    CountPositive(id, '_');
  }

  lemma AppIsIndexed(id: string)
    requires IsApp(id)
    ensures Indexed(id)
  {
    var i :| 0 <= i <= |id| - 4 && Occurs(id, "APP_", i);
    assert id[i + 3] == id[i..i + 4][3] == '_';
    CountHasSeparator(id, i + 3);
    SplitLength(id, '_');
  }

  /** After every history: an indexed id that is not "APP_" stands once in its account list
      while registered, an "APP_" id as often as it was added since it last left, and an id
      that is not registered does not stand there at all. */
  lemma {:induction false} Multiplicity(keying: Keying, ops: seq<Op>, id: string)
    requires Indexed(id)
    ensures var r := Replay(keying, ops);
            Entries(r, AccountKey(id), id) ==
            if id !in r.clients then 0 else if IsApp(id) then AddsSinceRemoval(keying, ops, id) else 1
    ensures id !in Replay(keying, ops).clients ==> AddsSinceRemoval(keying, ops, id) == 0
  {
    if ops != [] {
      var before, op := ops[..|ops| - 1], ops[|ops| - 1];
      Multiplicity(keying, before, id);
      MultiplicityStep(keying, Replay(keying, before), op, id);
    }
  }

  lemma MultiplicityAdd(r: Indexes, c: Conn, id: string)
    requires Indexed(id)
    ensures Entries(AddClient(r, c), AccountKey(id), id) ==
            Entries(r, AccountKey(id), id) +
            if c.clientId == id && (IsApp(id) || id !in r.clients) then 1 else 0
  {
    IndexCounts(r.accounts, c.clientId, AccountKey(id), id);
  }

  lemma MultiplicityDel(r: Indexes, c: Conn, victim: string, id: string)
    requires Indexed(id)
    ensures var r' := DelSession(r, c.clientId, c.addr, victim);
            Entries(r', AccountKey(id), id) ==
            if id in r.clients && id !in r'.clients then 0 else Entries(r, AccountKey(id), id)
  {
    if HasSession(r, c.clientId, c.addr) && r.clients[c.clientId] - {victim} == map[] {
      UnindexCounts(r.accounts, c.clientId, AccountKey(id), id);
    }
  }

  lemma MultiplicityStep(keying: Keying, r: Indexes, op: Op, id: string)
    requires Indexed(id)
    ensures var r' := Apply(keying, r, op);
            Entries(r', AccountKey(id), id) ==
            if op.Add? && op.c.clientId == id && (IsApp(id) || id !in r.clients) then
              Entries(r, AccountKey(id), id) + 1
            else if id in r.clients && id !in r'.clients then 0
            else Entries(r, AccountKey(id), id)
  {
    match op
    case Add(c) => MultiplicityAdd(r, c, id);
    case Del(c) => MultiplicityDel(r, c, Victim(keying, c.clientId, c.addr), id);
    case _ =>
  }

  /** Neither adds nor deletes a session of `id`. */
  predicate Spares(ops: seq<Op>, id: string) {
    forall i :: 0 <= i < |ops| && (ops[i].Add? || ops[i].Del?) ==> ops[i].c.clientId != id
  }

  lemma SpareStep(keying: Keying, r: Indexes, op: Op, id: string)
    requires Indexed(id) && (op.Add? || op.Del? ==> op.c.clientId != id)
    ensures var r' := Apply(keying, r, op);
            && (id in r'.clients <==> id in r.clients)
            && Entries(r', AccountKey(id), id) == Entries(r, AccountKey(id), id)
  {
    MultiplicityStep(keying, r, op, id);
  }

  lemma {:induction false} SpareAll(keying: Keying, ops: seq<Op>, more: seq<Op>, id: string)
    requires Indexed(id) && Spares(more, id)
    ensures var r, r' := Replay(keying, ops), Replay(keying, ops + more);
            && (id in r'.clients <==> id in r.clients)
            && Entries(r', AccountKey(id), id) == Entries(r, AccountKey(id), id)
    decreases |more|
  {
    if more == [] {
      assert ops + more == ops;
    } else {
      var less, last := more[..|more| - 1], more[|more| - 1];
      assert ops + more == (ops + less) + [last];
      SpareAll(keying, ops, less, id);
      ReplayAppend(keying, ops + less, last);
      SpareStep(keying, Replay(keying, ops + less), last, id);
    }
  }

  /** One more `AddClient`. */
  lemma AddOnce(keying: Keying, ops: seq<Op>, c: Conn)
    requires Indexed(c.clientId)
    ensures var r, r', id := Replay(keying, ops), Replay(keying, ops + [Add(c)]), c.clientId;
            && id in r'.clients
            && Entries(r', AccountKey(id), id) ==
               Entries(r, AccountKey(id), id) + if IsApp(id) || id !in r.clients then 1 else 0
  {
    ReplayAppend(keying, ops, Add(c));
    MultiplicityAdd(Replay(keying, ops), c, c.clientId);
  }

  /** A connection is added by its handler and again by the Connect event. Whatever other
      sections come in between, `Enter(c)` among them, as long as they neither add nor delete
      its id: a fully handled "APP_" connection raises the account count by two, any other
      one by one if its id was not registered before, and by nothing if it was. */
  lemma HandledConnection(keying: Keying, ops: seq<Op>, between: seq<Op>, c: Conn)
    requires Indexed(c.clientId) && Spares(between, c.clientId)
    ensures var id := c.clientId;
            var r, r' := Replay(keying, ops), Replay(keying, ops + [Add(c)] + between + [Add(c)]);
            var n, n' := Entries(r, AccountKey(id), id), Entries(r', AccountKey(id), id);
            n' == if IsApp(id) then n + 2 else if id in r.clients then n else n + 1
  {
    AddOnce(keying, ops, c);
    SpareAll(keying, ops + [Add(c)], between, c.clientId);
    AddOnce(keying, ops + [Add(c)] + between, c);
  }

  // ---- as written, nothing is ever forgotten ----

  /** No connection's address string equals its id. */
  ghost predicate NoSelfAddress(ops: seq<Op>) {
    forall i :: 0 <= i < |ops| && ops[i].Add? ==> ops[i].c.addr != ops[i].c.clientId
  }

  ghost predicate NoSelfSession(r: Indexes) {
    forall id :: !HasSession(r, id, id)
  }

  lemma NoSelfSessionStep(r: Indexes, op: Op)
    requires NoSelfSession(r)
    requires op.Add? ==> op.c.addr != op.c.clientId
    ensures NoSelfSession(Apply(ByClientId, r, op))
  {
    forall id ensures !HasSession(Apply(ByClientId, r, op), id, id) {
      assert !HasSession(r, id, id);
    }
  }

  lemma {:induction false} NoSelfSessionEver(ops: seq<Op>)
    requires NoSelfAddress(ops)
    ensures NoSelfSession(Replay(ByClientId, ops))
  {
    if ops != [] {
      NoSelfSessionEver(ops[..|ops| - 1]);
      NoSelfSessionStep(Replay(ByClientId, ops[..|ops| - 1]), ops[|ops| - 1]);
    }
  }

  /** Every id and, unless it is "APP_", every address of it stays registered. */
  ghost predicate Grown(r: Indexes, r': Indexes) {
    && r.clients.Keys <= r'.clients.Keys
    && (forall id :: id in r.clients && !IsApp(id) ==> r.clients[id].Keys <= r'.clients[id].Keys)
  }

  lemma GrownAdd(r: Indexes, c: Conn)
    ensures Grown(r, AddClient(r, c))
  {
  }

  lemma GrownStep(r: Indexes, op: Op)
    requires Consistent(r) && NoSelfSession(r)
    ensures Grown(r, Apply(ByClientId, r, op))
  {
    match op
    case Add(c) => GrownAdd(r, c);
    case Del(c) =>
      assert !HasSession(r, c.clientId, c.clientId);
      DeletionAsWrittenIff(r, c);
    case _ =>
  }

  lemma GrownTransitive(r: Indexes, r': Indexes, r'': Indexes)
    requires Grown(r, r') && Grown(r', r'')
    ensures Grown(r, r'')
  {
  }

  lemma {:induction false} WrittenOnlyGrows(ops: seq<Op>, more: seq<Op>)
    requires NoSelfAddress(ops + more)
    ensures Grown(Replay(ByClientId, ops), Replay(ByClientId, ops + more))
    decreases |more|
  {
    if more == [] {
      assert ops + more == ops;
    } else {
      var less, op := more[..|more| - 1], more[|more| - 1];
      assert (ops + more)[..|ops + more| - 1] == ops + less;
      assert forall i :: 0 <= i < |ops + less| ==> (ops + less)[i] == (ops + more)[i];
      WrittenOnlyGrows(ops, less);
      NoSelfSessionEver(ops + less);
      ReplayConsistent(ByClientId, ops + less);
      var r, r' := Replay(ByClientId, ops), Replay(ByClientId, ops + less);
      GrownStep(r', op);
      GrownTransitive(r, r', Apply(ByClientId, r', op));
    }
  }

  /** As long as no connection's address equals its id, whatever disconnects are processed:
      no id and no session of an id that is not "APP_" ever leaves, and `Count()` never goes
      down. */
  lemma WrittenNeverForgets(ops: seq<Op>, more: seq<Op>)
    requires NoSelfAddress(ops + more)
    ensures var r, r' := Replay(ByClientId, ops), Replay(ByClientId, ops + more);
            Grown(r, r') && |r.clients| <= |r'.clients|
  {
    WrittenOnlyGrows(ops, more);
    SubsetSize(Replay(ByClientId, ops).clients.Keys, Replay(ByClientId, ops + more).clients.Keys);
  }

  lemma {:induction false} SubsetSize<T>(a: set<T>, b: set<T>)
    requires a <= b
    ensures |a| <= |b|
    decreases a
  {
    if a != {} {
      var x :| x in a;
      SubsetSize(a - {x}, b - {x});
    }
  }

  // ---- SystemClients in production ----

  /** The number of copies of `s` in `SystemClients[s]`. */
  function Level(ops: seq<Op>, s: string): nat {
    if ops == [] then 0
    else
      var n, op := Level(ops[..|ops| - 1], s), ops[|ops| - 1];
      if op.Enter? && op.c.systemId == s then n + 1
      else if op.Exit? && op.c.systemId == s then if n == 0 then 0 else n - 1
      else n
  }

  lemma {:induction false} GroupKeysGrow(keying: Keying, ops: seq<Op>)
    requires ops != []
    ensures |Replay(keying, ops[..|ops| - 1]).groups| <= |Replay(keying, ops).groups|
  {
    var r, r' := Replay(keying, ops[..|ops| - 1]), Replay(keying, ops);
    assert r.groups.Keys <= r'.groups.Keys;
    SubsetSize(r.groups.Keys, r'.groups.Keys);
  }

  /** With ids equal to system ids, as the handler makes them, and at most one group: the
      list of system `s` is always that many copies of `s`. */
  lemma {:induction false} SystemListIsCopies(keying: Keying, ops: seq<Op>, s: string)
    requires forall i :: 0 <= i < |ops| && (ops[i].Enter? || ops[i].Exit?) ==> ops[i].c.clientId == ops[i].c.systemId
    requires |Replay(keying, ops).groups| <= 1
    ensures Get(Replay(keying, ops).systems, s) == Copies(Level(ops, s), s)
  {
    if ops != [] {
      var before, op := ops[..|ops| - 1], ops[|ops| - 1];
      GroupKeysGrow(keying, ops);
      SystemListIsCopies(keying, before, s);
      CopiesStep(keying, Replay(keying, before), op, s, Level(before, s));
    }
  }

  lemma CopiesStep(keying: Keying, r: Indexes, op: Op, s: string, n: nat)
    requires op.Enter? || op.Exit? ==> op.c.clientId == op.c.systemId
    requires |r.groups| <= 1 && Get(r.systems, s) == Copies(n, s)
    ensures Get(Apply(keying, r, op).systems, s) ==
            if op.Enter? && op.c.systemId == s then Copies(n + 1, s)
            else if op.Exit? && op.c.systemId == s then Copies(if n == 0 then 0 else n - 1, s)
            else Copies(n, s)
  {
    ListEffects(keying, r, op);
    if op.Enter? && op.c.systemId == s {
      assert Copies(n, s) + [s] == Copies(n + 1, s);
    } else if op.Exit? && op.c.systemId == s {
      DeleteFromCopies(n, s, |r.groups|);
    } else {
      OtherLists(keying, r, op, s);
    }
  }

  lemma OtherLists(keying: Keying, r: Indexes, op: Op, s: string)
    requires op.Enter? || op.Exit? ==> op.c.systemId != s
    ensures Get(Apply(keying, r, op).systems, s) == Get(r.systems, s)
  {
    ListEffects(keying, r, op);
  }

  lemma {:induction false} NoGroupsWithoutJoins(keying: Keying, ops: seq<Op>)
    requires forall i :: 0 <= i < |ops| ==> !ops[i].JoinGroup?
    ensures Replay(keying, ops).groups == map[]
  {
    if ops != [] {
      var before, op := ops[..|ops| - 1], ops[|ops| - 1];
      NoGroupsWithoutJoins(keying, before);
      NoGroupsStep(keying, Replay(keying, before), op);
    }
  }

  lemma NoGroupsStep(keying: Keying, r: Indexes, op: Op)
    requires r.groups == map[] && !op.JoinGroup?
    ensures Apply(keying, r, op).groups == map[]
  {
  }

  // ---- PlatformAccountCount ----

  function ThreePartId(platform: string, middle: string, account: string): string {
    platform + "_" + middle + "_" + account
  }

  /** The ids of the form platform_account or platform_x_account. */
  ghost predicate OfAccount(id: string, platform: string, account: string) {
    || id == platform + "_" + account
    || exists x :: '_' !in x && id == ThreePartId(platform, x, account)
  }

  lemma TwoParts(p: string, a: string)
    requires '_' !in p && '_' !in a
    ensures Split(p + "_" + a, '_') == [p, a]
  {
    SplitHead(p, a, '_');
    SplitPlain(a, '_');
  }

  lemma ThreeParts(p: string, x: string, a: string)
    requires '_' !in p && '_' !in x && '_' !in a
    ensures Split(ThreePartId(p, x, a), '_') == [p, x, a]
  {
    assert ThreePartId(p, x, a) == p + ['_'] + (x + "_" + a);
    SplitHead(p, x + "_" + a, '_');
    TwoParts(x, a);
  }

  lemma AccountKeyIff(id: string, p: string, a: string)
    requires '_' !in p && '_' !in a && !(p == "" && a == "")
    ensures Indexed(id) && AccountKey(id) == p + "_" + a <==> OfAccount(id, p, a)
  {
    var parts := Split(id, '_');
    JoinSplit(id, '_');
    TwoParts(p, a);
    if OfAccount(id, p, a) && id != p + "_" + a {
      var x :| '_' !in x && id == ThreePartId(p, x, a);
      ThreeParts(p, x, a);
    }
    if Indexed(id) && AccountKey(id) == p + "_" + a {
      var account := if |parts| == 2 then parts[1] else if |parts| == 3 then parts[2] else "";
      var platform := if |parts| <= 3 then parts[0] else "";
      assert AccountKey(id) == platform + "_" + account;
      TwoParts(platform, account);
      assert [platform, account] == [p, a];
      if |parts| == 2 {
        assert Join(parts, '_') == parts[0] + ['_'] + Join(parts[1..], '_');
      } else {
        assert Join(parts, '_') == parts[0] + ['_'] + Join(parts[1..], '_');
        assert Join(parts[1..], '_') == parts[1] + ['_'] + Join(parts[2..], '_');
        assert id == ThreePartId(p, parts[1], a);
      }
    }
  }

  /** The ids filed under a platform and an account: none when either has an underscore; and
      with the ids of that form, when both are empty, those of four parts or more. */
  ghost predicate Filed(id: string, platform: string, account: string) {
    && '_' !in platform && '_' !in account
    && (OfAccount(id, platform, account) || (platform == account == "" && Count(id, '_') >= 3))
  }

  lemma PlainParts(id: string)
    ensures Count(AccountKey(id), '_') == 1
  {
    var parts := Split(id, '_');
    var p := if |parts| == 2 || |parts| == 3 then parts[0] else "";
    var a := if |parts| == 3 then parts[2] else if |parts| == 2 then parts[1] else "";
    assert AccountKey(id) == p + "_" + a;
    TwoParts(p, a);
    SplitLength(AccountKey(id), '_');
  }

  lemma NobodyIndexed(id: string)
    ensures Indexed(id) && AccountKey(id) == "_" <==> OfAccount(id, "", "") || Count(id, '_') >= 3
  {
    var parts := Split(id, '_');
    JoinSplit(id, '_');
    SplitLength(id, '_');
    assert "" + "_" + "" == "_";
    if OfAccount(id, "", "") && id != "_" {
      var x :| '_' !in x && id == ThreePartId("", x, "");
      ThreeParts("", x, "");
    }
    if id == "_" {
      TwoParts("", "");
    }
    if |parts| == 2 && AccountKey(id) == "_" {
      BothEmpty(parts[0], parts[1]);
      assert Join(parts, '_') == parts[0] + ['_'] + Join(parts[1..], '_');
    } else if |parts| == 3 && AccountKey(id) == "_" {
      BothEmpty(parts[0], parts[2]);
      assert Join(parts, '_') == parts[0] + ['_'] + Join(parts[1..], '_');
      assert Join(parts[1..], '_') == parts[1] + ['_'] + Join(parts[2..], '_');
      assert id == ThreePartId("", parts[1], "");
    }
  }

  lemma BothEmpty(p: string, a: string)
    requires p + "_" + a == "_"
    ensures p == "" && a == ""
  {
    assert |p + "_" + a| == |p| + 1 + |a|;
  }

  /** For any platform and account: the ids filed under them are those indexed under their key. */
  lemma FiledIff(id: string, p: string, a: string)
    ensures Indexed(id) && AccountKey(id) == p + "_" + a <==> Filed(id, p, a)
  {
    if '_' in p || '_' in a {
      PlainParts(id);
      CountPositive(p, '_');
      CountPositive(a, '_');
      CountAppend(p + "_", a, '_');
      CountAppend(p, "_", '_');
    } else if p == a == "" {
      NobodyIndexed(id);
      assert p + "_" + a == "_";
    } else {
      AccountKeyIff(id, p, a);
    }
  }

  /** For any platform and account: the answer holds exactly the registered ids filed under
      them, its count is the length of the list, and each id that is not "APP_" stands in it
      once. */
  lemma AccountQuery(keying: Keying, ops: seq<Op>, platform: string, account: string)
    ensures var r := Replay(keying, ops);
            var (ids, count) := PlatformAccountCount(r, platform, account);
            && count == |ids|
            && (forall id :: id in ids <==> id in r.clients && Filed(id, platform, account))
            && (forall id :: id in ids ==>
                  multiset(ids)[id] == if IsApp(id) then AddsSinceRemoval(keying, ops, id) else 1)
  {
    var r := Replay(keying, ops);
    var ids := PlatformAccountCount(r, platform, account).0;
    ReplayConsistent(keying, ops);
    forall id ensures id in ids <==> id in r.clients && Filed(id, platform, account) {
      FiledIff(id, platform, account);
    }
    forall id | id in ids
      ensures multiset(ids)[id] == if IsApp(id) then AddsSinceRemoval(keying, ops, id) else 1
    {
      FiledIff(id, platform, account);
      Multiplicity(keying, ops, id);
      CountIsMultiplicity(ids, id);
    }
  }

  // ---- in which order ids stand in an account list ----

  /** The id is registered after section `i` and ever since. */
  ghost predicate Remains(keying: Keying, ops: seq<Op>, i: nat, id: string) {
    forall j :: i < j <= |ops| ==> id in Replay(keying, ops[..j]).clients
  }

  /** The `AddClient` at index `i` put its id into the list of `key`, and it is there since. */
  ghost predicate Placed(keying: Keying, ops: seq<Op>, i: nat, key: string) {
    && i < |ops| && ops[i].Add? && Indexed(ops[i].c.clientId) && AccountKey(ops[i].c.clientId) == key
    && (IsApp(ops[i].c.clientId) || ops[i].c.clientId !in Replay(keying, ops[..i]).clients)
    && Remains(keying, ops, i, ops[i].c.clientId)
  }

  /** The ids of those with an index below `n`, in the order in which they were put there. */
  ghost function PlacedIds(keying: Keying, ops: seq<Op>, key: string, n: nat): seq<string>
    requires n <= |ops|
  {
    if n == 0 then []
    else
      PlacedIds(keying, ops, key, n - 1) + if Placed(keying, ops, n - 1, key) then [ops[n - 1].c.clientId] else []
  }

  lemma RemainsBefore(keying: Keying, before: seq<Op>, op: Op, i: nat, id: string)
    requires i < |before|
    ensures Remains(keying, before + [op], i, id) <==>
              Remains(keying, before, i, id) && id in Replay(keying, before + [op]).clients
  {
    var ops := before + [op];
    assert ops[..|ops|] == ops;
    forall j | i < j <= |before|
      ensures id in Replay(keying, ops[..j]).clients <==> id in Replay(keying, before[..j]).clients
    {
      assert ops[..j] == before[..j];
    }
    if Remains(keying, ops, i, id) {
      assert Remains(keying, before, i, id);
    } else if Remains(keying, before, i, id) {
      var j :| i < j <= |ops| && id !in Replay(keying, ops[..j]).clients;
      assert j == |ops|;
    }
  }

  lemma PlacedBefore(keying: Keying, before: seq<Op>, op: Op, i: nat, key: string)
    requires i < |before|
    ensures Placed(keying, before + [op], i, key) <==>
              Placed(keying, before, i, key) && before[i].c.clientId in Replay(keying, before + [op]).clients
  {
    var ops := before + [op];
    assert ops[i] == before[i] && ops[..i] == before[..i];
    if ops[i].Add? {
      RemainsBefore(keying, before, op, i, ops[i].c.clientId);
    }
  }

  /** When those of one id are not placed any more, and nothing else changes. */
  lemma {:induction false} PlacedStay(keying: Keying, before: seq<Op>, ops: seq<Op>, key: string, n: nat, gone: string)
    requires n <= |before| && before <= ops
    requires forall i :: 0 <= i < n ==>
               (Placed(keying, ops, i, key) <==> Placed(keying, before, i, key) && before[i].c.clientId != gone)
    ensures PlacedIds(keying, ops, key, n) == Without(PlacedIds(keying, before, key, n), gone)
  {
    if n > 0 {
      PlacedStay(keying, before, ops, key, n - 1, gone);
      var last := if Placed(keying, before, n - 1, key) then [before[n - 1].c.clientId] else [];
      WithoutAppend(PlacedIds(keying, before, key, n - 1), last, gone);
      WithoutOne(last, gone);
    }
  }

  lemma WithoutOne(s: seq<string>, x: string)
    requires |s| <= 1
    ensures Without(s, x) == if s == [x] then [] else s
  {
  }

  lemma {:induction false} PlacedSame(keying: Keying, before: seq<Op>, ops: seq<Op>, key: string, n: nat)
    requires n <= |before| && before <= ops
    requires forall i :: 0 <= i < n ==> (Placed(keying, ops, i, key) <==> Placed(keying, before, i, key))
    ensures PlacedIds(keying, ops, key, n) == PlacedIds(keying, before, key, n)
  {
    if n > 0 {
      PlacedSame(keying, before, ops, key, n - 1);
    }
  }

  /** Of the ids placed before, one section leaves all but the one that it removes. */
  lemma PlacedStep(keying: Keying, before: seq<Op>, op: Op, key: string)
    ensures var r, r', ids := Replay(keying, before), Replay(keying, before + [op]),
                              PlacedIds(keying, before, key, |before|);
            PlacedIds(keying, before + [op], key, |before|) ==
            if op.Del? && Dropped(r, r', op.c.clientId) then Without(ids, op.c.clientId) else ids
  {
    var r, r' := Replay(keying, before), Replay(keying, before + [op]);
    IdsStay(keying, r, op);
    ReplayAppend(keying, before, op);
    forall i | 0 <= i < |before|
      ensures Placed(keying, before + [op], i, key) <==>
                Placed(keying, before, i, key) && before[i].c.clientId in r'.clients
      ensures Placed(keying, before, i, key) ==> before[i].c.clientId in r.clients
    {
      PlacedBefore(keying, before, op, i, key);
      assert before[..|before|] == before;
    }
    if op.Del? && Dropped(r, r', op.c.clientId) {
      PlacedStay(keying, before, before + [op], key, |before|, op.c.clientId);
    } else {
      PlacedSame(keying, before, before + [op], key, |before|);
    }
  }

  /** What one section does to an account list. */
  lemma AccountEffect(keying: Keying, r: Indexes, op: Op, key: string)
    requires Consistent(r)
    ensures var r' := Apply(keying, r, op);
            Get(r'.accounts, key) ==
            if op.Add? && Indexed(op.c.clientId) && AccountKey(op.c.clientId) == key
               && (IsApp(op.c.clientId) || op.c.clientId !in r.clients) then
              Get(r.accounts, key) + [op.c.clientId]
            else if op.Del? && Dropped(r, r', op.c.clientId) then Without(Get(r.accounts, key), op.c.clientId)
            else Get(r.accounts, key)
  {
    if op.Del? && Dropped(r, Apply(keying, r, op), op.c.clientId) {
      var id := op.c.clientId;
      if !Indexed(id) || AccountKey(id) != key {
        WithoutAbsent(Get(r.accounts, key), id);
      }
    }
  }

  /** After every history: an account list holds the ids in the order of the `AddClient` calls
      that put them there, and since which they have not left the registry. */
  lemma {:induction false} AccountOrder(keying: Keying, ops: seq<Op>, key: string)
    ensures Get(Replay(keying, ops).accounts, key) == PlacedIds(keying, ops, key, |ops|)
  {
    if ops != [] {
      var before, op := ops[..|ops| - 1], ops[|ops| - 1];
      assert ops == before + [op];
      AccountOrder(keying, before, key);
      AccountStep(keying, before, op, key);
      PlacedStep(keying, before, op, key);
      PlacedLast(keying, before, op, key);
    }
  }

  lemma AccountStep(keying: Keying, before: seq<Op>, op: Op, key: string)
    ensures var r, r' := Replay(keying, before), Replay(keying, before + [op]);
            Get(r'.accounts, key) ==
            if op.Add? && Indexed(op.c.clientId) && AccountKey(op.c.clientId) == key
               && (IsApp(op.c.clientId) || op.c.clientId !in r.clients) then
              Get(r.accounts, key) + [op.c.clientId]
            else if op.Del? && Dropped(r, r', op.c.clientId) then Without(Get(r.accounts, key), op.c.clientId)
            else Get(r.accounts, key)
  {
    ReplayAppend(keying, before, op);
    ReplayConsistent(keying, before);
    AccountEffect(keying, Replay(keying, before), op, key);
  }

  lemma PlacedLast(keying: Keying, before: seq<Op>, op: Op, key: string)
    ensures Placed(keying, before + [op], |before|, key) <==>
              && op.Add? && Indexed(op.c.clientId) && AccountKey(op.c.clientId) == key
              && (IsApp(op.c.clientId) || op.c.clientId !in Replay(keying, before).clients)
  {
    var ops := before + [op];
    ReplayAppend(keying, before, op);
    IdsStay(keying, Replay(keying, before), op);
    assert ops[..|ops|] == ops && ops[..|before|] == before;
  }
}
