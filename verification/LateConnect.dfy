/** A run of the server in which a connection that is gone stays registered although the
    deletion is keyed by address: the handler starts the reader before it sends the Connect
    event (servers/connect.go:81-89), so the disconnect can be handled first. */
module LateConnect {
  import opened Registry
  import opened History
  import opened Server
  import opened Safety
  import opened Delivery
  import opened Events
  import opened Liveness
  import opened Reachable
  import opened Runs

  ghost predicate Reaches(s: State, t: State) {
    exists labels :: Possible(s, labels) && After(s, labels) == t
  }

  lemma Then(s: State, t: State, l: Label)
    requires Reaches(s, t) && Enabled(t, l)
    ensures Reaches(s, Next(t, l))
  {
    var labels :| Possible(s, labels) && After(s, labels) == t;
    OneMore(s, labels, l);
  }

  /** Where the run is: what the threads have left, nobody inside a section, no groups. */
  ghost predicate Stands(s: State, t: State, ops: seq<seq<Instr>>, history: seq<Op>) {
    && Reaches(s, t) && t.keying == ByAddr && t.history == history && t.reg.groups == map[]
    && |t.threads| == |ops|
    && (forall i :: 0 <= i < |ops| ==> t.threads[i] == Thread(ops[i], false))
  }

  ghost predicate SameChannels(t: State, t': State) {
    t'.connect == t.connect && t'.disconnect == t.disconnect && t'.messages == t.messages
  }

  /** A writing section: the lock, and the section itself. */
  lemma Section(s: State, t: State, ops: seq<seq<Instr>>, history: seq<Op>, i: nat) returns (t': State)
    requires Stands(s, t, ops, history) && i < |ops| && ops[i] != []
    requires ops[i][0].Change? && !ops[i][0].op.JoinGroup?
    ensures Stands(s, t', ops[i := ops[i][1..]], history + [ops[i][0].op])
    ensures SameChannels(t, t')
  {
    var op := ops[i][0].op;
    assert forall j :: 0 <= j < |t.threads| ==> Held(t.threads[j]).Free?;
    Then(s, t, Enters(i));
    var mid := Next(t, Enters(i));
    NoPanicWithoutGroups(mid.reg, op);
    Then(s, mid, Runs(i));
    t' := Next(mid, Runs(i));
  }

  /** A reading section without effect. */
  lemma Reading(s: State, t: State, ops: seq<seq<Instr>>, history: seq<Op>, i: nat) returns (t': State)
    requires Stands(s, t, ops, history) && i < |ops| && ops[i] != [] && ops[i][0].Size?
    ensures Stands(s, t', ops[i := ops[i][1..]], history)
    ensures SameChannels(t, t')
  {
    assert forall j :: 0 <= j < |t.threads| ==> Held(t.threads[j]).Free?;
    Then(s, t, Enters(i));
    var mid := Next(t, Enters(i));
    Then(s, mid, Runs(i));
    t' := Next(mid, Runs(i));
  }

  lemma Accepted(s: State, t: State, ops: seq<seq<Instr>>, history: seq<Op>, c: Conn) returns (t': State)
    requires Stands(s, t, ops, history)
    ensures Stands(s, t', ops + [Handler(c)], history) && SameChannels(t, t')
  {
    Then(s, t, Arrives(c));
    t' := Next(t, Arrives(c));
  }

  lemma ReaderStarts(s: State, t: State, ops: seq<seq<Instr>>, history: seq<Op>, i: nat, c: Conn) returns (t': State)
    requires Stands(s, t, ops, history) && i < |ops| && ops[i] != [] && ops[i][0] == Spawn(c)
    ensures Stands(s, t', ops[i := ops[i][1..]] + [[Read(c)]], history) && SameChannels(t, t')
  {
    Then(s, t, Runs(i));
    t' := Next(t, Runs(i));
  }

  lemma SocketCloses(s: State, t: State, ops: seq<seq<Instr>>, history: seq<Op>, i: nat, c: Conn) returns (t': State)
    requires Stands(s, t, ops, history) && i < |ops| && ops[i] == [Read(c)]
    ensures Stands(s, t', ops[i := [Push(c)]], history) && SameChannels(t, t')
  {
    Then(s, t, SocketEnds(i, true));
    t' := Next(t, SocketEnds(i, true));
    assert [Push(c)] + [] == [Push(c)];
  }

  lemma ReaderSends(s: State, t: State, ops: seq<seq<Instr>>, history: seq<Op>, i: nat, c: Conn) returns (t': State)
    requires Stands(s, t, ops, history) && i < |ops| && ops[i] == [Push(c)] && HasRoom(t.disconnect)
    ensures Stands(s, t', ops[i := []], history)
    ensures t'.disconnect.queue == t.disconnect.queue + [Gone(c, i)]
    ensures t'.connect == t.connect && t'.messages == t.messages
  {
    Then(s, t, Runs(i));
    t' := Next(t, Runs(i));
  }

  lemma LoopTakesGone(s: State, t: State, ops: seq<seq<Instr>>, history: seq<Op>, g: Gone) returns (t': State)
    requires Stands(s, t, ops, history) && |ops| > LOOP && ops[LOOP] == []
    requires t.disconnect.queue == [g] && g.c.clientId != ""
    ensures Stands(s, t', ops[LOOP := [Change(Del(g.c)), Change(Exit(g.c)), Size]], history)
    ensures t'.disconnect.queue == [] && t'.connect == t.connect && t'.messages == t.messages
  {
    assert DisconnectEvent(g.c, []) == [Change(Del(g.c)), Change(Exit(g.c)), Size];
    Then(s, t, TakesDisconnect([]));
    t' := Next(t, TakesDisconnect([]));
  }

  lemma HandlerAnswers(s: State, t: State, ops: seq<seq<Instr>>, history: seq<Op>, i: nat, c: Conn) returns (t': State)
    requires Stands(s, t, ops, history) && i < |ops| && ops[i] == [Answer(c)]
    ensures Stands(s, t', ops[i := [Announce(c)]], history) && SameChannels(t, t')
  {
    Then(s, t, Tries(i, true));
    t' := Next(t, Tries(i, true));
    assert [Announce(c)] + [] == [Announce(c)];
  }

  lemma HandlerAnnounces(s: State, t: State, ops: seq<seq<Instr>>, history: seq<Op>, i: nat, c: Conn)
    returns (t': State)
    requires Stands(s, t, ops, history) && i < |ops| && ops[i] == [Announce(c)] && HasRoom(t.connect)
    ensures Stands(s, t', ops[i := []], history)
    ensures t'.connect.queue == t.connect.queue + [c]
    ensures t'.disconnect == t.disconnect && t'.messages == t.messages
  {
    Then(s, t, Runs(i));
    t' := Next(t, Runs(i));
  }

  lemma LoopTakesConnect(s: State, t: State, ops: seq<seq<Instr>>, history: seq<Op>, c: Conn) returns (t': State)
    requires Stands(s, t, ops, history) && |ops| > LOOP && ops[LOOP] == [] && t.connect.queue == [c]
    ensures Stands(s, t', ops[LOOP := ConnectEvent(c)], history)
    ensures t'.connect.queue == [] && t'.disconnect == t.disconnect && t'.messages == t.messages
  {
    Then(s, t, TakesConnect);
    t' := Next(t, TakesConnect);
  }

  // ---- the run ----

  ghost predicate Drained(t: State) {
    t.connect.queue == [] && t.disconnect.queue == [] && t.messages.queue == []
  }

  /** The connection arrives, and its handler gets as far as starting the reader. */
  lemma Arrival(s: State, c: Conn) returns (t: State)
    requires Initial(s) && s.keying == ByAddr
    ensures Stands(s, t, [[], [], [], [Answer(c)], [Read(c)]], [Add(c), Enter(c)]) && SameChannels(s, t)
  {
    assert Possible(s, []) && After(s, []) == s;
    t := Accepted(s, s, [[], [], []], [], c);
    var h := Handler(c);
    assert [[], [], []] + [h] == [[], [], [], h];
    t := Section(s, t, [[], [], [], h], [], 3);
    assert h[1..] == [Change(Enter(c)), Spawn(c), Answer(c)];
    assert [[], [], [], h][3 := h[1..]] == [[], [], [], h[1..]] && [] + [Add(c)] == [Add(c)];
    t := Section(s, t, [[], [], [], h[1..]], [Add(c)], 3);
    t := ArrivalEnds(s, t, c);
  }

  lemma ArrivalEnds(s: State, t0: State, c: Conn) returns (t: State)
    requires Stands(s, t0, [[], [], [], Handler(c)[1..]][3 := Handler(c)[1..][1..]], [Add(c)] + [Enter(c)])
    ensures Stands(s, t, [[], [], [], [Answer(c)], [Read(c)]], [Add(c), Enter(c)]) && SameChannels(t0, t)
  {
    var ops := [[], [], [], [Spawn(c), Answer(c)]];
    assert [[], [], [], Handler(c)[1..]][3 := Handler(c)[1..][1..]] == ops;
    t := ReaderStarts(s, t0, ops, [Add(c)] + [Enter(c)], 3, c);
    assert ops[3 := ops[3][1..]] + [[Read(c)]] == [[], [], [], [Answer(c)], [Read(c)]];
    assert [Add(c)] + [Enter(c)] == [Add(c), Enter(c)];
  }

  /** Its socket is closed, and the reader says so. */
  lemma Closing(s: State, t0: State, c: Conn) returns (t: State)
    requires Stands(s, t0, [[], [], [], [Answer(c)], [Read(c)]], [Add(c), Enter(c)])
    requires Drained(t0) && HasRoom(t0.disconnect)
    ensures Stands(s, t, [[], [], [], [Answer(c)], []], [Add(c), Enter(c)])
    ensures t.disconnect.queue == [Gone(c, 4)] && t.connect == t0.connect && t.messages == t0.messages
  {
    var ops := [[], [], [], [Answer(c)], [Read(c)]];
    t := SocketCloses(s, t0, ops, [Add(c), Enter(c)], 4, c);
    t := ReaderSends(s, t, ops[4 := [Push(c)]], [Add(c), Enter(c)], 4, c);
    assert ops[4 := [Push(c)]][4 := []] == [[], [], [], [Answer(c)], []];
  }

  /** The event loop handles the disconnect. */
  lemma Disconnection(s: State, t0: State, c: Conn) returns (t: State)
    requires c.clientId != "" && Stands(s, t0, [[], [], [], [Answer(c)], []], [Add(c), Enter(c)])
    requires t0.disconnect.queue == [Gone(c, 4)]
    ensures Stands(s, t, [[], [], [], [Answer(c)], []], [Add(c), Enter(c), Del(c), Exit(c)])
    ensures t.disconnect.queue == [] && t.connect == t0.connect && t.messages == t0.messages
  {
    var idle, event := [[], [], [], [Answer(c)], []], [Change(Del(c)), Change(Exit(c)), Size];
    t := LoopTakesGone(s, t0, idle, [Add(c), Enter(c)], Gone(c, 4));
    var ops := [event, [], [], [Answer(c)], []];
    assert idle[0 := event] == ops;
    t := Section(s, t, ops, [Add(c), Enter(c)], 0);
    assert ops[0][1..] == [Change(Exit(c)), Size];
    assert ops[0 := ops[0][1..]] == [[Change(Exit(c)), Size], [], [], [Answer(c)], []];
    t := DisconnectionEnds(s, t, c);
  }

  lemma DisconnectionEnds(s: State, t0: State, c: Conn) returns (t: State)
    requires Stands(s, t0, [[Change(Exit(c)), Size], [], [], [Answer(c)], []], [Add(c), Enter(c)] + [Del(c)])
    ensures Stands(s, t, [[], [], [], [Answer(c)], []], [Add(c), Enter(c), Del(c), Exit(c)]) && SameChannels(t0, t)
  {
    var ops := [[Change(Exit(c)), Size], [], [], [Answer(c)], []];
    t := Section(s, t0, ops, [Add(c), Enter(c)] + [Del(c)], 0);
    assert [Add(c), Enter(c)] + [Del(c)] + [Exit(c)] == [Add(c), Enter(c), Del(c), Exit(c)];
    var count := [[Size], [], [], [Answer(c)], []];
    assert ops[0][1..] == [Size] && ops[0 := ops[0][1..]] == count;
    t := Reading(s, t, count, [Add(c), Enter(c), Del(c), Exit(c)], 0);
    assert count[0][1..] == [] && count[0 := count[0][1..]] == [[], [], [], [Answer(c)], []];
  }

  /** Only then the handler sends the Connect event. */
  lemma Announcing(s: State, t0: State, c: Conn) returns (t: State)
    requires Stands(s, t0, [[], [], [], [Answer(c)], []], [Add(c), Enter(c), Del(c), Exit(c)])
    requires Drained(t0) && HasRoom(t0.connect)
    ensures Stands(s, t, [[], [], [], [], []], [Add(c), Enter(c), Del(c), Exit(c)])
    ensures t.connect.queue == [c] && t.disconnect == t0.disconnect && t.messages == t0.messages
  {
    var ops, history := [[], [], [], [Answer(c)], []], [Add(c), Enter(c), Del(c), Exit(c)];
    t := HandlerAnswers(s, t0, ops, history, 3, c);
    t := HandlerAnnounces(s, t, ops[3 := [Announce(c)]], history, 3, c);
    assert ops[3 := [Announce(c)]][3 := []] == [[], [], [], [], []];
  }

  /** The event loop handles that too. */
  lemma Connection(s: State, t0: State, c: Conn) returns (t: State)
    requires Stands(s, t0, [[], [], [], [], []], [Add(c), Enter(c), Del(c), Exit(c)])
    requires t0.connect.queue == [c] && t0.disconnect.queue == [] && t0.messages.queue == []
    ensures Stands(s, t, [[], [], [], [], []], [Add(c), Enter(c), Del(c), Exit(c), Add(c)]) && Drained(t)
  {
    var idle: seq<seq<Instr>>, history := [[], [], [], [], []], [Add(c), Enter(c), Del(c), Exit(c)];
    t := LoopTakesConnect(s, t0, idle, history, c);
    t := Section(s, t, idle[0 := ConnectEvent(c)], history, 0);
    assert history + [Add(c)] == [Add(c), Enter(c), Del(c), Exit(c), Add(c)];
    assert ConnectEvent(c)[1..] == [Size] && [Size][1..] == [];
    t := Reading(s, t, idle[0 := ConnectEvent(c)][0 := [Size]], history + [Add(c)], 0);
    assert idle[0 := ConnectEvent(c)][0 := [Size]][0 := []] == idle;
  }

  lemma TheRun(s: State, c: Conn) returns (t: State)
    requires Initial(s) && s.keying == ByAddr && c.clientId != ""
    ensures Stands(s, t, [[], [], [], [], []], [Add(c), Enter(c), Del(c), Exit(c), Add(c)]) && Drained(t)
  {
    t := Arrival(s, c);
    t := Closing(s, t, c);
    t := Disconnection(s, t, c);
    t := Announcing(s, t, c);
    t := Connection(s, t, c);
  }

  /** For every connection with an id and any capacities there is a run, with the deletion
      keyed by address, that ends at rest with the connection registered although its one
      disconnect was handled. */
  lemma GoneButRegistered(s: State, c: Conn) returns (labels: seq<Label>)
    requires Initial(s) && s.keying == ByAddr && c.clientId != ""
    ensures Possible(s, labels)
    ensures var t := After(s, labels);
            && AtRest(t) && t.history == [Add(c), Enter(c), Del(c), Exit(c), Add(c)] && Registered(t.reg, c)
  {
    var t := TheRun(s, c);
    labels :| Possible(s, labels) && After(s, labels) == t;
    ReachedSerial(s, labels);
    RegisteredIff(t.history, c);
    assert LastPut(t.history, 4, c);
  }
}
