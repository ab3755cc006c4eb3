/** The laws of the server over whole runs: any labels in any order, from the empty server. */
module Runs {
  import opened Lists
  import opened Slices
  import opened Registry
  import opened History
  import opened Server
  import opened Safety
  import opened Delivery
  import opened Events
  import opened Disconnects
  import opened Sweeps
  import opened Liveness
  import opened Handlers
  import opened Reachable
  import opened Traces
  import opened Visits

  // ---- the registry ----

  /** In every interleaving the registry is what its sections make of an empty one in the
      order they ran, the indexes agree, no two conflicting sections overlap, and the account
      list of every indexed id holds it as often as `Multiplicity` says. */
  lemma RegistryInEveryRun(s: State, labels: seq<Label>, id: string)
    requires Initial(s) && Possible(s, labels)
    ensures var t := After(s, labels);
            && t.reg == Replay(t.keying, t.history)
            && Consistent(t.reg) && Excluded(t.threads)
            && (Indexed(id) ==>
                  Entries(t.reg, AccountKey(id), id) ==
                  if id !in t.reg.clients then 0
                  else if IsApp(id) then AddsSinceRemoval(t.keying, t.history, id) else 1)
  {
    Reached(s, labels);
    var t := After(s, labels);
    ReplayConsistent(t.keying, t.history);
    if Indexed(id) {
      Multiplicity(t.keying, t.history, id);
    }
  }

  predicate OtherAddress(c: Conn) {
    c.addr != c.clientId
  }

  lemma HistoryHasNoSelfAddress(s: State)
    requires EveryConn(OtherAddress, s)
    ensures NoSelfAddress(s.history)
  {
  }

  lemma NothingForgottenBetween(t: State, t': State)
    requires Serial(t) && Serial(t') && t.keying == t'.keying == ByClientId
    requires t.history <= t'.history && NoSelfAddress(t'.history)
    ensures Grown(t.reg, t'.reg) && |t.reg.clients| <= |t'.reg.clients|
  {
    var tail := t'.history[|t.history|..];
    assert t'.history == t.history + tail;
    WrittenNeverForgets(t.history, tail);
  }

  /** As written, in every interleaving in which no connection's address equals its id: from
      any state of a run to any later one, no id and no session of an id that is not "APP_"
      is forgotten, and the count does not go down, whatever disconnects were processed. */
  lemma NothingForgottenInEveryRun(s: State, before: seq<Label>, more: seq<Label>)
    requires Initial(s) && s.keying == ByClientId
    requires Possible(s, before + more)
    requires forall l :: l in before + more && l.Arrives? ==> OtherAddress(l.c)
    ensures Possible(s, before)
    ensures var r, r' := After(s, before).reg, After(s, before + more).reg;
            Grown(r, r') && |r.clients| <= |r'.clients|
  {
    ReachedHistory(s, before, more);
    ReachedConns(OtherAddress, s, before + more);
    HistoryHasNoSelfAddress(After(s, before + more));
    NothingForgottenBetween(After(s, before), After(s, before + more));
  }

  predicate NamedAfterSystem(c: Conn) {
    c.clientId == c.systemId
  }

  lemma HistoryIsNamedAfterSystem(s: State)
    requires EveryConn(NamedAfterSystem, s)
    ensures forall i :: 0 <= i < |s.history| && (s.history[i].Enter? || s.history[i].Exit?)
                        ==> s.history[i].c.clientId == s.history[i].c.systemId
  {
  }

  /** With ids equal to system ids, as the handler makes them, and at most one group: in
      every interleaving the list of a system is copies of its name, one more for each
      `AddClient2SystemClient` and one fewer, down to none, for each `delSystemClient`. */
  lemma SystemListsInEveryRun(s: State, labels: seq<Label>, systemId: string)
    requires Initial(s) && Possible(s, labels)
    requires forall l :: l in labels && l.Arrives? ==> NamedAfterSystem(l.c)
    requires |After(s, labels).reg.groups| <= 1
    ensures var t := After(s, labels);
            Get(t.reg.systems, systemId) == Copies(Level(t.history, systemId), systemId)
  {
    var t := After(s, labels);
    ReachedConns(NamedAfterSystem, s, labels);
    HistoryIsNamedAfterSystem(t);
    ReachedSerial(s, labels);
    SystemListIsCopies(t.keying, t.history, systemId);
  }

  // ---- no groups without bindings ----

  lemma {:induction false} NothingBound(s: State, labels: seq<Label>)
    requires Possible(s, labels) && s.log.bound == []
    requires forall l :: l in labels ==> !l.Binds?
    ensures After(s, labels).log.bound == []
    decreases |labels|
  {
    if labels != [] {
      assert labels[0] in labels;
      NothingBound(Next(s, labels[0]), labels[1..]);
    }
  }

  lemma NoJoinWithoutCause(s: State, op: Op)
    requires s.log.bound == [] && op.JoinGroup? && Balanced(s, Change(op))
    ensures op !in s.history
  {
    CountPositive(s.history, op);
  }

  lemma ReachedBalance(s: State, labels: seq<Label>, instr: Instr)
    requires Initial(s) && Possible(s, labels) && Caused(instr)
    ensures Balanced(After(s, labels), instr)
  {
    Reached(s, labels);
  }

  /** As long as nobody binds a client to a group, no section ever goes out of range. */
  lemma NothingJoined(s: State, labels: seq<Label>)
    requires Initial(s) && Possible(s, labels)
    requires forall l :: l in labels ==> !l.Binds?
    ensures After(s, labels).reg.groups == map[]
    ensures !Panicked(After(s, labels).keying, After(s, labels).history)
  {
    ReachedSerial(s, labels);
    NothingBound(s, labels);
    var t := After(s, labels);
    forall i | 0 <= i < |t.history| ensures !t.history[i].JoinGroup? {
      if t.history[i].JoinGroup? {
        ReachedBalance(s, labels, Change(t.history[i]));
        NoJoinWithoutCause(t, t.history[i]);
      }
    }
    NoGroupsWithoutJoins(t.keying, t.history);
    NoPanicWithoutJoins(t.keying, t.history);
  }

  /** `Groups` stays empty as long as nobody binds a client to a group, so in production the
      law above holds of every interleaving. */
  lemma ProductionLists(s: State, labels: seq<Label>, systemId: string)
    requires Initial(s) && Possible(s, labels)
    requires forall l :: l in labels ==> !l.Binds? && (l.Arrives? ==> NamedAfterSystem(l.c))
    ensures var t := After(s, labels);
            t.reg.groups == map[] && Get(t.reg.systems, systemId) == Copies(Level(t.history, systemId), systemId)
  {
    NothingJoined(s, labels);
    SystemListsInEveryRun(s, labels, systemId);
  }

  // ---- messages ----

  /** Of the sessions that the registry held for the id of the message when the pass was begun,
      each was attempted exactly once, and nothing else was. */
  ghost predicate EachSessionOnce(keying: Keying, history: seq<Op>, p: Pass) {
    p.at <= |history| && TriesEachOnce(Replay(keying, history[..p.at]), p)
  }

  ghost predicate TriesEachOnce(r: Indexes, p: Pass) {
    forall t :: multiset(p.delivered)[t] + multiset(p.failed)[t] ==
                if HasSession(r, p.message.clientId, t.addr) && r.clients[p.message.clientId][t.addr] == t.c
                then 1 else 0
  }

  /** A pass that is over: what was delivered and what failed divide those sessions. */
  lemma PassOutcome(keying: Keying, history: seq<Op>, p: Pass)
    requires PassOk(p) && Attempted(p) == |p.order| && Snapshot(keying, history, p)
    ensures EachSessionOnce(keying, history, p)
  {
    assert p.order[..Attempted(p)] == p.order;
    forall t
      ensures multiset(p.delivered)[t] + multiset(p.failed)[t] ==
              if t.addr in p.conns && p.conns[t.addr] == t.c then 1 else 0
    {
      OnceInOrder(p.order, t);
      assert (multiset(p.delivered) + multiset(p.failed))[t] == multiset(p.order)[t];
    }
  }

  lemma {:induction false} OnceInOrder(order: seq<Target>, t: Target)
    requires NoDuplicates(order)
    ensures multiset(order)[t] == if t in order then 1 else 0
  {
    if order != [] {
      assert order == [order[0]] + order[1..];
      OnceInOrder(order[1..], t);
    }
  }

  /** In every interleaving and for any order the maps are ranged over in: every channel
      hands out what it accepted, in order and at most once, within its capacity; each message
      taken gets one pass, except one that is still to be looked up, begun one after the
      other; each pass but the last one is over and attempted each session that its message's
      id had when it was begun exactly once, whatever changed since; and the writer sends
      exactly one disconnect for each failed attempt, in their order, the last one possibly
      still to come. */
  lemma MessagesInEveryRun(s: State, labels: seq<Label>)
    requires Initial(s) && Possible(s, labels)
    ensures var t := After(s, labels);
            && Queued(t)
            && Messages(t.passes) <= t.messages.got && |t.messages.got| <= |t.passes| + 1
            && (forall k :: 0 <= k < |t.passes| ==> PassOk(t.passes[k]))
            && Snapshots(t.keying, t.history, t.passes)
            && (forall k :: 0 <= k < |t.passes| - 1 ==> EachSessionOnce(t.keying, t.history, t.passes[k]))
            && From(t.disconnect.put, WRITER) <= AllFailed(t.passes)
            && |AllFailed(t.passes)| <= |From(t.disconnect.put, WRITER)| + 1
  {
    Reached(s, labels);
    var t := After(s, labels);
    forall k | 0 <= k < |t.passes| - 1 ensures EachSessionOnce(t.keying, t.history, t.passes[k]) {
      assert Snapshot(t.keying, t.history, t.passes[k]) && PassOk(t.passes[k]);
      PassOutcome(t.keying, t.history, t.passes[k]);
    }
  }

  /** In every interleaving there is one pass for each step that begins one; each of them but the
      last is over and attempted each session that its message's id had in the registry at
      that step exactly once; and what was delivered and what failed is what the outcomes of
      the attempts say. */
  lemma PassesInEveryRun(s: State, labels: seq<Label>)
    requires Initial(s) && Possible(s, labels)
    ensures var passes, at := After(s, labels).passes, PickSteps(labels);
            && |passes| == |at|
            && (forall k :: 0 <= k < |at| ==> Possible(s, labels[..at[k]]))
            && (forall k :: 0 <= k < |at| - 1 || (k == |at| - 1 >= 0 && AtRest(After(s, labels))) ==>
                  TriesEachOnce(After(s, labels[..at[k]]).reg, passes[k]))
            && Went(passes, Outcomes(labels))
  {
    AttemptsWent(s, labels);
    PassesMarked(s, labels);
    var passes, at := After(s, labels).passes, PickSteps(labels);
    forall k | 0 <= k < |at| ensures Possible(s, labels[..at[k]]) {
      assert MarkedBy(s, labels, passes[k], at[k]);
    }
    forall k | 0 <= k < |at| - 1 || (k == |at| - 1 >= 0 && AtRest(After(s, labels)))
      ensures TriesEachOnce(After(s, labels[..at[k]]).reg, passes[k])
    {
      assert MarkedBy(s, labels, passes[k], at[k]);
      PassFrom(s, labels, k, at[k]);
    }
  }

  lemma PassFrom(s: State, labels: seq<Label>, k: nat, n: nat)
    requires Initial(s) && Possible(s, labels) && k < |After(s, labels).passes| && n <= |labels|
    requires k < |After(s, labels).passes| - 1 || AtRest(After(s, labels))
    requires MarkedBy(s, labels, After(s, labels).passes[k], n)
    ensures Possible(s, labels[..n]) && TriesEachOnce(After(s, labels[..n]).reg, After(s, labels).passes[k])
  {
    var t, p := After(s, labels), After(s, labels).passes[k];
    if k < |t.passes| - 1 {
      MessagesInEveryRun(s, labels);
    } else {
      MessagesAtRest(s, labels);
    }
    assert EachSessionOnce(t.keying, t.history, p);
    HistoryGrows(s, labels, n);
    ReachedSerial(s, labels);
    ReachedSerial(s, labels[..n]);
    assert t.history[..p.at] == After(s, labels[..n]).history;
  }

  // ---- disconnects of readers and closers ----

  /** In every interleaving, what a reader, closer or handler (thread 3 and later) has sent on
      the DisConnect channel is nothing or all of what it has to: the connection whose socket
      ended by a close, or the session that a closer was called for and found; at most one in
      either case, and at rest exactly that. At rest every closer has looked. */
  lemma DisconnectsInEveryRun(s: State, labels: seq<Label>, i: nat)
    requires Initial(s) && Possible(s, labels)
    requires 3 <= i < |After(s, labels).threads|
    ensures var t := After(s, labels);
            && |t.threads| == 3 + |t.launched|
            && var first := t.launched[i - 3];
               var sent, due := From(t.disconnect.put, i), Due(t.keying, t.history, t.marks, first, i);
               && sent <= due && |due| <= 1
               && (AtRest(t) ==> sent == due)
               && (AtRest(t) && first.Find? ==> i in t.marks.looked && t.marks.looked[i] <= |t.history|)
  {
    ReachedFulfil(s, labels);
    FulfilledDisconnects(After(s, labels), i);
  }

  lemma ReachedFulfil(s: State, labels: seq<Label>)
    requires Initial(s) && Possible(s, labels)
    ensures Shaped(After(s, labels).threads) && AllFulfil(After(s, labels))
  {
    Reached(s, labels);
  }

  lemma FulfilledDisconnects(s: State, i: nat)
    requires AllFulfil(s) && 3 <= i < |s.threads|
    ensures var first := s.launched[i - 3];
            var sent, due := From(s.disconnect.put, i), Due(s.keying, s.history, s.marks, first, i);
            && sent <= due && |due| <= 1
            && (AtRest(s) ==> sent == due)
            && (AtRest(s) && first.Find? ==> i in s.marks.looked && s.marks.looked[i] <= |s.history|)
  {
    assert Fulfils(s, i);
    if AtRest(s) {
      assert Waiting(s.threads[i]);
    }
  }

  /** What a closer finds: the session of the id and address it was called with, if there is one
      and it is of the system it was called with, and otherwise nothing. */
  lemma NamedIsOwn(keying: Keying, history: seq<Op>, clientId: string, systemId: string, addr: string)
    ensures var r := Replay(keying, history);
            var found := Named(r, clientId, systemId, addr);
            && |found| <= 1
            && forall c :: c in found <==>
                 Registered(r, c) && c.clientId == clientId && c.systemId == systemId && c.addr == addr
  {
    var r := Replay(keying, history);
    ReplayConsistent(keying, history);
    assert clientId in r.clients ==> Proper(clientId, r.clients[clientId]);
  }

  /** At rest, a reader has disconnected its connection exactly if its socket ended by a close. */
  lemma ReadersAtRest(s: State, labels: seq<Label>, i: nat, c: Conn)
    requires Initial(s) && Possible(s, labels) && AtRest(After(s, labels))
    requires 3 <= i < 3 + |After(s, labels).launched| && After(s, labels).launched[i - 3] == Read(c)
    ensures From(After(s, labels).disconnect.put, i) == if SocketEnds(i, true) in labels then [c] else []
  {
    ReachedFulfil(s, labels);
    FulfilledDisconnects(After(s, labels), i);
    EndsMarked(s, labels, i, true);
  }

  lemma LookIsFirst(s: State, labels: seq<Label>, k: nat, i: nat, find: Instr)
    requires Initial(s) && Possible(s, labels) && LooksAt(s, labels, k, i, find) && i >= 3
    ensures |After(s, labels).threads| == 3 + |After(s, labels).launched|
    ensures i < |After(s, labels).threads| && find == After(s, labels).launched[i - 3]
  {
    ReachedFulfil(s, labels[..k]);
    ReachedFulfil(s, labels);
    assert Fulfils(After(s, labels[..k]), i);
    LaunchedGrows(s, labels, k);
  }

  /** There is one closer for each call of `CloseLocalClient`. At rest each of them looked at the
      registry, and has disconnected the session of the id and address it was called with,
      exactly if there was one then and it was of the system it was called with. */
  lemma ClosersAtRest(s: State, labels: seq<Label>, i: nat, id: string, systemId: string, addr: string)
    returns (k: nat)
    requires Initial(s) && Possible(s, labels) && AtRest(After(s, labels))
    requires 3 <= i < 3 + |After(s, labels).launched|
    requires After(s, labels).launched[i - 3] == Find(id, systemId, addr)
    ensures LooksAt(s, labels, k, i, Find(id, systemId, addr))
    ensures var sent, r := From(After(s, labels).disconnect.put, i), After(s, labels[..k]).reg;
            && |sent| <= 1
            && forall c :: c in sent <==>
                 Registered(r, c) && c.clientId == id && c.systemId == systemId && c.addr == addr
    ensures Count(After(s, labels).launched, Find(id, systemId, addr)) ==
            Count(labels, CloseRequested(id, systemId, addr))
  {
    var find;
    ReachedFulfil(s, labels);
    FulfilledDisconnects(After(s, labels), i);
    k, find := LooksMarked(s, labels, i);
    LookIsFirst(s, labels, k, i, find);
    ClosersLaunched(s, labels, id, systemId, addr);
    ClosersFound(s, labels, k, id, systemId, addr);
  }

  lemma ClosersFound(s: State, labels: seq<Label>, k: nat, id: string, systemId: string, addr: string)
    requires Initial(s) && Possible(s, labels) && k <= |labels|
    ensures Possible(s, labels[..k])
    ensures var t, t' := After(s, labels[..k]), After(s, labels);
            && |t.history| <= |t'.history|
            && (forall c :: c in Named(Replay(t'.keying, t'.history[..|t.history|]), id, systemId, addr) <==>
                  Registered(t.reg, c) && c.clientId == id && c.systemId == systemId && c.addr == addr)
  {
    HistoryGrows(s, labels, k);
    var t, t' := After(s, labels[..k]), After(s, labels);
    ReachedSerial(s, labels[..k]);
    ReachedSerial(s, labels);
    NamedIsOwn(t.keying, t.history, id, systemId, addr);
    assert t'.history[..|t.history|] == t.history;
  }

  /** In every interleaving, the pinger sends exactly one disconnect for each ping that failed,
      in their order, the last one possibly still to come, each of a connection that was a
      session of the registry when the sweep took its copy or at some moment since. */
  lemma PingsInEveryRun(s: State, labels: seq<Label>)
    requires Initial(s) && Possible(s, labels)
    ensures var t := After(s, labels);
            var sent, failed := From(t.disconnect.put, PINGER), FailedPings(labels);
            && sent <= failed && |failed| <= |sent| + 1
            && SweepsOk(t.keying, t.history, t.marks)
            && (AtRest(t) ==> sent == failed)
  {
    PingsMarked(s, labels);
    Reached(s, labels);
    if AtRest(After(s, labels)) {
      OnlyReadersWait(After(s, labels), PINGER);
    }
  }

  /** Each tick begins one sweep, or is just about to; at rest each has. */
  lemma SweepsInEveryRun(s: State, labels: seq<Label>)
    requires Initial(s) && Possible(s, labels)
    ensures SweepCount(labels) <= Count(labels, Ticks) <= SweepCount(labels) + 1
    ensures AtRest(After(s, labels)) ==> SweepCount(labels) == Count(labels, Ticks)
  {
    TicksSweep(s, labels);
    OneSweep(s, labels);
    if AtRest(After(s, labels)) {
      ReachedFulfil(s, labels);
      OnlyReadersWait(After(s, labels), PINGER);
    }
  }

  // ---- liveness ----

  lemma WritesNeedPass(s: State)
    requires Shaped(s.threads) && WriterOk(s)
    ensures WritesInPass(s)
  {
  }

  /** No reachable state is stuck: unless every channel is empty and every thread is done or
      waits for its socket, the server can take a step of its own. */
  lemma NoDeadlock(s: State, labels: seq<Label>) returns (l: Label)
    requires Initial(s) && Possible(s, labels) && !AtRest(After(s, labels))
    ensures Steps(After(s, labels), l)
  {
    Reached(s, labels);
    WritesNeedPass(After(s, labels));
    l := SomeoneSteps(After(s, labels));
  }

  /** Left to itself from any reachable state, by whatever steps of its own it takes, the
      server comes to rest. */
  lemma Drains(s: State, labels: seq<Label>, run: nat -> State)
    requires Initial(s) && Possible(s, labels)
    requires run(0) == After(s, labels) && OnItsOwn(run)
    ensures exists k: nat :: AtRest(run(k))
  {
    Reached(s, labels);
    var k := DrainsFrom(run, 0);
  }

  lemma OnlyReadersWait(s: State, i: nat)
    requires Shaped(s.threads) && AllFulfil(s) && AtRest(s) && i < |s.threads|
    ensures s.threads[i].ops == [] || (i >= 3 && |s.threads[i].ops| == 1 && s.threads[i].ops[0].Read?)
  {
    var ops := s.threads[i].ops;
    assert Waiting(s.threads[i]) && ThreadOk(i, s.threads[i]);
    if ops != [] {
      assert Allowed(i, ops[0]);
      assert Fulfils(s, i);
    }
  }

  lemma NoStepLeft(s: State, instr: Instr)
    requires Shaped(s.threads) && AllFulfil(s) && AtRest(s) && !instr.Read?
    ensures Sum(Left(instr), s.threads) == 0
  {
    forall i | 0 <= i < |s.threads| ensures Left(instr)(s.threads[i]) == 0 {
      OnlyReadersWait(s, i);
    }
    SumZero(Left(instr), s.threads);
  }

  /** At rest every step was taken once for each of its causes, or given up. */
  lemma StepsAtRest(s: State, labels: seq<Label>, instr: Instr)
    requires Initial(s) && Possible(s, labels) && AtRest(After(s, labels)) && Caused(instr)
    ensures Taken(After(s, labels), instr) == Causes(After(s, labels), instr)
  {
    ReachedBalance(s, labels, instr);
    ReachedFulfil(s, labels);
    NoStepLeft(After(s, labels), instr);
  }

  lemma EverythingReceived(s: State, labels: seq<Label>)
    requires Initial(s) && Possible(s, labels) && AtRest(After(s, labels))
    ensures var t := After(s, labels);
            t.connect.put == t.connect.got && t.disconnect.put == t.disconnect.got && t.messages.put == t.messages.got
  {
    Reached(s, labels);
  }

  /** At rest, what was done for a connection: its handler added it, entered it in its system,
      started its reader and answered it, once for each time it was accepted; each answer that
      was taken made one Connect event, and each of those added it once more. */
  lemma ArrivalsAtRest(s: State, labels: seq<Label>, c: Conn)
    requires Initial(s) && Possible(s, labels) && AtRest(After(s, labels))
    ensures var t := After(s, labels);
            var accepted, answered, refused := Count(labels, Arrives(c)), Count(Responses(t.launched, labels, true), c),
                                               Count(Responses(t.launched, labels, false), c);
            && Count(t.history, Add(c)) == accepted + answered
            && Count(t.history, Enter(c)) == accepted
            && Count(t.launched, Read(c)) == accepted
            && answered + refused == accepted
            && Count(t.connect.put, c) == answered
  {
    var t := After(s, labels);
    ArrivalsLogged(s, labels, c);
    AnswersLogged(s, labels);
    StepsAtRest(s, labels, Change(Add(c)));
    StepsAtRest(s, labels, Change(Enter(c)));
    StepsAtRest(s, labels, Spawn(c));
    StepsAtRest(s, labels, Answer(c));
    StepsAtRest(s, labels, Announce(c));
    EverythingReceived(s, labels);
  }

  lemma ReachedInOrder(s: State, labels: seq<Label>, c: Conn)
    requires Initial(s) && Possible(s, labels)
    ensures var t := After(s, labels);
            && Count(t.log.answered, c) + Count(t.log.refused, c) <= Count(t.launched, Read(c))
            && Count(t.launched, Read(c)) <= Count(t.history, Enter(c)) <= Count(t.history, Add(c))
  {
    ReachedHandlers(s, labels);
    ReachedBalance(s, labels, Change(Add(c)));
    ReachedBalance(s, labels, Change(Enter(c)));
    ReachedBalance(s, labels, Spawn(c));
    ReachedBalance(s, labels, Answer(c));
    HandledInOrder(After(s, labels), c);
  }

  /** In every interleaving a handler does things in order: whoever was answered was given a
      reader before, whoever was given a reader was entered in its system before, and whoever
      was entered was added before. */
  lemma HandlersInEveryRun(s: State, labels: seq<Label>, c: Conn)
    requires Initial(s) && Possible(s, labels)
    ensures var t := After(s, labels);
            && Count(Responses(t.launched, labels, true), c) + Count(Responses(t.launched, labels, false), c) <=
               Count(t.launched, Read(c)) <= Count(t.history, Enter(c)) <= Count(t.history, Add(c))
  {
    AnswersLogged(s, labels);
    ReachedInOrder(s, labels, c);
  }

  /** At rest each binding asked for was made once. */
  lemma BindingsAtRest(s: State, labels: seq<Label>, key: string, id: string)
    requires Initial(s) && Possible(s, labels) && AtRest(After(s, labels))
    ensures Count(After(s, labels).history, JoinGroup(key, id)) == Count(labels, Binds(key, id))
  {
    StepsAtRest(s, labels, Change(JoinGroup(key, id)));
    BindingsLogged(s, labels, key, id);
  }

  /** How many disconnects of `c` were sent, none of which counts when its id is empty. */
  function DisconnectCount(s: State, c: Conn): nat {
    if c.clientId == "" then 0 else Count(GoneConns(s.disconnect.put), c)
  }

  /** At rest, each disconnect sent of a connection deleted its session once, and removed it
      from its system and from each of its groups once, but for what was given up: leaving the
      system exactly once for each deletion from one of its groups that went out of range. */
  lemma DisconnectsAtRest(s: State, labels: seq<Label>, c: Conn, groupName: string)
    requires Initial(s) && Possible(s, labels) && AtRest(After(s, labels))
    ensures var t := After(s, labels);
            && Count(t.history, Del(c)) == DisconnectCount(t, c)
            && Count(t.history, Exit(c)) + Aborted(t.keying, t.history, c) == DisconnectCount(t, c)
            && Count(t.history, LeaveGroup(c, groupName)) + Count(t.log.skipped, Change(LeaveGroup(c, groupName))) ==
               LeavesDue(t.disconnect.put, GroupLists(labels), c, groupName)
  {
    var t := After(s, labels);
    AskedLogged(s, labels, c, groupName);
    StepsAtRest(s, labels, Change(Del(c)));
    StepsAtRest(s, labels, Change(Exit(c)));
    StepsAtRest(s, labels, Change(LeaveGroup(c, groupName)));
    EverythingReceived(s, labels);
  }

  lemma ReachedSkips(s: State, labels: seq<Label>)
    requires Initial(s) && Possible(s, labels)
    ensures SkipsOk(After(s, labels))
  {
    Reached(s, labels);
  }

  /** Without bindings, as in production, nothing is given up. */
  lemma ProductionDisconnects(s: State, labels: seq<Label>, c: Conn, groupName: string)
    requires Initial(s) && Possible(s, labels) && AtRest(After(s, labels))
    requires forall l :: l in labels ==> !l.Binds?
    ensures var t := After(s, labels);
            && Count(t.history, Del(c)) == Count(t.history, Exit(c)) == DisconnectCount(t, c)
            && Count(t.history, LeaveGroup(c, groupName)) ==
               LeavesDue(t.disconnect.put, GroupLists(labels), c, groupName)
            && !Panicked(t.keying, t.history)
  {
    var t := After(s, labels);
    DisconnectsAtRest(s, labels, c, groupName);
    NothingJoined(s, labels);
    ReachedSkips(s, labels);
    NothingAborted(t.keying, t.history, c);
  }

  /** At rest, every message asked for was accepted once and had its pass, in order of
      acceptance; every pass is over and attempted each session that its message's id had when
      it was begun exactly once; and every failed attempt, no other, made the writer send its
      one disconnect. */
  lemma MessagesAtRest(s: State, labels: seq<Label>)
    requires Initial(s) && Possible(s, labels) && AtRest(After(s, labels))
    ensures var t := After(s, labels);
            && (forall m :: Count(t.messages.put, m) == Count(labels, Requested(m)))
            && Messages(t.passes) == t.messages.put
            && Snapshots(t.keying, t.history, t.passes)
            && (forall k :: 0 <= k < |t.passes| ==> EachSessionOnce(t.keying, t.history, t.passes[k]))
            && From(t.disconnect.put, WRITER) == AllFailed(t.passes)
  {
    var t := After(s, labels);
    forall m ensures Count(t.messages.put, m) == Count(labels, Requested(m)) {
      StepsAtRest(s, labels, Post(m));
      RequestsLogged(s, labels, m);
    }
    EverythingReceived(s, labels);
    Reached(s, labels);
    PassesOver(t);
    forall k | 0 <= k < |t.passes| ensures EachSessionOnce(t.keying, t.history, t.passes[k]) {
      assert Snapshot(t.keying, t.history, t.passes[k]) && PassOk(t.passes[k]);
      PassOutcome(t.keying, t.history, t.passes[k]);
    }
  }

  lemma PassesOver(s: State)
    requires Shaped(s.threads) && AllFulfil(s) && WriterOk(s) && AtRest(s)
    ensures Messages(s.passes) == s.messages.got && From(s.disconnect.put, WRITER) == AllFailed(s.passes)
    ensures forall k :: 0 <= k < |s.passes| ==> Attempted(s.passes[k]) == |s.passes[k].order|
  {
    OnlyReadersWait(s, WRITER);
    assert Todo(s.passes) == [];
    if s.passes != [] {
      var p := s.passes[|s.passes| - 1];
      assert PassOk(p) && |Writes(p.order[Attempted(p)..])| == 0;
    }
  }
}
