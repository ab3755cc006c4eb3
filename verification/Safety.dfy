/** What every interleaving of the server's steps keeps. */
module Safety {
  import opened Lists
  import opened Registry
  import opened History
  import opened Server

  // ---- the shape of the threads ----

  /** What each kind of thread ever does: only the loop deletes, only the writer picks and
      writes, and no critical section contains another one or a channel operation. */
  predicate Allowed(i: nat, instr: Instr) {
    if i == LOOP then
      instr.Size? || (instr.Change? && (instr.op.Add? || instr.op.Del? || instr.op.LeaveGroup? || instr.op.Exit?))
    else if i == WRITER then instr.Pick? || instr.Write? || instr.Push?
    else if i == PINGER then instr.All? || instr.Ping? || instr.Push? || instr.Size?
    else
      || (instr.Change? && (instr.op.Add? || instr.op.Enter? || instr.op.JoinGroup?))
      || instr.Spawn? || instr.Answer? || instr.Announce? || instr.Post? || instr.Find? || instr.Push? || instr.Read?
  }

  /** What is left of `EventDisconnect` after the deletion: some groups to leave, the system,
      and the count. */
  predicate Leaving(ops: seq<Instr>, c: Conn) {
    || ops == [Change(Exit(c)), Size]
    || (ops != [] && ops[0].Change? && ops[0].op.LeaveGroup? && ops[0].op.c == c && Leaving(ops[1..], c))
  }

  /** What is left of one event of the loop. */
  predicate OfEvent(ops: seq<Instr>) {
    || ops == [] || ops == [Size]
    || (ops[0].Change? && ops[0].op.Add? && ops[1..] == [Size])
    || (ops[0].Change? && ops[0].op.Del? && Leaving(ops[1..], ops[0].op.c))
    || (ops[0].Change? && (ops[0].op.LeaveGroup? || ops[0].op.Exit?) && Leaving(ops, ops[0].op.c))
  }

  ghost predicate OpsOk(i: nat, ops: seq<Instr>) {
    && (forall j :: 0 <= j < |ops| ==> Allowed(i, ops[j]))
    && (i == LOOP ==> OfEvent(ops))
  }

  ghost predicate ThreadOk(i: nat, t: Thread) {
    OpsOk(i, t.ops) && (t.inside ==> t.ops != [] && !GuardOf(t.ops[0]).Free?)
  }

  ghost predicate Shaped(threads: seq<Thread>) {
    |threads| >= 3 && forall i :: 0 <= i < |threads| ==> ThreadOk(i, threads[i])
  }

  lemma LeavingRest(ops: seq<Instr>, c: Conn)
    requires Leaving(ops, c)
    ensures OfEvent(ops) && OfEvent(ops[1..])
  {
    if ops == [Change(Exit(c)), Size] {
      assert ops[1..] == [Size];
    } else {
      assert Leaving(ops[1..], c);
    }
  }

  lemma RestOk(i: nat, ops: seq<Instr>)
    requires OpsOk(i, ops) && ops != []
    ensures OpsOk(i, ops[1..])
  {
    if i == LOOP && ops != [Size] && !ops[0].op.Add? {
      LeavingRest(if ops[0].op.Del? then ops[1..] else ops, ops[0].op.c);
    }
  }

  lemma FrontOk(i: nat, front: seq<Instr>, ops: seq<Instr>)
    requires i != LOOP && OpsOk(i, ops)
    requires forall j :: 0 <= j < |front| ==> Allowed(i, front[j])
    ensures OpsOk(i, front + ops)
  {
  }

  lemma {:induction false} LeaveAllLeaving(c: Conn, names: seq<string>)
    ensures Leaving(LeaveAll(c, names) + [Change(Exit(c)), Size], c)
  {
    var rest := [Change(Exit(c)), Size];
    if names == [] {
      assert LeaveAll(c, names) + rest == rest;
    } else {
      LeaveAllLeaving(c, names[1..]);
      assert (LeaveAll(c, names) + rest)[1..] == LeaveAll(c, names[1..]) + rest;
    }
  }

  lemma DisconnectEventOk(c: Conn, names: seq<string>)
    ensures OpsOk(LOOP, DisconnectEvent(c, names))
  {
    LeaveAllLeaving(c, names);
    if c.clientId != "" {
      assert DisconnectEvent(c, names)[1..] == LeaveAll(c, names) + [Change(Exit(c)), Size];
    }
  }

  /** The event of a disconnect runs the sections of `DelClient`, in their order, and then counts;
      with an empty id it only counts. */
  lemma DisconnectEventSections(c: Conn, names: seq<string>)
    ensures var event := DisconnectEvent(c, names);
            if c.clientId == "" then event == [Size]
            else
              && |event| == |names| + 3 && event[0] == Change(Del(c)) && event[|names| + 2] == Size
              && forall i :: 0 <= i <= |names| ==> event[i + 1] == Change(Leavings(c, names)[i])
  {
  }

  lemma {:induction false} LeavingEnds(ops: seq<Instr>, c: Conn)
    requires Leaving(ops, c)
    ensures |ops| >= 2 && ops[|ops| - 1] == Size
  {
    if ops != [Change(Exit(c)), Size] {
      LeavingEnds(ops[1..], c);
    }
  }

  lemma AdvanceShaped(s: State, i: nat, ops: seq<Instr>)
    requires Shaped(s.threads) && i < |s.threads| && OpsOk(i, ops)
    ensures Shaped(Advance(s, i, ops).threads)
  {
  }

  lemma LaunchShaped(s: State, ops: seq<Instr>)
    requires Shaped(s.threads) && ops != [] && OpsOk(|s.threads|, ops)
    ensures Shaped(Launch(s, ops).threads)
  {
  }

  lemma RanShaped(s: State, i: nat)
    requires Shaped(s.threads) && Ready(s, i) && CanRun(s, i)
    ensures Shaped(Ran(s, i).threads)
  {
    assert ThreadOk(i, s.threads[i]);
    RestOk(i, s.threads[i].ops);
  }

  /** The steps of one thread that only replace its next step by zero or more others. */
  predicate Unfolds(l: Label) {
    l.Picks? || l.Sweeps? || l.Tries? || l.Pings? || l.PingsNothing? || l.SocketEnds?
  }

  /** What such a step puts in front of what its thread has left to do. */
  function Front(s: State, l: Label): seq<Instr>
    requires Unfolds(l) && Ready(s, l.i)
    requires l.Picks? ==> First(s, l.i).Pick?
    requires l.Tries? ==> First(s, l.i).Answer? || First(s, l.i).Write?
    requires l.SocketEnds? ==> First(s, l.i).Read?
  {
    match l
    case Picks(_, order) => Writes(order)
    case Sweeps(_, rounds) => seq(rounds, _ => Ping)
    case Tries(i, ok) =>
      if First(s, i).Answer? then if ok then [Announce(First(s, i).c)] else []
      else if ok then [] else [Push(First(s, i).target.c)]
    case Pings(_, c, _, ok) => if ok then [] else [Push(c), Size]
    case PingsNothing(_) => []
    case SocketEnds(i, closed) => if closed then [Push(First(s, i).c)] else []
  }

  lemma UnfoldStep(s: State, l: Label)
    requires Unfolds(l) && Enabled(s, l)
    ensures Next(s, l) == Advance(s, l.i, Front(s, l) + Rest(s, l.i))
              .(passes := Next(s, l).passes, log := Next(s, l).log, marks := Next(s, l).marks)
    ensures !(l.Tries? && First(s, l.i).Answer?) ==> Next(s, l).log == s.log
  {
    assert [] + Rest(s, l.i) == Rest(s, l.i);
  }

  lemma UnfoldShaped(s: State, l: Label)
    requires Shaped(s.threads) && Unfolds(l) && Enabled(s, l)
    ensures Shaped(Next(s, l).threads)
  {
    var i, rest := l.i, Rest(s, l.i);
    assert ThreadOk(i, s.threads[i]);
    RestOk(i, s.threads[i].ops);
    FrontOk(i, Front(s, l), rest);
    AdvanceShaped(s, i, Front(s, l) + rest);
    UnfoldStep(s, l);
  }

  lemma NextShaped(s: State, l: Label)
    requires Shaped(s.threads) && Enabled(s, l)
    ensures Shaped(Next(s, l).threads)
  {
    match l
    case Arrives(c) => LaunchShaped(s, Handler(c));
    case Requested(m) => LaunchShaped(s, [Post(m)]);
    case CloseRequested(clientId, systemId, addr) => LaunchShaped(s, [Find(clientId, systemId, addr)]);
    case Binds(key, id) => LaunchShaped(s, [Change(JoinGroup(key, id))]);
    case Ticks => AdvanceShaped(s, PINGER, [All]);
    case Enters(i) =>
    case Runs(i) => RanShaped(s, i);
    case TakesConnect => AdvanceShaped(s, LOOP, ConnectEvent(s.connect.queue[0]));
    case TakesDisconnect(names) =>
      DisconnectEventOk(s.disconnect.queue[0].c, names);
      AdvanceShaped(s, LOOP, DisconnectEvent(s.disconnect.queue[0].c, names));
    case TakesMessage => AdvanceShaped(s, WRITER, [Pick(s.messages.queue[0])]);
    case _ => UnfoldShaped(s, l);
  }

  // ---- mutual exclusion ----

  /** No thread is inside a critical section together with one it conflicts with. */
  ghost predicate Excluded(threads: seq<Thread>) {
    forall i, j :: 0 <= i < |threads| && 0 <= j < |threads| && i != j ==> !Conflict(Held(threads[i]), Held(threads[j]))
  }

  lemma AdvanceExcluded(s: State, i: nat, ops: seq<Instr>)
    requires Excluded(s.threads) && i < |s.threads|
    ensures Excluded(Advance(s, i, ops).threads)
  {
  }

  lemma LaunchExcluded(s: State, ops: seq<Instr>)
    requires Excluded(s.threads) && ops != []
    ensures Excluded(Launch(s, ops).threads)
  {
  }

  lemma RanExcluded(s: State, i: nat)
    requires Excluded(s.threads) && Ready(s, i) && CanRun(s, i)
    ensures Excluded(Ran(s, i).threads)
  {
  }

  lemma EntersExcluded(s: State, i: nat)
    requires Excluded(s.threads) && CanEnter(s, i)
    ensures Excluded(Next(s, Enters(i)).threads)
  {
  }

  /** A thread that wants a lock gets it exactly when nobody holds it for writing, and, if it
      wants it for writing, nobody holds it for reading either. */
  lemma EntersIff(s: State, i: nat)
    requires i < |s.threads| && s.threads[i].ops != [] && !s.threads[i].inside
    ensures var wanted := GuardOf(First(s, i));
            CanEnter(s, i) <==> !wanted.Free? && forall j :: 0 <= j < |s.threads| ==>
              && Held(s.threads[j]) != Exclusive(wanted.lock)
              && (wanted.Exclusive? ==> Held(s.threads[j]) != Shared(wanted.lock))
  {
  }

  lemma NextExcluded(s: State, l: Label)
    requires |s.threads| >= 3 && Excluded(s.threads) && Enabled(s, l)
    ensures Excluded(Next(s, l).threads)
  {
    match l
    case Arrives(c) => LaunchExcluded(s, Handler(c));
    case Requested(m) => LaunchExcluded(s, [Post(m)]);
    case CloseRequested(clientId, systemId, addr) => LaunchExcluded(s, [Find(clientId, systemId, addr)]);
    case Binds(key, id) => LaunchExcluded(s, [Change(JoinGroup(key, id))]);
    case Enters(i) => EntersExcluded(s, i);
    case Runs(i) => RanExcluded(s, i);
    case Ticks => AdvanceExcluded(s, PINGER, [All]);
    case TakesConnect => AdvanceExcluded(s, LOOP, ConnectEvent(s.connect.queue[0]));
    case TakesDisconnect(names) => AdvanceExcluded(s, LOOP, DisconnectEvent(s.disconnect.queue[0].c, names));
    case TakesMessage => AdvanceExcluded(s, WRITER, [Pick(s.messages.queue[0])]);
    case _ => AdvanceExcluded(s, l.i, Next(s, l).threads[l.i].ops);
  }

  // ---- channels and the history ----

  /** Received is what was sent first, in order and once; the rest is queued. */
  ghost predicate Fifo<T>(ch: Channel<T>) {
    ch.put == ch.got + ch.queue && |ch.queue| <= ch.cap && ch.cap >= 1
  }

  lemma TakeFifo<T>(ch: Channel<T>)
    requires Fifo(ch) && ch.queue != []
    ensures Fifo(Take(ch))
  {
  }

  lemma PutFifo<T>(ch: Channel<T>, x: T)
    requires Fifo(ch) && HasRoom(ch)
    ensures Fifo(Put(ch, x))
  {
  }

  ghost predicate Queued(s: State) {
    Fifo(s.connect) && Fifo(s.disconnect) && Fifo(s.messages)
  }

  lemma NextQueued(s: State, l: Label)
    requires |s.threads| >= 3 && Queued(s) && Enabled(s, l)
    ensures Queued(Next(s, l))
  {
    match l
    case TakesConnect => TakeFifo(s.connect);
    case TakesDisconnect(_) => TakeFifo(s.disconnect);
    case TakesMessage => TakeFifo(s.messages);
    case Runs(i) =>
      match First(s, i) {
        case Push(c) => PutFifo(s.disconnect, Gone(c, i));
        case Announce(c) => PutFifo(s.connect, c);
        case Post(m) => PutFifo(s.messages, m);
        case _ =>
      }
    case _ =>
  }

  /** The registry is what its history makes of an empty one, so every law of module
      `History` holds of it. */
  ghost predicate Serial(s: State) {
    s.reg == Replay(s.keying, s.history)
  }

  /** Only writing sections change the registry. */
  lemma RegStep(s: State, l: Label)
    requires |s.threads| >= 3 && Enabled(s, l)
    ensures Next(s, l).keying == s.keying
    ensures if l.Runs? && First(s, l.i).Change? then
              && Next(s, l).reg == Apply(s.keying, s.reg, First(s, l.i).op)
              && Next(s, l).history == s.history + [First(s, l.i).op]
            else Next(s, l).reg == s.reg && Next(s, l).history == s.history
  {
  }

  lemma NextSerial(s: State, l: Label)
    requires |s.threads| >= 3 && Serial(s) && Enabled(s, l)
    ensures Serial(Next(s, l))
    ensures Next(s, l).keying == s.keying
    ensures s.history <= Next(s, l).history
  {
    RegStep(s, l);
    if l.Runs? && First(s, l.i).Change? {
      ReplayAppend(s.keying, s.history, First(s, l.i).op);
    }
  }

  // ---- what a lock protects ----

  ghost predicate SameUnder(lock: Lock, r: Indexes, r': Indexes) {
    match lock
    case ClientIdMapLock => r.clients == r'.clients && r.accounts == r'.accounts
    case GroupLock => r.groups == r'.groups
    case SystemClientsLock => r.systems == r'.systems
  }

  lemma SessionsApart(keying: Keying, r: Indexes, op: Op)
    requires op.Add? || op.Del?
    ensures Apply(keying, r, op).groups == r.groups && Apply(keying, r, op).systems == r.systems
  {
  }

  lemma ListsApart(keying: Keying, r: Indexes, op: Op)
    requires !op.Add? && !op.Del?
    ensures Apply(keying, r, op).clients == r.clients && Apply(keying, r, op).accounts == r.accounts
    ensures op.Enter? || op.Exit? ==> Apply(keying, r, op).groups == r.groups
    ensures op.JoinGroup? || op.LeaveGroup? ==> Apply(keying, r, op).systems == r.systems
  {
  }

  lemma ChangesOnlyItsPart(keying: Keying, r: Indexes, op: Op, lock: Lock)
    requires lock != OpLock(op)
    ensures SameUnder(lock, r, Apply(keying, r, op))
  {
    if op.Add? || op.Del? {
      SessionsApart(keying, r, op);
    } else {
      ListsApart(keying, r, op);
    }
  }

  /** The thread whose step a label is, if it is a step of one of the threads there are. */
  predicate StepOf(l: Label, i: nat) {
    match l
    case Ticks => i == PINGER
    case SocketEnds(j, _) => i == j
    case Enters(j) => i == j
    case Runs(j) => i == j
    case Picks(j, _) => i == j
    case Sweeps(j, _) => i == j
    case Tries(j, _) => i == j
    case Pings(j, _, _, _) => i == j
    case PingsNothing(j) => i == j
    case TakesConnect => i == LOOP
    case TakesDisconnect(_) => i == LOOP
    case TakesMessage => i == WRITER
    case _ => false
  }

  /** Only writing sections change the registry, each its own part. */
  lemma OthersChangeNothing(s: State, l: Label, lock: Lock)
    requires |s.threads| >= 3 && Enabled(s, l)
    requires l.Runs? && First(s, l.i).Change? ==> lock != OpLock(First(s, l.i).op)
    ensures SameUnder(lock, s.reg, Next(s, l).reg)
  {
    RegStep(s, l);
    if l.Runs? && First(s, l.i).Change? {
      ChangesOnlyItsPart(s.keying, s.reg, First(s, l.i).op, lock);
    }
  }

  /** Whoever changes an index holds its lock for writing, and whoever copies or counts sessions
      holds theirs for reading. */
  lemma LockedIffNeeded(s: State, l: Label, lock: Lock)
    requires |s.threads| >= 3 && Enabled(s, l)
    ensures !SameUnder(lock, s.reg, Next(s, l).reg) ==> l.Runs? && Held(s.threads[l.i]) == Exclusive(lock)
    ensures l.Picks? || l.Sweeps? || (l.Runs? && (First(s, l.i).Find? || First(s, l.i).Size?)) ==>
              Held(s.threads[l.i]) == Shared(ClientIdMapLock)
  {
    if l.Runs? && First(s, l.i).Change? && lock == OpLock(First(s, l.i).op) {
      assert Held(s.threads[l.i]) == Exclusive(lock);
    } else {
      OthersChangeNothing(s, l, lock);
    }
  }

  lemma OthersLeaveThread(s: State, l: Label, i: nat)
    requires |s.threads| >= 3 && Enabled(s, l) && i < |s.threads| && !StepOf(l, i)
    ensures i < |Next(s, l).threads| && Next(s, l).threads[i] == s.threads[i]
  {
  }

  /** While a thread is inside a section, reading or writing, nobody else changes what its
      lock protects. */
  lemma HeldIsStable(s: State, l: Label, i: nat)
    requires Excluded(s.threads) && |s.threads| >= 3 && Enabled(s, l)
    requires i < |s.threads| && !Held(s.threads[i]).Free? && !StepOf(l, i)
    ensures SameUnder(Held(s.threads[i]).lock, s.reg, Next(s, l).reg)
    ensures i < |Next(s, l).threads| && Next(s, l).threads[i] == s.threads[i]
  {
    if l.Runs? && First(s, l.i).Change? {
      assert !Conflict(Held(s.threads[i]), Held(s.threads[l.i]));
    }
    OthersChangeNothing(s, l, Held(s.threads[i]).lock);
    OthersLeaveThread(s, l, i);
  }

  lemma AddDependsOn(r: Indexes, groups: Lookup, systems: Lookup, c: Conn)
    ensures AddClient(Indexes(r.clients, r.accounts, groups, systems), c) ==
            AddClient(r, c).(groups := groups, systems := systems)
  {
  }

  lemma DelDependsOn(r: Indexes, groups: Lookup, systems: Lookup, id: string, addr: string, victim: string)
    ensures DelSession(Indexes(r.clients, r.accounts, groups, systems), id, addr, victim) ==
            DelSession(r, id, addr, victim).(groups := groups, systems := systems)
  {
  }

  lemma ExitDependsOn(r: Indexes, r': Indexes, c: Conn)
    requires r.systems == r'.systems && |r.groups| == |r'.groups|
    ensures DelFromSystem(r, c).0.systems == DelFromSystem(r', c).0.systems
    ensures DelFromSystem(r, c).1 == DelFromSystem(r', c).1
  {
  }

  /** What a section does to the part under its lock depends on that part only, except that
      `delSystemClient` also reads the number of groups, which another lock protects. */
  lemma EffectDependsOn(keying: Keying, r: Indexes, r': Indexes, op: Op)
    requires SameUnder(OpLock(op), r, r')
    requires op.Exit? ==> |r.groups| == |r'.groups|
    ensures SameUnder(OpLock(op), Apply(keying, r, op), Apply(keying, r', op))
    ensures Panics(r, op) == Panics(r', op)
  {
    match op
    case Add(c) =>
      assert r' == Indexes(r.clients, r.accounts, r'.groups, r'.systems);
      AddDependsOn(r, r'.groups, r'.systems, c);
    case Del(c) =>
      assert r' == Indexes(r.clients, r.accounts, r'.groups, r'.systems);
      DelDependsOn(r, r'.groups, r'.systems, c.clientId, c.addr, Victim(keying, c.clientId, c.addr));
    case Exit(c) => ExitDependsOn(r, r', c);
    case Enter(_) =>
    case JoinGroup(_, _) =>
    case LeaveGroup(_, _) =>
  }

  /** So it does not matter at which moment inside a writing section the section acts, unless
      it is `delSystemClient` and another thread's step changes the number of groups. Those two
      numbers are two bounds for the same list: `Slices.BoundsAgreeIff` says when they make a
      difference, and `Slices.VaryingIsFixed` that a loop during which the number changes has
      the effect of one of its values, both for lists without duplicates. */
  lemma HeldEffectIsStable(s: State, l: Label, i: nat)
    requires Excluded(s.threads) && |s.threads| >= 3 && Enabled(s, l)
    requires i < |s.threads| && s.threads[i].inside && s.threads[i].ops != [] && First(s, i).Change? && !StepOf(l, i)
    ensures var op, r, r' := First(s, i).op, s.reg, Next(s, l).reg;
            || (op.Exit? && |r.groups| != |r'.groups|)
            || (&& SameUnder(OpLock(op), Apply(s.keying, r, op), Apply(s.keying, r', op))
                && Panics(r, op) == Panics(r', op))
  {
    HeldIsStable(s, l, i);
    var op := First(s, i).op;
    if !(op.Exit? && |s.reg.groups| != |Next(s, l).reg.groups|) {
      EffectDependsOn(s.keying, s.reg, Next(s, l).reg, op);
    }
  }
}
