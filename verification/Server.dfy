/** The server as a concurrent step system: the event loop (`ClientManager.Start`), the writer
    (`WriteMessage`), the ping timer, and any number of handlers (`Controller.Run`), readers
    (`Client.Read`), and callers that send or close, over three locks and three bounded
    channels. One step is one acquisition of a lock, one critical section with its release,
    or one operation on a channel or a socket; steps of different threads interleave freely. */
module Server {
  import opened Lists
  import opened Registry
  import opened History

  datatype Message = Message(messageId: string, clientId: string)

  // ---- channels ----

  /** A bounded channel, with a log of everything sent and received. */
  datatype Channel<T> = Channel(cap: nat, queue: seq<T>, put: seq<T>, got: seq<T>)

  function NewChannel<T>(cap: nat): Channel<T> {
    Channel(cap, [], [], [])
  }

  predicate HasRoom<T>(ch: Channel<T>) {
    |ch.queue| < ch.cap
  }

  function Put<T>(ch: Channel<T>, x: T): Channel<T> {
    ch.(queue := ch.queue + [x], put := ch.put + [x])
  }

  function Take<T>(ch: Channel<T>): Channel<T>
    requires |ch.queue| > 0
  {
    ch.(queue := ch.queue[1..], got := ch.got + [ch.queue[0]])
  }

  // ---- threads ----

  /** One entry of the map a pass of the writer ranges over. */
  datatype Target = Target(addr: string, c: Conn)

  datatype Instr =
    | Change(op: Op)                                       // a critical section that writes
    | Size                                                 // Count
    | Pick(message: Message)                               // GetByClientId, for WriteMessage
    | Find(clientId: string, systemId: string, addr: string) // GetByClientId, for CloseLocalClient
    | All                                                  // AllClient
    | Push(c: Conn)                                        // Manager.DisConnect <- c
    | Announce(c: Conn)                                    // Manager.Connect <- c
    | Post(message: Message)                               // ToClientChan <- message
    | Write(target: Target)                                // Render on the socket
    | Ping                                                 // WriteControl on some socket
    | Spawn(c: Conn)                                       // starts the reader
    | Answer(c: Conn)                                      // ConnRender, then Announce or return
    | Read(c: Conn)                                        // waits for the socket

  datatype Lock = ClientIdMapLock | GroupLock | SystemClientsLock

  datatype Guard = Free | Shared(lock: Lock) | Exclusive(lock: Lock)

  function OpLock(op: Op): Lock {
    match op
    case Add(_) => ClientIdMapLock
    case Del(_) => ClientIdMapLock
    case Enter(_) => SystemClientsLock
    case Exit(_) => SystemClientsLock
    case JoinGroup(_, _) => GroupLock
    case LeaveGroup(_, _) => GroupLock
  }

  function GuardOf(instr: Instr): Guard {
    match instr
    case Change(op) => Exclusive(OpLock(op))
    case Size => Shared(ClientIdMapLock)
    case Pick(_) => Shared(ClientIdMapLock)
    case Find(_, _, _) => Shared(ClientIdMapLock)
    case All => Shared(ClientIdMapLock)
    case _ => Free
  }

  predicate Conflict(a: Guard, b: Guard) {
    !a.Free? && !b.Free? && a.lock == b.lock && (a.Exclusive? || b.Exclusive?)
  }

  /** What a thread still has to do; `inside` when it holds the lock of its first step. */
  datatype Thread = Thread(ops: seq<Instr>, inside: bool)

  function Held(t: Thread): Guard {
    if t.inside && t.ops != [] then GuardOf(t.ops[0]) else Free
  }

  const LOOP: nat := 0
  const WRITER: nat := 1
  const PINGER: nat := 2

  // ---- states ----

  /** An entry of the DisConnect channel, with the thread that sent it. */
  datatype Gone = Gone(c: Conn, sender: nat)

  /** One message of `WriteMessage`: how many writing sections had run when the sessions were
      copied, the copy, the order the map was ranged over, and what came of the attempts so
      far. */
  datatype Pass = Pass(message: Message, at: nat, conns: map<string, Conn>, order: seq<Target>,
                       delivered: seq<Target>, failed: seq<Target>)

  /** What came from outside so far, and what became of it. */
  datatype Log = Log(
    arrived: seq<Conn>,          // the connections accepted
    answered: seq<Conn>,         // those that took the answer of their handler
    refused: seq<Conn>,          // those that did not
    requested: seq<Message>,     // the messages asked for
    bound: seq<Op>,              // the bindings to groups asked for
    asked: seq<Op>,              // the groups to leave in the DisConnect events
    skipped: seq<Instr>)         // what was given up when a section panicked

  /** A ping that failed: on which connection, how many writing sections had run when the
      sweep took its copy of the registry, and when the connection was found in it. */
  datatype Unreached = Unreached(c: Conn, swept: nat, at: nat)

  /** What the threads that may disconnect somebody met with. */
  datatype Marks = Marks(
    ended: map<nat, bool>,       // the readers that are over, and whether by a close
    looked: map<nat, nat>,       // the closers that looked, and how many writing sections had run
    swept: nat,                  // how many had when the last sweep began
    unvisited: set<Conn>,        // its sessions that were there ever since and not pinged yet
    unreached: seq<Unreached>)   // the pings that failed

  datatype State = State(
    keying: Keying,
    reg: Indexes,
    history: seq<Op>,            // the writing sections so far, in order
    log: Log,
    marks: Marks,
    connect: Channel<Conn>,
    disconnect: Channel<Gone>,
    messages: Channel<Message>,
    passes: seq<Pass>,
    launched: seq<Instr>,        // the first step of each thread started since the start
    threads: seq<Thread>)

  function Start(keying: Keying, connectCap: nat, disconnectCap: nat, messagesCap: nat): State {
    var idle := Thread([], false);
    State(keying, EMPTY, [], Log([], [], [], [], [], [], []), Marks(map[], map[], 0, {}, []),
          NewChannel(connectCap), NewChannel(disconnectCap), NewChannel(messagesCap), [], [], [idle, idle, idle])
  }

  // ---- programs ----

  /** `Controller.Run` from line 76 on. */
  function Handler(c: Conn): seq<Instr> {
    [Change(Add(c)), Change(Enter(c)), Spawn(c), Answer(c)]
  }

  function ConnectEvent(c: Conn): seq<Instr> {
    [Change(Add(c)), Size]
  }

  function LeaveAll(c: Conn, names: seq<string>): seq<Instr> {
    seq(|names|, i requires 0 <= i < |names| => Change(LeaveGroup(c, names[i])))
  }

  /** The groups that a disconnect is about: none when the id is empty. */
  function Asked(c: Conn, names: seq<string>): seq<Op> {
    if c.clientId == "" then []
    else seq(|names|, i requires 0 <= i < |names| => LeaveGroup(c, names[i]))
  }

  /** `EventDisconnect`; `names` is the group list of the connection. */
  function DisconnectEvent(c: Conn, names: seq<string>): seq<Instr> {
    if c.clientId == "" then [Size]
    else [Change(Del(c))] + LeaveAll(c, names) + [Change(Exit(c)), Size]
  }

  function Writes(order: seq<Target>): seq<Instr> {
    seq(|order|, i requires 0 <= i < |order| => Write(order[i]))
  }

  function Sessions(reg: Indexes, id: string): map<string, Conn> {
    if id in reg.clients then reg.clients[id] else map[]
  }

  /** All sessions of the registry. */
  function Everybody(reg: Indexes): set<Conn> {
    set id, addr | id in reg.clients && addr in reg.clients[id] :: reg.clients[id][addr]
  }

  function StillThere(conns: set<Conn>, reg: Indexes): set<Conn> {
    set c | c in conns && Registered(reg, c)
  }

  /** The entries of the map, each once. */
  ghost predicate Ordering(order: seq<Target>, conns: map<string, Conn>) {
    && NoDuplicates(order)
    && (forall t :: t in order <==> t.addr in conns && conns[t.addr] == t.c)
  }

  /** What `CloseLocalClient` does with its copy of the sessions. */
  function CloseFound(conns: map<string, Conn>, systemId: string, addr: string): seq<Instr> {
    if addr in conns && conns[addr].systemId == systemId then [Push(conns[addr])] else []
  }

  // ---- steps ----

  datatype Label =
    // from outside
    | Arrives(c: Conn)
    | Requested(message: Message)                                 // SendMessage2LocalClient
    | CloseRequested(clientId: string, systemId: string, addr: string) // CloseLocalClient
    | Binds(key: string, id: string)                              // addClient2Group
    | Ticks
    | SocketEnds(i: nat, closed: bool)                            // the reader's loop ends
    // of the server itself
    | Enters(i: nat)                                              // acquires the lock
    | Runs(i: nat)                                                // steps with one outcome
    | Picks(i: nat, order: seq<Target>)
    | Sweeps(i: nat, rounds: nat)
    | Tries(i: nat, ok: bool)                                     // a socket write
    | Pings(i: nat, c: Conn, at: nat, ok: bool)
    | PingsNothing(i: nat)
    | TakesConnect
    | TakesDisconnect(names: seq<string>)
    | TakesMessage

  predicate IsInput(l: Label) {
    l.Arrives? || l.Requested? || l.CloseRequested? || l.Binds? || l.Ticks? || l.SocketEnds?
  }

  /** Thread `i` has a next step and is in the state to run it. */
  predicate Ready(s: State, i: nat) {
    && i < |s.threads| && s.threads[i].ops != []
    && (s.threads[i].inside <==> !GuardOf(s.threads[i].ops[0]).Free?)
  }

  function First(s: State, i: nat): Instr
    requires i < |s.threads| && s.threads[i].ops != []
  {
    s.threads[i].ops[0]
  }

  function Rest(s: State, i: nat): seq<Instr>
    requires i < |s.threads| && s.threads[i].ops != []
  {
    s.threads[i].ops[1..]
  }

  predicate Idle(s: State, i: nat) {
    i < |s.threads| && s.threads[i].ops == []
  }

  predicate CanEnter(s: State, i: nat) {
    && i < |s.threads| && s.threads[i].ops != [] && !s.threads[i].inside
    && !GuardOf(First(s, i)).Free?
    && forall j :: 0 <= j < |s.threads| ==> !Conflict(Held(s.threads[j]), GuardOf(First(s, i)))
  }

  predicate CanRun(s: State, i: nat)
    requires i < |s.threads| && s.threads[i].ops != []
  {
    match First(s, i)
    case Change(_) => true
    case Size => true
    case Find(_, _, _) => true
    case Spawn(_) => true
    case Push(_) => HasRoom(s.disconnect)
    case Announce(_) => HasRoom(s.connect)
    case Post(_) => HasRoom(s.messages)
    case _ => false
  }

  ghost predicate Enabled(s: State, l: Label) {
    match l
    case Arrives(_) => true
    case Requested(_) => true
    case CloseRequested(_, _, _) => true
    case Binds(_, _) => true
    case Ticks => Idle(s, PINGER)
    case SocketEnds(i, _) => Ready(s, i) && First(s, i).Read?
    case Enters(i) => CanEnter(s, i)
    case Runs(i) => Ready(s, i) && CanRun(s, i)
    case Picks(i, order) =>
      Ready(s, i) && First(s, i).Pick? && Ordering(order, Sessions(s.reg, First(s, i).message.clientId))
    case Sweeps(i, rounds) => Ready(s, i) && First(s, i).All? && |Everybody(s.reg)| <= rounds
    case Tries(i, _) => Ready(s, i) && (First(s, i).Answer? || (First(s, i).Write? && s.passes != []))
    case Pings(i, c, at, _) =>
      && Ready(s, i) && First(s, i).Ping?
      && s.marks.swept <= at <= |s.history| && Registered(Replay(s.keying, s.history[..at]), c)
      && |s.marks.unvisited - {c}| <= Count(Rest(s, i), Ping)
    case PingsNothing(i) => Ready(s, i) && First(s, i).Ping? && |s.marks.unvisited| <= Count(Rest(s, i), Ping)
    case TakesConnect => Idle(s, LOOP) && s.connect.queue != []
    case TakesDisconnect(_) => Idle(s, LOOP) && s.disconnect.queue != []
    case TakesMessage => Idle(s, WRITER) && s.messages.queue != []
  }

  function Advance(s: State, i: nat, ops: seq<Instr>): State
    requires i < |s.threads|
  {
    s.(threads := s.threads[i := Thread(ops, false)])
  }

  function Launch(s: State, ops: seq<Instr>): State
    requires ops != []
  {
    s.(threads := s.threads + [Thread(ops, false)], launched := s.launched + [ops[0]])
  }

  /** A writing section. A panic is recovered after `DelClient`, so only the logging of the
      count is left to do. */
  function Changed(s: State, i: nat, op: Op): State
    requires Ready(s, i)
  {
    Advance(s, i, if Panics(s.reg, op) then [Size] else Rest(s, i))
      .(reg := Apply(s.keying, s.reg, op), history := s.history + [op],
        marks := s.marks.(unvisited := StillThere(s.marks.unvisited, Apply(s.keying, s.reg, op))),
        log := s.log.(skipped := s.log.skipped + if Panics(s.reg, op) then Rest(s, i) else []))
  }

  function Ran(s: State, i: nat): State
    requires Ready(s, i) && CanRun(s, i)
  {
    match First(s, i)
    case Change(op) => Changed(s, i, op)
    case Find(clientId, systemId, addr) =>
      Advance(s, i, CloseFound(Sessions(s.reg, clientId), systemId, addr) + Rest(s, i))
        .(marks := s.marks.(looked := s.marks.looked[i := |s.history|]))
    case Spawn(c) => Launch(Advance(s, i, Rest(s, i)), [Read(c)])
    case Push(c) => Advance(s, i, Rest(s, i)).(disconnect := Put(s.disconnect, Gone(c, i)))
    case Announce(c) => Advance(s, i, Rest(s, i)).(connect := Put(s.connect, c))
    case Post(m) => Advance(s, i, Rest(s, i)).(messages := Put(s.messages, m))
    case _ => Advance(s, i, Rest(s, i))
  }

  function Picked(s: State, i: nat, order: seq<Target>): State
    requires Ready(s, i) && First(s, i).Pick?
  {
    var m := First(s, i).message;
    Advance(s, i, Writes(order) + Rest(s, i))
      .(passes := s.passes + [Pass(m, |s.history|, Sessions(s.reg, m.clientId), order, [], [])])
  }

  function Record(p: Pass, t: Target, ok: bool): Pass {
    if ok then p.(delivered := p.delivered + [t]) else p.(failed := p.failed + [t])
  }

  function Tried(s: State, i: nat, ok: bool): State
    requires Ready(s, i) && (First(s, i).Answer? || (First(s, i).Write? && s.passes != []))
  {
    match First(s, i)
    case Answer(c) =>
      Advance(s, i, (if ok then [Announce(c)] else []) + Rest(s, i))
        .(log := s.log.(answered := s.log.answered + if ok then [c] else [],
                        refused := s.log.refused + if ok then [] else [c]))
    case Write(t) =>
      var last := |s.passes| - 1;
      Advance(s, i, (if ok then [] else [Push(t.c)]) + Rest(s, i))
        .(passes := s.passes[last := Record(s.passes[last], t, ok)])
  }

  function Next(s: State, l: Label): State
    requires Enabled(s, l)
  {
    match l
    case Arrives(c) => Launch(s, Handler(c)).(log := s.log.(arrived := s.log.arrived + [c]))
    case Requested(m) => Launch(s, [Post(m)]).(log := s.log.(requested := s.log.requested + [m]))
    case CloseRequested(clientId, systemId, addr) => Launch(s, [Find(clientId, systemId, addr)])
    case Binds(key, id) =>
      Launch(s, [Change(JoinGroup(key, id))]).(log := s.log.(bound := s.log.bound + [JoinGroup(key, id)]))
    case Ticks => Advance(s, PINGER, [All])
    case SocketEnds(i, closed) =>
      Advance(s, i, (if closed then [Push(First(s, i).c)] else []) + Rest(s, i))
        .(marks := s.marks.(ended := s.marks.ended[i := closed]))
    case Enters(i) => s.(threads := s.threads[i := s.threads[i].(inside := true)])
    case Runs(i) => Ran(s, i)
    case Picks(i, order) => Picked(s, i, order)
    case Sweeps(i, rounds) =>
      Advance(s, i, seq(rounds, _ => Ping) + Rest(s, i))
        .(marks := s.marks.(swept := |s.history|, unvisited := Everybody(s.reg)))
    case Tries(i, ok) => Tried(s, i, ok)
    case Pings(i, c, at, ok) =>
      Advance(s, i, (if ok then [] else [Push(c), Size]) + Rest(s, i))
        .(marks := s.marks.(unvisited := s.marks.unvisited - {c},
                            unreached := s.marks.unreached + if ok then [] else [Unreached(c, s.marks.swept, at)]))
    case PingsNothing(i) => Advance(s, i, Rest(s, i))
    case TakesConnect =>
      Advance(s, LOOP, ConnectEvent(s.connect.queue[0])).(connect := Take(s.connect))
    case TakesDisconnect(names) =>
      Advance(s, LOOP, DisconnectEvent(s.disconnect.queue[0].c, names))
        .(disconnect := Take(s.disconnect),
          log := s.log.(asked := s.log.asked + Asked(s.disconnect.queue[0].c, names)))
    case TakesMessage =>
      Advance(s, WRITER, [Pick(s.messages.queue[0])]).(messages := Take(s.messages))
  }

  // ---- runs ----

  ghost predicate Possible(s: State, labels: seq<Label>)
    decreases |labels|
  {
    labels == [] || (Enabled(s, labels[0]) && Possible(Next(s, labels[0]), labels[1..]))
  }

  ghost function After(s: State, labels: seq<Label>): State
    requires Possible(s, labels)
    decreases |labels|
  {
    if labels == [] then s else After(Next(s, labels[0]), labels[1..])
  }
}
