/** What the writer does with the messages it takes, whatever the other threads do meanwhile. */
module Delivery {
  import opened Lists
  import opened Registry
  import opened History
  import opened Server
  import opened Safety

  function Attempted(p: Pass): nat {
    |p.delivered| + |p.failed|
  }

  /** The sessions tried so far were delivered to or failed, each once. */
  ghost predicate PassOk(p: Pass) {
    && Ordering(p.order, p.conns)
    && Attempted(p) <= |p.order|
    && multiset(p.delivered) + multiset(p.failed) == multiset(p.order[..Attempted(p)])
  }

  function Conns(targets: seq<Target>): seq<Conn> {
    seq(|targets|, i requires 0 <= i < |targets| => targets[i].c)
  }

  /** The connections that failed, over all passes, in order. */
  function AllFailed(passes: seq<Pass>): seq<Conn> {
    if passes == [] then [] else AllFailed(passes[..|passes| - 1]) + Conns(passes[|passes| - 1].failed)
  }

  function Messages(passes: seq<Pass>): seq<Message> {
    seq(|passes|, i requires 0 <= i < |passes| => passes[i].message)
  }

  /** What thread `sender` sent on the DisConnect channel. */
  function From(put: seq<Gone>, sender: nat): seq<Conn> {
    if put == [] then []
    else
      var last := put[|put| - 1];
      From(put[..|put| - 1], sender) + if last.sender == sender then [last.c] else []
  }

  lemma FromPut(put: seq<Gone>, g: Gone, sender: nat)
    ensures From(put + [g], sender) == From(put, sender) + if g.sender == sender then [g.c] else []
  {
  }

  // ---- the writer between two steps ----

  /** The attempts left of the last pass. */
  ghost function Todo(passes: seq<Pass>): seq<Instr>
    requires forall k :: 0 <= k < |passes| ==> PassOk(passes[k])
  {
    if passes == [] then [] else
      var p := passes[|passes| - 1];
      assert PassOk(p);
      Writes(p.order[Attempted(p)..])
  }

  function Chosen(ops: seq<Instr>): seq<Message> {
    if ops != [] && ops[0].Pick? then [ops[0].message] else []
  }

  function Owed(ops: seq<Instr>): seq<Conn> {
    if ops != [] && ops[0].Push? then [ops[0].c] else []
  }

  predicate Between(ops: seq<Instr>) {
    ops != [] && (ops[0].Pick? || ops[0].Push?)
  }

  ghost predicate PassesOk(passes: seq<Pass>) {
    && (forall k :: 0 <= k < |passes| ==> PassOk(passes[k]))
    && (forall k :: 0 <= k < |passes| - 1 ==> Attempted(passes[k]) == |passes[k].order|)
  }

  /** One pass for each message taken, in the order taken; one disconnect sent for each
      failed attempt, in the order of the attempts, except for one just about to be sent. */
  ghost predicate Delivering(passes: seq<Pass>, ops: seq<Instr>, got: seq<Message>, sent: seq<Conn>) {
    && PassesOk(passes)
    && ops == (if Between(ops) then [ops[0]] else []) + Todo(passes)
    && (Chosen(ops) != [] ==> Todo(passes) == [])
    && Messages(passes) + Chosen(ops) == got
    && sent + Owed(ops) == AllFailed(passes)
  }

  ghost predicate WriterOk(s: State) {
    |s.threads| >= 3 && Delivering(s.passes, s.threads[WRITER].ops, s.messages.got, From(s.disconnect.put, WRITER))
  }

  lemma AfterPick(passes: seq<Pass>, ops: seq<Instr>, got: seq<Message>, sent: seq<Conn>, p: Pass)
    requires Delivering(passes, ops, got, sent) && Chosen(ops) == [p.message]
    requires Ordering(p.order, p.conns) && p.delivered == [] && p.failed == []
    ensures Delivering(passes + [p], Writes(p.order) + ops[1..], got, sent)
  {
    var passes' := passes + [p];
    assert passes'[..|passes|] == passes;
    assert p.order[0..] == p.order;
    assert ops[1..] == [];
    assert passes != [] ==> Attempted(passes[|passes| - 1]) == |passes[|passes| - 1].order| by {
      assert Todo(passes) == [];
    }
    assert Messages(passes') == Messages(passes) + [p.message];
    assert AllFailed(passes') == AllFailed(passes) + Conns([]);
    assert Writes(p.order) + ops[1..] == Todo(passes');
  }

  lemma RecordOk(p: Pass, t: Target, ok: bool)
    requires PassOk(p) && Attempted(p) < |p.order| && t == p.order[Attempted(p)]
    ensures PassOk(Record(p, t, ok)) && Attempted(Record(p, t, ok)) == Attempted(p) + 1
  {
    var k := Attempted(p);
    assert p.order[..k + 1] == p.order[..k] + [t];
  }

  lemma RecordFailed(passes: seq<Pass>, t: Target, ok: bool)
    requires passes != []
    ensures var last := |passes| - 1;
            AllFailed(passes[last := Record(passes[last], t, ok)]) == AllFailed(passes) + if ok then [] else [t.c]
  {
    var last, more := |passes| - 1, if ok then [] else [t.c];
    var p' := Record(passes[last], t, ok);
    assert passes[last := p'][..last] == passes[..last];
    assert Conns(p'.failed) == Conns(passes[last].failed) + more;
    assert AllFailed(passes[..last]) + (Conns(passes[last].failed) + more) == AllFailed(passes) + more;
  }

  lemma TryPasses(passes: seq<Pass>, t: Target, ok: bool) returns (passes': seq<Pass>)
    requires PassesOk(passes) && Todo(passes) != [] && Todo(passes)[0] == Write(t)
    ensures passes' == passes[|passes| - 1 := Record(passes[|passes| - 1], t, ok)]
    ensures PassesOk(passes') && Todo(passes') == Todo(passes)[1..] && Messages(passes') == Messages(passes)
    ensures AllFailed(passes') == AllFailed(passes) + if ok then [] else [t.c]
  {
    var last := |passes| - 1;
    var p := passes[last];
    assert PassOk(p);
    var left := p.order[Attempted(p)..];
    assert t == left[0] == p.order[Attempted(p)];
    RecordOk(p, t, ok);
    assert left[1..] == p.order[Attempted(p) + 1..];
    assert Writes(left[1..]) == Writes(left)[1..];
    RecordFailed(passes, t, ok);
    passes' := passes[last := Record(p, t, ok)];
  }

  lemma Assemble(passes: seq<Pass>, push: seq<Instr>, got: seq<Message>, sent: seq<Conn>)
    requires PassesOk(passes) && Messages(passes) == got
    requires push == [] || (|push| == 1 && push[0].Push?)
    requires sent + Owed(push) == AllFailed(passes)
    ensures Delivering(passes, push + Todo(passes), got, sent)
  {
  }

  lemma AfterTry(passes: seq<Pass>, ops: seq<Instr>, got: seq<Message>, sent: seq<Conn>, ok: bool)
    requires Delivering(passes, ops, got, sent) && ops != [] && ops[0].Write? && passes != []
    ensures var last := |passes| - 1;
            Delivering(passes[last := Record(passes[last], ops[0].target, ok)],
                       (if ok then [] else [Push(ops[0].target.c)]) + ops[1..], got, sent)
  {
    assert ops == Todo(passes);
    var passes' := TryPasses(passes, ops[0].target, ok);
    Assemble(passes', if ok then [] else [Push(ops[0].target.c)], got, sent);
  }

  lemma AfterPush(passes: seq<Pass>, ops: seq<Instr>, got: seq<Message>, sent: seq<Conn>)
    requires Delivering(passes, ops, got, sent) && Owed(ops) != []
    ensures Delivering(passes, ops[1..], got, sent + Owed(ops))
  {
  }

  lemma WriterTakes(s: State)
    requires WriterOk(s) && Enabled(s, TakesMessage)
    ensures WriterOk(Next(s, TakesMessage))
  {
  }

  lemma WriterPicks(s: State, order: seq<Target>)
    requires WriterOk(s) && Enabled(s, Picks(WRITER, order))
    ensures WriterOk(Next(s, Picks(WRITER, order)))
  {
    var ops := s.threads[WRITER].ops;
    var p := Pass(ops[0].message, |s.history|, Sessions(s.reg, ops[0].message.clientId), order, [], []);
    AfterPick(s.passes, ops, s.messages.got, From(s.disconnect.put, WRITER), p);
  }

  lemma WriterTries(s: State, ok: bool)
    requires Shaped(s.threads) && WriterOk(s) && Enabled(s, Tries(WRITER, ok))
    ensures WriterOk(Next(s, Tries(WRITER, ok)))
  {
    assert ThreadOk(WRITER, s.threads[WRITER]);
    assert Allowed(WRITER, First(s, WRITER));
    WriterTried(s, ok);
  }

  lemma WriterTried(s: State, ok: bool)
    requires WriterOk(s) && Ready(s, WRITER) && First(s, WRITER).Write? && s.passes != []
    ensures WriterOk(Tried(s, WRITER, ok))
  {
    AfterTry(s.passes, s.threads[WRITER].ops, s.messages.got, From(s.disconnect.put, WRITER), ok);
  }

  lemma WriterPushes(s: State)
    requires Shaped(s.threads) && WriterOk(s) && Enabled(s, Runs(WRITER))
    ensures WriterOk(Next(s, Runs(WRITER)))
  {
    var ops := s.threads[WRITER].ops;
    assert ThreadOk(WRITER, s.threads[WRITER]);
    assert Allowed(WRITER, ops[0]);
    assert Ran(s, WRITER) == Advance(s, WRITER, ops[1..]).(disconnect := Put(s.disconnect, Gone(ops[0].c, WRITER)));
    AfterPush(s.passes, ops, s.messages.got, From(s.disconnect.put, WRITER));
    FromPut(s.disconnect.put, Gone(ops[0].c, WRITER), WRITER);
  }

  /** Nothing the writer's record depends on changes in a step of another thread. */
  lemma Untouched(s: State, l: Label)
    requires Shaped(s.threads) && Enabled(s, l) && !StepOf(l, WRITER)
    ensures Next(s, l).passes == s.passes
    ensures Next(s, l).messages.got == s.messages.got
    ensures |Next(s, l).threads| >= 3 && Next(s, l).threads[WRITER] == s.threads[WRITER]
    ensures From(Next(s, l).disconnect.put, WRITER) == From(s.disconnect.put, WRITER)
  {
    if l.Picks? || l.Tries? || l.Runs? {
      assert ThreadOk(l.i, s.threads[l.i]);
      assert Allowed(l.i, First(s, l.i));
      if l.Runs? && First(s, l.i).Push? {
        FromPut(s.disconnect.put, Gone(First(s, l.i).c, l.i), WRITER);
      }
    }
  }

  lemma NextWriterOk(s: State, l: Label)
    requires Shaped(s.threads) && WriterOk(s) && Enabled(s, l)
    ensures WriterOk(Next(s, l))
  {
    if !StepOf(l, WRITER) {
      Untouched(s, l);
    } else {
      var ops := s.threads[WRITER].ops;
      assert ThreadOk(WRITER, s.threads[WRITER]);
      assert ops != [] ==> Allowed(WRITER, ops[0]);
      match l
      case TakesMessage => WriterTakes(s);
      case Picks(_, order) => WriterPicks(s, order);
      case Tries(_, ok) => WriterTries(s, ok);
      case Runs(_) => WriterPushes(s);
      case _ =>
    }
  }

  // ---- whose sessions a pass attempts ----

  /** The map of the pass is what the registry held for the id of its message when the pass
      was begun, `p.at` writing sections into the history. */
  ghost predicate Snapshot(keying: Keying, history: seq<Op>, p: Pass) {
    && p.at <= |history|
    && p.conns == Sessions(Replay(keying, history[..p.at]), p.message.clientId)
  }

  ghost predicate Snapshots(keying: Keying, history: seq<Op>, passes: seq<Pass>) {
    && (forall k :: 0 <= k < |passes| ==> Snapshot(keying, history, passes[k]))
    && (forall j, k :: 0 <= j < k < |passes| ==> passes[j].at <= passes[k].at)
  }

  lemma SnapshotsStay(keying: Keying, history: seq<Op>, op: Op, passes: seq<Pass>)
    requires Snapshots(keying, history, passes)
    ensures Snapshots(keying, history + [op], passes)
  {
    forall k | 0 <= k < |passes| ensures Snapshot(keying, history + [op], passes[k]) {
      assert Snapshot(keying, history, passes[k]);
      assert (history + [op])[..passes[k].at] == history[..passes[k].at];
    }
  }

  lemma SnapshotsRecord(keying: Keying, history: seq<Op>, passes: seq<Pass>, t: Target, ok: bool)
    requires Snapshots(keying, history, passes) && passes != []
    ensures Snapshots(keying, history, passes[|passes| - 1 := Record(passes[|passes| - 1], t, ok)])
  {
    assert Snapshot(keying, history, passes[|passes| - 1]);
  }

  /** Whatever changes in the registry during a pass or after it, the sessions it attempts are
      those that its message's id had when it was begun. */
  lemma NextSnapshots(s: State, l: Label)
    requires |s.threads| >= 3 && Serial(s) && Enabled(s, l)
    requires Snapshots(s.keying, s.history, s.passes)
    ensures Snapshots(s.keying, Next(s, l).history, Next(s, l).passes)
  {
    if l.Picks? {
      assert s.history[..|s.history|] == s.history;
    } else if l.Tries? && First(s, l.i).Write? {
      SnapshotsRecord(s.keying, s.history, s.passes, First(s, l.i).target, l.ok);
    } else if l.Runs? && First(s, l.i).Change? {
      SnapshotsStay(s.keying, s.history, First(s, l.i).op, s.passes);
    }
  }
}
