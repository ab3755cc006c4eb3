/** What holds of every state that a run of the server reaches. */
module Reachable {
  import opened Lists
  import opened Registry
  import opened History
  import opened Server
  import opened Safety
  import opened Delivery
  import opened Events
  import opened Disconnects
  import opened Sweeps
  import opened Handlers
  import opened Liveness

  ghost predicate Inv(s: State) {
    && Shaped(s.threads) && Excluded(s.threads)
    && Queued(s) && Serial(s) && WriterOk(s)
    && Snapshots(s.keying, s.history, s.passes)
    && AllFulfil(s) && SkipsOk(s) && PingsOk(s) && SweepsOk(s.keying, s.history, s.marks) && SweepFits(s)
    && HandlersOk(s) && LoopOk(s)
    && (forall instr :: Caused(instr) ==> Balanced(s, instr))
  }

  /** The empty server, with channels of any capacities from one on. */
  ghost predicate Initial(s: State) {
    && s.connect.cap >= 1 && s.disconnect.cap >= 1 && s.messages.cap >= 1
    && s == Start(s.keying, s.connect.cap, s.disconnect.cap, s.messages.cap)
  }

  lemma StartBalanced(s: State, instr: Instr)
    requires Initial(s) && Caused(instr)
    ensures Balanced(s, instr)
  {
    SumZero(Left(instr), s.threads);
  }

  lemma StartShape(s: State)
    requires Initial(s)
    ensures Shaped(s.threads) && Excluded(s.threads) && Queued(s) && Serial(s)
    ensures Snapshots(s.keying, s.history, s.passes) && SkipsOk(s)
    ensures SweepsOk(s.keying, s.history, s.marks)
  {
  }

  lemma StartSending(s: State)
    requires Initial(s)
    ensures WriterOk(s) && AllFulfil(s) && PingsOk(s) && SweepFits(s) && HandlersOk(s) && LoopOk(s)
  {
  }

  lemma StartInv(s: State)
    requires Initial(s)
    ensures Inv(s)
  {
    StartShape(s);
    StartSending(s);
    forall instr | Caused(instr) ensures Balanced(s, instr) {
      StartBalanced(s, instr);
    }
  }

  lemma NextInv(s: State, l: Label)
    requires Inv(s) && Enabled(s, l)
    ensures Inv(Next(s, l))
  {
    NextShaped(s, l);
    NextExcluded(s, l);
    NextQueued(s, l);
    NextSerial(s, l);
    NextWriterOk(s, l);
    NextSnapshots(s, l);
    NextFulfil(s, l);
    NextSkips(s, l);
    NextPings(s, l);
    NextSweeps(s, l);
    NextFits(s, l);
    NextHandlers(s, l);
    NextLoop(s, l);
    forall instr | Caused(instr) ensures Balanced(Next(s, l), instr) {
      NextBalanced(s, l, instr);
    }
  }

  lemma {:induction false} RunKeeps(s: State, labels: seq<Label>)
    requires Inv(s) && Possible(s, labels)
    ensures Inv(After(s, labels))
    ensures After(s, labels).keying == s.keying
    ensures s.history <= After(s, labels).history
    decreases |labels|
  {
    if labels != [] {
      NextInv(s, labels[0]);
      NextSerial(s, labels[0]);
      RunKeeps(Next(s, labels[0]), labels[1..]);
    }
  }

  lemma Reached(s: State, labels: seq<Label>)
    requires Initial(s) && Possible(s, labels)
    ensures Inv(After(s, labels)) && After(s, labels).keying == s.keying
  {
    StartInv(s);
    RunKeeps(s, labels);
  }

  lemma {:induction false} RunConcat(s: State, before: seq<Label>, more: seq<Label>)
    requires Possible(s, before + more)
    ensures Possible(s, before) && Possible(After(s, before), more)
    ensures After(s, before + more) == After(After(s, before), more)
    decreases |before|
  {
    if before == [] {
      assert before + more == more;
    } else {
      assert (before + more)[1..] == before[1..] + more;
      RunConcat(Next(s, before[0]), before[1..], more);
    }
  }

  lemma {:induction false} RunEveryConn(p: Conn -> bool, s: State, labels: seq<Label>)
    requires Inv(s) && EveryConn(p, s) && Possible(s, labels)
    requires forall l :: l in labels && l.Arrives? ==> p(l.c)
    ensures EveryConn(p, After(s, labels))
    decreases |labels|
  {
    if labels != [] {
      assert labels[0] in labels;
      NextInv(s, labels[0]);
      NextEveryConn(p, s, labels[0]);
      RunEveryConn(p, Next(s, labels[0]), labels[1..]);
    }
  }

  lemma ReachedSerial(s: State, labels: seq<Label>)
    requires Initial(s) && Possible(s, labels)
    ensures Serial(After(s, labels)) && After(s, labels).keying == s.keying
  {
    Reached(s, labels);
  }

  lemma ReachedShape(s: State, labels: seq<Label>)
    requires Initial(s) && Possible(s, labels)
    ensures Shaped(After(s, labels).threads) && HandlersOk(After(s, labels))
  {
    Reached(s, labels);
  }

  lemma ReachedHandlers(s: State, labels: seq<Label>)
    requires Initial(s) && Possible(s, labels)
    ensures var t := After(s, labels);
            Shaped(t.threads) && HandlersOk(t) && LoopOk(t)
  {
    Reached(s, labels);
  }

  lemma ReachedConns(p: Conn -> bool, s: State, labels: seq<Label>)
    requires Initial(s) && Possible(s, labels)
    requires forall l :: l in labels && l.Arrives? ==> p(l.c)
    ensures EveryConn(p, After(s, labels))
  {
    StartInv(s);
    StartEveryConn(p, s);
    RunEveryConn(p, s, labels);
  }

  lemma StartEveryConn(p: Conn -> bool, s: State)
    requires Initial(s)
    ensures EveryConn(p, s)
  {
  }

  /** The history of a later state extends that of an earlier one, and explains its registry. */
  lemma ReachedHistory(s: State, before: seq<Label>, more: seq<Label>)
    requires Initial(s) && Possible(s, before + more)
    ensures Possible(s, before)
    ensures var t, t' := After(s, before), After(s, before + more);
            Serial(t) && Serial(t') && t.keying == t'.keying == s.keying && t.history <= t'.history
  {
    RunConcat(s, before, more);
    Reached(s, before);
    RunKeeps(After(s, before), more);
  }

  // ---- the last step of a run ----

  lemma {:induction false} OneMore(s: State, labels: seq<Label>, l: Label)
    requires Possible(s, labels) && Enabled(After(s, labels), l)
    ensures Possible(s, labels + [l]) && After(s, labels + [l]) == Next(After(s, labels), l)
    decreases |labels|
  {
    if labels == [] {
      assert labels + [l] == [l];
    } else {
      assert (labels + [l])[1..] == labels[1..] + [l];
      OneMore(Next(s, labels[0]), labels[1..], l);
    }
  }

  lemma {:induction false} LastStep(s: State, labels: seq<Label>)
    requires Possible(s, labels) && labels != []
    ensures var n := |labels| - 1;
            && Possible(s, labels[..n]) && Enabled(After(s, labels[..n]), labels[n])
            && After(s, labels) == Next(After(s, labels[..n]), labels[n])
    decreases |labels|
  {
    var n := |labels| - 1;
    if n == 0 {
      assert labels[..n] == [] && labels[1..] == [];
    } else {
      LastStep(Next(s, labels[0]), labels[1..]);
      assert labels[..n][1..] == labels[1..][..n - 1];
    }
  }

  lemma Earlier(s: State, labels: seq<Label>, k: nat)
    requires Possible(s, labels) && k <= |labels|
    ensures Possible(s, labels[..k]) && Possible(After(s, labels[..k]), labels[k..])
    ensures After(After(s, labels[..k]), labels[k..]) == After(s, labels)
  {
    assert labels[..k] + labels[k..] == labels;
    RunConcat(s, labels[..k], labels[k..]);
  }
}
