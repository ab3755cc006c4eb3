/** `GetOnlineListBroadcast` (servers/rpcclient.go:132-174): one goroutine a server, a wait
    group, and a channel with room for one list a server. Goroutines proceed in any order;
    whether a call succeeds, and with what list, is given by `answers`. */
module Gather {
  import opened Lists

  datatype Answer = Failed | Replied(list: seq<string>)

  datatype Worker = Calling | Sending(list: seq<string>) | Ending | Done

  datatype Caller = Waiting | Receiving(i: nat) | Returned

  datatype State = State(
    answers: seq<Answer>,
    workers: seq<Worker>,
    channel: seq<seq<string>>,
    closed: bool,
    wg: int,
    caller: Caller,
    received: seq<seq<string>>,
    clientIdList: seq<string>)

  function Start(answers: seq<Answer>): State {
    State(answers, seq(|answers|, _ => Calling), [], false, |answers|, Waiting, [], [])
  }

  datatype Label = Replies(k: nat) | Sends(k: nat) | Ends(k: nat) | Waited | Receives | Returns

  predicate Enabled(s: State, l: Label) {
    match l
    case Replies(k) => k < |s.workers| && k < |s.answers| && s.workers[k].Calling?
    case Sends(k) => k < |s.workers| && s.workers[k].Sending? && |s.channel| < |s.answers|
    case Ends(k) => k < |s.workers| && s.workers[k].Ending?
    case Waited => s.caller.Waiting? && s.wg == 0
    case Receives => s.caller.Receiving? && s.caller.i <= |s.answers| && s.channel != []
    case Returns => s.caller.Receiving? && s.caller.i > |s.answers|
  }

  function Next(s: State, l: Label): State
    requires Enabled(s, l)
  {
    match l
    case Replies(k) =>
      s.(workers := s.workers[k := if s.answers[k].Failed? then Ending else Sending(s.answers[k].list)])
    case Sends(k) => s.(workers := s.workers[k := Ending], channel := s.channel + [s.workers[k].list])
    case Ends(k) => s.(workers := s.workers[k := Done], wg := s.wg - 1)
    case Waited => s.(caller := Receiving(1))
    case Receives =>
      s.(channel := s.channel[1..], received := s.received + [s.channel[0]],
         clientIdList := s.clientIdList + s.channel[0], caller := Receiving(s.caller.i + 1))
    case Returns => s.(closed := true, caller := Returned)
  }

  ghost predicate Possible(s: State, labels: seq<Label>)
    decreases |labels|
  {
    labels == [] || (Enabled(s, labels[0]) && Possible(Next(s, labels[0]), labels[1..]))
  }

  ghost function After(s: State, labels: seq<Label>): State
    requires Possible(s, labels)
    decreases |labels|
  {
    if labels == [] then s else After(Next(s, labels[0]), labels[1..])
  }

  // ---- what is conserved ----

  function Flatten(lists: seq<seq<string>>): seq<string> {
    if lists == [] then [] else Flatten(lists[..|lists| - 1]) + lists[|lists| - 1]
  }

  /** The lists of the calls that succeed, by server. */
  function Successes(answers: seq<Answer>): seq<seq<string>> {
    if answers == [] then []
    else (if answers[0].Replied? then [answers[0].list] else []) + Successes(answers[1..])
  }

  function Holds(w: Worker, a: Answer): seq<seq<string>> {
    match w
    case Calling => if a.Replied? then [a.list] else []
    case Sending(list) => [list]
    case _ => []
  }

  /** The lists not sent yet. */
  function Unsent(workers: seq<Worker>, answers: seq<Answer>): seq<seq<string>>
    requires |workers| == |answers|
  {
    if workers == [] then [] else Holds(workers[0], answers[0]) + Unsent(workers[1..], answers[1..])
  }

  function Running(workers: seq<Worker>): nat {
    if workers == [] then 0 else (if workers[0].Done? then 0 else 1) + Running(workers[1..])
  }

  /** Every successful list is still to be sent, in the channel, or received; the wait group
      counts the goroutines that are not done. */
  ghost predicate Conserved(s: State) {
    && |s.workers| == |s.answers|
    && s.wg == Running(s.workers)
    && |s.received| + |s.channel| + |Unsent(s.workers, s.answers)| == |Successes(s.answers)|
    && (forall x :: Count(s.received, x) + Count(s.channel, x) + Count(Unsent(s.workers, s.answers), x) ==
                    Count(Successes(s.answers), x))
  }

  ghost predicate Inv(s: State) {
    && Conserved(s)
    && s.clientIdList == Flatten(s.received)
    && (s.caller.Waiting? ==> s.received == [])
    && (s.caller.Receiving? ==> |s.received| + 1 == s.caller.i)
    && (!s.caller.Waiting? ==> s.wg == 0)
    && (s.caller.Returned? ==> |s.received| >= |s.answers|)
    && (s.closed ==> s.caller.Returned?)
  }

  lemma {:induction false} UnsentUpdate(workers: seq<Worker>, answers: seq<Answer>, k: nat, w: Worker, x: seq<string>)
    requires |workers| == |answers| && k < |workers|
    ensures Count(Unsent(workers[k := w], answers), x) + Count(Holds(workers[k], answers[k]), x) ==
            Count(Unsent(workers, answers), x) + Count(Holds(w, answers[k]), x)
    ensures |Unsent(workers[k := w], answers)| + |Holds(workers[k], answers[k])| ==
            |Unsent(workers, answers)| + |Holds(w, answers[k])|
  {
    var rest, rest' := Unsent(workers[1..], answers[1..]), Unsent(workers[k := w][1..], answers[1..]);
    CountAppend(Holds(workers[0], answers[0]), rest, x);
    CountAppend(Holds(workers[k := w][0], answers[0]), rest', x);
    if k == 0 {
      assert workers[0 := w][1..] == workers[1..];
    } else {
      assert workers[k := w][1..] == workers[1..][k - 1 := w];
      UnsentUpdate(workers[1..], answers[1..], k - 1, w, x);
    }
  }

  /** A goroutine goes on; `sent` is what it put in the channel. */
  lemma WorkerConserves(s: State, s': State, k: nat, w: Worker, sent: seq<seq<string>>)
    requires Conserved(s) && k < |s.workers|
    requires s'.answers == s.answers && s'.workers == s.workers[k := w] && s'.received == s.received
    requires s'.channel == s.channel + sent && Holds(s.workers[k], s.answers[k]) == sent + Holds(w, s.answers[k])
    requires s'.wg == Running(s'.workers)
    ensures Conserved(s')
  {
    forall x
      ensures Count(s'.received, x) + Count(s'.channel, x) + Count(Unsent(s'.workers, s'.answers), x) ==
              Count(Successes(s'.answers), x)
    {
      UnsentUpdate(s.workers, s.answers, k, w, x);
      CountAppend(s.channel, sent, x);
      CountAppend(sent, Holds(w, s.answers[k]), x);
    }
    UnsentUpdate(s.workers, s.answers, k, w, []);
  }

  lemma {:induction false} RunningUpdate(workers: seq<Worker>, k: nat, w: Worker)
    requires k < |workers|
    ensures Running(workers[k := w]) + (if workers[k].Done? then 0 else 1) ==
            Running(workers) + if w.Done? then 0 else 1
  {
    if k == 0 {
      assert workers[0 := w][1..] == workers[1..];
    } else {
      assert workers[k := w][1..] == workers[1..][k - 1 := w];
      RunningUpdate(workers[1..], k - 1, w);
    }
  }

  lemma {:induction false} StartUnsent(answers: seq<Answer>)
    ensures Unsent(Start(answers).workers, answers) == Successes(answers)
    ensures Running(Start(answers).workers) == |answers|
  {
    if answers != [] {
      assert Start(answers).workers[1..] == Start(answers[1..]).workers;
      StartUnsent(answers[1..]);
    }
  }

  lemma WorkerStep(s: State, l: Label)
    requires Conserved(s) && Enabled(s, l) && (l.Replies? || l.Sends? || l.Ends?)
    ensures Conserved(Next(s, l))
    ensures l.Ends? ==> s.wg > 0
  {
    var s' := Next(s, l);
    RunningUpdate(s.workers, l.k, s'.workers[l.k]);
    WorkerConserves(s, s', l.k, s'.workers[l.k], if l.Sends? then [s.workers[l.k].list] else []);
  }

  lemma ReceivesConserves(s: State)
    requires Conserved(s) && Enabled(s, Receives)
    ensures Conserved(Next(s, Receives))
  {
    var s' := Next(s, Receives);
    forall x
      ensures Count(s'.received, x) + Count(s'.channel, x) + Count(Unsent(s'.workers, s'.answers), x) ==
              Count(Successes(s'.answers), x)
    {
      CountAppend(s.received, [s.channel[0]], x);
    }
  }

  lemma NextInv(s: State, l: Label)
    requires Inv(s) && Enabled(s, l)
    ensures Inv(Next(s, l))
  {
    match l
    case Replies(k) => WorkerStep(s, l);
    case Sends(k) => WorkerStep(s, l);
    case Ends(k) => WorkerStep(s, l);
    case Receives =>
      ReceivesConserves(s);
      assert (s.received + [s.channel[0]])[..|s.received|] == s.received;
    case _ =>
  }

  lemma {:induction false} RunInv(s: State, labels: seq<Label>)
    requires Inv(s) && Possible(s, labels)
    ensures Inv(After(s, labels)) && After(s, labels).answers == s.answers
    decreases |labels|
  {
    if labels != [] {
      NextInv(s, labels[0]);
      RunInv(Next(s, labels[0]), labels[1..]);
    }
  }

  // ---- sends never block ----

  lemma {:induction false} SuccessesBound(answers: seq<Answer>)
    ensures |Successes(answers)| <= |answers|
    ensures |Successes(answers)| == |answers| <==> forall k :: 0 <= k < |answers| ==> answers[k].Replied?
  {
    if answers != [] {
      SuccessesBound(answers[1..]);
      assert answers[0].Replied? && (forall k :: 0 <= k < |answers[1..]| ==> answers[1..][k].Replied?)
             ==> forall k :: 0 <= k < |answers| ==> answers[k].Replied? by {
        assert answers == [answers[0]] + answers[1..];
      }
    }
  }

  lemma {:induction false} SendingIsUnsent(workers: seq<Worker>, answers: seq<Answer>, k: nat)
    requires |workers| == |answers| && k < |workers| && workers[k].Sending?
    ensures |Unsent(workers, answers)| >= 1
  {
    if k > 0 {
      SendingIsUnsent(workers[1..], answers[1..], k - 1);
    }
  }

  lemma RoomToSend(s: State, k: nat)
    requires Inv(s) && k < |s.workers| && s.workers[k].Sending?
    ensures Enabled(s, Sends(k))
  {
    SendingIsUnsent(s.workers, s.answers, k);
    SuccessesBound(s.answers);
  }

  /** In every reachable state a goroutine with a list finds room in the channel. */
  lemma SendsNeverBlock(answers: seq<Answer>, labels: seq<Label>, k: nat)
    requires Possible(Start(answers), labels)
    requires k < |After(Start(answers), labels).workers| && After(Start(answers), labels).workers[k].Sending?
    ensures Enabled(After(Start(answers), labels), Sends(k))
  {
    StartUnsent(answers);
    RunInv(Start(answers), labels);
    RoomToSend(After(Start(answers), labels), k);
  }

  // ---- how it ends ----

  ghost predicate Stuck(s: State) {
    forall l :: !Enabled(s, l)
  }

  lemma {:induction false} AllDone(workers: seq<Worker>, answers: seq<Answer>)
    requires |workers| == |answers|
    requires forall k :: 0 <= k < |workers| ==> workers[k].Done?
    ensures Running(workers) == 0 && Unsent(workers, answers) == []
  {
    if workers != [] {
      AllDone(workers[1..], answers[1..]);
    }
  }

  lemma WorkersAtEnd(s: State)
    requires Inv(s) && Stuck(s)
    ensures forall k :: 0 <= k < |s.workers| ==> s.workers[k].Done?
  {
    forall k | 0 <= k < |s.workers| ensures s.workers[k].Done? {
      assert !Enabled(s, Replies(k)) && !Enabled(s, Ends(k)) && !Enabled(s, Sends(k));
      if s.workers[k].Sending? {
        RoomToSend(s, k);
      }
    }
  }

  /** How often the servers that replied listed an id, all together. */
  function Listed(answers: seq<Answer>, id: string): nat {
    if answers == [] then 0
    else (if answers[0].Replied? then Count(answers[0].list, id) else 0) + Listed(answers[1..], id)
  }

  /** Lists are put one after the other. */
  lemma {:induction false} FlattenInOrder(a: seq<seq<string>>, list: seq<string>, b: seq<seq<string>>)
    ensures Flatten([]) == [] && Flatten([list]) == list && Flatten(a + b) == Flatten(a) + Flatten(b)
    decreases |b|
  {
    assert [list][..0] == [];
    if b == [] {
      assert a + b == a;
    } else {
      assert (a + b)[..|a + b| - 1] == a + b[..|b| - 1];
      FlattenInOrder(a, list, b[..|b| - 1]);
    }
  }

  lemma {:induction false} FlattenCounts(answers: seq<Answer>, id: string)
    ensures Count(Flatten(Successes(answers)), id) == Listed(answers, id)
  {
    if answers != [] {
      var rest := Successes(answers[1..]);
      FlattenCounts(answers[1..], id);
      if answers[0].Replied? {
        FlattenInOrder([answers[0].list], answers[0].list, rest);
        CountAppend(answers[0].list, Flatten(rest), id);
      } else {
        assert [] + rest == rest;
      }
    }
  }

  /** When no step is left every goroutine is done and every list was received, once, so the
      result holds each id as often as all those lists together, in any order; the caller has
      returned exactly when no call failed, and otherwise waits for one more. */
  lemma HowItEnds(answers: seq<Answer>, labels: seq<Label>)
    requires Possible(Start(answers), labels) && Stuck(After(Start(answers), labels))
    ensures var s := After(Start(answers), labels);
            && (forall k :: 0 <= k < |s.workers| ==> s.workers[k].Done?)
            && s.channel == []
            && multiset(s.received) == multiset(Successes(answers))
            && s.clientIdList == Flatten(s.received)
            && multiset(s.clientIdList) == multiset(Flatten(Successes(answers)))
            && (forall id :: Count(s.clientIdList, id) == Listed(answers, id))
            && (s.caller.Returned? <==> forall k :: 0 <= k < |answers| ==> answers[k].Replied?)
            && (!s.caller.Returned? ==> s.caller == Receiving(|Successes(answers)| + 1) && !s.closed)
  {
    StartUnsent(answers);
    RunInv(Start(answers), labels);
    var s := After(Start(answers), labels);
    WorkersAtEnd(s);
    AllDone(s.workers, s.answers);
    CallerAtEnd(s);
    AllReceived(s);
    SameIds(s.received, Successes(answers));
    forall id ensures Count(s.clientIdList, id) == Listed(answers, id) {
      CountIsMultiplicity(s.clientIdList, id);
      CountIsMultiplicity(Flatten(Successes(answers)), id);
      FlattenCounts(answers, id);
    }
  }

  lemma CallerAtEnd(s: State)
    requires Inv(s) && Stuck(s)
    requires Running(s.workers) == 0 && Unsent(s.workers, s.answers) == []
    ensures s.channel == [] && |s.received| == |Successes(s.answers)|
    ensures s.caller.Returned? <==> forall k :: 0 <= k < |s.answers| ==> s.answers[k].Replied?
    ensures !s.caller.Returned? ==> s.caller == Receiving(|Successes(s.answers)| + 1)
  {
    assert !Enabled(s, Waited) && !Enabled(s, Receives) && !Enabled(s, Returns);
    SuccessesBound(s.answers);
  }

  lemma AllReceived(s: State)
    requires Conserved(s) && s.channel == [] && Unsent(s.workers, s.answers) == []
    ensures multiset(s.received) == multiset(Successes(s.answers))
  {
    forall x ensures multiset(s.received)[x] == multiset(Successes(s.answers))[x] {
      CountIsMultiplicity(s.received, x);
      CountIsMultiplicity(Successes(s.answers), x);
    }
  }

  // ---- it ends ----

  function WorkerLeft(w: Worker): nat {
    match w
    case Calling => 3
    case Sending(_) => 2
    case Ending => 1
    case Done => 0
  }

  function WorkersLeft(workers: seq<Worker>): nat {
    if workers == [] then 0 else WorkerLeft(workers[0]) + WorkersLeft(workers[1..])
  }

  function CallerLeft(s: State): nat {
    match s.caller
    case Waiting => |s.answers| + 2
    case Receiving(i) => if i <= |s.answers| then |s.answers| + 2 - i else 1
    case Returned => 0
  }

  lemma {:induction false} WorkersLeftUpdate(workers: seq<Worker>, k: nat, w: Worker)
    requires k < |workers|
    ensures WorkersLeft(workers[k := w]) + WorkerLeft(workers[k]) == WorkersLeft(workers) + WorkerLeft(w)
  {
    if k == 0 {
      assert workers[0 := w][1..] == workers[1..];
    } else {
      assert workers[k := w][1..] == workers[1..][k - 1 := w];
      WorkersLeftUpdate(workers[1..], k - 1, w);
    }
  }

  lemma StepLeft(s: State, l: Label)
    requires Enabled(s, l)
    ensures WorkersLeft(Next(s, l).workers) + CallerLeft(Next(s, l)) < WorkersLeft(s.workers) + CallerLeft(s)
  {
    if l.Replies? || l.Sends? || l.Ends? {
      WorkersLeftUpdate(s.workers, l.k, Next(s, l).workers[l.k]);
    }
  }

  lemma {:induction false} RunLeft(s: State, labels: seq<Label>)
    requires Possible(s, labels)
    ensures |labels| <= WorkersLeft(s.workers) + CallerLeft(s)
    decreases |labels|
  {
    if labels != [] {
      StepLeft(s, labels[0]);
      RunLeft(Next(s, labels[0]), labels[1..]);
    }
  }

  lemma {:induction false} StartLeft(answers: seq<Answer>)
    ensures WorkersLeft(Start(answers).workers) == 3 * |answers|
  {
    if answers != [] {
      assert Start(answers).workers[1..] == Start(answers[1..]).workers;
      StartLeft(answers[1..]);
    }
  }

  /** No run is longer than four steps a server and two more, whatever the order. */
  lemma RunsAreShort(answers: seq<Answer>, labels: seq<Label>)
    requires Possible(Start(answers), labels)
    ensures |labels| <= 4 * |answers| + 2
  {
    RunLeft(Start(answers), labels);
    StartLeft(answers);
  }

  // ---- the result does not depend on the order ----

  /** `lists` without its element at `k`. */
  function Omit(lists: seq<seq<string>>, k: nat): seq<seq<string>>
    requires k < |lists|
  {
    lists[..k] + lists[k + 1..]
  }

  lemma OmitEarlier(lists: seq<seq<string>>, k: nat)
    requires k + 1 < |lists|
    ensures Omit(lists, k) == Omit(lists[..|lists| - 1], k) + [lists[|lists| - 1]]
  {
  }

  lemma FlattenOne(lists: seq<seq<string>>, last: seq<string>)
    ensures Flatten(lists + [last]) == Flatten(lists) + last
  {
    assert (lists + [last])[..|lists|] == lists;
  }

  lemma {:induction false} FlattenWithout(lists: seq<seq<string>>, k: nat)
    requires k < |lists|
    ensures multiset(Flatten(lists)) == multiset(lists[k]) + multiset(Flatten(Omit(lists, k)))
  {
    var n := |lists| - 1;
    var front, last := lists[..n], lists[n];
    assert lists == front + [last];
    FlattenOne(front, last);
    if k == n {
      assert Omit(lists, k) == front;
    } else {
      FlattenWithout(front, k);
      OmitEarlier(lists, k);
      FlattenOne(Omit(front, k), last);
    }
  }

  /** The ids in the result, with their multiplicities, are those of the successful lists
      taken together: any two orders of completion give the same ids equally often. */
  lemma {:induction false} SameIds(a: seq<seq<string>>, b: seq<seq<string>>)
    requires multiset(a) == multiset(b)
    ensures multiset(Flatten(a)) == multiset(Flatten(b))
    decreases |a|
  {
    assert |multiset(a)| == |a| && |multiset(b)| == |b|;
    if a != [] {
      var n := |a| - 1;
      assert a == a[..n] + [a[n]];
      assert a[n] in multiset(b);
      var k :| 0 <= k < |b| && b[k] == a[n];
      FlattenWithout(b, k);
      DropOne(b, k);
      assert multiset(a[..n]) + multiset{a[n]} == multiset(Omit(b, k)) + multiset{a[n]};
      Cancel(multiset(a[..n]), multiset(Omit(b, k)), a[n]);
      SameIds(a[..n], Omit(b, k));
    }
  }

  lemma Cancel<T>(a: multiset<T>, b: multiset<T>, x: T)
    requires a + multiset{x} == b + multiset{x}
    ensures a == b
  {
    assert a == (a + multiset{x}) - multiset{x};
    assert b == (b + multiset{x}) - multiset{x};
  }

  lemma DropOne<T>(s: seq<T>, k: nat)
    requires k < |s|
    ensures multiset(s) == multiset(s[..k] + s[k + 1..]) + multiset{s[k]}
  {
    assert s == s[..k] + [s[k]] + s[k + 1..];
  }
}
