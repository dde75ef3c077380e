/**
  What the worker of Worker.dfy gets done: queued tasks are taken in posting order
  and started once no request is left; none is ever stuck in the queue, no request
  goes unanswered, and a stop comes to its end.
*/
module Progress {
  import opened Worker

  // ------------------------------------------------------------------
  // Taking and starting a task
  // ------------------------------------------------------------------

  /** The worker that wakes with tasks queued holds the oldest of them, and the others stay queued. */
  lemma {:induction false} OldestTaken(run: seq<Action>, w: nat)
    requires Exec(Initial(), run).Some? && Enabled(Exec(Initial(), run).value, Wake(w))
    ensures var s := Exec(Initial(), run).value; var s' := Apply(s, Wake(w));
      && Current(s) == []
      && (s.queue != [] ==> !s.stop && |Current(s')| == 1 && Current(s') + s'.queue == s.queue)
      && forall t :: t in s.queue ==> Current(s')[0] <= t
  {
    hide Inv, Exec, Enabled;
    InvOfRuns(run);
    NoneStuck(run);
    WakeTakes(Exec(Initial(), run).value, w);
  }

  lemma {:induction false} WakeTakes(s: State, w: nat)
    requires Inv(s) && QueueWatched(s) && Enabled(s, Wake(w))
    ensures var s' := Apply(s, Wake(w));
      && Current(s) == []
      && (s.queue != [] ==> !s.stop && |Current(s')| == 1 && Current(s') + s'.queue == s.queue)
      && forall t :: t in s.queue ==> Current(s')[0] <= t
  {
    hide TasksKept, RequestsSafe, PhasesAgree;
    OthersExited(s, w);
    OldestFirst(s);
    if s.queue != [] {
      assert s.queue == [s.queue[0]] + s.queue[1..];
    }
  }

  lemma {:induction false} OldestFirst(s: State)
    requires TasksKept(s)
    ensures forall t :: t in s.queue ==> s.queue[0] <= t
  {
    hide Current;
    forall t | t in s.queue ensures s.queue[0] <= t {
      var i :| 0 <= i < |s.queue| && s.queue[i] == t;
      var k := |s.reported + Current(s)|;
      assert Timeline(s)[k] == s.queue[0] && Timeline(s)[k + i] == s.queue[i];
    }
  }

  /** A step that puts the worker into a task, for the first time or again, finds no request queued. */
  lemma {:induction false} StartsUnasked(s: State, a: Action, w: nat)
    requires Enabled(s, a) && w < |s.workers| && !s.workers[w].Working?
    requires w < |Apply(s, a).workers| && Apply(s, a).workers[w].Working?
    ensures a == Serve(w) && s.requests == [] && s.workers[w] in {
      Serving(Between(Some(Apply(s, a).workers[w].task))), Serving(InTask(Apply(s, a).workers[w].task))}
  {
  }

  // ------------------------------------------------------------------
  // No task is stuck
  // ------------------------------------------------------------------

  /** Tasks are queued only while a worker lives that will look at them. */
  predicate QueueWatched(s: State) {
    s.queue != [] ==>
      !s.stop && s.thread.Some? && s.thread.value < |s.workers| && Lively(s.workers[s.thread.value])
  }

  lemma {:induction false} WatchedStep(s: State, a: Action)
    requires Inv(s) && QueueWatched(s) && Enabled(s, a)
    ensures QueueWatched(Apply(s, a))
  {
    hide TasksKept, RequestsSafe;
    if WorkerOf(a) != None {
      OthersExited(s, WorkerOf(a).value);
    }
  }

  lemma {:induction false} NoneStuck(run: seq<Action>)
    requires Exec(Initial(), run).Some?
    ensures QueueWatched(Exec(Initial(), run).value)
    decreases |run|
  {
    hide Inv, QueueWatched;
    if run == [] {
      NothingQueued();
    } else {
      NoneStuck(run[..|run| - 1]);
      InvOfRuns(run[..|run| - 1]);
      WatchedStep(Exec(Initial(), run[..|run| - 1]).value, run[|run| - 1]);
    }
  }

  lemma {:induction false} NothingQueued()
    ensures QueueWatched(Initial())
  {
  }

  /** Steps of worker w alone. */
  predicate Alone(run: seq<Action>, w: nat) {
    forall i :: 0 <= i < |run| ==> WorkerOf(run[i]) == Some(w)
  }

  /** The worker w alone gets from s to t. */
  predicate Gets(s: State, run: seq<Action>, w: nat, t: State) {
    Alone(run, w) && Exec(s, run) == Some(t) && Inv(t)
  }

  lemma {:induction false} ExecAppend(s: State, a: seq<Action>, b: seq<Action>)
    requires Exec(s, a).Some?
    ensures Exec(s, a + b) == Exec(Exec(s, a).value, b)
    decreases |b|
  {
    hide Apply, Enabled;
    if b == [] {
      assert a + b == a;
    } else {
      ExecAppend(s, a, b[..|b| - 1]);
      assert (a + b)[..|a + b| - 1] == a + b[..|b| - 1];
    }
  }

  lemma {:induction false} Then(s: State, a: seq<Action>, w: nat, m: State, b: seq<Action>, t: State)
    requires Gets(s, a, w, m) && Gets(m, b, w, t)
    ensures Gets(s, a + b, w, t)
  {
    hide Inv, Exec;
    ExecAppend(s, a, b);
  }

  lemma {:induction false} OneStep(s: State, a: Action, w: nat)
    requires Inv(s) && Enabled(s, a) && WorkerOf(a) == Some(w)
    ensures Gets(s, [a], w, Apply(s, a))
  {
    hide Inv, Apply, Enabled;
    InvStep(s, a);
    assert [a][..0] == [];
    ExecOne(s, a);
  }

  lemma {:induction false} ExecOne(s: State, a: Action)
    requires Enabled(s, a)
    ensures Exec(s, [a]) == Some(Apply(s, a))
  {
    hide Apply, Enabled;
    assert [a][..|[a]| - 1] == [];
  }

  /** Where worker w called service_requests from, while it is in there. */
  function PlaceOf(pc: Pc): Option<Place> {
    match pc
    case Serving(at) => Some(at)
    case Claimed(at, _) => Some(at)
    case Ran(at, _) => Some(at)
    case _ => None
  }

  /** How many steps service_requests still takes. */
  function Left(s: State, w: nat): nat
    requires w < |s.workers|
  {
    3 * |s.requests| + if s.workers[w].Claimed? then 2 else if s.workers[w].Ran? then 1 else 0
  }

  /** The tasks are where they were. */
  predicate SameTasks(s: State, t: State) {
    t.queue == s.queue && t.reported == s.reported && t.stop == s.stop && t.thread == s.thread
  }

  /** service_requests returns, and every request has been taken by then. */
  lemma {:induction false} Served(s: State, w: nat) returns (run: seq<Action>, t: State)
    requires Inv(s) && w < |s.workers| && PlaceOf(s.workers[w]).Some?
    ensures Gets(s, run, w, t) && SameTasks(s, t)
    ensures t.requests == [] && w < |t.workers| && t.workers[w] == AfterServing(PlaceOf(s.workers[w]).value)
    ensures s.signalled <= t.signalled && forall c :: c in s.requests || Holds(s, w, c) ==> c in t.signalled
    decreases Left(s, w)
  {
    hide Inv, Exec, Gets, AfterServing;
    var a := if s.workers[w].Claimed? then RunBody(w) else if s.workers[w].Ran? then Signal(w) else Serve(w);
    BodyKnown(s, w);
    OneStep(s, a, w);
    var m := Apply(s, a);
    GetsInv(s, [a], w, m);
    if s.workers[w].Serving? && s.requests == [] {
      run, t := [a], m;
    } else {
      var rest;
      rest, t := Served(m, w);
      run := [a] + rest;
      Then(s, [a], w, m, rest, t);
    }
  }

  lemma {:induction false} BodyKnown(s: State, w: nat)
    requires Inv(s) && w < |s.workers|
    ensures s.workers[w].Claimed? ==> s.workers[w].req < |s.runs|
  {
    assert Held(s, w);
  }

  lemma {:induction false} GetsInv(s: State, run: seq<Action>, w: nat, t: State)
    requires Gets(s, run, w, t)
    ensures Inv(t)
  {
  }

  /** A task the worker holds is reported next. */
  lemma {:induction false} Finished(s: State, w: nat) returns (run: seq<Action>, t: State)
    requires Inv(s) && s.thread == Some(w) && w < |s.workers| && |TaskOf(s.workers[w])| == 1
    ensures Gets(s, run, w, t) && t.thread == s.thread && t.stop == s.stop && t.queue == s.queue
    ensures t.reported == s.reported + TaskOf(s.workers[w]) && w < |t.workers| && t.workers[w] == Idle
  {
    hide Inv, Exec, Gets;
    run, t := [], s;
    Nowhere(s, w);
    if PlaceOf(s.workers[w]).Some? {
      run, t := Served(s, w);
      GetsInv(s, run, w, t);
    }
    OneStep(t, Report(w, true), w);
    Then(s, run, w, t, [Report(w, true)], Apply(t, Report(w, true)));
    run, t := run + [Report(w, true)], Apply(t, Report(w, true));
  }

  lemma {:induction false} Nowhere(s: State, w: nat)
    requires Inv(s)
    ensures Gets(s, [], w, s)
  {
    hide Inv;
  }

  /** With tasks queued and none held, the oldest is taken next. */
  lemma {:induction false} Taken(s: State, w: nat) returns (run: seq<Action>, t: State)
    requires Inv(s) && s.thread == Some(w) && w < |s.workers| && Lively(s.workers[w]) && !s.stop
    requires TaskOf(s.workers[w]) == [] && s.queue != []
    ensures Gets(s, run, w, t) && t.thread == s.thread && !t.stop && t.reported == s.reported
    ensures w < |t.workers| && TaskOf(t.workers[w]) == [s.queue[0]] && t.queue == s.queue[1..]
  {
    hide Inv, Exec, Gets;
    run, t := [], s;
    Nowhere(s, w);
    if PlaceOf(s.workers[w]).Some? {
      run, t := Served(s, w);
      GetsInv(s, run, w, t);
    }
    OneStep(t, Wake(w), w);
    Then(s, run, w, t, [Wake(w)], Apply(t, Wake(w)));
    run, t := run + [Wake(w)], Apply(t, Wake(w));
  }

  /** The k tasks at the front of the queue are reported. */
  lemma {:induction false} Reported(s: State, w: nat, k: nat) returns (run: seq<Action>, t: State)
    requires Inv(s) && s.thread == Some(w) && w < |s.workers| && Lively(s.workers[w]) && !s.stop && k <= |s.queue|
    ensures Gets(s, run, w, t) && t.thread == Some(w) && w < |t.workers| && Lively(t.workers[w]) && !t.stop
    ensures t.queue == s.queue[k..]
    ensures t.reported == s.reported + (if k > 0 then TaskOf(s.workers[w]) else []) + s.queue[..k]
    ensures if k > 0 then t.workers[w] == Idle else t == s
    decreases k
  {
    hide Inv, Exec, Gets;
    run, t := [], s;
    Nowhere(s, w);
    if k > 0 {
      var a, m := HandsFree(s, w);
      GetsInv(s, a, w, m);
      var b, m' := Taken(m, w);
      GetsInv(m, b, w, m');
      var c, m'' := Finished(m', w);
      GetsInv(m', c, w, m'');
      Then(s, a, w, m, b, m');
      Then(s, a + b, w, m', c, m'');
      var rest;
      rest, t := Reported(m'', w, k - 1);
      Then(s, a + b + c, w, m'', rest, t);
      run := a + b + c + rest;
    }
  }

  /** The worker reports what it holds, if anything. */
  lemma {:induction false} HandsFree(s: State, w: nat) returns (run: seq<Action>, t: State)
    requires Inv(s) && s.thread == Some(w) && w < |s.workers| && Lively(s.workers[w])
    ensures Gets(s, run, w, t) && t.thread == s.thread && t.stop == s.stop && t.queue == s.queue
    ensures t.reported == s.reported + TaskOf(s.workers[w])
    ensures w < |t.workers| && Lively(t.workers[w]) && TaskOf(t.workers[w]) == []
  {
    hide Inv, Exec, Gets;
    if TaskOf(s.workers[w]) == [] {
      run, t := [], s;
      Nowhere(s, w);
    } else {
      run, t := Finished(s, w);
    }
  }

  /**
    In every reachable state, whatever is stopped, starting or waiting: a queued task is reported after
    steps of the worker alone, behind what was reported before, the task at work and those queued before it.
  */
  lemma {:induction false} TaskReported(run: seq<Action>, i: nat) returns (w: nat, more: seq<Action>)
    requires Exec(Initial(), run).Some? && i < |Exec(Initial(), run).value.queue|
    ensures Alone(more, w) && Exec(Initial(), run + more).Some?
    ensures var s := Exec(Initial(), run).value; var t := Exec(Initial(), run + more).value;
      t.reported == s.reported + Current(s) + s.queue[..i + 1] && t.queue == s.queue[i + 1..]
  {
    hide Exec, Inv;
    var s := Exec(Initial(), run).value;
    InvOfRuns(run);
    NoneStuck(run);
    w := s.thread.value;
    var t;
    more, t := Reported(s, w, i + 1);
    ExecAppend(Initial(), run, more);
  }

  lemma {:induction false} SameCalls(s: State, run: seq<Action>, w: nat)
    requires Exec(s, run).Some? && Alone(run, w)
    ensures Exec(s, run).value.calls == s.calls && Exec(s, run).value.joining == s.joining
    decreases |run|
  {
    if run != [] {
      SameCalls(s, run[..|run| - 1], w);
    }
  }

  /** A worker that is not in service_requests gets there while requests are queued. */
  lemma {:induction false} Entered(s: State, w: nat) returns (run: seq<Action>, t: State)
    requires Inv(s) && s.thread == Some(w) && w < |s.workers| && s.requests != []
    requires s.workers[w] != Closing && s.workers[w] != Leaving && s.workers[w] != Exited
    ensures Gets(s, run, w, t) && t.requests == s.requests && w < |t.workers| && PlaceOf(t.workers[w]).Some?
    decreases s.workers[w] == Init
  {
    hide Inv, Exec, Gets;
    if PlaceOf(s.workers[w]).Some? {
      Nowhere(s, w);
      run, t := [], s;
    } else {
      var a := if s.workers[w] == Init then Announce(w) else if s.workers[w] == Idle then Wake(w) else ServeInTask(w);
      OneStep(s, a, w);
      var m := Apply(s, a);
      GetsInv(s, [a], w, m);
      var rest;
      if s.workers[w] == Init {
        rest, t := Entered(m, w);
        Then(s, [a], w, m, rest, t);
        run := [a] + rest;
      } else {
        run, t := [a], m;
      }
    }
  }

  lemma {:induction false} CallerWaits(s: State, c: nat)
    requires Inv(s) && c in s.requests
    ensures c < |s.calls| && s.calls[c].Waiting? && s.thread == Some(s.calls[c].thread)
    ensures var w := s.calls[c].thread;
      w < |s.workers| && s.workers[w] != Closing && s.workers[w] != Leaving && s.workers[w] != Exited
  {
    hide Held, TasksKept, Distinct, RanBy;
  }

  /** In every reachable state a queued request is answered after steps of the worker alone. */
  lemma {:induction false} CallAnswered(run: seq<Action>, c: nat) returns (w: nat, more: seq<Action>)
    requires Exec(Initial(), run).Some? && c in Exec(Initial(), run).value.requests
    ensures Alone(more, w) && Exec(Initial(), run + more).Some?
    ensures Enabled(Exec(Initial(), run + more).value, CallDone(c))
  {
    hide Exec, Inv;
    var s := Exec(Initial(), run).value;
    InvOfRuns(run);
    CallerWaits(s, c);
    w := s.calls[c].thread;
    var a, m := Entered(s, w);
    var b, t := Served(m, w);
    Then(s, a, w, m, b, t);
    more := a + b;
    SameCalls(s, more, w);
    ExecAppend(Initial(), run, more);
  }

  // ------------------------------------------------------------------
  // A stop comes to its end
  // ------------------------------------------------------------------

  /** How far the worker is from its end. */
  function Remaining(pc: Pc): nat {
    match PlaceOf(pc)
    case Some(at) => if at == Final then 3 else 6
    case None =>
      match pc
      case Init => 7
      case Working(_) => 5
      case Idle => 4
      case Closing => 2
      case Leaving => 1
      case _ => 0
  }

  /** The step outside service_requests that brings it nearer. */
  function Onward(pc: Pc, w: nat): Action {
    match pc
    case Init => Announce(w)
    case Working(_) => Report(w, true)
    case Closing => Close(w)
    case Leaving => Exit(w)
    case _ => Wake(w)
  }

  lemma {:induction false} Ended(s: State, w: nat) returns (run: seq<Action>, t: State)
    requires Inv(s) && s.stop && w < |s.workers|
    ensures Gets(s, run, w, t) && At(t, w, Exited)
    decreases Remaining(s.workers[w])
  {
    hide Inv, Exec, Gets;
    if s.workers[w] == Exited {
      Nowhere(s, w);
      run, t := [], s;
    } else {
      var m;
      if PlaceOf(s.workers[w]).Some? {
        run, m := Served(s, w);
      } else {
        run, m := [Onward(s.workers[w], w)], Apply(s, Onward(s.workers[w], w));
        OneStep(s, Onward(s.workers[w], w), w);
      }
      GetsInv(s, run, w, m);
      var rest;
      rest, t := Ended(m, w);
      Then(s, run, w, m, rest, t);
      run := run + rest;
    }
  }

  /** In every reachable state with the stop flag up, the worker ends after steps of its own, and whoever waits for it returns. */
  lemma {:induction false} StopReturns(run: seq<Action>, w: nat) returns (more: seq<Action>)
    requires Exec(Initial(), run).Some? && Exec(Initial(), run).value.stop && w < |Exec(Initial(), run).value.workers|
    ensures Alone(more, w) && Exec(Initial(), run + more).Some?
    ensures At(Exec(Initial(), run + more).value, w, Exited)
    ensures w in Exec(Initial(), run).value.joining ==> Enabled(Exec(Initial(), run + more).value, StopEnd(w))
  {
    hide Exec, Inv;
    InvOfRuns(run);
    var t;
    more, t := Ended(Exec(Initial(), run).value, w);
    SameCalls(Exec(Initial(), run).value, more, w);
    ExecAppend(Initial(), run, more);
  }

  /** Tasks and requests are taken. */
  predicate Open(s: State) {
    Enabled(s, Post) && Enabled(s, CallBegin)
  }

  /** A start leads to a backend that takes tasks and requests, and a stop that waited for the last worker to one that can be started. */
  lemma {:induction false} StartAndStop(run: seq<Action>, t: nat)
    requires Exec(Initial(), run).Some?
    ensures var s := Exec(Initial(), run).value;
      && (s.phase == Starting ==> s.thread.Some? && Enabled(s, Announce(s.thread.value)) && Open(Apply(s, Announce(s.thread.value))))
      && (Enabled(s, Start(true)) ==> Apply(s, Start(true)).phase == Starting)
      && (Enabled(s, StopEnd(t)) && s.thread == Some(t) ==> Enabled(Apply(s, StopEnd(t)), Start(true)))
      && (Enabled(s, StopBegin) && s.phase != Stopped ==> Apply(s, StopBegin).stop && Apply(s, StopBegin).queue == [])
  {
    hide Exec, TasksKept, RequestsSafe;
    InvOfRuns(run);
  }
}
