/**
  The single-worker protocol of backend.cpp as a state machine: one step per
  critical section of g_lock, per blocking wait and per request body.  Any number
  of threads may post tasks, call the backend synchronously and stop it.

  Thread handles are numbered in creation order and not reused, waits do not fail
  and the 32-bit sequence counter does not wrap.
*/
module Worker {

  datatype Option<T> = None | Some(value: T)

  datatype Phase = Stopped | Starting | Running | Stopping

  /** Where the worker called service_requests from. */
  datatype Place = Between(item: Option<nat>) | InTask(task: nat) | Final

  /** What a worker thread is about to do. */
  datatype Pc =
    | Init                          // rover_init, then announce itself
    | Idle                          // wait on g_wake
    | Serving(at: Place)            // next iteration of service_requests
    | Claimed(at: Place, req: nat)  // popped a request, about to run its body
    | Ran(at: Place, req: nat)      // about to signal the request's event
    | Working(task: nat)            // inside run_task
    | Closing                       // rover_fini, then g_state = stopped
    | Leaving                       // about to return from the thread function
    | Exited                        // the thread handle is signalled

  /** An invocation of backend_call whose request was queued. */
  datatype Call = Waiting(thread: nat) | Returned(ok: bool)

  datatype State = State(
    phase: Phase,                   // g_state
    stop: bool,                     // g_stop
    thread: Option<nat>,            // g_thread
    lastSeq: nat,                   // g_seq
    queue: seq<nat>,                // g_queue, tasks by sequence number
    requests: seq<nat>,             // g_requests, by request number
    workers: seq<Pc>,
    calls: seq<Call>,
    runs: seq<nat>,                 // how often each request body ran
    signalled: set<nat>,            // requests whose event is set
    joining: multiset<nat>,         // backend_stop invocations waiting for a thread
    reported: seq<nat>,             // WM_APP_TASK_DONE, in order
    discarded: set<nat>)            // tasks dropped by backend_stop, or whose result could not be posted

  datatype Action =
    | Start(created: bool)
    | StopBegin
    | StopEnd(t: nat)
    | Post
    | CallBegin
    | CallDone(c: nat)
    | CallGone(c: nat)
    | Announce(w: nat)
    | Wake(w: nat)
    | Serve(w: nat)
    | RunBody(w: nat)
    | Signal(w: nat)
    | ServeInTask(w: nat)
    | Report(w: nat, told: bool)  // told: the message reaches the window
    | Close(w: nat)
    | Exit(w: nat)

  function Initial(): State {
    State(Stopped, false, None, 0, [], [], [], [], [], {}, multiset{}, [], {})
  }

  predicate At(s: State, w: nat, pc: Pc) {
    w < |s.workers| && s.workers[w] == pc
  }

  predicate Enabled(s: State, a: Action) {
    match a
    case Start(_) => s.phase == Stopped && s.thread == None
    case StopBegin => s.thread.Some?
    case StopEnd(t) => t in s.joining && At(s, t, Exited)
    case Post => s.phase == Running
    case CallBegin => s.phase == Running && s.thread.Some?
    case CallDone(c) => c < |s.calls| && s.calls[c].Waiting? && c in s.signalled
    case CallGone(c) =>
      c < |s.calls| && s.calls[c].Waiting? && c !in s.signalled && At(s, s.calls[c].thread, Exited)
    case Announce(w) => At(s, w, Init)
    case Wake(w) => At(s, w, Idle) && (s.stop || s.queue != [] || s.requests != [])
    case Serve(w) => w < |s.workers| && s.workers[w].Serving?
    case RunBody(w) => w < |s.workers| && s.workers[w].Claimed? && s.workers[w].req < |s.runs|
    case Signal(w) => w < |s.workers| && s.workers[w].Ran?
    case ServeInTask(w) => w < |s.workers| && s.workers[w].Working?
    case Report(w, _) => w < |s.workers| && s.workers[w].Working?
    case Close(w) => At(s, w, Closing)
    case Exit(w) => At(s, w, Leaving)
  }

  function Erase(q: seq<nat>, c: nat): (r: seq<nat>)
    ensures forall x :: x in r ==> x in q
  {
    if q == [] then [] else if q[0] == c then q[1..] else [q[0]] + Erase(q[1..], c)
  }

  /** Where service_requests returns to once it finds no request. */
  function AfterServing(at: Place): Pc {
    match at
    case Between(None) => Idle
    case Between(Some(t)) => Working(t)
    case InTask(t) => Working(t)
    case Final => Closing
  }

  function Apply(s: State, a: Action): State
    requires Enabled(s, a)
  {
    match a
    case Start(created) =>
      if created then
        s.(stop := false, phase := Starting, thread := Some(|s.workers|), workers := s.workers + [Init])
      else s.(stop := false)
    case StopBegin =>
      if s.phase == Stopped then s.(joining := s.joining + multiset{s.thread.value})
      else
        s.(phase := Stopping, stop := true, queue := [],
           discarded := s.discarded + (set t | t in s.queue),
           joining := s.joining + multiset{s.thread.value})
    case StopEnd(t) =>
      s.(thread := if s.thread == Some(t) then None else s.thread,
         phase := Stopped, stop := false, requests := [], joining := s.joining - multiset{t})
    case Post => s.(lastSeq := s.lastSeq + 1, queue := s.queue + [s.lastSeq + 1])
    case CallBegin =>
      s.(requests := s.requests + [|s.calls|], calls := s.calls + [Waiting(s.thread.value)], runs := s.runs + [0])
    case CallDone(c) => s.(calls := s.calls[c := Returned(true)])
    case CallGone(c) => s.(requests := Erase(s.requests, c), calls := s.calls[c := Returned(false)])
    case Announce(w) =>
      s.(phase := if s.phase == Starting then Running else s.phase, workers := s.workers[w := Idle])
    case Wake(w) =>
      if s.stop then s.(workers := s.workers[w := Serving(Final)])
      else if s.queue != [] then
        s.(queue := s.queue[1..], workers := s.workers[w := Serving(Between(Some(s.queue[0])))])
      else s.(workers := s.workers[w := Serving(Between(None))])
    case Serve(w) =>
      if s.requests == [] then s.(workers := s.workers[w := AfterServing(s.workers[w].at)])
      else
        s.(requests := s.requests[1..], workers := s.workers[w := Claimed(s.workers[w].at, s.requests[0])])
    case RunBody(w) =>
      var Claimed(at, c) := s.workers[w];
      s.(runs := s.runs[c := s.runs[c] + 1], workers := s.workers[w := Ran(at, c)])
    case Signal(w) =>
      s.(signalled := s.signalled + {s.workers[w].req}, workers := s.workers[w := Serving(s.workers[w].at)])
    case ServeInTask(w) => s.(workers := s.workers[w := Serving(InTask(s.workers[w].task))])
    case Report(w, told) =>
      if told then s.(reported := s.reported + [s.workers[w].task], workers := s.workers[w := Idle])
      else s.(discarded := s.discarded + {s.workers[w].task}, workers := s.workers[w := Idle])
    case Close(w) => s.(phase := Stopped, workers := s.workers[w := Leaving])
    case Exit(w) => s.(workers := s.workers[w := Exited])
  }

  // ------------------------------------------------------------------
  // Invariants of every run
  // ------------------------------------------------------------------

  /** The only worker that may be alive is the one g_thread refers to. */
  predicate OneWorker(s: State) {
    && (s.thread.Some? ==> s.thread.value < |s.workers|)
    && forall w :: 0 <= w < |s.workers| && s.workers[w] != Exited ==> s.thread == Some(w)
  }

  /** What the live worker has taken off the queue. */
  function Current(s: State): seq<nat> {
    if s.thread.Some? && s.thread.value < |s.workers| then TaskOf(s.workers[s.thread.value]) else []
  }

  function TaskOf(pc: Pc): seq<nat> {
    match pc
    case Working(t) => [t]
    case Serving(at) => TaskAt(at)
    case Claimed(at, _) => TaskAt(at)
    case Ran(at, _) => TaskAt(at)
    case _ => []
  }

  function TaskAt(at: Place): seq<nat> {
    match at
    case Between(Some(t)) => [t]
    case InTask(t) => [t]
    case _ => []
  }

  /** Reported tasks, then the running one, then the queued ones. */
  function Timeline(s: State): seq<nat> {
    s.reported + Current(s) + s.queue
  }

  predicate Increasing(q: seq<nat>) {
    forall i, j :: 0 <= i < j < |q| ==> q[i] < q[j]
  }

  /** Every posted task is reported, running, queued or discarded, in exactly one of these, in posting order. */
  predicate TasksKept(s: State) {
    && Increasing(Timeline(s))
    && (forall t :: t in Timeline(s) ==> 1 <= t <= s.lastSeq && t !in s.discarded)
    && (forall t :: t in s.discarded ==> 1 <= t <= s.lastSeq)
    && (forall t :: 1 <= t <= s.lastSeq ==> t in Timeline(s) || t in s.discarded)
  }

  predicate Distinct(q: seq<nat>) {
    forall i, j :: 0 <= i < j < |q| ==> q[i] != q[j]
  }

  /** Request c sits in the queue, untouched, for the current worker. */
  predicate Pending(s: State, c: nat) {
    c < |s.calls| == |s.runs| && s.calls[c].Waiting? && s.thread == Some(s.calls[c].thread) &&
    s.runs[c] == 0 && c !in s.signalled
  }

  /** What holds of the request a worker holds. */
  predicate Held(s: State, w: nat)
    requires w < |s.workers|
  {
    match s.workers[w]
    case Claimed(_, c) => Pending(s, c) && s.calls[c] == Waiting(w) && c !in s.requests
    case Ran(_, c) =>
      c < |s.calls| == |s.runs| && s.calls[c] == Waiting(w) && s.runs[c] == 1 && c !in s.requests && c !in s.signalled
    case _ => true
  }

  predicate RanBy(s: State, c: nat) {
    s.thread.Some? && s.thread.value < |s.workers| && s.workers[s.thread.value].Ran? && s.workers[s.thread.value].req == c
  }

  /** A request body runs at most once, and never once its call has returned. */
  predicate RequestsSafe(s: State) {
    && |s.runs| == |s.calls| && Distinct(s.requests)
    && (forall c :: c in s.requests ==> Pending(s, c))
    && (forall w :: 0 <= w < |s.workers| ==> Held(s, w))
    && (forall c :: c in s.signalled ==> c < |s.calls| && s.runs[c] == 1)
    && (forall c :: 0 <= c < |s.calls| ==> s.runs[c] == 0 || (s.runs[c] == 1 && (c in s.signalled || RanBy(s, c))))
    && (forall c :: 0 <= c < |s.calls| && s.calls[c] == Returned(true) ==> c in s.signalled)
    && (forall c :: 0 <= c < |s.calls| && s.calls[c] == Returned(false) ==> s.runs[c] == 0)
  }

  /** The worker is past its announcement and has not begun to shut down. */
  predicate Lively(pc: Pc) {
    match pc
    case Idle => true
    case Working(_) => true
    case Serving(at) => at != Final
    case Claimed(at, _) => at != Final
    case Ran(at, _) => at != Final
    case _ => false
  }

  /** Requests are accepted only while the worker will still look at them. */
  predicate PhasesAgree(s: State)
    requires OneWorker(s)
  {
    && (s.phase == Running ==> s.thread.Some? && !s.stop && Lively(s.workers[s.thread.value]))
    && (s.phase == Starting ==> s.thread.Some? && !s.stop && s.workers[s.thread.value] == Init)
    && (s.requests != [] && s.thread.Some? ==>
          var pc := s.workers[s.thread.value]; pc != Closing && pc != Leaving && pc != Exited)
  }

  predicate Inv(s: State) {
    OneWorker(s) && TasksKept(s) && RequestsSafe(s) && PhasesAgree(s)
  }

  lemma {:induction false} OneWorkerKept(s: State, a: Action)
    requires OneWorker(s) && Enabled(s, a)
    ensures OneWorker(Apply(s, a))
  {
  }

  /** A worker's step moves its task along the timeline without changing it. */
  lemma {:induction false} WorkerTimeline(s: State, a: Action, w: nat)
    requires OneWorker(s) && Enabled(s, a) && WorkerOf(a) == Some(w) && (a.Report? ==> a.told)
    ensures Timeline(Apply(s, a)) == Timeline(s)
  {
    var s' := Apply(s, a);
    assert s.workers[w] != Exited && s.thread == Some(w) == s'.thread;
    if a.Wake? && !s.stop && s.queue != [] {
      assert s.queue == [s.queue[0]] + s.queue[1..];
      assert Current(s) == [] && Current(s') == [s.queue[0]];
    } else if a.Report? {
      assert Current(s) == [s.workers[w].task] && Current(s') == [];
    } else {
      assert Current(s') == Current(s);
    }
  }

  function WorkerOf(a: Action): Option<nat> {
    match a
    case Announce(w) => Some(w)
    case Wake(w) => Some(w)
    case Serve(w) => Some(w)
    case RunBody(w) => Some(w)
    case Signal(w) => Some(w)
    case ServeInTask(w) => Some(w)
    case Report(w, _) => Some(w)
    case Close(w) => Some(w)
    case Exit(w) => Some(w)
    case _ => None
  }

  lemma {:induction false} ClientTimeline(s: State, a: Action)
    requires OneWorker(s) && Enabled(s, a) && WorkerOf(a) == None
    ensures var s' := Apply(s, a);
      Timeline(s') ==
        if a.Post? then Timeline(s) + [s.lastSeq + 1]
        else if a.StopBegin? && s.phase != Stopped then s.reported + Current(s)
        else Timeline(s)
  {
    var s' := Apply(s, a);
    assert Current(s') == Current(s);
  }

  lemma {:induction false} TasksStep(s: State, a: Action)
    requires OneWorker(s) && TasksKept(s) && Enabled(s, a)
    ensures TasksKept(Apply(s, a))
  {
    hide OneWorker, Increasing, Current;
    var s' := Apply(s, a);
    if a.Report? && !a.told {
      Unreported(s, a.w);
      DropOne(s.reported, s.workers[a.w].task, s.queue);
    } else if WorkerOf(a) != None {
      WorkerTimeline(s, a, WorkerOf(a).value);
    } else {
      ClientTimeline(s, a);
      if a.StopBegin? && s.phase != Stopped {
        DropQueue(s.reported + Current(s), s.queue);
      } else if a.Post? {
        PushTask(Timeline(s), s.lastSeq);
      }
    }
  }

  /** A result that cannot be posted takes its task off the timeline. */
  lemma {:induction false} Unreported(s: State, w: nat)
    requires OneWorker(s) && Enabled(s, Report(w, false))
    ensures Timeline(s) == s.reported + [s.workers[w].task] + s.queue
    ensures Timeline(Apply(s, Report(w, false))) == s.reported + s.queue
  {
    OthersExited(s, w);
    assert Current(s) == [s.workers[w].task] && Current(Apply(s, Report(w, false))) == [];
  }

  lemma {:induction false} DropOne(a: seq<nat>, x: nat, b: seq<nat>)
    requires Increasing(a + [x] + b)
    ensures Increasing(a + b) && x !in a + b
    ensures forall y :: y in a + [x] + b <==> y in a + b || y == x
  {
    var q := a + [x] + b;
    assert q[|a|] == x;
    forall i | 0 <= i < |a + b| ensures (a + b)[i] == q[if i < |a| then i else i + 1] && (a + b)[i] != x {
    }
  }

  lemma {:induction false} DropQueue(t: seq<nat>, q: seq<nat>)
    requires Increasing(t + q)
    ensures Increasing(t) && forall x :: x in t ==> x !in q && x in t + q
    ensures forall x :: x in t + q ==> x in t || x in q
  {
    forall i, j | 0 <= i < |t| && 0 <= j < |q| ensures t[i] < q[j] {
      assert (t + q)[i] == t[i] && (t + q)[|t| + j] == q[j];
    }
    forall i, j | 0 <= i < j < |t| ensures t[i] < t[j] {
      assert (t + q)[i] == t[i] && (t + q)[j] == t[j];
    }
  }

  lemma {:induction false} PushTask(t: seq<nat>, n: nat)
    requires Increasing(t) && forall x :: x in t ==> x <= n
    ensures Increasing(t + [n + 1])
    ensures forall x :: x in t + [n + 1] <==> x in t || x == n + 1
  {
    forall i | 0 <= i < |t| ensures t[i] < n + 1 {
      assert t[i] in t;
    }
  }

  lemma {:induction false} EraseDistinct(q: seq<nat>, c: nat)
    requires Distinct(q)
    ensures Distinct(Erase(q, c)) && c !in Erase(q, c)
    decreases |q|
  {
    if q != [] {
      forall i, j | 0 <= i < j < |q[1..]| ensures q[1..][i] != q[1..][j] {
        assert q[1..][i] == q[i + 1] && q[1..][j] == q[j + 1];
      }
      EraseDistinct(q[1..], c);
      if q[0] == c {
        assert forall i :: 1 <= i < |q| ==> q[i] != c;
      } else {
        assert forall x :: x in Erase(q[1..], c) ==> x in q[1..];
        assert q[0] !in q[1..];
      }
    }
  }

  lemma {:induction false} OthersExited(s: State, w: nat)
    requires OneWorker(s) && w < |s.workers| && s.workers[w] != Exited
    ensures s.thread == Some(w) && forall v :: 0 <= v < |s.workers| && v != w ==> s.workers[v] == Exited
  {
  }

  lemma {:induction false} RequestsServe(s: State, w: nat)
    requires OneWorker(s) && RequestsSafe(s) && Enabled(s, Serve(w))
    ensures RequestsSafe(Apply(s, Serve(w)))
  {
    OthersExited(s, w);
    var s' := Apply(s, Serve(w));
    if s.requests != [] {
      var c := s.requests[0];
      assert c in s.requests;
      forall i, j | 0 <= i < j < |s'.requests| ensures s'.requests[i] != s'.requests[j] {
        assert s'.requests[i] == s.requests[i + 1] && s'.requests[j] == s.requests[j + 1];
      }
      forall x | x in s'.requests ensures x in s.requests && x != c {
        var i :| 0 <= i < |s'.requests| && s'.requests[i] == x;
        assert s.requests[i + 1] == x;
      }
    }
  }

  lemma {:induction false} RequestsWorker(s: State, a: Action, w: nat)
    requires OneWorker(s) && RequestsSafe(s) && Enabled(s, a) && WorkerOf(a) == Some(w) && !a.Serve?
    ensures RequestsSafe(Apply(s, a))
  {
    OthersExited(s, w);
    var s' := Apply(s, a);
    assert Held(s, w);
  }

  lemma {:induction false} RequestsCallBegin(s: State)
    requires OneWorker(s) && RequestsSafe(s) && Enabled(s, CallBegin)
    ensures RequestsSafe(Apply(s, CallBegin))
  {
    var s', c := Apply(s, CallBegin), |s.calls|;
    forall i | 0 <= i < |s.requests| ensures s.requests[i] != c {
      assert s.requests[i] in s.requests;
    }
    forall w | 0 <= w < |s'.workers| ensures Held(s', w) {
      assert Held(s, w);
    }
  }

  lemma {:induction false} RequestsCallGone(s: State, c: nat)
    requires OneWorker(s) && RequestsSafe(s) && Enabled(s, CallGone(c))
    ensures RequestsSafe(Apply(s, CallGone(c)))
  {
    var s' := Apply(s, CallGone(c));
    EraseDistinct(s.requests, c);
    assert s.thread.Some? ==> Held(s, s.thread.value);
    forall w | 0 <= w < |s'.workers| ensures Held(s', w) {
      assert Held(s, w);
    }
  }

  lemma {:induction false} RequestsClient(s: State, a: Action)
    requires OneWorker(s) && RequestsSafe(s) && Enabled(s, a) && WorkerOf(a) == None && !a.CallBegin? && !a.CallGone?
    ensures RequestsSafe(Apply(s, a))
  {
    HeldClient(s, a);
    hide Held;
  }

  lemma {:induction false} HeldClient(s: State, a: Action)
    requires OneWorker(s) && RequestsSafe(s) && Enabled(s, a) && WorkerOf(a) == None && !a.CallBegin? && !a.CallGone?
    ensures var s' := Apply(s, a); forall w :: 0 <= w < |s'.workers| ==> Held(s', w)
  {
    hide Distinct, RanBy;
    var s' := Apply(s, a);
    forall w | 0 <= w < |s'.workers| ensures Held(s', w) {
      if w < |s.workers| {
        assert Held(s, w);
      }
    }
  }

  lemma {:induction false} RequestsStep(s: State, a: Action)
    requires OneWorker(s) && RequestsSafe(s) && Enabled(s, a)
    ensures RequestsSafe(Apply(s, a))
  {
    if a.Serve? {
      RequestsServe(s, a.w);
    } else if a.CallBegin? {
      RequestsCallBegin(s);
    } else if a.CallGone? {
      RequestsCallGone(s, a.c);
    } else if WorkerOf(a) != None {
      RequestsWorker(s, a, WorkerOf(a).value);
    } else {
      RequestsClient(s, a);
    }
  }

  lemma {:induction false} PhasesStep(s: State, a: Action)
    requires OneWorker(s) && PhasesAgree(s) && RequestsSafe(s) && Enabled(s, a) && OneWorker(Apply(s, a))
    ensures PhasesAgree(Apply(s, a))
  {
    hide RequestsSafe, PhasesAgree;
    if WorkerOf(a) != None {
      PhasesWorker(s, a, WorkerOf(a).value);
    } else {
      PhasesClient(s, a);
    }
  }

  lemma {:induction false} PhasesWorker(s: State, a: Action, w: nat)
    requires OneWorker(s) && PhasesAgree(s) && Enabled(s, a) && WorkerOf(a) == Some(w) && OneWorker(Apply(s, a))
    ensures PhasesAgree(Apply(s, a))
  {
    OthersExited(s, w);
  }

  lemma {:induction false} PhasesClient(s: State, a: Action)
    requires OneWorker(s) && PhasesAgree(s) && RequestsSafe(s) && Enabled(s, a) && WorkerOf(a) == None && OneWorker(Apply(s, a))
    ensures PhasesAgree(Apply(s, a))
  {
    hide Held, RanBy, Distinct;
    if s.requests != [] {
      assert s.requests[0] in s.requests;
    }
  }

  lemma {:induction false} InvStep(s: State, a: Action)
    requires Inv(s) && Enabled(s, a)
    ensures Inv(Apply(s, a))
  {
    OneWorkerKept(s, a);
    TasksStep(s, a);
    RequestsStep(s, a);
    PhasesStep(s, a);
  }

  // ------------------------------------------------------------------
  // Runs
  // ------------------------------------------------------------------

  /** The state after a sequence of steps, if every one of them could be taken. */
  function Exec(s: State, run: seq<Action>): Option<State> {
    if run == [] then Some(s)
    else
      match Exec(s, run[..|run| - 1])
      case None => None
      case Some(m) => if Enabled(m, run[|run| - 1]) then Some(Apply(m, run[|run| - 1])) else None
  }

  /**
    Over every interleaving: at most one worker is alive; every posted task is reported, running,
    queued or discarded, in exactly one of these ways; reports come in posting order; a request
    body runs at most once and never after its call has returned.
  */
  lemma {:induction false} InvOfRuns(run: seq<Action>)
    requires Exec(Initial(), run).Some?
    ensures Inv(Exec(Initial(), run).value)
    decreases |run|
  {
    if run != [] {
      InvOfRuns(run[..|run| - 1]);
      InvStep(Exec(Initial(), run[..|run| - 1]).value, run[|run| - 1]);
    }
  }

  /** In every run, whenever a worker is about to run a request body, its caller is still waiting and the body has not run. */
  lemma {:induction false} BodyBeforeReturn(run: seq<Action>, w: nat)
    requires Exec(Initial(), run).Some? && Enabled(Exec(Initial(), run).value, RunBody(w))
    ensures var s := Exec(Initial(), run).value;
      var c := s.workers[w].req;
      c < |s.calls| && s.calls[c] == Waiting(w) && s.runs[c] == 0
  {
    InvOfRuns(run);
    assert Held(Exec(Initial(), run).value, w);
  }

  lemma {:induction false} ReportsIncrease(s: State)
    requires Inv(s)
    ensures Increasing(s.reported) && forall t :: t in s.reported ==> t > 0
  {
    assert Timeline(s) == s.reported + (Current(s) + s.queue);
    DropQueue(s.reported, Current(s) + s.queue);
  }

  // ------------------------------------------------------------------
  // No request is lost
  // ------------------------------------------------------------------

  /** The request that worker w holds. */
  predicate Holds(s: State, w: nat, c: nat) {
    w < |s.workers| && (s.workers[w].Claimed? || s.workers[w].Ran?) && s.workers[w].req == c
  }

  /** Request c is queued, held by its worker, or done. */
  predicate Accounted(s: State, c: nat)
    requires c < |s.calls|
  {
    s.calls[c].Waiting? ==> c in s.requests || Holds(s, s.calls[c].thread, c) || c in s.signalled
  }

  predicate AllAccounted(s: State) {
    forall c :: 0 <= c < |s.calls| ==> Accounted(s, c)
  }

  /** A request is lost exactly when a backend_stop ends while another worker has requests queued. */
  lemma {:induction false} LossExactly(s: State, a: Action)
    requires Inv(s) && AllAccounted(s) && Enabled(s, a)
    ensures AllAccounted(Apply(s, a)) <==> !(a.StopEnd? && s.requests != [])
    ensures a.StopEnd? && s.requests != [] ==> s.thread.Some? && s.thread != Some(a.t)
  {
    var s' := Apply(s, a);
    if a.StopEnd? && s.requests != [] {
      var c := s.requests[0];
      assert c in s.requests && Pending(s, c) && Held(s, s.thread.value);
      assert !Accounted(s', c);
    } else {
      forall c | 0 <= c < |s'.calls| ensures Accounted(s', c) {
        AccountedStep(s, a, c);
      }
    }
  }

  lemma {:induction false} AccountedStep(s: State, a: Action, c: nat)
    requires Inv(s) && AllAccounted(s) && Enabled(s, a) && !(a.StopEnd? && s.requests != [])
    requires c < |Apply(s, a).calls|
    ensures Accounted(Apply(s, a), c)
  {
    hide TasksKept, RequestsSafe, OneWorker, PhasesAgree;
    if a.Serve? {
      AccountedServe(s, a.w, c);
    } else if WorkerOf(a) != None {
      AccountedWorker(s, a, WorkerOf(a).value, c);
    } else {
      AccountedClient(s, a, c);
    }
  }

  lemma {:induction false} AccountedServe(s: State, w: nat, c: nat)
    requires OneWorker(s) && RequestsSafe(s) && Enabled(s, Serve(w)) && c < |s.calls| && Accounted(s, c)
    ensures Accounted(Apply(s, Serve(w)), c)
  {
    hide Held, Distinct, RanBy;
    OthersExited(s, w);
    if s.requests != [] {
      assert s.requests == [s.requests[0]] + s.requests[1..];
      assert s.requests[0] in s.requests && Pending(s, s.requests[0]);
    }
  }

  lemma {:induction false} AccountedWorker(s: State, a: Action, w: nat, c: nat)
    requires OneWorker(s) && Enabled(s, a) && WorkerOf(a) == Some(w) && !a.Serve? && c < |s.calls| && Accounted(s, c)
    ensures Accounted(Apply(s, a), c)
  {
    OthersExited(s, w);
  }

  lemma {:induction false} AccountedClient(s: State, a: Action, c: nat)
    requires AllAccounted(s) && Enabled(s, a) && WorkerOf(a) == None && !(a.StopEnd? && s.requests != [])
    requires c < |Apply(s, a).calls|
    ensures Accounted(Apply(s, a), c)
  {
    if c < |s.calls| {
      assert Accounted(s, c);
      if a.CallGone? && c in s.requests && c != a.c {
        EraseKeeps(s.requests, a.c, c);
      }
    }
  }

  lemma {:induction false} EraseKeeps(q: seq<nat>, c: nat, x: nat)
    requires x in q && x != c
    ensures x in Erase(q, c)
    decreases |q|
  {
    if q[0] != c && q[0] != x {
      EraseKeeps(q[1..], c, x);
    }
  }

  /** No worker is started while a backend_stop is still waiting. */
  predicate Orderly(s: State, a: Action) {
    a.Start? ==> s.joining == multiset{}
  }

  predicate OrderlyRun(s: State, run: seq<Action>) {
    run == [] ||
    (var n := |run| - 1;
     OrderlyRun(s, run[..n]) && (Exec(s, run[..n]).Some? ==> Orderly(Exec(s, run[..n]).value, run[n])))
  }

  /** Everybody who waits for a thread waits for the latest one. */
  predicate LatestOnly(s: State) {
    (s.thread.Some? ==> s.thread.value + 1 == |s.workers|) && forall t :: t in s.joining ==> t + 1 == |s.workers|
  }

  /** Nothing is queued when backend_stop clears the request queue. */
  lemma {:induction false} StopClearsNothing(s: State, t: nat)
    requires Inv(s) && LatestOnly(s) && Enabled(s, StopEnd(t))
    ensures s.requests == []
  {
    if s.requests != [] {
      assert Pending(s, s.requests[0]) by { assert s.requests[0] in s.requests; }
    }
  }

  lemma {:induction false} OrderlyOfRuns(run: seq<Action>)
    requires Exec(Initial(), run).Some? && OrderlyRun(Initial(), run)
    ensures var s := Exec(Initial(), run).value; Inv(s) && LatestOnly(s) && AllAccounted(s)
    decreases |run|
  {
    InvOfRuns(run);
    if run != [] {
      var n := |run| - 1;
      OrderlyOfRuns(run[..n]);
      OrderlyStep(Exec(Initial(), run[..n]).value, run[n]);
    }
  }

  lemma {:induction false} OrderlyStep(s: State, a: Action)
    requires Inv(s) && LatestOnly(s) && AllAccounted(s) && Enabled(s, a) && Orderly(s, a)
    ensures LatestOnly(Apply(s, a)) && AllAccounted(Apply(s, a))
  {
    if a.StopEnd? {
      StopClearsNothing(s, a.t);
    }
    LossExactly(s, a);
    hide Inv, AllAccounted;
  }

  /**
    In every run without a start during a pending stop, each request that backend_call queued has run
    exactly once by the time its worker has exited, and backend_call never gives up on one.
  */
  lemma {:induction false} RequestsServed(run: seq<Action>, c: nat)
    requires Exec(Initial(), run).Some? && OrderlyRun(Initial(), run)
    requires c < |Exec(Initial(), run).value.calls|
    ensures var s := Exec(Initial(), run).value;
      && c < |s.runs|
      && (s.calls[c].Waiting? && At(s, s.calls[c].thread, Exited) ==> s.runs[c] == 1 && c in s.signalled)
      && !Enabled(s, CallGone(c))
      && (s.calls[c] == Returned(true) ==> s.runs[c] == 1)
  {
    OrderlyOfRuns(run);
    var s := Exec(Initial(), run).value;
    assert Accounted(s, c);
    if c in s.requests {
      assert Pending(s, c);
    }
  }

  /** Two overlapping stops with a start in between: the second one's tail drops a live request. */
  const LOSING_RUN: seq<Action> := [
    Start(true), Announce(0), StopBegin, StopBegin, Wake(0), Serve(0), Close(0), Exit(0), StopEnd(0),
    Start(true), Announce(1), CallBegin, StopEnd(0)]

  /** The states of that run: phase, g_stop, g_thread, requests, workers, calls and waiting stops vary. */
  function Snapshot(phase: Phase, stop: bool, thread: Option<nat>, requests: seq<nat>, workers: seq<Pc>,
                    calls: seq<Call>, runs: seq<nat>, joining: multiset<nat>): State {
    State(phase, stop, thread, 0, [], requests, workers, calls, runs, {}, joining, [], {})
  }

  function Waits(n: nat): multiset<nat> {
    multiset{}[0 := n]
  }

  lemma {:induction false} WaitsMore(n: nat)
    ensures Waits(n) + multiset{0} == Waits(n + 1) && Waits(n + 1) - multiset{0} == Waits(n)
    ensures Waits(0) == multiset{} && 0 in Waits(n + 1)
  {
  }

  lemma {:induction false} LosingActions()
    ensures |LOSING_RUN| == 13
    ensures LOSING_RUN[0] == Start(true) && LOSING_RUN[1] == Announce(0) && LOSING_RUN[2] == LOSING_RUN[3] == StopBegin
    ensures LOSING_RUN[4] == Wake(0) && LOSING_RUN[5] == Serve(0) && LOSING_RUN[6] == Close(0) && LOSING_RUN[7] == Exit(0)
    ensures LOSING_RUN[8] == StopEnd(0) && LOSING_RUN[9] == Start(true) && LOSING_RUN[10] == Announce(1)
    ensures LOSING_RUN[11] == CallBegin && LOSING_RUN[12] == StopEnd(0)
  {
  }

  lemma {:induction false} LosingStart()
    ensures Exec(Initial(), LOSING_RUN[..3]) == Some(Snapshot(Stopping, true, Some(0), [], [Idle], [], [], Waits(1)))
  {
    hide Exec, LOSING_RUN;
    LosingActions();
    WaitsMore(0);
    ExecNothing(LOSING_RUN);
    var s0 := Initial();
    var s1 := Snapshot(Starting, false, Some(0), [], [Init], [], [], Waits(0));
    ExecStep(LOSING_RUN, 0, s0, s1);
    var s2 := Snapshot(Running, false, Some(0), [], [Idle], [], [], Waits(0));
    ExecStep(LOSING_RUN, 1, s1, s2);
    var s3 := Snapshot(Stopping, true, Some(0), [], [Idle], [], [], Waits(1));
    ExecStep(LOSING_RUN, 2, s2, s3);
  }

  lemma {:induction false} LosingJoin()
    requires Exec(Initial(), LOSING_RUN[..3]) == Some(Snapshot(Stopping, true, Some(0), [], [Idle], [], [], Waits(1)))
    ensures Exec(Initial(), LOSING_RUN[..6]) == Some(Snapshot(Stopping, true, Some(0), [], [Closing], [], [], Waits(2)))
  {
    hide Exec, LOSING_RUN;
    LosingActions();
    WaitsMore(1);
    var s3 := Snapshot(Stopping, true, Some(0), [], [Idle], [], [], Waits(1));
    var s4 := Snapshot(Stopping, true, Some(0), [], [Idle], [], [], Waits(2));
    ExecStep(LOSING_RUN, 3, s3, s4);
    var s5 := Snapshot(Stopping, true, Some(0), [], [Serving(Final)], [], [], Waits(2));
    ExecStep(LOSING_RUN, 4, s4, s5);
    var s6 := Snapshot(Stopping, true, Some(0), [], [Closing], [], [], Waits(2));
    ExecStep(LOSING_RUN, 5, s5, s6);
  }

  lemma {:induction false} LosingExit()
    requires Exec(Initial(), LOSING_RUN[..6]) == Some(Snapshot(Stopping, true, Some(0), [], [Closing], [], [], Waits(2)))
    ensures Exec(Initial(), LOSING_RUN[..9]) == Some(Snapshot(Stopped, false, None, [], [Exited], [], [], Waits(1)))
  {
    hide Exec, LOSING_RUN;
    LosingActions();
    WaitsMore(1);
    var s6 := Snapshot(Stopping, true, Some(0), [], [Closing], [], [], Waits(2));
    var s7 := Snapshot(Stopped, true, Some(0), [], [Leaving], [], [], Waits(2));
    ExecStep(LOSING_RUN, 6, s6, s7);
    var s8 := Snapshot(Stopped, true, Some(0), [], [Exited], [], [], Waits(2));
    ExecStep(LOSING_RUN, 7, s7, s8);
    var s9 := Snapshot(Stopped, false, None, [], [Exited], [], [], Waits(1));
    ExecStep(LOSING_RUN, 8, s8, s9);
  }

  lemma {:induction false} LosingRestart()
    requires Exec(Initial(), LOSING_RUN[..9]) == Some(Snapshot(Stopped, false, None, [], [Exited], [], [], Waits(1)))
    ensures Exec(Initial(), LOSING_RUN[..11]) == Some(Snapshot(Running, false, Some(1), [], [Exited, Idle], [], [], Waits(1)))
  {
    hide Exec, LOSING_RUN;
    LosingActions();
    WaitsMore(0);
    var s9 := Snapshot(Stopped, false, None, [], [Exited], [], [], Waits(1));
    var s10 := Snapshot(Starting, false, Some(1), [], [Exited, Init], [], [], Waits(1));
    ExecStep(LOSING_RUN, 9, s9, s10);
    var s11 := Snapshot(Running, false, Some(1), [], [Exited, Idle], [], [], Waits(1));
    ExecStep(LOSING_RUN, 10, s10, s11);
  }

  lemma {:induction false} LosingDrop()
    requires Exec(Initial(), LOSING_RUN[..11]) == Some(Snapshot(Running, false, Some(1), [], [Exited, Idle], [], [], Waits(1)))
    ensures Exec(Initial(), LOSING_RUN[..13]) == Some(Snapshot(Stopped, false, Some(1), [], [Exited, Idle], [Waiting(1)], [0], Waits(0)))
  {
    hide Exec, LOSING_RUN;
    LosingActions();
    WaitsMore(0);
    var s11 := Snapshot(Running, false, Some(1), [], [Exited, Idle], [], [], Waits(1));
    var s12 := Snapshot(Running, false, Some(1), [0], [Exited, Idle], [Waiting(1)], [0], Waits(1));
    ExecStep(LOSING_RUN, 11, s11, s12);
    var s13 := Snapshot(Stopped, false, Some(1), [], [Exited, Idle], [Waiting(1)], [0], Waits(0));
    ExecStep(LOSING_RUN, 12, s12, s13);
  }

  lemma {:induction false} RequestCanBeLost()
    ensures Exec(Initial(), LOSING_RUN).Some?
    ensures var s := Exec(Initial(), LOSING_RUN).value;
      s.calls == [Waiting(1)] && s.workers == [Exited, Idle] && Stranded(s) && Dropped(s, 0)
  {
    hide Exec;
    LosingStart();
    LosingJoin();
    LosingExit();
    LosingRestart();
    LosingDrop();
    assert LOSING_RUN[..13] == LOSING_RUN;
    assert !Accounted(Snapshot(Stopped, false, Some(1), [], [Exited, Idle], [Waiting(1)], [0], Waits(0)), 0);
  }

  lemma {:induction false} ExecNothing(run: seq<Action>)
    ensures Exec(Initial(), run[..0]) == Some(Initial())
  {
  }

  lemma {:induction false} ExecStep(run: seq<Action>, k: nat, s: State, s': State)
    requires k < |run| && Exec(Initial(), run[..k]) == Some(s) && Enabled(s, run[k]) && s' == Apply(s, run[k])
    ensures Exec(Initial(), run[..k + 1]) == Some(s')
  {
    assert run[..k + 1][..k] == run[..k];
  }

  // ------------------------------------------------------------------
  // What such a stop leaves behind
  // ------------------------------------------------------------------

  /** The state says stopped and nobody asks to stop, but a worker lives and has not begun to shut down. */
  predicate Stranded(s: State) {
    && s.phase == Stopped && !s.stop && s.thread.Some? && s.thread.value < |s.workers|
    && (s.workers[s.thread.value] == Init || Lively(s.workers[s.thread.value]))
  }

  /** A stop strands the worker exactly when it waited for an earlier one and the present one has not begun to shut down. */
  lemma {:induction false} StrandsIff(s: State, t: nat)
    requires Inv(s) && Enabled(s, StopEnd(t))
    ensures Stranded(Apply(s, StopEnd(t))) <==>
      s.thread.Some? && s.thread != Some(t) && s.thread.value < |s.workers| &&
      (s.workers[s.thread.value] == Init || Lively(s.workers[s.thread.value]))
  {
    hide TasksKept, RequestsSafe, PhasesAgree;
  }

  /** No step frees a stranded worker: a stop only waits, and a start is refused. */
  lemma {:induction false} StrandedStep(s: State, a: Action)
    requires OneWorker(s) && Stranded(s) && Enabled(s, a)
    ensures Stranded(Apply(s, a)) && Apply(s, a).thread == s.thread
    ensures a != StopEnd(s.thread.value) && !a.Start? && !a.Post? && !a.CallBegin?
  {
    if WorkerOf(a) != None {
      OthersExited(s, WorkerOf(a).value);
    }
  }

  /** The request c was dropped while its caller waits for the present worker. */
  predicate Dropped(s: State, c: nat) {
    && c < |s.calls| && s.calls[c].Waiting? && s.thread == Some(s.calls[c].thread)
    && !Accounted(s, c)
  }

  /** Its caller waits on: the request is not queued again, does not run, and is not given up. */
  lemma {:induction false} DroppedStep(s: State, a: Action, c: nat)
    requires Inv(s) && Stranded(s) && Dropped(s, c) && Enabled(s, a)
    ensures Dropped(Apply(s, a), c)
  {
    hide TasksKept, PhasesAgree;
    StrandedStep(s, a);
    if WorkerOf(a) != None {
      DroppedWorker(s, a, WorkerOf(a).value, c);
    }
  }

  lemma {:induction false} DroppedWorker(s: State, a: Action, w: nat, c: nat)
    requires OneWorker(s) && RequestsSafe(s) && Dropped(s, c) && Enabled(s, a) && WorkerOf(a) == Some(w)
    requires Apply(s, a).thread == s.thread
    ensures Dropped(Apply(s, a), c)
  {
    hide Distinct, RanBy;
    OthersExited(s, w);
    assert Held(s, w);
    if a.Serve? && s.requests != [] {
      assert s.requests[0] in s.requests;
    }
  }

  /**
    In every continuation a stranded worker goes on, no backend_stop that waits for it returns, nothing is accepted any
    more, and a dropped request's caller is never answered.
  */
  lemma {:induction false} StrandedForGood(s: State, run: seq<Action>, c: nat)
    requires Inv(s) && Stranded(s) && Exec(s, run).Some?
    ensures var t := Exec(s, run).value;
      && Inv(t) && Stranded(t) && t.thread == s.thread && (Dropped(s, c) ==> Dropped(t, c))
      && !Enabled(t, StopEnd(s.thread.value)) && !Enabled(t, Post) && !Enabled(t, CallBegin)
    decreases |run|
  {
    hide Inv, OneWorker;
    if run != [] {
      var n := |run| - 1;
      StrandedForGood(s, run[..n], c);
      var t := Exec(s, run[..n]).value;
      StillOne(t);
      InvStep(t, run[n]);
      StrandedStep(t, run[n]);
      if Dropped(t, c) { DroppedStep(t, run[n], c); }
    }
    StillOne(Exec(s, run).value);
    if Enabled(Exec(s, run).value, StopEnd(s.thread.value)) {
      StrandedStep(Exec(s, run).value, StopEnd(s.thread.value));
    }
  }

  lemma {:induction false} StillOne(s: State)
    requires Inv(s)
    ensures OneWorker(s)
  {
  }
}
