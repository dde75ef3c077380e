/**
  The lost-partition search: the dialog of lostdlg.cpp posts slices to the worker
  (lost_scan_task in backend.cpp) and posts the next one when a slice's result
  arrives.  One step per user event, per slice run and per result delivered.
*/
module LostScan {

  // ------------------------------------------------------------------
  // State
  // ------------------------------------------------------------------

  /** What has been done with the scan handle of one search. */
  datatype Event = Opened | OpenFailed | Stepped | Ended

  /** backend_lost_scan, with the history of its handle; `lost`: a post, a slice or a result of it went missing. */
  datatype Search = Search(cancelled: bool, started: bool, open: bool, events: seq<Event>, finished: bool, lost: bool)

  datatype Slice = Slice(seqno: nat, search: nat)

  datatype Result = Result(seqno: nat, search: nat, finished: bool, failed: bool)

  datatype Option<T> = None | Some(value: T)

  datatype State = State(
    dialog: bool, current: Option<nat>, sequence: nat, running: bool,  // the dialog
    searches: seq<Search>, lastSeq: nat,
    queue: seq<Slice>, results: seq<Result>)

  /** How rover_lost_scan_begin and rover_lost_scan_step answer. */
  datatype Answer = Answer(begins: bool, more: int)

  datatype Action =
    | Show                          // show_lost_scan
    | Start(posted: bool)           // start_search; posted: the worker took the slice
    | Stop(posted: bool)            // stop_search
    | CloseDialog(posted: bool)
    | Run(answer: Answer, told: bool)  // the worker runs a slice; told: its result reaches the window
    | Deliver(posted: bool)         // lost_scan_done
    | Discard                       // backend_stop empties the queue

  const INITIAL: State := State(false, None, 0, false, [], 0, [], [])

  predicate Enabled(s: State, a: Action) {
    match a
    case Show => !s.dialog
    case Start(_) => s.dialog && !s.running
    case Stop(_) => s.dialog && s.running
    case CloseDialog(_) => s.dialog
    case Run(_, _) => s.queue != []
    case Deliver(_) => s.results != []
    case Discard => true
  }

  // ------------------------------------------------------------------
  // Steps
  // ------------------------------------------------------------------

  /** run_payload(lost_scan_task): the search afterwards, and whether the slice says finished and failed. */
  function Slices(c: Search, answer: Answer): (Search, bool, bool) {
    if c.cancelled then (Release(c), true, false)
    else if !c.started && !answer.begins then
      (c.(started := true, events := c.events + [OpenFailed], finished := true), true, true)
    else
      var c := if c.started then c else c.(started := true, open := true, events := c.events + [Opened]);
      if !c.open then (c.(finished := true), true, false)
      else
        var c := c.(events := c.events + [Stepped]);
        if answer.more > 0 then (c, false, false) else (Release(c), true, answer.more < 0)
  }

  /** The `done` label: whatever is open is ended. */
  function Release(c: Search): Search {
    if c.open then c.(open := false, events := c.events + [Ended], finished := true) else c.(finished := true)
  }

  /**
    How a slice ends: a cancelled search is finished; one that cannot begin is finished and failed; a step goes on while
    it says that there is more, is finished when it says that there is none, and finished and failed on an error.
  */
  lemma {:induction false} SliceEnds(c: Search, answer: Answer)
    requires c.open ==> c.started
    ensures var (d, finished, failed) := Slices(c, answer);
      if c.cancelled || (c.started && !c.open) then finished && !failed && !d.open && d.finished
      else if !c.started && !answer.begins then finished && failed && !d.open && d.finished
      else
        && finished == (answer.more <= 0) && failed == (answer.more < 0)
        && d.open == (answer.more > 0) && d.finished == (c.finished || answer.more <= 0)
  {
  }

  /** backend_post of a slice of search i. */
  function Post(s: State, i: nat, posted: bool): State
    requires i < |s.searches|
  {
    if posted then
      s.(lastSeq := s.lastSeq + 1, sequence := s.lastSeq + 1, queue := s.queue + [Slice(s.lastSeq + 1, i)])
    else
      s.(sequence := 0, running := false, searches := s.searches[i := s.searches[i].(lost := true)])
  }

  /** stop_search */
  function StopSearch(s: State, posted: bool): State
    requires s.current.Some? && s.current.value < |s.searches|
  {
    if !s.running then s
    else
      var i := s.current.value;
      Post(s.(searches := s.searches[i := s.searches[i].(cancelled := true)]), i, posted)
  }

  /** Every search with a slice in the queue has lost one. */
  function LoseAll(searches: seq<Search>, queue: seq<Slice>): (r: seq<Search>)
    ensures |r| == |searches|
  {
    seq(|searches|, i requires 0 <= i < |searches| =>
      if Queued(queue, i) then searches[i].(lost := true) else searches[i])
  }

  predicate Queued(queue: seq<Slice>, i: nat) {
    exists k :: 0 <= k < |queue| && queue[k].search == i
  }

  /** States in which the source's own accesses are defined. */
  predicate Sane(s: State) {
    && (s.running ==> s.current.Some?)
    && (s.current.Some? ==> s.current.value < |s.searches|)
    && (forall k :: 0 <= k < |s.queue| ==> s.queue[k].search < |s.searches|)
    && (forall k :: 0 <= k < |s.results| ==> s.results[k].search < |s.searches|)
    && (forall k :: 0 <= k < |s.results| && s.results[k].seqno == s.sequence && s.dialog ==> s.current == Some(s.results[k].search))
  }

  function Apply(s: State, a: Action): State
    requires Sane(s) && Enabled(s, a)
  {
    match a
    case Show => s.(dialog := true, current := None, sequence := 0, running := false)
    case Start(posted) =>
      var i := |s.searches|;
      Post(s.(running := true, current := Some(i), searches := s.searches + [Search(false, false, false, [], false, false)]), i, posted)
    case Stop(posted) => StopSearch(s, posted)
    case CloseDialog(posted) => (if s.running then StopSearch(s, posted) else s).(dialog := false)
    case Run(answer, told) =>
      var slice := s.queue[0];
      var (c, finished, failed) := Slices(s.searches[slice.search], answer);
      s.(queue := s.queue[1..],
         searches := s.searches[slice.search := if told then c else c.(lost := true)],
         results := if told then s.results + [Result(slice.seqno, slice.search, finished, failed)] else s.results)
    case Deliver(posted) =>
      var r := s.results[0];
      var s := s.(results := s.results[1..]);
      if !s.dialog || r.seqno != s.sequence then s
      else if r.failed then s.(running := false)
      else if r.finished then s.(running := false)
      else if s.searches[r.search].cancelled then s
      else Post(s, r.search, posted)
    case Discard => s.(queue := [], searches := LoseAll(s.searches, s.queue))
  }

  /** The result the dialog waits for: it ends the search there when it says so, and otherwise brings the next slice. */
  lemma {:induction false} ResultActedOn(s: State, posted: bool)
    requires Sane(s) && Enabled(s, Deliver(posted)) && s.dialog && s.running && s.results[0].seqno == s.sequence
    ensures var r, t := s.results[0], Apply(s, Deliver(posted));
      if r.finished || r.failed then !t.running && t.queue == s.queue && Enabled(t, Start(true))
      else if s.searches[r.search].cancelled then t.running && t.queue == s.queue
      else if posted then t.running && t.queue == s.queue + [Slice(t.sequence, r.search)]
      else !t.running && t.queue == s.queue && Enabled(t, Start(true))
  {
  }

  // ------------------------------------------------------------------
  // What every search keeps
  // ------------------------------------------------------------------

  predicate Steps(events: seq<Event>) {
    forall k :: 0 <= k < |events| ==> events[k] == Stepped
  }

  /** Opened at most once, stepped only while open, ended at most once and last. */
  ghost predicate HandleUsed(c: Search) {
    if !c.started then c.events == [] && !c.open
    else if c.open then c.events != [] && c.events[0] == Opened && Steps(c.events[1..])
    else
      || c.events == [OpenFailed]
      || (|c.events| >= 2 && c.events[0] == Opened && Steps(c.events[1..|c.events| - 1]) && c.events[|c.events| - 1] == Ended)
  }

  lemma {:induction false} MoreSteps(events: seq<Event>)
    requires events != [] && events[0] == Opened && Steps(events[1..])
    ensures var e := events + [Stepped]; e[0] == Opened && Steps(e[1..])
    ensures var e := events + [Ended]; |e| >= 2 && e[0] == Opened && Steps(e[1..|e| - 1]) && e[|e| - 1] == Ended
  {
    assert (events + [Stepped])[1..] == events[1..] + [Stepped];
    assert (events + [Ended])[1..|events|] == events[1..];
  }

  lemma {:induction false} ReleaseKeeps(c: Search)
    requires HandleUsed(c)
    ensures HandleUsed(Release(c)) && !Release(c).open
  {
    if c.open { MoreSteps(c.events); }
  }

  lemma {:induction false} StepKeeps(c: Search)
    requires HandleUsed(c) && c.open
    ensures HandleUsed(c.(events := c.events + [Stepped]))
  {
    MoreSteps(c.events);
  }

  lemma {:induction false} OpenKeeps(c: Search)
    requires HandleUsed(c) && !c.started
    ensures HandleUsed(c.(started := true, open := true, events := c.events + [Opened]))
    ensures HandleUsed(c.(started := true, events := c.events + [OpenFailed]))
  {
    assert ([Opened])[1..] == [];
    assert [] + [Opened] == [Opened] && [] + [OpenFailed] == [OpenFailed];
  }

  lemma {:induction false} FinishKeeps(c: Search)
    requires HandleUsed(c)
    ensures HandleUsed(c.(finished := true)) && (c.open ==> c.started)
  {
  }

  /** A slice uses the handle properly and leaves it open exactly when the search goes on. */
  lemma {:induction false} SliceKeeps(c: Search, answer: Answer)
    requires HandleUsed(c)
    ensures var (d, finished, failed) := Slices(c, answer);
      && HandleUsed(d) && d.cancelled == c.cancelled && d.lost == c.lost
      && finished == !d.open && (finished ==> d.finished) && (failed ==> finished)
      && (!finished ==> !c.cancelled && d.finished == c.finished)
      && (c.started && !c.open ==> d.events == c.events)
  {
    hide HandleUsed;
    FinishKeeps(c);
    ReleaseKeeps(c);
    if !c.started {
      OpenKeeps(c);
      FinishKeeps(c.(started := true, events := c.events + [OpenFailed]));
      var o := c.(started := true, open := true, events := c.events + [Opened]);
      StepKeeps(o);
      ReleaseKeeps(o.(events := o.events + [Stepped]));
    } else if c.open {
      StepKeeps(c);
      ReleaseKeeps(c.(events := c.events + [Stepped]));
    }
  }

  // ------------------------------------------------------------------
  // The invariant
  // ------------------------------------------------------------------

  ghost predicate SearchesOk(s: State) {
    forall i :: 0 <= i < |s.searches| ==> SearchOk(s.searches[i])
  }

  ghost predicate SearchOk(c: Search) {
    HandleUsed(c) && (c.finished ==> !c.open && (c.started || c.cancelled))
  }

  lemma {:induction false} MarkingKeeps(c: Search)
    requires SearchOk(c)
    ensures SearchOk(c.(cancelled := true)) && SearchOk(c.(lost := true)) && SearchOk(c.(cancelled := true, lost := true))
  {
  }

  lemma {:induction false} NewOk()
    ensures SearchOk(Search(false, false, false, [], false, false)) && SearchOk(Search(false, false, false, [], false, true))
  {
  }

  /** Sequence numbers increase from the oldest result to the newest slice. */
  ghost predicate Ordered(s: State) {
    && s.sequence <= s.lastSeq
    && (forall k :: 0 <= k < |s.queue| ==> 0 < s.queue[k].seqno <= s.lastSeq)
    && (forall k :: 0 <= k < |s.results| ==> 0 < s.results[k].seqno <= s.lastSeq)
    && (forall k, l :: 0 <= k < l < |s.queue| ==> s.queue[k].seqno < s.queue[l].seqno)
    && (forall k, l :: 0 <= k < l < |s.results| ==> s.results[k].seqno < s.results[l].seqno)
    && (forall k, l :: 0 <= k < |s.results| && 0 <= l < |s.queue| ==> s.results[k].seqno < s.queue[l].seqno)
  }

  /** The dialog waits for a slice or a result only while it says so, and only of its own search. */
  ghost predicate Armed(s: State) {
    && (forall k :: 0 <= k < |s.queue| && s.queue[k].seqno == s.sequence && s.dialog ==>
          s.running && s.current == Some(s.queue[k].search))
    && (forall k :: 0 <= k < |s.results| && s.results[k].seqno == s.sequence && s.dialog ==> s.running)
  }

  ghost predicate Expendable(s: State, i: nat) {
    i < |s.searches| && (s.searches[i].cancelled || s.searches[i].lost)
  }

  /** Only the slice the dialog waits for belongs to a search that goes on. */
  ghost predicate Fresh(s: State) {
    forall k :: 0 <= k < |s.queue| && !Expendable(s, s.queue[k].search) ==> s.dialog && s.queue[k].seqno == s.sequence
  }

  ghost predicate AwaitedAt(s: State, i: nat, k: nat) {
    k < |s.results| && s.results[k].seqno == s.sequence && s.results[k].search == i && !s.results[k].finished
  }

  /** The result that will make the dialog post the next slice of search i is on its way. */
  ghost predicate Awaited(s: State, i: nat) {
    s.dialog && exists k: nat :: AwaitedAt(s, i, k)
  }

  /** An open handle is about to be stepped again or closed. */
  ghost predicate TendedTo(s: State, i: nat)
    requires i < |s.searches|
  {
    s.searches[i].open && !s.searches[i].lost ==> Queued(s.queue, i) || (!s.searches[i].cancelled && Awaited(s, i))
  }

  ghost predicate Tended(s: State) {
    forall i :: 0 <= i < |s.searches| ==> TendedTo(s, i)
  }

  /** A failed slice is a finished one. */
  ghost predicate Truthful(s: State) {
    forall k :: 0 <= k < |s.results| && s.results[k].failed ==> s.results[k].finished
  }

  ghost predicate Inv(s: State) {
    Sane(s) && SearchesOk(s) && Ordered(s) && Armed(s) && Fresh(s) && Tended(s) && Truthful(s)
  }

  lemma {:induction false} InvInitial()
    ensures Inv(INITIAL)
  {
  }

  /** No search goes on while the dialog does not wait. */
  lemma {:induction false} Idle(s: State, i: nat)
    requires Inv(s) && !(s.dialog && s.running) && i < |s.searches|
    ensures s.searches[i].open && !s.searches[i].lost ==> s.searches[i].cancelled && Queued(s.queue, i)
    ensures forall k :: 0 <= k < |s.queue| ==> Expendable(s, s.queue[k].search)
  {
    assert TendedTo(s, i);
  }

  lemma {:induction false} ShowKeeps(s: State)
    requires Inv(s) && !s.dialog
    ensures Inv(Apply(s, Show))
  {
    var t := Apply(s, Show);
    forall i: nat | i < |t.searches| ensures TendedTo(t, i) {
      Idle(s, i);
    }
  }

  lemma {:induction false} QueuedMore(queue: seq<Slice>, slice: Slice, i: nat)
    requires Queued(queue, i) || slice.search == i
    ensures Queued(queue + [slice], i)
  {
    if slice.search == i {
      assert (queue + [slice])[|queue|].search == i;
    } else {
      var k :| 0 <= k < |queue| && queue[k].search == i;
      assert (queue + [slice])[k].search == i;
    }
  }

  lemma {:induction false} StartTended(s: State, posted: bool)
    requires Inv(s) && s.dialog && !s.running
    ensures Tended(Apply(s, Start(posted)))
  {
    hide SearchOk, Ordered, Armed, Fresh, Truthful, Expendable, Awaited;
    var t := Apply(s, Start(posted));
    forall i: nat | i < |t.searches| ensures TendedTo(t, i) {
      if i < |s.searches| {
        Idle(s, i);
        if Queued(s.queue, i) { QueuedMore(s.queue, Slice(s.lastSeq + 1, |s.searches|), i); }
      }
    }
  }

  lemma {:induction false} StartKeeps(s: State, posted: bool)
    requires Inv(s) && s.dialog && !s.running
    ensures Inv(Apply(s, Start(posted)))
  {
    hide SearchOk, Tended, TendedTo;
    NewOk();
    var t := Apply(s, Start(posted));
    if |s.searches| > 0 { Idle(s, 0); }
    StartTended(s, posted);
    assert forall k :: 0 <= k < |s.queue| ==> Expendable(s, s.queue[k].search);
    forall k | 0 <= k < |s.queue| ensures Expendable(t, s.queue[k].search) {
      assert Expendable(s, s.queue[k].search);
    }
  }

  lemma {:induction false} StopKeeps(s: State, posted: bool)
    requires Inv(s) && s.dialog && s.running
    ensures Inv(StopSearch(s, posted))
  {
    hide SearchOk;
    var t := StopSearch(s, posted);
    var c := s.current.value;
    MarkingKeeps(s.searches[c]);
    forall i: nat | i < |t.searches| ensures TendedTo(t, i) {
      assert TendedTo(s, i);
      if posted && (i == c || Queued(s.queue, i)) { QueuedMore(s.queue, Slice(s.lastSeq + 1, c), i); }
    }
    forall k | 0 <= k < |s.queue| ensures Expendable(t, s.queue[k].search) {
      if !Expendable(s, s.queue[k].search) { assert s.queue[k].search == c; }
    }
  }

  lemma {:induction false} CloseKeeps(s: State, posted: bool)
    requires Inv(s) && s.dialog
    ensures Inv(Apply(s, CloseDialog(posted)))
  {
    var t := if s.running then StopSearch(s, posted) else s;
    if s.running { StopKeeps(s, posted); }
    ClosedKeeps(s, t, posted);
  }

  lemma {:induction false} ClosedKeeps(s: State, t: State, posted: bool)
    requires Inv(s) && Inv(t) && s.dialog && t == if s.running then StopSearch(s, posted) else s
    ensures Inv(t.(dialog := false))
  {
    var u := t.(dialog := false);
    forall i: nat | i < |u.searches| ensures TendedTo(u, i) {
      assert TendedTo(t, i);
      if s.running { NoneAwaited(s, posted, i); } else { Idle(s, i); }
    }
    forall k | 0 <= k < |u.queue| ensures Expendable(u, u.queue[k].search) {
      if s.running { NoneFresh(s, posted, k); } else if |s.searches| > 0 { Idle(s, 0); assert Expendable(s, s.queue[k].search); }
    }
  }

  lemma {:induction false} NoneAwaited(s: State, posted: bool, i: nat)
    requires Inv(s) && s.dialog && s.running
    ensures !Awaited(StopSearch(s, posted), i)
  {
  }

  lemma {:induction false} NoneFresh(s: State, posted: bool, k: nat)
    requires Inv(s) && s.dialog && s.running && k < |StopSearch(s, posted).queue|
    ensures Expendable(StopSearch(s, posted), StopSearch(s, posted).queue[k].search)
  {
    var t := StopSearch(s, posted);
    if k < |s.queue| && !Expendable(s, s.queue[k].search) { assert s.queue[k].search == s.current.value; }
  }

  lemma {:induction false} QueuedRest(queue: seq<Slice>, i: nat)
    requires Queued(queue, i) && queue[0].search != i
    ensures Queued(queue[1..], i)
  {
    var k :| 0 <= k < |queue| && queue[k].search == i;
    assert queue[1..][k - 1].search == i;
  }

  /** What running a slice does to the search table. */
  lemma {:induction false} RunSearches(s: State, answer: Answer, told: bool)
    requires Inv(s) && s.queue != []
    ensures var t := Apply(s, Run(answer, told));
      && SearchesOk(t) && |t.searches| == |s.searches|
      && (forall i :: 0 <= i < |s.searches| && i != s.queue[0].search ==> t.searches[i] == s.searches[i])
      && (forall i :: 0 <= i < |s.searches| && Expendable(s, i) ==> Expendable(t, i))
  {
    hide HandleUsed, Slices, Tended, Armed, Ordered, Fresh;
    var c := s.searches[s.queue[0].search];
    SliceKeeps(c, answer);
    SliceOk(c, answer);
    MarkingKeeps(Slices(c, answer).0);
  }

  lemma {:induction false} SliceOk(c: Search, answer: Answer)
    requires SearchOk(c)
    ensures SearchOk(Slices(c, answer).0)
  {
    SliceKeeps(c, answer);
    hide HandleUsed;
  }

  lemma {:induction false} RunTended(s: State, answer: Answer, told: bool, i: nat)
    requires Inv(s) && s.queue != [] && i < |s.searches|
    ensures TendedTo(Apply(s, Run(answer, told)), i)
  {
    hide HandleUsed, Slices;
    var t := Apply(s, Run(answer, told));
    var slice := s.queue[0];
    assert TendedTo(s, i);
    if i != slice.search {
      if Queued(s.queue, i) { QueuedRest(s.queue, i); }
      if Awaited(s, i) {
        var k: nat :| AwaitedAt(s, i, k);
        assert AwaitedAt(t, i, k);
      }
    } else {
      SliceKeeps(s.searches[i], answer);
      if t.searches[i].open && !t.searches[i].lost {
        assert !Expendable(s, slice.search);
        assert AwaitedAt(t, i, |s.results|);
      }
    }
  }

  lemma {:induction false} RunTruthful(s: State, answer: Answer, told: bool)
    requires Inv(s) && s.queue != []
    ensures Truthful(Apply(s, Run(answer, told)))
  {
    hide HandleUsed, Tended, SearchesOk, Ordered, Armed, Fresh;
  }

  lemma {:induction false} RunKeeps(s: State, answer: Answer, told: bool)
    requires Inv(s) && s.queue != []
    ensures Inv(Apply(s, Run(answer, told)))
  {
    hide HandleUsed, Slices, TendedTo, SearchesOk, Ordered, Truthful;
    RunSearches(s, answer, told);
    var t := Apply(s, Run(answer, told));
    forall i: nat | i < |t.searches| ensures TendedTo(t, i) {
      RunTended(s, answer, told, i);
    }
    RunOrdered(s, answer, told);
    RunTruthful(s, answer, told);
    forall k | 0 <= k < |t.queue| && !Expendable(t, t.queue[k].search) ensures t.dialog && t.queue[k].seqno == t.sequence {
      assert t.queue[k] == s.queue[k + 1];
    }
    forall k | 0 <= k < |t.queue| && t.queue[k].seqno == t.sequence && t.dialog
      ensures t.running && t.current == Some(t.queue[k].search)
    {
      assert t.queue[k] == s.queue[k + 1];
    }
  }

  lemma {:induction false} RunOrdered(s: State, answer: Answer, told: bool)
    requires Inv(s) && s.queue != []
    ensures Ordered(Apply(s, Run(answer, told)))
  {
    hide HandleUsed, Slices, Tended, SearchesOk, Fresh, Armed;
  }

  /** A result that is not acted on is just taken off. */
  lemma {:induction false} PopTended(s: State, t: State, i: nat)
    requires Inv(s) && s.results != [] && i < |s.searches| && t.searches == s.searches && t.queue == s.queue
    requires t.results == s.results[1..] && t.sequence == s.sequence && t.dialog == s.dialog
    requires AwaitedAt(s, i, 0) ==> s.searches[i].cancelled || !s.dialog
    ensures TendedTo(t, i)
  {
    assert TendedTo(s, i);
    if !s.searches[i].cancelled && Awaited(s, i) {
      var k: nat :| AwaitedAt(s, i, k);
      assert AwaitedAt(t, i, k - 1);
    }
  }

  lemma {:induction false} DeliverKeeps(s: State, posted: bool)
    requires Inv(s) && s.results != []
    ensures Inv(Apply(s, Deliver(posted)))
  {
    hide SearchOk;
    var r := s.results[0];
    var t := Apply(s, Deliver(posted));
    if s.dialog && r.seqno == s.sequence && !r.failed && !r.finished && !s.searches[r.search].cancelled {
      DeliverPosts(s, posted);
    } else {
      forall i: nat | i < |t.searches| ensures TendedTo(t, i) {
        FailedFinished(s);
        PopTended(s, t, i);
      }
    }
  }

  lemma {:induction false} FailedFinished(s: State)
    requires Inv(s) && s.results != []
    ensures s.results[0].failed ==> s.results[0].finished
  {
  }

  lemma {:induction false} DeliverTended(s: State, posted: bool)
    requires Inv(s) && s.results != [] && s.dialog && s.results[0].seqno == s.sequence
    requires !s.results[0].failed && !s.results[0].finished && !s.searches[s.results[0].search].cancelled
    ensures Tended(Apply(s, Deliver(posted)))
  {
    hide SearchOk, Ordered, Fresh, Truthful, Expendable;
    var r := s.results[0];
    var t := Apply(s, Deliver(posted));
    forall i: nat | i < |t.searches| ensures TendedTo(t, i) {
      assert TendedTo(s, i);
      if posted && (i == r.search || Queued(s.queue, i)) { QueuedMore(s.queue, Slice(s.lastSeq + 1, r.search), i); }
    }
  }

  lemma {:induction false} DeliverPosts(s: State, posted: bool)
    requires Inv(s) && s.results != [] && s.dialog && s.results[0].seqno == s.sequence
    requires !s.results[0].failed && !s.results[0].finished && !s.searches[s.results[0].search].cancelled
    ensures Inv(Apply(s, Deliver(posted)))
  {
    hide SearchOk, TendedTo, Tended;
    var r := s.results[0];
    var t := Apply(s, Deliver(posted));
    MarkingKeeps(s.searches[r.search]);
    DeliverTended(s, posted);
    forall k | 0 <= k < |s.queue| ensures Expendable(t, s.queue[k].search) {
      assert s.queue[k].seqno != s.sequence;
      assert Expendable(s, s.queue[k].search);
    }
  }

  lemma {:induction false} DiscardKeeps(s: State)
    requires Inv(s)
    ensures Inv(Apply(s, Discard))
  {
    hide SearchOk;
    var t := Apply(s, Discard);
    forall i: nat | i < |t.searches| ensures TendedTo(t, i) && SearchOk(t.searches[i]) {
      assert TendedTo(s, i);
      MarkingKeeps(s.searches[i]);
      if Awaited(s, i) {
        var k: nat :| AwaitedAt(s, i, k);
        assert AwaitedAt(t, i, k);
      }
    }
  }

  // ------------------------------------------------------------------
  // Whole runs
  // ------------------------------------------------------------------

  lemma {:induction false} InvStep(s: State, a: Action)
    requires Inv(s) && Enabled(s, a)
    ensures Inv(Apply(s, a))
  {
    hide Inv, Apply, StopSearch;
    match a
    case Show => ShowKeeps(s);
    case Start(posted) => StartKeeps(s, posted);
    case Stop(posted) =>
      StopKeeps(s, posted);
      StopIs(s, posted);
    case CloseDialog(posted) => CloseKeeps(s, posted);
    case Run(answer, told) => RunKeeps(s, answer, told);
    case Deliver(posted) => DeliverKeeps(s, posted);
    case Discard => DiscardKeeps(s);
  }

  lemma {:induction false} StopIs(s: State, posted: bool)
    requires Inv(s) && Enabled(s, Stop(posted))
    ensures Apply(s, Stop(posted)) == StopSearch(s, posted)
  {
  }

  /** Consecutive states: any events, slices and results, in any order. */
  ghost predicate IsPath(states: seq<State>, actions: seq<Action>) {
    |states| == |actions| + 1 && forall k :: 0 <= k < |actions| ==> StepsTo(states[k], actions[k], states[k + 1])
  }

  ghost predicate IsRun(states: seq<State>, actions: seq<Action>) {
    IsPath(states, actions) && states[0] == INITIAL
  }

  /** Any step the program can take; one from a state its own accesses do not cover could lead anywhere. */
  ghost predicate StepsTo(s: State, a: Action, t: State) {
    Enabled(s, a) && (Sane(s) ==> t == Apply(s, a))
  }

  lemma {:induction false} InvOfRuns(states: seq<State>, actions: seq<Action>, n: nat)
    requires IsRun(states, actions) && n <= |actions|
    ensures Inv(states[n])
    decreases n
  {
    hide Apply, Enabled;
    if n == 0 {
      InvInitial();
    } else {
      InvOfRuns(states, actions, n - 1);
      assert StepsTo(states[n - 1], actions[n - 1], states[n]);
      InvStep(states[n - 1], actions[n - 1]);
    }
  }

  function CountOf(events: seq<Event>, e: Event): nat {
    if events == [] then 0 else CountOf(events[..|events| - 1], e) + if events[|events| - 1] == e then 1 else 0
  }

  lemma {:induction false} NoneInSteps(events: seq<Event>, e: Event)
    requires Steps(events) && e != Stepped
    ensures CountOf(events, e) == 0
    decreases |events|
  {
    if events != [] { NoneInSteps(events[..|events| - 1], e); }
  }

  lemma {:induction false} CountAppend(a: seq<Event>, b: seq<Event>, e: Event)
    ensures CountOf(a + b, e) == CountOf(a, e) + CountOf(b, e)
    decreases |b|
  {
    if b == [] {
      assert a + b == a;
    } else {
      CountAppend(a, b[..|b| - 1], e);
      assert (a + b)[..|a + b| - 1] == a + b[..|b| - 1];
    }
  }

  lemma {:induction false} CountFirst(events: seq<Event>, e: Event)
    requires events != []
    ensures CountOf(events, e) == (if events[0] == e then 1 else 0) + CountOf(events[1..], e)
  {
    assert events == [events[0]] + events[1..];
    CountAppend([events[0]], events[1..], e);
    assert [events[0]][..0] == [];
    assert CountOf([events[0]], e) == if events[0] == e then 1 else 0;
  }

  /** The handle of a search is opened at most once, ended at most once and only if opened, and open exactly in between. */
  lemma {:induction false} HandleCounts(c: Search)
    requires HandleUsed(c)
    ensures CountOf(c.events, Ended) <= CountOf(c.events, Opened) <= 1
    ensures c.open <==> CountOf(c.events, Opened) == 1 && CountOf(c.events, Ended) == 0
  {
    if c.started {
      CountFirst(c.events, Opened);
      CountFirst(c.events, Ended);
      var rest := c.events[1..];
      if c.open {
        NoneInSteps(rest, Opened);
        NoneInSteps(rest, Ended);
      } else if c.events == [OpenFailed] {
        assert rest == [];
      } else {
        var n := |rest| - 1;
        assert rest[..n] == c.events[1..|c.events| - 1];
        NoneInSteps(rest[..n], Opened);
        NoneInSteps(rest[..n], Ended);
      }
    }
  }

  // ------------------------------------------------------------------
  // When the handle of a stopped search is closed
  // ------------------------------------------------------------------

  /** The step runs a slice of search i. */
  predicate RunsSlice(s: State, a: Action, i: nat) {
    a.Run? && s.queue != [] && s.queue[0].search == i
  }

  /** A stopped search stays stopped, and its handle is closed by the next slice and by nothing else. */
  lemma {:induction false} StoppedStep(s: State, a: Action, i: nat)
    requires Inv(s) && Enabled(s, a) && i < |s.searches| && s.searches[i].cancelled
    ensures var t := Apply(s, a);
      && i < |t.searches| && t.searches[i].cancelled
      && (t.searches[i].open <==> s.searches[i].open && !RunsSlice(s, a, i))
  {
    hide Ordered, Armed, Fresh, Tended, Truthful, HandleUsed;
    if RunsSlice(s, a, i) {
      SliceKeeps(s.searches[i], a.answer);
    }
  }

  /** From the stop on, the handle is open exactly when it was open then and no slice of the search has run since. */
  lemma {:induction false} StoppedOpenIff(states: seq<State>, actions: seq<Action>, m: nat, n: nat, i: nat)
    requires IsRun(states, actions) && m <= n <= |actions|
    requires i < |states[m].searches| && states[m].searches[i].cancelled
    ensures i < |states[n].searches| && states[n].searches[i].cancelled
    ensures states[n].searches[i].open <==>
      states[m].searches[i].open && forall k :: m <= k < n ==> !RunsSlice(states[k], actions[k], i)
    decreases n
  {
    hide Apply, Enabled, Inv;
    if m < n {
      StoppedOpenIff(states, actions, m, n - 1, i);
      InvOfRuns(states, actions, n - 1);
      assert StepsTo(states[n - 1], actions[n - 1], states[n]);
      SaneOf(states[n - 1]);
      StoppedStep(states[n - 1], actions[n - 1], i);
    }
  }

  lemma {:induction false} SaneOf(s: State)
    requires Inv(s)
    ensures Sane(s)
  {
  }

  /** A queued slice leaves the queue by running or by being discarded. */
  lemma {:induction false} QueuedStep(s: State, a: Action, i: nat)
    requires Inv(s) && Enabled(s, a) && Queued(s.queue, i) && a != Discard && !RunsSlice(s, a, i)
    ensures Queued(Apply(s, a).queue, i)
  {
    hide SearchesOk, Ordered, Armed, Fresh, Tended, Truthful;
    var t := Apply(s, a);
    if a.Run? {
      QueuedRest(s.queue, i);
    } else if t.queue != s.queue {
      assert t.queue == s.queue + [t.queue[|s.queue|]];
      QueuedMore(s.queue, t.queue[|s.queue|], i);
    }
  }

  lemma {:induction false} QueuedUntil(states: seq<State>, actions: seq<Action>, m: nat, n: nat, i: nat)
    requires IsRun(states, actions) && m <= n <= |actions| && Queued(states[m].queue, i)
    requires forall k :: m <= k < n ==> actions[k] != Discard && !RunsSlice(states[k], actions[k], i)
    ensures Queued(states[n].queue, i)
    decreases n
  {
    hide Apply, Enabled, Inv;
    if m < n {
      QueuedUntil(states, actions, m, n - 1, i);
      InvOfRuns(states, actions, n - 1);
      assert StepsTo(states[n - 1], actions[n - 1], states[n]);
      SaneOf(states[n - 1]);
      QueuedStep(states[n - 1], actions[n - 1], i);
    }
  }

  /** The step that stops search i posts a slice for it, if the worker takes it. */
  lemma {:induction false} StopPosts(s: State, a: Action, i: nat)
    requires Inv(s) && Enabled(s, a) && i < |s.searches| && !s.searches[i].cancelled
    requires i < |Apply(s, a).searches| && Apply(s, a).searches[i].cancelled
    ensures a.Stop? || a.CloseDialog?
    ensures a.posted ==> Queued(Apply(s, a).queue, i)
  {
    if a.Run? {
      SliceKeeps(s.searches[s.queue[0].search], a.answer);
    } else if a.Stop? || a.CloseDialog? {
      QueuedMore(s.queue, Slice(s.lastSeq + 1, s.current.value), s.current.value);
    }
    hide SearchesOk, Ordered, Armed, Fresh, Tended, Truthful, HandleUsed;
  }

  /**
    Over every run: a search stopped by step m whose slices have run or gone is closed, unless the worker refused the
    slice the stop posted or the queue was discarded since.
  */
  lemma {:induction false} ClosedInTheEnd(states: seq<State>, actions: seq<Action>, m: nat, n: nat, i: nat)
    requires IsRun(states, actions) && m < n <= |actions| && i < |states[m].searches|
    requires !states[m].searches[i].cancelled && i < |states[m + 1].searches| && states[m + 1].searches[i].cancelled
    requires (actions[m].Stop? || actions[m].CloseDialog?) ==> actions[m].posted
    requires forall k :: m < k < n ==> actions[k] != Discard
    requires !Queued(states[n].queue, i)
    ensures i < |states[n].searches| && !states[n].searches[i].open
    ensures var e := states[n].searches[i].events; CountOf(e, Opened) == CountOf(e, Ended)
  {
    hide Apply, Enabled, HandleUsed;
    InvOfRuns(states, actions, m);
    assert StepsTo(states[m], actions[m], states[m + 1]);
    StopPosts(states[m], actions[m], i);
    StoppedOpenIff(states, actions, m + 1, n, i);
    if forall k :: m + 1 <= k < n ==> !RunsSlice(states[k], actions[k], i) {
      QueuedUntil(states, actions, m + 1, n, i);
    }
    InvOfRuns(states, actions, n);
    assert SearchOk(states[n].searches[i]);
    HandleCounts(states[n].searches[i]);
  }

  /** A finished search is closed, whatever went missing. */
  lemma {:induction false} FinishedClosed(states: seq<State>, actions: seq<Action>, n: nat, i: nat)
    requires IsRun(states, actions) && n <= |actions| && i < |states[n].searches| && states[n].searches[i].finished
    ensures var c := states[n].searches[i]; !c.open && CountOf(c.events, Opened) == CountOf(c.events, Ended)
  {
    hide HandleUsed;
    InvOfRuns(states, actions, n);
    assert SearchOk(states[n].searches[i]);
    HandleCounts(states[n].searches[i]);
  }

  // ------------------------------------------------------------------
  // When it stays open for good
  // ------------------------------------------------------------------

  /** Search i is stopped and open, no slice of it is queued, and the dialog no longer offers to stop it. */
  predicate Abandoned(s: State, i: nat) {
    && i < |s.searches| && s.searches[i].cancelled && s.searches[i].open && !Queued(s.queue, i)
    && !(s.dialog && s.running && s.current == Some(i))
  }

  lemma {:induction false} NotQueuedMore(queue: seq<Slice>, slice: Slice, i: nat)
    requires !Queued(queue, i) && slice.search != i
    ensures !Queued(queue + [slice], i)
  {
  }

  lemma {:induction false} AbandonedStep(s: State, a: Action, i: nat)
    requires Inv(s) && Enabled(s, a) && Abandoned(s, i)
    ensures Abandoned(Apply(s, a), i)
  {
    hide Queued, SearchesOk, Ordered, Armed, Fresh, Tended, Truthful, HandleUsed, Slices;
    assert !RunsSlice(s, a, i) by { HeadQueued(s.queue, i); }
    StoppedStep(s, a, i);
    QueueAbandoned(s, a, i);
  }

  lemma {:induction false} HeadQueued(queue: seq<Slice>, i: nat)
    ensures queue != [] && queue[0].search == i ==> Queued(queue, i)
  {
  }

  lemma {:induction false} QueueAbandoned(s: State, a: Action, i: nat)
    requires Inv(s) && Enabled(s, a) && Abandoned(s, i)
    ensures !Queued(Apply(s, a).queue, i)
  {
    hide SearchesOk, Ordered, Armed, Fresh, Tended, Truthful, HandleUsed, Slices;
    var t := Apply(s, a);
    if a.Run? {
      assert forall k :: 0 <= k < |t.queue| ==> t.queue[k] == s.queue[k + 1];
    } else if t.queue != s.queue && a != Discard {
      var slice := t.queue[|s.queue|];
      assert t.queue == s.queue + [slice];
      NotQueuedMore(s.queue, slice, i);
    }
  }

  /** An abandoned handle stays open in every continuation ... */
  lemma {:induction false} OpenForGood(states: seq<State>, actions: seq<Action>, m: nat, n: nat, i: nat)
    requires IsPath(states, actions) && m <= n <= |actions| && Inv(states[m]) && Abandoned(states[m], i)
    ensures Inv(states[n]) && Abandoned(states[n], i)
    decreases n
  {
    hide Apply, Enabled, Inv, Abandoned;
    if m < n {
      OpenForGood(states, actions, m, n - 1, i);
      assert StepsTo(states[n - 1], actions[n - 1], states[n]);
      SaneOf(states[n - 1]);
      InvStep(states[n - 1], actions[n - 1]);
      AbandonedStep(states[n - 1], actions[n - 1], i);
    }
  }

  /** ... and a stopped search that is not abandoned can still be closed: by its queued slice, or by stopping again. */
  lemma {:induction false} StillClosable(s: State, i: nat) returns (states: seq<State>, actions: seq<Action>)
    requires Inv(s) && i < |s.searches| && s.searches[i].cancelled && s.searches[i].open && !Abandoned(s, i)
    ensures IsPath(states, actions) && states[0] == s
    ensures var t := states[|states| - 1]; i < |t.searches| && !t.searches[i].open
  {
    hide Apply, Inv, Queued;
    if Queued(s.queue, i) {
      states, actions := Drain(s, i);
    } else {
      SaneOf(s);
      StopAgain(s, i);
      InvStep(s, Stop(true));
      var t := Apply(s, Stop(true));
      StoppedStep(s, Stop(true), i);
      var ss, aa := Drain(t, i);
      states, actions := [s] + ss, [Stop(true)] + aa;
      Prefixed(s, Stop(true), ss, aa);
    }
  }

  lemma {:induction false} StopAgain(s: State, i: nat)
    requires Inv(s) && s.dialog && s.running && s.current == Some(i)
    ensures Enabled(s, Stop(true)) && Queued(Apply(s, Stop(true)).queue, i)
  {
    QueuedMore(s.queue, Slice(s.lastSeq + 1, i), i);
  }

  lemma {:induction false} Prefixed(s: State, a: Action, states: seq<State>, actions: seq<Action>)
    requires IsPath(states, actions) && StepsTo(s, a, states[0])
    ensures IsPath([s] + states, [a] + actions)
  {
    hide StepsTo;
    var ss, aa := [s] + states, [a] + actions;
    forall k | 0 <= k < |aa| ensures StepsTo(ss[k], aa[k], ss[k + 1]) {
      if k > 0 { assert ss[k] == states[k - 1] && aa[k] == actions[k - 1] && ss[k + 1] == states[k]; }
    }
  }

  /** Running the queue closes a stopped search that has a slice in it. */
  lemma {:induction false} Drain(s: State, i: nat) returns (states: seq<State>, actions: seq<Action>)
    requires Inv(s) && i < |s.searches| && s.searches[i].cancelled && Queued(s.queue, i)
    ensures IsPath(states, actions) && states[0] == s
    ensures var t := states[|states| - 1]; i < |t.searches| && !t.searches[i].open
    decreases |s.queue|
  {
    hide Apply, Inv;
    var a := Run(Answer(true, 0), true);
    SaneOf(s);
    InvStep(s, a);
    StoppedStep(s, a, i);
    var t := Apply(s, a);
    if s.queue[0].search == i {
      states, actions := [s, t], [a];
    } else {
      QueuedStep(s, a, i);
      Popped(s, a);
      var ss, aa := Drain(t, i);
      states, actions := [s] + ss, [a] + aa;
      Prefixed(s, a, ss, aa);
    }
  }

  lemma {:induction false} Popped(s: State, a: Action)
    requires Inv(s) && Enabled(s, a) && a.Run?
    ensures |Apply(s, a).queue| < |s.queue|
  {
  }

  /** Searches do get abandoned: the worker refuses the slice that should close the handle. */
  lemma {:induction false} RefusedStop() returns (states: seq<State>, actions: seq<Action>)
    ensures IsRun(states, actions) && |states| == 5 && Abandoned(states[4], 0)
  {
    var a := Apply(INITIAL, Show);
    var b := Apply(a, Start(true));
    var c := Apply(b, Run(Answer(true, 1), true));
    actions := [Show, Start(true), Run(Answer(true, 1), true), Stop(false)];
    states := [INITIAL, a, b, c, Apply(c, Stop(false))];
  }

  /** A search that goes on is never forgotten: a slice is queued, or the result that posts the next one is on its way. */
  lemma {:induction false} GoesOn(states: seq<State>, actions: seq<Action>, n: nat, i: nat)
    requires IsRun(states, actions) && n <= |actions| && i < |states[n].searches|
    requires states[n].searches[i].open && !states[n].searches[i].lost
    ensures Queued(states[n].queue, i) || Awaited(states[n], i)
  {
    InvOfRuns(states, actions, n);
    assert TendedTo(states[n], i);
  }

  // ------------------------------------------------------------------
  // When a search that was not stopped goes on
  // ------------------------------------------------------------------

  /** The result at the head is acted on by posting the next slice of search i. */
  predicate Continues(s: State, i: nat) {
    s.results != [] &&
    var r := s.results[0];
    && s.dialog && r.seqno == s.sequence && !r.failed && !r.finished && r.search == i
    && i < |s.searches| && !s.searches[i].cancelled
  }

  /** The step loses what would continue search i: a slice's result, the next slice, or a slice in the queue. */
  predicate Loses(s: State, a: Action, i: nat) {
    || (RunsSlice(s, a, i) && !a.told)
    || (a.Deliver? && !a.posted && Continues(s, i))
    || (a == Discard && Queued(s.queue, i))
  }

  /** Nothing is under way for a search that lost a message and was not stopped. */
  ghost predicate LostIdle(s: State, i: nat)
    requires i < |s.searches|
  {
    s.searches[i].lost && !s.searches[i].cancelled ==> !Queued(s.queue, i) && !Awaited(s, i)
  }

  /** At most one message of a search that goes on is under way. */
  lemma {:induction false} OneMessage(s: State, i: nat)
    requires Inv(s) && i < |s.searches| && !Expendable(s, i)
    ensures forall k :: 0 <= k < |s.queue| && s.queue[k].search == i ==> s.queue[k].seqno == s.sequence && s.dialog
    ensures Queued(s.queue, i) ==> !Awaited(s, i)
  {
    hide SearchesOk, Armed, Tended, Truthful;
    forall k | 0 <= k < |s.queue| && s.queue[k].search == i ensures s.queue[k].seqno == s.sequence && s.dialog {
      assert !Expendable(s, s.queue[k].search);
    }
  }

  lemma {:induction false} LostIdleRun(s: State, a: Action, i: nat)
    requires Inv(s) && Enabled(s, a) && a.Run? && i < |s.searches| && LostIdle(s, i)
    ensures i < |Apply(s, a).searches| && LostIdle(Apply(s, a), i)
  {
    hide SearchesOk, Armed, Tended, Truthful, HandleUsed, Slices;
    var t, j := Apply(s, a), s.queue[0].search;
    SliceCancelled(s.searches[j], a.answer);
    assert Queued(s.queue, j);
    if !Expendable(s, i) { OneMessage(s, i); }
    assert forall k :: 0 <= k < |t.queue| ==> t.queue[k] == s.queue[k + 1];
    forall k: nat | AwaitedAt(t, i, k) && !(i == j && a.told) ensures AwaitedAt(s, i, k) {
    }
  }

  lemma {:induction false} SliceCancelled(c: Search, answer: Answer)
    ensures Slices(c, answer).0.cancelled == c.cancelled && Slices(c, answer).0.lost == c.lost
  {
  }

  lemma {:induction false} LostIdleDeliver(s: State, a: Action, i: nat)
    requires Inv(s) && Enabled(s, a) && a.Deliver? && i < |s.searches| && LostIdle(s, i)
    ensures i < |Apply(s, a).searches| && LostIdle(Apply(s, a), i)
  {
    hide SearchesOk, Armed, Tended, Truthful, HandleUsed;
    var t, r := Apply(s, a), s.results[0];
    if !Expendable(s, i) { OneMessage(s, i); }
    if s.dialog && AwaitedAt(s, i, 0) { assert Awaited(s, i); }
    forall k: nat | AwaitedAt(t, i, k) && t.sequence == s.sequence ensures AwaitedAt(s, i, k + 1) {
    }
    if t.queue != s.queue {
      assert t.queue == s.queue + [Slice(s.lastSeq + 1, r.search)];
      assert r.search != i ==> (Queued(t.queue, i) ==> Queued(s.queue, i));
    }
  }

  lemma {:induction false} LostIdleOther(s: State, a: Action, i: nat)
    requires Inv(s) && Enabled(s, a) && !a.Run? && !a.Deliver?
    requires i < |s.searches| && LostIdle(s, i)
    ensures i < |Apply(s, a).searches| && LostIdle(Apply(s, a), i)
  {
    hide SearchesOk, Armed, Tended, Truthful, HandleUsed;
    var t := Apply(s, a);
    if a == Discard {
      if !Expendable(s, i) { OneMessage(s, i); }
      forall k: nat | AwaitedAt(t, i, k) ensures AwaitedAt(s, i, k) {
      }
    } else if t.queue != s.queue {
      var slice := t.queue[|s.queue|];
      assert t.queue == s.queue + [slice];
      if slice.search != i { assert Queued(t.queue, i) ==> Queued(s.queue, i); }
    } else {
      forall k: nat | AwaitedAt(t, i, k) ensures AwaitedAt(s, i, k) {
      }
    }
  }

  lemma {:induction false} LostIdleStep(s: State, a: Action, i: nat)
    requires Inv(s) && Enabled(s, a) && i < |Apply(s, a).searches| && (i < |s.searches| ==> LostIdle(s, i))
    ensures LostIdle(Apply(s, a), i)
  {
    hide LostIdle, Queued, Inv;
    SaneOf(s);
    if i == |s.searches| {
      StartIdle(s, a);
    } else if a.Run? {
      LostIdleRun(s, a, i);
    } else if a.Deliver? {
      LostIdleDeliver(s, a, i);
    } else {
      LostIdleOther(s, a, i);
    }
  }

  lemma {:induction false} StartIdle(s: State, a: Action)
    requires Inv(s) && Enabled(s, a) && |s.searches| < |Apply(s, a).searches|
    ensures |Apply(s, a).searches| == |s.searches| + 1 && LostIdle(Apply(s, a), |s.searches|)
    ensures !Apply(s, a).searches[|s.searches|].started && !Apply(s, a).searches[|s.searches|].cancelled
  {
    hide SearchesOk, Armed, Tended, Truthful, HandleUsed, Fresh, Ordered;
  }

  /** A step that loses a message of search i leaves its mark, and no other step does to a search that was started. */
  lemma {:induction false} LosesMarks(s: State, a: Action, i: nat)
    requires Inv(s) && Enabled(s, a) && i < |s.searches| && LostIdle(s, i)
    ensures var t := Apply(s, a);
      && i < |t.searches| && (s.searches[i].cancelled ==> t.searches[i].cancelled)
      && (s.searches[i].lost || Loses(s, a, i) ==> t.searches[i].lost)
      && (!s.searches[i].lost && t.searches[i].lost && !t.searches[i].cancelled ==> Loses(s, a, i))
      && (s.searches[i].lost && !s.searches[i].started && !t.searches[i].cancelled ==> !t.searches[i].started)
  {
    hide SearchesOk, Armed, Tended, Truthful, HandleUsed, Fresh, Ordered, Slices, Awaited;
    if a.Run? {
      SliceCancelled(s.searches[s.queue[0].search], a.answer);
      HeadQueued(s.queue, i);
    }
  }

  /** A loss is remembered. */
  lemma {:induction false} LosesEarlier(states: seq<State>, actions: seq<Action>, k: nat, n: nat, i: nat)
    requires IsRun(states, actions) && k < n <= |actions| && Loses(states[k], actions[k], i)
    ensures i < |states[n].searches| && states[n].searches[i].lost
    decreases n
  {
    hide Apply, Enabled, Inv, LostIdle, Loses;
    var s, a := states[n - 1], actions[n - 1];
    InvOfRuns(states, actions, n - 1);
    assert StepsTo(s, a, states[n]);
    SaneOf(s);
    if k < n - 1 {
      LosesEarlier(states, actions, k, n - 1, i);
    } else {
      LosesKnown(s, a, i);
    }
    IdleOfRuns(states, actions, n - 1, i);
    LosesMarks(s, a, i);
  }

  lemma {:induction false} LosesKnown(s: State, a: Action, i: nat)
    requires Sane(s) && Loses(s, a, i)
    ensures i < |s.searches|
  {
  }

  lemma {:induction false} IdleOfRuns(states: seq<State>, actions: seq<Action>, n: nat, i: nat)
    requires IsRun(states, actions) && n <= |actions| && i < |states[n].searches|
    ensures LostIdle(states[n], i)
    decreases n
  {
    hide Apply, Enabled, Inv, LostIdle;
    if n > 0 {
      var s, a := states[n - 1], actions[n - 1];
      InvOfRuns(states, actions, n - 1);
      assert StepsTo(s, a, states[n]);
      SaneOf(s);
      if i < |s.searches| {
        IdleOfRuns(states, actions, n - 1, i);
      }
      LostIdleStep(s, a, i);
    }
  }

  /** The mark of a search that was started and not stopped comes from a loss. */
  lemma {:induction false} LostBy(states: seq<State>, actions: seq<Action>, n: nat, i: nat) returns (k: nat)
    requires IsRun(states, actions) && n <= |actions| && i < |states[n].searches|
    requires states[n].searches[i].lost && states[n].searches[i].started && !states[n].searches[i].cancelled
    ensures k < n && Loses(states[k], actions[k], i)
    decreases n
  {
    hide Apply, Enabled, Inv, LostIdle, Loses;
    var s, a := states[n - 1], actions[n - 1];
    InvOfRuns(states, actions, n - 1);
    assert StepsTo(s, a, states[n]);
    SaneOf(s);
    if i < |s.searches| {
      IdleOfRuns(states, actions, n - 1, i);
      LosesMarks(s, a, i);
      k := n - 1;
      if s.searches[i].lost {
        k := LostBy(states, actions, n - 1, i);
      }
    } else {
      OneMore(s, a);
      StartIdle(s, a);
    }
  }

  lemma {:induction false} OneMore(s: State, a: Action)
    requires Inv(s) && Enabled(s, a)
    ensures |s.searches| <= |Apply(s, a).searches| <= |s.searches| + 1
  {
    hide SearchesOk, Armed, Tended, Truthful, HandleUsed, Fresh, Ordered, Slices;
  }

  /**
    Over every run: an open search that was not stopped has a slice queued, or the result that posts the next one on its
    way, if and only if none of its messages has been lost so far.
  */
  lemma {:induction false} GoesOnIff(states: seq<State>, actions: seq<Action>, n: nat, i: nat)
    requires IsRun(states, actions) && n <= |actions| && i < |states[n].searches|
    requires states[n].searches[i].open && !states[n].searches[i].cancelled
    ensures (Queued(states[n].queue, i) || Awaited(states[n], i)) <==>
      forall k :: 0 <= k < n ==> !Loses(states[k], actions[k], i)
  {
    hide Loses, HandleUsed, Apply, Enabled, Queued, Awaited;
    InvOfRuns(states, actions, n);
    IdleOfRuns(states, actions, n, i);
    OpenStarted(states[n], i);
    assert TendedTo(states[n], i);
    if states[n].searches[i].lost {
      var k := LostBy(states, actions, n, i);
    } else {
      forall k | 0 <= k < n ensures !Loses(states[k], actions[k], i) {
        if Loses(states[k], actions[k], i) { LosesEarlier(states, actions, k, n, i); }
      }
    }
  }

  lemma {:induction false} OpenStarted(s: State, i: nat)
    requires Inv(s) && i < |s.searches| && s.searches[i].open
    ensures s.searches[i].started
  {
    hide Armed, Tended, Truthful, Fresh, Ordered;
    assert SearchOk(s.searches[i]);
  }

  /** A handle once released is never touched again, whatever slices still come. */
  lemma {:induction false} NeverReopened(s: State, a: Action, i: nat)
    requires Inv(s) && Enabled(s, a) && i < |s.searches| && s.searches[i].started && !s.searches[i].open
    ensures var t := Apply(s, a);
      i < |t.searches| && t.searches[i].started && !t.searches[i].open && t.searches[i].events == s.searches[i].events
  {
    if a.Run? && s.queue[0].search == i {
      SliceKeeps(s.searches[i], a.answer);
    }
  }

  /** The dialog acts only on results of the search it shows. */
  lemma {:induction false} OwnResults(states: seq<State>, actions: seq<Action>, n: nat, k: nat)
    requires IsRun(states, actions) && n <= |actions| && k < |states[n].results|
    requires states[n].dialog && states[n].results[k].seqno == states[n].sequence
    ensures states[n].current == Some(states[n].results[k].search) && states[n].running
  {
    InvOfRuns(states, actions, n);
  }

  // ------------------------------------------------------------------
  // The list of results
  // ------------------------------------------------------------------

  datatype Part = Part(offset: nat, size: nat, overlap: bool)

  predicate Overlap(p: Part, q: Part) {
    p.offset < q.offset + q.size && q.offset < p.offset + p.size
  }

  predicate Clash(parts: seq<Part>, i: nat) {
    i < |parts| && exists j :: 0 <= j < |parts| && j != i && Overlap(parts[i], parts[j])
  }

  /** A part is flagged exactly when it overlaps another. */
  ghost predicate Flagged(parts: seq<Part>) {
    forall i :: 0 <= i < |parts| ==> (parts[i].overlap <==> Clash(parts, i))
  }

  /** add_part: the newcomer flags and is flagged, whichever came first. */
  method AddPart(parts0: seq<Part>, p0: Part) returns (parts: seq<Part>)
    requires Flagged(parts0) && !p0.overlap
    ensures Flagged(parts) && |parts| == |parts0| + 1
    ensures forall i :: 0 <= i < |parts0| ==> parts[i].(overlap := parts0[i].overlap) == parts0[i]
    ensures parts[|parts0|].(overlap := false) == p0
  {
    hide Overlap;
    parts := parts0;
    var p := p0;
    var i := 0;
    while i < |parts|
      invariant 0 <= i <= |parts| == |parts0| && p == p0.(overlap := p.overlap)
      invariant p.overlap <==> exists j :: 0 <= j < i && Overlap(p0, parts0[j])
      invariant forall j :: 0 <= j < |parts| ==>
        parts[j] == parts0[j].(overlap := parts0[j].overlap || (j < i && Overlap(p0, parts0[j])))
    {
      OverlapFacts(p0, parts0[i], p.overlap, parts[i].overlap);
      if Overlap(p, parts[i]) {
        p := p.(overlap := true);
        if !parts[i].overlap {
          parts := parts[i := parts[i].(overlap := true)];
        }
      }
      i := i + 1;
    }
    parts := parts + [p];
    forall i | 0 <= i < |parts0| ensures parts[i].overlap <==> Clash(parts, i) {
      OldFlag(parts0, p0, parts, i);
    }
    NewFlag(parts0, p0, parts);
  }

  /** Flags do not matter to overlapping, and overlapping is mutual. */
  lemma {:induction false} OverlapFacts(p: Part, q: Part, f: bool, g: bool)
    ensures Overlap(p.(overlap := f), q.(overlap := g)) == Overlap(p, q) == Overlap(q, p)
  {
  }

  ghost predicate Added(parts0: seq<Part>, p0: Part, parts: seq<Part>) {
    && |parts| == |parts0| + 1
    && (forall j :: 0 <= j < |parts0| ==> parts[j] == parts0[j].(overlap := parts0[j].overlap || Overlap(p0, parts0[j])))
    && parts[|parts0|] == p0.(overlap := exists j :: 0 <= j < |parts0| && Overlap(p0, parts0[j]))
  }

  lemma {:induction false} OldFlag(parts0: seq<Part>, p0: Part, parts: seq<Part>, i: nat)
    requires Flagged(parts0) && Added(parts0, p0, parts) && i < |parts0|
    ensures parts[i].overlap <==> Clash(parts, i)
  {
    hide Overlap;
    var n := |parts0|;
    OverlapFacts(parts0[i], p0, parts[i].overlap, parts[n].overlap);
    if Clash(parts0, i) {
      var j :| 0 <= j < n && j != i && Overlap(parts0[i], parts0[j]);
      OverlapFacts(parts0[i], parts0[j], parts[i].overlap, parts[j].overlap);
      assert Overlap(parts[i], parts[j]);
    }
    if Overlap(p0, parts0[i]) { assert Overlap(parts[i], parts[n]); }
    if Clash(parts, i) {
      var j :| 0 <= j < |parts| && j != i && Overlap(parts[i], parts[j]);
      if j < n { OverlapFacts(parts0[i], parts0[j], parts[i].overlap, parts[j].overlap); }
    }
  }

  lemma {:induction false} NewFlag(parts0: seq<Part>, p0: Part, parts: seq<Part>)
    requires Added(parts0, p0, parts)
    ensures parts[|parts0|].overlap <==> Clash(parts, |parts0|)
  {
    hide Overlap;
    var n := |parts0|;
    forall j | 0 <= j < n ensures Overlap(parts[n], parts[j]) == Overlap(p0, parts0[j]) {
      OverlapFacts(p0, parts0[j], parts[n].overlap, parts[j].overlap);
    }
  }
}
