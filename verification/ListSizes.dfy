/**
  File sizes in the main list (mainlist.cpp): listings come without sizes, which
  are then asked for in small batches around the rows on screen and filled in as
  results arrive (run_list_sizes in backend.cpp, the dispatch in main.cpp).
*/
module ListSizes {

  const BATCH: nat := 64
  const WINDOW: int := 192
  const UNKNOWN: nat := 0xffff_ffff_ffff_ffff

  /** backend_dirent */
  datatype Entry = Entry(name: string, isDir: bool, isSymlink: bool, size: nat, sizeSet: bool)

  datatype Task = ListDir(path: string) | ListSizes(path: string, owner: nat, names: seq<string>)

  /** Sizes by full path, for files that can be opened. */
  type Files = map<string, nat>

  function Join(path: string, name: string): string {
    (if path == "" || path[|path| - 1] != '/' then path + "/" else path) + name
  }

  /** A name stands behind exactly one slash after the directory, whether the directory is written with one or without. */
  lemma {:induction false} JoinSlash(dir: string, name: string)
    ensures Join(dir + "/", name) == dir + "/" + name
    ensures dir == "" || dir[|dir| - 1] != '/' ==> Join(dir, name) == dir + "/" + name
  {
  }

  function SizeOf(files: Files, path: string, name: string): nat {
    if Join(path, name) in files then files[Join(path, name)] else UNKNOWN
  }

  /** Sizes, as far as known, are those of the named files in the directory. */
  ghost predicate Truthful(files: Files, path: string, entries: seq<Entry>) {
    forall i :: 0 <= i < |entries| && entries[i].sizeSet ==> entries[i].size == SizeOf(files, path, entries[i].name)
  }

  // ------------------------------------------------------------------
  // The worker
  // ------------------------------------------------------------------

  /** What may come back for a batch: sizes of its first files. */
  ghost predicate Answers(files: Files, t: Task, sizes: seq<nat>) {
    && t.ListSizes? && |sizes| <= |t.names|
    && forall k :: 0 <= k < |sizes| ==> sizes[k] == SizeOf(files, t.path, t.names[k])
  }

  /** How many files get their turn; latest[k] is the newest listing when file k's turn comes. */
  function Reached(t: Task, latest: seq<nat>, k: nat): (n: nat)
    requires t.ListSizes? && k <= |t.names|
    ensures k <= n <= |t.names|
    ensures (forall j :: 0 <= j < |latest| ==> latest[j] == t.owner) ==> n == |t.names|
    decreases |t.names| - k
  {
    if k == |t.names| || (k < |latest| && latest[k] != t.owner) then k else Reached(t, latest, k + 1)
  }

  /** The sizes that come back. */
  function Sizes(files: Files, t: Task, latest: seq<nat>): seq<nat>
    requires t.ListSizes?
  {
    seq(Reached(t, latest, 0), k requires 0 <= k < |t.names| => SizeOf(files, t.path, t.names[k]))
  }

  /** run_list_sizes: sizes of a prefix of the batch, all of it without a newer listing. */
  method RunListSizes(files: Files, t: Task, latest: seq<nat>) returns (sizes: seq<nat>)
    requires t.ListSizes?
    ensures Answers(files, t, sizes) && sizes == Sizes(files, t, latest)
    ensures (forall k :: 0 <= k < |latest| ==> latest[k] == t.owner) ==> |sizes| == |t.names|
  {
    sizes := [];
    var k := 0;
    while k < |t.names|
      invariant 0 <= k <= |t.names| && |sizes| == k && Reached(t, latest, k) == Reached(t, latest, 0)
      invariant forall j :: 0 <= j < k ==> sizes[j] == SizeOf(files, t.path, t.names[j])
    {
      if k < |latest| && latest[k] != t.owner {
        break;
      }
      var full := Join(t.path, t.names[k]);
      if full in files {
        sizes := sizes + [files[full]];
      } else {
        sizes := sizes + [UNKNOWN];
      }
      k := k + 1;
    }
  }

  // ------------------------------------------------------------------
  // Which rows to ask for
  // ------------------------------------------------------------------

  /** hint_list_sizes: a valid window of at most 192 rows that covers the visible ones when they are fewer than that. */
  function Window(from: int, to: int, perPage: int, n: nat): (w: (int, int))
    requires 0 <= from <= to && n > 0
    ensures 0 <= w.0 <= w.1 < n && w.1 - w.0 + 1 <= WINDOW
    ensures to < n && to - from + 1 < WINDOW ==> w.0 <= from && to <= w.1
  {
    var page, span := if perPage < 1 then 32 else perPage, to - from + 1;
    var extra := WINDOW - span;
    var (first, last) :=
      if span >= WINDOW then (from, from + WINDOW - 1)
      else if span + 2 * page > WINDOW then (from - extra / 2, to + extra - extra / 2)
      else (from - page, to + page);
    var (first, last) := if first < 0 then (0, last - first) else (first, last);
    var over := last - n + 1;
    if last >= n then (if first > over then first - over else 0, n - 1) else (first, last)
  }

  predicate Wanted(e: Entry) {
    !e.isDir && !e.isSymlink && !e.sizeSet
  }

  predicate Ascending(rows: seq<nat>) {
    forall i, j :: 0 <= i < j < |rows| ==> rows[i] < rows[j]
  }

  /** The first rows from `first` on and below `end` that are wanted and not flagged, at most 64. */
  function Batch(entries: seq<Entry>, pending: seq<bool>, first: nat, end: nat): (rows: seq<nat>)
    requires |pending| == |entries| && end <= |entries|
    decreases end
  {
    if end <= first then []
    else
      var rows := Batch(entries, pending, first, end - 1);
      if |rows| < BATCH && Wanted(entries[end - 1]) && !pending[end - 1] then rows + [end - 1] else rows
  }

  /** A batch holds nothing but wanted rows, in order, and all of them if it is not full. */
  lemma {:induction false} BatchHolds(entries: seq<Entry>, pending: seq<bool>, first: nat, end: nat)
    requires |pending| == |entries| && end <= |entries|
    ensures var rows := Batch(entries, pending, first, end);
      && |rows| <= BATCH && Ascending(rows) && (first <= end ==> |rows| <= end - first)
      && (forall k :: 0 <= k < |rows| ==> first <= rows[k] < end && Wanted(entries[rows[k]]) && !pending[rows[k]])
      && (|rows| < BATCH ==> forall i :: first <= i < end && Wanted(entries[i]) && !pending[i] ==> i in rows)
    decreases end
  {
    if end > first {
      BatchHolds(entries, pending, first, end - 1);
    }
  }

  lemma {:induction false} BatchFull(entries: seq<Entry>, pending: seq<bool>, first: nat, end: nat, more: nat)
    requires |pending| == |entries| && end <= more <= |entries| && |Batch(entries, pending, first, end)| >= BATCH
    ensures Batch(entries, pending, first, more) == Batch(entries, pending, first, end)
    decreases more
  {
    if end < more {
      BatchFull(entries, pending, first, end, more - 1);
    }
  }

  function Names(entries: seq<Entry>, rows: seq<nat>): (names: seq<string>)
    ensures |names| == |rows|
  {
    seq(|rows|, k requires 0 <= k < |rows| => if rows[k] < |entries| then entries[rows[k]].name else "")
  }

  function Flagged(pending: seq<bool>, rows: seq<nat>): seq<bool> {
    seq(|pending|, i requires 0 <= i < |pending| => pending[i] || i in rows)
  }

  function Unflagged(pending: seq<bool>, rows: seq<nat>): seq<bool> {
    seq(|pending|, i requires 0 <= i < |pending| => pending[i] && i !in rows)
  }

  /** The loop of queue_list_sizes. */
  method Collect(entries: seq<Entry>, pending0: seq<bool>, first: nat, last: nat)
    returns (pending: seq<bool>, rows: seq<nat>, names: seq<string>)
    requires |pending0| == |entries| && first <= last < |entries|
    ensures rows == Batch(entries, pending0, first, last + 1)
    ensures pending == Flagged(pending0, rows) && names == Names(entries, rows)
  {
    pending, rows, names := pending0, [], [];
    var i := first;
    assert pending == Flagged(pending0, []);
    while i <= last && |rows| < BATCH
      invariant first <= i <= last + 1 && rows == Batch(entries, pending0, first, i)
      invariant |pending| == |entries| && pending == Flagged(pending0, rows) && names == Names(entries, rows)
    {
      BatchHolds(entries, pending0, first, i);
      if Wanted(entries[i]) && !pending[i] {
        pending := pending[i := true];
        names := names + [entries[i].name];
        rows := rows + [i];
      }
      i := i + 1;
    }
    if i <= last {
      BatchFull(entries, pending0, first, i, last + 1);
    }
  }

  /** The first loop of fill_list_sizes: the batch is no longer in flight. */
  method Unflag(pending0: seq<bool>, rows: seq<nat>) returns (pending: seq<bool>)
    ensures pending == Unflagged(pending0, rows)
  {
    pending := pending0;
    var k := 0;
    while k < |rows|
      invariant 0 <= k <= |rows| && |pending| == |pending0|
      invariant forall i :: 0 <= i < |pending| ==> (pending[i] <==> pending0[i] && i !in rows[..k])
    {
      assert rows[..k + 1] == rows[..k] + [rows[k]];
      if rows[k] < |pending| {
        pending := pending[rows[k] := false];
      }
      k := k + 1;
    }
    assert rows[..k] == rows;
  }

  /** The entries after the first k sizes have been filled in. */
  function Filled(entries: seq<Entry>, rows: seq<nat>, sizes: seq<nat>, k: nat): (r: seq<Entry>)
    requires k <= |rows| && k <= |sizes|
    ensures |r| == |entries|
    ensures forall i :: 0 <= i < |r| ==> r[i].(size := entries[i].size, sizeSet := entries[i].sizeSet) == entries[i]
    ensures forall i :: 0 <= i < |r| && i !in rows ==> r[i] == entries[i]
  {
    if k == 0 then entries
    else
      var r, row := Filled(entries, rows, sizes, k - 1), rows[k - 1];
      if row < |r| then r[row := r[row].(size := sizes[k - 1], sizeSet := true)] else r
  }

  /** Each size goes to the row it was asked for. */
  lemma {:induction false} FilledAt(entries: seq<Entry>, rows: seq<nat>, sizes: seq<nat>, k: nat, j: nat)
    requires j < k <= |rows| && k <= |sizes| && Ascending(rows) && rows[j] < |entries|
    ensures var e := Filled(entries, rows, sizes, k)[rows[j]]; e.sizeSet && e.size == sizes[j]
    decreases k
  {
    if j < k - 1 {
      FilledAt(entries, rows, sizes, k - 1, j);
    }
  }

  /** Sizes of the files named are filled in truthfully. */
  lemma {:induction false} FilledTrue(files: Files, path: string, entries: seq<Entry>, rows: seq<nat>, names: seq<string>,
                                      sizes: seq<nat>, k: nat)
    requires k <= |rows| == |names| && k <= |sizes| && Truthful(files, path, entries)
    requires forall j :: 0 <= j < |rows| && rows[j] < |entries| ==> names[j] == entries[rows[j]].name
    requires forall j :: 0 <= j < |sizes| && j < |names| ==> sizes[j] == SizeOf(files, path, names[j])
    ensures Truthful(files, path, Filled(entries, rows, sizes, k))
    decreases k
  {
    hide SizeOf;
    if k > 0 {
      FilledTrue(files, path, entries, rows, names, sizes, k - 1);
      var r, row := Filled(entries, rows, sizes, k - 1), rows[k - 1];
      if row < |r| {
        assert r[row].name == entries[row].name;
      }
    }
  }

  /** The second loop. */
  method Fill(entries0: seq<Entry>, rows: seq<nat>, sizes: seq<nat>) returns (entries: seq<Entry>)
    ensures entries == Filled(entries0, rows, sizes, Least(|rows|, |sizes|))
  {
    var got := if |sizes| < |rows| then |sizes| else |rows|;
    entries := entries0;
    var k := 0;
    while k < got
      invariant 0 <= k <= got && entries == Filled(entries0, rows, sizes, k)
    {
      var row := rows[k];
      if row < |entries| {
        entries := entries[row := entries[row].(size := sizes[k], sizeSet := true)];
      }
      k := k + 1;
    }
  }

  function Least(a: nat, b: nat): (m: nat)
    ensures m <= a && m <= b
  {
    if b < a then b else a
  }

  // ------------------------------------------------------------------
  // The list as a value
  // ------------------------------------------------------------------

  /** The state of the list; `posted` are the tasks ever posted, by sequence number. */
  datatype View = View(
    path: string,
    entries: seq<Entry>,
    viewSeq: nat,
    seqList: nat,
    seqSizes: nat,
    pending: seq<bool>,
    rows: seq<nat>,
    wantFirst: int,
    wantLast: int,
    posted: map<nat, Task>,
    lastSeq: nat)

  const EMPTY: View := View("", [], 0, 0, 0, [], [], 0, -1, map[], 0)

  /** The directory shown is the one last asked for. */
  predicate Current(v: View) {
    v.entries != [] && v.viewSeq == v.seqList
  }

  predicate Shape(v: View) {
    && (Current(v) ==> |v.pending| == |v.entries|)
    && (v.entries != [] ==> 0 < v.viewSeq <= v.lastSeq)
    && (forall s :: s in v.posted ==> 0 < s <= v.lastSeq)
  }

  /** The rows of the batch in flight. */
  function Flying(v: View): seq<nat> {
    if v.seqSizes != 0 then v.rows else []
  }

  function PostSeq(v: View, accepted: bool): nat {
    if accepted then v.lastSeq + 1 else 0
  }

  /** backend_post; nothing happens when the worker is not running. */
  function Posted(v: View, t: Task, accepted: bool): View {
    if accepted then v.(lastSeq := v.lastSeq + 1, posted := v.posted[v.lastSeq + 1 := t]) else v
  }

  datatype Range = NoRange | Range(first: int, last: int)

  /** The range of queue_list_sizes, cut to the list. */
  function Clip(v: View, first: int, last: int): (r: Range)
    ensures r.Range? ==> Current(v) && 0 <= r.first <= r.last < |v.entries|
  {
    var a, b := if first < 0 then 0 else first, if last >= |v.entries| then |v.entries| - 1 else last;
    if !Current(v) || a > b then NoRange else Range(a, b)
  }

  /** The batch that queue_list_sizes would post. */
  function Asked(v: View, first: int, last: int): seq<nat>
    requires Shape(v)
  {
    match Clip(v, first, last)
    case NoRange => []
    case Range(a, b) => if v.seqSizes != 0 then [] else Batch(v.entries, v.pending, a, b + 1)
  }

  function Sent(v: View, batch: seq<nat>, accepted: bool): View {
    Posted(v, ListSizes(v.path, v.viewSeq, Names(v.entries, batch)), accepted)
    .(pending := Flagged(v.pending, batch), rows := batch, seqSizes := PostSeq(v, accepted))
  }

  /** queue_list_sizes */
  function Queued(v: View, first: int, last: int, accepted: bool): (w: View)
    requires Shape(v)
    ensures Shape(w)
  {
    match Clip(v, first, last)
    case NoRange => v
    case Range(a, b) =>
      var w := v.(wantFirst := a, wantLast := b);
      if Asked(v, first, last) == [] then w else Sent(w, Asked(v, first, last), accepted)
  }

  /** The range of hint_list_sizes. */
  function HintRange(v: View, from: int, to: int, perPage: int): Range {
    if from < 0 || to < from || v.entries == [] then NoRange
    else
      var (first, last) := Window(from, to, perPage, |v.entries|);
      Range(first, last)
  }

  /** queue_list_sizes, if there is something to ask for. */
  function Hinted(v: View, r: Range, accepted: bool): (w: View)
    requires Shape(v)
    ensures Shape(w)
  {
    if r.Range? then Queued(v, r.first, r.last, accepted) else v
  }

  /** navigate */
  function Asking(v: View, to: string, accepted: bool): (w: View)
    requires Shape(v)
    ensures Shape(w) && !Current(w)
  {
    Posted(v, ListDir(to), accepted).(seqList := PostSeq(v, accepted), seqSizes := 0, pending := [], rows := [], wantLast := -1)
  }

  /** list_clear */
  function Cleared(v: View): (w: View)
    requires Shape(v)
    ensures Shape(w)
  {
    v.(path := "", viewSeq := 0, entries := [])
  }

  /** fill_list up to its request. */
  function Installed(v: View, s: nat, listed: seq<Entry>): (w: View)
    requires Shape(v) && s in v.posted
    ensures Shape(w)
  {
    v.(path := v.posted[s].path, entries := listed, viewSeq := s, seqSizes := 0, pending := seq(|listed|, _ => false), rows := [],
       wantFirst := 0, wantLast := -1)
  }

  /** fill_list_sizes up to its request. */
  function Taken(v: View, sizes: seq<nat>): (w: View)
    requires Shape(v)
    ensures Shape(w)
  {
    v.(pending := Unflagged(v.pending, v.rows), entries := Filled(v.entries, v.rows, sizes, Least(|v.rows|, |sizes|)),
       rows := [], seqSizes := 0)
  }

  /**
    What a request does: with a batch in flight only the range wanted changes; otherwise the rows asked for get their
    flags, and they are in flight if and only if the worker accepts them.
  */
  lemma {:induction false} RequestFlags(v: View, first: int, last: int, accepted: bool)
    requires Shape(v)
    ensures var w, b := Queued(v, first, last, accepted), Asked(v, first, last);
      && w.entries == v.entries && w.path == v.path && |w.pending| == |v.pending|
      && (v.seqSizes != 0 ==> b == [] && w == v.(wantFirst := w.wantFirst, wantLast := w.wantLast))
      && (forall i :: 0 <= i < |v.pending| ==> (w.pending[i] <==> v.pending[i] || i in b))
      && (v.seqSizes == 0 ==> Flying(w) == if accepted then b else [])
  {
    hide Batch, Names;
  }

  /** A request leaves no wanted row of its range unflagged if the directory is small and nothing is in flight. */
  lemma {:induction false} RequestWanted(v: View, first: int, last: int, accepted: bool)
    requires Shape(v) && Current(v) && v.seqSizes == 0 && |v.entries| < BATCH
    ensures var w := Queued(v, first, last, accepted);
      forall i :: 0 <= i < |v.entries| && first <= i <= last && Wanted(v.entries[i]) ==> i < |w.pending| && w.pending[i]
  {
    hide Queued, Flagged, Batch;
    RequestFlags(v, first, last, accepted);
    var r := Clip(v, first, last);
    if r.Range? {
      BatchHolds(v.entries, v.pending, r.first, r.last + 1);
    }
  }

  // ------------------------------------------------------------------
  // Events
  // ------------------------------------------------------------------

  /** Anything that can happen to the list; results may come at any time, in any order, for any task ever posted. */
  datatype Event =
    | NavigateEvent(to: string, accepted: bool)
    | ClearEvent
    | HintEvent(from: int, to_: int, perPage: int, accepted: bool)
    | ListingEvent(seqno: nat, listed: seq<Entry>, failed: bool, top: int, perPage: int, accepted: bool)
    | SizesEvent(seqno: nat, latest: seq<nat>, accepted: bool)

  /** A fresh listing carries no sizes. */
  function Unsized(listed: seq<Entry>): (r: seq<Entry>)
    ensures |r| == |listed| && forall i :: 0 <= i < |r| ==> !r[i].sizeSet
  {
    seq(|listed|, i requires 0 <= i < |listed| => listed[i].(sizeSet := false))
  }

  /** The result is the listing last asked for. */
  predicate Arrives(v: View, e: Event) {
    e.ListingEvent? && e.seqno in v.posted && v.posted[e.seqno].ListDir? && e.seqno == v.seqList
  }

  /** The result is of the batch in flight, asked for on behalf of the listing last asked for. */
  predicate Answered(v: View, e: Event) {
    e.SizesEvent? && e.seqno in v.posted && v.posted[e.seqno].ListSizes? &&
    e.seqno == v.seqSizes && v.posted[e.seqno].owner == v.seqList
  }

  /** The list after an event, before it asks for sizes. */
  function Ready(files: Files, v: View, e: Event): (w: View)
    requires Shape(v)
    ensures Shape(w)
  {
    match e
    case NavigateEvent(to, accepted) => Asking(v, to, accepted)
    case ClearEvent => Cleared(v)
    case HintEvent(_, _, _, _) => v
    case ListingEvent(s, listed, failed, _, _, _) =>
      if !Arrives(v, e) then v else if failed then Cleared(v) else Installed(v, s, Unsized(listed))
    case SizesEvent(s, latest, _) => if Answered(v, e) then Taken(v, Sizes(files, v.posted[s], latest)) else v
  }

  /** The rows it then asks queue_list_sizes for. */
  function Asks(v: View, w: View, e: Event): Range {
    match e
    case NavigateEvent(_, _) => NoRange
    case ClearEvent => NoRange
    case HintEvent(from, to, perPage, _) => HintRange(w, from, to, perPage)
    case ListingEvent(_, _, failed, top, perPage, _) =>
      if Arrives(v, e) && !failed then HintRange(w, top, top + (if perPage > 0 then perPage else 1) - 1, perPage) else NoRange
    case SizesEvent(_, _, _) =>
      if Answered(v, e) && w.wantLast >= w.wantFirst then Range(w.wantFirst, w.wantLast) else NoRange
  }

  /** The worker takes the request. */
  predicate Accepts(e: Event) {
    !e.ClearEvent? && e.accepted
  }

  function Step(files: Files, v: View, e: Event): (w: View)
    requires Shape(v)
    ensures Shape(w)
  {
    var w := Ready(files, v, e);
    Hinted(w, Asks(v, w, e), Accepts(e))
  }

  /** The batch that an event asks for and the worker refuses. */
  function Refused(files: Files, v: View, e: Event): seq<nat>
    requires Shape(v)
  {
    var w := Ready(files, v, e);
    var r := Asks(v, w, e);
    if r.Range? && !Accepts(e) then Asked(w, r.first, r.last) else []
  }

  /** The directory is asked for or listed anew. */
  predicate Relists(v: View, e: Event) {
    e.NavigateEvent? || (Arrives(v, e) && !e.failed)
  }

  /** The list after a sequence of events. */
  function After(files: Files, events: seq<Event>): (v: View)
    ensures Shape(v)
  {
    if events == [] then EMPTY else Step(files, After(files, events[..|events| - 1]), events[|events| - 1])
  }

  /** Where the last event that asks for or brings a listing stands; 0 if there is none. */
  function Since(files: Files, events: seq<Event>): (m: nat)
    ensures m <= |events|
  {
    if events == [] then 0
    else
      var n := |events| - 1;
      if Relists(After(files, events[..n]), events[n]) then n else Since(files, events[..n])
  }

  /** The batch refused at event k. */
  function RefusedAt(files: Files, events: seq<Event>, k: nat): seq<nat>
    requires k < |events|
  {
    Refused(files, After(files, events[..k]), events[k])
  }

  /** The rows of all batches refused since then. */
  function RefusedRows(files: Files, events: seq<Event>): set<nat> {
    if events == [] then {}
    else
      var n := |events| - 1;
      var v := After(files, events[..n]);
      (if Relists(v, events[n]) then {} else RefusedRows(files, events[..n])) +
      Rows(Refused(files, v, events[n]))
  }

  function Rows(batch: seq<nat>): set<nat> {
    set r | r in batch
  }

  // ------------------------------------------------------------------
  // What every event keeps
  // ------------------------------------------------------------------

  /** Exactly the rows in flight and those in `stuck` are flagged, and no row is both. */
  ghost predicate Flags(pending: seq<bool>, flying: seq<nat>, stuck: set<nat>) {
    && (forall i :: 0 <= i < |pending| ==> (pending[i] <==> i in flying || i in stuck))
    && (forall i :: i in flying ==> i !in stuck)
    && (forall i :: i in stuck ==> i < |pending|)
  }

  /** A batch: at most 64 files of the directory shown, in order, asked for by name. */
  ghost predicate BatchOk(entries: seq<Entry>, rows: seq<nat>, names: seq<string>) {
    && |rows| == |names| <= BATCH && Ascending(rows)
    && forall k :: 0 <= k < |rows| ==>
         rows[k] < |entries| && names[k] == entries[rows[k]].name && !entries[rows[k]].isDir && !entries[rows[k]].isSymlink
  }

  /** The batch in flight was asked for on behalf of the directory shown, unless the list was emptied since. */
  ghost predicate InFlight(t: Task, v: View) {
    && t.ListSizes? && |v.rows| == |t.names| <= BATCH && Ascending(v.rows)
    && (v.entries == [] || (t.path == v.path && t.owner == v.viewSeq && BatchOk(v.entries, v.rows, t.names)))
  }

  /** Sizes belong to the files named, and flags to the batch in flight and to the rows in `stuck`. */
  ghost predicate Sound(files: Files, v: View, stuck: set<nat>) {
    && Shape(v) && Truthful(files, v.path, v.entries)
    && v.seqList <= v.lastSeq && v.seqSizes <= v.lastSeq
    && (v.seqSizes != 0 ==> v.seqSizes in v.posted && InFlight(v.posted[v.seqSizes], v))
    && (Current(v) ==> Flags(v.pending, Flying(v), stuck))
    && (v.entries != [] && v.viewSeq != v.seqList ==> v.seqSizes == 0)
    && (v.viewSeq != v.seqList && v.seqSizes != 0 ==> v.entries == [])
  }

  lemma {:induction false} NothingSound(files: Files)
    ensures Sound(files, EMPTY, {})
  {
  }

  lemma {:induction false} AskingSound(files: Files, v: View, stuck: set<nat>, to: string, accepted: bool)
    requires Sound(files, v, stuck)
    ensures Sound(files, Asking(v, to, accepted), {})
  {
    hide Truthful, Flags, BatchOk;
  }

  lemma {:induction false} ClearedSound(files: Files, v: View, stuck: set<nat>)
    requires Sound(files, v, stuck)
    ensures Sound(files, Cleared(v), stuck)
  {
    hide Flags, BatchOk;
  }

  lemma {:induction false} InstalledSound(files: Files, v: View, stuck: set<nat>, s: nat, listed: seq<Entry>)
    requires Sound(files, v, stuck) && s in v.posted && s == v.seqList && forall i :: 0 <= i < |listed| ==> !listed[i].sizeSet
    ensures Sound(files, Installed(v, s, listed), {})
  {
    hide BatchOk;
  }

  lemma {:induction false} UnflaggedFlags(pending: seq<bool>, rows: seq<nat>, stuck: set<nat>)
    requires Flags(pending, rows, stuck)
    ensures Flags(Unflagged(pending, rows), [], stuck)
  {
  }

  lemma {:induction false} TakenSound(files: Files, v: View, stuck: set<nat>, sizes: seq<nat>)
    requires Sound(files, v, stuck) && v.seqSizes != 0 && Answers(files, v.posted[v.seqSizes], sizes)
    ensures Sound(files, Taken(v, sizes), stuck)
  {
    hide Flags, Unflagged, Truthful, SizeOf;
    var k := Least(|v.rows|, |sizes|);
    if v.entries != [] {
      FilledTrue(files, v.path, v.entries, v.rows, v.posted[v.seqSizes].names, sizes, k);
    } else {
      NoEntries(files, v.path);
    }
    if Current(v) {
      UnflaggedFlags(v.pending, v.rows, stuck);
    }
  }

  lemma {:induction false} NoEntries(files: Files, path: string)
    ensures Truthful(files, path, [])
  {
  }

  /** Flags after a batch has been collected: it is in flight, or its rows stay flagged. */
  lemma {:induction false} FlaggedFlags(pending: seq<bool>, stuck: set<nat>, batch: seq<nat>)
    requires Flags(pending, [], stuck) && forall k :: 0 <= k < |batch| ==> batch[k] < |pending| && !pending[batch[k]]
    ensures Flags(Flagged(pending, batch), batch, stuck)
    ensures Flags(Flagged(pending, batch), [], stuck + Rows(batch))
  {
    forall i | i in batch ensures i < |pending| && !pending[i] {
      var k :| 0 <= k < |batch| && batch[k] == i;
    }
  }

  lemma {:induction false} QueuedSound(files: Files, v: View, stuck: set<nat>, first: int, last: int, accepted: bool)
    requires Sound(files, v, stuck)
    ensures Sound(files, Queued(v, first, last, accepted), stuck + if accepted then {} else Rows(Asked(v, first, last)))
  {
    hide Truthful, Flags, Flagged, Batch, Ascending;
    var r, b := Clip(v, first, last), Asked(v, first, last);
    assert stuck + {} == stuck && stuck + Rows([]) == stuck;
    if b != [] {
      BatchHolds(v.entries, v.pending, r.first, r.last + 1);
      FlaggedFlags(v.pending, stuck, b);
    }
  }

  lemma {:induction false} ReadySound(files: Files, v: View, stuck: set<nat>, e: Event)
    requires Sound(files, v, stuck)
    ensures Sound(files, Ready(files, v, e), if Relists(v, e) then {} else stuck)
  {
    hide Sound, Answers, Asking, Cleared, Installed, Taken, Unsized, Sizes;
    match e
    case NavigateEvent(to, accepted) => AskingSound(files, v, stuck, to, accepted);
    case ClearEvent => ClearedSound(files, v, stuck);
    case HintEvent(_, _, _, _) =>
    case ListingEvent(s, listed, failed, _, _, _) =>
      if Arrives(v, e) {
        if failed { ClearedSound(files, v, stuck); } else { InstalledSound(files, v, stuck, s, Unsized(listed)); }
      }
    case SizesEvent(s, latest, _) =>
      if Answered(v, e) {
        SoundShape(files, v, stuck);
        SizesAnswer(files, v.posted[s], latest);
        TakenSound(files, v, stuck, Sizes(files, v.posted[s], latest));
      }
  }

  lemma {:induction false} SoundShape(files: Files, v: View, stuck: set<nat>)
    requires Sound(files, v, stuck)
    ensures Shape(v)
  {
    hide Truthful, Flags;
  }

  lemma {:induction false} SizesAnswer(files: Files, t: Task, latest: seq<nat>)
    requires t.ListSizes?
    ensures Answers(files, t, Sizes(files, t, latest))
  {
  }

  lemma {:induction false} StepSound(files: Files, v: View, stuck: set<nat>, e: Event)
    requires Sound(files, v, stuck)
    ensures Sound(files, Step(files, v, e), (if Relists(v, e) then {} else stuck) + Rows(Refused(files, v, e)))
  {
    hide Sound, Ready, Asks, Queued, Asked, Shape;
    SoundShape(files, v, stuck);
    var w, left := Ready(files, v, e), if Relists(v, e) then {} else stuck;
    var r := Asks(v, w, e);
    ReadySound(files, v, stuck, e);
    assert left + {} == left && Rows([]) == {};
    if r.Range? {
      QueuedSound(files, w, left, r.first, r.last, Accepts(e));
    }
  }

  lemma {:induction false} AfterSound(files: Files, events: seq<Event>)
    ensures Sound(files, After(files, events), RefusedRows(files, events))
    decreases |events|
  {
    hide Sound, Step, Refused, Relists;
    if events == [] {
      NothingSound(files);
    } else {
      var n := |events| - 1;
      AfterSound(files, events[..n]);
      StepSound(files, After(files, events[..n]), RefusedRows(files, events[..n]), events[n]);
    }
  }

  // ------------------------------------------------------------------
  // Whole sessions
  // ------------------------------------------------------------------

  /** Rows refused are those of the batches refused from the last listing on. */
  lemma {:induction false} RefusedRowsIff(files: Files, events: seq<Event>, i: nat)
    ensures i in RefusedRows(files, events) <==>
      exists k :: Since(files, events) <= k < |events| && i in RefusedAt(files, events, k)
    decreases |events|
  {
    hide After, Refused, Relists;
    if events != [] {
      var n := |events| - 1;
      var before := events[..n];
      RefusedRowsIff(files, before, i);
      forall k | 0 <= k < n ensures RefusedAt(files, events, k) == RefusedAt(files, before, k) {
        assert before[..k] == events[..k];
      }
      assert RefusedAt(files, events, n) == Refused(files, After(files, before), events[n]);
      if i in RefusedRows(files, events) {
        if i !in RefusedAt(files, events, n) {
          var k :| Since(files, before) <= k < n && i in RefusedAt(files, before, k);
          assert i in RefusedAt(files, events, k);
        }
      }
    }
  }

  /**
    After any events the rows flagged in the directory shown are exactly those in flight and those of the batches the
    worker has refused since it was last asked for or listed.
  */
  lemma {:induction false} FlagsExactly(files: Files, events: seq<Event>, i: nat)
    requires Current(After(files, events)) && i < |After(files, events).entries|
    ensures i < |After(files, events).pending|
    ensures After(files, events).pending[i] <==>
      i in Flying(After(files, events)) ||
      exists k :: Since(files, events) <= k < |events| && i in RefusedAt(files, events, k)
  {
    hide After, RefusedAt, RefusedRows, Since, Truthful;
    AfterSound(files, events);
    RefusedRowsIff(files, events, i);
  }

  /** Every batch asked for since the last listing was accepted. */
  ghost predicate NoneRefused(files: Files, events: seq<Event>) {
    forall k :: Since(files, events) <= k < |events| ==> RefusedAt(files, events, k) == []
  }

  /** The flags are those of the batch in flight if and only if no batch was refused since the directory was last listed. */
  lemma {:induction false} FlagsIff(files: Files, events: seq<Event>)
    requires Current(After(files, events))
    ensures var v := After(files, events);
      |v.pending| == |v.entries| &&
      ((forall i :: 0 <= i < |v.pending| ==> (v.pending[i] <==> i in Flying(v))) <==> NoneRefused(files, events))
  {
    hide After, RefusedAt, RefusedRows, Since, Truthful;
    var v := After(files, events);
    AfterSound(files, events);
    forall i: nat ensures i in RefusedRows(files, events) <==>
      exists k :: Since(files, events) <= k < |events| && i in RefusedAt(files, events, k)
    {
      RefusedRowsIff(files, events, i);
    }
    if !NoneRefused(files, events) {
      var k :| Since(files, events) <= k < |events| && RefusedAt(files, events, k) != [];
      var r := RefusedAt(files, events, k)[0];
      assert r in RefusedAt(files, events, k);
      assert r in RefusedRows(files, events);
    }
  }

  /** After any events every size shown is that of the file named in its row, in the directory shown. */
  lemma {:induction false} SizesTrue(files: Files, events: seq<Event>)
    ensures var v := After(files, events);
      Truthful(files, v.path, v.entries) && |Flying(v)| <= BATCH && Ascending(Flying(v))
  {
    hide After, RefusedRows, Truthful, Flags;
    AfterSound(files, events);
  }

  // ------------------------------------------------------------------
  // The list
  // ------------------------------------------------------------------

  class FileList {
    var path: string
    var entries: seq<Entry>
    var viewSeq: nat
    var seqList: nat
    var seqSizes: nat
    var pending: seq<bool>
    var rows: seq<nat>
    var wantFirst: int
    var wantLast: int
    var posted: map<nat, Task>  // every task ever posted, by sequence number
    var lastSeq: nat

    function Value(): View
      reads this
    {
      View(path, entries, viewSeq, seqList, seqSizes, pending, rows, wantFirst, wantLast, posted, lastSeq)
    }

    predicate Valid()
      reads this
    {
      Shape(Value())
    }

    constructor ()
      ensures Valid() && Value() == EMPTY
    {
      path, entries, viewSeq, seqList, seqSizes := "", [], 0, 0, 0;
      pending, rows, wantFirst, wantLast, posted, lastSeq := [], [], 0, -1, map[], 0;
    }

    /** backend_post; zero when the worker is not running. */
    method Post(t: Task, accepted: bool) returns (s: nat)
      modifies `posted, `lastSeq
      ensures s == PostSeq(old(Value()), accepted) && Value() == Posted(old(Value()), t, accepted)
    {
      if !accepted {
        return 0;
      }
      lastSeq := lastSeq + 1;
      posted := posted[lastSeq := t];
      return lastSeq;
    }

    /**
      queue_list_sizes: at most one batch is in flight.  The rows of a refused batch stay flagged, so that they are not
      asked for again.
    */
    method Queue(first0: int, last0: int, accepted: bool)
      requires Valid()
      modifies `wantFirst, `wantLast, `pending, `rows, `seqSizes, `posted, `lastSeq
      ensures Valid() && Value() == Queued(old(Value()), first0, last0, accepted)
    {
      hide Flagged, Batch, Names;
      ghost var goal := Queued(Value(), first0, last0, accepted);
      assert Shape(goal);
      if viewSeq != seqList || entries == [] {
        return;
      }
      var first, last := first0, last0;
      if first < 0 {
        first := 0;
      }
      if last >= |entries| {
        last := |entries| - 1;
      }
      if first > last {
        return;
      }
      wantFirst, wantLast := first, last;
      if seqSizes != 0 {
        return;
      }
      Send(first, last, accepted);
    }

    /** Flag the next batch and post it. */
    method Send(first: nat, last: nat, accepted: bool)
      requires Valid() && Current(Value()) && first <= last < |entries|
      modifies `pending, `rows, `seqSizes, `posted, `lastSeq
      ensures var b := Batch(old(entries), old(pending), first, last + 1);
        Value() == if b == [] then old(Value()) else Sent(old(Value()), b, accepted)
    {
      hide Flagged, Batch, Names, Shape;
      SameLength(Value());
      var flags, batch, names := Collect(entries, pending, first, last);
      if batch == [] {
        return;
      }
      pending := flags;
      rows := batch;
      seqSizes := Post(ListSizes(path, viewSeq, names), accepted);
    }

    /** hint_list_sizes */
    method Hint(from: int, to: int, perPage: int, accepted: bool)
      requires Valid()
      modifies `wantFirst, `wantLast, `pending, `rows, `seqSizes, `posted, `lastSeq
      ensures Valid() && Value() == Hinted(old(Value()), HintRange(old(Value()), from, to, perPage), accepted)
    {
      hide Queued, Asked, Shape, Window;
      if from < 0 || to < from || entries == [] {
        return;
      }
      var (first, last) := Window(from, to, perPage, |entries|);
      Queue(first, last, accepted);
    }

    /** navigate: sizes still coming for the old view belong to nobody. */
    method Navigate(to: string, accepted: bool)
      requires Valid()
      modifies `seqList, `posted, `lastSeq, `seqSizes, `pending, `rows, `wantLast
      ensures Valid() && Value() == Asking(old(Value()), to, accepted) && !Current(Value()) && seqSizes == 0
      ensures accepted ==> seqList in posted && posted[seqList] == ListDir(to)
    {
      seqList := Post(ListDir(to), accepted);
      seqSizes, pending, rows, wantLast := 0, [], [], -1;
    }

    /** list_clear */
    method Clear()
      requires Valid()
      modifies `path, `viewSeq, `entries
      ensures Valid() && Value() == Cleared(old(Value()))
    {
      path, viewSeq, entries := "", 0, [];
    }

    /** fill_list up to its request. */
    method Install(s: nat, listed: seq<Entry>)
      requires Valid() && s in posted
      modifies `path, `entries, `viewSeq, `seqSizes, `rows, `wantFirst, `wantLast, `pending
      ensures Valid() && Value() == Installed(old(Value()), s, listed)
    {
      path, entries, viewSeq := posted[s].path, listed, s;
      seqSizes, rows, wantFirst, wantLast := 0, [], 0, -1;
      pending := seq(|listed|, _ => false);
    }

    /** A directory arrives: used only if it is the one last asked for. */
    method OnListing(s: nat, listed: seq<Entry>, failed: bool, top: int, perPage: int, accepted: bool)
      requires Valid() && s in posted && posted[s].ListDir?
      modifies this
      ensures Valid()
      ensures s != old(seqList) ==> Value() == old(Value())
      ensures s == old(seqList) && failed ==> Value() == Cleared(old(Value()))
      ensures s == old(seqList) && !failed ==>
        var w, span := Installed(old(Value()), s, listed), if perPage > 0 then perPage else 1;
        Value() == Hinted(w, HintRange(w, top, top + span - 1, perPage), accepted)
    {
      hide Shape, Installed, Hinted, HintRange, Cleared;
      if s != seqList {
        return;
      }
      if failed {
        Clear();
        return;
      }
      Install(s, listed);
      var span := if perPage > 0 then perPage else 1;
      Hint(top, top + span - 1, perPage, accepted);
    }

    /** Sizes arrive: used only if they are of the batch in flight and of the newest listing. */
    method OnSizes(s: nat, sizes: seq<nat>, accepted: bool)
      requires Valid() && s in posted && posted[s].ListSizes?
      modifies this
      ensures Valid()
      ensures s != old(seqSizes) || old(posted)[s].owner != old(seqList) ==> Value() == old(Value())
      ensures s == old(seqSizes) && old(posted)[s].owner == old(seqList) ==>
        var w := Taken(old(Value()), sizes);
        Value() == Hinted(w, if w.wantLast >= w.wantFirst then Range(w.wantFirst, w.wantLast) else NoRange, accepted)
    {
      hide Shape, Taken, Queued;
      if s != seqSizes || posted[s].owner != seqList {
        return;
      }
      Take(sizes);
      if wantLast >= wantFirst {
        Queue(wantFirst, wantLast, accepted);
      }
    }

    /** fill_list_sizes up to its request. */
    method Take(sizes: seq<nat>)
      requires Valid()
      modifies `pending, `entries, `rows, `seqSizes
      ensures Valid() && Value() == Taken(old(Value()), sizes)
    {
      hide Unflagged, Filled, Shape;
      TakenShape(Value(), sizes);
      pending := Unflag(pending, rows);
      entries := Fill(entries, rows, sizes);
      rows := [];
      seqSizes := 0;
    }
  }

  lemma {:induction false} TakenShape(v: View, sizes: seq<nat>)
    requires Shape(v)
    ensures Shape(Taken(v, sizes))
  {
  }

  lemma {:induction false} SameLength(v: View)
    requires Shape(v) && Current(v)
    ensures |v.pending| == |v.entries|
  {
  }

  /** Any events, handled one after the other. */
  method Session(files: Files, events: seq<Event>)
    returns (path: string, entries: seq<Entry>, current: bool, pending: seq<bool>, flying: seq<nat>)
    ensures var v := After(files, events);
      path == v.path && entries == v.entries && current == Current(v) && pending == v.pending && flying == Flying(v)
    ensures Truthful(files, path, entries) && |flying| <= BATCH && Ascending(flying)
    ensures current ==>
      |pending| == |entries| &&
      ((forall i :: 0 <= i < |pending| ==> (pending[i] <==> i in flying)) <==> NoneRefused(files, events))
  {
    hide Truthful, After, Step, Shape, Ascending, NoneRefused;
    var v := new FileList();
    var i := 0;
    AfterNothing(files);
    assert events[..0] == [];
    while i < |events|
      invariant 0 <= i <= |events| && v.Valid() && v.Value() == After(files, events[..i])
    {
      AfterOne(files, events, i);
      Handle(files, v, events[i]);
      i := i + 1;
    }
    assert events[..i] == events;
    SizesTrue(files, events);
    if Current(v.Value()) {
      FlagsIff(files, events);
    }
    return v.path, v.entries, v.entries != [] && v.viewSeq == v.seqList, v.pending, if v.seqSizes != 0 then v.rows else [];
  }

  lemma {:induction false} AfterNothing(files: Files)
    ensures After(files, []) == EMPTY
  {
  }

  lemma {:induction false} AfterOne(files: Files, events: seq<Event>, i: nat)
    requires i < |events|
    ensures After(files, events[..i + 1]) == Step(files, After(files, events[..i]), events[i])
  {
    hide Step;
    assert events[..i + 1][..i] == events[..i];
  }

  /** The dispatch of one event. */
  method Handle(files: Files, v: FileList, e: Event)
    requires v.Valid()
    modifies v
    ensures v.Valid() && v.Value() == Step(files, old(v.Value()), e)
  {
    hide Shape, Queued, Asking, Cleared, Installed, Taken, Hinted, HintRange, Sizes, Answers;
    match e
    case NavigateEvent(to, accepted) =>
      v.Navigate(to, accepted);
      HintedNothing(v.Value(), accepted);
    case ClearEvent =>
      v.Clear();
      HintedNothing(v.Value(), false);
    case HintEvent(from, to, perPage, accepted) => v.Hint(from, to, perPage, accepted);
    case ListingEvent(s, listed, failed, top, perPage, accepted) =>
      if s in v.posted && v.posted[s].ListDir? {
        v.OnListing(s, Unsized(listed), failed, top, perPage, accepted);
      }
      HintedNothing(v.Value(), accepted);
    case SizesEvent(s, latest, accepted) =>
      if s in v.posted && v.posted[s].ListSizes? {
        var sizes := RunListSizes(files, v.posted[s], latest);
        v.OnSizes(s, sizes, accepted);
      }
      HintedNothing(v.Value(), accepted);
  }

  lemma {:induction false} HintedNothing(v: View, accepted: bool)
    requires Shape(v)
    ensures Hinted(v, NoRange, accepted) == v
  {
  }

  // ------------------------------------------------------------------
  // A refused batch
  // ------------------------------------------------------------------

  const ONE_FILE: seq<Entry> := [Entry("file", false, false, 0, false)]

  // A directory of one file is listed, its size is refused, and it is asked for again.
  const REFUSED_RUN: seq<Event> := [
    NavigateEvent("/", true), ListingEvent(1, ONE_FILE, false, 0, 1, false), HintEvent(0, 0, 1, true)]

  /** A request for the one row of a list with nothing in flight. */
  lemma {:induction false} OneRow(v: View, accepted: bool)
    requires Shape(v) && Current(v) && v.entries == ONE_FILE && v.seqSizes == 0
    ensures HintRange(v, 0, 0, 1) == Range(0, 0)
    ensures Asked(v, 0, 0) == if v.pending[0] then [] else [0]
    ensures var w := Hinted(v, Range(0, 0), accepted);
      && w.pending == [true] && w.entries == ONE_FILE && Current(w)
      && (v.pending[0] || !accepted ==> w.seqSizes == 0)
  {
    assert Window(0, 0, 1, 1) == (0, 0);
    assert Batch(v.entries, v.pending, 0, 0) == [];
    RequestFlags(v, 0, 0, accepted);
  }

  /** The row of the refused batch stays flagged, nothing is in flight, and asking again changes nothing. */
  lemma {:induction false} RefusedBatch(files: Files)
    ensures var v := After(files, REFUSED_RUN);
      Current(v) && v.pending == [true] && Flying(v) == [] && RefusedAt(files, REFUSED_RUN, 1) == [0]
  {
    hide Queued, Asked, Hinted, Installed, HintRange;
    var a := REFUSED_RUN;
    assert a[..0] == [] && a[..3] == a;
    AfterNothing(files);
    AfterOne(files, a, 0);
    var v1 := After(files, a[..1]);
    HintedNothing(Asking(EMPTY, "/", true), true);
    assert v1 == Asking(EMPTY, "/", true);
    AfterOne(files, a, 1);
    assert Unsized(ONE_FILE) == ONE_FILE;
    var w := Installed(v1, 1, ONE_FILE);
    InstalledOne(v1);
    OneRow(w, false);
    assert Ready(files, v1, a[1]) == w;
    var v2 := After(files, a[..2]);
    assert v2 == Hinted(w, Range(0, 0), false);
    AfterOne(files, a, 2);
    OneRow(v2, true);
  }

  lemma {:induction false} InstalledOne(v: View)
    requires Shape(v) && 1 in v.posted && v.seqList == 1
    ensures var w := Installed(v, 1, ONE_FILE);
      Shape(w) && Current(w) && w.entries == ONE_FILE && w.seqSizes == 0 && w.pending == [false]
  {
  }
}
