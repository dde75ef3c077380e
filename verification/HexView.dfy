/**
  The hex viewer's chunk cache (hexview.cpp) and the worker's read that fills it
  (run_read_chunk in backend.cpp).  Files do not change while they are viewed.
*/
module HexView {
  import opened Bits

  const CHUNK: nat := 0x1_0000
  const ROW_BYTES: nat := 16
  const WINDOW_ROWS: nat := 0x10_0000
  const CACHE_MAX: nat := 64
  const PENDING_MAX: nat := 4
  const UNKNOWN: nat := 0xffff_ffff_ffff_ffff

  // ------------------------------------------------------------------
  // Reading a chunk
  // ------------------------------------------------------------------

  /** read_chunk_task */
  datatype Task = Task(path: string, offset: nat, length: nat, limit: nat)

  datatype Result = Failed | Chunk(size: nat, data: seq<byte>)

  function Min(a: nat, b: nat): nat {
    if a <= b then a else b
  }

  /** The size a result reports: the file's, cut at the limit asked for. */
  function Reported(file: seq<byte>, limit: nat): nat {
    if limit != UNKNOWN && limit < |file| then limit else |file|
  }

  /** Sizes have 64 bits; so no limit at all is a limit behind the end of every file. */
  lemma {:induction false} ReportedMin(file: seq<byte>, limit: nat)
    requires |file| <= UNKNOWN
    ensures Reported(file, limit) == Min(limit, |file|)
  {
  }

  /** How many bytes a task wants: from its offset to the reported size, and no more than its length. */
  function Wanted(file: seq<byte>, t: Task): (n: nat)
    ensures n > 0 ==> t.offset + n <= Reported(file, t.limit) <= |file|
  {
    if t.offset < Reported(file, t.limit) then Min(Reported(file, t.limit) - t.offset, t.length) else 0
  }

  /** The bytes a task wants. */
  function Full(file: seq<byte>, t: Task): (s: seq<byte>)
    ensures |s| == Wanted(file, t)
  {
    if Wanted(file, t) > 0 then file[t.offset..t.offset + Wanted(file, t)] else []
  }

  /** How the environment answers one turn of the read loop: stop was asked for, an error, or so many bytes. */
  datatype Turn = Cancelled | Error | Gives(n: nat)

  /** What the turns give before the first that gives nothing. */
  function Given(turns: seq<Turn>): nat {
    if turns != [] && turns[0].Gives? && turns[0].n > 0 then turns[0].n + Given(turns[1..]) else 0
  }

  /** Every turn gives something. */
  predicate Giving(turns: seq<Turn>) {
    forall i :: 0 <= i < |turns| ==> turns[i].Gives? && turns[i].n > 0
  }

  /** An error comes while bytes are still wanted. */
  ghost predicate ErrorFirst(turns: seq<Turn>, want: nat) {
    exists k :: 0 <= k < |turns| && ErrorAt(turns, want, k)
  }

  predicate ErrorAt(turns: seq<Turn>, want: nat, k: nat)
    requires k < |turns|
  {
    turns[k].Error? && Giving(turns[..k]) && Given(turns[..k]) < want
  }

  /** When a read fails. */
  ghost predicate Fails(file: seq<byte>, t: Task, opens: bool, seeks: bool, turns: seq<Turn>) {
    !opens || (Wanted(file, t) > 0 && (!seeks || ErrorFirst(turns, Wanted(file, t))))
  }

  /** What may come back for a task: a front part of what it wants. */
  predicate Answers(file: seq<byte>, t: Task, r: Result) {
    r.Chunk? ==> r.size == Reported(file, t.limit) && r.data <= Full(file, t)
  }

  lemma {:induction false} GivenSplit(turns: seq<Turn>, i: nat)
    requires i <= |turns| && Giving(turns[..i])
    ensures Given(turns) == Given(turns[..i]) + Given(turns[i..])
    decreases i
  {
    if i == 0 {
      assert turns[0..] == turns && turns[..0] == [];
    } else {
      assert turns[1..][..i - 1] == turns[..i][1..] && turns[1..][i - 1..] == turns[i..];
      GivenSplit(turns[1..], i - 1);
    }
  }

  lemma {:induction false} GivenOne(turns: seq<Turn>, i: nat)
    requires i < |turns| && Giving(turns[..i])
    ensures var t := turns[i];
      if t.Gives? && t.n > 0 then Giving(turns[..i + 1]) && Given(turns[..i + 1]) == Given(turns[..i]) + t.n
      else Given(turns) == Given(turns[..i])
  {
    if turns[i].Gives? && turns[i].n > 0 {
      assert turns[..i + 1][..i] == turns[..i] && turns[..i + 1][i..] == [turns[i]];
      GivenSplit(turns[..i + 1], i);
      assert [turns[i]][1..] == [] && Given([turns[i]]) == turns[i].n + Given([]);
    } else {
      GivenSplit(turns, i);
    }
  }

  /** The turns before i have given all that is wanted, or turn i ends the read without an error: no error comes first. */
  lemma {:induction false} NoErrorFirst(turns: seq<Turn>, want: nat, i: nat)
    requires i <= |turns| && Giving(turns[..i])
    requires Given(turns[..i]) >= want || i == |turns| || turns[i].Cancelled? || turns[i] == Gives(0)
    ensures !ErrorFirst(turns, want)
  {
    if ErrorFirst(turns, want) {
      var k :| 0 <= k < |turns| && ErrorAt(turns, want, k);
      if i < k {
        assert turns[..k][i] == turns[i];
        assert turns[..k][..i] == turns[..i];
        GivenSplit(turns[..k], i);
      }
    }
  }

  lemma {:induction false} SomeGiven(turns: seq<Turn>, i: nat)
    requires i <= |turns| && Giving(turns[..i])
    ensures Given(turns) >= Given(turns[..i]) && (i == |turns| ==> Given(turns) == Given(turns[..i]))
  {
    GivenSplit(turns, i);
    assert i == |turns| ==> turns[i..] == [];
  }

  /** More of what is wanted. */
  lemma {:induction false} MoreRead(file: seq<byte>, t: Task, data: seq<byte>, got: nat)
    requires data <= Full(file, t) && |data| + got <= Wanted(file, t) && 0 < got
    ensures t.offset + |data| + got <= |file|
    ensures data + file[t.offset + |data|..t.offset + |data| + got] == Full(file, t)[..|data| + got]
  {
  }

  /**
    run_read_chunk.  A read gives no more than asked for, and no more than the file has; after the last turn it gives
    nothing.
  */
  method ReadChunk(file: seq<byte>, t: Task, opens: bool, seeks: bool, turns: seq<Turn>) returns (r: Result)
    ensures Answers(file, t, r)
    ensures r.Failed? <==> Fails(file, t, opens, seeks, turns)
    ensures r.Chunk? ==> |r.data| == Min(Wanted(file, t), Given(turns))
    ensures r.Chunk? && Given(turns) >= Wanted(file, t) ==> r.data == Full(file, t)
  {
    hide Giving, Given, ErrorFirst, Full;
    if !opens {
      return Failed;
    }
    var size := Reported(file, t.limit);
    var remain := if t.offset < size then size - t.offset else 0;
    var want := if remain < t.length then remain else t.length;
    if want > 0 && !seeks {
      return Failed;
    }
    var data: seq<byte> := [];
    var i := 0;
    NoneGiven(turns);
    while |data| < want && i < |turns|
      invariant 0 <= i <= |turns| && |data| <= want == Wanted(file, t) && data <= Full(file, t)
      invariant Giving(turns[..i]) && |data| == Min(want, Given(turns[..i]))
      invariant want > 0 ==> seeks
      decreases |turns| - i
    {
      GivenOne(turns, i);
      match turns[i] {
        case Cancelled => break;
        case Error =>
          ErrorIsFirst(turns, want, i);
          return Failed;
        case Gives(n) =>
          if n == 0 {
            break;
          }
          var got := if n <= want - |data| then n else want - |data|;
          MoreRead(file, t, data, got);
          data := data + file[t.offset + |data|..t.offset + |data| + got];
      }
      i := i + 1;
    }
    NoErrorFirst(turns, want, i);
    SomeGiven(turns, i);
    r := Chunk(size, data);
    if |data| == want { assert data == Full(file, t); }
  }

  lemma {:induction false} NoneGiven(turns: seq<Turn>)
    ensures Giving(turns[..0]) && Given(turns[..0]) == 0
  {
  }

  lemma {:induction false} ErrorIsFirst(turns: seq<Turn>, want: nat, i: nat)
    requires i < |turns| && turns[i].Error? && Giving(turns[..i]) && Given(turns[..i]) < want
    ensures ErrorFirst(turns, want)
  {
    assert ErrorAt(turns, want, i);
  }

  // ------------------------------------------------------------------
  // The viewer
  // ------------------------------------------------------------------

  /** The bytes of the file at an offset start with the data, and the data stays within the length asked for. */
  predicate BytesAt(file: seq<byte>, offset: nat, length: nat, data: seq<byte>) {
    |data| <= length && (data == [] || (offset + |data| <= |file| && data == file[offset..offset + |data|]))
  }

  /** Every chunk is all of the file there, up to the chunk's end and the size shown. */
  ghost predicate CacheWhole(file: seq<byte>, path: string, size: nat, cache: map<nat, seq<byte>>) {
    forall b :: b in cache ==> cache[b] == Full(file, Task(path, b, CHUNK, size))
  }

  /** Reads in flight were asked for with the size now shown, or without any. */
  ghost predicate LimitsGood(file: seq<byte>, size: nat, pending: map<nat, nat>, posted: map<nat, Task>) {
    forall s :: s in pending && s in posted ==> Reported(file, posted[s].limit) == Reported(file, size)
  }

  /** The chunk of a file offset. */
  function ChunkOf(offset: nat): (base: nat)
    ensures base <= offset
  {
    offset - offset % CHUNK
  }

  /** Asking for a chunk: nothing is asked for twice, and no more than four reads are in flight. */
  predicate Asks(cache: map<nat, seq<byte>>, pending: map<nat, nat>, base: nat) {
    base !in cache && |pending| < PENDING_MAX && base !in pending.Values
  }

  predicate Distinct(s: seq<nat>) {
    forall i, j :: 0 <= i < j < |s| ==> s[i] != s[j]
  }

  /** The queue lists each cached chunk once, and every chunk holds the file's bytes. */
  ghost predicate CacheGood(file: seq<byte>, cache: map<nat, seq<byte>>, fifo: seq<nat>) {
    Lists(fifo, cache) && |fifo| <= CACHE_MAX && forall b :: b in cache ==> BytesAt(file, b, CHUNK, cache[b])
  }

  /** Reads in flight are few, for different chunks, none of them cached, and all of the file shown. */
  ghost predicate PendingGood(path: string, pending: map<nat, nat>, cache: map<nat, seq<byte>>, posted: map<nat, Task>) {
    && |pending| <= PENDING_MAX
    && (forall s, t :: s in pending && t in pending && pending[s] == pending[t] ==> s == t)
    && (forall s :: s in pending ==> pending[s] !in cache)
    && (forall s :: s in pending && s != 0 ==>
          s in posted && posted[s].path == path && posted[s].offset == pending[s] && posted[s].length == CHUNK)
  }

  /** Nothing is dropped but the oldest chunk of a full cache. */
  ghost predicate Keeps(before: map<nat, seq<byte>>, fifo: seq<nat>, after: map<nat, seq<byte>>) {
    forall b :: b in before && (|fifo| < CACHE_MAX || b != fifo[0]) ==> b in after && after[b] == before[b]
  }

  lemma {:induction false} NothingRead(file: seq<byte>, path: string, size: nat, posted: map<nat, Task>)
    ensures CacheGood(file, map[], []) && PendingGood(path, map[], map[], posted)
    ensures LimitsGood(file, size, map[], posted) && CacheWhole(file, path, size, map[])
  {
  }

  class Viewer {
    const files: string -> seq<byte>
    var shown: bool          // the dialog exists
    var live: bool           // g_hex is not null
    var path: string
    var size: nat
    var viewBase: nat
    var rows: nat            // rows the list shows
    var cache: map<nat, seq<byte>>
    var fifo: seq<nat>
    var pending: map<nat, nat>
    var posted: map<nat, Task>  // every read ever posted, by sequence number
    var lastSeq: nat
    ghost var calm: bool        // no read that was used for this file was cut short

    ghost predicate CacheOk()
      reads this
    {
      CacheGood(files(path), cache, fifo)
    }

    ghost predicate PendingOk()
      reads this
    {
      PendingGood(path, pending, cache, posted)
    }

    ghost predicate PostedOk()
      reads this
    {
      forall s :: s in posted ==> 0 < s <= lastSeq && posted[s].length == CHUNK
    }

    ghost predicate LimitsOk()
      reads this
    {
      LimitsGood(files(path), size, pending, posted)
    }

    ghost predicate WholeOk()
      reads this
    {
      calm ==> CacheWhole(files(path), path, size, cache)
    }

    ghost predicate Valid()
      reads this
    {
      && CacheOk() && PendingOk() && PostedOk() && LimitsOk() && WholeOk() && (live ==> shown)
      && viewBase % ROW_BYTES == 0
      && (!shown ==> cache == map[] && fifo == [] && pending == map[])
    }

    constructor (files: string -> seq<byte>)
      ensures Valid() && !shown && calm && this.files == files
    {
      this.files := files;
      shown, live, path, size, viewBase, rows := false, false, "", 0, 0, 0;
      cache, fifo, pending, posted, lastSeq, calm := map[], [], map[], map[], 0, true;
    }

    /** backend_post; zero when the worker is not running. */
    method Post(t: Task, accepted: bool) returns (s: nat)
      requires PostedOk() && t.length == CHUNK
      modifies `posted, `lastSeq
      ensures PostedOk()
      ensures if accepted then s == lastSeq == old(lastSeq) + 1 && posted == old(posted)[s := t] else s == 0 && lastSeq == old(lastSeq) && posted == old(posted)
    {
      if !accepted {
        return 0;
      }
      lastSeq := lastSeq + 1;
      posted := posted[lastSeq := t];
      return lastSeq;
    }

    /** What a request leaves behind: the chunk is in flight if it is to be asked for. */
    twostate predicate Asked(base: nat, accepted: bool)
      reads this
    {
      if !Asks(old(cache), old(pending), base) then
        pending == old(pending) && posted == old(posted) && lastSeq == old(lastSeq)
      else if !accepted then
        pending == old(pending)[0 := base] && posted == old(posted) && lastSeq == old(lastSeq)
      else
        && lastSeq == old(lastSeq) + 1 && pending == old(pending)[lastSeq := base]
        && posted == old(posted)[lastSeq := Task(path, base, CHUNK, size)]
    }

    /** hex_request */
    method Request(base: nat, accepted: bool)
      requires Valid() && shown
      modifies `posted, `lastSeq, `pending
      ensures Valid() && Asked(base, accepted)
    {
      hide CacheGood, PendingGood, LimitsGood, CacheWhole;
      if base in cache || |pending| >= PENDING_MAX {
        return;
      }
      if base in pending.Values {
        return;
      }
      ghost var before := posted;
      var s := Post(Task(path, base, CHUNK, size), accepted);
      Requested(path, pending, cache, before, s, Task(path, base, CHUNK, size));
      LimitAsked(files(path), size, pending, before, s, Task(path, base, CHUNK, size));
      pending := pending[s := base];
      assert Asks(old(cache), old(pending), base);
    }

    /**
      hex_set_view: the first row shown is a multiple of sixteen inside the file, as many rows follow as fit, and the
      chunk of the first row is asked for.
    */
    method SetView(offset0: nat, accepted: bool)
      requires Valid() && shown
      modifies `posted, `lastSeq, `pending, `viewBase, `rows
      ensures Valid()
      ensures size == UNKNOWN ==>
        viewBase == old(viewBase) && rows == old(rows) && pending == old(pending) && posted == old(posted)
      ensures size != UNKNOWN ==> ViewOk(size, viewBase, rows) && viewBase <= offset0
      ensures size != UNKNOWN && offset0 < size ==> offset0 < viewBase + ROW_BYTES
      ensures size != UNKNOWN && size > 0 ==> Asked(ChunkOf(viewBase), accepted)
      ensures size == 0 ==> pending == old(pending) && posted == old(posted)
    {
      if size == UNKNOWN {
        return;
      }
      hide CacheGood, PendingGood, LimitsGood, CacheWhole, ChunkOf;
      viewBase, rows := ViewOf(size, offset0);
      if rows > 0 {
        Request(ChunkOf(viewBase), accepted);
      }
    }

    /**
      hex_on_chunk: a result is used only if it answers a read of the file shown.  `whole` says that the read
      brought all that was wanted.
    */
    method OnChunk(s: nat, r: Result, accepted: bool, ghost whole: bool)
      requires Valid() && s in posted && Answers(files(posted[s].path), posted[s], r)
      requires whole && r.Chunk? ==> r.data == Full(files(posted[s].path), posted[s])
      modifies this`live, this`size, this`viewBase, this`rows, this`cache, this`fifo, this`pending, this`posted, this`lastSeq,
               this`calm
      ensures Valid() && calm == (old(calm) && (whole || !old(live) || s !in old(pending) || r.Failed?))
      ensures !old(live) || s !in old(pending) ==> cache == old(cache) && pending == old(pending) && size == old(size)
      ensures old(live) && s in old(pending) && r.Chunk? ==>
        var base := old(pending)[s];
        && base in cache && cache[base] == r.data && Keeps(old(cache), old(fifo), cache)
        && size == if old(size) == UNKNOWN then r.size else old(size)
      ensures old(live) && s in old(pending) && r.Failed? ==> !live && cache == old(cache) && size == old(size)
    {
      hide CacheGood, PendingGood, BytesAt, Answers, Keeps, LimitsGood, CacheWhole, Full;
      if !live || s !in pending {
        return;
      }
      var base := pending[s];
      if r.Chunk? { AnswerBytes(s, r); }
      Answered(path, pending, cache, posted, s);
      LimitsFewer(files(path), size, pending, posted, s);
      pending := pending - {s};
      if r.Failed? {
        live := false;
        return;
      }
      calm := calm && whole;
      UseChunk(base, r, accepted);
    }

    method UseChunk(base: nat, r: Result, accepted: bool)
      requires Valid() && shown && r.Chunk? && base !in cache && base !in pending.Values
      requires BytesAt(files(path), base, CHUNK, r.data) && r.size == Reported(files(path), size)
      requires calm ==> r.data == Full(files(path), Task(path, base, CHUNK, size))
      modifies this`size, this`viewBase, this`rows, this`cache, this`fifo, this`pending, this`posted, this`lastSeq
      ensures Valid() && base in cache && cache[base] == r.data && Keeps(old(cache), old(fifo), cache)
      ensures size == if old(size) == UNKNOWN then r.size else old(size)
    {
      hide CacheGood, PendingGood, BytesAt, Keeps, LimitsGood, CacheWhole, Full;
      var gotSize := size == UNKNOWN;
      if gotSize {
        SizeLearnt(files(path), path, r.size, cache, pending, posted, base);
        size := r.size;
      }
      StoreChunk(base, r.data);
      if gotSize {
        SetView(0, accepted);
      }
    }

    lemma AnswerBytes(s: nat, r: Result)
      requires Valid() && s in posted && s in pending && Answers(files(posted[s].path), posted[s], r) && r.Chunk?
      ensures posted[s].path == path && BytesAt(files(path), pending[s], CHUNK, r.data)
      ensures r.size == Reported(files(path), size)
      ensures Full(files(path), posted[s]) == Full(files(path), Task(path, pending[s], CHUNK, size))
    {
      hide CacheGood, CacheWhole;
    }

    /** Keep a chunk, dropping the oldest when there are too many. */
    method StoreChunk(base: nat, data: seq<byte>)
      requires Valid() && shown && base !in cache && base !in pending.Values && BytesAt(files(path), base, CHUNK, data)
      requires calm ==> data == Full(files(path), Task(path, base, CHUNK, size))
      modifies `cache, `fifo
      ensures Valid() && base in cache && cache[base] == data
      ensures Keeps(old(cache), old(fifo), cache)
    {
      hide CacheGood, PendingGood, BytesAt, LimitsGood, Full;
      StoredGood(files(path), cache, fifo, base, data);
      StoredPending(path, pending, cache, posted, fifo, base, data);
      cache := cache[base := data];
      fifo := fifo + [base];
      if |fifo| > CACHE_MAX {
        cache := cache - {fifo[0]};
        fifo := fifo[1..];
      }
    }

    /** hex_getdispinfo for the byte columns: a row of the list shows sixteen bytes, or fewer at the end of what is there. */
    method Row(item: nat, accepted: bool) returns (bytes: seq<byte>)
      requires Valid() && shown
      modifies `posted, `lastSeq, `pending
      ensures Valid()
      ensures var off := viewBase + item * ROW_BYTES;
        if ChunkOf(off) in cache then
          && pending == old(pending) && BytesAt(files(path), off, ROW_BYTES, bytes)
          && (calm ==> bytes == Full(files(path), Task(path, off, ROW_BYTES, size)))
        else bytes == [] && Asked(ChunkOf(off), accepted)
    {
      hide CacheGood, PendingGood, LimitsGood, CacheWhole, BytesAt, Full, ChunkOf;
      var off := viewBase + item * ROW_BYTES;
      var base := ChunkOf(off);
      if base !in cache {
        Request(base, accepted);
        return [];
      }
      RowAligned(viewBase, item);
      var data := cache[base];
      var start := off - base;
      var n := if start < |data| then |data| - start else 0;
      if n > ROW_BYTES {
        n := ROW_BYTES;
      }
      bytes := if n > 0 then data[start..start + n] else [];
      ChunkBytes(files(path), cache, fifo, base);
      RowBytes(files(path), base, start, data);
      if calm {
        ChunkWhole(files(path), path, size, cache, base);
        RowWhole(files(path), path, size, base, start, data);
      }
    }

    /** show_hex up to the first request. */
    method Show(path: string, known: nat, accepted: bool)
      requires Valid() && !shown
      modifies this
      ensures Valid() && shown && live && calm && this.path == path && size == known
      ensures known == 0 ==> pending == map[]
      ensures known > 0 ==> pending == map[if accepted then lastSeq else 0 := 0]
    {
      hide CacheGood, PendingGood, BytesAt, Answers, Keeps, LimitsGood, CacheWhole;
      NothingRead(files(path), path, known, posted);
      this.path, size := path, known;
      shown, live, viewBase, rows, calm := true, true, 0, 0, true;
      if size == UNKNOWN {
        Request(0, accepted);
      } else {
        SetView(0, accepted);
      }
    }

    /** The dialog is cancelled: results are ignored from now on. */
    method Cancel()
      requires Valid()
      modifies `live
      ensures Valid() && !live && calm == old(calm)
    {
      live := false;
    }

    /** show_hex after the dialog: nothing of this file is left for the next one. */
    method Closed()
      requires Valid() && shown
      modifies `shown, `live, `cache, `fifo, `pending
      ensures Valid() && !shown && cache == map[] && pending == map[] && calm == old(calm)
    {
      shown, live := false, false;
      cache, fifo, pending := map[], [], map[];
    }
  }

  lemma {:induction false} LimitAsked(
      file: seq<byte>, size: nat, pending: map<nat, nat>, posted: map<nat, Task>, s: nat, t: Task)
    requires LimitsGood(file, size, pending, posted) && t.limit == size && (s == 0 ==> 0 !in posted) && s !in posted
    ensures LimitsGood(file, size, pending[s := t.offset], if s == 0 then posted else posted[s := t])
  {
  }

  lemma {:induction false} LimitsFewer(file: seq<byte>, size: nat, pending: map<nat, nat>, posted: map<nat, Task>, s: nat)
    requires LimitsGood(file, size, pending, posted)
    ensures LimitsGood(file, size, pending - {s}, posted)
  {
  }

  /** The size a first result brings changes nothing about what was read or asked for. */
  lemma {:induction false} SizeLearnt(
      file: seq<byte>, path: string, size: nat, cache: map<nat, seq<byte>>, pending: map<nat, nat>, posted: map<nat, Task>, base: nat)
    requires size == Reported(file, UNKNOWN)
    ensures LimitsGood(file, UNKNOWN, pending, posted) ==> LimitsGood(file, size, pending, posted)
    ensures CacheWhole(file, path, UNKNOWN, cache) ==> CacheWhole(file, path, size, cache)
    ensures Full(file, Task(path, base, CHUNK, UNKNOWN)) == Full(file, Task(path, base, CHUNK, size))
  {
  }

  /** A row lies in one chunk. */
  lemma {:induction false} RowAligned(viewBase: nat, item: nat)
    requires viewBase % ROW_BYTES == 0
    ensures var off := viewBase + item * ROW_BYTES; off - ChunkOf(off) + ROW_BYTES <= CHUNK
  {
    var off := viewBase + item * ROW_BYTES;
    var k := viewBase / ROW_BYTES + item;
    assert off == k * 16;
    assert off % CHUNK == 16 * (k % 4096);
  }

  lemma {:induction false} ChunkBytes(file: seq<byte>, cache: map<nat, seq<byte>>, fifo: seq<nat>, base: nat)
    requires CacheGood(file, cache, fifo) && base in cache
    ensures BytesAt(file, base, CHUNK, cache[base])
  {
  }

  lemma {:induction false} ChunkWhole(file: seq<byte>, path: string, size: nat, cache: map<nat, seq<byte>>, base: nat)
    requires CacheWhole(file, path, size, cache) && base in cache
    ensures cache[base] == Full(file, Task(path, base, CHUNK, size))
  {
  }

  lemma {:induction false} SliceTwice(s: seq<byte>, i: nat, m: nat, j: nat, n: nat)
    requires i + m <= |s| && j + n <= m
    ensures s[i..i + m][j..j + n] == s[i + j..i + j + n]
  {
    var a := s[i..i + m];
    var r, q := a[j..j + n], s[i + j..i + j + n];
    forall k | 0 <= k < n ensures r[k] == q[k] {
      assert a[j + k] == s[i + (j + k)];
    }
  }

  lemma {:induction false} RowBytes(file: seq<byte>, base: nat, start: nat, data: seq<byte>)
    requires BytesAt(file, base, CHUNK, data)
    ensures start < |data| ==> BytesAt(file, base + start, ROW_BYTES, data[start..start + Min(|data| - start, ROW_BYTES)])
    ensures BytesAt(file, base + start, ROW_BYTES, [])
  {
    if start < |data| {
      var n := Min(|data| - start, ROW_BYTES);
      SliceTwice(file, base, |data|, start, n);
    }
  }

  lemma {:induction false} RowWhole(file: seq<byte>, path: string, size: nat, base: nat, start: nat, data: seq<byte>)
    requires data == Full(file, Task(path, base, CHUNK, size)) && start + ROW_BYTES <= CHUNK
    ensures Full(file, Task(path, base + start, ROW_BYTES, size)) ==
      if start < |data| then data[start..start + Min(|data| - start, ROW_BYTES)] else []
  {
    if start < |data| {
      var n := Min(|data| - start, ROW_BYTES);
      SliceTwice(file, base, |data|, start, n);
    }
  }

  /** The view starts on a row of the file and shows the rows from there to the end, up to the window's size. */
  predicate ViewOk(size: nat, base: nat, rows: nat) {
    && base % ROW_BYTES == 0 && (size > 0 ==> base < size) && (size == 0 ==> base == 0 && rows == 0)
    && rows <= WINDOW_ROWS
    && (size > 0 ==> rows > 0 && base + (rows - 1) * ROW_BYTES < size)
    && (rows < WINDOW_ROWS ==> size <= base + rows * ROW_BYTES)
  }

  /** The view for an offset asked for. */
  method ViewOf(size: nat, offset0: nat) returns (offset: nat, rows: nat)
    ensures ViewOk(size, offset, rows) && offset <= offset0 && (offset0 < size ==> offset0 < offset + ROW_BYTES)
  {
    hide ViewOk;
    RowStart(size, offset0);
    offset := offset0;
    if size == 0 {
      offset := 0;
    } else if offset >= size {
      offset := (size - 1) - (size - 1) % ROW_BYTES;
    } else {
      offset := offset - offset % ROW_BYTES;
    }
    RowCount(size, offset);
    rows := if size > offset then (size - offset + ROW_BYTES - 1) / ROW_BYTES else 0;
    if rows > WINDOW_ROWS {
      rows := WINDOW_ROWS;
    }
  }

  lemma {:induction false} RowStart(size: nat, offset: nat)
    ensures size > 0 ==> (var o := (size - 1) - (size - 1) % ROW_BYTES; 0 <= o < size && o % ROW_BYTES == 0)
    ensures var o := offset - offset % ROW_BYTES; 0 <= o <= offset < o + ROW_BYTES && o % ROW_BYTES == 0
  {
  }

  lemma {:induction false} RowCount(size: nat, base: nat)
    requires base % ROW_BYTES == 0 && (size > 0 ==> base < size) && (size == 0 ==> base == 0)
    ensures var rows := if size > base then (size - base + ROW_BYTES - 1) / ROW_BYTES else 0;
      ViewOk(size, base, if rows > WINDOW_ROWS then WINDOW_ROWS else rows)
  {
  }

  /** The queue lists each key of the cache once. */
  ghost predicate Lists(fifo: seq<nat>, cache: map<nat, seq<byte>>) {
    Distinct(fifo) && forall b :: b in cache <==> b in fifo
  }

  lemma {:induction false} Stored(cache: map<nat, seq<byte>>, fifo: seq<nat>, base: nat, data: seq<byte>)
    requires Lists(fifo, cache) && base !in cache
    ensures Lists(fifo + [base], cache[base := data])
  {
  }

  /** Storing a chunk, and dropping the oldest when there are too many, keeps the cache good. */
  lemma {:induction false} StoredGood(file: seq<byte>, cache: map<nat, seq<byte>>, fifo: seq<nat>, base: nat, data: seq<byte>)
    requires CacheGood(file, cache, fifo) && base !in cache && BytesAt(file, base, CHUNK, data)
    ensures |fifo| < CACHE_MAX ==> CacheGood(file, cache[base := data], fifo + [base])
    ensures |fifo| == CACHE_MAX ==> CacheGood(file, cache[base := data] - {(fifo + [base])[0]}, (fifo + [base])[1..])
    ensures |fifo| <= CACHE_MAX && (fifo != [] ==> fifo[0] in cache && (fifo + [base])[0] == fifo[0] != base)
  {
    hide Lists, BytesAt;
    Stored(cache, fifo, base, data);
    Evicted(cache[base := data], fifo + [base]);
    assert fifo != [] ==> fifo[0] in cache by { FirstListed(cache, fifo); }
  }

  lemma {:induction false} FirstListed(cache: map<nat, seq<byte>>, fifo: seq<nat>)
    requires Lists(fifo, cache)
    ensures fifo != [] ==> fifo[0] in cache
  {
  }

  lemma {:induction false} StoredPending(
      path: string, pending: map<nat, nat>, cache: map<nat, seq<byte>>, posted: map<nat, Task>, fifo: seq<nat>, base: nat, data: seq<byte>)
    requires PendingGood(path, pending, cache, posted) && base !in pending.Values
    ensures PendingGood(path, pending, cache[base := data], posted)
    ensures PendingGood(path, pending, cache[base := data] - {(fifo + [base])[0]}, posted)
  {
    forall s | s in pending ensures pending[s] != base {
      assert pending[s] in pending.Values;
    }
  }

  /** A read that has come back leaves no other read of its chunk behind. */
  lemma {:induction false} Answered(path: string, pending: map<nat, nat>, cache: map<nat, seq<byte>>, posted: map<nat, Task>, s: nat)
    requires PendingGood(path, pending, cache, posted) && s in pending
    ensures PendingGood(path, pending - {s}, cache, posted)
    ensures pending[s] !in cache && pending[s] !in (pending - {s}).Values
  {
    DropPending(pending, s);
  }

  lemma {:induction false} Requested(
      path: string, pending: map<nat, nat>, cache: map<nat, seq<byte>>, posted: map<nat, Task>, s: nat, t: Task)
    requires PendingGood(path, pending, cache, posted) && |pending| < PENDING_MAX
    requires t.offset !in cache && t.offset !in pending.Values && t.path == path && t.length == CHUNK
    requires s == 0 || (s !in posted)
    ensures PendingGood(path, pending[s := t.offset], cache, if s == 0 then posted else posted[s := t])
  {
    AddPending(pending, s, t.offset);
    forall u | u in pending ensures pending[u] != t.offset {
      assert pending[u] in pending.Values;
    }
  }

  lemma {:induction false} Evicted(cache: map<nat, seq<byte>>, fifo: seq<nat>)
    requires Lists(fifo, cache) && fifo != []
    ensures Lists(fifo[1..], cache - {fifo[0]})
  {
    var rest := fifo[1..];
    assert fifo == [fifo[0]] + rest;
    assert fifo[0] !in rest;
  }

  lemma {:induction false} AddPending(m: map<nat, nat>, s: nat, base: nat)
    ensures |m[s := base]| <= |m| + 1
  {
    if s in m {
      assert m[s := base].Keys == m.Keys;
      assert |m[s := base]| == |m[s := base].Keys| == |m.Keys| == |m|;
    } else {
      assert m[s := base].Keys == m.Keys + {s};
      assert |m[s := base]| == |m[s := base].Keys| && |m.Keys| == |m|;
    }
  }

  lemma {:induction false} DropPending(m: map<nat, nat>, s: nat)
    requires s in m
    ensures |m - {s}| <= |m|
  {
    assert (m - {s}).Keys == m.Keys - {s};
    assert |m - {s}| == |(m - {s}).Keys| && |m.Keys| == |m|;
  }

  // ------------------------------------------------------------------
  // Whole sessions
  // ------------------------------------------------------------------

  /** Anything that can happen to the viewer; a result may come at any time, in any order, for any read ever posted. */
  datatype Event =
    | ShowEvent(path: string, known: nat, accepted: bool)
    | PaintEvent(item: nat, accepted: bool)
    | ViewEvent(offset: nat, accepted: bool)
    | ResultEvent(seqno: nat, opens: bool, seeks: bool, turns: seq<Turn>, accepted: bool)
    | CancelEvent
    | ClosedEvent

  /** Every read that may be used brings at least a chunk, or fails. */
  predicate Undisturbed(events: seq<Event>) {
    forall i :: 0 <= i < |events| && events[i].ResultEvent? ==> Given(events[i].turns) >= CHUNK
  }

  /**
    After any events: the cache holds only bytes of the file shown, each chunk once, within the limits; and when no
    read was cut short, each chunk holds all of them up to the size shown.
  */
  method Session(files: string -> seq<byte>, events: seq<Event>)
    returns (shown: bool, path: string, size: nat, cache: map<nat, seq<byte>>, fifo: seq<nat>, pending: map<nat, nat>)
    ensures CacheGood(files(path), cache, fifo)
    ensures Undisturbed(events) ==> CacheWhole(files(path), path, size, cache)
    ensures |pending| <= PENDING_MAX && forall s :: s in pending ==> pending[s] !in cache
    ensures forall s, t :: s in pending && t in pending && pending[s] == pending[t] ==> s == t
    ensures !shown ==> cache == map[] && pending == map[]
  {
    hide CacheGood, PendingGood, Answers, LimitsGood, CacheWhole, Full, Fails, Given;
    var v := new Viewer(files);
    var i := 0;
    while i < |events|
      invariant 0 <= i <= |events| && v.Valid() && v.files == files
      invariant Undisturbed(events) ==> v.calm
    {
      match events[i] {
        case ShowEvent(path, known, accepted) =>
          if !v.shown {
            v.Show(path, known, accepted);
          }
        case PaintEvent(item, accepted) =>
          if v.shown {
            var bytes := v.Row(item, accepted);
          }
        case ViewEvent(offset, accepted) =>
          if v.shown {
            v.SetView(offset, accepted);
          }
        case ResultEvent(s, opens, seeks, turns, accepted) =>
          if s in v.posted {
            var t := v.posted[s];
            var r := ReadChunk(files(t.path), t, opens, seeks, turns);
            v.OnChunk(s, r, accepted, Given(turns) >= Wanted(files(t.path), t));
          }
        case CancelEvent =>
          v.Cancel();
        case ClosedEvent =>
          if v.shown {
            v.Closed();
          }
      }
      i := i + 1;
    }
    Unfold(v.path, v.pending, v.cache, v.posted);
    return v.shown, v.path, v.size, v.cache, v.fifo, v.pending;
  }

  lemma {:induction false} Unfold(path: string, pending: map<nat, nat>, cache: map<nat, seq<byte>>, posted: map<nat, Task>)
    requires PendingGood(path, pending, cache, posted)
    ensures |pending| <= PENDING_MAX && forall s :: s in pending ==> pending[s] !in cache
    ensures forall s, t :: s in pending && t in pending && pending[s] == pending[t] ==> s == t
  {
  }
}
