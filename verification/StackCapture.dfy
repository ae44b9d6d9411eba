/** Capturing a stack and looking its id up in a bounded cache of the thread (`src/stack_capture.rs`). */
module StackCapture {
  import opened Words
  import opened Events
  import opened Stacks

  datatype Depths = Depths(captureNative: bool, maxDepth: U64, nativeSkip: U64, pythonSkip: U64)

  function Take(frames: Frames, n: nat): Frames {
    if n < |frames| then frames[..n] else frames
  }

  function Drop(frames: Frames, n: nat): Frames {
    if n < |frames| then frames[n..] else []
  }

  /**
   * What a capture is to yield: the innermost `maxDepth` of the Python frames and then the native frames, each
   * without those to skip; a single placeholder if that is nothing. `native` is what the native unwinder reports.
   */
  function Visible(d: Depths, python: Option<Frames>, native: Frames): (frames: Frames)
    ensures d.maxDepth >= 1 ==> 1 <= |frames| <= d.maxDepth
  {
    var outer := if d.captureNative then Drop(native, d.nativeSkip) else [];
    var all := Take((if python.Some? then Drop(python.value, d.pythonSkip) else []) + outer, d.maxDepth);
    if |all| == 0 then [UNKNOWN] else all
  }

  lemma DropAt(frames: Frames, n: nat)
    ensures |Drop(frames, n)| == Max(0, |frames| - n)
    ensures forall i :: 0 <= i < |Drop(frames, n)| ==> Drop(frames, n)[i] == frames[n + i]
  {
  }

  lemma TakeAt(a: Frames, b: Frames, n: nat)
    ensures |Take(a + b, n)| == Min(n, |a| + |b|)
    ensures forall i :: 0 <= i < |Take(a + b, n)| ==> Take(a + b, n)[i] == if i < |a| then a[i] else b[i - |a|]
  {
  }

  /**
   * Frame by frame: first the Python frames from `pythonSkip` on, then, if native capture is on, the native ones from
   * `nativeSkip` on, as many as there are up to `maxDepth`; and if that is none, one frame that says so.
   */
  lemma VisibleFrames(d: Depths, python: Option<Frames>, native: Frames)
    ensures var inner := if python.Some? then python.value else [];
      var p := Max(0, |inner| - d.pythonSkip);
      var n := if d.captureNative then Max(0, |native| - d.nativeSkip) else 0;
      var frames := Visible(d, python, native);
      if Min(d.maxDepth, p + n) == 0 then frames == [FrameMetadata("<unknown>", "<unknown>", 0)]
      else
        && |frames| == Min(d.maxDepth, p + n)
        && (forall i :: 0 <= i < |frames| && i < p ==> frames[i] == inner[d.pythonSkip + i])
        && (forall i :: p <= i < |frames| ==> frames[i] == native[d.nativeSkip + i - p])
  {
    hide Take, Drop;
    var inner := if python.Some? then python.value else [];
    DropAt(inner, d.pythonSkip);
    DropAt(native, d.nativeSkip);
    TakeAt(Drop(inner, d.pythonSkip), if d.captureNative then Drop(native, d.nativeSkip) else [], d.maxDepth);
  }

  /** The frame loops of `capture_and_intern`. */
  method CaptureFrames(d: Depths, python: Option<Frames>, native: Frames) returns (frames: Frames)
    ensures frames == Visible(d, python, native)
  {
    frames := [];
    ghost var inner := if python.Some? then Drop(python.value, d.pythonSkip) else [];
    if python.Some? {
      var i := d.pythonSkip;
      while i < |python.value|
        invariant d.pythonSkip <= |python.value| ==> d.pythonSkip <= i <= |python.value|
        invariant d.pythonSkip <= |python.value| ==> frames == python.value[d.pythonSkip..i]
        invariant d.pythonSkip > |python.value| ==> frames == []
        invariant |frames| <= d.maxDepth
      {
        if |frames| >= d.maxDepth {
          break;
        }
        frames := frames + [python.value[i]];
        i := i + 1;
      }
    }
    assert frames == Take(inner, d.maxDepth);
    if d.captureNative && |frames| < d.maxDepth {
      frames := CaptureNativeFrames(d, frames, native);
    }
    if |frames| == 0 {
      frames := [UNKNOWN];
    }
  }

  /** `capture_native_frames_into`; the unwinder calls back once a frame until it is told to stop. */
  method CaptureNativeFrames(d: Depths, before: Frames, native: Frames) returns (frames: Frames)
    requires |before| <= d.maxDepth
    ensures frames == before + Take(Drop(native, d.nativeSkip), d.maxDepth - |before|)
  {
    frames := before;
    var remainingSkip := d.nativeSkip;
    var i := 0;
    while i < |native|
      invariant 0 <= i <= |native|
      invariant remainingSkip == Max(0, d.nativeSkip - i)
      invariant frames == before + if i <= d.nativeSkip then [] else native[d.nativeSkip..i]
      invariant |frames| <= d.maxDepth
    {
      if remainingSkip > 0 {
        remainingSkip := remainingSkip - 1;
      } else if |frames| >= d.maxDepth {
        break;
      } else {
        frames := frames + [native[i]];
      }
      i := i + 1;
    }
  }

  // The cache of one thread.

  const CACHE_LIMIT := 1024

  type Cache = map<Frames, StackId>

  /** A full cache is emptied before it takes a new entry, or an old one again. */
  function Remembered(cache: Cache, frames: Frames, id: StackId): Cache {
    (if |cache| >= CACHE_LIMIT then map[] else cache)[frames := id]
  }

  /** The cache after these results have been remembered, from an empty one. */
  ghost function RememberedAll(puts: seq<Return>): Cache {
    if |puts| == 0 then map[]
    else
      var last := puts[|puts| - 1];
      Remembered(RememberedAll(puts[..|puts| - 1]), last.frames, last.id)
  }

  ghost predicate Full(puts: seq<Return>, n: nat) {
    n <= |puts| && |RememberedAll(puts[..n])| == CACHE_LIMIT
  }

  /** The id that the results from `m` on have last given to the frames. */
  ghost function LastId(puts: seq<Return>, m: nat, frames: Frames): Option<StackId>
    requires m <= |puts|
    decreases |puts|
  {
    if m == |puts| then None
    else if puts[|puts| - 1].frames == frames then Some(puts[|puts| - 1].id)
    else LastId(puts[..|puts| - 1], m, frames)
  }

  /**
   * What a cache holds: with `m` the last moment at which it was full and had to take an entry, or 0, it is exactly
   * what has been remembered from there on, each stack under its last id; and it never exceeds its limit.
   */
  lemma {:induction false} CacheHoldsRecent(puts: seq<Return>) returns (m: nat)
    ensures m <= |puts| && (m > 0 ==> m < |puts| && Full(puts, m))
    ensures forall n :: m < n < |puts| ==> !Full(puts, n)
    ensures forall f :: Lookup(RememberedAll(puts), f) == LastId(puts, m, f)
    ensures |RememberedAll(puts)| <= CACHE_LIMIT
  {
    m := 0;
    if |puts| > 0 {
      var n := |puts| - 1;
      var most := puts[..n];
      m := CacheHoldsRecent(most);
      assert forall k :: 0 <= k <= n ==> most[..k] == puts[..k];
      assert forall k :: 0 <= k <= n ==> (Full(most, k) <==> Full(puts, k));
      if Full(puts, n) {
        m := n;
      }
    }
  }

  /** In particular a thread finds again everything it has remembered, as long as that is not more than the limit. */
  lemma NothingForgotten(puts: seq<Return>, k: nat)
    requires k < |puts| <= 1024
    requires forall j :: k < j < |puts| ==> puts[j].frames != puts[k].frames
    ensures Lookup(RememberedAll(puts), puts[k].frames) == Some(puts[k].id)
  {
    var m := CacheHoldsRecent(puts);
    if m > 0 {
      CacheAtMost(puts[..m]);
    }
    LastIdAt(puts, k);
  }

  lemma {:induction false} CacheAtMost(puts: seq<Return>)
    ensures |RememberedAll(puts)| <= |puts|
  {
    if |puts| > 0 {
      var cache, last := RememberedAll(puts[..|puts| - 1]), puts[|puts| - 1];
      CacheAtMost(puts[..|puts| - 1]);
      assert cache[last.frames := last.id].Keys == cache.Keys + {last.frames};
      assert |cache.Keys| == |cache|;
    }
  }

  lemma {:induction false} LastIdAt(puts: seq<Return>, k: nat)
    requires k < |puts|
    requires forall j :: k < j < |puts| ==> puts[j].frames != puts[k].frames
    ensures LastId(puts, 0, puts[k].frames) == Some(puts[k].id)
  {
    if k < |puts| - 1 {
      LastIdAt(puts[..|puts| - 1], k);
    }
  }

  datatype ThreadLocalStackCache = ThreadLocalStackCache(cache: Cache, collectorId: U64)

  /** The cache a collector finds: that of the first entry with its id, or a new one. */
  function CacheOf(entries: seq<ThreadLocalStackCache>, collectorId: U64): Cache {
    if |entries| == 0 then map[]
    else if entries[0].collectorId == collectorId then entries[0].cache
    else CacheOf(entries[1..], collectorId)
  }

  lemma {:induction false} CacheOfFirst(entries: seq<ThreadLocalStackCache>, collectorId: U64, i: nat)
    requires i <= |entries|
    requires forall j :: 0 <= j < i ==> entries[j].collectorId != collectorId
    ensures CacheOf(entries, collectorId) == CacheOf(entries[i..], collectorId)
  {
    if i == 0 {
      assert entries[0..] == entries;
    } else {
      CacheOfFirst(entries[1..], collectorId, i - 1);
      assert entries[1..][i - 1..] == entries[i..];
    }
  }

  lemma {:induction false} CacheOfUpdated(
    entries: seq<ThreadLocalStackCache>, i: nat, cache: Cache, collectorId: U64)
    requires i < |entries|
    requires forall j :: 0 <= j < i ==> entries[j].collectorId != entries[i].collectorId
    ensures CacheOf(entries[i := entries[i].(cache := cache)], collectorId)
      == if collectorId == entries[i].collectorId then cache else CacheOf(entries, collectorId)
  {
    var updated := entries[i := entries[i].(cache := cache)];
    if i == 0 {
      assert updated[1..] == entries[1..];
    } else {
      CacheOfUpdated(entries[1..], i - 1, cache, collectorId);
      assert updated[1..] == entries[1..][i - 1 := entries[i].(cache := cache)];
    }
  }

  lemma {:induction false} CacheOfPushed(entries: seq<ThreadLocalStackCache>, added: U64, collectorId: U64)
    ensures CacheOf(entries + [ThreadLocalStackCache(map[], added)], collectorId) == CacheOf(entries, collectorId)
  {
    var pushed := entries + [ThreadLocalStackCache(map[], added)];
    if |entries| > 0 {
      assert pushed[1..] == entries[1..] + [ThreadLocalStackCache(map[], added)];
      CacheOfPushed(entries[1..], added, collectorId);
    }
  }

  /** The caches of one thread, one for each collector it has captured for. */
  class StackIdCaches {
    var entries: seq<ThreadLocalStackCache>

    constructor ()
      ensures entries == []
    {
      entries := [];
    }

    /** `with_thread_cache`: finds the collector's entry or adds one. */
    method EntryOf(collectorId: U64) returns (i: nat)
      modifies this
      ensures i < |entries| && entries[i].collectorId == collectorId
      ensures forall j :: 0 <= j < i ==> entries[j].collectorId != collectorId
      ensures forall c :: CacheOf(entries, c) == old(CacheOf(entries, c))
    {
      i := 0;
      while i < |entries|
        invariant 0 <= i <= |entries| && entries == old(entries)
        invariant forall j :: 0 <= j < i ==> entries[j].collectorId != collectorId
      {
        if entries[i].collectorId == collectorId {
          return;
        }
        i := i + 1;
      }
      entries := entries + [ThreadLocalStackCache(map[], collectorId)];
      forall c ensures CacheOf(entries, c) == old(CacheOf(entries, c)) {
        CacheOfPushed(old(entries), collectorId, c);
      }
    }

    method Lookup(collectorId: U64, frames: Frames) returns (id: Option<StackId>)
      modifies this
      ensures id == Words.Lookup(CacheOf(entries, collectorId), frames)
      ensures forall c :: CacheOf(entries, c) == old(CacheOf(entries, c))
    {
      var i := EntryOf(collectorId);
      CacheOfFirst(entries, collectorId, i);
      id := if frames in entries[i].cache then Some(entries[i].cache[frames]) else None;
    }

    method Insert(collectorId: U64, frames: Frames, id: StackId)
      modifies this
      ensures CacheOf(entries, collectorId) == Remembered(old(CacheOf(entries, collectorId)), frames, id)
      ensures forall c :: c != collectorId ==> CacheOf(entries, c) == old(CacheOf(entries, c))
    {
      var i := EntryOf(collectorId);
      var cache := entries[i].cache;
      CacheOfFirst(entries, collectorId, i);
      if |cache| >= CACHE_LIMIT {
        cache := map[];
      }
      cache := cache[frames := id];
      forall c ensures CacheOf(entries[i := entries[i].(cache := cache)], c)
        == if c == collectorId then cache else CacheOf(entries, c)
      {
        CacheOfUpdated(entries, i, cache, c);
      }
      entries := entries[i := entries[i].(cache := cache)];
    }
  }

  /** One capture with nothing in between: the table, the cache and the id. */
  function CapturedAndInterned(t: Table, cache: Cache, frames: Frames): (Table, Cache, StackId) {
    if frames in cache then (t, cache, cache[frames])
    else
      var (t', id) := Interned(t, frames);
      (t', Remembered(cache, frames, id), id)
  }

  class StackCollector {
    const depths: Depths
    const collectorId: U64
    const stackTable: StackTable

    constructor (depths: Depths, collectorId: U64, stackTable: StackTable)
      ensures this.depths == depths && this.collectorId == collectorId && this.stackTable == stackTable
    {
      this.depths := depths;
      this.collectorId := collectorId;
      this.stackTable := stackTable;
    }

    method CaptureAndIntern(storage: StackIdCaches, python: Option<Frames>, native: Frames) returns (id: StackId)
      modifies storage, stackTable
      ensures (stackTable.State(), CacheOf(storage.entries, collectorId), id)
        == CapturedAndInterned(old(stackTable.State()), old(CacheOf(storage.entries, collectorId)),
                               Visible(depths, python, native))
      ensures forall c :: c != collectorId ==> CacheOf(storage.entries, c) == old(CacheOf(storage.entries, c))
    {
      var frames := CaptureFrames(depths, python, native);
      var cached := storage.Lookup(collectorId, frames);
      if cached.Some? {
        return cached.value;
      }
      id := stackTable.Intern(frames);
      storage.Insert(collectorId, frames, id);
    }
  }

  // Captures of many threads against one table.

  /** Where a capture is: it has missed the cache, or it has the table's id and is about to remember it. */
  datatype Call = Ready | Missed(frames: Frames) | Held(frames: Frames, id: StackId)

  datatype Return = Return(frames: Frames, id: StackId)

  /** One cache and one call for each thread and collector; `returned` lists all results so far. */
  datatype State = State(table: Table, caches: seq<Cache>, calls: seq<Call>, returned: seq<Return>)

  datatype Action =
    | Look(thread: nat, frames: Frames)
    | InternMissed(thread: nat)
    | Remember(thread: nat)
    | Other(op: Op)

  ghost predicate Init(s: State) {
    && s.table == EMPTY_TABLE && s.returned == [] && |s.caches| == |s.calls|
    && (forall i :: 0 <= i < |s.caches| ==> s.caches[i] == map[])
    && (forall i :: 0 <= i < |s.calls| ==> s.calls[i] == Ready)
  }

  predicate Enabled(s: State, a: Action) {
    && |s.caches| == |s.calls|
    && match a
       case Look(i, _) => i < |s.calls| && s.calls[i].Ready?
       case InternMissed(i) => i < |s.calls| && s.calls[i].Missed?
       case Remember(i) => i < |s.calls| && s.calls[i].Held?
       case Other(_) => true
  }

  function Next(s: State, a: Action): State
    requires Enabled(s, a)
  {
    match a
    case Look(i, frames) =>
      if frames in s.caches[i] then s.(returned := s.returned + [Return(frames, s.caches[i][frames])])
      else s.(calls := s.calls[i := Missed(frames)])
    case InternMissed(i) =>
      var frames := s.calls[i].frames;
      var (t, id) := Interned(s.table, frames);
      s.(table := t, calls := s.calls[i := Held(frames, id)])
    case Remember(i) =>
      var c := s.calls[i];
      s.(caches := s.caches[i := Remembered(s.caches[i], c.frames, c.id)], calls := s.calls[i := Ready],
         returned := s.returned + [Return(c.frames, c.id)])
    case Other(op) => s.(table := Performed(s.table, op).0)
  }

  /** The table's ids are not exhausted, and an explicit insertion, if this is one, uses an unused id. */
  predicate Careful(s: State, a: Action) {
    && s.table.nextId < U64_MAX
    && (a.Other? && a.op.InsertWithId? ==> a.op.id < U64_MAX && a.op.id !in s.table.byId)
  }

  /** An explicit insertion does not give frames the table already knows another id. */
  predicate Harmless(s: State, a: Action) {
    a.Other? && a.op.InsertWithId? && a.op.frames in s.table.byFrames ==> s.table.byFrames[a.op.frames] == a.op.id
  }

  ghost predicate Step(s: State, s': State, harmless: bool) {
    exists a :: Enabled(s, a) && Careful(s, a) && (harmless ==> Harmless(s, a)) && s' == Next(s, a)
  }

  /** A run in which ids stay below the largest `u64` and explicit insertions use unused ids. */
  ghost predicate Run(trace: seq<State>, harmless: bool) {
    && |trace| > 0
    && Init(trace[0])
    && forall k :: 0 < k < |trace| ==> Step(trace[k - 1], trace[k], harmless)
  }

  /** The steps of one capture, with nothing in between, do what `capture_and_intern` does. */
  lemma CaptureIsItsSteps(s: State, i: nat, frames: Frames)
    requires Enabled(s, Look(i, frames))
    ensures var (t, cache, id) := CapturedAndInterned(s.table, s.caches[i], frames);
      var s1 := Next(s, Look(i, frames));
      var s' := if frames in s.caches[i] then s1 else Next(Next(s1, InternMissed(i)), Remember(i));
      s' == s.(table := t, caches := s.caches[i := cache], returned := s.returned + [Return(frames, id)])
  {
    var s1 := Next(s, Look(i, frames));
    if frames in s.caches[i] {
      assert s.caches[i := s.caches[i]] == s.caches;
    } else {
      assert s1.calls[i := Held(frames, Interned(s.table, frames).1)][i := Ready] == s.calls;
    }
  }

  // What an id in a cache means.

  /** The id is that of the frames in the table. */
  predicate Known(t: Table, frames: Frames, id: StackId) {
    frames in t.byFrames && t.byFrames[frames] == id
  }

  /** The id resolves to the frames. */
  predicate Resolves(t: Table, frames: Frames, id: StackId) {
    Resolved(t, id) == Some(StackMetadata(frames, id))
  }

  /** Some relation to the table holds of everything in caches, in calls and among the results. */
  ghost predicate Everywhere(s: State, holds: (Table, Frames, StackId) -> bool) {
    && (forall i, f :: 0 <= i < |s.caches| && f in s.caches[i] ==> holds(s.table, f, s.caches[i][f]))
    && (forall i :: 0 <= i < |s.calls| && s.calls[i].Held? ==> holds(s.table, s.calls[i].frames, s.calls[i].id))
    && (forall k :: 0 <= k < |s.returned| ==> holds(s.table, s.returned[k].frames, s.returned[k].id))
  }

  /** A step keeps such a relation if the table's change does and interning establishes it. */
  lemma StepEverywhere(s: State, a: Action, holds: (Table, Frames, StackId) -> bool)
    requires Enabled(s, a) && Everywhere(s, holds)
    requires forall f, id :: holds(s.table, f, id) ==> holds(Next(s, a).table, f, id)
    requires a.InternMissed? ==>
      holds(Next(s, a).table, s.calls[a.thread].frames, Interned(s.table, s.calls[a.thread].frames).1)
    ensures Everywhere(Next(s, a), holds)
  {
    hide Interned, Performed;
  }

  ghost predicate Sound(s: State) {
    && IdsSound(s.table) && Everywhere(s, Resolves)
    && forall i :: 0 <= i < |s.caches| ==> |s.caches[i]| <= CACHE_LIMIT
  }

  lemma StepSound(s: State, a: Action)
    requires Sound(s) && Enabled(s, a) && Careful(s, a)
    ensures Sound(Next(s, a))
  {
    var op := match a
      case InternMissed(i) => Some(Intern(s.calls[i].frames))
      case Other(op) => Some(op)
      case _ => None;
    if op.Some? {
      OpKeepsIds(s.table, op.value);
    }
    StepEverywhere(s, a, Resolves);
  }

  lemma StepKnown(s: State, a: Action)
    requires Everywhere(s, Known) && Enabled(s, a) && Harmless(s, a)
    ensures Everywhere(Next(s, a), Known)
  {
    StepEverywhere(s, a, Known);
  }

  lemma {:induction false} RunSound(trace: seq<State>, harmless: bool)
    requires Run(trace, harmless)
    ensures var s := trace[|trace| - 1]; Sound(s) && (harmless ==> Everywhere(s, Known))
  {
    hide Next, Enabled, Harmless, Careful;
    if |trace| > 1 {
      var n := |trace| - 1;
      RunSound(trace[..n], harmless);
      assert Step(trace[n - 1], trace[n], harmless);
      var s := trace[n - 1];
      var a :| Enabled(s, a) && Careful(s, a) && (harmless ==> Harmless(s, a)) && trace[n] == Next(s, a);
      StepSound(s, a);
      if harmless {
        StepKnown(s, a);
      }
    }
  }

  /**
   * The cache is transparent: over every run of any threads and any cache clearing, with ids created by interning
   * or by insertions that rename nothing, each id a capture has returned is the one that interning its frames
   * directly returns, at that moment and ever after, and doing so changes nothing.
   */
  lemma CapturesAgreeWithInterning(trace: seq<State>, k: nat)
    requires Run(trace, true) && k < |trace[|trace| - 1].returned|
    ensures var s := trace[|trace| - 1];
      Interned(s.table, s.returned[k].frames) == (s.table, s.returned[k].id)
  {
    RunSound(trace, true);
    var s := trace[|trace| - 1];
    assert Known(s.table, s.returned[k].frames, s.returned[k].id);
  }

  /** Whatever insertions rename, each id returned resolves to exactly the captured frames, for ever. */
  lemma CapturedIdsResolve(trace: seq<State>, harmless: bool, k: nat)
    requires Run(trace, harmless) && k < |trace[|trace| - 1].returned|
    ensures var s := trace[|trace| - 1];
      Resolved(s.table, s.returned[k].id) == Some(StackMetadata(s.returned[k].frames, s.returned[k].id))
  {
    RunSound(trace, harmless);
    var s := trace[|trace| - 1];
    assert Resolves(s.table, s.returned[k].frames, s.returned[k].id);
  }

  /** No cache ever exceeds its limit. */
  lemma CachesStayBounded(trace: seq<State>, harmless: bool, i: nat)
    requires Run(trace, harmless) && i < |trace[|trace| - 1].caches|
    ensures |trace[|trace| - 1].caches[i]| <= 1024
  {
    RunSound(trace, harmless);
  }

  /** Every id in a cache, or about to be put into one, is the table's. */
  ghost predicate Coherent(s: State) {
    && (forall i, f :: 0 <= i < |s.caches| && f in s.caches[i] ==> Known(s.table, f, s.caches[i][f]))
    && (forall i :: 0 <= i < |s.calls| && s.calls[i].Held? ==> Known(s.table, s.calls[i].frames, s.calls[i].id))
  }

  /** Neither a cache nor a capture that has interned and not yet remembered has the frames under another id. */
  predicate NoOtherId(s: State, id: StackId, frames: Frames) {
    && (forall i :: 0 <= i < |s.caches| && frames in s.caches[i] ==> s.caches[i][frames] == id)
    && (forall i :: 0 <= i < |s.calls| && s.calls[i].Held? && s.calls[i].frames == frames ==> s.calls[i].id == id)
  }

  /** No step of a capture and no interning disturbs coherence. */
  lemma StepsKeepCoherent(s: State, a: Action)
    requires Coherent(s) && Enabled(s, a) && (a.Other? ==> a.op.Intern?)
    ensures Coherent(Next(s, a))
  {
    var bare := s.(returned := []);
    assert Everywhere(bare, Known);
    StepEverywhere(bare, a, Known);
  }

  /**
   * Exactly when an explicit insertion keeps it. A cache that holds the frames under another id goes on giving that
   * id, where interning directly gives the new one.
   */
  lemma InsertCoherentIff(s: State, id: StackId, frames: Frames)
    requires Coherent(s) && |s.caches| == |s.calls|
    ensures Coherent(Next(s, Other(InsertWithId(id, frames)))) <==> NoOtherId(s, id, frames)
    ensures var t := Next(s, Other(InsertWithId(id, frames))).table;
      && Interned(t, frames) == (t, id)
      && forall i :: 0 <= i < |s.caches| && frames in s.caches[i] ==>
           CapturedAndInterned(t, s.caches[i], frames) == (t, s.caches[i], s.caches[i][frames])
  {
    var s' := Next(s, Other(InsertWithId(id, frames)));
    assert forall f, k :: f != frames && Known(s.table, f, k) ==> Known(s'.table, f, k);
    if !NoOtherId(s, id, frames) {
      if i :| 0 <= i < |s.caches| && frames in s.caches[i] && s.caches[i][frames] != id {
        assert !Known(s'.table, frames, s'.caches[i][frames]);
      } else {
        var i :| 0 <= i < |s.calls| && s.calls[i].Held? && s.calls[i].frames == frames && s.calls[i].id != id;
        assert !Known(s'.table, s'.calls[i].frames, s'.calls[i].id);
      }
    }
  }

  /** The steps of a trace, whether or not its ids run out or are used again. */
  ghost predicate Performs(trace: seq<State>, actions: seq<Action>) {
    && |trace| == |actions| + 1 && Init(trace[0])
    && forall k :: 0 <= k < |actions| ==> Enabled(trace[k], actions[k]) && trace[k + 1] == Next(trace[k], actions[k])
  }

  /** The step is no explicit insertion, or one under the only id the caches and captures have for its frames. */
  predicate Undisturbing(s: State, a: Action) {
    a.Other? && a.op.InsertWithId? ==> NoOtherId(s, a.op.id, a.op.frames)
  }

  lemma {:induction false} CoherentAt(trace: seq<State>, actions: seq<Action>, k: nat)
    requires Performs(trace, actions) && k <= |actions|
    requires forall j :: 0 <= j < k ==> Undisturbing(trace[j], actions[j])
    ensures Coherent(trace[k])
  {
    if k > 0 {
      CoherentAt(trace, actions, k - 1);
      StepCoherentIff(trace[k - 1], actions[k - 1]);
    }
  }

  lemma StepCoherentIff(s: State, a: Action)
    requires Coherent(s) && Enabled(s, a)
    ensures Coherent(Next(s, a)) <==> Undisturbing(s, a)
  {
    if a.Other? && a.op.InsertWithId? {
      InsertCoherentIff(s, a.op.id, a.op.frames);
    } else {
      StepsKeepCoherent(s, a);
    }
  }

  /** Over a whole run caches and captures agree with the table exactly if each insertion met that condition. */
  lemma RunCoherentIff(trace: seq<State>, actions: seq<Action>)
    requires Performs(trace, actions)
    ensures (forall k :: 0 <= k < |trace| ==> Coherent(trace[k]))
      <==> (forall k :: 0 <= k < |actions| ==> Undisturbing(trace[k], actions[k]))
  {
    hide Coherent, Undisturbing, Next, Enabled, Init;
    if forall k :: 0 <= k < |trace| ==> Coherent(trace[k]) {
      forall k | 0 <= k < |actions| ensures Undisturbing(trace[k], actions[k]) {
        assert Coherent(trace[k]) && Coherent(trace[k + 1]);
        StepCoherentIff(trace[k], actions[k]);
      }
    }
    if forall k :: 0 <= k < |actions| ==> Undisturbing(trace[k], actions[k]) {
      forall k | 0 <= k < |trace| ensures Coherent(trace[k]) {
        CoherentAt(trace, actions, k);
      }
    }
  }

  lemma RunExtended(trace: seq<State>, a: Action, s': State, harmless: bool) returns (longer: seq<State>)
    requires Run(trace, harmless)
    requires var s := trace[|trace| - 1];
      Enabled(s, a) && Careful(s, a) && (harmless ==> Harmless(s, a)) && s' == Next(s, a)
    ensures Run(longer, harmless) && longer == trace + [s']
  {
    longer := trace + [s'];
    forall k | 0 < k < |longer| ensures Step(longer[k - 1], longer[k], harmless) {
      if k < |trace| {
        assert Step(trace[k - 1], trace[k], harmless);
      }
    }
  }

  /** A thread has interned a new stack and is about to remember its id. */
  lemma FirstCapture(frames: Frames) returns (trace: seq<State>)
    ensures Run(trace, false)
    ensures trace[|trace| - 1] == State(Interned(EMPTY_TABLE, frames).0, [map[]], [Held(frames, 1)], [])
  {
    var (t1, id) := Interned(EMPTY_TABLE, frames);
    trace := [State(EMPTY_TABLE, [map[]], [Ready], [])];
    trace := RunExtended(trace, Look(0, frames), State(EMPTY_TABLE, [map[]], [Missed(frames)], []), false);
    trace := RunExtended(trace, InternMissed(0), State(t1, [map[]], [Held(frames, 1)], []), false);
  }

  /**
   * A thread captures a stack, the stack is inserted again under an unused id, and the thread captures it once
   * more: it gets the old id, where interning gives the new one.
   */
  lemma StaleCache(frames: Frames) returns (trace: seq<State>)
    ensures Run(trace, false)
    ensures var s := trace[|trace| - 1];
      && s.returned == [Return(frames, 1), Return(frames, 1)]
      && Interned(s.table, frames) == (s.table, 5)
  {
    var t1 := Interned(EMPTY_TABLE, frames).0;
    var t2 := Inserted(t1, 5, frames);
    var old1 := [Return(frames, 1)];
    trace := FirstCapture(frames);
    trace := RunExtended(trace, Remember(0), State(t1, [map[frames := 1]], [Ready], old1), false);
    trace := RunExtended(trace, Other(InsertWithId(5, frames)), State(t2, [map[frames := 1]], [Ready], old1), false);
    trace := RunExtended(
      trace, Look(0, frames), State(t2, [map[frames := 1]], [Ready], old1 + [Return(frames, 1)]), false);
  }

  /** The same where no cache holds the stack yet: the insertion comes between the interning and the remembering. */
  lemma LateStaleCache(frames: Frames) returns (trace: seq<State>)
    ensures Run(trace, false)
    ensures |trace| > 3 && trace[|trace| - 3].caches == [map[]]
    ensures trace[|trace| - 3].table == Inserted(trace[|trace| - 4].table, 5, frames)
    ensures var s := trace[|trace| - 1];
      && s.returned == [Return(frames, 1), Return(frames, 1)]
      && Interned(s.table, frames) == (s.table, 5)
  {
    var t1 := Interned(EMPTY_TABLE, frames).0;
    var t2 := Inserted(t1, 5, frames);
    var old1 := [Return(frames, 1)];
    trace := FirstCapture(frames);
    trace := RunExtended(trace, Other(InsertWithId(5, frames)), State(t2, [map[]], [Held(frames, 1)], []), false);
    trace := RunExtended(trace, Remember(0), State(t2, [map[frames := 1]], [Ready], old1), false);
    trace := RunExtended(
      trace, Look(0, frames), State(t2, [map[frames := 1]], [Ready], old1 + [Return(frames, 1)]), false);
  }
}
