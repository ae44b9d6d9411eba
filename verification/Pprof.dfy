/** The pprof encoder (`src/export.rs`); messages and field meanings follow profile.proto of google/pprof. */
module Pprof {
  import opened Words
  import opened Stacks
  import opened Snapshots

  datatype ValueType = ValueType(ty: I64, unit: I64)
  datatype Function = Function(id: U64, name: I64, systemName: I64, filename: I64, startLine: I64)
  datatype Line = Line(functionId: U64, line: I64)
  datatype Location = Location(id: U64, mappingId: U64, address: U64, lines: seq<Line>, isFolded: bool)
  datatype Sample = Sample(locationIds: seq<U64>, values: seq<I64>)

  /** The three interning tables of a profile. */
  datatype Tables = Tables(strings: seq<string>, functions: seq<Function>, locations: seq<Location>)

  datatype Profile = Profile(
    sampleTypes: seq<ValueType>, samples: seq<Sample>, tables: Tables, periodType: ValueType, period: I64)

  // Reading a profile back, by searching the tables for the ids as a consumer does.

  function FindLocation(locations: seq<Location>, id: U64): Option<Location> {
    if |locations| == 0 then None
    else if locations[0].id == id then Some(locations[0])
    else FindLocation(locations[1..], id)
  }

  function FindFunction(functions: seq<Function>, id: U64): Option<Function> {
    if |functions| == 0 then None
    else if functions[0].id == id then Some(functions[0])
    else FindFunction(functions[1..], id)
  }

  function ReadString(strings: seq<string>, index: I64): Option<string> {
    if 0 <= index < |strings| then Some(strings[index]) else None
  }

  /** The frame a location id stands for, if all references resolve. */
  function ReadFrame(t: Tables, id: U64): Option<FrameMetadata> {
    match FindLocation(t.locations, id)
    case None => None
    case Some(location) =>
      if |location.lines| != 1 || !(0 <= location.lines[0].line <= 0xFFFF_FFFF) then None
      else
        match FindFunction(t.functions, location.lines[0].functionId)
        case None => None
        case Some(f) =>
          match (ReadString(t.strings, f.filename), ReadString(t.strings, f.name))
          case (Some(filename), Some(name)) => Some(FrameMetadata(filename, name, location.lines[0].line))
          case _ => None
  }

  ghost predicate Reads(t: Tables, ids: seq<U64>, frames: seq<FrameMetadata>) {
    |ids| == |frames| && forall j :: 0 <= j < |ids| ==> ReadFrame(t, ids[j]) == Some(frames[j])
  }

  /** The frames a record stands for: its stack, or the synthetic frame if it has none. */
  function FramesOf(record: SnapshotRecord): (frames: seq<FrameMetadata>)
    ensures |frames| > 0
  {
    if record.stack.None? || record.stack.value.frames == [] then [UNKNOWN] else record.stack.value.frames
  }

  // Shape of the tables.

  ghost predicate StringsDistinct(strings: seq<string>) {
    |strings| > 0 && strings[0] == "" && forall i, j :: 0 <= i < j < |strings| ==> strings[i] != strings[j]
  }

  ghost predicate FunctionShape(strings: seq<string>, f: Function, i: nat) {
    && f.id == i + 1 && f.systemName == f.name
    && 0 <= f.name < |strings| && 0 <= f.filename < |strings| && 0 <= f.startLine <= 0xFFFF_FFFF
  }

  ghost predicate LocationShape(f: Function, l: Location, i: nat) {
    l.id == i + 1 && l.mappingId == 0 && l.address == 0 && !l.isFolded && l.lines == [Line(l.id, f.startLine)]
  }

  datatype FunctionKey = FunctionKey(filename: I64, functionName: I64, lineno: U32)
  datatype LocationKey = LocationKey(functionId: U64, lineno: U32)

  ghost predicate SameKey(f: Function, g: Function) {
    f.filename == g.filename && f.name == g.name && f.startLine == g.startLine
  }

  ghost predicate FunctionsNumbered(strings: seq<string>, functions: seq<Function>) {
    && (forall i :: 0 <= i < |functions| ==> FunctionShape(strings, functions[i], i))
    && (forall i, j :: 0 <= i < j < |functions| ==> !SameKey(functions[i], functions[j]))
  }

  ghost predicate LocationsNumbered(functions: seq<Function>, locations: seq<Location>) {
    && |locations| <= |functions|
    && (forall i :: 0 <= i < |locations| ==> LocationShape(functions[i], locations[i], i))
  }

  /**
   * Ids are 1, 2, .. in table order; every reference resolves; strings are distinct and string 0 is empty; the
   * functions are distinct (filename, name, line) triples; location i is the one line of function i.
   */
  ghost predicate WellFormed(t: Tables) {
    && StringsDistinct(t.strings)
    && FunctionsNumbered(t.strings, t.functions)
    && LocationsNumbered(t.functions, t.locations)
    && |t.functions| == |t.locations|
  }

  lemma LocationsFit(t: Tables)
    requires WellFormed(t)
    ensures |t.locations| <= U64_MAX
  {
    if |t.locations| > 0 {
      assert LocationShape(t.functions[|t.locations| - 1], t.locations[|t.locations| - 1], |t.locations| - 1);
    }
  }

  lemma {:induction false} FindLocationAt(locations: seq<Location>, i: nat, offset: nat)
    requires i < |locations| && offset + |locations| <= U64_MAX
    requires forall k :: 0 <= k < |locations| ==> locations[k].id == offset + k + 1
    ensures FindLocation(locations, offset + i + 1) == Some(locations[i])
  {
    if i > 0 {
      assert forall k :: 0 <= k < |locations[1..]| ==> locations[1..][k] == locations[k + 1];
      FindLocationAt(locations[1..], i - 1, offset + 1);
    }
  }

  lemma {:induction false} FindFunctionAt(functions: seq<Function>, i: nat, offset: nat)
    requires i < |functions| && offset + |functions| <= U64_MAX
    requires forall k :: 0 <= k < |functions| ==> functions[k].id == offset + k + 1
    ensures FindFunction(functions, offset + i + 1) == Some(functions[i])
  {
    if i > 0 {
      assert forall k :: 0 <= k < |functions[1..]| ==> functions[1..][k] == functions[k + 1];
      FindFunctionAt(functions[1..], i - 1, offset + 1);
    }
  }

  lemma {:induction false} FindLocationOnly(locations: seq<Location>, id: U64)
    ensures FindLocation(locations, id).Some? ==> exists k :: 0 <= k < |locations| && locations[k].id == id
  {
    if |locations| > 0 && locations[0].id != id {
      FindLocationOnly(locations[1..], id);
      if k :| 0 <= k < |locations[1..]| && locations[1..][k].id == id {
        assert locations[k + 1].id == id;
      }
    }
  }

  /** In well-formed tables every id from 1 to the number of locations reads back as its function's triple. */
  lemma ReadFrameAt(t: Tables, id: U64)
    requires WellFormed(t) && 1 <= id <= |t.locations|
    ensures var f := t.functions[id - 1];
      ReadFrame(t, id) == Some(FrameMetadata(t.strings[f.filename], t.strings[f.name], f.startLine))
  {
    LocationsFit(t);
    FindLocationAt(t.locations, id - 1, 0);
    FindFunctionAt(t.functions, id - 1, 0);
  }

  lemma ReadKeyAt(t: Tables, id: U64, filename: string, name: string, lineno: U32)
    requires WellFormed(t) && 1 <= id <= |t.functions|
    requires ReadString(t.strings, t.functions[id - 1].filename) == Some(filename)
    requires ReadString(t.strings, t.functions[id - 1].name) == Some(name)
    requires t.functions[id - 1].startLine == lineno
    ensures ReadFrame(t, id) == Some(FrameMetadata(filename, name, lineno))
  {
    ReadFrameAt(t, id);
  }

  /** Sharing is exact: two ids that read back, read back as the same frame only if they are the same id. */
  lemma SharingIsExact(t: Tables, a: U64, b: U64)
    requires WellFormed(t)
    requires ReadFrame(t, a).Some? && ReadFrame(t, b).Some?
    ensures ReadFrame(t, a) == ReadFrame(t, b) <==> a == b
  {
    FindLocationOnly(t.locations, a);
    FindLocationOnly(t.locations, b);
    ReadFrameAt(t, a);
    ReadFrameAt(t, b);
    if a != b {
      var f, g := t.functions[a - 1], t.functions[b - 1];
      assert !SameKey(f, g);
    }
  }

  // Interning on values.

  datatype StringIndex = StringIndex(entries: seq<string>, index: map<string, I64>)

  /** The index is the inverse of the entries. */
  ghost predicate Indexed(t: StringIndex) {
    && |t.entries| > 0 && t.entries[0] == ""
    && (forall i :: 0 <= i < |t.entries| ==> t.entries[i] in t.index && t.index[t.entries[i]] == i)
    && (forall s :: s in t.index ==> 0 <= t.index[s] < |t.entries| && t.entries[t.index[s]] == s)
  }

  function InternedString(t: StringIndex, value: string): (StringIndex, I64) {
    if value in t.index then (t, t.index[value])
    else
      var i := Min(|t.entries|, I64_MAX);
      (StringIndex(t.entries + [value], t.index[value := i]), i)
  }

  lemma InternedStringStep(t: StringIndex, value: string)
    requires Indexed(t) && |t.entries| <= I64_MAX
    ensures var (t', i) := InternedString(t, value);
      && Indexed(t') && t.entries <= t'.entries && |t'.entries| <= |t.entries| + 1
      && ReadString(t'.entries, i) == Some(value)
  {
  }

  /** `next_id`. */
  function NextId(len: nat): U64 {
    Min(len + 1, U64_MAX)
  }

  datatype FunctionIndex = FunctionIndex(functions: seq<Function>, ids: map<FunctionKey, U64>)

  function KeyOf(f: Function): FunctionKey
    requires 0 <= f.startLine <= 0xFFFF_FFFF
  {
    FunctionKey(f.filename, f.name, f.startLine)
  }

  ghost predicate Listed(t: FunctionIndex, strings: seq<string>, i: nat) {
    && i < |t.functions|
    && FunctionShape(strings, t.functions[i], i)
    && Lookup(t.ids, KeyOf(t.functions[i])) == Some(t.functions[i].id)
  }

  ghost predicate Keyed(t: FunctionIndex, strings: seq<string>, k: FunctionKey) {
    && k in t.ids && 1 <= t.ids[k] <= |t.functions|
    && FunctionShape(strings, t.functions[t.ids[k] - 1], t.ids[k] - 1)
    && KeyOf(t.functions[t.ids[k] - 1]) == k
  }

  ghost predicate FunctionsIndexed(t: FunctionIndex, strings: seq<string>) {
    && (forall i :: 0 <= i < |t.functions| ==> Listed(t, strings, i))
    && (forall k :: k in t.ids ==> Keyed(t, strings, k))
  }

  function InternedFunction(t: FunctionIndex, key: FunctionKey): (FunctionIndex, U64) {
    if key in t.ids then (t, t.ids[key])
    else
      var id := NextId(|t.functions|);
      var f := Function(id, key.functionName, key.functionName, key.filename, key.lineno);
      (FunctionIndex(t.functions + [f], t.ids[key := id]), id)
  }

  lemma NewFunctionShaped(t: FunctionIndex, key: FunctionKey, strings: seq<string>)
    requires |t.functions| < U64_MAX && key !in t.ids
    requires 0 <= key.filename < |strings| && 0 <= key.functionName < |strings|
    ensures var (t', id) := InternedFunction(t, key);
      && id == |t.functions| + 1 && |t'.functions| == id && t'.functions[..id - 1] == t.functions
      && t'.ids == t.ids[key := id] && t'.functions[id - 1].id == id
      && FunctionShape(strings, t'.functions[id - 1], id - 1) && KeyOf(t'.functions[id - 1]) == key
  {
  }

  lemma NewFunctionListed(t: FunctionIndex, key: FunctionKey, strings: seq<string>, i: nat)
    requires FunctionsIndexed(t, strings) && |t.functions| < U64_MAX && key !in t.ids
    requires 0 <= key.filename < |strings| && 0 <= key.functionName < |strings|
    requires i < |InternedFunction(t, key).0.functions|
    ensures Listed(InternedFunction(t, key).0, strings, i)
  {
    hide InternedFunction, FunctionShape;
    NewFunctionShaped(t, key, strings);
    if i < |t.functions| {
      assert Listed(t, strings, i);
      assert InternedFunction(t, key).0.functions[i] == t.functions[i];
    }
  }

  lemma NewFunctionKeyed(t: FunctionIndex, key: FunctionKey, strings: seq<string>, k: FunctionKey)
    requires FunctionsIndexed(t, strings) && |t.functions| < U64_MAX && key !in t.ids
    requires 0 <= key.filename < |strings| && 0 <= key.functionName < |strings|
    requires k in InternedFunction(t, key).0.ids
    ensures Keyed(InternedFunction(t, key).0, strings, k)
  {
    hide InternedFunction, FunctionShape;
    NewFunctionShaped(t, key, strings);
    if k != key {
      assert Keyed(t, strings, k);
      assert InternedFunction(t, key).0.functions[t.ids[k] - 1] == t.functions[t.ids[k] - 1];
    }
  }

  lemma NewFunctionIndexed(t: FunctionIndex, key: FunctionKey, strings: seq<string>)
    requires FunctionsIndexed(t, strings) && |t.functions| < U64_MAX && key !in t.ids
    requires 0 <= key.filename < |strings| && 0 <= key.functionName < |strings|
    ensures FunctionsIndexed(InternedFunction(t, key).0, strings)
  {
    hide InternedFunction, Listed, Keyed;
    var t' := InternedFunction(t, key).0;
    forall i | 0 <= i < |t'.functions| ensures Listed(t', strings, i) {
      NewFunctionListed(t, key, strings, i);
    }
    forall k | k in t'.ids ensures Keyed(t', strings, k) {
      NewFunctionKeyed(t, key, strings, k);
    }
  }

  lemma InternedFunctionStep(t: FunctionIndex, key: FunctionKey, strings: seq<string>)
    requires FunctionsIndexed(t, strings) && |t.functions| < U64_MAX
    requires 0 <= key.filename < |strings| && 0 <= key.functionName < |strings|
    ensures var (t', id) := InternedFunction(t, key);
      && FunctionsIndexed(t', strings) && t.functions <= t'.functions
      && (if key in t.ids then t' == t else |t'.functions| == id == |t.functions| + 1)
      && 1 <= id <= |t'.functions|
      && FunctionShape(strings, t'.functions[id - 1], id - 1) && KeyOf(t'.functions[id - 1]) == key
  {
    if key !in t.ids {
      NewFunctionIndexed(t, key, strings);
    }
  }

  lemma FunctionsStayIndexed(t: FunctionIndex, strings: seq<string>, more: seq<string>)
    requires FunctionsIndexed(t, strings) && strings <= more
    ensures FunctionsIndexed(t, more)
  {
    forall i | 0 <= i < |t.functions| ensures Listed(t, more, i) {
      assert Listed(t, strings, i);
    }
    forall k | k in t.ids ensures Keyed(t, more, k) {
      assert Keyed(t, strings, k);
    }
  }

  lemma IndexedFunctionsNumbered(t: FunctionIndex, strings: seq<string>)
    requires FunctionsIndexed(t, strings)
    ensures FunctionsNumbered(strings, t.functions)
  {
    forall i | 0 <= i < |t.functions| ensures FunctionShape(strings, t.functions[i], i) {
      assert Listed(t, strings, i);
    }
    forall i, j | 0 <= i < j < |t.functions| ensures !SameKey(t.functions[i], t.functions[j]) {
      assert Listed(t, strings, i) && Listed(t, strings, j);
    }
  }

  datatype LocationIndex = LocationIndex(locations: seq<Location>, ids: map<LocationKey, U64>)

  /** The location map sends (function id, line of that function) to the location with the same id. */
  ghost predicate LocationsIndexed(t: LocationIndex, functions: seq<Function>) {
    && LocationsNumbered(functions, t.locations)
    && (forall k :: k in t.ids ==> t.ids[k] == k.functionId && 1 <= k.functionId <= |t.locations|)
    && (forall k: LocationKey ::
          1 <= k.functionId <= |t.locations| && functions[k.functionId - 1].startLine == k.lineno ==> k in t.ids)
  }

  function InternedLocation(t: LocationIndex, key: LocationKey): (LocationIndex, U64) {
    if key in t.ids then (t, t.ids[key])
    else
      var id := NextId(|t.locations|);
      (LocationIndex(t.locations + [Location(id, 0, 0, [Line(key.functionId, key.lineno)], false)], t.ids[key := id]),
       id)
  }

  /** Functions never get ahead of locations, so a frame's location id is its function id. */
  lemma InternedLocationStep(t: LocationIndex, key: LocationKey, functions: seq<Function>)
    requires LocationsIndexed(t, functions) && |functions| <= U64_MAX
    requires 1 <= key.functionId <= |functions| && functions[key.functionId - 1].startLine == key.lineno
    requires |functions| == |t.locations| || key.functionId == |functions| == |t.locations| + 1
    ensures var (t', id) := InternedLocation(t, key);
      && LocationsIndexed(t', functions) && t.locations <= t'.locations
      && |t'.locations| == |functions| && id == key.functionId
  {
  }

  lemma LocationsStayIndexed(t: LocationIndex, functions: seq<Function>, more: seq<Function>)
    requires LocationsIndexed(t, functions) && functions <= more
    ensures LocationsIndexed(t, more)
  {
  }

  // Interning frames.

  datatype Encoding = Encoding(strings: StringIndex, functions: FunctionIndex, locations: LocationIndex)

  function TablesOf(e: Encoding): Tables {
    Tables(e.strings.entries, e.functions.functions, e.locations.locations)
  }

  const EMPTY_ENCODING := Encoding(
    StringIndex([""], map["" := 0]), FunctionIndex([], map[]), LocationIndex([], map[]))

  ghost predicate Sound(e: Encoding) {
    && Indexed(e.strings)
    && FunctionsIndexed(e.functions, e.strings.entries)
    && LocationsIndexed(e.locations, e.functions.functions)
    && |e.functions.functions| == |e.locations.locations|
  }

  lemma SoundWellFormed(e: Encoding)
    requires Sound(e)
    ensures WellFormed(TablesOf(e))
  {
    IndexedFunctionsNumbered(e.functions, e.strings.entries);
    forall i, j | 0 <= i < j < |e.strings.entries| ensures e.strings.entries[i] != e.strings.entries[j] {
      assert e.strings.index[e.strings.entries[i]] == i && e.strings.index[e.strings.entries[j]] == j;
    }
  }

  /** Tables only grow: what was there before stays where it was. */
  ghost predicate Extends(t: Tables, t': Tables) {
    t.strings <= t'.strings && t.functions <= t'.functions && t.locations <= t'.locations
  }

  function InternedFrame(e: Encoding, frame: FrameMetadata): (Encoding, U64) {
    var (strings, filename) := InternedString(e.strings, frame.filename);
    var (strings', name) := InternedString(strings, frame.functionName);
    var (functions, functionId) := InternedFunction(e.functions, FunctionKey(filename, name, frame.lineno));
    var (locations, id) := InternedLocation(e.locations, LocationKey(functionId, frame.lineno));
    (Encoding(strings', functions, locations), id)
  }

  /** There is room for `n` more frames: vectors hold less than 2^63 entries. */
  ghost predicate Room(e: Encoding, n: nat) {
    |e.strings.entries| + 2 * n <= I64_MAX && |e.functions.functions| + n <= I64_MAX
  }

  ghost predicate Grew(e: Encoding, e': Encoding, n: nat) {
    && |e'.strings.entries| <= |e.strings.entries| + 2 * n
    && |e'.functions.functions| <= |e.functions.functions| + n
  }

  lemma InternedFrameStep(e: Encoding, frame: FrameMetadata)
    requires Sound(e) && Room(e, 1)
    ensures var (e', id) := InternedFrame(e, frame);
      && Sound(e') && Extends(TablesOf(e), TablesOf(e'))
      && ReadFrame(TablesOf(e'), id) == Some(frame)
      && Grew(e, e', 1)
      && (|e'.locations.locations| == |e.locations.locations|
          || |e'.locations.locations| == id == |e.locations.locations| + 1)
  {
    hide Indexed, FunctionsIndexed, LocationsIndexed, WellFormed, ReadFrame;
    var (strings, filename) := InternedString(e.strings, frame.filename);
    InternedStringStep(e.strings, frame.filename);
    var (strings', name) := InternedString(strings, frame.functionName);
    InternedStringStep(strings, frame.functionName);
    FunctionsStayIndexed(e.functions, e.strings.entries, strings'.entries);
    var key := FunctionKey(filename, name, frame.lineno);
    var (functions, functionId) := InternedFunction(e.functions, key);
    InternedFunctionStep(e.functions, key, strings'.entries);
    LocationsStayIndexed(e.locations, e.functions.functions, functions.functions);
    InternedLocationStep(e.locations, LocationKey(functionId, frame.lineno), functions.functions);
    var (e', id) := InternedFrame(e, frame);
    assert ReadString(strings'.entries, filename) == Some(frame.filename);
    SoundWellFormed(e');
    ReadKeyAt(TablesOf(e'), id, frame.filename, frame.functionName, frame.lineno);
  }

  /** The stack of one record, frame by frame. */
  function InternedFrames(e: Encoding, frames: seq<FrameMetadata>): (Encoding, seq<U64>) {
    if |frames| == 0 then (e, [])
    else
      var (before, ids) := InternedFrames(e, frames[..|frames| - 1]);
      var (after, id) := InternedFrame(before, frames[|frames| - 1]);
      (after, ids + [id])
  }

  /** Growing the tables does not change what an id reads back as. */
  lemma ReadsStay(t: Tables, t': Tables, ids: seq<U64>, frames: seq<FrameMetadata>)
    requires WellFormed(t) && WellFormed(t') && Extends(t, t')
    requires Reads(t, ids, frames)
    ensures Reads(t', ids, frames)
  {
    forall j | 0 <= j < |ids| ensures ReadFrame(t', ids[j]) == Some(frames[j]) {
      FindLocationOnly(t.locations, ids[j]);
      ReadFrameAt(t, ids[j]);
      ReadFrameAt(t', ids[j]);
    }
  }

  lemma {:induction false} InternedFramesStep(e: Encoding, frames: seq<FrameMetadata>)
    requires Sound(e) && Room(e, |frames|)
    ensures var (e', ids) := InternedFrames(e, frames);
      Sound(e') && Extends(TablesOf(e), TablesOf(e')) && Grew(e, e', |frames|) && Reads(TablesOf(e'), ids, frames)
  {
    hide Sound, WellFormed, ReadFrame, InternedFrame;
    if |frames| > 0 {
      var most, last := frames[..|frames| - 1], frames[|frames| - 1];
      InternedFramesStep(e, most);
      var (before, ids) := InternedFrames(e, most);
      InternedFrameStep(before, last);
      var (after, id) := InternedFrame(before, last);
      SoundWellFormed(before);
      SoundWellFormed(after);
      ReadsStay(TablesOf(before), TablesOf(after), ids, most);
    }
  }

  /** Every location the frames add is used by them. */
  lemma {:induction false} NewLocationsUsed(e: Encoding, frames: seq<FrameMetadata>, id: U64)
    requires Sound(e) && Room(e, |frames|)
    requires |e.locations.locations| < id <= |InternedFrames(e, frames).0.locations.locations|
    ensures id in InternedFrames(e, frames).1
  {
    hide Sound, Reads, InternedFrame;
    if |frames| > 0 {
      var most, last := frames[..|frames| - 1], frames[|frames| - 1];
      InternedFramesStep(e, most);
      var (before, ids) := InternedFrames(e, most);
      InternedFrameStep(before, last);
      if id <= |before.locations.locations| {
        NewLocationsUsed(e, most, id);
      }
    }
  }

  function SampleValues(record: SnapshotRecord): seq<I64> {
    [record.currentBytes, Min(record.allocations, I64_MAX)]
  }

  function InternedRecords(e: Encoding, records: seq<SnapshotRecord>): (Encoding, seq<Sample>) {
    if |records| == 0 then (e, [])
    else
      var record := records[|records| - 1];
      var (before, samples) := InternedRecords(e, records[..|records| - 1]);
      var (after, ids) := InternedFrames(before, FramesOf(record));
      (after, samples + [Sample(ids, SampleValues(record))])
  }

  /** The number of frames a profile has to intern. */
  ghost function FrameCount(records: seq<SnapshotRecord>): nat {
    if |records| == 0 then 0 else FrameCount(records[..|records| - 1]) + |FramesOf(records[|records| - 1])|
  }

  ghost predicate SampleMeans(t: Tables, s: Sample, record: SnapshotRecord) {
    Reads(t, s.locationIds, FramesOf(record)) && s.values == SampleValues(record)
  }

  ghost predicate Used(samples: seq<Sample>, id: U64) {
    exists k :: 0 <= k < |samples| && id in samples[k].locationIds
  }

  lemma SamplesStay(t: Tables, t': Tables, samples: seq<Sample>, records: seq<SnapshotRecord>)
    requires WellFormed(t) && WellFormed(t') && Extends(t, t') && |samples| <= |records|
    requires forall k :: 0 <= k < |samples| ==> SampleMeans(t, samples[k], records[k])
    ensures forall k :: 0 <= k < |samples| ==> SampleMeans(t', samples[k], records[k])
  {
    forall k | 0 <= k < |samples| ensures SampleMeans(t', samples[k], records[k]) {
      assert SampleMeans(t, samples[k], records[k]);
      ReadsStay(t, t', samples[k].locationIds, FramesOf(records[k]));
    }
  }

  lemma {:induction false} InternedRecordsStep(e: Encoding, records: seq<SnapshotRecord>)
    requires Sound(e) && Room(e, FrameCount(records))
    ensures var (e', samples) := InternedRecords(e, records);
      && Sound(e') && Grew(e, e', FrameCount(records)) && |samples| == |records|
      && (forall k :: 0 <= k < |records| ==> SampleMeans(TablesOf(e'), samples[k], records[k]))
  {
    hide Sound, WellFormed, Reads, InternedFrames;
    if |records| > 0 {
      var most, last := records[..|records| - 1], records[|records| - 1];
      InternedRecordsStep(e, most);
      var (before, samples) := InternedRecords(e, most);
      InternedFramesStep(before, FramesOf(last));
      var (after, ids) := InternedFrames(before, FramesOf(last));
      SoundWellFormed(before);
      SoundWellFormed(after);
      SamplesStay(TablesOf(before), TablesOf(after), samples, most);
    }
  }

  lemma {:induction false} RecordLocationsUsed(e: Encoding, records: seq<SnapshotRecord>, id: U64)
    requires Sound(e) && Room(e, FrameCount(records))
    requires |e.locations.locations| < id <= |InternedRecords(e, records).0.locations.locations|
    ensures Used(InternedRecords(e, records).1, id)
  {
    hide Sound, SampleMeans, InternedFrames;
    if |records| > 0 {
      var most, last := records[..|records| - 1], records[|records| - 1];
      InternedRecordsStep(e, most);
      var (before, samples) := InternedRecords(e, most);
      var all := InternedRecords(e, records).1;
      if id <= |before.locations.locations| {
        RecordLocationsUsed(e, most, id);
        var k :| 0 <= k < |samples| && id in samples[k].locationIds;
        assert all[k] == samples[k];
      } else {
        NewLocationsUsed(before, FramesOf(last), id);
        assert id in all[|samples|].locationIds;
      }
    }
  }

  // The whole profile.

  function BuiltProfile(snapshot: Snapshot): Profile {
    var (e, samples) := InternedRecords(EMPTY_ENCODING, snapshot.records);
    var (t1, space) := InternedString(e.strings, "space");
    var (t2, bytes) := InternedString(t1, "bytes");
    var (t3, allocations) := InternedString(t2, "allocations");
    var (t4, count) := InternedString(t3, "count");
    Profile(
      [ValueType(space, bytes), ValueType(allocations, count)],
      samples,
      TablesOf(e.(strings := t4)),
      ValueType(0, 0),
      1)
  }

  ghost predicate TypeReads(t: Tables, v: ValueType, ty: string, unit: string) {
    ReadString(t.strings, v.ty) == Some(ty) && ReadString(t.strings, v.unit) == Some(unit)
  }

  /** What a profile says, read back through its ids, is what the snapshot says. */
  ghost predicate ProfileMeans(p: Profile, records: seq<SnapshotRecord>) {
    && WellFormed(p.tables)
    && |p.samples| == |records|
    && (forall k :: 0 <= k < |records| ==> SampleMeans(p.tables, p.samples[k], records[k]))
    && |p.sampleTypes| == 2
    && TypeReads(p.tables, p.sampleTypes[0], "space", "bytes")
    && TypeReads(p.tables, p.sampleTypes[1], "allocations", "count")
    && TypeReads(p.tables, p.periodType, "", "") && p.period == 1
    && (forall id: U64 :: 1 <= id <= |p.tables.locations| ==> Used(p.samples, id))
  }

  lemma StringsGrow(e: Encoding, value: string) returns (e': Encoding, i: I64)
    requires Sound(e) && |e.strings.entries| <= I64_MAX
    ensures (e'.strings, i) == InternedString(e.strings, value)
    ensures e' == e.(strings := e'.strings) && Sound(e') && Extends(TablesOf(e), TablesOf(e'))
    ensures |e'.strings.entries| <= |e.strings.entries| + 1
    ensures ReadString(e'.strings.entries, i) == Some(value)
  {
    InternedStringStep(e.strings, value);
    var (t, j) := InternedString(e.strings, value);
    e', i := e.(strings := t), j;
    FunctionsStayIndexed(e.functions, e.strings.entries, t.entries);
  }

  lemma EmptyStringFirst(t: Tables)
    requires WellFormed(t)
    ensures ReadString(t.strings, 0) == Some("")
  {
  }

  lemma EmptySound()
    ensures Sound(EMPTY_ENCODING)
  {
  }

  /**
   * Meaning is preserved, record by record and in order, for every snapshot whose frames fit in memory (a vector
   * holds less than 2^63 strings); and no location is idle.
   */
  lemma ProfilePreservesMeaning(snapshot: Snapshot)
    requires 2 * FrameCount(snapshot.records) + 5 <= I64_MAX
    ensures ProfileMeans(BuiltProfile(snapshot), snapshot.records)
  {
    hide Sound, WellFormed, InternedString, InternedRecords, SampleMeans, Used;
    var records := snapshot.records;
    EmptySound();
    InternedRecordsStep(EMPTY_ENCODING, records);
    var (e, samples) := InternedRecords(EMPTY_ENCODING, records);
    forall id: U64 | 1 <= id <= |e.locations.locations| ensures Used(samples, id) {
      RecordLocationsUsed(EMPTY_ENCODING, records, id);
    }
    var e1, space := StringsGrow(e, "space");
    var e2, bytes := StringsGrow(e1, "bytes");
    var e3, allocations := StringsGrow(e2, "allocations");
    var e4, count := StringsGrow(e3, "count");
    assert BuiltProfile(snapshot).tables == TablesOf(e4);
    SoundWellFormed(e);
    SoundWellFormed(e4);
    EmptyStringFirst(TablesOf(e4));
    SamplesStay(TablesOf(e), TablesOf(e4), samples, records);
  }

  /** The frames of a record as a reader sees them: its own, or one that says nothing is known. */
  ghost predicate FramesRead(t: Tables, ids: seq<U64>, stack: Option<StackMetadata>) {
    if stack.None? || |stack.value.frames| == 0 then
      |ids| == 1 && ReadFrame(t, ids[0]) == Some(FrameMetadata("<unknown>", "<unknown>", 0))
    else
      && |ids| == |stack.value.frames|
      && forall j :: 0 <= j < |ids| ==> ReadFrame(t, ids[j]) == Some(stack.value.frames[j])
  }

  /**
   * What a reader of the profile gets for each record: its frames, and under each sample type the value of that
   * name, of which the count is cut off at the largest `i64`.
   */
  lemma SamplesReadBack(p: Profile, records: seq<SnapshotRecord>, k: nat, j: nat)
    requires ProfileMeans(p, records) && k < |records| && j < |p.sampleTypes|
    ensures var s, record := p.samples[k], records[k];
      && FramesRead(p.tables, s.locationIds, record.stack)
      && |s.values| == |p.sampleTypes|
      && (TypeReads(p.tables, p.sampleTypes[j], "space", "bytes") ==> s.values[j] == record.currentBytes)
      && (TypeReads(p.tables, p.sampleTypes[j], "allocations", "count") ==>
            s.values[j] == if record.allocations <= I64_MAX then record.allocations else I64_MAX)
  {
    hide WellFormed, ReadFrame;
    assert SampleMeans(p.tables, p.samples[k], records[k]);
    assert "space" != "allocations" by {
      assert |"space"| != |"allocations"|;
    }
  }

  // Sharing over a whole profile.

  /** In any profile that means a snapshot, two frames have the same location id exactly if they are equal. */
  lemma EqualFramesShareLocation(p: Profile, records: seq<SnapshotRecord>, k: nat, i: nat, l: nat, j: nat)
    requires ProfileMeans(p, records)
    requires k < |records| && i < |FramesOf(records[k])| && l < |records| && j < |FramesOf(records[l])|
    ensures i < |p.samples[k].locationIds| && j < |p.samples[l].locationIds|
    ensures p.samples[k].locationIds[i] == p.samples[l].locationIds[j]
      <==> FramesOf(records[k])[i] == FramesOf(records[l])[j]
  {
    hide WellFormed, ReadFrame;
    assert SampleMeans(p.tables, p.samples[k], records[k]) && SampleMeans(p.tables, p.samples[l], records[l]);
    var a, b := p.samples[k].locationIds[i], p.samples[l].locationIds[j];
    assert ReadFrame(p.tables, a) == Some(FramesOf(records[k])[i]);
    assert ReadFrame(p.tables, b) == Some(FramesOf(records[l])[j]);
    SharingIsExact(p.tables, a, b);
  }

  ghost predicate Occurs(records: seq<SnapshotRecord>, frame: FrameMetadata) {
    exists k :: 0 <= k < |records| && frame in FramesOf(records[k])
  }

  /** The frame of each location. */
  ghost function LocationFrames(t: Tables, n: nat): (frames: seq<FrameMetadata>)
    requires WellFormed(t) && n <= |t.locations|
    ensures |frames| == n
    ensures forall i :: 0 <= i < n ==> i < U64_MAX && ReadFrame(t, i + 1) == Some(frames[i])
  {
    LocationsFit(t);
    if n == 0 then [] else
      var f := t.functions[n - 1];
      ReadFrameAt(t, n);
      LocationFrames(t, n - 1) + [FrameMetadata(t.strings[f.filename], t.strings[f.name], f.startLine)]
  }

  lemma LocationFrameOccurs(p: Profile, records: seq<SnapshotRecord>, id: U64, frame: FrameMetadata)
    requires ProfileMeans(p, records)
    requires 1 <= id <= |p.tables.locations| && ReadFrame(p.tables, id) == Some(frame)
    ensures Occurs(records, frame)
  {
    hide WellFormed, ReadFrame;
    assert Used(p.samples, id);
    var k :| 0 <= k < |p.samples| && id in p.samples[k].locationIds;
    assert SampleMeans(p.tables, p.samples[k], records[k]);
    var j :| 0 <= j < |p.samples[k].locationIds| && p.samples[k].locationIds[j] == id;
    assert ReadFrame(p.tables, p.samples[k].locationIds[j]) == Some(FramesOf(records[k])[j]);
  }

  lemma IdInRange(t: Tables, id: U64)
    requires WellFormed(t) && ReadFrame(t, id).Some?
    ensures 1 <= id <= |t.locations|
  {
    FindLocationOnly(t.locations, id);
  }

  lemma OccurringFrameHasLocation(p: Profile, records: seq<SnapshotRecord>, frame: FrameMetadata) returns (id: U64)
    requires ProfileMeans(p, records) && Occurs(records, frame)
    ensures 1 <= id <= |p.tables.locations| && ReadFrame(p.tables, id) == Some(frame)
  {
    hide WellFormed, ReadFrame;
    var k :| 0 <= k < |records| && frame in FramesOf(records[k]);
    var j :| 0 <= j < |FramesOf(records[k])| && FramesOf(records[k])[j] == frame;
    assert SampleMeans(p.tables, p.samples[k], records[k]);
    id := p.samples[k].locationIds[j];
    assert ReadFrame(p.tables, id) == Some(frame);
    IdInRange(p.tables, id);
  }

  lemma ListedIffOccurs(
    p: Profile, records: seq<SnapshotRecord>, frames: seq<FrameMetadata>, frame: FrameMetadata)
    requires ProfileMeans(p, records) && |frames| == |p.tables.locations| <= U64_MAX
    requires forall i :: 0 <= i < |frames| ==> ReadFrame(p.tables, i + 1) == Some(frames[i])
    ensures frame in frames <==> Occurs(records, frame)
  {
    hide ProfileMeans, ReadFrame, Occurs;
    if frame in frames {
      var i :| 0 <= i < |frames| && frames[i] == frame;
      LocationFrameOccurs(p, records, i + 1, frame);
    }
    if Occurs(records, frame) {
      var id := OccurringFrameHasLocation(p, records, frame);
      assert ReadFrame(p.tables, (id - 1) + 1) == Some(frames[id - 1]);
    }
  }

  /** Functions and locations alike list the distinct frames of the snapshot, each once and no other. */
  lemma LocationsNumberDistinctFrames(p: Profile, records: seq<SnapshotRecord>) returns (frames: seq<FrameMetadata>)
    requires ProfileMeans(p, records)
    ensures |frames| == |p.tables.locations| == |p.tables.functions|
    ensures forall i, j :: 0 <= i < j < |frames| ==> frames[i] != frames[j]
    ensures forall frame :: frame in frames <==> Occurs(records, frame)
  {
    var t := p.tables;
    frames := LocationFrames(t, |t.locations|);
    assert |t.locations| == |t.functions|;
    LocationsFit(t);
    hide WellFormed, ReadFrame, Occurs;
    forall i, j | 0 <= i < j < |frames| ensures frames[i] != frames[j] {
      assert ReadFrame(t, i + 1) == Some(frames[i]) && ReadFrame(t, j + 1) == Some(frames[j]);
      SharingIsExact(t, i + 1, j + 1);
    }
    forall frame ensures frame in frames <==> Occurs(records, frame) {
      ListedIffOccurs(p, records, frames, frame);
    }
  }

  // The encoder itself: mutable tables, filled by nested loops.

  class StringTable {
    var entries: seq<string>
    var index: map<string, I64>

    ghost function State(): StringIndex
      reads this
    {
      StringIndex(entries, index)
    }

    constructor ()
      ensures State() == EMPTY_ENCODING.strings
    {
      entries := [""];
      index := map["" := 0];
    }

    method Intern(value: string) returns (i: I64)
      modifies this
      ensures (State(), i) == InternedString(old(State()), value)
    {
      if value in index {
        return index[value];
      }
      i := Min(|entries|, I64_MAX);
      entries := entries + [value];
      index := index[value := i];
    }
  }

  method InternLocationForFrame(
    strings: StringTable, functions: FunctionIndex, locations: LocationIndex, frame: FrameMetadata)
    returns (functions': FunctionIndex, locations': LocationIndex, id: U64)
    modifies strings
    ensures (Encoding(strings.State(), functions', locations'), id)
      == InternedFrame(Encoding(old(strings.State()), functions, locations), frame)
  {
    functions', locations' := functions, locations;
    var filename := strings.Intern(frame.filename);
    var name := strings.Intern(frame.functionName);
    var functionKey := FunctionKey(filename, name, frame.lineno);
    var functionId;
    if functionKey in functions'.ids {
      functionId := functions'.ids[functionKey];
    } else {
      functionId := NextId(|functions'.functions|);
      functions' := FunctionIndex(
        functions'.functions + [Function(functionId, name, name, filename, frame.lineno)],
        functions'.ids[functionKey := functionId]);
    }
    var locationKey := LocationKey(functionId, frame.lineno);
    if locationKey in locations'.ids {
      id := locations'.ids[locationKey];
    } else {
      id := NextId(|locations'.locations|);
      locations' := LocationIndex(
        locations'.locations + [Location(id, 0, 0, [Line(functionId, frame.lineno)], false)],
        locations'.ids[locationKey := id]);
    }
  }

  method BuildPprofProfile(snapshot: Snapshot) returns (p: Profile)
    ensures p == BuiltProfile(snapshot)
    ensures 2 * FrameCount(snapshot.records) + 5 <= I64_MAX ==> ProfileMeans(p, snapshot.records)
  {
    hide ProfileMeans, InternedFrame, InternedString;
    var strings := new StringTable();
    var functions, locations := FunctionIndex([], map[]), LocationIndex([], map[]);
    var samples := [];
    for i := 0 to |snapshot.records|
      invariant (Encoding(strings.State(), functions, locations), samples)
        == InternedRecords(EMPTY_ENCODING, snapshot.records[..i])
    {
      var record := snapshot.records[i];
      ghost var before := Encoding(strings.State(), functions, locations);
      var ids := [];
      if record.stack.Some? {
        var frames := record.stack.value.frames;
        for j := 0 to |frames|
          invariant (Encoding(strings.State(), functions, locations), ids) == InternedFrames(before, frames[..j])
          invariant |ids| == j
        {
          var id;
          functions, locations, id := InternLocationForFrame(strings, functions, locations, frames[j]);
          ids := ids + [id];
          assert frames[..j + 1][..j] == frames[..j];
        }
        assert frames[..|frames|] == frames;
      }
      if |ids| == 0 {
        var id;
        functions, locations, id := InternLocationForFrame(strings, functions, locations, UNKNOWN);
        ids := ids + [id];
        assert [UNKNOWN][..0] == [];
      }
      assert (Encoding(strings.State(), functions, locations), ids) == InternedFrames(before, FramesOf(record));
      samples := samples + [Sample(ids, [record.currentBytes, Min(record.allocations, I64_MAX)])];
      assert snapshot.records[..i + 1][..i] == snapshot.records[..i];
    }
    assert snapshot.records[..|snapshot.records|] == snapshot.records;
    var space := strings.Intern("space");
    var bytes := strings.Intern("bytes");
    var allocations := strings.Intern("allocations");
    var count := strings.Intern("count");
    p := Profile(
      [ValueType(space, bytes), ValueType(allocations, count)], samples,
      Tables(strings.entries, functions.functions, locations.locations), ValueType(0, 0), 1);
    if 2 * FrameCount(snapshot.records) + 5 <= I64_MAX {
      ProfilePreservesMeaning(snapshot);
    }
  }
}
