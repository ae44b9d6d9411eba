/** Interning of stack traces (`src/stack.rs`). */
module Stacks {
  import opened Words
  import opened Events

  type U32 = x: int | 0 <= x <= 0xFFFF_FFFF

  datatype FrameMetadata = FrameMetadata(filename: string, functionName: string, lineno: U32)

  type Frames = seq<FrameMetadata>

  /** The frame that stands in for a stack nothing is known about. */
  const UNKNOWN := FrameMetadata("<unknown>", "<unknown>", 0)

  datatype StackMetadata = StackMetadata(frames: Frames, id: StackId)

  /** The abstract value of a `StackTable`. */
  datatype Table = Table(byFrames: map<Frames, StackId>, byId: map<StackId, StackMetadata>, nextId: StackId)

  const EMPTY_TABLE := Table(map[], map[], 1)

  function Interned(t: Table, frames: Frames): (Table, StackId) {
    if frames in t.byFrames then (t, t.byFrames[frames])
    else
      var id := t.nextId;
      (Table(t.byFrames[frames := id], t.byId[id := StackMetadata(frames, id)], SaturatingAdd(id, 1)), id)
  }

  function Inserted(t: Table, id: StackId, frames: Frames): Table {
    Table(
      t.byFrames[frames := id], t.byId[id := StackMetadata(frames, id)],
      if t.nextId <= id then SaturatingAdd(id, 1) else t.nextId)
  }

  function Resolved(t: Table, id: StackId): Option<StackMetadata> {
    Lookup(t.byId, id)
  }

  class StackTable {
    var byFrames: map<Frames, StackId>
    var byId: map<StackId, StackMetadata>
    var nextId: StackId

    ghost function State(): Table
      reads this
    {
      Table(byFrames, byId, nextId)
    }

    constructor ()
      ensures State() == EMPTY_TABLE
    {
      byFrames := map[];
      byId := map[];
      nextId := 1;
    }

    method InsertWithId(stackId: StackId, frames: Frames)
      modifies this
      ensures State() == Inserted(old(State()), stackId, frames)
    {
      byFrames := byFrames[frames := stackId];
      byId := byId[stackId := StackMetadata(frames, stackId)];
      if nextId <= stackId {
        nextId := SaturatingAdd(stackId, 1);
      }
    }

    method Intern(frames: Frames) returns (id: StackId)
      modifies this
      ensures (State(), id) == Interned(old(State()), frames)
    {
      if frames in byFrames {
        return byFrames[frames];
      }
      id := nextId;
      nextId := SaturatingAdd(nextId, 1);
      byFrames := byFrames[frames := id];
      byId := byId[id := StackMetadata(frames, id)];
    }

    method Resolve(id: StackId) returns (metadata: Option<StackMetadata>)
      ensures metadata == Resolved(State(), id)
    {
      metadata := if id in byId then Some(byId[id]) else None;
    }
  }

  // Runs of the table.

  datatype Op = Intern(frames: Frames) | InsertWithId(id: StackId, frames: Frames)

  function Performed(t: Table, op: Op): (Table, StackId) {
    match op
    case Intern(frames) => Interned(t, frames)
    case InsertWithId(id, frames) => (Inserted(t, id, frames), id)
  }

  function PerformedAll(t: Table, ops: seq<Op>): Table {
    if |ops| == 0 then t else Performed(PerformedAll(t, ops[..|ops| - 1]), ops[|ops| - 1]).0
  }

  /** Ids stay below the largest `u64`, and explicit insertions use only unused ids. */
  ghost predicate Regular(t: Table, ops: seq<Op>) {
    forall i :: 0 <= i < |ops| ==> RegularOp(PerformedAll(t, ops[..i]), ops[i])
  }

  ghost predicate RegularOp(t: Table, op: Op) {
    && t.nextId < U64_MAX
    && (op.InsertWithId? ==> op.id < U64_MAX && op.id !in t.byId)
  }

  /** What holds of the ids at every moment; a second id for the same frames does not disturb it. */
  ghost predicate IdsSound(t: Table) {
    && (forall f :: f in t.byFrames ==> t.byFrames[f] in t.byId && t.byId[t.byFrames[f]].frames == f)
    && (forall id :: id in t.byId ==> t.byId[id].id == id && id < t.nextId)
  }

  lemma OpKeepsIds(t: Table, op: Op)
    requires IdsSound(t) && RegularOp(t, op)
    ensures var (t', id) := Performed(t, op);
      && IdsSound(t')
      && t.nextId <= t'.nextId
      && (forall k :: k in t.byId ==> k in t'.byId && t'.byId[k] == t.byId[k])
      && id in t'.byId && t'.byId[id].frames == op.frames
  {
  }

  lemma RegularPrefix(t: Table, ops: seq<Op>)
    requires |ops| > 0 && Regular(t, ops)
    ensures Regular(t, ops[..|ops| - 1])
    ensures RegularOp(PerformedAll(t, ops[..|ops| - 1]), ops[|ops| - 1])
  {
    var most := ops[..|ops| - 1];
    forall i | 0 <= i < |most| ensures RegularOp(PerformedAll(t, most[..i]), most[i]) {
      assert most[..i] == ops[..i];
      assert RegularOp(PerformedAll(t, ops[..i]), ops[i]);
    }
  }

  /** Over a run the table stays sound, and whatever an id resolved to it resolves to for ever. */
  lemma {:induction false} RunKeepsIds(t: Table, ops: seq<Op>)
    requires IdsSound(t) && Regular(t, ops)
    ensures var t' := PerformedAll(t, ops);
      && IdsSound(t')
      && t.nextId <= t'.nextId
      && (forall k :: k in t.byId ==> k in t'.byId && t'.byId[k] == t.byId[k])
  {
    if |ops| > 0 {
      RegularPrefix(t, ops);
      RunKeepsIds(t, ops[..|ops| - 1]);
      OpKeepsIds(PerformedAll(t, ops[..|ops| - 1]), ops[|ops| - 1]);
    }
  }

  lemma {:induction false} RunConcat(t: Table, a: seq<Op>, b: seq<Op>)
    ensures PerformedAll(t, a + b) == PerformedAll(PerformedAll(t, a), b)
  {
    if |b| == 0 {
      assert a + b == a;
    } else {
      assert (a + b)[..|a + b| - 1] == a + b[..|b| - 1];
      RunConcat(t, a, b[..|b| - 1]);
    }
  }

  lemma RegularSuffix(t: Table, a: seq<Op>, b: seq<Op>)
    requires Regular(t, a + b)
    ensures Regular(t, a) && Regular(PerformedAll(t, a), b)
  {
    forall i | 0 <= i < |a| ensures RegularOp(PerformedAll(t, a[..i]), a[i]) {
      assert (a + b)[..i] == a[..i] && (a + b)[i] == a[i];
      assert RegularOp(PerformedAll(t, (a + b)[..i]), (a + b)[i]);
    }
    forall i | 0 <= i < |b| ensures RegularOp(PerformedAll(PerformedAll(t, a), b[..i]), b[i]) {
      assert (a + b)[..|a| + i] == a + b[..i] && (a + b)[|a| + i] == b[i];
      assert RegularOp(PerformedAll(t, (a + b)[..|a| + i]), (a + b)[|a| + i]);
      RunConcat(t, a, b[..i]);
    }
  }

  /** A run seen from its `i`-th operation. */
  lemma RunSplit(t: Table, ops: seq<Op>, i: nat)
    requires Regular(t, ops) && i < |ops|
    ensures var before := PerformedAll(t, ops[..i]);
      var after := Performed(before, ops[i]).0;
      && Regular(t, ops[..i]) && RegularOp(before, ops[i])
      && Regular(after, ops[i + 1..]) && PerformedAll(after, ops[i + 1..]) == PerformedAll(t, ops)
  {
    assert ops == ops[..i + 1] + ops[i + 1..];
    RegularSuffix(t, ops[..i + 1], ops[i + 1..]);
    RunConcat(t, ops[..i + 1], ops[i + 1..]);
    assert ops[..i + 1][..i] == ops[..i];
    RegularPrefix(t, ops[..i + 1]);
  }

  /**
   * Table correctness over every run: the id handed out by operation `i` resolves, at the end of the run, to
   * exactly the frames that operation named, and it is below the next id.
   */
  lemma ReturnedIdsKeepTheirFrames(ops: seq<Op>, i: nat)
    requires Regular(EMPTY_TABLE, ops) && i < |ops|
    ensures var id := Performed(PerformedAll(EMPTY_TABLE, ops[..i]), ops[i]).1;
      var t := PerformedAll(EMPTY_TABLE, ops);
      Resolved(t, id) == Some(StackMetadata(ops[i].frames, id)) && id < t.nextId
  {
    RunSplit(EMPTY_TABLE, ops, i);
    var before := PerformedAll(EMPTY_TABLE, ops[..i]);
    RunKeepsIds(EMPTY_TABLE, ops[..i]);
    OpKeepsIds(before, ops[i]);
    RunKeepsIds(Performed(before, ops[i]).0, ops[i + 1..]);
  }

  ghost predicate HandsOut(ops: seq<Op>, i: nat, id: StackId) {
    i < |ops| && Performed(PerformedAll(EMPTY_TABLE, ops[..i]), ops[i]).1 == id
  }

  lemma OpResolves(t: Table, op: Op, id: StackId)
    requires IdsSound(t)
    ensures Resolved(Performed(t, op).0, id).Some? <==> Resolved(t, id).Some? || Performed(t, op).1 == id
  {
  }

  /** And only ids that were handed out resolve to anything. */
  lemma {:induction false} ResolvesIffHandedOut(ops: seq<Op>, id: StackId)
    requires Regular(EMPTY_TABLE, ops)
    ensures Resolved(PerformedAll(EMPTY_TABLE, ops), id).Some? <==> exists i :: HandsOut(ops, i, id)
  {
    hide Performed;
    if |ops| > 0 {
      var n := |ops| - 1;
      var before := PerformedAll(EMPTY_TABLE, ops[..n]);
      RegularPrefix(EMPTY_TABLE, ops);
      ResolvesIffHandedOut(ops[..n], id);
      RunKeepsIds(EMPTY_TABLE, ops[..n]);
      OpResolves(before, ops[n], id);
      assert HandsOut(ops, n, id) <==> Performed(before, ops[n]).1 == id;
      forall i: nat | i < n ensures HandsOut(ops[..n], i, id) <==> HandsOut(ops, i, id) {
        assert ops[..n][..i] == ops[..i];
      }
    }
  }

  /** Hence different frames never share an id. */
  lemma DistinctFramesDistinctIds(ops: seq<Op>, i: nat, j: nat)
    requires Regular(EMPTY_TABLE, ops) && i < |ops| && j < |ops|
    requires ops[i].frames != ops[j].frames
    ensures Performed(PerformedAll(EMPTY_TABLE, ops[..i]), ops[i]).1
         != Performed(PerformedAll(EMPTY_TABLE, ops[..j]), ops[j]).1
  {
    ReturnedIdsKeepTheirFrames(ops, i);
    ReturnedIdsKeepTheirFrames(ops, j);
  }

  /** The next id is above all in use, and 1 or the first that is. */
  ghost predicate NextIsFirstAbove(t: Table) {
    && (forall id :: id in t.byId ==> id < t.nextId)
    && (t.nextId == 1 || t.nextId - 1 in t.byId)
  }

  /** Ids are handed out one after the other: over every regular run, none above those in use is passed over. */
  lemma {:induction false} RunNumbersIds(ops: seq<Op>)
    requires Regular(EMPTY_TABLE, ops)
    ensures NextIsFirstAbove(PerformedAll(EMPTY_TABLE, ops))
  {
    if |ops| > 0 {
      RegularPrefix(EMPTY_TABLE, ops);
      RunNumbersIds(ops[..|ops| - 1]);
    }
  }

  /** New frames get the first id above those in use; nothing else changes, and nothing at all for known ones. */
  lemma InternGivesFirstAbove(t: Table, frames: Frames)
    requires NextIsFirstAbove(t)
    ensures var (t', id) := Interned(t, frames);
      if frames in t.byFrames then t' == t && id == t.byFrames[frames]
      else
        && (forall used :: used in t.byId ==> used < id) && (id == 1 || id - 1 in t.byId)
        && t'.byFrames == t.byFrames[frames := id]
        && Without(t'.byId, id) == t.byId && Resolved(t', id) == Some(StackMetadata(frames, id))
  {
  }

  /** Exactly when interning keeps the table sound and hands out an id of its own: the id space has room. */
  lemma InternSoundIff(t: Table, frames: Frames)
    requires IdsSound(t)
    ensures frames !in t.byFrames ==> (IdsSound(Interned(t, frames).0) <==> t.nextId < U64_MAX)
    ensures frames in t.byFrames ==> Interned(t, frames) == (t, t.byFrames[frames])
  {
    var (t', id) := Interned(t, frames);
    if frames !in t.byFrames && t.nextId == U64_MAX {
      assert id in t'.byId;
    }
  }

  /** Exactly when an explicit insertion leaves every earlier id with its frames: the id is new or unchanged. */
  lemma InsertKeepsFramesIff(t: Table, id: StackId, frames: Frames)
    requires IdsSound(t)
    ensures (forall k :: k in t.byId ==> Resolved(Inserted(t, id, frames), k) == Resolved(t, k))
      <==> (id in t.byId ==> t.byId[id].frames == frames)
  {
    if id in t.byId && t.byId[id].frames != frames {
      assert Resolved(Inserted(t, id, frames), id) != Resolved(t, id);
    }
  }

  /**
   * Exactly when an explicit insertion keeps the table sound: the id is not the largest one, after which no id
   * would be new, and no other frames are known under it.
   */
  lemma InsertSoundIff(t: Table, id: StackId, frames: Frames)
    requires IdsSound(t)
    ensures IdsSound(Inserted(t, id, frames))
      <==> id < U64_MAX && forall f :: f in t.byFrames && f != frames ==> t.byFrames[f] != id
  {
    var t' := Inserted(t, id, frames);
    assert id in t'.byId && t'.byFrames[frames] == id;
    if f :| f in t.byFrames && f != frames && t.byFrames[f] == id {
      assert t'.byFrames[f] == id;
    }
  }

  /** After an insertion under the largest id two new stacks both get that id, and it resolves to the second. */
  lemma LargestIdIsShared(f: Frames, g: Frames, h: Frames)
    requires f != g && f != h && g != h
    ensures var ops := [InsertWithId(U64_MAX, f), Intern(g), Intern(h)];
      && Performed(PerformedAll(EMPTY_TABLE, ops[..1]), ops[1]).1 == U64_MAX
      && Performed(PerformedAll(EMPTY_TABLE, ops[..2]), ops[2]).1 == U64_MAX
      && Resolved(PerformedAll(EMPTY_TABLE, ops), U64_MAX) == Some(StackMetadata(h, U64_MAX))
  {
    var ops := [InsertWithId(U64_MAX, f), Intern(g), Intern(h)];
    assert ops[..1][..0] == [] && ops[..2][..1] == ops[..1] && ops[..3] == ops;
  }

  /** Interning one stack and then inserting another under its id leaves the id resolving to the other. */
  lemma InsertCanRename(f: Frames, g: Frames)
    requires f != g
    ensures var ops := [Intern(f), InsertWithId(1, g)];
      && Performed(EMPTY_TABLE, ops[0]).1 == 1
      && Resolved(PerformedAll(EMPTY_TABLE, ops), 1) == Some(StackMetadata(g, 1))
  {
    assert [Intern(f), InsertWithId(1, g)][..1] == [Intern(f)] && [Intern(f)][..0] == [];
  }
}
