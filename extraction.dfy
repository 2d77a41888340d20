/** The simulation-side `Cubes` component and the hand-off to the render
    world (`Cubes`, `dynamic_cubes` and `extract_cubes` in
    examples/cubes/main.rs). The `extracted` flag is a dirty bit: a
    collection is copied to the render world once per mutation. */
module Extraction {
  import opened CubeData

  /** The value of a `Cubes` component; also the render world's snapshot. */
  datatype CubesValue = CubesValue(data: seq<Cube>, extracted: bool)

  /** The placeholder `extract_cubes` publishes for an already-extracted
      collection: no cubes, flag set. */
  const AlreadyExtracted: CubesValue := CubesValue([], true)

  /** One extraction of one collection: the snapshot published to the render
      world, and the source afterwards. */
  datatype ExtractOutcome = ExtractOutcome(snapshot: CubesValue, source: CubesValue)

  /** The specification of `extract_cubes` for one entity. A dirty source is
      copied whole, as it was before the flag is set; a clean one publishes
      the empty placeholder. Either way the source ends up clean with its
      data untouched. */
  function ExtractStep(v: CubesValue): (r: ExtractOutcome)
    ensures r.source.data == v.data && r.source.extracted
    ensures r.snapshot.extracted == v.extracted
    ensures !v.extracted ==> r.snapshot.data == v.data
    ensures v.extracted ==> r.snapshot.data == []
  {
    if v.extracted then ExtractOutcome(AlreadyExtracted, v)
    else ExtractOutcome(v, v.(extracted := true))
  }

  /** The per-frame drift `dynamic_cubes` applies to each cube's centre. */
  const DriftStep: Vec3 := Vec3(1.0, 0.01, 0.01)

  /** `cube.center += Vec3::new(1.0, 0.01, 0.01)`. */
  function Drift(c: Cube): (d: Cube)
    ensures d.color == c.color && d.halfExtents == c.halfExtents
    ensures d.center.x == c.center.x + 1.0
    ensures d.center.y == c.center.y + 0.01 && d.center.z == c.center.z + 0.01
  {
    c.(center := Vec3(c.center.x + DriftStep.x, c.center.y + DriftStep.y, c.center.z + DriftStep.z))
  }

  /** The specification of `dynamic_cubes` for one entity: every cube
      drifts, none is added or removed, and the collection becomes dirty. */
  function MutateStep(v: CubesValue): (w: CubesValue)
    ensures !w.extracted && |w.data| == |v.data|
    ensures forall i :: 0 <= i < |v.data| ==> w.data[i] == Drift(v.data[i])
  {
    CubesValue(seq(|v.data|, i requires 0 <= i < |v.data| => Drift(v.data[i])), false)
  }

  /** The `Cubes` component of one simulation entity, updated in place. */
  class Cubes {
    var data: seq<Cube>
    var extracted: bool

    function Value(): CubesValue
      reads this
    {
      CubesValue(data, extracted)
    }

    /** `Cubes::default()`: no cubes, not yet extracted. */
    constructor Default()
      ensures Value() == CubesValue([], false)
    {
      data := [];
      extracted := false;
    }

    /** `cubes.data.push(cube)`, as `setup` populates the collection. */
    method Push(c: Cube)
      modifies this
      ensures Value() == old(Value()).(data := old(data) + [c])
    {
      data := data + [c];
    }

    /** The body of `extract_cubes` for this entity: clone into the render
      world, then set the flag on the source. */
    method Extract() returns (snapshot: CubesValue)
      modifies this
      ensures ExtractOutcome(snapshot, Value()) == ExtractStep(old(Value()))
    {
      if extracted {
        snapshot := CubesValue([], true);
      } else {
        snapshot := CubesValue(data, extracted);
        extracted := true;
      }
    }

    /** The body of `dynamic_cubes` for this entity: clear the flag, then
      drift each cube in place. */
    method Mutate()
      modifies this
      ensures Value() == MutateStep(old(Value()))
    {
      extracted := false;
      var i := 0;
      while i < |data|
        invariant 0 <= i <= |data| == |old(data)|
        invariant forall k :: 0 <= k < i ==> data[k] == Drift(old(data)[k])
        invariant forall k :: i <= k < |data| ==> data[k] == old(data)[k]
        invariant !extracted
      {
        data := data[i := Drift(data[i])];
        i := i + 1;
      }
    }
  }

  /** Distinct entities own distinct components. */
  ghost predicate Distinct(world: seq<Cubes>)
  {
    forall i, j :: 0 <= i < j < |world| ==> world[i] != world[j]
  }

  /** `extract_cubes`: extract every entity's collection, in query order;
      the result is the render world's snapshot per entity. */
  method ExtractCubes(world: seq<Cubes>) returns (render: seq<CubesValue>)
    requires Distinct(world)
    modifies set c | c in world
    ensures |render| == |world|
    ensures forall i :: 0 <= i < |world| ==>
      ExtractOutcome(render[i], world[i].Value()) == ExtractStep(old(world[i].Value()))
  {
    render := [];
    var i := 0;
    while i < |world|
      invariant 0 <= i <= |world| && |render| == i
      invariant forall k :: 0 <= k < i ==>
        ExtractOutcome(render[k], world[k].Value()) == ExtractStep(old(world[k].Value()))
      invariant forall k :: i <= k < |world| ==> world[k].Value() == old(world[k].Value())
    {
      var snapshot := world[i].Extract();
      render := render + [snapshot];
      i := i + 1;
    }
  }

  /** `dynamic_cubes`: mutate every entity's collection. */
  method DynamicCubes(world: seq<Cubes>)
    requires Distinct(world)
    modifies set c | c in world
    ensures forall i :: 0 <= i < |world| ==> world[i].Value() == MutateStep(old(world[i].Value()))
  {
    var i := 0;
    while i < |world|
      invariant 0 <= i <= |world|
      invariant forall k :: 0 <= k < i ==> world[k].Value() == MutateStep(old(world[k].Value()))
      invariant forall k :: i <= k < |world| ==> world[k].Value() == old(world[k].Value())
    {
      world[i].Mutate();
      i := i + 1;
    }
  }

  /** Two extractions with no mutation between them: the second publishes
      only the empty placeholder, so nothing is uploaded twice. */
  lemma ExtractTwiceIsEmpty(v: CubesValue)
    ensures ExtractStep(ExtractStep(v).source).snapshot == AlreadyExtracted
  {
  }

  /** After a mutation the next extraction publishes the mutated data whole. */
  lemma ExtractAfterMutate(v: CubesValue)
    ensures ExtractStep(MutateStep(v)).snapshot == MutateStep(v)
    ensures |ExtractStep(MutateStep(v)).snapshot.data| == |v.data|
  {
  }

  /** What a frame of the simulation does to one collection. */
  datatype Event = Mutate | Extract

  /** The snapshots a sequence of events publishes, and the final source. */
  datatype Trace = Trace(source: CubesValue, snapshots: seq<CubesValue>)

  function Run(v: CubesValue, events: seq<Event>): (t: Trace)
    ensures |t.snapshots| == Extracts(events)
  {
    if events == [] then Trace(v, [])
    else
      var t := Run(v, events[..|events| - 1]);
      match events[|events| - 1]
      case Mutate => Trace(MutateStep(t.source), t.snapshots)
      case Extract =>
        var o := ExtractStep(t.source);
        Trace(o.source, t.snapshots + [o.snapshot])
  }

  function Extracts(events: seq<Event>): nat
  {
    if events == [] then 0
    else Extracts(events[..|events| - 1]) + (if events[|events| - 1] == Extract then 1 else 0)
  }

  function Mutations(events: seq<Event>): nat
  {
    if events == [] then 0
    else Mutations(events[..|events| - 1]) + (if events[|events| - 1] == Mutate then 1 else 0)
  }

  /** The number of full (not already-extracted) snapshots. */
  function FullSnapshots(snapshots: seq<CubesValue>): nat
  {
    if snapshots == [] then 0
    else FullSnapshots(snapshots[..|snapshots| - 1]) + (if snapshots[|snapshots| - 1].extracted then 0 else 1)
  }

  /** Extraction happens at most once per mutation: over any run, the full
      snapshots published number at most the mutations, plus one if the
      collection started dirty, and one fewer if it is still dirty at the
      end (its latest mutation has not been published yet). */
  lemma {:induction false} FullSnapshotsBounded(v: CubesValue, events: seq<Event>)
    ensures var t := Run(v, events);
      FullSnapshots(t.snapshots) + (if t.source.extracted then 0 else 1)
        <= Mutations(events) + (if v.extracted then 0 else 1)
  {
    if events != [] {
      var prefix := events[..|events| - 1];
      FullSnapshotsBounded(v, prefix);
      var t := Run(v, prefix);
      if events[|events| - 1] == Extract {
        var o := ExtractStep(t.source);
        assert (t.snapshots + [o.snapshot])[..|t.snapshots|] == t.snapshots;
      }
    }
  }
}
