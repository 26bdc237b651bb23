/** `reposition_outputs` in place. */
module Repositioning {
  import opened Wrappers
  import opened OutputNames
  import opened Placement
  import opened PlacementOrder

  lemma {:induction false} UnmapAbsent(space: seq<Mapped>, o: Output)
    requires forall m <- space :: m.output != o
    ensures Unmapped(space, o) == space
  {
    if space != [] {
      UnmapAbsent(space[1..], o);
    }
  }

  lemma UnmappedHead(rest: seq<Mapped>, space: seq<Mapped>, i: nat)
    requires i < |space| && rest == space[i..] && DistinctConnectors(Outputs(space))
    ensures Unmapped(rest, space[i].output) == rest[1..]
  {
    forall m <- rest[1..] ensures m.output != space[i].output {
      var k :| 0 <= k < |rest[1..]| && rest[1..][k] == m;
      assert Outputs(space)[i].name.connector != Outputs(space)[i + 1 + k].name.connector;
    }
    UnmapAbsent(rest[1..], space[i].output);
  }

  lemma {:induction false} MovedExtends(before: seq<Mapped>, after: seq<Mapped>, m: Mapped)
    ensures Moved(before, after + [m]) == Moved(before, after) + Moved(before, [m])
  {
    if after == [] {
      assert (after + [m])[1..] == [];
    } else {
      assert (after + [m])[1..] == after[1..] + [m];
      MovedExtends(before, after[1..], m);
    }
  }

  lemma PlaceAllExtends(ds: seq<Data>, i: nat)
    requires i < |ds|
    ensures PlaceAll(ds[..i + 1]) == PlaceAll(ds[..i]) + [Mapped(ds[i].output, NewPosition(PlaceAll(ds[..i]), ds[i]))]
  {
    assert ds[..i + 1][..i] == ds[..i];
  }

  class OutputSpace {
    var sections: seq<OutputConfig>
    var globalSpace: seq<Mapped>
    var sortedOutputs: seq<Output>
    var ipcOutputsChanged: bool
    var redraws: seq<Output>

    /** Unmaps `outputs`, among which are all that are mapped. */
    method UnmapOutputs(outputs: seq<Output>)
      requires Outputs(globalSpace) <= outputs && DistinctConnectors(outputs)
      modifies this`globalSpace
      ensures globalSpace == []
    {
      ghost var before := globalSpace;
      var i := 0;
      while i < |outputs|
        invariant 0 <= i <= |outputs|
        invariant globalSpace == if i <= |before| then before[i..] else []
      {
        if i < |before| {
          UnmappedHead(before[i..], before, i);
        }
        globalSpace := Unmapped(globalSpace, outputs[i]);
        i := i + 1;
      }
    }

    /** Maps `o` at its new position, and announces it if it was elsewhere or nowhere before. */
    method PlaceOutput(o: Output, before: seq<Mapped>)
      modifies this`globalSpace, this`ipcOutputsChanged, this`redraws
      ensures var m := Mapped(o, NewPosition(old(globalSpace), Data(o, ConfiguredPosition(sections, o))));
        var moved := Moved(before, [m]);
        && globalSpace == old(globalSpace) + [m]
        && redraws == old(redraws) + moved
        && ipcOutputsChanged == (old(ipcOutputsChanged) || moved != [])
    {
      var newPosition := NewPosition(globalSpace, Data(o, ConfiguredPosition(sections, o)));
      globalSpace := globalSpace + [Mapped(o, newPosition)];
      if Some(newPosition) != Position(before, o) {
        ipcOutputsChanged := true;
        redraws := redraws + [o];
      }
    }

    method PlaceOutputs(sorted: seq<Output>, before: seq<Mapped>)
      requires globalSpace == []
      modifies this`globalSpace, this`ipcOutputsChanged, this`redraws
      ensures globalSpace == PlaceAll(Configure(sections, sorted))
      ensures redraws == old(redraws) + Moved(before, globalSpace)
      ensures ipcOutputsChanged == (old(ipcOutputsChanged) || Moved(before, globalSpace) != [])
    {
      ghost var ds := Configure(sections, sorted);
      var i := 0;
      while i < |sorted|
        invariant 0 <= i <= |sorted|
        invariant globalSpace == PlaceAll(ds[..i])
        invariant redraws == old(redraws) + Moved(before, globalSpace)
        invariant ipcOutputsChanged == (old(ipcOutputsChanged) || Moved(before, globalSpace) != [])
      {
        PlaceAllExtends(ds, i);
        MovedExtends(before, globalSpace, Mapped(sorted[i], NewPosition(globalSpace, ds[i])));
        PlaceOutput(sorted[i], before);
        i := i + 1;
      }
      assert ds[..i] == ds;
    }

    /** `reposition_outputs`. Every output is unmapped, then mapped again in the new order; those
        that moved are announced and redrawn. */
    method RepositionOutputs(newOutput: Option<Output>)
      requires DistinctConnectors(Outputs(globalSpace) + ToSeq(newOutput))
      modifies this`globalSpace, this`sortedOutputs, this`ipcOutputsChanged, this`redraws
      ensures var os := Outputs(old(globalSpace)) + ToSeq(newOutput);
        && sortedOutputs == Order(sections, os)
        && globalSpace == Reposition(sections, os)
        && redraws == old(redraws) + Moved(old(globalSpace), globalSpace)
        && ipcOutputsChanged == (old(ipcOutputsChanged) || Moved(old(globalSpace), globalSpace) != [])
    {
      var before := globalSpace;
      var outputs := Outputs(before) + ToSeq(newOutput);
      UnmapOutputs(outputs);
      sortedOutputs := Order(sections, outputs);
      PlaceOutputs(sortedOutputs, before);
    }
  }
}
