/** Placement does not depend on arrival order, maps every output once, and is stable. */
module PlacementOrder {
  import opened Wrappers
  import opened OutputNames
  import opened Placement

  lemma {:induction false} InsertSorts(o: Output, os: seq<Output>)
    requires Sorted(os)
    ensures Sorted(Insert(o, os)) && multiset(Insert(o, os)) == multiset(os) + multiset{o}
  {
    if os == [] {
    } else if Precedes(o, os[0]) {
      forall i | 0 <= i < |os| ensures Precedes(o, os[i]) {
        CompareIsTotalOrder(o.name, os[0].name, os[i].name);
      }
    } else {
      assert os == [os[0]] + os[1..];
      InsertSorts(o, os[1..]);
      var rest := Insert(o, os[1..]);
      CompareIsTotalOrder(o.name, os[0].name, o.name);
      forall x | x in rest ensures Precedes(os[0], x) {
        assert x in multiset(rest);
        assert x == o || x in os[1..];
      }
      assert multiset([os[0]] + rest) == multiset{os[0]} + multiset(rest);
    }
  }

  lemma {:induction false} SortSorts(os: seq<Output>)
    ensures Sorted(SortByName(os)) && multiset(SortByName(os)) == multiset(os)
  {
    if os != [] {
      SortSorts(os[1..]);
      InsertSorts(os[0], SortByName(os[1..]));
      assert os == [os[0]] + os[1..];
    }
  }

  /** In a sorted arrangement of distinct outputs the first one is determined. */
  lemma SortedHeadIsUnique(a: seq<Output>, b: seq<Output>)
    requires a != [] && b != [] && Sorted(a) && Sorted(b) && DistinctConnectors(a)
    requires b[0] in a && a[0] in b
    ensures a[0] == b[0]
  {
    var i :| 0 <= i < |a| && a[i] == b[0];
    var j :| 0 <= j < |b| && b[j] == a[0];
    CompareIsTotalOrder(a[0].name, b[0].name, a[0].name);
    assert Precedes(a[0], a[i]) || i == 0;
    assert Precedes(b[0], b[j]) || j == 0;
  }

  /** With distinct connectors there is only one sorted arrangement of the same outputs, so it does
      not matter which (stable or unstable) algorithm sorts them. */
  lemma {:induction false} SortedIsUnique(a: seq<Output>, b: seq<Output>)
    requires Sorted(a) && Sorted(b) && multiset(a) == multiset(b) && DistinctConnectors(a)
    ensures a == b
  {
    if a == [] {
      assert |multiset(b)| == 0;
    } else {
      SameElements(a, b);
      SortedHeadIsUnique(a, b);
      SortedTail(a);
      SortedTail(b);
      SortedIsUnique(a[1..], b[1..]);
      HeadAndTail(a, b);
    }
  }

  lemma SameElements(a: seq<Output>, b: seq<Output>)
    requires a != [] && multiset(a) == multiset(b)
    ensures b != [] && b[0] in a && a[0] in b
  {
    assert a[0] in multiset(b);
    assert b != [] && b[0] in multiset(a);
  }

  lemma HeadAndTail(a: seq<Output>, b: seq<Output>)
    requires a != [] && b != [] && a[0] == b[0] && a[1..] == b[1..]
    ensures a == b
  {
    assert a == [a[0]] + a[1..] && b == [b[0]] + b[1..];
  }

  lemma SortedTail(a: seq<Output>)
    requires a != [] && Sorted(a)
    ensures Sorted(a[1..]) && multiset(a[1..]) == multiset(a) - multiset{a[0]}
    ensures DistinctConnectors(a) ==> DistinctConnectors(a[1..])
  {
    assert a == [a[0]] + a[1..];
  }

  lemma SortIgnoresArrival(a: seq<Output>, b: seq<Output>)
    requires multiset(a) == multiset(b) && DistinctConnectors(a)
    ensures SortByName(a) == SortByName(b)
  {
    SortSorts(a);
    SortSorts(b);
    DistinctIsSetwise(a, SortByName(a));
    SortedIsUnique(SortByName(a), SortByName(b));
  }

  lemma DistinctIsSetwise(a: seq<Output>, b: seq<Output>)
    requires multiset(a) == multiset(b) && DistinctConnectors(a)
    ensures DistinctConnectors(b)
  {
    forall i, j | 0 <= i < j < |b| ensures b[i].name.connector != b[j].name.connector {
      if b[i] == b[j] {
        var rest := b[..j] + b[j + 1..];
        assert b == b[..j] + [b[j]] + b[j + 1..];
        assert b[i] in rest by { assert rest[i] == b[i]; }
        assert multiset(b)[b[j]] == multiset(rest)[b[j]] + 1 >= 2;
        TwiceIsNotDistinct(a, b[j]);
        assert false;
      } else {
        assert b[i] in multiset(a) && b[j] in multiset(a);
      }
    }
  }

  lemma {:induction false} TwiceIsNotDistinct(a: seq<Output>, o: Output)
    requires multiset(a)[o] >= 2
    ensures !DistinctConnectors(a)
  {
    assert o in multiset(a);
    var i :| 0 <= i < |a| && a[i] == o;
    assert a == a[..i] + [a[i]] + a[i + 1..];
    var rest := a[..i] + a[i + 1..];
    assert multiset(a)[o] == multiset(rest)[o] + 1;
    assert o in multiset(rest);
    var j :| 0 <= j < |rest| && rest[j] == o;
    assert if j < i then a[j] == o else a[j + 1] == o;
  }

  /** Placement does not depend on the order in which outputs arrive, nor on what was mapped where
      before: the same outputs always get the same order and the same positions. */
  lemma PlacementIgnoresArrival(sections: seq<OutputConfig>, a: seq<Output>, b: seq<Output>)
    requires multiset(a) == multiset(b) && DistinctConnectors(a)
    ensures Order(sections, a) == Order(sections, b)
    ensures Reposition(sections, a) == Reposition(sections, b)
  {
    SortIgnoresArrival(a, b);
  }

  lemma {:induction false} PlacedPartitions(sections: seq<OutputConfig>, os: seq<Output>)
    ensures multiset(Placed(sections, os, true)) + multiset(Placed(sections, os, false)) == multiset(os)
  {
    if os != [] {
      PlacedPartitions(sections, os[1..]);
      assert os == [os[0]] + os[1..];
    }
  }

  /** Every output is mapped exactly once, and nothing else is. */
  lemma EveryOutputMappedOnce(sections: seq<OutputConfig>, os: seq<Output>)
    ensures Outputs(Reposition(sections, os)) == Order(sections, os)
    ensures multiset(Outputs(Reposition(sections, os))) == multiset(os)
  {
    SortSorts(os);
    PlacedPartitions(sections, SortByName(os));
    assert Outputs(Reposition(sections, os)) == Order(sections, os);
  }

  /** Configured outputs come before the others, and each kind is in the order of the names. */
  lemma OrderIsConfiguredFirst(sections: seq<OutputConfig>, os: seq<Output>, i: nat, j: nat)
    requires i < j < |Order(sections, os)|
    ensures var a, b := Order(sections, os)[i], Order(sections, os)[j];
      var ca, cb := ConfiguredPosition(sections, a).Some?, ConfiguredPosition(sections, b).Some?;
      (cb ==> ca) && (ca == cb ==> Precedes(a, b))
  {
    SortSorts(os);
    PlacedKeepsOrder(sections, SortByName(os), true);
    PlacedKeepsOrder(sections, SortByName(os), false);
  }

  lemma {:induction false} PlacedKeepsOrder(sections: seq<OutputConfig>, os: seq<Output>, configured: bool)
    requires Sorted(os)
    ensures Sorted(Placed(sections, os, configured))
    ensures forall o <- Placed(sections, os, configured) :: o in os && ConfiguredPosition(sections, o).Some? == configured
  {
    if os != [] {
      PlacedKeepsOrder(sections, os[1..], configured);
      assert [os[0]] + os[1..] == os;
      PrependKeepsOrder(os[0], os[1..], Placed(sections, os[1..], configured));
    }
  }

  lemma PrependKeepsOrder(o: Output, os: seq<Output>, some: seq<Output>)
    requires Sorted([o] + os) && Sorted(some) && forall x <- some :: x in os
    ensures Sorted([o] + some)
  {
    forall j | 0 <= j < |some| ensures Precedes(o, some[j]) {
      assert some[j] in os;
      var k :| 0 <= k < |os| && os[k] == some[j];
      assert Precedes(([o] + os)[0], ([o] + os)[k + 1]);
    }
  }

  lemma {:induction false} PositionOf(space: seq<Mapped>, i: nat)
    requires i < |space| && DistinctConnectors(Outputs(space))
    ensures Position(space, space[i].output) == Some(space[i].loc)
  {
    if i > 0 {
      assert Outputs(space)[0].name.connector != Outputs(space)[i].name.connector;
      forall j, k | 0 <= j < k < |space| - 1
        ensures Outputs(space[1..])[j].name.connector != Outputs(space[1..])[k].name.connector
      {
        assert Outputs(space)[j + 1].name.connector != Outputs(space)[k + 1].name.connector;
      }
      PositionOf(space[1..], i - 1);
    }
  }

  lemma {:induction false} MovedIff(before: seq<Mapped>, after: seq<Mapped>, o: Output)
    ensures o in Moved(before, after) <==> exists m <- after :: m.output == o && Position(before, o) != Some(m.loc)
  {
    if after != [] {
      MovedIff(before, after[1..], o);
      assert after == [after[0]] + after[1..];
      assert after[0] in after;
      assert forall m <- after :: m == after[0] || m in after[1..];
      assert forall m <- after[1..] :: m in after;
    }
  }

  lemma {:induction false} UnmappedHasNoPosition(space: seq<Mapped>, o: Output)
    requires o !in Outputs(space)
    ensures Position(space, o) == None
  {
    if space != [] {
      assert Outputs(space)[0] == space[0].output;
      forall x <- Outputs(space[1..]) ensures x in Outputs(space) {
        var i :| 0 <= i < |space[1..]| && Outputs(space[1..])[i] == x;
        assert Outputs(space)[i + 1] == x;
      }
      UnmappedHasNoPosition(space[1..], o);
    }
  }

  /** A newly added output always counts as moved, so it is announced and redrawn. */
  lemma NewOutputIsMoved(sections: seq<OutputConfig>, before: seq<Mapped>, o: Output)
    requires o !in Outputs(before)
    ensures o in Moved(before, Reposition(sections, Outputs(before) + [o]))
  {
    var os := Outputs(before) + [o];
    var after := Reposition(sections, os);
    EveryOutputMappedOnce(sections, os);
    assert o in multiset(os);
    assert o in Outputs(after);
    var i :| 0 <= i < |after| && after[i].output == o;
    UnmappedHasNoPosition(before, o);
    assert after[i] in after;
    MovedIff(before, after, o);
  }

  /** Repositioning the outputs that repositioning has just mapped moves none of them. */
  lemma RepositionIsStable(sections: seq<OutputConfig>, os: seq<Output>)
    requires DistinctConnectors(os)
    ensures var space := Reposition(sections, os);
      Reposition(sections, Outputs(space)) == space && Moved(space, Reposition(sections, Outputs(space))) == []
  {
    EveryOutputMappedOnce(sections, os);
    var space := Reposition(sections, os);
    PlacementIgnoresArrival(sections, os, Outputs(space));
    DistinctIsSetwise(os, Outputs(space));
    NothingMoves(space);
  }

  lemma NothingMoves(space: seq<Mapped>)
    requires DistinctConnectors(Outputs(space))
    ensures Moved(space, space) == []
  {
    if Moved(space, space) != [] {
      var o := Moved(space, space)[0];
      MovedIff(space, space, o);
      var m :| m in space && m.output == o && Position(space, o) != Some(m.loc);
      var i :| 0 <= i < |space| && space[i] == m;
      PositionOf(space, i);
    }
  }
}
