/** Where placement puts outputs, and that it keeps them apart. */
module PlacementGeometry {
  import opened Wrappers
  import opened OutputNames
  import opened Placement

  predicate WellSized(o: Output) {
    && 0 <= o.rounded.w <= o.extent.w <= o.rounded.w + 1 && 0 < o.extent.w
    && 0 <= o.rounded.h <= o.extent.h <= o.rounded.h + 1 && 0 < o.extent.h
  }

  lemma {:induction false} RightEdgeBounds(space: seq<Mapped>)
    ensures forall m <- space :: m.loc.x + m.output.extent.w <= RightEdge(space)
    ensures space == [] ==> RightEdge(space) == 0
    ensures space != [] ==> exists m <- space :: m.loc.x + m.output.extent.w == RightEdge(space)
  {
    if space != [] {
      var rest, last := space[..|space| - 1], space[|space| - 1];
      RightEdgeBounds(rest);
      assert space == rest + [last] && last in space;
      assert forall m <- rest :: m in space;
    }
  }

  /** Output `j` is placed against exactly the outputs before it. */
  lemma {:induction false} PlacedAgainstEarlier(ds: seq<Data>, j: nat)
    requires j < |ds|
    ensures PlaceAll(ds)[..j] == PlaceAll(ds[..j])
    ensures PlaceAll(ds)[j] == Mapped(ds[j].output, NewPosition(PlaceAll(ds[..j]), ds[j]))
    decreases |ds|
  {
    var init := ds[..|ds| - 1];
    if j < |init| {
      PlacedAgainstEarlier(init, j);
      assert init[..j] == ds[..j];
    }
  }

  /** No output overlaps, as tested with its rounded size, any output placed before it. */
  lemma PlacedApart(ds: seq<Data>, i: nat, j: nat)
    requires i < j < |ds|
    ensures !PlaceAll(ds)[i].Geometry().Overlaps(PlaceAll(ds)[j].Tested())
  {
    PlacedAgainstEarlier(ds, j);
    var earlier := PlaceAll(ds[..j]);
    assert PlaceAll(ds)[i] == PlaceAll(ds)[..j][i] && earlier[i] in earlier;
    RightEdgeBounds(earlier);
  }

  /** Every position is accounted for: an output is where it was configured exactly when that spot
      is free of the outputs before it; any other output starts on the top edge, flush with the
      rightmost output before it. */
  lemma PositionsExplained(ds: seq<Data>, j: nat)
    requires j < |ds|
    ensures var earlier, loc := PlaceAll(ds)[..j], PlaceAll(ds)[j].loc;
      var free := ds[j].config.Some? && !Conflicts(earlier, Rect(ds[j].config.value, ds[j].output.rounded));
      && (ds[j].config == Some(loc) <==> free)
      && (!free ==>
            && loc.y == 0
            && (earlier == [] ==> loc.x == 0)
            && (forall m <- earlier :: m.loc.x + m.output.extent.w <= loc.x)
            && (earlier != [] ==> exists m <- earlier :: m.loc.x + m.output.extent.w == loc.x))
  {
    PlacedAgainstEarlier(ds, j);
    RightEdgeBounds(PlaceAll(ds[..j]));
  }

  /** The rounded rectangles of any two outputs are disjoint, for any mix of configured,
      conflicting and automatic positions. */
  lemma RoundedAreDisjoint(ds: seq<Data>, i: nat, j: nat)
    requires i < |ds| && j < |ds| && i != j && forall d <- ds :: WellSized(d.output)
    ensures !PlaceAll(ds)[i].Tested().Overlaps(PlaceAll(ds)[j].Tested())
  {
    PlacedApart(ds, if i < j then i else j, if i < j then j else i);
    assert WellSized(ds[i].output) && WellSized(ds[j].output);
  }

  predicate Integral(o: Output) {
    o.rounded == o.extent
  }

  ghost predicate MappedDisjoint(ds: seq<Data>) {
    forall i, j | 0 <= i < j < |ds| :: !PlaceAll(ds)[i].Geometry().Overlaps(PlaceAll(ds)[j].Geometry())
  }

  /** The same outputs, of which the same ones have a position configured, perhaps another one. */
  predicate Reconfigured(ds: seq<Data>, ds': seq<Data>) {
    |ds'| == |ds| && forall i | 0 <= i < |ds| :: ds'[i].output == ds[i].output && ds'[i].config.Some? == ds[i].config.Some?
  }

  /** The rectangles outputs really occupy, which are rounded up, are disjoint wherever outputs are
      configured to be, exactly when every configured output but the first has an integral size. */
  lemma MappedAreDisjointIff(ds: seq<Data>)
    requires forall d <- ds :: WellSized(d.output)
    ensures (forall ds' | Reconfigured(ds, ds') :: MappedDisjoint(ds')) <==>
            (forall j | 0 < j < |ds| :: ds[j].config.Some? ==> Integral(ds[j].output))
  {
    if forall j | 0 < j < |ds| :: ds[j].config.Some? ==> Integral(ds[j].output) {
      forall ds' | Reconfigured(ds, ds') ensures MappedDisjoint(ds') {
        IntegralAreDisjoint(ds');
      }
    } else {
      var j :| 0 < j < |ds| && ds[j].config.Some? && !Integral(ds[j].output);
      assert WellSized(ds[j].output);
      FractionalCanOverlap(ds, j);
    }
  }

  lemma IntegralAreDisjoint(ds: seq<Data>)
    requires forall j | 0 < j < |ds| :: ds[j].config.Some? ==> Integral(ds[j].output)
    ensures MappedDisjoint(ds)
  {
    forall i, j | 0 <= i < j < |ds| ensures !PlaceAll(ds)[i].Geometry().Overlaps(PlaceAll(ds)[j].Geometry()) {
      PlacedApart(ds, i, j);
      PlacedAgainstEarlier(ds, j);
      var earlier := PlaceAll(ds[..j]);
      assert PlaceAll(ds)[i] == PlaceAll(ds)[..j][i] && earlier[i] in earlier;
      RightEdgeBounds(earlier);
    }
  }

  /** Everything configured at the origin, and output `j` flush against it on its fractional side. */
  function Adversary(ds: seq<Data>, j: nat): (ds': seq<Data>)
    requires j < |ds| && ds[j].config.Some?
    ensures Reconfigured(ds, ds')
  {
    var o := ds[j].output;
    var spot := if o.rounded.w < o.extent.w then Point(-o.rounded.w, 0) else Point(0, -o.rounded.h);
    seq(|ds|, i requires 0 <= i < |ds| =>
      Data(ds[i].output, if ds[i].config.None? then None else if i == j then Some(spot) else Some(Point(0, 0))))
  }

  lemma {:induction false} PlacedInQuadrant(ds: seq<Data>)
    requires forall d <- ds :: WellSized(d.output) && (d.config.Some? ==> d.config.value == Point(0, 0))
    ensures forall m <- PlaceAll(ds) :: 0 <= m.loc.x && 0 <= m.loc.y
    ensures ds != [] ==> PlaceAll(ds)[0].loc == Point(0, 0)
  {
    if ds != [] {
      var init := ds[..|ds| - 1];
      assert forall d <- init :: d in ds;
      PlacedInQuadrant(init);
      RightEdgeBounds(PlaceAll(init));
      forall m <- PlaceAll(init) ensures m.loc.x + m.output.extent.w >= 0 {
        var i :| 0 <= i < |init| && PlaceAll(init)[i] == m;
        assert WellSized(init[i].output);
      }
    }
  }

  lemma FractionalCanOverlap(ds: seq<Data>, j: nat)
    requires 0 < j < |ds| && ds[j].config.Some? && !Integral(ds[j].output)
    requires forall d <- ds :: WellSized(d.output)
    ensures exists ds' | Reconfigured(ds, ds') :: !MappedDisjoint(ds')
  {
    var ds' := Adversary(ds, j);
    forall d <- ds'[..j] ensures WellSized(d.output) && (d.config.Some? ==> d.config.value == Point(0, 0)) {
      var i :| 0 <= i < j && ds'[i] == d;
      assert WellSized(ds[i].output);
    }
    PlacedInQuadrant(ds'[..j]);
    PlacedAgainstEarlier(ds', j);
    assert WellSized(ds[j].output) && WellSized(ds[0].output);
    assert PlaceAll(ds')[0] == PlaceAll(ds')[..j][0] == PlaceAll(ds'[..j])[0];
    assert !Conflicts(PlaceAll(ds'[..j]), Rect(ds'[j].config.value, ds'[j].output.rounded));
    assert PlaceAll(ds')[0].Geometry().Overlaps(PlaceAll(ds')[j].Geometry());
  }
}
