/** Where outputs go: the ordering and the greedy placement of `reposition_outputs`. */
module Placement {
  import opened Wrappers
  import opened OutputNames

  datatype Size = Size(w: int, h: int)

  datatype Rect = Rect(loc: Point, size: Size) {
    predicate Overlaps(other: Rect) {
      && loc.x < other.loc.x + other.size.w
      && other.loc.x < loc.x + size.w
      && loc.y < other.loc.y + other.size.h
      && other.loc.y < loc.y + size.h
    }
  }

  /** `rounded` is the logical size rounded to the nearest integers, which placement tests with;
      `extent` is the same size rounded up, which a mapped output occupies. */
  datatype Output = Output(name: OutputName, rounded: Size, extent: Size)

  /** An output during placement, with the position configured for it. */
  datatype Data = Data(output: Output, config: Option<Point>)

  datatype Mapped = Mapped(output: Output, loc: Point) {
    /** `output_geometry` */
    function Geometry(): Rect {
      Rect(loc, output.extent)
    }

    function Tested(): Rect {
      Rect(loc, output.rounded)
    }
  }

  predicate DistinctConnectors(os: seq<Output>) {
    forall i, j | 0 <= i < j < |os| :: os[i].name.connector != os[j].name.connector
  }

  predicate Precedes(a: Output, b: Output) {
    Compare(a.name, b.name) != Greater
  }

  predicate Sorted(os: seq<Output>) {
    forall i, j | 0 <= i < j < |os| :: Precedes(os[i], os[j])
  }

  function Insert(o: Output, os: seq<Output>): seq<Output> {
    if os == [] || Precedes(o, os[0]) then [o] + os else [os[0]] + Insert(o, os[1..])
  }

  function SortByName(os: seq<Output>): seq<Output> {
    if os == [] then [] else Insert(os[0], SortByName(os[1..]))
  }

  function ConfiguredPosition(sections: seq<OutputConfig>, o: Output): Option<Point> {
    match Find(sections, o.name)
    case Some(section) => section.position
    case None => None
  }

  /** The stable second sort: configured outputs first. */
  function Placed(sections: seq<OutputConfig>, os: seq<Output>, configured: bool): seq<Output> {
    if os == [] then []
    else (if ConfiguredPosition(sections, os[0]).Some? == configured then [os[0]] else []) + Placed(sections, os[1..], configured)
  }

  function Order(sections: seq<OutputConfig>, os: seq<Output>): seq<Output> {
    Placed(sections, SortByName(os), true) + Placed(sections, SortByName(os), false)
  }

  /** The right edge of the rightmost mapped output, or 0. */
  function RightEdge(space: seq<Mapped>): int {
    if space == [] then 0
    else
      var rest, last := space[..|space| - 1], space[|space| - 1];
      var edge := last.loc.x + last.output.extent.w;
      if rest == [] then edge else if edge < RightEdge(rest) then RightEdge(rest) else edge
  }

  predicate Conflicts(space: seq<Mapped>, target: Rect) {
    exists m <- space :: m.Geometry().Overlaps(target)
  }

  function NewPosition(space: seq<Mapped>, d: Data): Point {
    if d.config.Some? && !Conflicts(space, Rect(d.config.value, d.output.rounded)) then d.config.value
    else Point(RightEdge(space), 0)
  }

  /** Places outputs one after the other, each against those before it. */
  function PlaceAll(ds: seq<Data>): (space: seq<Mapped>)
    ensures |space| == |ds| && forall i | 0 <= i < |ds| :: space[i].output == ds[i].output
  {
    if ds == [] then []
    else
      var space := PlaceAll(ds[..|ds| - 1]);
      var d := ds[|ds| - 1];
      space + [Mapped(d.output, NewPosition(space, d))]
  }

  function Configure(sections: seq<OutputConfig>, os: seq<Output>): (ds: seq<Data>)
    ensures |ds| == |os| && forall i | 0 <= i < |os| :: ds[i] == Data(os[i], ConfiguredPosition(sections, os[i]))
  {
    seq(|os|, i requires 0 <= i < |os| => Data(os[i], ConfiguredPosition(sections, os[i])))
  }

  /** The whole of `reposition_outputs`: where everything ends up. */
  function Reposition(sections: seq<OutputConfig>, os: seq<Output>): seq<Mapped> {
    PlaceAll(Configure(sections, Order(sections, os)))
  }

  function Outputs(space: seq<Mapped>): (os: seq<Output>)
    ensures |os| == |space| && forall i | 0 <= i < |os| :: os[i] == space[i].output
  {
    seq(|space|, i requires 0 <= i < |space| => space[i].output)
  }

  function ToSeq(o: Option<Output>): seq<Output> {
    if o.Some? then [o.value] else []
  }

  function Unmapped(space: seq<Mapped>, o: Output): seq<Mapped> {
    if space == [] then []
    else (if space[0].output == o then [] else [space[0]]) + Unmapped(space[1..], o)
  }

  /** Where `o` is mapped, if it is. */
  function Position(space: seq<Mapped>, o: Output): Option<Point> {
    if space == [] then None
    else if space[0].output == o then Some(space[0].loc)
    else Position(space[1..], o)
  }

  /** The outputs whose position changes, each of which is announced and redrawn. */
  function Moved(before: seq<Mapped>, after: seq<Mapped>): seq<Output> {
    if after == [] then []
    else (if Position(before, after[0].output) == Some(after[0].loc) then [] else [after[0].output]) + Moved(before, after[1..])
  }
}
