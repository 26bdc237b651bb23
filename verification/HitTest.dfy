/** What the pointer hits at a position on an output, and what is drawn there. */
module HitTest {
  import opened Wrappers

  // ---- Geometry ----

  datatype Point = Point(x: real, y: real) {
    function Plus(p: Point): Point {
      Point(x + p.x, y + p.y)
    }

    function Minus(p: Point): Point {
      Point(x - p.x, y - p.y)
    }
  }

  const ORIGIN := Point(0.0, 0.0)

  datatype Rect = Rect(loc: Point, w: real, h: real) {
    predicate Contains(p: Point) {
      loc.x <= p.x < loc.x + w && loc.y <= p.y < loc.y + h
    }

    predicate Overlaps(r: Rect) {
      loc.x < r.loc.x + r.w && r.loc.x < loc.x + w && loc.y < r.loc.y + r.h && r.loc.y < loc.y + h
    }
  }

  /** Where a layer's coordinates are put on the output. */
  datatype Slot = Slot(loc: Point, zoom: real) {
    /** The layer's point that is put at `p`. */
    function Pull(p: Point): Point
      requires zoom > 0.0
    {
      Point((p.x - loc.x) / zoom, (p.y - loc.y) / zoom)
    }

    /** Where the layer's point `p` is put. */
    function Put(p: Point): Point {
      Point(loc.x + zoom * p.x, loc.y + zoom * p.y)
    }
  }

  datatype Switch = Still | Moving(idx: real, keyboard: bool)

  /** One output's workspaces, stacked vertically. `overviewZoom` is empty unless the overview is
      open or animating. */
  datatype Monitor = Monitor(width: real, height: real, overviewZoom: Option<real>, gap: real,
                             count: nat, active: nat, switch: Switch, fullscreen: bool)
  {
    predicate Valid() {
      && width > 0.0 && height > 0.0 && gap > 0.0 && active < count
      && (overviewZoom.Some? ==> overviewZoom.value > 0.0)
    }

    function Zoom(): real {
      if overviewZoom.Some? then overviewZoom.value else 1.0
    }

    function RenderIdx(): real {
      if switch.Moving? then switch.idx else active as real
    }

    /** The slot of the workspace in view, when none is moving. */
    function StaticGeo(): Rect {
      var w, h := width * Zoom(), height * Zoom();
      Rect(Point((width - w) / 2.0, (height - h) / 2.0), w, h)
    }

    function Geo(k: nat): Rect {
      var g := StaticGeo();
      Rect(Point(g.loc.x, g.loc.y + (k as real - RenderIdx()) * (g.h + gap)), g.w, g.h)
    }

    function View(): Rect {
      Rect(ORIGIN, width, height)
    }

    /** The workspaces from `k` on that are not outside the output. */
    function Shown(k: nat): seq<Rect>
      decreases count - k
    {
      if k >= count then []
      else (if Geo(k).Overlaps(View()) then [Geo(k)] else []) + Shown(k + 1)
    }

    /** A workspace's rectangle, extended to the width of the output. */
    function Band(geo: Rect): Rect {
      Rect(Point(0.0, geo.loc.y), width, geo.h)
    }

    function FirstBand(geos: seq<Rect>, pos: Point): Option<Rect> {
      if geos == [] then None
      else if Band(geos[0]).Contains(pos) then Some(geos[0])
      else FirstBand(geos[1..], pos)
    }

    function WorkspaceUnder(pos: Point): Option<Rect> {
      FirstBand(Shown(0), pos)
    }

    predicate RenderAboveTopLayer() {
      switch.Still? && overviewZoom.None? && fullscreen
    }
  }

  // ---- The scene ----

  datatype Layer = Background | Bottom | Top | Overlay

  /** A surface found in a surface tree, with its location in the tree and its size. */
  datatype Found = Found(id: nat, x: int, y: int, w: nat, h: nat) {
    function Area(): Rect {
      Rect(Point(x as real, y as real), w as real, h as real)
    }
  }

  /** Only points inside a surface find it. */
  ghost predicate FindsInside(find: Point -> Option<Found>) {
    forall p :: find(p).Some? ==> find(p).value.Area().Contains(p)
  }

  /** A layer-shell surface. `popups` and `toplevel` say what is found at a point relative to it. */
  datatype LayerSurface = LayerSurface(id: nat, layer: Layer, mapped: bool, backdropRule: bool, dontCareZone: bool,
                                       loc: Point, bob: Point, popups: Point -> Option<Found>, toplevel: Point -> Option<Found>)
  {
    predicate PlaceWithinBackdrop() {
      backdropRule && layer == Background && dontCareZone
    }

    /** What is found at `pos` when the surface's layer is put in `slot`. */
    function Under(popup: bool, slot: Slot, pos: Point): Option<Target>
      requires slot.zoom > 0.0
    {
      var at := loc.Plus(bob);
      var p := slot.Pull(pos).Minus(at);
      match if popup then popups(p) else toplevel(p)
      case None => None
      case Some(found) => Some(LayerTarget(id, found.id, slot.Put(found.Area().loc.Plus(at))))
    }
  }

  /** What takes the input, and where on the output it is. */
  datatype Target = LayerTarget(layer: nat, surface: nat, at: Point) | WindowTarget(window: nat) | LockTarget(surface: nat, at: Point)

  datatype Scene = Scene(monitor: Monitor, layers: seq<LayerSurface>, overviewOpen: bool, locked: bool,
                         lockSurface: Option<Point -> Option<Found>>, exitDialog: bool, screenshotUi: bool, mruUi: bool,
                         hotCorner: Point -> bool, movedWindow: Point -> Option<nat>, windows: Point -> Option<nat>)
  {
    ghost predicate Valid() {
      && monitor.Valid()
      && (forall i | 0 <= i < |layers| :: FindsInside(layers[i].popups) && FindsInside(layers[i].toplevel))
      && (lockSurface.Some? ==> FindsInside(lockSurface.value))
    }

    predicate ModalOpen() {
      exitDialog || (!locked && (screenshotUi || mruUi))
    }
  }

  /** The surfaces of a layer, from the top one down: the map lists them from the bottom up. */
  function OnLayer(layers: seq<LayerSurface>, layer: Layer): seq<LayerSurface> {
    if layers == [] then []
    else OnLayer(layers[1..], layer) + if layers[0].layer == layer then [layers[0]] else []
  }

  function OrElse<T>(a: Option<T>, b: Option<T>): Option<T> {
    if a.Some? then a else b
  }

  // ---- The hit test ----

  datatype Contents = Contents(hotCorner: bool, target: Option<Target>)

  /** Where the hit test takes the layers that move with the workspaces to be. */
  function HitSlot(m: Monitor, pos: Point): Option<Slot> {
    var under := m.WorkspaceUnder(pos);
    if under.Some? then Some(Slot(under.value.loc, 1.0)) else None
  }

  function LayerUnder(surfaces: seq<LayerSurface>, popup: bool, slot: Option<Slot>, pos: Point): Option<Target>
    requires slot.Some? ==> slot.value.zoom > 0.0
  {
    if surfaces == [] then None
    else if surfaces[0].mapped && !surfaces[0].PlaceWithinBackdrop() && slot.Some?
            && surfaces[0].Under(popup, slot.value, pos).Some? then
      surfaces[0].Under(popup, slot.value, pos)
    else LayerUnder(surfaces[1..], popup, slot, pos)
  }

  function SurfaceUnder(s: Scene, layer: Layer, popup: bool, pos: Point): Option<Target> {
    var slot := if layer == Background || layer == Bottom then HitSlot(s.monitor, pos) else Some(Slot(ORIGIN, 1.0));
    LayerUnder(OnLayer(s.layers, layer), popup, slot, pos)
  }

  function WindowHit(hit: Option<nat>): Option<Target> {
    if hit.Some? then Some(WindowTarget(hit.value)) else None
  }

  function LockHit(s: Scene, pos: Point): Option<Target> {
    if s.lockSurface.None? then None
    else match s.lockSurface.value(pos)
      case None => None
      case Some(found) => Some(LockTarget(found.id, found.Area().loc))
  }

  function ContentsUnder(s: Scene, pos: Point): Contents {
    if s.exitDialog then Contents(false, None)
    else if s.locked then Contents(false, LockHit(s, pos))
    else if s.screenshotUi || s.mruUi then Contents(false, None)
    else
      var under := OrElse(SurfaceUnder(s, Overlay, true, pos), SurfaceUnder(s, Overlay, false, pos));
      if s.monitor.RenderAboveTopLayer() then
        var under := OrElse(under, WindowHit(s.movedWindow(pos)));
        var under := OrElse(under, WindowHit(s.windows(pos)));
        var under := OrElse(under, SurfaceUnder(s, Top, true, pos));
        var under := OrElse(under, SurfaceUnder(s, Top, false, pos));
        var under := OrElse(under, SurfaceUnder(s, Bottom, true, pos));
        var under := OrElse(under, SurfaceUnder(s, Background, true, pos));
        var under := OrElse(under, SurfaceUnder(s, Bottom, false, pos));
        Contents(false, OrElse(under, SurfaceUnder(s, Background, false, pos)))
      else if s.hotCorner(pos) then Contents(true, None)
      else
        var under := OrElse(under, SurfaceUnder(s, Top, true, pos));
        var under := OrElse(under, SurfaceUnder(s, Top, false, pos));
        var under := OrElse(under, WindowHit(s.movedWindow(pos)));
        var under := if s.overviewOpen then under
                     else OrElse(OrElse(under, SurfaceUnder(s, Bottom, true, pos)), SurfaceUnder(s, Background, true, pos));
        var under := OrElse(under, WindowHit(s.windows(pos)));
        var under := if s.overviewOpen then under
                     else OrElse(OrElse(under, SurfaceUnder(s, Bottom, false, pos)), SurfaceUnder(s, Background, false, pos));
        Contents(false, under)
  }

  // ---- Drawing ----

  /** What is drawn, from the top down. Layer items are cropped to their workspace, if any.
      `Decoration` stands for what never takes input: the insert hint, the workspaces' backgrounds
      and shadows, the lock background and the backdrop. */
  datatype Item =
    | LayerItem(surface: LayerSurface, popup: bool, slot: Slot, crop: Option<Rect>)
    | MovedWindow
    | Windows
    | LockItem
    | Decoration

  function LayerItems(surfaces: seq<LayerSurface>, backdrop: bool, popup: bool, slot: Slot, crop: Option<Rect>): seq<Item> {
    if surfaces == [] then []
    else (if surfaces[0].mapped && surfaces[0].PlaceWithinBackdrop() == backdrop then [LayerItem(surfaces[0], popup, slot, crop)] else [])
         + LayerItems(surfaces[1..], backdrop, popup, slot, crop)
  }

  function OnOutput(s: Scene, layer: Layer, popup: bool): seq<Item> {
    LayerItems(OnLayer(s.layers, layer), false, popup, Slot(ORIGIN, 1.0), None)
  }

  function InBackdrop(s: Scene, popup: bool): seq<Item> {
    LayerItems(OnLayer(s.layers, Background), true, popup, Slot(ORIGIN, 1.0), None)
  }

  /** The bottom and background layers, as drawn with one workspace. */
  function InWorkspace(s: Scene, geo: Rect, popup: bool): seq<Item> {
    var slot := Slot(geo.loc, s.monitor.Zoom());
    LayerItems(OnLayer(s.layers, Bottom), false, popup, slot, Some(geo))
    + LayerItems(OnLayer(s.layers, Background), false, popup, slot, Some(geo))
  }

  function InWorkspaces(s: Scene, geos: seq<Rect>, popup: bool): seq<Item> {
    if geos == [] then []
    else InWorkspace(s, geos[0], popup) + (if popup then [] else [Decoration]) + InWorkspaces(s, geos[1..], popup)
  }

  /** The layers that move with the workspaces. A keyboard workspace switch is a crossfade, which
      keeps them in the static slot. */
  function BelowWindows(s: Scene, popup: bool): seq<Item> {
    if s.monitor.switch.Moving? && s.monitor.switch.keyboard then
      InWorkspace(s, s.monitor.StaticGeo(), popup) + if popup then [] else [Decoration]
    else InWorkspaces(s, s.monitor.Shown(0), popup)
  }

  /** What is drawn between the overlay layer and the backdrop. */
  function Middle(s: Scene): seq<Item> {
    if s.monitor.RenderAboveTopLayer() then
      [MovedWindow, Decoration, Windows]
      + OnOutput(s, Top, true) + OnOutput(s, Top, false)
      + OnOutput(s, Bottom, true) + OnOutput(s, Background, true)
      + OnOutput(s, Bottom, false) + OnOutput(s, Background, false) + [Decoration]
    else
      OnOutput(s, Top, true) + OnOutput(s, Top, false)
      + [MovedWindow, Decoration]
      + BelowWindows(s, true) + [Windows] + BelowWindows(s, false)
  }

  function Backdrop(s: Scene): seq<Item> {
    [Decoration] + InBackdrop(s, true) + InBackdrop(s, false) + [Decoration]
  }

  /** Everything drawn on the output below the modal dialogs. */
  function Render(s: Scene): seq<Item> {
    if s.locked then (if s.lockSurface.Some? then [LockItem] else []) + [Decoration]
    else OnOutput(s, Overlay, true) + OnOutput(s, Overlay, false) + Middle(s) + Backdrop(s)
  }

  /** Surfaces in the backdrop take no input, nor do the layers that move with the workspaces while
      the overview is open. */
  predicate TakesInput(s: Scene, surface: LayerSurface) {
    && !surface.PlaceWithinBackdrop()
    && (s.overviewOpen && !s.monitor.RenderAboveTopLayer() ==> surface.layer == Top || surface.layer == Overlay)
  }

  /** What an item gives the pointer at a position. */
  function ItemUnder(s: Scene, item: Item, pos: Point): Option<Target> {
    match item
    case LayerItem(surface, popup, slot, crop) =>
      if TakesInput(s, surface) && (crop.Some? ==> crop.value.Contains(pos)) && slot.zoom > 0.0
      then surface.Under(popup, slot, pos)
      else None
    case MovedWindow => WindowHit(s.movedWindow(pos))
    case Windows => WindowHit(s.windows(pos))
    case LockItem => LockHit(s, pos)
    case Decoration => None
  }

  function FirstUnder(s: Scene, items: seq<Item>, pos: Point): Option<Target> {
    if items == [] then None
    else OrElse(ItemUnder(s, items[0], pos), FirstUnder(s, items[1..], pos))
  }

  /** Where the layers that move with the workspaces are drawn, at a position. */
  function DrawSlot(m: Monitor, pos: Point): Option<Slot> {
    if m.RenderAboveTopLayer() then Some(Slot(ORIGIN, 1.0))
    else if m.switch.Moving? && m.switch.keyboard then
      if m.StaticGeo().Contains(pos) then Some(Slot(m.StaticGeo().loc, m.Zoom())) else None
    else
      var geo := FirstGeo(m.Shown(0), pos);
      if geo.Some? then Some(Slot(geo.value.loc, m.Zoom())) else None
  }

  function FirstGeo(geos: seq<Rect>, pos: Point): Option<Rect> {
    if geos == [] then None
    else if geos[0].Contains(pos) then Some(geos[0])
    else FirstGeo(geos[1..], pos)
  }
}
