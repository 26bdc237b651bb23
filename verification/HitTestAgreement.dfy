/** The hit test and the drawing order agree, exactly where the workspaces are not being animated. */
module HitTestAgreement {
  import opened Wrappers
  import opened HitTest

  lemma {:induction false} FirstUnderConcat(s: Scene, a: seq<Item>, b: seq<Item>, pos: Point)
    ensures FirstUnder(s, a + b, pos) == OrElse(FirstUnder(s, a, pos), FirstUnder(s, b, pos))
  {
    if a == [] {
      assert a + b == b;
    } else {
      assert (a + b)[1..] == a[1..] + b;
      FirstUnderConcat(s, a[1..], b, pos);
    }
  }

  predicate AllOn(surfaces: seq<LayerSurface>, layer: Layer) {
    forall k :: 0 <= k < |surfaces| ==> surfaces[k].layer == layer
  }

  lemma {:induction false} OnLayerIsOnLayer(layers: seq<LayerSurface>, layer: Layer)
    ensures AllOn(OnLayer(layers, layer), layer)
  {
    if layers != [] {
      OnLayerIsOnLayer(layers[1..], layer);
    }
  }

  lemma LayerItemUnder(s: Scene, surface: LayerSurface, popup: bool, slot: Slot, crop: Option<Rect>, pos: Point)
    requires !surface.PlaceWithinBackdrop() && slot.zoom > 0.0
    ensures var visible := VisibleSlot(s, surface.layer, slot, crop, pos);
      ItemUnder(s, LayerItem(surface, popup, slot, crop), pos)
      == if visible.Some? then surface.Under(popup, slot, pos) else None
  {
  }

  /** Drawing a layer's surfaces one over the other, or searching them from the top, is the same. */
  lemma {:induction false} LayerItemsUnder(s: Scene, surfaces: seq<LayerSurface>, layer: Layer, popup: bool, slot: Slot, crop: Option<Rect>, pos: Point)
    requires AllOn(surfaces, layer) && slot.zoom > 0.0
    ensures FirstUnder(s, LayerItems(surfaces, false, popup, slot, crop), pos)
         == LayerUnder(surfaces, popup, VisibleSlot(s, layer, slot, crop, pos), pos)
  {
    if surfaces != [] {
      var rest := LayerItems(surfaces[1..], false, popup, slot, crop);
      LayerItemsUnder(s, surfaces[1..], layer, popup, slot, crop, pos);
      if surfaces[0].mapped && !surfaces[0].PlaceWithinBackdrop() {
        var items := LayerItems(surfaces, false, popup, slot, crop);
        assert items[0] == LayerItem(surfaces[0], popup, slot, crop) && items[1..] == rest;
        LayerItemUnder(s, surfaces[0], popup, slot, crop, pos);
      } else {
        assert [] + rest == rest;
      }
    }
  }

  /** The slot, if anything drawn in it on this layer takes input at the position. */
  function VisibleSlot(s: Scene, layer: Layer, slot: Slot, crop: Option<Rect>, pos: Point): Option<Slot> {
    if s.overviewOpen && !s.monitor.RenderAboveTopLayer() && layer != Top && layer != Overlay then None
    else if crop.Some? && !crop.value.Contains(pos) then None
    else Some(slot)
  }

  lemma {:induction false} BackdropTakesNoInput(s: Scene, surfaces: seq<LayerSurface>, popup: bool, slot: Slot, pos: Point)
    ensures FirstUnder(s, LayerItems(surfaces, true, popup, slot, None), pos) == None
  {
    if surfaces != [] {
      BackdropTakesNoInput(s, surfaces[1..], popup, slot, pos);
      var items, rest := LayerItems(surfaces, true, popup, slot, None), LayerItems(surfaces[1..], true, popup, slot, None);
      if surfaces[0].mapped && surfaces[0].PlaceWithinBackdrop() {
        assert items[1..] == rest;
      } else {
        assert items == rest;
      }
    }
  }

  lemma {:induction false} NoSlotNoHit(surfaces: seq<LayerSurface>, popup: bool, pos: Point)
    ensures LayerUnder(surfaces, popup, None, pos) == None
  {
    if surfaces != [] {
      NoSlotNoHit(surfaces[1..], popup, pos);
    }
  }

  /** The bottom and background layers, searched with their surfaces put in a slot. */
  function BelowUnder(s: Scene, popup: bool, slot: Option<Slot>, pos: Point): Option<Target>
    requires slot.Some? ==> slot.value.zoom > 0.0
  {
    OrElse(LayerUnder(OnLayer(s.layers, Bottom), popup, slot, pos), LayerUnder(OnLayer(s.layers, Background), popup, slot, pos))
  }

  /** Each rectangle ends before the next begins. */
  predicate Stacked(geos: seq<Rect>) {
    geos != [] ==> (forall g <- geos[1..] :: g.loc.y >= geos[0].loc.y + geos[0].h) && Stacked(geos[1..])
  }

  lemma {:induction false} ShownIsStacked(m: Monitor, k: nat)
    requires m.Valid()
    ensures Stacked(m.Shown(k))
    ensures forall g <- m.Shown(k) :: g.loc.y >= m.Geo(k).loc.y && g.loc.x == m.StaticGeo().loc.x && g.w == m.StaticGeo().w && g.h == m.StaticGeo().h
    decreases m.count - k
  {
    if k < m.count {
      ShownIsStacked(m, k + 1);
      NextGeo(m, k);
      var shown, rest := m.Shown(k), m.Shown(k + 1);
      if m.Geo(k).Overlaps(m.View()) {
        assert shown[1..] == rest;
      } else {
        assert shown == rest;
      }
    }
  }

  lemma NextGeo(m: Monitor, k: nat)
    requires m.Valid()
    ensures m.Geo(k + 1).loc.y == m.Geo(k).loc.y + m.StaticGeo().h + m.gap
    ensures m.StaticGeo().h > 0.0
  {
    var n, step := k as real - m.RenderIdx(), m.StaticGeo().h + m.gap;
    assert (k + 1) as real - m.RenderIdx() == n + 1.0;
    OneMoreStep(n, step);
    assert m.height * m.Zoom() > 0.0;
  }

  lemma OneMoreStep(n: real, step: real)
    ensures (n + 1.0) * step == n * step + step
  {
  }

  /** Of the copies drawn with each workspace, only those with the workspace at the position count. */
  lemma {:induction false} InWorkspacesUnder(s: Scene, geos: seq<Rect>, popup: bool, pos: Point)
    requires s.Valid() && Stacked(geos)
    ensures FirstUnder(s, InWorkspaces(s, geos, popup), pos)
         == BelowUnder(s, popup, if TakesBelow(s) then SlotOf(s.monitor, FirstGeo(geos, pos)) else None, pos)
  {
    NoSlotNothingBelow(s, popup, pos);
    if geos != [] {
      var first, rest := InWorkspace(s, geos[0], popup), InWorkspaces(s, geos[1..], popup);
      var decorated := first + if popup then [] else [Decoration];
      InWorkspacesUnder(s, geos[1..], popup, pos);
      InWorkspaceUnder(s, geos[0], popup, pos);
      DecorationTakesNoInput(s, first, popup, pos);
      FirstUnderConcat(s, decorated, rest, pos);
      if geos[0].Contains(pos) {
        OnlyOne(geos[0], geos[1..], pos);
      }
    }
  }

  lemma NoSlotNothingBelow(s: Scene, popup: bool, pos: Point)
    ensures BelowUnder(s, popup, None, pos) == None
  {
    NoSlotNoHit(OnLayer(s.layers, Bottom), popup, pos);
    NoSlotNoHit(OnLayer(s.layers, Background), popup, pos);
  }

  lemma DecorationTakesNoInput(s: Scene, items: seq<Item>, popup: bool, pos: Point)
    ensures FirstUnder(s, items + if popup then [] else [Decoration], pos) == FirstUnder(s, items, pos)
  {
    FirstUnderConcat(s, items, if popup then [] else [Decoration], pos);
  }

  predicate TakesBelow(s: Scene) {
    s.overviewOpen ==> s.monitor.RenderAboveTopLayer()
  }

  function SlotOf(m: Monitor, geo: Option<Rect>): Option<Slot> {
    if geo.Some? then Some(Slot(geo.value.loc, m.Zoom())) else None
  }

  lemma InWorkspaceUnder(s: Scene, geo: Rect, popup: bool, pos: Point)
    requires s.Valid()
    ensures FirstUnder(s, InWorkspace(s, geo, popup), pos)
         == BelowUnder(s, popup, if TakesBelow(s) && geo.Contains(pos) then Some(Slot(geo.loc, s.monitor.Zoom())) else None, pos)
  {
    var slot := Slot(geo.loc, s.monitor.Zoom());
    OnLayerIsOnLayer(s.layers, Bottom);
    OnLayerIsOnLayer(s.layers, Background);
    LayerItemsUnder(s, OnLayer(s.layers, Bottom), Bottom, popup, slot, Some(geo), pos);
    LayerItemsUnder(s, OnLayer(s.layers, Background), Background, popup, slot, Some(geo), pos);
    FirstUnderConcat(s, LayerItems(OnLayer(s.layers, Bottom), false, popup, slot, Some(geo)),
                     LayerItems(OnLayer(s.layers, Background), false, popup, slot, Some(geo)), pos);
  }

  lemma {:induction false} OnlyOne(geo: Rect, geos: seq<Rect>, pos: Point)
    requires geo.Contains(pos) && forall g <- geos :: g.loc.y >= geo.loc.y + geo.h
    ensures FirstGeo(geos, pos) == None
  {
    if geos != [] {
      OnlyOne(geo, geos[1..], pos);
    }
  }

  lemma BelowWindowsUnder(s: Scene, popup: bool, pos: Point)
    requires s.Valid() && !s.monitor.RenderAboveTopLayer()
    ensures FirstUnder(s, BelowWindows(s, popup), pos)
         == BelowUnder(s, popup, if TakesBelow(s) then DrawSlot(s.monitor, pos) else None, pos)
  {
    var m := s.monitor;
    if m.switch.Moving? && m.switch.keyboard {
      var items := InWorkspace(s, m.StaticGeo(), popup);
      InWorkspaceUnder(s, m.StaticGeo(), popup, pos);
      DecorationTakesNoInput(s, items, popup, pos);
    } else {
      ShownIsStacked(m, 0);
      InWorkspacesUnder(s, m.Shown(0), popup, pos);
    }
  }

  // ---- Both sides, as one search ----

  /** The search for what takes the input below the overlay layer, with the layers that move with
      the workspaces in `slot`. */
  function SearchMiddle(s: Scene, slot: Option<Slot>, pos: Point): Option<Target>
    requires slot.Some? ==> slot.value.zoom > 0.0
  {
    var top := OrElse(SurfaceUnder(s, Top, true, pos), SurfaceUnder(s, Top, false, pos));
    var moved, windows := WindowHit(s.movedWindow(pos)), WindowHit(s.windows(pos));
    var popups, toplevels := BelowUnder(s, true, slot, pos), BelowUnder(s, false, slot, pos);
    if s.monitor.RenderAboveTopLayer() then OrElse(OrElse(moved, windows), OrElse(top, OrElse(popups, toplevels)))
    else if s.overviewOpen then OrElse(top, OrElse(moved, windows))
    else OrElse(top, OrElse(moved, OrElse(popups, OrElse(windows, toplevels))))
  }

  function Search(s: Scene, slot: Option<Slot>, pos: Point): Option<Target>
    requires slot.Some? ==> slot.value.zoom > 0.0
  {
    OrElse(OrElse(SurfaceUnder(s, Overlay, true, pos), SurfaceUnder(s, Overlay, false, pos)), SearchMiddle(s, slot, pos))
  }

  /** Nothing stands between the pointer and the contents: no modal dialog, no hot corner. */
  predicate Undisturbed(s: Scene, pos: Point) {
    && !s.ModalOpen()
    && (s.hotCorner(pos) ==> s.locked || s.monitor.RenderAboveTopLayer())
  }

  lemma ContentsIsSearch(s: Scene, pos: Point)
    requires Undisturbed(s, pos) && !s.locked
    ensures ContentsUnder(s, pos) == Contents(false, Search(s, HitSlot(s.monitor, pos), pos))
  {
  }

  lemma OnOutputUnder(s: Scene, layer: Layer, popup: bool, pos: Point)
    requires s.Valid()
    ensures FirstUnder(s, OnOutput(s, layer, popup), pos)
         == LayerUnder(OnLayer(s.layers, layer), popup, VisibleSlot(s, layer, Slot(ORIGIN, 1.0), None, pos), pos)
  {
    OnLayerIsOnLayer(s.layers, layer);
    LayerItemsUnder(s, OnLayer(s.layers, layer), layer, popup, Slot(ORIGIN, 1.0), None, pos);
  }

  /** What the items drawn below the overlay layer give the pointer. */
  lemma TopDownUnder(s: Scene, pos: Point)
    requires s.Valid() && !s.monitor.RenderAboveTopLayer()
    ensures FirstUnder(s, OnOutput(s, Top, true) + OnOutput(s, Top, false) + [MovedWindow, Decoration]
                          + BelowWindows(s, true) + [Windows] + BelowWindows(s, false), pos)
         == (var top := OrElse(SurfaceUnder(s, Top, true, pos), SurfaceUnder(s, Top, false, pos));
             var moved, windows := WindowHit(s.movedWindow(pos)), WindowHit(s.windows(pos));
             var popups := FirstUnder(s, BelowWindows(s, true), pos);
             var toplevels := FirstUnder(s, BelowWindows(s, false), pos);
             OrElse(top, OrElse(moved, OrElse(popups, OrElse(windows, toplevels)))))
  {
    OnOutputUnder(s, Top, true, pos);
    OnOutputUnder(s, Top, false, pos);
    var a, b, c, d, e, f := OnOutput(s, Top, true), OnOutput(s, Top, false), [MovedWindow, Decoration],
                            BelowWindows(s, true), [Windows], BelowWindows(s, false);
    FixedItemsUnder(s, pos);
    FirstUnderConcat(s, a + b + c + d + e, f, pos);
    FirstUnderConcat(s, a + b + c + d, e, pos);
    FirstUnderConcat(s, a + b + c, d, pos);
    FirstUnderConcat(s, a + b, c, pos);
    FirstUnderConcat(s, a, b, pos);
  }

  lemma FixedItemsUnder(s: Scene, pos: Point)
    ensures FirstUnder(s, [MovedWindow, Decoration], pos) == WindowHit(s.movedWindow(pos))
    ensures FirstUnder(s, [MovedWindow, Decoration, Windows], pos) == OrElse(WindowHit(s.movedWindow(pos)), WindowHit(s.windows(pos)))
    ensures FirstUnder(s, [Windows], pos) == WindowHit(s.windows(pos))
    ensures FirstUnder(s, [LockItem, Decoration], pos) == LockHit(s, pos)
    ensures FirstUnder(s, [Decoration], pos) == None
  {
    var moved, all, locked := [MovedWindow, Decoration], [MovedWindow, Decoration, Windows], [LockItem, Decoration];
    assert FirstUnder(s, [Decoration], pos) == None;
    assert moved[1..] == [Decoration] && locked[1..] == [Decoration];
    assert all == moved + [Windows];
    FirstUnderConcat(s, moved, [Windows], pos);
  }

  lemma AboveTopUnder(s: Scene, pos: Point)
    requires s.Valid() && s.monitor.RenderAboveTopLayer()
    ensures FirstUnder(s, [MovedWindow, Decoration, Windows] + OnOutput(s, Top, true) + OnOutput(s, Top, false)
                          + OnOutput(s, Bottom, true) + OnOutput(s, Background, true)
                          + OnOutput(s, Bottom, false) + OnOutput(s, Background, false) + [Decoration], pos)
         == (var top := OrElse(SurfaceUnder(s, Top, true, pos), SurfaceUnder(s, Top, false, pos));
             var moved, windows := WindowHit(s.movedWindow(pos)), WindowHit(s.windows(pos));
             var slot := Some(Slot(ORIGIN, 1.0));
             OrElse(OrElse(moved, windows), OrElse(top, OrElse(BelowUnder(s, true, slot, pos), BelowUnder(s, false, slot, pos)))))
  {
    OnOutputUnder(s, Top, true, pos);
    OnOutputUnder(s, Top, false, pos);
    OnOutputUnder(s, Bottom, true, pos);
    OnOutputUnder(s, Bottom, false, pos);
    OnOutputUnder(s, Background, true, pos);
    OnOutputUnder(s, Background, false, pos);
    var a, b, c := [MovedWindow, Decoration, Windows], OnOutput(s, Top, true), OnOutput(s, Top, false);
    var d, e := OnOutput(s, Bottom, true), OnOutput(s, Background, true);
    var f, g := OnOutput(s, Bottom, false), OnOutput(s, Background, false);
    FixedItemsUnder(s, pos);
    FirstUnderConcat(s, a + b + c + d + e + f + g, [Decoration], pos);
    FirstUnderConcat(s, a + b + c + d + e + f, g, pos);
    FirstUnderConcat(s, a + b + c + d + e, f, pos);
    FirstUnderConcat(s, a + b + c + d, e, pos);
    FirstUnderConcat(s, a + b + c, d, pos);
    FirstUnderConcat(s, a + b, c, pos);
    FirstUnderConcat(s, a, b, pos);
  }

  lemma BottomUnder(s: Scene, pos: Point)
    ensures FirstUnder(s, Backdrop(s), pos) == None
  {
    BackdropTakesNoInput(s, OnLayer(s.layers, Background), true, Slot(ORIGIN, 1.0), pos);
    BackdropTakesNoInput(s, OnLayer(s.layers, Background), false, Slot(ORIGIN, 1.0), pos);
    FirstUnderConcat(s, [Decoration] + InBackdrop(s, true) + InBackdrop(s, false), [Decoration], pos);
    FirstUnderConcat(s, [Decoration] + InBackdrop(s, true), InBackdrop(s, false), pos);
    FirstUnderConcat(s, [Decoration], InBackdrop(s, true), pos);
  }

  /** What is drawn between the overlay layer and the backdrop. */
  lemma MiddleUnder(s: Scene, pos: Point)
    requires s.Valid()
    ensures FirstUnder(s, Middle(s), pos) == SearchMiddle(s, DrawSlot(s.monitor, pos), pos)
  {
    if s.monitor.RenderAboveTopLayer() {
      AboveTopUnder(s, pos);
    } else {
      TopDownUnder(s, pos);
      BelowWindowsUnder(s, true, pos);
      BelowWindowsUnder(s, false, pos);
      NoSlotNothingBelow(s, true, pos);
      NoSlotNothingBelow(s, false, pos);
    }
  }

  lemma RenderParts(s: Scene, pos: Point)
    requires !s.locked
    ensures FirstUnder(s, Render(s), pos)
         == OrElse(OrElse(FirstUnder(s, OnOutput(s, Overlay, true), pos), FirstUnder(s, OnOutput(s, Overlay, false), pos)),
                   FirstUnder(s, Middle(s), pos))
  {
    FourParts(s, OnOutput(s, Overlay, true), OnOutput(s, Overlay, false), Middle(s), Backdrop(s), pos);
    BottomUnder(s, pos);
  }

  lemma FourParts(s: Scene, a: seq<Item>, b: seq<Item>, c: seq<Item>, d: seq<Item>, pos: Point)
    ensures FirstUnder(s, a + b + c + d, pos)
         == OrElse(OrElse(OrElse(FirstUnder(s, a, pos), FirstUnder(s, b, pos)), FirstUnder(s, c, pos)), FirstUnder(s, d, pos))
  {
    FirstUnderConcat(s, a + b + c, d, pos);
    FirstUnderConcat(s, a + b, c, pos);
    FirstUnderConcat(s, a, b, pos);
  }

  /** The first input-taking item in drawing order, as a search. */
  lemma RenderIsSearch(s: Scene, pos: Point)
    requires s.Valid() && !s.locked
    ensures FirstUnder(s, Render(s), pos) == Search(s, DrawSlot(s.monitor, pos), pos)
  {
    RenderParts(s, pos);
    OnOutputUnder(s, Overlay, true, pos);
    OnOutputUnder(s, Overlay, false, pos);
    MiddleUnder(s, pos);
  }

  // ---- Agreement ----

  /** Whether hitting and drawing put the layers that move with the workspaces in the same place, or
      only windows and the layers above them can be hit. */
  predicate Aligned(m: Monitor, overviewOpen: bool, pos: Point) {
    (overviewOpen && !m.RenderAboveTopLayer()) || HitSlot(m, pos) == DrawSlot(m, pos)
  }

  /** Where the two are aligned, the pointer gets exactly the first input-taking item in drawing
      order, at the place it is drawn. */
  lemma PointerGetsWhatIsDrawn(s: Scene, pos: Point)
    requires s.Valid() && Undisturbed(s, pos) && (s.locked || Aligned(s.monitor, s.overviewOpen, pos))
    ensures ContentsUnder(s, pos) == Contents(false, FirstUnder(s, Render(s), pos))
  {
    if !s.locked {
      ContentsIsSearch(s, pos);
      RenderIsSearch(s, pos);
    } else {
      FixedItemsUnder(s, pos);
      assert [LockItem] + [Decoration] == [LockItem, Decoration] && [] + [Decoration] == [Decoration];
    }
  }

  /** Where they are not, some surface is hit where it is not drawn, or at another place than it is
      drawn at. */
  lemma SomethingIsMissed(m: Monitor, overviewOpen: bool, pos: Point) returns (s: Scene)
    requires m.Valid() && !Aligned(m, overviewOpen, pos)
    ensures s.monitor == m && s.overviewOpen == overviewOpen && !s.locked && s.Valid() && Undisturbed(s, pos)
    ensures ContentsUnder(s, pos).target != FirstUnder(s, Render(s), pos)
  {
    var hit, drawn := HitSlot(m, pos), DrawSlot(m, pos);
    var a, b := if hit.Some? then hit.value else drawn.value, if drawn.Some? then drawn.value else hit.value;
    var p, q := a.Pull(pos), b.Pull(pos);
    var around := Around(p, q, 0);
    if hit.Some? && drawn.Some? && a.Put(around.Area().loc) == b.Put(around.Area().loc) {
      around := Around(p, q, 1);
      DifferentSlots(a, b, around.Area().loc.x, around.Area().loc.y);
    }
    s := ProbeScene(m, overviewOpen, around);
    ContentsIsSearch(s, pos);
    RenderIsSearch(s, pos);
    OneSurface(s, around, hit, pos);
    OneSurface(s, around, drawn, pos);
  }

  /** A surface at integer coordinates around two points, with a margin of `k` on the left. */
  function Around(p: Point, q: Point, k: nat): (found: Found)
    ensures found.Area().Contains(p) && found.Area().Contains(q)
    ensures k == 1 ==> Around(p, q, 0).Area().loc == Point(found.Area().loc.x + 1.0, found.Area().loc.y)
  {
    var x, y := if p.x <= q.x then p.x.Floor else q.x.Floor, if p.y <= q.y then p.y.Floor else q.y.Floor;
    var x', y' := if p.x <= q.x then q.x.Floor else p.x.Floor, if p.y <= q.y then q.y.Floor else p.y.Floor;
    Found(0, x - k, y, x' - x + k + 1, y' - y + 1)
  }

  /** A layer surface that consists of one rectangle, found everywhere inside it. */
  function Probe(layer: Layer, found: Found): LayerSurface {
    LayerSurface(0, layer, true, false, false, ORIGIN, ORIGIN, _ => None, p => if found.Area().Contains(p) then Some(found) else None)
  }

  function ProbeScene(m: Monitor, overviewOpen: bool, found: Found): (s: Scene)
    requires m.Valid()
    ensures s.Valid()
  {
    Scene(m, [Probe(Bottom, found)], overviewOpen, false, None, false, false, false, _ => false, _ => None, _ => None)
  }

  lemma OneSurface(s: Scene, found: Found, slot: Option<Slot>, pos: Point)
    requires slot.Some? ==> slot.value.zoom > 0.0 && found.Area().Contains(slot.value.Pull(pos))
    requires s.layers == [Probe(Bottom, found)] && s.movedWindow(pos) == None && s.windows(pos) == None
    requires s.overviewOpen ==> s.monitor.RenderAboveTopLayer()
    ensures Search(s, slot, pos) == if slot.Some? then Some(LayerTarget(0, found.id, slot.value.Put(found.Area().loc))) else None
  {
    ProbeOnLayer(Bottom, found);
    ProbeUnder(Bottom, found, slot, pos);
    EmptyUnder(true, slot, pos);
    EmptyUnder(false, slot, pos);
  }

  lemma EmptyUnder(popup: bool, slot: Option<Slot>, pos: Point)
    requires slot.Some? ==> slot.value.zoom > 0.0
    ensures LayerUnder([], popup, slot, pos) == None
  {
  }

  lemma ProbeOnLayer(layer: Layer, found: Found)
    ensures forall other :: OnLayer([Probe(layer, found)], other) == if other == layer then [Probe(layer, found)] else []
  {
  }

  lemma ProbeUnder(layer: Layer, found: Found, slot: Option<Slot>, pos: Point)
    requires slot.Some? ==> slot.value.zoom > 0.0 && found.Area().Contains(slot.value.Pull(pos))
    ensures LayerUnder([Probe(layer, found)], true, slot, pos) == None
    ensures LayerUnder([Probe(layer, found)], false, slot, pos)
         == if slot.Some? then Some(LayerTarget(0, found.id, slot.value.Put(found.Area().loc))) else None
  {
    if slot.Some? {
      var p := slot.value.Pull(pos);
      assert p.Minus(ORIGIN.Plus(ORIGIN)) == p;
    }
  }

  /** Two slots that put one point at the same place put its neighbour at different ones. */
  lemma DifferentSlots(a: Slot, b: Slot, x: real, y: real)
    requires a != b && a.Put(Point(x + 1.0, y)) == b.Put(Point(x + 1.0, y))
    ensures a.Put(Point(x, y)) != b.Put(Point(x, y))
  {
    PutNeighbour(a, x, y);
    PutNeighbour(b, x, y);
  }

  lemma PutNeighbour(slot: Slot, x: real, y: real)
    ensures slot.Put(Point(x + 1.0, y)).x == slot.Put(Point(x, y)).x + slot.zoom
  {
  }

  /** The pointer gets what is drawn in every scene on a monitor if and only if its two placements
      are aligned at that position. */
  lemma AgreeIff(m: Monitor, overviewOpen: bool, pos: Point)
    requires m.Valid()
    ensures (forall s: Scene :: s.monitor == m && s.overviewOpen == overviewOpen && !s.locked && s.Valid() && Undisturbed(s, pos)
                           ==> ContentsUnder(s, pos) == Contents(false, FirstUnder(s, Render(s), pos)))
        <==> Aligned(m, overviewOpen, pos)
  {
    if Aligned(m, overviewOpen, pos) {
      forall s: Scene | s.monitor == m && s.overviewOpen == overviewOpen && !s.locked && s.Valid() && Undisturbed(s, pos)
        ensures ContentsUnder(s, pos) == Contents(false, FirstUnder(s, Render(s), pos))
      {
        PointerGetsWhatIsDrawn(s, pos);
      }
    } else {
      var s := SomethingIsMissed(m, overviewOpen, pos);
    }
  }

  /** A modal dialog takes everything, and so does a hot corner, even from an overlay surface, unless
      a fullscreen window is shown. */
  lemma NothingIsHitIff(s: Scene, pos: Point)
    ensures s.ModalOpen() ==> ContentsUnder(s, pos) == Contents(false, None)
    ensures ContentsUnder(s, pos).hotCorner
       <==> s.hotCorner(pos) && !s.ModalOpen() && !s.locked && !s.monitor.RenderAboveTopLayer()
    ensures ContentsUnder(s, pos).hotCorner ==> ContentsUnder(s, pos).target == None
  {
  }

  /** On every monitor that shows no fullscreen window, a hot corner can hide an overlay surface that
      is drawn over it. */
  lemma HotCornerHidesOverlay(m: Monitor, pos: Point) returns (s: Scene)
    requires m.Valid() && !m.RenderAboveTopLayer()
    ensures s.Valid() && s.monitor == m && !s.ModalOpen() && !s.locked
    ensures FirstUnder(s, Render(s), pos).Some? && FirstUnder(s, OnOutput(s, Overlay, false), pos).Some?
    ensures ContentsUnder(s, pos) == Contents(true, None)
  {
    var found, slot := Around(pos, pos, 0), Some(Slot(ORIGIN, 1.0));
    s := Scene(m, [Probe(Overlay, found)], false, false, None, false, false, false, _ => true, _ => None, _ => None);
    assert slot.value.Pull(pos) == pos;
    ProbeOnLayer(Overlay, found);
    ProbeUnder(Overlay, found, slot, pos);
    OnOutputUnder(s, Overlay, false, pos);
    RenderIsSearch(s, pos);
  }

  // ---- When the two placements are aligned ----

  lemma Unscaled(m: Monitor)
    requires m.Valid() && m.Zoom() == 1.0
    ensures m.StaticGeo() == m.View()
  {
  }

  lemma {:induction false} SameSearch(m: Monitor, geos: seq<Rect>, pos: Point)
    requires forall g <- geos :: g.loc.x == 0.0 && g.w == m.width
    ensures m.FirstBand(geos, pos) == FirstGeo(geos, pos)
  {
    if geos != [] {
      assert m.Band(geos[0]) == geos[0];
      SameSearch(m, geos[1..], pos);
    }
  }

  /** Every workspace drawn at a position is found by the hit test, which searches wider. */
  lemma {:induction false} BandsAreWider(m: Monitor, geos: seq<Rect>, pos: Point)
    requires m.View().Contains(pos)
    ensures FirstGeo(geos, pos).Some? ==> m.FirstBand(geos, pos).Some?
  {
    if geos != [] {
      BandsAreWider(m, geos[1..], pos);
    }
  }

  /** With the view at rest, the active workspace fills the output. */
  lemma {:induction false} ActiveFillsView(m: Monitor, pos: Point, k: nat)
    requires m.Valid() && m.switch.Still? && m.Zoom() == 1.0 && m.View().Contains(pos) && k <= m.active
    ensures FirstGeo(m.Shown(k), pos) == Some(m.View())
    decreases m.active - k
  {
    RestingGeo(m, k);
    if k < m.active {
      ActiveFillsView(m, pos, k + 1);
      assert [] + m.Shown(k + 1) == m.Shown(k + 1);
    }
  }

  lemma RestingGeo(m: Monitor, k: nat)
    requires m.Valid() && m.switch.Still? && m.Zoom() == 1.0 && k <= m.active
    ensures k == m.active ==> m.Geo(k) == m.View() && m.View().Overlaps(m.View())
    ensures k < m.active ==> !m.Geo(k).Overlaps(m.View())
  {
    Unscaled(m);
    var n, step := k as real - m.active as real, m.height + m.gap;
    assert m.Geo(k).loc.y == n * step;
    assert k < m.active ==> n <= -1.0;
    StepsAbove(n, step);
    assert m.Geo(k).h == m.height;
    assert k < m.active ==> m.Geo(k).loc.y + m.Geo(k).h <= -m.gap;
  }

  lemma StepsAbove(n: real, step: real)
    requires step > 0.0
    ensures n <= -1.0 ==> n * step <= -step
    ensures n == 0.0 ==> n * step == 0.0
  {
  }

  predicate AtRest(m: Monitor, pos: Point) {
    var crossfade, under := m.switch.Moving? && m.switch.keyboard, m.WorkspaceUnder(pos);
    if m.Zoom() == 1.0 then crossfade ==> under.Some? && under.value.loc == ORIGIN
    else under == None && (crossfade ==> !m.StaticGeo().Contains(pos))
  }

  /** On the visible part of an output, hitting and drawing are aligned whenever the overview is not
      animating and no keyboard workspace switch is under way. In the other cases they are aligned
      exactly where there is no workspace at all, or where the crossfade's slot is the workspace's
      own. */
  lemma AlignedIff(m: Monitor, pos: Point)
    requires m.Valid() && m.View().Contains(pos)
    ensures HitSlot(m, pos) == DrawSlot(m, pos) <==> AtRest(m, pos)
  {
    var geos := m.Shown(0);
    ShownIsStacked(m, 0);
    BandsAreWider(m, geos, pos);
    if m.Zoom() == 1.0 {
      Unscaled(m);
      SameSearch(m, geos, pos);
      if m.switch.Still? {
        ActiveFillsView(m, pos, 0);
      }
    }
  }
}
