/** The state a client keeps from the event stream: applying events, and replicating the state for
    a client that joins late. Applying an event the state does not allow panics. */
module EventStream {
  import opened Wrappers

  type Id = nat

  /** Fields that no event reads or changes on their own are one opaque value each. */
  type Opaque = nat

  datatype Workspace = Workspace(
    id: Id,
    output: Option<string>,
    isUrgent: bool,
    isActive: bool,
    isFocused: bool,
    activeWindow: Option<Id>,
    rest: Opaque)

  datatype Window = Window(
    id: Id,
    isFocused: bool,
    isUrgent: bool,
    layout: Opaque,
    focusTimestamp: Option<nat>,
    rest: Opaque)

  datatype KeyboardLayouts = KeyboardLayouts(names: seq<string>, current: nat)

  datatype Cast = Cast(stream: Id, rest: Opaque)

  datatype Event =
    | WorkspacesChanged(workspaces: seq<Workspace>)
    | WorkspaceUrgencyChanged(id: Id, urgent: bool)
    | WorkspaceActivated(id: Id, focused: bool)
    | WorkspaceActiveWindowChanged(id: Id, activeWindow: Option<Id>)
    | WindowsChanged(windows: seq<Window>)
    | WindowOpenedOrChanged(window: Window)
    | WindowClosed(id: Id)
    | WindowFocusChanged(focus: Option<Id>)
    | WindowFocusTimestampChanged(id: Id, timestamp: Option<nat>)
    | WindowUrgencyChanged(id: Id, urgent: bool)
    | WindowLayoutsChanged(changes: seq<(Id, Opaque)>)
    | KeyboardLayoutsChanged(layouts: KeyboardLayouts)
    | KeyboardLayoutSwitched(idx: nat)
    | OverviewOpenedOrClosed(isOpen: bool)
    | ConfigLoaded(failed: bool)
    | ScreenshotCaptured(path: Option<string>)
    | CastsChanged(casts: seq<Cast>)
    | CastStartedOrChanged(cast: Cast)
    | CastStopped(stream: Id)

  /** What a part of the state does with an event: it takes it, leaves it to the other parts, or
      panics. */
  datatype Applied<+S> = Taken(state: S) | Ignored | Panic

  type Workspaces = map<Id, Workspace>
  type Windows = map<Id, Window>
  type Casts = map<Id, Cast>

  function WorkspaceId(w: Workspace): Id { w.id }

  function WindowId(w: Window): Id { w.id }

  function CastId(c: Cast): Id { c.stream }

  /** Collects values into a map by their ids: of equal ids the last one stays. */
  function Collect<V>(values: seq<V>, id: V -> Id): map<Id, V> {
    if values == [] then map[]
    else
      var last := values[|values| - 1];
      Collect(values[..|values| - 1], id)[id(last) := last]
  }

  function ApplyToWorkspaces(s: Workspaces, event: Event): Applied<Workspaces> {
    match event
    case WorkspacesChanged(workspaces) => Taken(Collect(workspaces, WorkspaceId))
    case WorkspaceUrgencyChanged(id, urgent) =>
      Taken(map k | k in s :: if s[k].id == id then s[k].(isUrgent := urgent) else s[k])
    case WorkspaceActivated(id, focused) =>
      if id !in s then Panic
      else
        Taken(map k | k in s ::
                s[k].(isActive := if s[k].output == s[id].output then s[k].id == id else s[k].isActive,
                      isFocused := if focused then s[k].id == id else s[k].isFocused))
    case WorkspaceActiveWindowChanged(id, activeWindow) =>
      if id in s then Taken(s[id := s[id].(activeWindow := activeWindow)]) else Panic
    case _ => Ignored
  }

  function ChangeLayouts(s: Windows, changes: seq<(Id, Opaque)>): Applied<Windows> {
    if changes == [] then Taken(s)
    else if changes[0].0 !in s then Panic
    else ChangeLayouts(s[changes[0].0 := s[changes[0].0].(layout := changes[0].1)], changes[1..])
  }

  function OpenOrChange(s: Windows, window: Window): Windows {
    var s' := s[window.id := window];
    if window.isFocused
    then map k | k in s' :: if s'[k].id != window.id then s'[k].(isFocused := false) else s'[k]
    else s'
  }

  function ApplyToWindows(s: Windows, event: Event): Applied<Windows> {
    match event
    case WindowsChanged(windows) => Taken(Collect(windows, WindowId))
    case WindowOpenedOrChanged(window) => Taken(OpenOrChange(s, window))
    case WindowClosed(id) => if id in s then Taken(s - {id}) else Panic
    case WindowFocusChanged(focus) => Taken(map k | k in s :: s[k].(isFocused := Some(s[k].id) == focus))
    case WindowFocusTimestampChanged(id, timestamp) =>
      Taken(map k | k in s :: if s[k].id == id then s[k].(focusTimestamp := timestamp) else s[k])
    case WindowUrgencyChanged(id, urgent) =>
      Taken(map k | k in s :: if s[k].id == id then s[k].(isUrgent := urgent) else s[k])
    case WindowLayoutsChanged(changes) => ChangeLayouts(s, changes)
    case _ => Ignored
  }

  function ApplyToLayouts(s: Option<KeyboardLayouts>, event: Event): Applied<Option<KeyboardLayouts>> {
    match event
    case KeyboardLayoutsChanged(layouts) => Taken(Some(layouts))
    case KeyboardLayoutSwitched(idx) => if s.Some? then Taken(Some(s.value.(current := idx))) else Panic
    case _ => Ignored
  }

  function ApplyToOverview(s: bool, event: Event): Applied<bool> {
    if event.OverviewOpenedOrClosed? then Taken(event.isOpen) else Ignored
  }

  function ApplyToConfig(s: bool, event: Event): Applied<bool> {
    if event.ConfigLoaded? then Taken(event.failed) else Ignored
  }

  function ApplyToCasts(s: Casts, event: Event): Applied<Casts> {
    match event
    case CastsChanged(casts) => Taken(Collect(casts, CastId))
    case CastStartedOrChanged(cast) => Taken(s[cast.stream := cast])
    case CastStopped(stream) => if stream in s then Taken(s - {stream}) else Panic
    case _ => Ignored
  }

  datatype State = State(
    workspaces: Workspaces,
    windows: Windows,
    layouts: Option<KeyboardLayouts>,
    overviewOpen: bool,
    configFailed: bool,
    casts: Casts)
  {
    /** Offers the event to one part after the other until one takes it. */
    function Apply(event: Event): Applied<State> {
      match ApplyToWorkspaces(workspaces, event)
      case Taken(s) => Taken(this.(workspaces := s))
      case Panic => Panic
      case Ignored =>
        match ApplyToWindows(windows, event)
        case Taken(s) => Taken(this.(windows := s))
        case Panic => Panic
        case Ignored =>
          match ApplyToLayouts(layouts, event)
          case Taken(s) => Taken(this.(layouts := s))
          case Panic => Panic
          case Ignored =>
            match ApplyToOverview(overviewOpen, event)
            case Taken(s) => Taken(this.(overviewOpen := s))
            case Panic => Panic
            case Ignored =>
              match ApplyToConfig(configFailed, event)
              case Taken(s) => Taken(this.(configFailed := s))
              case Panic => Panic
              case Ignored =>
                match ApplyToCasts(casts, event)
                case Taken(s) => Taken(this.(casts := s))
                case Panic => Panic
                case Ignored => Ignored
    }

    /** The events that replicate this state, the values of each map listed in the given order. */
    function Replicate(order: Orders): seq<Event>
      requires order.Fits(this)
    {
      [WorkspacesChanged(Values(workspaces, order.workspaces))]
      + [WindowsChanged(Values(windows, order.windows))]
      + (if layouts.Some? then [KeyboardLayoutsChanged(layouts.value)] else [])
      + [OverviewOpenedOrClosed(overviewOpen)]
      + [ConfigLoaded(configFailed)]
      + [CastsChanged(Values(casts, order.casts))]
    }
  }

  const DEFAULT := State(map[], map[], None, false, false, map[])

  /** An order in which a map's entries may be visited. */
  predicate Visits<V>(order: seq<Id>, m: map<Id, V>) {
    && (forall i, j | 0 <= i < j < |order| :: order[i] != order[j])
    && (forall k <- m :: k in order)
    && (forall k <- order :: k in m)
  }

  datatype Orders = Orders(workspaces: seq<Id>, windows: seq<Id>, casts: seq<Id>) {
    predicate Fits(s: State) {
      Visits(workspaces, s.workspaces) && Visits(windows, s.windows) && Visits(casts, s.casts)
    }
  }

  function Values<V>(m: map<Id, V>, order: seq<Id>): (r: seq<V>)
    requires forall k <- order :: k in m
    ensures |r| == |order| && forall i | 0 <= i < |r| :: r[i] == m[order[i]]
  {
    if order == [] then [] else Values(m, order[..|order| - 1]) + [m[order[|order| - 1]]]
  }

  /** Applies events in turn; `None` if one of them panics. */
  function ApplyAll(s: State, events: seq<Event>): Option<State>
    decreases events
  {
    if events == [] then Some(s)
    else
      match s.Apply(events[0])
      case Taken(s') => ApplyAll(s', events[1..])
      case Ignored => ApplyAll(s, events[1..])
      case Panic => None
  }

  predicate Keyed<V>(m: map<Id, V>, id: V -> Id) {
    forall k <- m :: id(m[k]) == k
  }

  /** Every map key is the id of its value. */
  predicate WellKeyed(s: State) {
    Keyed(s.workspaces, WorkspaceId) && Keyed(s.windows, WindowId) && Keyed(s.casts, CastId)
  }

  lemma {:induction false} CollectIsKeyed<V>(values: seq<V>, id: V -> Id)
    ensures Keyed(Collect(values, id), id)
    ensures forall v <- values :: id(v) in Collect(values, id)
    ensures forall k <- Collect(values, id) :: Collect(values, id)[k] in values
  {
    if values != [] {
      CollectIsKeyed(values[..|values| - 1], id);
      assert values == values[..|values| - 1] + [values[|values| - 1]];
    }
  }

  /** Listing a map and collecting it again gives the map back, exactly if its keys are the ids. */
  lemma {:induction false} CollectUndoesListing<V>(m: map<Id, V>, order: seq<Id>, id: V -> Id)
    requires Visits(order, m)
    ensures Collect(Values(m, order), id) == m <==> Keyed(m, id)
  {
    CollectIsKeyed(Values(m, order), id);
    if Keyed(m, id) {
      CollectListed(m, order, id);
    }
  }

  lemma {:induction false} CollectListed<V>(m: map<Id, V>, order: seq<Id>, id: V -> Id)
    requires Keyed(m, id) && (forall k <- order :: k in m)
    ensures forall k: Id :: k in Collect(Values(m, order), id) <==> k in order
    ensures forall k <- order :: Collect(Values(m, order), id)[k] == m[k]
  {
    if order != [] {
      var init, last := order[..|order| - 1], order[|order| - 1];
      CollectListed(m, init, id);
      assert Values(m, order)[..|order| - 1] == Values(m, init);
      assert forall k: Id :: k in order <==> k in init || k == last;
      assert id(m[last]) == last;
    }
  }

  lemma {:induction false} ChangeLayoutsShape(s: Windows, changes: seq<(Id, Opaque)>)
    ensures ChangeLayouts(s, changes).Panic? <==> exists c <- changes :: c.0 !in s
    ensures var r := ChangeLayouts(s, changes);
      r.Taken? ==> r.state.Keys == s.Keys && forall k <- s ::
          r.state[k].id == s[k].id && r.state[k].isFocused == s[k].isFocused
    ensures !ChangeLayouts(s, changes).Ignored?
  {
    if changes != [] {
      var c := changes[0];
      assert changes == [c] + changes[1..] && c in changes;
      if c.0 in s {
        ChangeLayoutsShape(s[c.0 := s[c.0].(layout := c.1)], changes[1..]);
        assert forall d <- changes[1..] :: d in changes;
        assert forall d <- changes :: d == c || d in changes[1..];
      }
    }
  }

  /** An event panics exactly when it refers to something the state does not have; every other
      event is taken by some part, except the one kind no part keeps. */
  lemma ApplyOutcomeIff(s: State, event: Event)
    ensures s.Apply(event).Panic? <==>
              match event
              case WorkspaceActivated(id, _) => id !in s.workspaces
              case WorkspaceActiveWindowChanged(id, _) => id !in s.workspaces
              case WindowClosed(id) => id !in s.windows
              case WindowLayoutsChanged(changes) => exists c <- changes :: c.0 !in s.windows
              case KeyboardLayoutSwitched(_) => s.layouts.None?
              case CastStopped(stream) => stream !in s.casts
              case _ => false
    ensures s.Apply(event).Ignored? <==> event.ScreenshotCaptured?
  {
    if event.WindowLayoutsChanged? {
      ChangeLayoutsShape(s.windows, event.changes);
    }
  }

  lemma WorkspacesKeepKeys(s: Workspaces, event: Event)
    requires Keyed(s, WorkspaceId) && ApplyToWorkspaces(s, event).Taken?
    ensures Keyed(ApplyToWorkspaces(s, event).state, WorkspaceId)
  {
    if event.WorkspacesChanged? {
      CollectIsKeyed(event.workspaces, WorkspaceId);
    }
  }

  lemma WindowsKeepKeys(s: Windows, event: Event)
    requires Keyed(s, WindowId) && ApplyToWindows(s, event).Taken?
    ensures Keyed(ApplyToWindows(s, event).state, WindowId)
  {
    match event
    case WindowsChanged(windows) => CollectIsKeyed(windows, WindowId);
    case WindowLayoutsChanged(changes) => ChangeLayoutsShape(s, changes);
    case _ =>
  }

  lemma ApplyKeepsKeys(s: State, event: Event)
    requires WellKeyed(s) && s.Apply(event).Taken?
    ensures WellKeyed(s.Apply(event).state)
  {
    ApplyToOnePart(s, event);
    if ApplyToWorkspaces(s.workspaces, event).Taken? {
      WorkspacesKeepKeys(s.workspaces, event);
    } else if ApplyToWindows(s.windows, event).Taken? {
      WindowsKeepKeys(s.windows, event);
    } else if event.CastsChanged? {
      CollectIsKeyed(event.casts, CastId);
    }
  }

  /** An event changes one part of the state only. */
  lemma ApplyToOnePart(s: State, event: Event)
    requires s.Apply(event).Taken?
    ensures var s', ws, win := s.Apply(event).state, ApplyToWorkspaces(s.workspaces, event), ApplyToWindows(s.windows, event);
      if ws.Taken? then s' == s.(workspaces := ws.state)
      else if win.Taken? then s' == s.(windows := win.state)
      else
        && s'.workspaces == s.workspaces && s'.windows == s.windows
        && (s'.casts != s.casts ==> ApplyToCasts(s.casts, event) == Taken(s'.casts))
  {
  }

  lemma {:induction false} ApplyAllKeepsKeys(s: State, events: seq<Event>)
    requires WellKeyed(s) && ApplyAll(s, events).Some?
    ensures WellKeyed(ApplyAll(s, events).value)
    decreases events
  {
    if events != [] {
      match s.Apply(events[0])
      case Taken(s') => ApplyKeepsKeys(s, events[0]); ApplyAllKeepsKeys(s', events[1..]);
      case Ignored => ApplyAllKeepsKeys(s, events[1..]);
      case Panic =>
    }
  }

  lemma {:induction false} ApplyAllConcat(s: State, a: seq<Event>, b: seq<Event>)
    ensures ApplyAll(s, a + b) == if ApplyAll(s, a).Some? then ApplyAll(ApplyAll(s, a).value, b) else None
    decreases a
  {
    if a == [] {
      assert a + b == b;
    } else {
      assert (a + b)[1..] == a[1..] + b;
      match s.Apply(a[0])
      case Taken(s') => ApplyAllConcat(s', a[1..], b);
      case Ignored => ApplyAllConcat(s, a[1..], b);
      case Panic =>
    }
  }

  /** What a client that joins late makes of the replicated state. */
  function Rejoined(s: State, order: Orders): State
    requires order.Fits(s)
  {
    s.(workspaces := Collect(Values(s.workspaces, order.workspaces), WorkspaceId),
       windows := Collect(Values(s.windows, order.windows), WindowId),
       casts := Collect(Values(s.casts, order.casts), CastId))
  }

  lemma ReplayEvent(s: State, events: seq<Event>, event: Event, s': State, s'': State)
    requires ApplyAll(s, events) == Some(s') && s'.Apply(event) == Taken(s'')
    ensures ApplyAll(s, events + [event]) == Some(s'')
  {
    ApplyAllConcat(s, events, [event]);
    assert [event][1..] == [];
  }

  lemma ReplayFirst(workspaces: seq<Workspace>, windows: seq<Window>, layouts: Option<KeyboardLayouts>)
    ensures ApplyAll(DEFAULT, [WorkspacesChanged(workspaces)] + [WindowsChanged(windows)]
                              + (if layouts.Some? then [KeyboardLayoutsChanged(layouts.value)] else []))
            == Some(DEFAULT.(workspaces := Collect(workspaces, WorkspaceId), windows := Collect(windows, WindowId), layouts := layouts))
  {
    var s1 := DEFAULT.(workspaces := Collect(workspaces, WorkspaceId));
    var s2 := s1.(windows := Collect(windows, WindowId));
    var e1 := [WorkspacesChanged(workspaces)];
    assert [] + e1 == e1;
    ReplayEvent(DEFAULT, [], e1[0], DEFAULT, s1);
    ReplayEvent(DEFAULT, e1, WindowsChanged(windows), s1, s2);
    if layouts.Some? {
      ReplayEvent(DEFAULT, e1 + [WindowsChanged(windows)], KeyboardLayoutsChanged(layouts.value), s2, s2.(layouts := layouts));
    } else {
      assert e1 + [WindowsChanged(windows)] + [] == e1 + [WindowsChanged(windows)];
    }
  }

  lemma ReplayRest(events: seq<Event>, s: State, isOpen: bool, failed: bool, casts: seq<Cast>)
    requires ApplyAll(DEFAULT, events) == Some(s)
    ensures ApplyAll(DEFAULT, events + [OverviewOpenedOrClosed(isOpen)] + [ConfigLoaded(failed)] + [CastsChanged(casts)])
            == Some(s.(overviewOpen := isOpen, configFailed := failed, casts := Collect(casts, CastId)))
  {
    var s1 := s.(overviewOpen := isOpen);
    var s2 := s1.(configFailed := failed);
    var s3 := s2.(casts := Collect(casts, CastId));
    var e1 := events + [OverviewOpenedOrClosed(isOpen)];
    LaterEventsApply(s, isOpen, failed, casts);
    ReplayEvent(DEFAULT, events, OverviewOpenedOrClosed(isOpen), s, s1);
    ReplayEvent(DEFAULT, e1, ConfigLoaded(failed), s1, s2);
    ReplayEvent(DEFAULT, e1 + [ConfigLoaded(failed)], CastsChanged(casts), s2, s3);
  }

  lemma LaterEventsApply(s: State, isOpen: bool, failed: bool, casts: seq<Cast>)
    ensures var s1 := s.(overviewOpen := isOpen);
      var s2 := s1.(configFailed := failed);
      && s.Apply(OverviewOpenedOrClosed(isOpen)) == Taken(s1)
      && s1.Apply(ConfigLoaded(failed)) == Taken(s2)
      && s2.Apply(CastsChanged(casts)) == Taken(s2.(casts := Collect(casts, CastId)))
  {
  }

  lemma ReplayParts(s: State, order: Orders)
    requires order.Fits(s)
    ensures ApplyAll(DEFAULT, s.Replicate(order)) == Some(Rejoined(s, order))
  {
    var workspaces, windows := Values(s.workspaces, order.workspaces), Values(s.windows, order.windows);
    var first := [WorkspacesChanged(workspaces)] + [WindowsChanged(windows)]
                 + if s.layouts.Some? then [KeyboardLayoutsChanged(s.layouts.value)] else [];
    ReplayFirst(workspaces, windows, s.layouts);
    var s' := ApplyAll(DEFAULT, first).value;
    ReplayRest(first, s', s.overviewOpen, s.configFailed, Values(s.casts, order.casts));
  }

  /** Replaying `replicate` from the default state gives the state back, in whatever order the
      maps were visited, exactly if every key is its value's id. */
  lemma ReplicateIff(s: State, order: Orders)
    requires order.Fits(s)
    ensures ApplyAll(DEFAULT, s.Replicate(order)) == Some(s) <==> WellKeyed(s)
  {
    ReplayParts(s, order);
    RejoinedIff(s, order);
  }

  lemma RejoinedIff(s: State, order: Orders)
    requires order.Fits(s)
    ensures Rejoined(s, order) == s <==> WellKeyed(s)
  {
    CollectUndoesListing(s.workspaces, order.workspaces, WorkspaceId);
    CollectUndoesListing(s.windows, order.windows, WindowId);
    CollectUndoesListing(s.casts, order.casts, CastId);
  }

  /** Late joiner: a client that receives the replicated state and then the later events ends up
      exactly where a client that saw every event does, panics included. */
  lemma LateJoiner(past: seq<Event>, order: Orders, future: seq<Event>)
    requires ApplyAll(DEFAULT, past).Some? && order.Fits(ApplyAll(DEFAULT, past).value)
    ensures ApplyAll(DEFAULT, ApplyAll(DEFAULT, past).value.Replicate(order) + future) == ApplyAll(DEFAULT, past + future)
  {
    var s := ApplyAll(DEFAULT, past).value;
    ApplyAllKeepsKeys(DEFAULT, past);
    ReplicateIff(s, order);
    ApplyAllConcat(DEFAULT, s.Replicate(order), future);
    ApplyAllConcat(DEFAULT, past, future);
  }

  predicate OneFocusedWindow(s: Windows) {
    forall a, b | a in s && b in s :: s[a].isFocused && s[b].isFocused ==> a == b
  }

  predicate OneFocusedWorkspace(s: Workspaces) {
    forall a, b | a in s && b in s :: s[a].isFocused && s[b].isFocused ==> a == b
  }

  predicate OneActivePerOutput(s: Workspaces) {
    forall a, b | a in s && b in s :: s[a].isActive && s[b].isActive && s[a].output == s[b].output ==> a == b
  }

  predicate Coherent(s: State) {
    OneFocusedWindow(s.windows) && OneFocusedWorkspace(s.workspaces) && OneActivePerOutput(s.workspaces)
  }

  /** A full replacement brings at most one focus, and at most one active workspace per output. */
  predicate CoherentPayload(event: Event) {
    match event
    case WorkspacesChanged(workspaces) =>
      var s := Collect(workspaces, WorkspaceId); OneFocusedWorkspace(s) && OneActivePerOutput(s)
    case WindowsChanged(windows) => OneFocusedWindow(Collect(windows, WindowId))
    case _ => true
  }

  lemma WorkspacesStayCoherentIff(s: Workspaces, event: Event)
    requires Keyed(s, WorkspaceId) && OneFocusedWorkspace(s) && OneActivePerOutput(s) && ApplyToWorkspaces(s, event).Taken?
    ensures var s' := ApplyToWorkspaces(s, event).state;
      OneFocusedWorkspace(s') && OneActivePerOutput(s') <==> CoherentPayload(event)
  {
  }

  lemma WindowsStayCoherentIff(s: Windows, event: Event)
    requires Keyed(s, WindowId) && OneFocusedWindow(s) && ApplyToWindows(s, event).Taken?
    ensures OneFocusedWindow(ApplyToWindows(s, event).state) <==> CoherentPayload(event)
  {
    if event.WindowLayoutsChanged? {
      ChangeLayoutsShape(s, event.changes);
    }
  }

  /** Uniqueness of the focus and of the active workspaces survives an event exactly when the event
      is not a full replacement that itself breaks it. */
  lemma ApplyKeepsCoherenceIff(s: State, event: Event)
    requires WellKeyed(s) && Coherent(s) && s.Apply(event).Taken?
    ensures Coherent(s.Apply(event).state) <==> CoherentPayload(event)
  {
    if ApplyToWorkspaces(s.workspaces, event).Taken? {
      WorkspaceEventsKeepCoherenceIff(s, event);
    } else if ApplyToWindows(s.windows, event).Taken? {
      WindowEventsKeepCoherenceIff(s, event);
    } else {
      ApplyToOnePart(s, event);
      assert !event.WorkspacesChanged? && !event.WindowsChanged?;
    }
  }

  lemma WorkspaceEventsKeepCoherenceIff(s: State, event: Event)
    requires WellKeyed(s) && Coherent(s) && ApplyToWorkspaces(s.workspaces, event).Taken?
    ensures s.Apply(event).Taken? && (Coherent(s.Apply(event).state) <==> CoherentPayload(event))
  {
    WorkspacesStayCoherentIff(s.workspaces, event);
    assert s.Apply(event).state.windows == s.windows;
  }

  lemma WindowEventsKeepCoherenceIff(s: State, event: Event)
    requires WellKeyed(s) && Coherent(s) && ApplyToWorkspaces(s.workspaces, event).Ignored? && ApplyToWindows(s.windows, event).Taken?
    ensures s.Apply(event).Taken? && (Coherent(s.Apply(event).state) <==> CoherentPayload(event))
  {
    WindowsStayCoherentIff(s.windows, event);
    assert s.Apply(event).state.workspaces == s.workspaces;
  }

  lemma {:induction false} RunsAreCoherent(s: State, events: seq<Event>)
    requires WellKeyed(s) && Coherent(s) && ApplyAll(s, events).Some? && forall e <- events :: CoherentPayload(e)
    ensures Coherent(ApplyAll(s, events).value)
    decreases events
  {
    if events != [] {
      match s.Apply(events[0])
      case Taken(s') =>
        ApplyKeepsKeys(s, events[0]);
        ApplyKeepsCoherenceIff(s, events[0]);
        RunsAreCoherent(s', events[1..]);
      case Ignored => RunsAreCoherent(s, events[1..]);
      case Panic =>
    }
  }

  /** A focus change establishes unique focus whatever was focused before: exactly the named window
      is focused. A focused activation does so for workspaces, and the activated workspace becomes
      the only active one of its output, while other outputs keep theirs. */
  lemma FocusIsEstablished(s: State, focus: Option<Id>, id: Id, focused: bool)
    requires WellKeyed(s)
    ensures var s' := s.Apply(WindowFocusChanged(focus)).state;
      OneFocusedWindow(s'.windows) && forall k <- s'.windows :: s'.windows[k].isFocused <==> focus == Some(k)
    ensures id in s.workspaces ==>
              var s' := s.Apply(WorkspaceActivated(id, focused)).state;
              && s'.workspaces.Keys == s.workspaces.Keys
              && forall k <- s'.workspaces ::
                   && (s'.workspaces[k].isActive <==>
                         if s.workspaces[k].output == s.workspaces[id].output then k == id else s.workspaces[k].isActive)
                   && (focused ==> (s'.workspaces[k].isFocused <==> k == id))
                   && (!focused ==> s'.workspaces[k].isFocused == s.workspaces[k].isFocused)
  {
  }
}
