/** The event stream state as the object a client updates in place. */
module EventStreamReplica {
  import opened Wrappers
  import opened EventStream

  datatype Outcome = Consumed | Passed | Panicked

  function OutcomeOf<S>(applied: Applied<S>): Outcome {
    match applied
    case Taken(_) => Consumed
    case Ignored => Passed
    case Panic => Panicked
  }

  class Replica {
    var workspaces: Workspaces
    var windows: Windows
    var layouts: Option<KeyboardLayouts>
    var overviewOpen: bool
    var configFailed: bool
    var casts: Casts

    ghost function View(): State
      reads this
    {
      State(workspaces, windows, layouts, overviewOpen, configFailed, casts)
    }

    constructor ()
      ensures View() == DEFAULT && WellKeyed(View())
    {
      workspaces, windows, layouts, overviewOpen, configFailed, casts := map[], map[], None, false, false, map[];
    }

    method ForEachWorkspace(change: Workspace -> Workspace)
      modifies this`workspaces
      ensures workspaces == map k | k in old(workspaces) :: change(old(workspaces)[k])
    {
      var rest := workspaces.Keys;
      while rest != {}
        invariant rest <= workspaces.Keys == old(workspaces.Keys)
        invariant forall k <- workspaces :: workspaces[k] == if k in rest then old(workspaces)[k] else change(old(workspaces)[k])
      {
        var k :| k in rest;
        workspaces := workspaces[k := change(workspaces[k])];
        rest := rest - {k};
      }
    }

    method ForEachWindow(change: Window -> Window)
      modifies this`windows
      ensures windows == map k | k in old(windows) :: change(old(windows)[k])
    {
      var rest := windows.Keys;
      while rest != {}
        invariant rest <= windows.Keys == old(windows.Keys)
        invariant forall k <- windows :: windows[k] == if k in rest then old(windows)[k] else change(old(windows)[k])
      {
        var k :| k in rest;
        windows := windows[k := change(windows[k])];
        rest := rest - {k};
      }
    }

    /** Changes the first window with the given id, in any order of visiting, and stops. */
    method ForFirstWindow(id: Id, change: Window -> Window)
      requires Keyed(windows, WindowId)
      modifies this`windows
      ensures windows == map k | k in old(windows) :: if old(windows)[k].id == id then change(old(windows)[k]) else old(windows)[k]
    {
      var rest := windows.Keys;
      while rest != {}
        invariant rest <= windows.Keys && windows == old(windows)
        invariant forall k <- windows :: k !in rest ==> windows[k].id != id
      {
        var k :| k in rest;
        if windows[k].id == id {
          assert forall j <- windows :: windows[j].id == id ==> j == k by {
            assert forall j <- windows :: WindowId(windows[j]) == windows[j].id == j;
          }
          windows := windows[k := change(windows[k])];
          return;
        }
        rest := rest - {k};
      }
    }

    method ApplyWorkspaces(event: Event) returns (outcome: Outcome)
      modifies this`workspaces
      ensures outcome == OutcomeOf(ApplyToWorkspaces(old(workspaces), event))
      ensures outcome.Consumed? ==> workspaces == ApplyToWorkspaces(old(workspaces), event).state
      ensures outcome.Passed? ==> workspaces == old(workspaces)
    {
      outcome := Consumed;
      match event
      case WorkspacesChanged(values) => workspaces := Collect(values, WorkspaceId);
      case WorkspaceUrgencyChanged(id, urgent) =>
        ForEachWorkspace((w: Workspace) => if w.id == id then w.(isUrgent := urgent) else w);
      case WorkspaceActivated(id, focused) =>
        if id !in workspaces {
          return Panicked;
        }
        var output := workspaces[id].output;
        ForEachWorkspace((w: Workspace) =>
          w.(isActive := if w.output == output then w.id == id else w.isActive,
             isFocused := if focused then w.id == id else w.isFocused));
      case WorkspaceActiveWindowChanged(id, activeWindow) =>
        if id !in workspaces {
          return Panicked;
        }
        workspaces := workspaces[id := workspaces[id].(activeWindow := activeWindow)];
      case _ => outcome := Passed;
    }

    method ChangeWindowLayouts(changes: seq<(Id, Opaque)>) returns (outcome: Outcome)
      modifies this`windows
      ensures outcome == OutcomeOf(ChangeLayouts(old(windows), changes)) && !outcome.Passed?
      ensures outcome.Consumed? ==> windows == ChangeLayouts(old(windows), changes).state
    {
      var i := 0;
      ghost var all := ChangeLayouts(windows, changes);
      while i < |changes|
        invariant 0 <= i <= |changes|
        invariant ChangeLayouts(windows, changes[i..]) == all
      {
        var (id, layout) := changes[i];
        assert changes[i..][0] == changes[i] && changes[i..][1..] == changes[i + 1..];
        if id !in windows {
          return Panicked;
        }
        windows := windows[id := windows[id].(layout := layout)];
        i := i + 1;
      }
      outcome := Consumed;
    }

    method OpenOrChangeWindow(window: Window)
      modifies this`windows
      ensures windows == OpenOrChange(old(windows), window)
    {
      windows := windows[window.id := window];
      if window.isFocused {
        ForEachWindow((w: Window) => if w.id != window.id then w.(isFocused := false) else w);
      }
    }

    method ApplyWindows(event: Event) returns (outcome: Outcome)
      requires Keyed(windows, WindowId)
      modifies this`windows
      ensures outcome == OutcomeOf(ApplyToWindows(old(windows), event))
      ensures outcome.Consumed? ==> windows == ApplyToWindows(old(windows), event).state
      ensures outcome.Passed? ==> windows == old(windows)
    {
      outcome := Consumed;
      match event
      case WindowsChanged(values) => windows := Collect(values, WindowId);
      case WindowOpenedOrChanged(window) => OpenOrChangeWindow(window);
      case WindowClosed(id) =>
        if id !in windows {
          return Panicked;
        }
        windows := windows - {id};
      case WindowLayoutsChanged(changes) => outcome := ChangeWindowLayouts(changes);
      case _ => outcome := UpdateWindows(event);
    }

    /** The events that only update fields of windows already there. */
    method UpdateWindows(event: Event) returns (outcome: Outcome)
      requires Keyed(windows, WindowId)
      requires !event.WindowsChanged? && !event.WindowOpenedOrChanged? && !event.WindowClosed? && !event.WindowLayoutsChanged?
      modifies this`windows
      ensures outcome == OutcomeOf(ApplyToWindows(old(windows), event))
      ensures outcome.Consumed? ==> windows == ApplyToWindows(old(windows), event).state
      ensures outcome.Passed? ==> windows == old(windows)
    {
      outcome := Consumed;
      match event
      case WindowFocusChanged(focus) => ForEachWindow((w: Window) => w.(isFocused := Some(w.id) == focus));
      case WindowFocusTimestampChanged(id, timestamp) =>
        ForFirstWindow(id, (w: Window) => w.(focusTimestamp := timestamp));
      case WindowUrgencyChanged(id, urgent) => ForFirstWindow(id, (w: Window) => w.(isUrgent := urgent));
      case _ => outcome := Passed;
    }

    method ApplyLayouts(event: Event) returns (outcome: Outcome)
      modifies this`layouts
      ensures outcome == OutcomeOf(ApplyToLayouts(old(layouts), event))
      ensures outcome.Consumed? ==> layouts == ApplyToLayouts(old(layouts), event).state
      ensures outcome.Passed? ==> layouts == old(layouts)
    {
      outcome := Consumed;
      match event
      case KeyboardLayoutsChanged(value) => layouts := Some(value);
      case KeyboardLayoutSwitched(idx) =>
        if layouts.None? {
          return Panicked;
        }
        layouts := Some(layouts.value.(current := idx));
      case _ => outcome := Passed;
    }

    method ApplyCasts(event: Event) returns (outcome: Outcome)
      modifies this`casts
      ensures outcome == OutcomeOf(ApplyToCasts(old(casts), event))
      ensures outcome.Consumed? ==> casts == ApplyToCasts(old(casts), event).state
      ensures outcome.Passed? ==> casts == old(casts)
    {
      outcome := Consumed;
      match event
      case CastsChanged(values) => casts := Collect(values, CastId);
      case CastStartedOrChanged(cast) => casts := casts[cast.stream := cast];
      case CastStopped(stream) =>
        if stream !in casts {
          return Panicked;
        }
        casts := casts - {stream};
      case _ => outcome := Passed;
    }

    /** The parts after workspaces and windows. */
    method ApplyRest(event: Event) returns (outcome: Outcome)
      requires ApplyToWorkspaces(workspaces, event).Ignored? && ApplyToWindows(windows, event).Ignored?
      modifies this`layouts, this`overviewOpen, this`configFailed, this`casts
      ensures outcome == OutcomeOf(old(View()).Apply(event))
      ensures outcome.Consumed? ==> View() == old(View()).Apply(event).state
      ensures outcome.Passed? ==> View() == old(View())
    {
      outcome := ApplyLayouts(event);
      if outcome.Passed? {
        if event.OverviewOpenedOrClosed? {
          overviewOpen := event.isOpen;
          return Consumed;
        }
        if event.ConfigLoaded? {
          configFailed := event.failed;
          return Consumed;
        }
        outcome := ApplyCasts(event);
      }
    }

    /** The parts after workspaces. */
    method ApplyAfterWorkspaces(event: Event) returns (outcome: Outcome)
      requires ApplyToWorkspaces(workspaces, event).Ignored? && Keyed(windows, WindowId)
      modifies this
      ensures outcome == OutcomeOf(old(View()).Apply(event))
      ensures outcome.Consumed? ==> View() == old(View()).Apply(event).state
      ensures outcome.Passed? ==> View() == old(View())
    {
      outcome := ApplyWindows(event);
      if outcome.Passed? {
        outcome := ApplyRest(event);
      }
    }

    method Apply(event: Event) returns (outcome: Outcome)
      requires WellKeyed(View())
      modifies this
      ensures outcome == OutcomeOf(old(View()).Apply(event))
      ensures outcome.Consumed? ==> View() == old(View()).Apply(event).state && WellKeyed(View())
      ensures outcome.Passed? ==> View() == old(View())
    {
      if View().Apply(event).Taken? {
        ApplyKeepsKeys(View(), event);
      }
      outcome := ApplyWorkspaces(event);
      if outcome.Passed? {
        outcome := ApplyAfterWorkspaces(event);
      }
    }
  }
}
