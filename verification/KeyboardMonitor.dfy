/** Keyboard grabs by assistive technologies: which key events reach the compositor, while clients
    come, go and change their grabs. The D-Bus handlers and `process_key` each hold the lock on the
    data for their whole body, so a run is a sequence of these operations in any interleaving. */
module KeyboardMonitor {

  type Name = nat
  type Keysym = nat
  type Mods = nat

  /** Nanoseconds; `Duration` saturates at its largest value. */
  type Duration = nat

  const MAX_DURATION: Duration := 0x1_0000_0000_0000_0000 * 1_000_000_000 - 1

  function SaturatingAdd(a: Duration, b: Duration): Duration {
    if a + b > MAX_DURATION then MAX_DURATION else a + b
  }

  datatype Client = Client(watched: bool, grabbed: bool, modifiers: set<Keysym>, keystrokes: seq<(Keysym, Mods)>)
  {
    predicate ShouldGrab(suppressed: set<Keysym>, mods: Mods, keysym: Keysym) {
      || grabbed
      || (exists modifier <- modifiers :: modifier == keysym || modifier in suppressed)
      || (keysym, mods) in keystrokes
    }

    predicate ShouldWatch(suppressed: set<Keysym>, mods: Mods, keysym: Keysym) {
      watched || ShouldGrab(suppressed, mods, keysym)
    }
  }

  const NEW_CLIENT := Client(false, false, {}, [])

  datatype Verdict = Pass | ModifierFirstPress | Block

  datatype KeyEvent = KeyEvent(repeatDelay: Duration, time: Duration, released: bool, mods: Mods, keysym: Keysym)

  datatype Data = Data(
    clients: map<Name, Client>,
    grabbedMods: set<Keysym>,
    lastPress: map<Keysym, Duration>,
    suppressed: set<Keysym>)
  {
    function Entry(name: Name): Client {
      if name in clients then clients[name] else NEW_CLIENT
    }

    function Rebuilt(): Data {
      this.(grabbedMods := set name <- clients, modifier <- clients[name].modifiers :: modifier)
    }

    predicate GrabbedByAny(mods: Mods, keysym: Keysym) {
      exists name <- clients :: clients[name].ShouldGrab(suppressed, mods, keysym)
    }

    /** Some client lists the key as a modifier. */
    predicate IsModifier(keysym: Keysym) {
      exists name <- clients :: keysym in clients[name].modifiers
    }

    /** The clients that are sent a key event. */
    function Emitted(e: KeyEvent): set<Name> {
      set name <- clients | clients[name].ShouldWatch(suppressed, e.mods, e.keysym)
    }

    function LastPress(keysym: Keysym): Duration {
      if keysym in lastPress then lastPress[keysym] else 0
    }

    function Blocked(keysym: Keysym): Verdict {
      if keysym in grabbedMods then ModifierFirstPress else Block
    }

    function ProcessRelease(e: KeyEvent): (Data, Verdict) {
      if e.keysym in grabbedMods && e.keysym !in suppressed then (this, Pass)
      else if e.keysym in suppressed then (this.(suppressed := suppressed - {e.keysym}), Blocked(e.keysym))
      else (this, Pass)
    }

    function ProcessPress(e: KeyEvent): (Data, Verdict) {
      var d := if e.keysym in grabbedMods then this.(lastPress := lastPress[e.keysym := e.time]) else this;
      if e.keysym in grabbedMods && e.time <= SaturatingAdd(LastPress(e.keysym), e.repeatDelay) then (d, Pass)
      else if e.keysym in suppressed then (d, Blocked(e.keysym))
      else if GrabbedByAny(e.mods, e.keysym) then (d.(suppressed := suppressed + {e.keysym}), Blocked(e.keysym))
      else (d, Pass)
    }

    function ProcessKey(e: KeyEvent): (Data, Verdict) {
      if e.released then ProcessRelease(e) else ProcessPress(e)
    }

    function SetKeyGrabs(name: Name, modifiers: set<Keysym>, keystrokes: seq<(Keysym, Mods)>): Data {
      this.(clients := clients[name := Entry(name).(modifiers := modifiers, keystrokes := keystrokes)]).Rebuilt()
    }
  }

  const START := Data(map[], {}, map[], {})

  datatype Event =
    | Key(key: KeyEvent)
    | Grab(name: Name)
    | Ungrab(name: Name)
    | Watch(name: Name)
    | Unwatch(name: Name)
    | SetGrabs(name: Name, modifiers: set<Keysym>, keystrokes: seq<(Keysym, Mods)>)
    | Disappear(name: Name)
    | MonitorBroke
  {
    predicate Is(keysym: Keysym, released: bool) {
      Key? && key.keysym == keysym && key.released == released
    }

    predicate IsKey(keysym: Keysym) {
      Key? && key.keysym == keysym
    }
  }

  function Next(d: Data, event: Event): Data {
    match event
    case Key(e) => d.ProcessKey(e).0
    case Grab(name) => d.(clients := d.clients[name := d.Entry(name).(grabbed := true)])
    case Ungrab(name) => if name in d.clients then d.(clients := d.clients[name := d.clients[name].(grabbed := false)]) else d
    case Watch(name) => d.(clients := d.clients[name := d.Entry(name).(watched := true)])
    case Unwatch(name) => if name in d.clients then d.(clients := d.clients[name := d.clients[name].(watched := false)]) else d
    case SetGrabs(name, modifiers, keystrokes) => d.SetKeyGrabs(name, modifiers, keystrokes)
    case Disappear(name) => d.(clients := d.clients - {name}).Rebuilt()
    case MonitorBroke => d.(clients := map[]).Rebuilt()
  }

  function After(events: seq<Event>): Data {
    if events == [] then START else Next(After(events[..|events| - 1]), events[|events| - 1])
  }

  predicate IsBlocked(d: Data, e: KeyEvent) {
    d.ProcessKey(e).1 != Pass
  }

  // What runs keep

  ghost predicate ModsExact(d: Data) {
    forall k: Keysym :: k in d.grabbedMods <==> d.IsModifier(k)
  }

  lemma RebuiltIsExact(d: Data)
    ensures ModsExact(d.Rebuilt())
  {
  }

  /** `grabbed_mods` is always the union of the modifiers of the present clients. */
  lemma {:induction false} GrabbedModsAreClientMods(events: seq<Event>)
    ensures ModsExact(After(events))
  {
    if events != [] {
      var d, event := After(events[..|events| - 1]), events[|events| - 1];
      GrabbedModsAreClientMods(events[..|events| - 1]);
      match event
      case SetGrabs(name, modifiers, keystrokes) =>
        RebuiltIsExact(d.(clients := d.clients[name := d.Entry(name).(modifiers := modifiers, keystrokes := keystrokes)]));
      case Disappear(name) => RebuiltIsExact(d.(clients := d.clients - {name}));
      case MonitorBroke => RebuiltIsExact(d.(clients := map[]));
      case Key(e) => KeyKeepsClients(d, e);
      case _ =>
        var d' := Next(d, event);
        forall k: Keysym ensures k in d'.grabbedMods <==> d'.IsModifier(k) {
          SameModifiers(d, event, k);
        }
    }
  }

  lemma KeyKeepsClients(d: Data, e: KeyEvent)
    ensures d.ProcessKey(e).0.clients == d.clients && d.ProcessKey(e).0.grabbedMods == d.grabbedMods
  {
  }

  lemma SameModifiers(d: Data, event: Event, k: Keysym)
    requires event.Grab? || event.Ungrab? || event.Watch? || event.Unwatch?
    ensures Next(d, event).IsModifier(k) <==> d.IsModifier(k)
  {
    var d' := Next(d, event);
    if name :| name in d.clients && k in d.clients[name].modifiers {
      assert name in d'.clients && k in d'.clients[name].modifiers;
    }
    if name :| name in d'.clients && k in d'.clients[name].modifiers {
      assert name in d.clients && k in d.clients[name].modifiers;
    }
  }

  /** Some press of `k` since its last release was blocked. */
  predicate PressBlockedSinceRelease(events: seq<Event>, k: Keysym) {
    events != [] &&
    var before, last := events[..|events| - 1], events[|events| - 1];
    if last.Is(k, true) then false
    else PressBlockedSinceRelease(before, k) || (last.Is(k, false) && IsBlocked(After(before), last.key))
  }

  /** `suppressed_keys` holds exactly the keys with a blocked press since their last release. */
  lemma {:induction false} SuppressedIff(events: seq<Event>, k: Keysym)
    ensures k in After(events).suppressed <==> PressBlockedSinceRelease(events, k)
  {
    if events != [] {
      SuppressedIff(events[..|events| - 1], k);
    }
  }

  /** Whatever clients do meanwhile, a release is blocked exactly if some press since the previous
      release of that key was. */
  lemma ReleaseBlockedIff(events: seq<Event>, e: KeyEvent)
    requires e.released
    ensures IsBlocked(After(events), e) <==> PressBlockedSinceRelease(events, e.keysym)
  {
    SuppressedIff(events, e.keysym);
  }

  predicate NoKey(events: seq<Event>, k: Keysym) {
    forall event <- events :: !event.IsKey(k)
  }

  lemma {:induction false} OthersDoNotMatter(before: seq<Event>, others: seq<Event>, k: Keysym)
    requires NoKey(others, k)
    ensures PressBlockedSinceRelease(before + others, k) == PressBlockedSinceRelease(before, k)
  {
    if others == [] {
      assert before + others == before;
    } else {
      var all := before + others;
      assert all[|all| - 1] == others[|others| - 1] && others[|others| - 1] in others;
      assert all[..|all| - 1] == before + others[..|others| - 1];
      OthersDoNotMatter(before, others[..|others| - 1], k);
    }
  }

  /** The guard under which a press passes as the second press of a grabbed modifier, although the
      key is still held and blocked. */
  predicate PassesWhileHeld(d: Data, press: KeyEvent) {
    && press.keysym in d.suppressed && press.keysym in d.grabbedMods
    && press.time <= SaturatingAdd(d.LastPress(press.keysym), press.repeatDelay)
  }

  /** Whatever clients do in between, a release gets the verdict of the last press, unless that press
      passed as a second one of a modifier held and blocked. */
  lemma ReleaseMatchesPressIff(before: seq<Event>, press: KeyEvent, between: seq<Event>, release: KeyEvent)
    requires !press.released && release.released && release.keysym == press.keysym && NoKey(between, press.keysym)
    ensures (IsBlocked(After(before + [Key(press)] + between), release) <==> IsBlocked(After(before), press)) <==>
            !PassesWhileHeld(After(before), press)
  {
    var pressed := before + [Key(press)];
    assert pressed[..|pressed| - 1] == before;
    OthersDoNotMatter(pressed, between, press.keysym);
    ReleaseBlockedIff(pressed + between, release);
    SuppressedIff(before, press.keysym);
    PressedWhileHeld(After(before), press);
  }

  /** A press of a key held and blocked passes exactly under that guard. */
  lemma PressedWhileHeld(d: Data, press: KeyEvent)
    requires !press.released
    ensures press.keysym in d.suppressed ==> (IsBlocked(d, press) <==> !PassesWhileHeld(d, press))
  {
  }

  /** The last event of key `k`, if any, is a release. */
  predicate IsUp(events: seq<Event>, k: Keysym) {
    events == [] ||
    var before, last := events[..|events| - 1], events[|events| - 1];
    last.Is(k, true) || (!last.IsKey(k) && IsUp(before, k))
  }

  lemma {:induction false} UpIsNotBlocked(events: seq<Event>, k: Keysym)
    requires IsUp(events, k)
    ensures !PressBlockedSinceRelease(events, k)
  {
    if events != [] && !events[|events| - 1].IsKey(k) {
      UpIsNotBlocked(events[..|events| - 1], k);
    }
  }

  /** When a key is pressed once and then released, whatever clients grab, ungrab, appear or vanish
      in between, the release gets the same verdict as the press; and while the key is down it is
      suppressed exactly if its press was blocked. */
  lemma PressAndReleaseAgree(before: seq<Event>, press: KeyEvent, between: seq<Event>, release: KeyEvent)
    requires IsUp(before, press.keysym)
    requires !press.released && release.released && release.keysym == press.keysym && NoKey(between, press.keysym)
    ensures IsBlocked(After(before + [Key(press)] + between), release) <==> IsBlocked(After(before), press)
    ensures press.keysym in After(before + [Key(press)] + between).suppressed <==> IsBlocked(After(before), press)
  {
    UpIsNotBlocked(before, press.keysym);
    SuppressedIff(before, press.keysym);
    ReleaseMatchesPressIff(before, press, between, release);
    SuppressedIff(before + [Key(press)] + between, press.keysym);
    ReleaseBlockedIff(before + [Key(press)] + between, release);
  }

  /** The time of the last press of `k` made while it was a grabbed modifier, or zero. */
  function LastGrabbedPress(events: seq<Event>, k: Keysym): Duration {
    if events == [] then 0
    else
      var before, last := events[..|events| - 1], events[|events| - 1];
      if last.Is(k, false) && After(before).IsModifier(k)
      then last.key.time
      else LastGrabbedPress(before, k)
  }

  lemma {:induction false} LastPressIsRecorded(events: seq<Event>, k: Keysym)
    ensures After(events).LastPress(k) == LastGrabbedPress(events, k)
  {
    if events != [] {
      var before, last := events[..|events| - 1], events[|events| - 1];
      LastPressIsRecorded(before, k);
      GrabbedModsAreClientMods(before);
      NextRecordsPress(After(before), last, k);
    }
  }

  lemma NextRecordsPress(d: Data, event: Event, k: Keysym)
    requires ModsExact(d)
    ensures Next(d, event).LastPress(k) == if event.Is(k, false) && d.IsModifier(k) then event.key.time else d.LastPress(k)
  {
  }

  /** A press of a key that is up is blocked exactly if some client grabs it, except for a grabbed
      modifier within the repeat delay of its last recorded press, or of time zero if there is none;
      some client is then sent the event. The block counts as a modifier's first press exactly if some
      client lists the key as a modifier. */
  lemma PressBlockedIff(events: seq<Event>, e: KeyEvent)
    requires !e.released && IsUp(events, e.keysym)
    ensures var d := After(events);
      var modifier := d.IsModifier(e.keysym);
      var second := modifier && e.time <= SaturatingAdd(LastGrabbedPress(events, e.keysym), e.repeatDelay);
      && (IsBlocked(d, e) <==> d.GrabbedByAny(e.mods, e.keysym) && !second)
      && (IsBlocked(d, e) ==> d.Emitted(e) != {})
      && (d.ProcessKey(e).1 == ModifierFirstPress <==> IsBlocked(d, e) && modifier)
  {
    var d := After(events);
    UpIsNotBlocked(events, e.keysym);
    SuppressedIff(events, e.keysym);
    LastPressIsRecorded(events, e.keysym);
    GrabbedModsAreClientMods(events);
    if d.GrabbedByAny(e.mods, e.keysym) {
      var name :| name in d.clients && d.clients[name].ShouldGrab(d.suppressed, e.mods, e.keysym);
      assert name in d.Emitted(e);
    }
  }

  lemma HeldModifierGrabs(d: Data, name: Name, modifier: Keysym, e: KeyEvent)
    requires name in d.clients && modifier in d.clients[name].modifiers && modifier in d.suppressed
    ensures d.GrabbedByAny(e.mods, e.keysym) && name in d.Emitted(e)
  {
    assert d.clients[name].ShouldGrab(d.suppressed, e.mods, e.keysym);
  }

  /** Over every run, while one of a client's modifiers is down with a blocked press, every press of a
      key that is up is sent to that client, and is blocked unless the key is a grabbed modifier within
      the repeat delay of its last recorded press, or of time zero if there is none. */
  lemma HeldModifierTakesAllPresses(events: seq<Event>, name: Name, modifier: Keysym, e: KeyEvent)
    requires !e.released && IsUp(events, e.keysym) && PressBlockedSinceRelease(events, modifier)
    requires name in After(events).clients && modifier in After(events).clients[name].modifiers
    ensures name in After(events).Emitted(e)
    ensures IsBlocked(After(events), e) <==>
            !(After(events).IsModifier(e.keysym) && e.time <= SaturatingAdd(LastGrabbedPress(events, e.keysym), e.repeatDelay))
  {
    SuppressedIff(events, modifier);
    HeldModifierGrabs(After(events), name, modifier, e);
    PressBlockedIff(events, e);
  }

  /** Two presses of a grabbed modifier without a release between them, as from two keyboards: the
      first is blocked and the second passes, but the release after it is blocked. */
  lemma SecondKeyboardSplitsVerdicts()
    ensures exists before, press: KeyEvent, release: KeyEvent ::
              && !press.released && release.released && release.keysym == press.keysym
              && !IsBlocked(After(before), press)
              && IsBlocked(After(before + [Key(press)] + []), release)
  {
    var press := KeyEvent(10, 100, false, 0, 5);
    var grab: seq<Event> := [SetGrabs(0, {5}, [])];
    var before := grab + [Key(press)];
    assert After(grab) == Next(After(grab[..0]), grab[0]) == START.SetKeyGrabs(0, {5}, []);
    assert 0 in After(grab).clients && After(grab).clients[0].modifiers == {5};
    assert After(grab).grabbedMods == {5} && After(grab).LastPress(5) == 0;
    assert After(grab).clients[0].ShouldGrab({}, 0, 5);
    assert before[..1] == grab;
    assert After(before).suppressed == {5} && After(before).LastPress(5) == 100;
    var second, release := press.(time := 105), press.(released := true);
    var pressed := before + [Key(second)];
    assert pressed[..2] == before && pressed + [] == pressed;
    assert After(pressed).suppressed == {5};
    assert !IsBlocked(After(before), second) && IsBlocked(After(before + [Key(second)] + []), release);
  }

  // The operations in place

  class Monitor {
    var clients: map<Name, Client>
    var grabbedMods: set<Keysym>
    var lastPress: map<Keysym, Duration>
    var suppressed: set<Keysym>
    var emitted: set<Name>

    ghost function View(): Data
      reads this
    {
      Data(clients, grabbedMods, lastPress, suppressed)
    }

    method RebuildGrabbedMods()
      modifies this`grabbedMods
      ensures View() == old(View()).Rebuilt()
    {
      grabbedMods := {};
      var rest := clients.Keys;
      while rest != {}
        invariant rest <= clients.Keys
        invariant grabbedMods == set name <- clients.Keys - rest, modifier <- clients[name].modifiers :: modifier
      {
        var name :| name in rest;
        grabbedMods := grabbedMods + clients[name].modifiers;
        rest := rest - {name};
      }
    }

    method SetKeyGrabs(name: Name, modifiers: set<Keysym>, keystrokes: seq<(Keysym, Mods)>)
      modifies this
      ensures View() == Next(old(View()), SetGrabs(name, modifiers, keystrokes))
    {
      var client := if name in clients then clients[name] else NEW_CLIENT;
      clients := clients[name := client.(modifiers := modifiers, keystrokes := keystrokes)];
      RebuildGrabbedMods();
    }

    method ClientDisappeared(name: Name)
      modifies this
      ensures View() == Next(old(View()), Disappear(name))
    {
      clients := clients - {name};
      RebuildGrabbedMods();
    }

    method EmitKeyEvents(mods: Mods, keysym: Keysym)
      modifies this`emitted
      ensures forall name: Name :: name in emitted <==>
                name in clients && clients[name].ShouldWatch(suppressed, mods, keysym)
    {
      emitted := {};
      var rest := clients.Keys;
      while rest != {}
        invariant rest <= clients.Keys
        invariant forall name: Name :: name in emitted <==>
                    name in clients.Keys - rest && clients[name].ShouldWatch(suppressed, mods, keysym)
      {
        var name :| name in rest;
        if clients[name].ShouldWatch(suppressed, mods, keysym) {
          emitted := emitted + {name};
        }
        rest := rest - {name};
      }
    }

    method ProcessKey(e: KeyEvent) returns (verdict: Verdict)
      modifies this
      ensures (View(), verdict) == old(View()).ProcessKey(e)
      ensures emitted == old(View()).Emitted(e)
    {
      EmitKeyEvents(e.mods, e.keysym);
      if e.keysym in grabbedMods {
        if e.released {
          if e.keysym !in suppressed {
            return Pass;
          }
        } else {
          var last := if e.keysym in lastPress then lastPress[e.keysym] else 0;
          lastPress := lastPress[e.keysym := e.time];
          if e.time <= SaturatingAdd(last, e.repeatDelay) {
            return Pass;
          }
        }
      }
      var block := false;
      if e.released {
        if e.keysym in suppressed {
          suppressed := suppressed - {e.keysym};
          block := true;
        }
      } else if e.keysym in suppressed {
        block := true;
      } else if exists name <- clients :: clients[name].ShouldGrab(suppressed, e.mods, e.keysym) {
        suppressed := suppressed + {e.keysym};
        block := true;
      }
      verdict := if !block then Pass else if e.keysym in grabbedMods then ModifierFirstPress else Block;
    }
  }
}
