/** Key bindings in the configuration: decoding one section, and merging the sections of several
    files, where a later section replaces the bindings of the keys it mentions. */
module ConfigBinds {

  datatype Modifier = Ctrl | Shift | Alt | Super | IsoLevel3Shift | IsoLevel5Shift | Compositor

  datatype Trigger = Keysym(sym: nat) | Mouse(button: nat) | WheelScroll(direction: nat) | TouchpadScroll(direction: nat)

  datatype Key = Key(trigger: Trigger, modifiers: set<Modifier>)

  /** `rest` is the action with its options. */
  datatype Bind = Bind(key: Key, rest: nat)

  /** A child node of a binds section: a binding, or a node that does not decode. `clean` tells
      that decoding reported no error on the way. */
  datatype Child = Decoded(bind: Bind, clean: bool) | Malformed

  predicate DistinctKeys(binds: seq<Bind>) {
    forall i, j | 0 <= i < j < |binds| :: binds[i].key != binds[j].key
  }

  predicate HasKey(binds: seq<Bind>, key: Key) {
    exists b <- binds :: b.key == key
  }

  /** Of several bindings of one key in a section the first stays and the others are errors. */
  function DecodeBinds(children: seq<Child>): (seq<Bind>, bool) {
    if children == [] then ([], true)
    else
      var (binds, ok) := DecodeBinds(children[..|children| - 1]);
      match children[|children| - 1]
      case Malformed => (binds, false)
      case Decoded(bind, clean) =>
        if HasKey(binds, bind.key) then (binds, false) else (binds + [bind], ok && clean)
  }

  predicate AllClean(children: seq<Child>) {
    forall c <- children :: c.Decoded? && c.clean
  }

  /** No key is bound by two children. */
  predicate NoRepeats(children: seq<Child>) {
    forall i, j | 0 <= i < j < |children| ::
      children[i].Decoded? && children[j].Decoded? ==> children[i].bind.key != children[j].bind.key
  }

  lemma {:induction false} DecodedAreDistinct(children: seq<Child>)
    ensures DistinctKeys(DecodeBinds(children).0)
    ensures forall c <- children :: c.Decoded? ==> HasKey(DecodeBinds(children).0, c.bind.key)
  {
    if children != [] {
      var init, last := children[..|children| - 1], children[|children| - 1];
      DecodedAreDistinct(init);
      assert children == init + [last];
      var binds := DecodeBinds(init).0;
      if last.Decoded? && !HasKey(binds, last.bind.key) {
        HasKeyExtends(binds, last.bind);
      }
    }
  }

  /** Every child's binding was kept, in order. */
  predicate AllKept(children: seq<Child>, binds: seq<Bind>) {
    |binds| == |children| && forall i | 0 <= i < |children| :: children[i].Decoded? && binds[i] == children[i].bind
  }

  lemma {:induction false} DecodeOkIff(children: seq<Child>)
    ensures DecodeBinds(children).1 <==> AllClean(children) && NoRepeats(children)
    ensures DecodeBinds(children).1 ==> AllKept(children, DecodeBinds(children).0)
  {
    if children != [] {
      var init, last := children[..|children| - 1], children[|children| - 1];
      DecodeOkIff(init);
      assert children == init + [last];
      assert AllClean(children) <==> AllClean(init) && last.Decoded? && last.clean;
      PrefixRepeatsLess(init, last);
      if DecodeBinds(init).1 && last.Decoded? {
        RepeatsIff(init, last, DecodeBinds(init).0);
      }
    }
  }

  lemma PrefixRepeatsLess(init: seq<Child>, last: Child)
    ensures NoRepeats(init + [last]) ==> NoRepeats(init)
  {
    var children := init + [last];
    if NoRepeats(children) {
      forall i, j | 0 <= i < j < |init| && init[i].Decoded? && init[j].Decoded? ensures init[i].bind.key != init[j].bind.key {
        assert children[i] == init[i] && children[j] == init[j];
      }
    }
  }

  lemma RepeatsIff(init: seq<Child>, last: Child, binds: seq<Bind>)
    requires AllKept(init, binds) && NoRepeats(init) && last.Decoded?
    ensures NoRepeats(init + [last]) <==> !HasKey(binds, last.bind.key)
  {
    var children := init + [last];
    if HasKey(binds, last.bind.key) {
      var i :| 0 <= i < |binds| && binds[i].key == last.bind.key;
      assert children[i].bind.key == children[|init|].bind.key;
    } else {
      forall i | 0 <= i < |init| ensures children[i].bind.key != last.bind.key {
        assert binds[i] in binds;
      }
    }
  }

  /** The bindings decoded from a section have distinct keys, and no error is reported exactly if
      every child decodes cleanly and no key is repeated; then all of them are kept. */
  lemma DecodeBindsIff(children: seq<Child>)
    ensures DistinctKeys(DecodeBinds(children).0)
    ensures DecodeBinds(children).1 <==> AllClean(children) && NoRepeats(children)
    ensures DecodeBinds(children).1 ==> AllKept(children, DecodeBinds(children).0)
    ensures forall c <- children :: c.Decoded? ==> HasKey(DecodeBinds(children).0, c.bind.key)
  {
    DecodedAreDistinct(children);
    DecodeOkIff(children);
  }

  /** The loop of `Binds::decode_node` and of `MruBinds::decode_node`. */
  method DecodeBindsLoop(children: seq<Child>) returns (binds: seq<Bind>, ok: bool)
    ensures (binds, ok) == DecodeBinds(children)
  {
    var seen: set<Key> := {};
    binds, ok := [], true;
    var i := 0;
    while i < |children|
      invariant 0 <= i <= |children|
      invariant (binds, ok) == DecodeBinds(children[..i])
      invariant forall key: Key :: key in seen <==> HasKey(binds, key)
    {
      assert children[..i + 1][..i] == children[..i];
      match children[i] {
        case Malformed => ok := false;
        case Decoded(bind, clean) =>
          if bind.key in seen {
            ok := false;
          } else {
            HasKeyExtends(binds, bind);
            seen := seen + {bind.key};
            binds := binds + [bind];
            ok := ok && clean;
          }
      }
      i := i + 1;
    }
    assert children[..i] == children;
  }

  lemma HasKeyExtends(binds: seq<Bind>, bind: Bind)
    ensures forall key: Key :: HasKey(binds + [bind], key) <==> HasKey(binds, key) || key == bind.key
  {
  }

  function Without(binds: seq<Bind>, part: seq<Bind>): seq<Bind> {
    if binds == [] then []
    else (if HasKey(part, binds[0].key) then [] else [binds[0]]) + Without(binds[1..], part)
  }

  /** Removes the bindings whose key the part mentions, then adds those of the part. */
  function Merge(binds: seq<Bind>, part: seq<Bind>): seq<Bind> {
    Without(binds, part) + part
  }

  function MergeAll(binds: seq<Bind>, parts: seq<seq<Bind>>): seq<Bind> {
    if parts == [] then binds else Merge(MergeAll(binds, parts[..|parts| - 1]), parts[|parts| - 1])
  }

  /** Some part from the `from`-th on mentions the key. */
  predicate Later(parts: seq<seq<Bind>>, from: nat, key: Key) {
    exists j | from <= j < |parts| :: HasKey(parts[j], key)
  }

  function NotLater(binds: seq<Bind>, parts: seq<seq<Bind>>, from: nat): seq<Bind> {
    if binds == [] then []
    else (if Later(parts, from, binds[0].key) then [] else [binds[0]]) + NotLater(binds[1..], parts, from)
  }

  /** The reference: every part in turn, without the bindings a later part replaces. */
  function Survivors(parts: seq<seq<Bind>>, n: nat): seq<Bind>
    requires n <= |parts|
  {
    if n == 0 then [] else Survivors(parts, n - 1) + NotLater(parts[n - 1], parts, n)
  }

  lemma {:induction false} WithoutConcat(a: seq<Bind>, b: seq<Bind>, part: seq<Bind>)
    ensures Without(a + b, part) == Without(a, part) + Without(b, part)
  {
    if a == [] {
      assert a + b == b;
    } else {
      assert (a + b)[1..] == a[1..] + b;
      WithoutConcat(a[1..], b, part);
    }
  }

  lemma {:induction false} NotLaterSteps(binds: seq<Bind>, parts: seq<seq<Bind>>, part: seq<Bind>, from: nat)
    requires from <= |parts|
    ensures Without(NotLater(binds, parts, from), part) == NotLater(binds, parts + [part], from)
  {
    if binds != [] {
      var key, all := binds[0].key, parts + [part];
      assert Later(all, from, key) <==> Later(parts, from, key) || HasKey(part, key) by {
        if Later(parts, from, key) {
          var j :| from <= j < |parts| && HasKey(parts[j], key);
          assert HasKey(all[j], key);
        }
        assert all[|parts|] == part;
      }
      NotLaterSteps(binds[1..], parts, part, from);
      WithoutConcat(if Later(parts, from, key) then [] else [binds[0]], NotLater(binds[1..], parts, from), part);
    }
  }

  lemma {:induction false} SurvivorsStep(parts: seq<seq<Bind>>, part: seq<Bind>, n: nat)
    requires n <= |parts|
    ensures Without(Survivors(parts, n), part) == Survivors(parts + [part], n)
  {
    if n > 0 {
      assert (parts + [part])[n - 1] == parts[n - 1];
      SurvivorsStep(parts, part, n - 1);
      WithoutConcat(Survivors(parts, n - 1), NotLater(parts[n - 1], parts, n), part);
      NotLaterSteps(parts[n - 1], parts, part, n);
    }
  }

  lemma {:induction false} NotLaterAtEnd(binds: seq<Bind>, parts: seq<seq<Bind>>)
    ensures NotLater(binds, parts, |parts|) == binds
  {
    if binds != [] {
      NotLaterAtEnd(binds[1..], parts);
    }
  }

  /** Merging sections one after the other leaves exactly the bindings no later section replaces,
      in the order of the sections. */
  lemma {:induction false} MergingKeepsSurvivors(parts: seq<seq<Bind>>)
    ensures MergeAll([], parts) == Survivors(parts, |parts|)
  {
    if parts != [] {
      var init, last := parts[..|parts| - 1], parts[|parts| - 1];
      MergingKeepsSurvivors(init);
      assert parts == init + [last];
      SurvivorsStep(init, last, |init|);
      NotLaterAtEnd(last, parts);
    }
  }

  lemma {:induction false} WithoutIff(binds: seq<Bind>, part: seq<Bind>)
    ensures forall b: Bind :: b in Without(binds, part) <==> b in binds && !HasKey(part, b.key)
    ensures DistinctKeys(binds) ==> DistinctKeys(Without(binds, part))
  {
    if binds != [] {
      WithoutIff(binds[1..], part);
      assert binds == [binds[0]] + binds[1..];
      assert DistinctKeys(binds) ==> DistinctKeys(binds[1..]) && forall b <- binds[1..] :: b.key != binds[0].key;
    }
  }

  /** The binding comes from the last part that mentions its key, or from `start` if none does. */
  predicate ComesLast(start: seq<Bind>, parts: seq<seq<Bind>>, b: Bind) {
    || (b in start && !Later(parts, 0, b.key))
    || (exists i | 0 <= i < |parts| :: b in parts[i] && !Later(parts, i + 1, b.key))
  }

  lemma {:induction false} MergedIff(start: seq<Bind>, parts: seq<seq<Bind>>, b: Bind)
    ensures b in MergeAll(start, parts) <==> ComesLast(start, parts, b)
  {
    if parts != [] {
      var init, last := parts[..|parts| - 1], parts[|parts| - 1];
      MergedIff(start, init, b);
      WithoutIff(MergeAll(start, init), last);
      assert parts == init + [last];
      LaterExtends(init, last, b);
    }
  }

  lemma {:induction false} MergedAreDistinct(start: seq<Bind>, parts: seq<seq<Bind>>)
    requires DistinctKeys(start) && forall part <- parts :: DistinctKeys(part)
    ensures DistinctKeys(MergeAll(start, parts))
  {
    if parts != [] {
      var init, last := parts[..|parts| - 1], parts[|parts| - 1];
      MergedAreDistinct(start, init);
      WithoutIff(MergeAll(start, init), last);
      DistinctConcat(Without(MergeAll(start, init), last), last);
    }
  }

  /** Merging distinct sections into distinct bindings keeps keys distinct, and a binding is in
      effect exactly if it comes from the last section that mentions its key, or from the initial
      bindings if none does. */
  lemma BindInEffectIff(start: seq<Bind>, parts: seq<seq<Bind>>)
    requires DistinctKeys(start) && forall part <- parts :: DistinctKeys(part)
    ensures DistinctKeys(MergeAll(start, parts))
    ensures forall b: Bind :: b in MergeAll(start, parts) <==> ComesLast(start, parts, b)
  {
    MergedAreDistinct(start, parts);
    forall b: Bind ensures b in MergeAll(start, parts) <==> ComesLast(start, parts, b) {
      MergedIff(start, parts, b);
    }
  }

  lemma LaterExtends(init: seq<seq<Bind>>, last: seq<Bind>, b: Bind)
    ensures var parts := init + [last];
      && (Later(parts, 0, b.key) <==> Later(init, 0, b.key) || HasKey(last, b.key))
      && ((exists i | 0 <= i < |parts| :: b in parts[i] && !Later(parts, i + 1, b.key)) <==>
            || b in last
            || (!HasKey(last, b.key) && exists i | 0 <= i < |init| :: b in init[i] && !Later(init, i + 1, b.key)))
  {
    var parts := init + [last];
    forall i | 0 <= i <= |init| ensures Later(parts, i, b.key) <==> Later(init, i, b.key) || HasKey(last, b.key) {
      if Later(init, i, b.key) {
        var j :| i <= j < |init| && HasKey(init[j], b.key);
        assert HasKey(parts[j], b.key);
      }
      assert parts[|init|] == last;
    }
    if b in last {
      assert b in parts[|init|] && !Later(parts, |init| + 1, b.key);
    }
    if i :| 0 <= i < |init| && b in init[i] && !Later(init, i + 1, b.key) && !HasKey(last, b.key) {
      assert b in parts[i] && !Later(parts, i + 1, b.key);
    }
    if i :| 0 <= i < |parts| && b in parts[i] && !Later(parts, i + 1, b.key) && b !in last {
      assert b in init[i] && !Later(init, i + 1, b.key);
    }
  }

  lemma DistinctConcat(a: seq<Bind>, b: seq<Bind>)
    requires DistinctKeys(a) && DistinctKeys(b) && forall x <- a :: !HasKey(b, x.key)
    ensures DistinctKeys(a + b)
  {
  }

  const TAB: Trigger := Keysym(0xff09)
  const GRAVE: Trigger := Keysym(0x60)

  /** The four built-in bindings of the window switcher for one base modifier: forward and
      backward through all windows, and through those of one application. */
  function DefaultBindsFor(baseMod: Modifier): seq<Bind> {
    [Bind(Key(TAB, {baseMod}), 0), Bind(Key(TAB, {baseMod, Shift}), 1),
     Bind(Key(GRAVE, {baseMod}), 2), Bind(Key(GRAVE, {baseMod, Shift}), 3)]
  }

  function DefaultBinds(): seq<Bind> {
    DefaultBindsFor(Alt) + DefaultBindsFor(Compositor)
  }

  lemma DefaultBindsAreDistinct()
    ensures DistinctKeys(DefaultBinds())
  {
    DefaultBindsForAreDistinct(Alt);
    DefaultBindsForAreDistinct(Compositor);
    DefaultBindsUse(Alt, Compositor);
    DefaultBindsUse(Compositor, Alt);
    DistinctConcat(DefaultBindsFor(Alt), DefaultBindsFor(Compositor));
  }

  lemma DefaultBindsUse(baseMod: Modifier, other: Modifier)
    requires other != baseMod && other != Shift
    ensures forall b <- DefaultBindsFor(baseMod) :: baseMod in b.key.modifiers && other !in b.key.modifiers
  {
  }

  lemma DefaultBindsForAreDistinct(baseMod: Modifier)
    requires baseMod != Shift
    ensures DistinctKeys(DefaultBindsFor(baseMod))
  {
  }
}
