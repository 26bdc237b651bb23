/** What a parsed configuration contains, in terms of the flattened include tree. */
module ConfigResults {
  import opened ConfigBinds
  import opened ConfigInclude
  import opened ConfigIncludeProofs

  /** Parsing reports no error exactly for a clean include tree; then the configuration is one left
      fold over its sections in preorder, the includes are listed in preorder, and the main file is
      not among them. */
  lemma ParseIsFoldOfTree(files: Files, nodes: seq<Node>, path: Path)
    ensures Parse(files, nodes, path).ok <==> CleanTree(files, nodes, path, 0, {path})
    ensures Parse(files, nodes, path).ok ==>
              && Parse(files, nodes, path) == Fold(START, Flatten(files, nodes, path, 0)).(includes := Included(files, nodes, path, 0))
              && path !in Included(files, nodes, path, 0)
  {
    EvaluateOkIff(files, nodes, path, 0, {path}, {}, START);
    if Parse(files, nodes, path).ok {
      EvaluateIsFold(files, nodes, path, 0, {path}, {}, START);
      assert START.includes + Included(files, nodes, path, 0) == Included(files, nodes, path, 0);
    }
  }

  function BindPart(t: Tagged): seq<seq<Bind>> {
    if t.node.BindsSection? then [DecodeBinds(t.node.children).0] else []
  }

  function MruPart(t: Tagged): seq<seq<Bind>> {
    if t.node.RecentWindows? && t.node.binds.Some? then [DecodeBinds(t.node.binds.value).0] else []
  }

  /** The decoded ordinary binds sections, in order. */
  function BindParts(sections: seq<Tagged>): seq<seq<Bind>> {
    if sections == [] then [] else BindPart(sections[0]) + BindParts(sections[1..])
  }

  /** The decoded window-switcher binds sections, in order. */
  function MruParts(sections: seq<Tagged>): seq<seq<Bind>> {
    if sections == [] then [] else MruPart(sections[0]) + MruParts(sections[1..])
  }

  lemma {:induction false} MergeAllConcat(binds: seq<Bind>, a: seq<seq<Bind>>, b: seq<seq<Bind>>)
    ensures MergeAll(binds, a + b) == MergeAll(MergeAll(binds, a), b)
    decreases |b|
  {
    if b == [] {
      assert a + b == a;
    } else {
      assert (a + b)[..|a + b| - 1] == a + b[..|b| - 1];
      MergeAllConcat(binds, a, b[..|b| - 1]);
    }
  }

  lemma MergeAllOne(binds: seq<Bind>, part: seq<Bind>)
    ensures MergeAll(binds, [part]) == Merge(binds, part)
  {
  }

  lemma {:induction false} FoldMergesBinds(e: Evaluation, sections: seq<Tagged>)
    ensures Fold(e, sections).config.binds == MergeAll(e.config.binds, BindParts(sections))
    decreases sections
  {
    if sections != [] {
      var t := sections[0];
      var e' := MergeNode(e, t.node, t.depth);
      assert e'.config.binds == MergeAll(e.config.binds, BindPart(t)) by {
        if t.node.BindsSection? {
          MergeAllOne(e.config.binds, DecodeBinds(t.node.children).0);
        }
      }
      FoldMergesBinds(e', sections[1..]);
      MergeAllConcat(e.config.binds, BindPart(t), BindParts(sections[1..]));
    }
  }

  /** The window-switcher bindings after further sections, given whether one was seen before. */
  function MruAfter(saw: bool, binds: seq<Bind>, parts: seq<seq<Bind>>): seq<Bind> {
    if parts == [] then binds else MergeAll(if saw then binds else [], parts)
  }

  lemma MruAfterConcat(saw: bool, binds: seq<Bind>, a: seq<seq<Bind>>, b: seq<seq<Bind>>)
    ensures MruAfter(saw, binds, a + b) == MruAfter(saw || a != [], MruAfter(saw, binds, a), b)
  {
    if a == [] {
      assert a + b == b;
    } else if b == [] {
      assert a + b == a;
    } else {
      MergeAllConcat(if saw then binds else [], a, b);
    }
  }

  lemma NodeMergesMruBinds(e: Evaluation, t: Tagged)
    ensures var e' := MergeNode(e, t.node, t.depth);
      && e'.config.mruBinds == MruAfter(e.sawMruBinds, e.config.mruBinds, MruPart(t))
      && e'.sawMruBinds == (e.sawMruBinds || MruPart(t) != [])
  {
    if t.node.RecentWindows? && t.node.binds.Some? {
      MergeAllOne(if e.sawMruBinds then e.config.mruBinds else [], DecodeBinds(t.node.binds.value).0);
    }
  }

  lemma {:induction false} FoldMergesMruBinds(e: Evaluation, sections: seq<Tagged>)
    ensures Fold(e, sections).config.mruBinds == MruAfter(e.sawMruBinds, e.config.mruBinds, MruParts(sections))
    decreases sections
  {
    if sections != [] {
      var t := sections[0];
      NodeMergesMruBinds(e, t);
      FoldMergesMruBinds(MergeNode(e, t.node, t.depth), sections[1..]);
      MruAfterConcat(e.sawMruBinds, e.config.mruBinds, MruPart(t), MruParts(sections[1..]));
    }
  }

  lemma {:induction false} PartsAreDistinct(sections: seq<Tagged>)
    ensures forall part <- BindParts(sections) + MruParts(sections) :: DistinctKeys(part)
  {
    if sections != [] {
      PartsAreDistinct(sections[1..]);
      var node := sections[0].node;
      DecodeBindsIff(if node.BindsSection? then node.children else if node.RecentWindows? && node.binds.Some? then node.binds.value else []);
    }
  }

  /** A binding is in effect exactly if it stands in the last section, in preorder over the include
      tree, that binds its key; and no key is bound twice. The same holds for the window switcher,
      whose built-in bindings count only while no section of the tree binds anything there. */
  lemma BindsInEffectIff(files: Files, nodes: seq<Node>, path: Path)
    requires Parse(files, nodes, path).ok
    ensures var config, sections := Parse(files, nodes, path).config, Flatten(files, nodes, path, 0);
      var parts, mru := BindParts(sections), MruParts(sections);
      && DistinctKeys(config.binds) && DistinctKeys(config.mruBinds)
      && config.binds == Survivors(parts, |parts|)
      && config.mruBinds == (if mru == [] then DefaultBinds() else Survivors(mru, |mru|))
      && (forall b: Bind :: b in config.binds <==>
            exists i | 0 <= i < |parts| :: b in parts[i] && !Later(parts, i + 1, b.key))
  {
    ParseIsFoldOfTree(files, nodes, path);
    var sections := Flatten(files, nodes, path, 0);
    var parts, mru := BindParts(sections), MruParts(sections);
    FoldMergesBinds(START, sections);
    FoldMergesMruBinds(START, sections);
    PartsAreDistinct(sections);
    assert forall part <- parts :: part in parts + mru;
    assert forall part <- mru :: part in parts + mru;
    BindInEffectIff([], parts);
    BindInEffectIff([], mru);
    MergingKeepsSurvivors(parts);
    MergingKeepsSurvivors(mru);
    DefaultBindsAreDistinct();
  }

  function LayoutPartOf(t: Tagged): seq<LayoutPart> {
    if t.node.Layout? then [AdjustBorder(t.node.layout, t.depth)] else []
  }

  /** The parts merged into the layout, in order. */
  function LayoutParts(sections: seq<Tagged>): seq<LayoutPart> {
    if sections == [] then [] else LayoutPartOf(sections[0]) + LayoutParts(sections[1..])
  }

  lemma {:induction false} FoldMergesLayout(e: Evaluation, sections: seq<Tagged>)
    ensures Fold(e, sections).config.layout == e.config.layout + LayoutParts(sections)
    decreases sections
  {
    if sections == [] {
      assert e.config.layout + [] == e.config.layout;
    } else {
      var t := sections[0];
      var e' := MergeNode(e, t.node, t.depth);
      assert e'.config.layout == e.config.layout + LayoutPartOf(t);
      FoldMergesLayout(e', sections[1..]);
      assert e.config.layout + LayoutPartOf(t) + LayoutParts(sections[1..]) == e.config.layout + (LayoutPartOf(t) + LayoutParts(sections[1..]));
    }
  }

  /** Whether borders are off after merging layout parts: off by default, and a part that says both
      turns them on. */
  function BorderOff(parts: seq<LayoutPart>): bool {
    if parts == [] then true
    else
      var last := parts[|parts| - 1].border;
      if last.None? then BorderOff(parts[..|parts| - 1])
      else !last.value.on && (last.value.off || BorderOff(parts[..|parts| - 1]))
  }

  predicate TurnsOn(t: Tagged) {
    t.node.Layout? && t.node.layout.border.Some? &&
    (t.node.layout.border.value.on || (t.depth == 0 && !t.node.layout.border.value.off))
  }

  predicate TurnsOff(t: Tagged) {
    t.node.Layout? && t.node.layout.border.Some? && !t.node.layout.border.value.on && t.node.layout.border.value.off
  }

  predicate OnAfter(sections: seq<Tagged>) {
    exists i | 0 <= i < |sections| :: TurnsOn(sections[i]) && forall j | i < j < |sections| :: !TurnsOff(sections[j])
  }

  lemma OnAfterExtends(init: seq<Tagged>, last: Tagged)
    ensures OnAfter(init + [last]) <==> TurnsOn(last) || (OnAfter(init) && !TurnsOff(last))
  {
    var sections := init + [last];
    if OnAfter(init) && !TurnsOff(last) {
      var i :| 0 <= i < |init| && TurnsOn(init[i]) && forall j | i < j < |init| :: !TurnsOff(init[j]);
      assert TurnsOn(sections[i]);
    }
    if OnAfter(sections) && !TurnsOn(last) {
      var i :| 0 <= i < |sections| && TurnsOn(sections[i]) && forall j | i < j < |sections| :: !TurnsOff(sections[j]);
      assert TurnsOn(init[i]) && !TurnsOff(sections[|init|]);
      assert forall j | i < j < |init| :: !TurnsOff(init[j]) by {
        assert forall j | i < j < |init| :: init[j] == sections[j];
      }
    }
    if TurnsOn(last) {
      assert TurnsOn(sections[|init|]);
    }
  }

  lemma BorderOffExtends(parts: seq<LayoutPart>, t: Tagged)
    ensures !BorderOff(parts + LayoutPartOf(t)) <==> TurnsOn(t) || (!BorderOff(parts) && !TurnsOff(t))
  {
    if t.node.Layout? {
      var all := parts + LayoutPartOf(t);
      assert all[..|all| - 1] == parts;
    } else {
      assert parts + LayoutPartOf(t) == parts;
    }
  }

  lemma {:induction false} LayoutPartsExtend(sections: seq<Tagged>, t: Tagged)
    ensures LayoutParts(sections + [t]) == LayoutParts(sections) + LayoutPartOf(t)
  {
    if sections == [] {
      assert (sections + [t])[1..] == [];
    } else {
      assert (sections + [t])[1..] == sections[1..] + [t];
      LayoutPartsExtend(sections[1..], t);
    }
  }

  lemma {:induction false} BorderOnIff(sections: seq<Tagged>)
    ensures !BorderOff(LayoutParts(sections)) <==> OnAfter(sections)
  {
    if sections != [] {
      var init, last := sections[..|sections| - 1], sections[|sections| - 1];
      assert sections == init + [last];
      BorderOnIff(init);
      LayoutPartsExtend(init, last);
      BorderOffExtends(LayoutParts(init), last);
      OnAfterExtends(init, last);
    }
  }

  /** Borders end up on exactly if some layout section turns them on and no later one turns them
      off, where an empty border section turns them on in the main file only. */
  lemma BordersOnIff(files: Files, nodes: seq<Node>, path: Path)
    requires Parse(files, nodes, path).ok
    ensures !BorderOff(Parse(files, nodes, path).config.layout) <==> OnAfter(Flatten(files, nodes, path, 0))
  {
    ParseIsFoldOfTree(files, nodes, path);
    FoldMergesLayout(START, Flatten(files, nodes, path, 0));
    BorderOnIff(Flatten(files, nodes, path, 0));
    assert [] + LayoutParts(Flatten(files, nodes, path, 0)) == LayoutParts(Flatten(files, nodes, path, 0));
  }

  /** The parts of the sections with one name, in order. */
  function PartsOf(sections: seq<Tagged>, name: Name): seq<Part> {
    if sections == [] then []
    else
      var node := sections[0].node;
      (if node.Section? && node.name == name then [node.part] else []) + PartsOf(sections[1..], name)
  }

  function Recorded(config: Config, name: Name): seq<Part> {
    if name in config.sections then config.sections[name] else []
  }

  lemma {:induction false} FoldRecordsParts(e: Evaluation, sections: seq<Tagged>, name: Name)
    ensures Recorded(Fold(e, sections).config, name) == Recorded(e.config, name) + PartsOf(sections, name)
    decreases sections
  {
    if sections == [] {
      assert Recorded(e.config, name) + [] == Recorded(e.config, name);
    } else {
      var t := sections[0];
      var e' := MergeNode(e, t.node, t.depth);
      var first := if t.node.Section? && t.node.name == name then [t.node.part] else [];
      assert Recorded(e'.config, name) == Recorded(e.config, name) + first;
      FoldRecordsParts(e', sections[1..], name);
      assert Recorded(e.config, name) + first + PartsOf(sections[1..], name) == Recorded(e.config, name) + (first + PartsOf(sections[1..], name));
    }
  }

  /** Every other field has received exactly the parts of its sections, in preorder over the tree. */
  lemma SectionsArePositional(files: Files, nodes: seq<Node>, path: Path, name: Name)
    requires Parse(files, nodes, path).ok
    ensures Recorded(Parse(files, nodes, path).config, name) == PartsOf(Flatten(files, nodes, path, 0), name)
  {
    ParseIsFoldOfTree(files, nodes, path);
    FoldRecordsParts(START, Flatten(files, nodes, path, 0), name);
    assert [] + PartsOf(Flatten(files, nodes, path, 0), name) == PartsOf(Flatten(files, nodes, path, 0), name);
  }

  /** Watching the main file and the reported includes is enough to notice every change. */
  lemma WatchListSuffices(a: Files, b: Files, nodes: seq<Node>, path: Path)
    requires AgreeOn(a, b, Parse(a, nodes, path).includes)
    ensures Parse(b, nodes, path) == Parse(a, nodes, path)
  {
    IncludesAreAllThatMatters(a, b, nodes, path, 0, {path}, {}, START);
  }
}
