/** The evaluator in place: nested evaluations share and update one configuration. */
module ConfigLoader {
  import opened Wrappers
  import opened ConfigBinds
  import opened ConfigInclude

  class Loader {
    var config: Config
    var sawMruBinds: bool
    var includes: seq<Path>
    var ok: bool

    ghost function View(): Evaluation
      reads this
    {
      Evaluation(config, sawMruBinds, includes, ok)
    }

    constructor ()
      ensures View() == START
    {
      config, sawMruBinds, includes, ok := DEFAULT_CONFIG, false, [], true;
    }

    method EmitErrorUnless(clean: bool)
      modifies this`ok
      ensures View() == old(View()).Check(clean)
    {
      if !clean {
        ok := false;
      }
    }

    method MergeSection(node: Node, depth: nat)
      modifies this
      ensures View() == MergeNode(old(View()), node, depth)
    {
      match node
      case Section(name, _, part, clean) =>
        config := config.(sections := Append(config.sections, name, part));
        EmitErrorUnless(clean);
      case Layout(layout, clean) =>
        config := config.(layout := config.layout + [AdjustBorder(layout, depth)]);
        EmitErrorUnless(clean);
      case BindsSection(children) =>
        var binds, clean := DecodeBindsLoop(children);
        config := config.(binds := Merge(config.binds, binds));
        EmitErrorUnless(clean);
      case RecentWindows(settings, clean, binds) =>
        config := config.(mruSettings := config.mruSettings + [settings]);
        EmitErrorUnless(clean);
        if binds.Some? {
          var part, partClean := DecodeBindsLoop(binds.value);
          if !sawMruBinds {
            sawMruBinds := true;
            config := config.(mruBinds := []);
          }
          config := config.(mruBinds := Merge(config.mruBinds, part));
          EmitErrorUnless(partClean);
        }
      case _ =>
    }

    method DecodeChildren(files: Files, nodes: seq<Node>, path: Path, depth: nat, stack: set<Path>)
      requires depth < RECURSION_LIMIT
      modifies this
      ensures View() == Evaluate(files, nodes, path, depth, stack, {}, old(View()))
      decreases RECURSION_LIMIT - depth, 1
    {
      var seen: set<Name> := {};
      ghost var result := Evaluate(files, nodes, path, depth, stack, {}, View());
      var i := 0;
      while i < |nodes|
        invariant 0 <= i <= |nodes|
        invariant Evaluate(files, nodes[i..], path, depth, stack, seen, View()) == result
      {
        var node := nodes[i];
        assert nodes[i..][0] == node && nodes[i..][1..] == nodes[i + 1..];
        var name := node.SingleName();
        if name.Some? && name.value in seen {
          ok := false;
        } else {
          seen := if name.Some? then seen + {name.value} else seen;
          if node.Broken? {
            ok := false;
            return;
          } else if node.Unknown? {
            ok := false;
          } else if node.Include? {
            EmitErrorUnless(node.clean);
            DecodeInclude(files, node.argument, node.optional, path, depth, stack);
          } else {
            MergeSection(node, depth);
          }
        }
        i := i + 1;
      }
    }

    method DecodeInclude(files: Files, argument: nat, optional: bool, path: Path, depth: nat, stack: set<Path>)
      requires depth < RECURSION_LIMIT
      modifies this
      ensures View() == EvaluateInclude(files, argument, optional, path, depth, stack, old(View()))
      decreases RECURSION_LIMIT - depth, 0
    {
      var target := files.resolve(path, argument);
      if target.None? || depth + 1 == RECURSION_LIMIT || target.value in stack {
        ok := false;
        return;
      }
      includes := includes + [target.value];
      match files.read(target.value)
      case Parsed(nodes) => DecodeChildren(files, nodes, target.value, depth + 1, stack + {target.value});
      case Missing => EmitErrorUnless(optional);
      case SyntaxError => ok := false;
      case Unreadable => ok := false;
    }
  }

  /** `Config::parse`: the configuration, unless an error was reported, and the includes. */
  method ParseConfig(files: Files, nodes: seq<Node>, path: Path) returns (config: Option<Config>, includes: seq<Path>)
    ensures config == if Parse(files, nodes, path).ok then Some(Parse(files, nodes, path).config) else None
    ensures includes == Parse(files, nodes, path).includes
  {
    var loader := new Loader();
    loader.DecodeChildren(files, nodes, path, 0, {path});
    includes := loader.includes;
    config := if loader.ok then Some(loader.config) else None;
  }
}
