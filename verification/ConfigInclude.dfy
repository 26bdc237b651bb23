/** Evaluation of a configuration file with includes: one shared configuration into which every
    section is merged the moment it is reached, in this file or in an included one. */
module ConfigInclude {
  import opened Wrappers
  import opened ConfigBinds

  type Path = nat
  type Name = nat
  type Part = nat

  const RECURSION_LIMIT: nat := 10

  const BINDS: Name := 0
  const LAYOUT: Name := 1
  const RECENT_WINDOWS: Name := 2

  datatype Border = Border(on: bool, off: bool)

  datatype LayoutPart = LayoutPart(border: Option<Border>, rest: Part)

  /** A top-level node. `Section` stands for every section whose only effect is to be merged into
      or pushed onto one field of its own; `clean` tells that decoding it reported no error.
      `Broken` is a node whose decoding fails altogether. */
  datatype Node =
    | Section(name: Name, multipart: bool, part: Part, clean: bool)
    | Layout(layout: LayoutPart, clean: bool)
    | BindsSection(children: seq<Child>)
    | RecentWindows(settings: Part, clean: bool, binds: Option<seq<Child>>)
    | Include(argument: nat, optional: bool, clean: bool)
    | Broken(name: Name, multipart: bool)
    | Unknown(name: Name)
  {
    /** The name that may occur once only in a file. */
    function SingleName(): Option<Name> {
      match this
      case Section(name, multipart, _, _) => if multipart then None else Some(name)
      case Layout(_, _) => Some(LAYOUT)
      case BindsSection(_) => Some(BINDS)
      case RecentWindows(_, _, _) => Some(RECENT_WINDOWS)
      case Include(_, _, _) => None
      case Broken(name, multipart) => if multipart then None else Some(name)
      case Unknown(name) => Some(name)
    }
  }

  datatype File = Parsed(nodes: seq<Node>) | SyntaxError | Missing | Unreadable

  /** What evaluation sees of the outside: the contents of files, and which path an include
      argument in a given file denotes, if it denotes one. */
  datatype Files = Files(read: Path -> File, resolve: (Path, nat) -> Option<Path>)

  /** The configuration. A field with a merge of its own is represented by the sequence of the
      parts merged into it, which determines its value whatever the merge is. */
  datatype Config = Config(
    sections: map<Name, seq<Part>>,
    layout: seq<LayoutPart>,
    binds: seq<Bind>,
    mruSettings: seq<Part>,
    mruBinds: seq<Bind>)

  const DEFAULT_CONFIG := Config(map[], [], [], [], DefaultBinds())

  /** The shared state of one evaluation. */
  datatype Evaluation = Evaluation(config: Config, sawMruBinds: bool, includes: seq<Path>, ok: bool) {
    function Fail(): Evaluation {
      this.(ok := false)
    }

    function Check(clean: bool): Evaluation {
      this.(ok := ok && clean)
    }
  }

  const START := Evaluation(DEFAULT_CONFIG, false, [], true)

  function Append(sections: map<Name, seq<Part>>, name: Name, part: Part): map<Name, seq<Part>> {
    sections[name := (if name in sections then sections[name] else []) + [part]]
  }

  /** In the main file an empty border section turns borders on. */
  function AdjustBorder(layout: LayoutPart, depth: nat): LayoutPart {
    if depth == 0 && layout.border.Some? && !layout.border.value.on && !layout.border.value.off
    then layout.(border := Some(Border(true, false)))
    else layout
  }

  /** Merges one section into the shared configuration. */
  function MergeNode(e: Evaluation, node: Node, depth: nat): Evaluation {
    var c := e.config;
    match node
    case Section(name, _, part, clean) => e.(config := c.(sections := Append(c.sections, name, part))).Check(clean)
    case Layout(layout, clean) => e.(config := c.(layout := c.layout + [AdjustBorder(layout, depth)])).Check(clean)
    case BindsSection(children) =>
      var (binds, clean) := DecodeBinds(children);
      e.(config := c.(binds := Merge(c.binds, binds))).Check(clean)
    case RecentWindows(settings, clean, None) =>
      e.(config := c.(mruSettings := c.mruSettings + [settings])).Check(clean)
    case RecentWindows(settings, clean, Some(children)) =>
      var (binds, bindsClean) := DecodeBinds(children);
      var before := if e.sawMruBinds then c.mruBinds else [];
      e.(config := c.(mruSettings := c.mruSettings + [settings], mruBinds := Merge(before, binds)), sawMruBinds := true)
        .Check(clean && bindsClean)
    case _ => e
  }

  /** `decode_children`: evaluates the nodes of the file at `path`, included `depth` levels deep
      through the files on `stack`. A node that cannot be decoded ends its file. */
  function Evaluate(files: Files, nodes: seq<Node>, path: Path, depth: nat, stack: set<Path>, seen: set<Name>, e: Evaluation): Evaluation
    requires depth < RECURSION_LIMIT
    decreases RECURSION_LIMIT - depth, |nodes|
  {
    if nodes == [] then e
    else
      var node, rest := nodes[0], nodes[1..];
      var name := node.SingleName();
      if name.Some? && name.value in seen then Evaluate(files, rest, path, depth, stack, seen, e.Fail())
      else
        var seen := if name.Some? then seen + {name.value} else seen;
        match node
        case Broken(_, _) => e.Fail()
        case Unknown(_) => Evaluate(files, rest, path, depth, stack, seen, e.Fail())
        case Include(argument, optional, clean) =>
          var e' := EvaluateInclude(files, argument, optional, path, depth, stack, e.Check(clean));
          Evaluate(files, rest, path, depth, stack, seen, e')
        case _ => Evaluate(files, rest, path, depth, stack, seen, MergeNode(e, node, depth))
  }

  function EvaluateInclude(files: Files, argument: nat, optional: bool, path: Path, depth: nat, stack: set<Path>, e: Evaluation): Evaluation
    requires depth < RECURSION_LIMIT
    decreases RECURSION_LIMIT - depth, 0
  {
    var target := files.resolve(path, argument);
    if target.None? || depth + 1 == RECURSION_LIMIT || target.value in stack then e.Fail()
    else
      var e' := e.(includes := e.includes + [target.value]);
      match files.read(target.value)
      case Parsed(nodes) => Evaluate(files, nodes, target.value, depth + 1, stack + {target.value}, {}, e')
      case SyntaxError => e'.Fail()
      case Missing => if optional then e' else e'.Fail()
      case Unreadable => e'.Fail()
  }

  /** `Config::parse` of the file at `path` with the given nodes. */
  function Parse(files: Files, nodes: seq<Node>, path: Path): Evaluation {
    Evaluate(files, nodes, path, 0, {path}, {}, START)
  }

  datatype Tagged = Tagged(depth: nat, node: Node)

  /** The reference: all sections of the include tree in preorder, each with its depth. */
  function Flatten(files: Files, nodes: seq<Node>, path: Path, depth: nat): seq<Tagged>
    requires depth < RECURSION_LIMIT
    decreases RECURSION_LIMIT - depth, |nodes|
  {
    if nodes == [] then []
    else
      (if nodes[0].Include? then FlattenInclude(files, nodes[0].argument, path, depth) else [Tagged(depth, nodes[0])])
      + Flatten(files, nodes[1..], path, depth)
  }

  function FlattenInclude(files: Files, argument: nat, path: Path, depth: nat): seq<Tagged>
    requires depth < RECURSION_LIMIT
    decreases RECURSION_LIMIT - depth, 0
  {
    var target := files.resolve(path, argument);
    if target.None? || depth + 1 == RECURSION_LIMIT || !files.read(target.value).Parsed? then []
    else Flatten(files, files.read(target.value).nodes, target.value, depth + 1)
  }

  function Fold(e: Evaluation, sections: seq<Tagged>): Evaluation
    decreases sections
  {
    if sections == [] then e else Fold(MergeNode(e, sections[0].node, sections[0].depth), sections[1..])
  }

  /** The included paths in preorder. */
  function Included(files: Files, nodes: seq<Node>, path: Path, depth: nat): seq<Path>
    requires depth < RECURSION_LIMIT
    decreases RECURSION_LIMIT - depth, |nodes|
  {
    if nodes == [] then []
    else
      (if nodes[0].Include? then IncludedBy(files, nodes[0].argument, path, depth) else [])
      + Included(files, nodes[1..], path, depth)
  }

  function IncludedBy(files: Files, argument: nat, path: Path, depth: nat): seq<Path>
    requires depth < RECURSION_LIMIT
    decreases RECURSION_LIMIT - depth, 0
  {
    var target := files.resolve(path, argument);
    if target.None? then []
    else if depth + 1 == RECURSION_LIMIT || !files.read(target.value).Parsed? then [target.value]
    else [target.value] + Included(files, files.read(target.value).nodes, target.value, depth + 1)
  }

  /** The reference for error reporting: in the whole include tree no section that may occur once
      is repeated within a file, everything decodes cleanly, and every include names a file that is
      not already being included, is not too deep, and can be read unless optional and missing. */
  predicate CleanTree(files: Files, nodes: seq<Node>, path: Path, depth: nat, stack: set<Path>)
    requires depth < RECURSION_LIMIT
    decreases RECURSION_LIMIT - depth, 1
  {
    && (forall i, j | 0 <= i < j < |nodes| :: nodes[i].SingleName().Some? ==> nodes[i].SingleName() != nodes[j].SingleName())
    && (forall node <- nodes :: CleanNode(files, node, path, depth, stack))
  }

  predicate CleanNode(files: Files, node: Node, path: Path, depth: nat, stack: set<Path>)
    requires depth < RECURSION_LIMIT
    decreases RECURSION_LIMIT - depth, 0
  {
    match node
    case Section(_, _, _, clean) => clean
    case Layout(_, clean) => clean
    case BindsSection(children) => DecodeBinds(children).1
    case RecentWindows(_, clean, binds) => clean && (binds.Some? ==> DecodeBinds(binds.value).1)
    case Broken(_, _) => false
    case Unknown(_) => false
    case Include(argument, optional, clean) =>
      var target := files.resolve(path, argument);
      && clean && target.Some? && depth + 1 < RECURSION_LIMIT && target.value !in stack
      && match files.read(target.value)
         case Parsed(nodes) => CleanTree(files, nodes, target.value, depth + 1, stack + {target.value})
         case SyntaxError => false
         case Missing => optional
         case Unreadable => false
  }
}
