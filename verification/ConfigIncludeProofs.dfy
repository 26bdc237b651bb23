/** Evaluation with includes is one left fold over the flattened include tree. */
module ConfigIncludeProofs {
  import opened ConfigBinds
  import opened ConfigInclude

  lemma {:induction false} FoldConcat(e: Evaluation, a: seq<Tagged>, b: seq<Tagged>)
    ensures Fold(e, a + b) == Fold(Fold(e, a), b)
    decreases a
  {
    if a == [] {
      assert a + b == b;
    } else {
      assert (a + b)[1..] == a[1..] + b;
      FoldConcat(MergeNode(e, a[0].node, a[0].depth), a[1..], b);
    }
  }

  lemma {:induction false} FoldIgnoresIncludes(e: Evaluation, paths: seq<Path>, sections: seq<Tagged>)
    ensures Fold(e.(includes := paths), sections) == Fold(e, sections).(includes := paths)
    decreases sections
  {
    if sections != [] {
      var e' := MergeNode(e, sections[0].node, sections[0].depth);
      assert MergeNode(e.(includes := paths), sections[0].node, sections[0].depth) == e'.(includes := paths);
      FoldIgnoresIncludes(e', paths, sections[1..]);
    }
  }

  /** Errors are never forgotten, and the list of includes only grows. */
  lemma {:induction false} EvaluateExtends(files: Files, nodes: seq<Node>, path: Path, depth: nat, stack: set<Path>, seen: set<Name>, e: Evaluation)
    requires depth < RECURSION_LIMIT
    ensures var r := Evaluate(files, nodes, path, depth, stack, seen, e); (r.ok ==> e.ok) && e.includes <= r.includes
    decreases RECURSION_LIMIT - depth, |nodes|
  {
    if nodes != [] {
      var node, rest := nodes[0], nodes[1..];
      var name := node.SingleName();
      if name.Some? && name.value in seen {
        EvaluateExtends(files, rest, path, depth, stack, seen, e.Fail());
      } else {
        var seen := if name.Some? then seen + {name.value} else seen;
        match node
        case Broken(_, _) =>
        case Unknown(_) => EvaluateExtends(files, rest, path, depth, stack, seen, e.Fail());
        case Include(argument, optional, clean) =>
          IncludeExtends(files, argument, optional, path, depth, stack, e.Check(clean));
          var e' := EvaluateInclude(files, argument, optional, path, depth, stack, e.Check(clean));
          EvaluateExtends(files, rest, path, depth, stack, seen, e');
        case _ => EvaluateExtends(files, rest, path, depth, stack, seen, MergeNode(e, node, depth));
      }
    }
  }

  lemma {:induction false} IncludeExtends(files: Files, argument: nat, optional: bool, path: Path, depth: nat, stack: set<Path>, e: Evaluation)
    requires depth < RECURSION_LIMIT
    ensures var r := EvaluateInclude(files, argument, optional, path, depth, stack, e); (r.ok ==> e.ok) && e.includes <= r.includes
    decreases RECURSION_LIMIT - depth, 0
  {
    var target := files.resolve(path, argument);
    if target.Some? && depth + 1 != RECURSION_LIMIT && target.value !in stack && files.read(target.value).Parsed? {
      EvaluateExtends(files, files.read(target.value).nodes, target.value, depth + 1, stack + {target.value}, {},
                      e.(includes := e.includes + [target.value]));
    }
  }

  /** `r` is what the evaluation `e` becomes by merging `sections` and including `paths`. */
  predicate IsFoldOf(r: Evaluation, e: Evaluation, sections: seq<Tagged>, paths: seq<Path>) {
    r == Fold(e, sections).(includes := e.includes + paths)
  }

  lemma FoldsCompose(e: Evaluation, e': Evaluation, r: Evaluation, first: seq<Tagged>, p: seq<Path>, later: seq<Tagged>, q: seq<Path>)
    requires IsFoldOf(e', e, first, p) && IsFoldOf(r, e', later, q)
    ensures IsFoldOf(r, e, first + later, p + q)
  {
    FoldConcat(e, first, later);
    FoldIgnoresIncludes(Fold(e, first), e'.includes, later);
    assert e.includes + (p + q) == e.includes + p + q;
  }

  lemma SectionIsFold(e: Evaluation, section: Tagged)
    ensures IsFoldOf(MergeNode(e, section.node, section.depth), e, [section], [])
  {
  }

  /** An error-free evaluation is one left fold of the section merges over the flattened tree; it
      lists every included path in preorder; and nothing it includes, directly or through other
      files, is on the stack of files being included. */
  lemma {:induction false} EvaluateIsFold(files: Files, nodes: seq<Node>, path: Path, depth: nat, stack: set<Path>, seen: set<Name>, e: Evaluation)
    requires depth < RECURSION_LIMIT
    requires Evaluate(files, nodes, path, depth, stack, seen, e).ok
    ensures IsFoldOf(Evaluate(files, nodes, path, depth, stack, seen, e), e,
                     Flatten(files, nodes, path, depth), Included(files, nodes, path, depth))
    ensures forall p <- Included(files, nodes, path, depth) :: p !in stack
    decreases RECURSION_LIMIT - depth, |nodes|
  {
    if nodes == [] {
      assert e.includes + [] == e.includes;
    } else {
      var node, rest := nodes[0], nodes[1..];
      var name := node.SingleName();
      var seen' := if name.Some? then seen + {name.value} else seen;
      if name.Some? && name.value in seen {
        EvaluateExtends(files, rest, path, depth, stack, seen, e.Fail());
      } else if node.Unknown? {
        EvaluateExtends(files, rest, path, depth, stack, seen', e.Fail());
      } else if node.Include? {
        IncludeNodeIsFold(files, nodes, path, depth, stack, seen, e);
      } else if !node.Broken? {
        var e' := MergeNode(e, node, depth);
        EvaluateIsFold(files, rest, path, depth, stack, seen', e');
        SectionIsFold(e, Tagged(depth, node));
        FoldsCompose(e, e', Evaluate(files, rest, path, depth, stack, seen', e'), [Tagged(depth, node)], [],
                     Flatten(files, rest, path, depth), Included(files, rest, path, depth));
      }
    }
  }

  lemma {:induction false} IncludeNodeIsFold(files: Files, nodes: seq<Node>, path: Path, depth: nat, stack: set<Path>, seen: set<Name>, e: Evaluation)
    requires depth < RECURSION_LIMIT && nodes != [] && nodes[0].Include?
    requires Evaluate(files, nodes, path, depth, stack, seen, e).ok
    ensures IsFoldOf(Evaluate(files, nodes, path, depth, stack, seen, e), e,
                     Flatten(files, nodes, path, depth), Included(files, nodes, path, depth))
    ensures forall p <- Included(files, nodes, path, depth) :: p !in stack
    decreases RECURSION_LIMIT - depth, |nodes|, 0
  {
    var Include(argument, optional, clean) := nodes[0];
    var rest := nodes[1..];
    var e' := EvaluateInclude(files, argument, optional, path, depth, stack, e.Check(clean));
    EvaluateExtends(files, rest, path, depth, stack, seen, e');
    IncludeExtends(files, argument, optional, path, depth, stack, e.Check(clean));
    assert e.Check(clean) == e;
    IncludeIsFold(files, argument, optional, path, depth, stack, e);
    EvaluateIsFold(files, rest, path, depth, stack, seen, e');
    FoldsCompose(e, e', Evaluate(files, rest, path, depth, stack, seen, e'),
                 FlattenInclude(files, argument, path, depth), IncludedBy(files, argument, path, depth),
                 Flatten(files, rest, path, depth), Included(files, rest, path, depth));
  }

  lemma {:induction false} IncludeIsFold(files: Files, argument: nat, optional: bool, path: Path, depth: nat, stack: set<Path>, e: Evaluation)
    requires depth < RECURSION_LIMIT
    requires EvaluateInclude(files, argument, optional, path, depth, stack, e).ok
    ensures IsFoldOf(EvaluateInclude(files, argument, optional, path, depth, stack, e), e,
                     FlattenInclude(files, argument, path, depth), IncludedBy(files, argument, path, depth))
    ensures forall p <- IncludedBy(files, argument, path, depth) :: p !in stack
    decreases RECURSION_LIMIT - depth, 0
  {
    var target := files.resolve(path, argument);
    var e' := e.(includes := e.includes + [target.value]);
    if files.read(target.value).Parsed? {
      var nodes := files.read(target.value).nodes;
      EvaluateIsFold(files, nodes, target.value, depth + 1, stack + {target.value}, {}, e');
      FoldAfterInclude(e, target.value, EvaluateInclude(files, argument, optional, path, depth, stack, e),
                       Flatten(files, nodes, target.value, depth + 1), Included(files, nodes, target.value, depth + 1));
    }
  }

  lemma FoldAfterInclude(e: Evaluation, target: Path, r: Evaluation, sections: seq<Tagged>, paths: seq<Path>)
    requires IsFoldOf(r, e.(includes := e.includes + [target]), sections, paths)
    ensures IsFoldOf(r, e, sections, [target] + paths)
  {
    FoldIgnoresIncludes(e, e.includes + [target], sections);
    assert e.includes + ([target] + paths) == e.includes + [target] + paths;
  }

  predicate Unseen(nodes: seq<Node>, seen: set<Name>) {
    forall node <- nodes :: node.SingleName().Some? ==> node.SingleName().value !in seen
  }

  /** Errors are reported exactly for trees that are not clean. */
  lemma {:induction false} EvaluateOkIff(files: Files, nodes: seq<Node>, path: Path, depth: nat, stack: set<Path>, seen: set<Name>, e: Evaluation)
    requires depth < RECURSION_LIMIT
    ensures Evaluate(files, nodes, path, depth, stack, seen, e).ok <==>
            e.ok && CleanTree(files, nodes, path, depth, stack) && Unseen(nodes, seen)
    decreases RECURSION_LIMIT - depth, |nodes|
  {
    if nodes != [] {
      var node, rest := nodes[0], nodes[1..];
      var name := node.SingleName();
      assert node in nodes;
      if name.Some? && name.value in seen {
        EvaluateExtends(files, rest, path, depth, stack, seen, e.Fail());
      } else {
        var seen' := if name.Some? then seen + {name.value} else seen;
        CleanTail(files, nodes, path, depth, stack, seen);
        match node
        case Broken(_, _) =>
        case Unknown(_) => EvaluateExtends(files, rest, path, depth, stack, seen', e.Fail());
        case Include(argument, optional, clean) =>
          var e' := EvaluateInclude(files, argument, optional, path, depth, stack, e.Check(clean));
          EvaluateOkIff(files, rest, path, depth, stack, seen', e');
          IncludeOkIff(files, argument, optional, path, depth, stack, e.Check(clean));
        case _ => EvaluateOkIff(files, rest, path, depth, stack, seen', MergeNode(e, node, depth));
      }
    }
  }

  lemma CleanTail(files: Files, nodes: seq<Node>, path: Path, depth: nat, stack: set<Path>, seen: set<Name>)
    requires depth < RECURSION_LIMIT && nodes != [] && Unseen([nodes[0]], seen)
    ensures var name := nodes[0].SingleName();
      var seen' := if name.Some? then seen + {name.value} else seen;
      CleanTree(files, nodes, path, depth, stack) && Unseen(nodes, seen) <==>
      CleanNode(files, nodes[0], path, depth, stack) && CleanTree(files, nodes[1..], path, depth, stack) && Unseen(nodes[1..], seen')
  {
  }

  lemma {:induction false} IncludeOkIff(files: Files, argument: nat, optional: bool, path: Path, depth: nat, stack: set<Path>, e: Evaluation)
    requires depth < RECURSION_LIMIT
    ensures EvaluateInclude(files, argument, optional, path, depth, stack, e).ok <==>
            e.ok && CleanNode(files, Include(argument, optional, true), path, depth, stack)
    decreases RECURSION_LIMIT - depth, 0
  {
    var target := files.resolve(path, argument);
    if target.Some? && depth + 1 != RECURSION_LIMIT && target.value !in stack && files.read(target.value).Parsed? {
      EvaluateOkIff(files, files.read(target.value).nodes, target.value, depth + 1, stack + {target.value}, {},
                    e.(includes := e.includes + [target.value]));
    }
  }

  /** The two file systems agree on the paths in `watched`. */
  ghost predicate AgreeOn(a: Files, b: Files, watched: seq<Path>) {
    (forall path: Path, argument: nat :: a.resolve(path, argument) == b.resolve(path, argument)) && forall p <- watched :: a.read(p) == b.read(p)
  }

  /** The reported includes are all that evaluation depends on: as long as those files stay as
      they are, even unreadable or broken ones, evaluating again gives the same result. */
  lemma {:induction false} IncludesAreAllThatMatters(a: Files, b: Files, nodes: seq<Node>, path: Path, depth: nat, stack: set<Path>, seen: set<Name>, e: Evaluation)
    requires depth < RECURSION_LIMIT && AgreeOn(a, b, Evaluate(a, nodes, path, depth, stack, seen, e).includes)
    ensures Evaluate(b, nodes, path, depth, stack, seen, e) == Evaluate(a, nodes, path, depth, stack, seen, e)
    decreases RECURSION_LIMIT - depth, |nodes|
  {
    if nodes != [] {
      var node, rest := nodes[0], nodes[1..];
      var name := node.SingleName();
      if name.Some? && name.value in seen {
        IncludesAreAllThatMatters(a, b, rest, path, depth, stack, seen, e.Fail());
      } else {
        var seen' := if name.Some? then seen + {name.value} else seen;
        match node
        case Broken(_, _) =>
        case Unknown(_) => IncludesAreAllThatMatters(a, b, rest, path, depth, stack, seen', e.Fail());
        case Include(argument, optional, clean) =>
          var e' := EvaluateInclude(a, argument, optional, path, depth, stack, e.Check(clean));
          EvaluateExtends(a, rest, path, depth, stack, seen', e');
          assert AgreeOn(a, b, e'.includes);
          SameInclude(a, b, argument, optional, path, depth, stack, e.Check(clean));
          IncludesAreAllThatMatters(a, b, rest, path, depth, stack, seen', e');
        case _ => IncludesAreAllThatMatters(a, b, rest, path, depth, stack, seen', MergeNode(e, node, depth));
      }
    }
  }

  lemma {:induction false} SameInclude(a: Files, b: Files, argument: nat, optional: bool, path: Path, depth: nat, stack: set<Path>, e: Evaluation)
    requires depth < RECURSION_LIMIT && AgreeOn(a, b, EvaluateInclude(a, argument, optional, path, depth, stack, e).includes)
    ensures EvaluateInclude(b, argument, optional, path, depth, stack, e) == EvaluateInclude(a, argument, optional, path, depth, stack, e)
    decreases RECURSION_LIMIT - depth, 0
  {
    var target := a.resolve(path, argument);
    if target.Some? && depth + 1 != RECURSION_LIMIT && target.value !in stack {
      var e' := e.(includes := e.includes + [target.value]);
      assert target.value in e'.includes;
      if a.read(target.value).Parsed? {
        var nodes := a.read(target.value).nodes;
        EvaluateExtends(a, nodes, target.value, depth + 1, stack + {target.value}, {}, e');
        IncludesAreAllThatMatters(a, b, nodes, target.value, depth + 1, stack + {target.value}, {}, e');
      }
    }
  }
}
