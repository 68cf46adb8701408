/** Evolution trees as the species API returns them, `findStage` of
    `src/utils/evolution.ts`, and the first-successor spine that both chain
    loaders walk. */
module Evolution {
  import opened Common

  /** One node of an evolution chain: `species.name`, `species.url` and the
      ordered `evolves_to` successors. */
  datatype EvoNode = EvoNode(speciesName: string, speciesUrl: string, evolvesTo: seq<EvoNode>)

  /** Some node at distance `k` below `node` carries `name`. */
  predicate AtDistance(node: EvoNode, name: string, k: nat)
    decreases node
  {
    if k == 0 then node.speciesName == name
    else exists i :: 0 <= i < |node.evolvesTo| && AtDistance(node.evolvesTo[i], name, k - 1)
  }

  /** Some node of the tree carries `name`. */
  predicate Occurs(node: EvoNode, name: string)
    decreases node
  {
    node.speciesName == name || exists i :: 0 <= i < |node.evolvesTo| && Occurs(node.evolvesTo[i], name)
  }

  predicate OccursIn(nodes: seq<EvoNode>, name: string) {
    exists i :: 0 <= i < |nodes| && Occurs(nodes[i], name)
  }

  /** `findStage(node, name, depth)`; `None` stands for `null`. */
  function FindStage(node: EvoNode, name: string, depth: int): (r: Option<int>)
    ensures r.Some? ==> r.value >= depth
    decreases node, 1
  {
    if node.speciesName == name then Some(depth)
    else FindStageIn(node.evolvesTo, name, depth + 1)
  }

  /** The `for (const next of node.evolves_to)` loop of `findStage`: the first
      child (left to right) whose subtree yields a stage. */
  function FindStageIn(children: seq<EvoNode>, name: string, depth: int): (r: Option<int>)
    ensures r.Some? ==> r.value >= depth
    decreases children, 0
  {
    if |children| == 0 then None
    else
      match FindStage(children[0], name, depth)
      case Some(d) => Some(d)
      case None => FindStageIn(children[1..], name, depth)
  }

  /** `findStage` yields `null` exactly when no node of the tree carries the name. */
  lemma {:induction false} FindStageNoneIff(node: EvoNode, name: string, depth: int)
    ensures FindStage(node, name, depth).None? <==> !Occurs(node, name)
    decreases node, 1
  {
    if node.speciesName != name {
      FindStageInNoneIff(node.evolvesTo, name, depth + 1);
    }
  }

  lemma {:induction false} FindStageInNoneIff(children: seq<EvoNode>, name: string, depth: int)
    ensures FindStageIn(children, name, depth).None? <==> !OccursIn(children, name)
    decreases children, 0
  {
    if |children| > 0 {
      FindStageNoneIff(children[0], name, depth);
      FindStageInNoneIff(children[1..], name, depth);
      assert forall i :: 1 <= i < |children| ==> children[i] == children[1..][i - 1];
    }
  }

  /** A stage `d` means that a node `d - depth` levels below the root carries the name. */
  lemma {:induction false} FindStageSound(node: EvoNode, name: string, depth: int)
    requires FindStage(node, name, depth).Some?
    ensures AtDistance(node, name, FindStage(node, name, depth).value - depth)
    decreases node, 1
  {
    if node.speciesName != name {
      var d := FindStage(node, name, depth).value;
      var i := FindStageInSound(node.evolvesTo, name, depth + 1);
      assert AtDistance(node.evolvesTo[i], name, d - depth - 1);
    }
  }

  lemma {:induction false} FindStageInSound(children: seq<EvoNode>, name: string, depth: int)
    returns (i: int)
    requires FindStageIn(children, name, depth).Some?
    ensures 0 <= i < |children| && FindStage(children[i], name, depth).Some?
    ensures AtDistance(children[i], name, FindStageIn(children, name, depth).value - depth)
    decreases children, 0
  {
    if FindStage(children[0], name, depth).Some? {
      FindStageSound(children[0], name, depth);
      i := 0;
    } else {
      var j := FindStageInSound(children[1..], name, depth);
      i := j + 1;
    }
  }

  /** A visit of a preorder traversal: a species name and its depth. */
  datatype Visit = Visit(name: string, depth: int)

  /** The nodes of the tree in preorder (root first, children left to right). */
  function Preorder(node: EvoNode, depth: int): (r: seq<Visit>)
    ensures |r| > 0 && r[0] == Visit(node.speciesName, depth)
    decreases node, 1
  {
    [Visit(node.speciesName, depth)] + PreorderIn(node.evolvesTo, depth + 1)
  }

  function PreorderIn(children: seq<EvoNode>, depth: int): seq<Visit>
    decreases children, 0
  {
    if |children| == 0 then [] else Preorder(children[0], depth) + PreorderIn(children[1..], depth)
  }

  /** The depth of the first visit with the given name. */
  function FirstDepth(visits: seq<Visit>, name: string): (r: Option<int>)
    ensures r.Some? <==> exists i :: 0 <= i < |visits| && visits[i].name == name
  {
    if |visits| == 0 then None
    else if visits[0].name == name then Some(visits[0].depth)
    else FirstDepth(visits[1..], name)
  }

  lemma {:induction false} FirstDepthAppend(a: seq<Visit>, b: seq<Visit>, name: string)
    ensures FirstDepth(a + b, name) == if FirstDepth(a, name).Some? then FirstDepth(a, name) else FirstDepth(b, name)
  {
    if |a| > 0 {
      assert (a + b)[1..] == a[1..] + b;
      FirstDepthAppend(a[1..], b, name);
    } else {
      assert a + b == b;
    }
  }

  /** `findStage` returns the depth of the first node in preorder that carries
      the name: children are searched left to right and the first match wins. */
  lemma {:induction false} FindStageIsFirstInPreorder(node: EvoNode, name: string, depth: int)
    ensures FindStage(node, name, depth) == FirstDepth(Preorder(node, depth), name)
    decreases node, 1
  {
    var rest := PreorderIn(node.evolvesTo, depth + 1);
    assert Preorder(node, depth)[1..] == rest;
    FindStageInIsFirstInPreorder(node.evolvesTo, name, depth + 1);
  }

  lemma {:induction false} FindStageInIsFirstInPreorder(children: seq<EvoNode>, name: string, depth: int)
    ensures FindStageIn(children, name, depth) == FirstDepth(PreorderIn(children, depth), name)
    decreases children, 0
  {
    if |children| > 0 {
      FindStageIsFirstInPreorder(children[0], name, depth);
      FindStageInIsFirstInPreorder(children[1..], name, depth);
      FirstDepthAppend(Preorder(children[0], depth), PreorderIn(children[1..], depth), name);
    }
  }

  /** The comparison is exact: a lower-case query does not find a capitalised name. */
  lemma FindStageIsCaseSensitive(url: string)
    ensures FindStage(EvoNode("Pikachu", url, []), "pikachu", 0) == None
  {
  }

  /** The chain the loaders build: the root, then repeatedly `evolves_to[0]`
      until a node has no successor. */
  function Spine(node: EvoNode): (r: seq<EvoNode>)
    ensures |r| > 0 && r[0] == node
    ensures forall i :: 0 <= i < |r| - 1 ==> |r[i].evolvesTo| > 0 && r[i + 1] == r[i].evolvesTo[0]
    ensures |r[|r| - 1].evolvesTo| == 0
    decreases node
  {
    if |node.evolvesTo| == 0 then [node] else [node] + Spine(node.evolvesTo[0])
  }

  /** A tree without branching: every node has at most one successor. */
  predicate Linear(node: EvoNode)
    decreases node
  {
    |node.evolvesTo| <= 1 && (|node.evolvesTo| == 1 ==> Linear(node.evolvesTo[0]))
  }

  /** The position of the first spine node with the given name. */
  function SpineIndexOf(spine: seq<EvoNode>, name: string): int {
    FindIndex(spine, (n: EvoNode) => n.speciesName == name)
  }

  /** On an unbranched chain the stage `findStage` reports is the name's
      position in the spine, offset by the starting depth. */
  lemma {:induction false} LinearStageIsSpineIndex(node: EvoNode, name: string, depth: int)
    requires Linear(node)
    ensures var k := SpineIndexOf(Spine(node), name);
      FindStage(node, name, depth) == if k == -1 then None else Some(depth + k)
    decreases node
  {
    if node.speciesName != name && |node.evolvesTo| == 1 {
      LinearStageIsSpineIndex(node.evolvesTo[0], name, depth + 1);
      SpineIndexOfStep(node, name);
      FindStageSingleChild(node, name, depth);
    }
  }

  /** Past a node without the name, the spine index is one more than the
      successor's. */
  lemma SpineIndexOfStep(node: EvoNode, name: string)
    requires |node.evolvesTo| > 0 && node.speciesName != name
    ensures var k := SpineIndexOf(Spine(node.evolvesTo[0]), name);
      SpineIndexOf(Spine(node), name) == if k == -1 then -1 else k + 1
  {
    var spine, tail := Spine(node), Spine(node.evolvesTo[0]);
    assert spine == [node] + tail;
    assert spine[1..] == tail;
  }

  /** Past a node without the name, a single successor carries the search on
      one level deeper. */
  lemma FindStageSingleChild(node: EvoNode, name: string, depth: int)
    requires |node.evolvesTo| == 1 && node.speciesName != name
    ensures FindStage(node, name, depth) == FindStage(node.evolvesTo[0], name, depth + 1)
  {
    assert node.evolvesTo[1..] == [];
    assert FindStageIn(node.evolvesTo[1..], name, depth + 1) == None;
  }
}
