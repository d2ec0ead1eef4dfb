/**
 * What the layout pass guarantees, proved about its specification in
 * module Layout: a closed form for each answer block (no cursor threading),
 * the vertical cursor, the columns, the ids, the edges and the root.
 */
module LayoutProperties {
  import opened Wrappers
  import opened Layout

  // ---------------------------------------------------------------------
  // Closed forms: what one answer block draws, written without recursion.
  // ---------------------------------------------------------------------

  /** The sub-answers of an answer block, drawn from cursor `y` on at `level + 3`. */
  function SubRows(subs: seq<VideoNode>, level: int, y: int): seq<FlowNode>
  {
    seq(|subs|, k requires 0 <= k < |subs| =>
      FlowNode(AnswerPrefix + subs[k].id, Position((level + 3) * HorizontalSpacing, y + VerticalSpacing * k),
               false, true, subs[k].question))
  }

  /** The edges from `parent` into each sub-answer. */
  function SubEdges(parent: string, subs: seq<VideoNode>): seq<FlowEdge>
  {
    seq(|subs|, k requires 0 <= k < |subs| =>
      FlowEdge(EdgeId(parent, AnswerPrefix + subs[k].id), parent, AnswerPrefix + subs[k].id, AnswerLabel))
  }

  /** Number of rows the follow-up question of `answer` takes: 1 or 0. */
  function QuestionRows(answer: VideoNode): nat
  {
    if Truthy(answer.question) then 1 else 0
  }

  /** Number of nodes one answer block draws. */
  function BlockSize(answer: VideoNode): nat
  {
    1 + QuestionRows(answer) + |answer.subAnswers|
  }

  /** Number of nodes the blocks of a sequence of answers draw. */
  function BlocksSize(answers: seq<VideoNode>): nat
  {
    if answers == [] then 0 else BlocksSize(answers[..|answers| - 1]) + BlockSize(answers[|answers| - 1])
  }

  /** The nodes of an answer block of a node at `level`, started at cursor `y`:
      the answer, then its follow-up question when it has one, then its sub-answers. */
  function BlockNodes(answer: VideoNode, level: int, y: int): seq<FlowNode>
  {
    [FlowNode(AnswerPrefix + answer.id, Position((level + 1) * HorizontalSpacing, y), false, true, answer.question)]
    + (if Truthy(answer.question) then
         [FlowNode(QuestionPrefix + answer.id, Position((level + 2) * HorizontalSpacing, y + VerticalSpacing),
                   false, false, answer.question)]
       else [])
    + SubRows(answer.subAnswers, level, y + VerticalSpacing * (1 + QuestionRows(answer)))
  }

  /** The edges of an answer block hanging from `ownerId`. */
  function BlockEdges(answer: VideoNode, ownerId: string): seq<FlowEdge>
  {
    (if ownerId != "" then
       [FlowEdge(EdgeId(ownerId, AnswerPrefix + answer.id), ownerId, AnswerPrefix + answer.id, AnswerLabel)]
     else [])
    + (if Truthy(answer.question) then
         [FlowEdge(EdgeId(AnswerPrefix + answer.id, QuestionPrefix + answer.id),
                   AnswerPrefix + answer.id, QuestionPrefix + answer.id, QuestionLabel)]
       else [])
    + SubEdges(SubAnswerParent(answer), answer.subAnswers)
  }

  /** A visit that does not expand draws its own row and at most one edge. */
  lemma LeafVisit(node: VideoNode, parentId: Option<string>, isAnswer: bool, level: int, y: int)
    requires !Expands(node, isAnswer)
    ensures Visit(node, parentId, isAnswer, level, y)
         == Emission([Row(node, parentId, isAnswer, level, y)],
                     EdgesInto(parentId, NodeId(node, isAnswer), isAnswer), y + VerticalSpacing)
  {
  }

  /** A visit of an answer, or of a node without answers, draws one node with
      its drawn id at `(400·level, y)`, one edge exactly when the parent id is
      truthy, and moves the cursor down one step. */
  lemma SingleRowVisit(node: VideoNode, parentId: Option<string>, isAnswer: bool, level: int, y: int)
    requires isAnswer || node.answers == []
    ensures var e := Visit(node, parentId, isAnswer, level, y);
      && |e.nodes| == 1 && e.nodes[0].position == Position(level * HorizontalSpacing, y)
      && e.nodes[0].id == NodeId(node, isAnswer)
      && |e.edges| == (if Truthy(parentId) then 1 else 0)
      && e.cursor == y + VerticalSpacing
  {
    LeafVisit(node, parentId, isAnswer, level, y);
  }

  /** The sub-answers loop draws `SubRows` and `SubEdges` and moves the cursor one step per sub-answer. */
  lemma {:induction false} SubAnswersClosedForm(answer: VideoNode, subs: seq<VideoNode>, level: int, y: int)
    ensures VisitSubAnswers(answer, subs, level, y)
         == Emission(SubRows(subs, level, y), SubEdges(SubAnswerParent(answer), subs), y + VerticalSpacing * |subs|)
  {
    if subs != [] {
      var init, last := subs[..|subs| - 1], subs[|subs| - 1];
      var parent := SubAnswerParent(answer);
      assert |parent| > 0;
      SubAnswersClosedForm(answer, init, level, y);
      var c := y + VerticalSpacing * |init|;
      LeafVisit(SubAnswerNode(answer, last), Some(parent), true, level + 3, c);
      assert SubRows(subs, level, y) == SubRows(init, level, y) + [Row(SubAnswerNode(answer, last), Some(parent), true, level + 3, c)];
      assert SubEdges(parent, subs) == SubEdges(parent, init) + EdgesInto(Some(parent), AnswerPrefix + last.id, true);
    }
  }

  /** One iteration of the answers loop draws exactly the closed-form block. */
  lemma AnswerBlockClosedForm(answer: VideoNode, ownerId: string, level: int, y: int)
    ensures VisitAnswer(answer, ownerId, level, y)
         == Emission(BlockNodes(answer, level, y), BlockEdges(answer, ownerId), y + VerticalSpacing * BlockSize(answer))
  {
    LeafVisit(answer, Some(ownerId), true, level + 1, y);
    var c := y + VerticalSpacing * (1 + QuestionRows(answer));
    if Truthy(answer.question) {
      LeafVisit(QuestionNodeFor(answer), Some(AnswerPrefix + answer.id), false, level + 2, y + VerticalSpacing);
    }
    SubAnswersClosedForm(answer, answer.subAnswers, level, c);
  }

  // ---------------------------------------------------------------------
  // Facts about one answer block.
  // ---------------------------------------------------------------------

  /** Node `k` of `ns` sits at cursor `y` plus one vertical step per earlier node. */
  ghost predicate Stacked(ns: seq<FlowNode>, y: int)
  {
    forall k :: 0 <= k < |ns| ==> ns[k].position.y == y + VerticalSpacing * k
  }

  /** A node drawn inside the answers loop of a node at `level`: never the main
      node; an answer (`answer-` id) in column `level + 1` or `level + 3`, or a
      follow-up question (`question-` id) in column `level + 2`. */
  predicate AnswerLoopNode(n: FlowNode, level: int)
  {
    && !n.isMain
    && (n.isAnswer ==>
          HasPrefix(n.id, AnswerPrefix)
          && (n.position.x == (level + 1) * HorizontalSpacing || n.position.x == (level + 3) * HorizontalSpacing))
    && (!n.isAnswer ==> HasPrefix(n.id, QuestionPrefix) && n.position.x == (level + 2) * HorizontalSpacing)
  }

  /** An edge with the `${source}-${target}` id, a non-empty source, and the
      label `Answer` exactly when it points at an `answer-` node. */
  predicate WellFormedEdge(e: FlowEdge)
  {
    && e.id == EdgeId(e.source, e.target)
    && e.source != ""
    && (HasPrefix(e.target, AnswerPrefix) || HasPrefix(e.target, QuestionPrefix))
    && e.labelText == (if HasPrefix(e.target, AnswerPrefix) then AnswerLabel else QuestionLabel)
  }

  lemma PrefixOf(prefix: string, s: string)
    ensures HasPrefix(prefix + s, prefix)
  {
    assert (prefix + s)[..|prefix|] == prefix;
  }

  /** No id is both an `answer-` id and a `question-` id. */
  lemma PrefixesDisjoint(s: string)
    ensures HasPrefix(s, AnswerPrefix) ==> !HasPrefix(s, QuestionPrefix)
  {
    if HasPrefix(s, AnswerPrefix) {
      assert s[0] == AnswerPrefix[0] == 'a' != QuestionPrefix[0];
    }
  }

  /** The shape facts of a whole answer block. */
  lemma BlockFacts(answer: VideoNode, ownerId: string, level: int, y: int)
    ensures |BlockNodes(answer, level, y)| == BlockSize(answer)
    ensures Stacked(BlockNodes(answer, level, y), y)
    ensures forall k :: 0 <= k < |BlockNodes(answer, level, y)| ==> AnswerLoopNode(BlockNodes(answer, level, y)[k], level)
    ensures |BlockEdges(answer, ownerId)| == BlockSize(answer) - (if ownerId == "" then 1 else 0)
    ensures forall i :: 0 <= i < |BlockEdges(answer, ownerId)| ==> WellFormedEdge(BlockEdges(answer, ownerId)[i])
  {
    var ns, es := BlockNodes(answer, level, y), BlockEdges(answer, ownerId);
    var aid, qid := AnswerPrefix + answer.id, QuestionPrefix + answer.id;
    PrefixOf(AnswerPrefix, answer.id);
    PrefixOf(QuestionPrefix, answer.id);
    PrefixesDisjoint(aid);
    PrefixesDisjoint(qid);
    var q := QuestionRows(answer);
    forall k | 0 <= k < |ns|
      ensures ns[k].position.y == y + VerticalSpacing * k && AnswerLoopNode(ns[k], level)
    {
      if k >= 1 + q {
        var sub := answer.subAnswers[k - 1 - q];
        PrefixOf(AnswerPrefix, sub.id);
      }
    }
    var o := if ownerId == "" then 0 else 1;
    assert SubAnswerParent(answer) != "";
    forall i | 0 <= i < |es|
      ensures WellFormedEdge(es[i])
    {
      if i >= o + q {
        var sub := answer.subAnswers[i - o - q];
        PrefixOf(AnswerPrefix, sub.id);
        PrefixesDisjoint(AnswerPrefix + sub.id);
      }
    }
  }

  /** An answer with a follow-up question: the synthetic `question-` node comes
      right after the answer, one column further right, hangs from the answer,
      is the target of exactly one edge of the block, and parents every sub-answer. */
  lemma FollowUpQuestion(answer: VideoNode, ownerId: string, level: int, y: int)
    requires Truthy(answer.question)
    ensures var ns := BlockNodes(answer, level, y);
      && ns[0] == FlowNode(AnswerPrefix + answer.id, Position((level + 1) * HorizontalSpacing, y), false, true, answer.question)
      && ns[1] == FlowNode(QuestionPrefix + answer.id, Position((level + 2) * HorizontalSpacing, y + VerticalSpacing),
                           false, false, answer.question)
      && forall k :: 2 <= k < |ns| ==> ns[k].isAnswer && ns[k].position.x == ns[1].position.x + HorizontalSpacing
    ensures var es := BlockEdges(answer, ownerId);
      var o := if ownerId == "" then 0 else 1;
      && es[o] == FlowEdge(EdgeId(AnswerPrefix + answer.id, QuestionPrefix + answer.id),
                           AnswerPrefix + answer.id, QuestionPrefix + answer.id, QuestionLabel)
      && (forall i :: 0 <= i < |es| ==> (es[i].target == QuestionPrefix + answer.id <==> i == o))
      && (forall i :: o < i < |es| ==> es[i].source == QuestionPrefix + answer.id)
  {
    var es := BlockEdges(answer, ownerId);
    var o := if ownerId == "" then 0 else 1;
    var qid := QuestionPrefix + answer.id;
    PrefixOf(QuestionPrefix, answer.id);
    forall i | 0 <= i < |es| && i != o
      ensures es[i].target != qid
    {
      var t := es[i].target;
      if i < o {
        assert t == AnswerPrefix + answer.id;
      } else {
        assert t == AnswerPrefix + answer.subAnswers[i - o - 1].id;
      }
      PrefixOf(AnswerPrefix, t[|AnswerPrefix|..]);
      assert t == AnswerPrefix + t[|AnswerPrefix|..];
      PrefixesDisjoint(t);
    }
  }

  /** An answer without a follow-up question: every node of its block is an
      answer, and each sub-answer hangs straight from the answer two columns
      (800 units) to its left, not one. */
  lemma NoFollowUpQuestion(answer: VideoNode, ownerId: string, level: int, y: int)
    requires !Truthy(answer.question)
    ensures var ns := BlockNodes(answer, level, y);
      && |ns| == 1 + |answer.subAnswers|
      && (forall k :: 0 <= k < |ns| ==> ns[k].isAnswer)
      && (forall k :: 1 <= k < |ns| ==> ns[k].position.x == ns[0].position.x + 2 * HorizontalSpacing)
    ensures var es := BlockEdges(answer, ownerId);
      var o := if ownerId == "" then 0 else 1;
      forall i :: o <= i < |es| ==> es[i].source == AnswerPrefix + answer.id && es[i].labelText == AnswerLabel
  {
  }

  // ---------------------------------------------------------------------
  // The answers loop, a visit, and the whole layout.
  // ---------------------------------------------------------------------

  lemma StackedAppend(a: seq<FlowNode>, b: seq<FlowNode>, y: int)
    requires Stacked(a, y) && Stacked(b, y + VerticalSpacing * |a|)
    ensures Stacked(a + b, y)
  {
    forall k | |a| <= k < |a| + |b|
      ensures (a + b)[k].position.y == y + VerticalSpacing * k
    {
      assert (a + b)[k] == b[k - |a|];
    }
  }

  /** The answers loop draws its blocks one under the other and returns the cursor below the last. */
  lemma {:induction false} AnswersFacts(answers: seq<VideoNode>, ownerId: string, level: int, y: int)
    ensures var e := VisitAnswers(answers, ownerId, level, y);
      && |e.nodes| == BlocksSize(answers)
      && e.cursor == y + VerticalSpacing * |e.nodes|
      && Stacked(e.nodes, y)
      && (forall k :: 0 <= k < |e.nodes| ==> AnswerLoopNode(e.nodes[k], level))
      && |e.edges| == |e.nodes| - (if ownerId == "" then |answers| else 0)
      && (forall i :: 0 <= i < |e.edges| ==> WellFormedEdge(e.edges[i]))
  {
    if answers != [] {
      var init, last := answers[..|answers| - 1], answers[|answers| - 1];
      AnswersFacts(init, ownerId, level, y);
      var before := VisitAnswers(init, ownerId, level, y);
      AnswerBlockClosedForm(last, ownerId, level, before.cursor);
      BlockFacts(last, ownerId, level, before.cursor);
      var e := VisitAnswers(answers, ownerId, level, y);
      var block := VisitAnswer(last, ownerId, level, before.cursor);
      assert e.nodes == before.nodes + block.nodes;
      assert e.edges == before.edges + block.edges;
      StackedAppend(before.nodes, block.nodes, y);
      forall k | 0 <= k < |e.nodes|
        ensures AnswerLoopNode(e.nodes[k], level)
      {
        if k >= |before.nodes| {
          assert e.nodes[k] == block.nodes[k - |before.nodes|];
        }
      }
      forall i | 0 <= i < |e.edges|
        ensures WellFormedEdge(e.edges[i])
      {
        if i >= |before.edges| {
          assert e.edges[i] == block.edges[i - |before.edges|];
        }
      }
    }
  }

  /** One call of the layout pass: its own row first, at cursor `y` and column
      `level`; every drawn node one vertical step below the previous one; the
      main flag only on a parentless call's own row; one edge per drawn node
      except the own row of a call without a truthy parent and the answers of
      a node whose drawn id is empty. An answer visit draws nothing else. */
  lemma VisitFacts(node: VideoNode, parentId: Option<string>, isAnswer: bool, level: int, y: int)
    ensures var e := Visit(node, parentId, isAnswer, level, y);
      && |e.nodes| == 1 + (if isAnswer then 0 else BlocksSize(node.answers))
      && e.nodes[0] == Row(node, parentId, isAnswer, level, y)
      && e.nodes[0].position == Position(level * HorizontalSpacing, y)
      && e.cursor == y + VerticalSpacing * |e.nodes|
      && Stacked(e.nodes, y)
      && (forall k :: 0 <= k < |e.nodes| ==> (e.nodes[k].isMain <==> k == 0 && parentId.None?))
      && (forall k :: 1 <= k < |e.nodes| ==> AnswerLoopNode(e.nodes[k], level))
      && |e.edges| == |e.nodes| - (if Truthy(parentId) then 0 else 1)
                     - (if !isAnswer && node.id == "" then |node.answers| else 0)
  {
    var e := Visit(node, parentId, isAnswer, level, y);
    var self := [Row(node, parentId, isAnswer, level, y)];
    if Expands(node, isAnswer) {
      var rest := VisitAnswers(node.answers, NodeId(node, isAnswer), level, y + VerticalSpacing);
      AnswersFacts(node.answers, NodeId(node, isAnswer), level, y + VerticalSpacing);
      assert e.nodes == self + rest.nodes;
      StackedAppend(self, rest.nodes, y);
      forall k | 1 <= k < |e.nodes|
        ensures AnswerLoopNode(e.nodes[k], level)
      {
        assert e.nodes[k] == rest.nodes[k - 1];
      }
    } else if !isAnswer {
      assert node.answers == [];
    }
  }

  /** A project without nodes is drawn as the lone `main` placeholder at the origin. */
  lemma EmptyProjectLayout(p: Project)
    requires p.nodes == []
    ensures LayoutOf(p).0 == [FlowNode(MainId, Position(0, 0), true, false, None)]
    ensures LayoutOf(p).1 == []
  {
  }

  /** A project with nodes: the root is drawn first, as the only main node, at
      the origin; node `k` is drawn at height 250·k, so heights strictly
      increase; every other node belongs to an answer block of the root; every
      edge is well formed; and there is one edge per non-root node exactly when
      the root's id is not empty. */
  lemma ProjectLayout(p: Project)
    requires p.nodes != []
    ensures var nodes, root := LayoutOf(p).0, RootOf(p.nodes);
      && |nodes| == 1 + BlocksSize(root.answers)
      && nodes[0] == FlowNode(root.id, Position(0, 0), true, false, root.question)
      && (forall k :: 0 <= k < |nodes| ==> nodes[k].position.y == VerticalSpacing * k)
      && (forall i, j :: 0 <= i < j < |nodes| ==> nodes[i].position.y < nodes[j].position.y)
      && (forall k :: 0 <= k < |nodes| ==> (nodes[k].isMain <==> k == 0))
      && (forall k :: 1 <= k < |nodes| ==> AnswerLoopNode(nodes[k], 0))
    ensures var nodes, edges, root := LayoutOf(p).0, LayoutOf(p).1, RootOf(p.nodes);
      && (forall i :: 0 <= i < |edges| ==> WellFormedEdge(edges[i]))
      && (root.id != "" ==> |edges| == |nodes| - 1)
      && (root.id == "" ==> |edges| == |nodes| - 1 - |root.answers|)
  {
    var root := RootOf(p.nodes);
    VisitFacts(root, None, false, 0, 0);
    var e := Visit(root, None, false, 0, 0);
    if Expands(root, false) {
      AnswersFacts(root.answers, root.id, 0, VerticalSpacing);
      assert e.edges == VisitAnswers(root.answers, root.id, 0, VerticalSpacing).edges;
    }
  }

  /** The answer block of the worked example below: A1 at column 1 with its
      follow-up question at column 2 and SA1 at column 3, SA1 hanging from
      the question. */
  lemma FollowUpExampleBlock(a1: VideoNode)
    requires a1 == VideoNode("A1", Some("Why?"), Some("R"), [], [VideoNode("SA1", None, None, [], [])])
    ensures VisitAnswer(a1, "R", 0, 250) == Emission(
      [FlowNode("answer-A1", Position(400, 250), false, true, Some("Why?")),
       FlowNode("question-A1", Position(800, 500), false, false, Some("Why?")),
       FlowNode("answer-SA1", Position(1200, 750), false, true, None)],
      [FlowEdge("R-answer-A1", "R", "answer-A1", "Answer"),
       FlowEdge("answer-A1-question-A1", "answer-A1", "question-A1", "Question"),
       FlowEdge("question-A1-answer-SA1", "question-A1", "answer-SA1", "Answer")],
      1000)
  {
    AnswerBlockClosedForm(a1, "R", 0, 250);
    ExampleIds();
    var sa1 := a1.subAnswers[0];
    assert SubRows([sa1], 0, 750) == [FlowNode("answer-SA1", Position(1200, 750), false, true, None)];
    assert SubEdges("question-A1", [sa1]) == [FlowEdge("question-A1-answer-SA1", "question-A1", "answer-SA1", "Answer")];
  }

  /** The drawn ids and edge ids of the worked example. */
  lemma ExampleIds()
    ensures AnswerPrefix + "A1" == "answer-A1" && QuestionPrefix + "A1" == "question-A1"
    ensures AnswerPrefix + "SA1" == "answer-SA1"
    ensures EdgeId("question-A1", "answer-SA1") == "question-A1-answer-SA1"
    ensures EdgeId("answer-A1", "question-A1") == "answer-A1-question-A1"
    ensures EdgeId("R", "answer-A1") == "R-answer-A1"
  {
  }

  /** A root R with one answer A1 that asks a follow-up question and has one
      sub-answer SA1 is drawn as R, answer-A1, question-A1, answer-SA1, with
      the sub-answer hanging from the synthetic question, not from the answer. */
  lemma FollowUpExample()
    ensures var sa1 := VideoNode("SA1", None, None, [], []);
      var a1 := VideoNode("A1", Some("Why?"), Some("R"), [], [sa1]);
      var p := Project([VideoNode("R", Some("Start?"), None, [a1], [])]);
      && LayoutOf(p).0 == [
           FlowNode("R", Position(0, 0), true, false, Some("Start?")),
           FlowNode("answer-A1", Position(400, 250), false, true, Some("Why?")),
           FlowNode("question-A1", Position(800, 500), false, false, Some("Why?")),
           FlowNode("answer-SA1", Position(1200, 750), false, true, None)]
      && LayoutOf(p).1 == [
           FlowEdge("R-answer-A1", "R", "answer-A1", "Answer"),
           FlowEdge("answer-A1-question-A1", "answer-A1", "question-A1", "Question"),
           FlowEdge("question-A1-answer-SA1", "question-A1", "answer-SA1", "Answer")]
  {
    var sa1 := VideoNode("SA1", None, None, [], []);
    var a1 := VideoNode("A1", Some("Why?"), Some("R"), [], [sa1]);
    var root := VideoNode("R", Some("Start?"), None, [a1], []);
    assert RootOf([root]) == root;
    assert [a1][..0] == [];
    assert VisitAnswers([a1], "R", 0, 250) == Then(Emission([], [], 250), VisitAnswer(a1, "R", 0, 250));
    FollowUpExampleBlock(a1);
  }
}
