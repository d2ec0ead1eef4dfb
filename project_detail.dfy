/**
 * The layout pass of the project page as the page runs it: one depth-first,
 * pre-order walk that appends to caller-owned node and edge lists and threads
 * a vertical cursor through every call. Each method is proved to append
 * exactly what the specification in module Layout says.
 */
module ProjectDetail {
  import opened Wrappers
  import opened Layout

  /** The two lists `createNodesAndEdges` allocates and `processNode` pushes onto. */
  class Graph {
    var nodes: seq<FlowNode>
    var edges: seq<FlowEdge>

    constructor ()
      ensures nodes == [] && edges == []
    {
      nodes := [];
      edges := [];
    }
  }

  /** `processNode`: draws `node`, then, for a non-answer node, each answer,
      its follow-up question and its sub-answers; returns the new cursor. */
  method ProcessNode(node: VideoNode, parentId: Option<string>, isAnswer: bool, level: int,
                     currentY: int, g: Graph) returns (newY: int)
    modifies g
    decreases Rank(node, isAnswer), 1
    ensures g.nodes == old(g.nodes) + Visit(node, parentId, isAnswer, level, currentY).nodes
    ensures g.edges == old(g.edges) + Visit(node, parentId, isAnswer, level, currentY).edges
    ensures newY == Visit(node, parentId, isAnswer, level, currentY).cursor
  {
    var nodeId := NodeId(node, isAnswer);
    g.nodes := g.nodes + [Row(node, parentId, isAnswer, level, currentY)];
    if parentId.Some? && parentId.value != "" {
      g.edges := g.edges + [FlowEdge(EdgeId(parentId.value, nodeId), parentId.value, nodeId,
                                     if isAnswer then AnswerLabel else QuestionLabel)];
    }
    newY := currentY + VerticalSpacing;
    if !isAnswer && |node.answers| > 0 {
      ghost var nodes0, edges0 := g.nodes, g.edges;
      var i := 0;
      while i < |node.answers|
        invariant 0 <= i <= |node.answers|
        invariant g.nodes == nodes0 + VisitAnswers(node.answers[..i], nodeId, level, currentY + VerticalSpacing).nodes
        invariant g.edges == edges0 + VisitAnswers(node.answers[..i], nodeId, level, currentY + VerticalSpacing).edges
        invariant newY == VisitAnswers(node.answers[..i], nodeId, level, currentY + VerticalSpacing).cursor
      {
        ghost var before := VisitAnswers(node.answers[..i], nodeId, level, currentY + VerticalSpacing);
        assert node.answers[..i + 1][..i] == node.answers[..i];
        ghost var step := VisitAnswer(node.answers[i], nodeId, level, newY);
        assert VisitAnswers(node.answers[..i + 1], nodeId, level, currentY + VerticalSpacing) == Then(before, step);
        newY := ProcessAnswer(node.answers[i], nodeId, level, newY, g);
        Extend(nodes0, edges0, before, step);
        i := i + 1;
      }
      assert node.answers[..i] == node.answers;
    }
  }

  /** The body of the `forEach` over a node's answers: the answer at
      `level + 1`, its follow-up question at `level + 2` and its sub-answers
      at `level + 3`. */
  method ProcessAnswer(answer: VideoNode, ownerId: string, level: int, currentY: int, g: Graph)
    returns (newY: int)
    modifies g
    decreases 1, 0
    ensures g.nodes == old(g.nodes) + VisitAnswer(answer, ownerId, level, currentY).nodes
    ensures g.edges == old(g.edges) + VisitAnswer(answer, ownerId, level, currentY).edges
    ensures newY == VisitAnswer(answer, ownerId, level, currentY).cursor
  {
    ghost var first := Visit(answer, Some(ownerId), true, level + 1, currentY);
    newY := ProcessNode(answer, Some(ownerId), true, level + 1, currentY, g);
    ghost var asked := first;
    if answer.question.Some? && answer.question.value != "" {
      ghost var question := Visit(QuestionNodeFor(answer), Some(AnswerPrefix + answer.id), false, level + 2, newY);
      newY := ProcessNode(QuestionNodeFor(answer), Some(AnswerPrefix + answer.id), false, level + 2, newY, g);
      asked := Then(first, question);
      Extend(old(g.nodes), old(g.edges), first, question);
    }
    assert g.nodes == old(g.nodes) + asked.nodes && g.edges == old(g.edges) + asked.edges && newY == asked.cursor;
    ghost var nodes0, edges0, y0 := g.nodes, g.edges, newY;
    var parent := if answer.question.Some? && answer.question.value != ""
                  then QuestionPrefix + answer.id else AnswerPrefix + answer.id;
    var j := 0;
    while j < |answer.subAnswers|
      invariant 0 <= j <= |answer.subAnswers|
      invariant g.nodes == nodes0 + VisitSubAnswers(answer, answer.subAnswers[..j], level, y0).nodes
      invariant g.edges == edges0 + VisitSubAnswers(answer, answer.subAnswers[..j], level, y0).edges
      invariant newY == VisitSubAnswers(answer, answer.subAnswers[..j], level, y0).cursor
    {
      ghost var before := VisitSubAnswers(answer, answer.subAnswers[..j], level, y0);
      assert answer.subAnswers[..j + 1][..j] == answer.subAnswers[..j];
      ghost var step := Visit(SubAnswerNode(answer, answer.subAnswers[j]), Some(parent), true, level + 3, newY);
      assert VisitSubAnswers(answer, answer.subAnswers[..j + 1], level, y0) == Then(before, step);
      newY := ProcessNode(answer.subAnswers[j].(parentId := Some(parent)), Some(parent), true, level + 3, newY, g);
      Extend(nodes0, edges0, before, step);
      j := j + 1;
    }
    assert answer.subAnswers[..j] == answer.subAnswers;
    Extend(old(g.nodes), old(g.edges), asked, VisitSubAnswers(answer, answer.subAnswers, level, y0));
  }

  /** Appending a `Then` appends its two parts in turn. */
  lemma Extend(nodes0: seq<FlowNode>, edges0: seq<FlowEdge>, first: Emission, rest: Emission)
    ensures nodes0 + Then(first, rest).nodes == nodes0 + first.nodes + rest.nodes
    ensures edges0 + Then(first, rest).edges == edges0 + first.edges + rest.edges
  {
  }

  /** `createNodesAndEdges`: the placeholder for an empty project, otherwise
      the layout pass from the root at level 0 and cursor 0. */
  method CreateNodesAndEdges(project: Project) returns (nodes: seq<FlowNode>, edges: seq<FlowEdge>)
    ensures (nodes, edges) == LayoutOf(project)
  {
    var g := new Graph();
    if |project.nodes| == 0 {
      g.nodes := g.nodes + [FlowNode(MainId, Position(0, 0), true, false, None)];
      assert g.nodes == [Placeholder] && g.edges == [];
      return g.nodes, g.edges;
    }
    var main := MainIndex(project.nodes);
    var root := if main.Some? then project.nodes[main.value] else project.nodes[0];
    assert root == RootOf(project.nodes);
    var _ := ProcessNode(root, None, false, 0, 0, g);
    assert g.nodes == Visit(root, None, false, 0, 0).nodes;
    assert g.edges == Visit(root, None, false, 0, 0).edges;
    return g.nodes, g.edges;
  }

}
