/**
 * The question/answer tree of a project and the positioned graph that the
 * project page draws from it: data types, constants and the specification
 * of the depth-first layout pass (`processNode` / `createNodesAndEdges`).
 */
module Layout {
  import opened Wrappers

  /** A tree node as the backend sends it. A missing `answers` or
      `sub_answers` array reads as the empty sequence. */
  datatype VideoNode = VideoNode(
    id: string,
    question: Option<string>,
    parentId: Option<string>,
    answers: seq<VideoNode>,
    subAnswers: seq<VideoNode>)

  /** A project; a missing `nodes` array reads as the empty sequence. */
  datatype Project = Project(nodes: seq<VideoNode>)

  datatype Position = Position(x: int, y: int)

  /** A positioned node of the drawn graph (only the fields the layout decides). */
  datatype FlowNode = FlowNode(
    id: string,
    position: Position,
    isMain: bool,
    isAnswer: bool,
    question: Option<string>)

  /** A directed, labelled edge of the drawn graph (`labelText` is the edge's `label`). */
  datatype FlowEdge = FlowEdge(id: string, source: string, target: string, labelText: string)

  const HorizontalSpacing: int := 400
  const VerticalSpacing: int := 250
  const AnswerPrefix: string := "answer-"
  const QuestionPrefix: string := "question-"
  const AnswerLabel: string := "Answer"
  const QuestionLabel: string := "Question"
  const MainId: string := "main"

  /** The id under which a tree node is drawn. */
  function NodeId(node: VideoNode, isAnswer: bool): string
  {
    if isAnswer then AnswerPrefix + node.id else node.id
  }

  /** The follow-up question node synthesised for an answer that carries a question. */
  function QuestionNodeFor(answer: VideoNode): VideoNode
  {
    VideoNode(QuestionPrefix + answer.id, answer.question, Some(AnswerPrefix + answer.id), [], [])
  }

  /** The drawn id a sub-answer of `answer` hangs from. */
  function SubAnswerParent(answer: VideoNode): string
  {
    if Truthy(answer.question) then QuestionPrefix + answer.id else AnswerPrefix + answer.id
  }

  /** The copy of a sub-answer that is laid out: its `parent_id` is overwritten. */
  function SubAnswerNode(answer: VideoNode, sub: VideoNode): VideoNode
  {
    sub.(parentId := Some(SubAnswerParent(answer)))
  }

  /** Whether a visit recurses into the node's answers. */
  predicate Expands(node: VideoNode, isAnswer: bool)
  {
    !isAnswer && |node.answers| > 0
  }

  /** Termination measure: only an expanding visit makes recursive calls,
      and every call it makes is to a visit that does not expand. */
  function Rank(node: VideoNode, isAnswer: bool): nat
  {
    if Expands(node, isAnswer) then 1 else 0
  }

  /** What a part of the pass appends, and the vertical cursor it returns. */
  datatype Emission = Emission(nodes: seq<FlowNode>, edges: seq<FlowEdge>, cursor: int)

  /** `first`, then `rest` started at `first`'s cursor. */
  function Then(first: Emission, rest: Emission): Emission
  {
    Emission(first.nodes + rest.nodes, first.edges + rest.edges, rest.cursor)
  }

  /** The one node a visit draws. */
  function Row(node: VideoNode, parentId: Option<string>, isAnswer: bool, level: int, y: int): FlowNode
  {
    FlowNode(NodeId(node, isAnswer), Position(level * HorizontalSpacing, y), parentId.None?, isAnswer, node.question)
  }

  /** The id of the edge from `source` to `target`: `${source}-${target}`. */
  function EdgeId(source: string, target: string): string
  {
    source + "-" + target
  }

  /** The edge a visit draws into its node: only when the parent id is truthy. */
  function EdgesInto(parentId: Option<string>, nodeId: string, isAnswer: bool): seq<FlowEdge>
  {
    if Truthy(parentId) then
      [FlowEdge(EdgeId(parentId.value, nodeId), parentId.value, nodeId,
                if isAnswer then AnswerLabel else QuestionLabel)]
    else []
  }

  /** One call of the layout pass on `node`, starting at cursor `y`. */
  function Visit(node: VideoNode, parentId: Option<string>, isAnswer: bool, level: int, y: int): Emission
    decreases Rank(node, isAnswer), 2, 0
  {
    var self := Emission([Row(node, parentId, isAnswer, level, y)],
                         EdgesInto(parentId, NodeId(node, isAnswer), isAnswer),
                         y + VerticalSpacing);
    if Expands(node, isAnswer) then
      Then(self, VisitAnswers(node.answers, NodeId(node, isAnswer), level, y + VerticalSpacing))
    else self
  }

  /** The answers loop of a visit of a non-answer node drawn as `ownerId` at `level`. */
  function VisitAnswers(answers: seq<VideoNode>, ownerId: string, level: int, y: int): Emission
    decreases 1, 1, |answers|
  {
    if answers == [] then Emission([], [], y)
    else
      var before := VisitAnswers(answers[..|answers| - 1], ownerId, level, y);
      Then(before, VisitAnswer(answers[|answers| - 1], ownerId, level, before.cursor))
  }

  /** One iteration of the answers loop: the answer, its follow-up question, its sub-answers. */
  function VisitAnswer(answer: VideoNode, ownerId: string, level: int, y: int): Emission
    decreases 1, 0, 0
  {
    var first := Visit(answer, Some(ownerId), true, level + 1, y);
    var asked :=
      if Truthy(answer.question) then
        Then(first, Visit(QuestionNodeFor(answer), Some(AnswerPrefix + answer.id), false, level + 2, first.cursor))
      else first;
    Then(asked, VisitSubAnswers(answer, answer.subAnswers, level, asked.cursor))
  }

  /** The sub-answers loop inside one iteration of the answers loop. */
  function VisitSubAnswers(answer: VideoNode, subs: seq<VideoNode>, level: int, y: int): Emission
    decreases 0, 3, |subs|
  {
    if subs == [] then Emission([], [], y)
    else
      var before := VisitSubAnswers(answer, subs[..|subs| - 1], level, y);
      Then(before, Visit(SubAnswerNode(answer, subs[|subs| - 1]), Some(SubAnswerParent(answer)),
                         true, level + 3, before.cursor))
  }

  /** Index of the first node whose `parent_id` is falsy (`Array.prototype.find`). */
  function MainIndex(ns: seq<VideoNode>): (r: Option<nat>)
    ensures r.Some? ==> r.value < |ns| && !Truthy(ns[r.value].parentId)
    ensures r.Some? ==> forall k :: 0 <= k < r.value ==> Truthy(ns[k].parentId)
    ensures r.None? ==> forall k :: 0 <= k < |ns| ==> Truthy(ns[k].parentId)
  {
    if ns == [] then None
    else if !Truthy(ns[0].parentId) then Some(0)
    else match MainIndex(ns[1..])
      case None => None
      case Some(i) => Some(i + 1)
  }

  /** The node the pass starts from: the first parentless node, else the first node. */
  function RootOf(ns: seq<VideoNode>): VideoNode
    requires |ns| > 0
  {
    match MainIndex(ns)
    case Some(i) => ns[i]
    case None => ns[0]
  }

  /** The placeholder drawn for a project without nodes. */
  const Placeholder: FlowNode := FlowNode(MainId, Position(0, 0), true, false, None)

  /** The whole graph `createNodesAndEdges` returns for a project. */
  function LayoutOf(p: Project): (seq<FlowNode>, seq<FlowEdge>)
  {
    if |p.nodes| == 0 then ([Placeholder], [])
    else
      var e := Visit(RootOf(p.nodes), None, false, 0, 0);
      (e.nodes, e.edges)
  }
}
