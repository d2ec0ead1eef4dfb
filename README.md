# Interactive-video console: graph layout and create-project form

This project models two parts of the console of an interactive-video authoring tool.

**The project page's layout pass.** It turns the backend's question/answer tree into a flat list of positioned nodes and labelled edges.
- The pass is one pre-order, depth-first walk. It appends to two caller-owned lists: the class `ProjectDetail.Graph`.
- A vertical cursor is threaded through every call: each call draws one node at the cursor and moves it down 250 units.
- A node's column is `level * 400`.
- A non-answer node expands its answers. Each answer is drawn with an `answer-` prefix. An answer with a non-empty `question` gets a synthetic `question-<id>` node. The answer's `sub_answers` are drawn under that synthetic node if it exists, otherwise under the answer.
- The pass starts from the first node whose `parent_id` is falsy, or else the first node.
- A project without nodes is drawn as a single `main` placeholder.

The methods `ProcessNode`, `ProcessAnswer` and `CreateNodesAndEdges` mirror `processNode`, its `forEach` callback and `createNodesAndEdges`. Each is proved to produce exactly what the specification functions in module `Layout` describe (`Visit`, `VisitAnswers`, `VisitAnswer`, `VisitSubAnswers`, `LayoutOf`). Module `LayoutProperties` proves what that specification guarantees:
- a closed form for each answer block, with no cursor threading;
- heights of 250·k;
- the columns;
- the ids;
- well-formed edges and their number;
- the root.

**The create-project dialog.** The class `CreateProjectModal.Form` holds the three state variables `error`, `selectedFile` and `loading`.
- `HandleSubmit` trims the name and checks, in order: the name, that a file is chosen, and that its MIME type starts with `video/`. It then hands the request to the service and maps the service's outcome to an error or to the `onSuccess`/`onClose` callbacks. `loading` is cleared on every way out.
- `HandleFileChange` keeps only video files.
- `GetFieldError` and `BannerMessage` read back field-scoped and general errors.

Both handlers are proved against the specification functions `SubmitResult` and `FileChangeResult`. Lemmas relate those functions to each other and to the lookups.

The service call inside submit is not performed. Its outcome is a parameter: created; failed with a response whose body may carry a `detail`; or failed without a response.

Where the design description and the code disagree, the model follows the code:
- Not every tree node is drawn. Only the root and, for each of its answers, the answer, its follow-up question and its sub-answers are drawn. The answers of an answer, and anything below a sub-answer, are never visited (`VisitFacts`, `ProjectLayout`).
- A node's x is not always its parent's x plus 400. A sub-answer of an answer without a follow-up question sits 800 units to the right of that answer (`NoFollowUpQuestion`).
- There is one edge per non-root node only when the root's id is non-empty. An empty root id suppresses the edges into the root's answers too (`ProjectLayout`).

## Model

| member | source | states |
|---|---|---|
| `Layout.MainIndex` | src/pages/ProjectDetail.tsx:317 | The index picked by `find`: the first node whose `parent_id` is falsy, with every earlier node having a truthy one; none exactly when every node has a truthy `parent_id`. |
| `ProjectDetail.Graph.constructor` | src/pages/ProjectDetail.tsx:292-293 | The node and edge lists start empty. |
| `ProjectDetail.ProcessNode` | src/pages/ProjectDetail.tsx:155-288 | Appends exactly the nodes and edges of `Visit` for its arguments to the shared lists, and returns `Visit`'s cursor. |
| `ProjectDetail.ProcessAnswer` | src/pages/ProjectDetail.tsx:257-284 | One pass of the `forEach` over answers appends exactly `VisitAnswer`: the answer, its follow-up question, then its sub-answers, and returns the cursor below them. |
| `ProjectDetail.CreateNodesAndEdges` | src/pages/ProjectDetail.tsx:291-325 | Returns exactly `LayoutOf(project)`: the placeholder for an empty project, otherwise the pass from the selected root with no parent, level 0, cursor 0. |
| `LayoutProperties.SingleRowVisit` | src/pages/ProjectDetail.tsx:164-256 | An answer visit, or one of a node without answers, draws exactly one node, with the drawn id, at `(400·level, y)`. It draws one edge when the parent id is truthy and none otherwise, and the cursor ends exactly 250 lower. |
| `LayoutProperties.SubAnswersClosedForm` | src/pages/ProjectDetail.tsx:275-283 | The sub-answers loop draws sub-answer k as `answer-<id>` at column level+3 and height y+250·k, with an `Answer` edge from the sub-answer parent, in array order; the cursor ends 250·(count) lower. |
| `LayoutProperties.AnswerBlockClosedForm` | src/pages/ProjectDetail.tsx:257-284 | One answer block is, in order: the answer at level+1, the `question-<id>` node at level+2 when the answer's question is truthy, and the sub-answers at level+3. It has the matching edges, and the cursor advances 250 per node. |
| `LayoutProperties.BlockFacts` | src/pages/ProjectDetail.tsx:166-237 | A block has 1 + (0 or 1) + number-of-sub-answers nodes, one per 250 units, none main. Answers carry `answer-` ids in columns level+1 or level+3; the question carries a `question-` id in column level+2. Every edge is well formed. The edge count is the node count, minus one when the owner id is empty. |
| `LayoutProperties.FollowUpQuestion` | src/pages/ProjectDetail.tsx:262-281 | With a truthy question, the synthetic `question-<id>` node comes right after the answer, is not an answer, and is the target of exactly one edge, labelled `Question`, from `answer-<id>`. Every sub-answer hangs from it, one column further right. |
| `LayoutProperties.NoFollowUpQuestion` | src/pages/ProjectDetail.tsx:275-281 | With a falsy question, every node of the block is an answer and every sub-answer hangs from `answer-<id>` two columns (800 units) to the right of it. |
| `LayoutProperties.AnswersFacts` | src/pages/ProjectDetail.tsx:256-285 | The answers loop draws its blocks one under the other and returns the cursor 250 per node lower. Every node is a non-main answer-loop node and every edge is well formed. There is one edge per node except one per answer when the owner id is empty. |
| `LayoutProperties.VisitFacts` | src/pages/ProjectDetail.tsx:164-287 | A call draws its own row first at `(400·level, y)`, draws node k at y+250·k, and returns y + 250 × (nodes drawn). `isMain` holds exactly for the own row of a parentless call. An answer visit draws one node. The edge count is nodes, minus the own row without a truthy parent, minus the answers of an empty drawn id. |
| `LayoutProperties.EmptyProjectLayout` | src/pages/ProjectDetail.tsx:295-315 | No nodes: exactly one node, `main`, at (0,0), main, with a null question, and no edges. |
| `LayoutProperties.ProjectLayout` | src/pages/ProjectDetail.tsx:317-322 | With nodes: the selected root is drawn first at (0,0) as the only main node. Node k is at height 250·k, so heights strictly increase. Every other node is in a root answer block. All edges are well formed. Edges = nodes − 1 when the root id is non-empty, and nodes − 1 − answers otherwise. |
| `LayoutProperties.FollowUpExample` | src/pages/ProjectDetail.tsx:257-284 | Root R, answer A1 asking a follow-up, sub-answer SA1: nodes R, answer-A1, question-A1, answer-SA1 at columns 0/400/800/1200, and SA1 hangs from question-A1, not from answer-A1. |
| `CreateProjectModal.TrimStart` | src/components/CreateProjectModal.tsx:34 | Removes exactly the leading white space: the result is a suffix, all dropped characters are white space, and it does not start with white space. |
| `CreateProjectModal.TrimEnd` | src/components/CreateProjectModal.tsx:34 | Removes exactly the trailing white space: the result is a prefix, all dropped characters are white space, and it does not end with white space. |
| `CreateProjectModal.Trim` | src/components/CreateProjectModal.tsx:34 | The trimmed name is a contiguous part of the input with only white space before and after it. It is empty exactly when the input is all white space; otherwise neither of its ends is white space. |
| `CreateProjectModal.SubmitResult` | src/components/CreateProjectModal.tsx:26-100 | The service is called exactly when the trimmed name is non-empty, a file is selected and its type starts with `video/`, and then with the trimmed name and that file. The name is checked first, then the file, then its type, each with its field-scoped message. Request failures give field-less errors: the response's `detail` or `Failed to create project`; a response without a body gives the unexpected-error message. Success gives no error and the callbacks `onSuccess`, `onClose`. |
| `CreateProjectModal.FileChangeResult` | src/components/CreateProjectModal.tsx:102-125 | A file is kept exactly when its type starts with `video/`, and then no error is set. Otherwise the selection is cleared and the error is `Please select a video file` (no file) or `Please select a valid video file`. |
| `CreateProjectModal.GetFieldError` | src/components/CreateProjectModal.tsx:127-129 | Non-empty only for an error that belongs to the asked field, and then it is that error's message. |
| `CreateProjectModal.BannerMessage` | src/components/CreateProjectModal.tsx:172-176 | The general banner shows an error exactly when the error's field is falsy. |
| `CreateProjectModal.Form.constructor` | src/components/CreateProjectModal.tsx:22-24 | Starts not loading, with no error and no selected file. |
| `CreateProjectModal.Form.HandleSubmit` | src/components/CreateProjectModal.tsx:26-100 | The error, the request sent and the callbacks are exactly `SubmitResult` of the typed name, the selected file and the outcome, whatever the error was before. `loading` is false afterwards on every path. The selection is unchanged. |
| `CreateProjectModal.Form.SubmitSteps` | src/components/CreateProjectModal.tsx:31-96 | The `try` block with its early returns and both `catch` handlers leaves exactly `SubmitResult`'s error, request and callbacks. |
| `CreateProjectModal.Form.HandleFileChange` | src/components/CreateProjectModal.tsx:102-125 | The new selection and error are exactly `FileChangeResult` of the picked file. The invariant "the selection is null or a video file" is kept. |
| `CreateProjectModal.BlankNameRejected` | src/components/CreateProjectModal.tsx:34-40 | A name of white space only yields the name error, no request and no callback, whatever the file and the outcome. |
| `CreateProjectModal.SubmitErrorShownOnce` | src/components/CreateProjectModal.tsx:127-129 | After a submit, the name field shows an error exactly when the name is blank. The video field shows one exactly when the name is fine but the file is missing or not a video. The banner shows one exactly when the request was sent and failed. Every error message is non-empty. |
| `CreateProjectModal.FileChecksAgree` | src/components/CreateProjectModal.tsx:54-57 | With a usable name, submit reports the same error as the picker for a file the picker rejects. A file the picker keeps always reaches the service. |

## Left out

- Null entries in `nodes`, `answers` or `sub_answers` are not represented; every tree node is present. The `if (!node) return currentYOffset` guard is therefore not modelled, and no input reaches it without the code throwing:
  - A null answer makes `answer.question` throw right after the guarded call.
  - A null entry at or before the first parentless node makes the root `find` throw before any call. A null after it is never visited, because `find` stops at the first match.
  - A null sub-answer never reaches the guard: the spread that overwrites its `parent_id` turns it into an object without an `id`, drawn as `answer-undefined`.
- Node fields the layout only copies or logs are left out: `url`, `video_url`, `text`, `is_sub_question`, the node `type`, the CSS class, and the four `onAdd…`/`onEdit…` closures. Edge cosmetics are left out too: handles, `type`, `animated`, styles, arrow markers. These are presentation for the graph widget.
- A missing or null `question` are both `None`. A missing `answers`, `sub_answers` or `nodes` array reads as empty; both behave the same in the code.
- The placeholder node's `isAnswer` is absent in the code; it is `false` here. Its `url` (the project's main video) is not modelled.
- Fetching the project, re-fetching after changes, deleting, and the stale-fetch race are left out. They are asynchronous network plumbing.
- Graph rendering, the node renderer component, modals and routing are left out. They are UI.
- `console.log` calls are left out.
- Submit's failure via a missing `name` input (`querySelector` returning null) is left out: the form always renders that input. That path would end in the unexpected-error message.
- The outer `catch`'s `ProjectError` branch is not modelled. Every error from the service call is caught by the inner `catch` first, so only a failure inside that `catch` reaches the outer one: reading `detail` of a missing response body, modelled as `FailedWithResponse(None)`.
- The service call is an outcome parameter, not a call. The service wrapper in `src/services/project.ts` is not part of this model. As that wrapper is written, it rethrows its own error, which has no `response`, so in the running app every failure reads `Failed to create project`.
- The `onSuccess` and `onClose` callbacks are assumed not to throw.
- HandleSubmit: the contract states only the final state. The intermediate `loading = true` while the request is pending, and the disabled buttons it drives, are not observable in it.
- React's batching of state updates and a second submit while one is pending are left out. They are event-loop concurrency.
