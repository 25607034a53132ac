/**
 * The two-node demonstration workflow: its state has the single channel
 * `messages`, concatenated, and each node answers the last message.
 */
module MetadataAnomaly {
  import opened WorkflowState
  import opened Graphs

  /** What a node answers when there is no message yet. */
  const NoInput: string := "No input provided"

  const Node1Reply: string := ", From Node-1: Hello, Human"
  const Node2Reply: string := ", From Node-2: Hello, Human and Node-1"

  /** The content a node answers: the last message's, or `NoInput` when there is none. */
  function LastContent(messages: seq<Message>): (c: string)
    ensures |messages| == 0 ==> c == NoInput
    ensures |messages| != 0 ==> c == messages[|messages| - 1].content
  {
    if |messages| == 0 then NoInput else messages[|messages| - 1].content
  }

  /** The one assistant message a node returns: the last content followed by the node's reply. */
  function Answer(messages: seq<Message>, reply: string): (r: seq<Message>)
    ensures |r| == 1 && r[0].role == "assistant"
    ensures |r[0].content| == |LastContent(messages)| + |reply|
    ensures r[0].content[..|LastContent(messages)|] == LastContent(messages)
    ensures r[0].content[|LastContent(messages)|..] == reply
  {
    [Message("assistant", LastContent(messages) + reply)]
  }

  /** `node1`: one assistant message extending the last content with Node-1's greeting. */
  function Node1(messages: seq<Message>): (r: seq<Message>)
    ensures |r| == 1 && r[0].role == "assistant"
    ensures r[0].content == LastContent(messages) + Node1Reply
  {
    Answer(messages, Node1Reply)
  }

  /** `node2`: one assistant message extending the last content with Node-2's greeting. */
  function Node2(messages: seq<Message>): (r: seq<Message>)
    ensures |r| == 1 && r[0].role == "assistant"
    ensures r[0].content == LastContent(messages) + Node2Reply
  {
    Answer(messages, Node2Reply)
  }

  /** START → Node-1 → Node-2 → END over the concatenated `messages` channel. */
  function Run(messages: seq<Message>): (r: seq<Message>)
    ensures |r| == |messages| + 2
    ensures r[..|messages|] == messages
  {
    var afterNode1 := messages + Node1(messages);
    afterNode1 + Node2(afterNode1)
  }

  /**
   * A run keeps the initial messages and appends exactly two assistant
   * messages; the second extends the first, which extends the initial last
   * content (or `NoInput`).
   */
  lemma RunAppendsTwoAnswers(messages: seq<Message>)
    ensures var r := Run(messages);
      && |r| == |messages| + 2
      && r[..|messages|] == messages
      && r[|messages|].role == "assistant" && r[|messages| + 1].role == "assistant"
      && r[|messages|].content == LastContent(messages) + Node1Reply
      && r[|messages| + 1].content == LastContent(messages) + Node1Reply + Node2Reply
      && r[|messages| + 1].content[..|r[|messages|].content|] == r[|messages|].content
  {
    var afterNode1 := messages + Node1(messages);
    assert LastContent(afterNode1) == Node1(messages)[0].content;
    assert Node1(messages)[0].content == LastContent(messages) + Node1Reply;
  }

  /** From an empty history the run answers `NoInput` twice over. */
  lemma RunFromNothing()
    ensures |Run([])| == 2
    ensures Run([])[1].content == NoInput + Node1Reply + Node2Reply
  {
    RunAppendsTwoAnswers([]);
  }

  const AnomalyNodes: set<string> := {"Node-1", "Node-2"}

  const AnomalyGraph: Graph := Graph(AnomalyNodes, {
    Edge(Start, Node("Node-1")),
    Edge(Node("Node-1"), Node("Node-2")),
    Edge(Node("Node-2"), End)})

  /** The graph compiles, and Node-2 runs only after Node-1. */
  lemma AnomalyGraphWellFormed()
    ensures WellFormed(AnomalyGraph)
    ensures Preds(AnomalyGraph, Node("Node-2")) == {Node("Node-1")}
    ensures Preds(AnomalyGraph, Node("Node-1")) == {Start}
  {
    var g := AnomalyGraph;
    var p := [Start, Node("Node-1"), Node("Node-2"), End];
    assert Edge(Start, Node("Node-1")) in g.edges;
    assert Edge(Node("Node-1"), Node("Node-2")) in g.edges;
    assert IsPath(g, p);
    CoveredByPaths(g, p, p);
  }
}
