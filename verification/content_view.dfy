/** The first, single-conversation screen
    (FoundationModelChatBot/ContentView.swift): an in-memory message list
    that starts with a greeting, and the same send cycle as the chat detail
    screen, with a prompt that holds only the new text. */
module ContentChat {
  import opened Common
  import opened Streaming

  /** `ChatMessage`: `let id = UUID()` becomes the state's id counter. */
  datatype ChatMessage = ChatMessage(id: nat, text: string, isUser: bool)

  const Greeting: string := "Hi! How can I help you today?"

  /** `messages`, `inputText`, `response`, whether `session` has been
      created, and the next unused message id. */
  datatype Content = Content(messages: seq<ChatMessage>, input: string, response: Option<string>,
                             hasSession: bool, nextId: nat)

  /** The `@State` initial values: one bot greeting and nothing else. */
  function Initial(): (c: Content)
    ensures |c.messages| == 1 && c.messages[0].text == Greeting
    ensures forall i :: 0 <= i < |c.messages| ==> !c.messages[i].isUser
    ensures c.input == "" && c.response == None && !c.hasSession
    ensures IdsFresh(c)
  {
    Content([ChatMessage(0, Greeting, false)], "", None, false, 1)
  }

  /** `.onAppear`: a session is created and prewarmed. */
  function Appear(c: Content): (d: Content)
    ensures d.hasSession && d == c.(hasSession := true)
  {
    c.(hasSession := true)
  }

  /** Message ids increase along the list and stay below the counter, so no
      two messages share one. */
  predicate IdsFresh(c: Content) {
    && (forall i :: 0 <= i < |c.messages| ==> c.messages[i].id < c.nextId)
    && (forall i, j :: 0 <= i < j < |c.messages| ==> c.messages[i].id < c.messages[j].id)
  }

  /** The state after `sendMessage`, and the prompt it sent (`None`: no
      provider call). */
  datatype Sent = Sent(state: Content, request: Option<string>)

  function Commit(c: Content, o: Outcome): Content {
    match o.committed
    case Some(text) =>
      c.(messages := c.messages + [ChatMessage(c.nextId, text, false)], response := o.slot, nextId := c.nextId + 1)
    case None =>
      c.(response := o.slot)
  }

  /** `sendMessage`, as written. It does not test the input itself: the
      button that calls it is disabled while the input is blank. */
  function Send(c: Content, reply: Stream): (r: Sent)
    ensures |c.messages| < |r.state.messages|
    ensures r.state.messages[..|c.messages|] == c.messages
    ensures r.state.messages[|c.messages|] == ChatMessage(c.nextId, c.input, true)
    ensures r.state.input == "" && r.state.hasSession == c.hasSession
    // the prompt is the new text alone, history left out
    ensures r.request == if c.hasSession then Some(c.input) else None
    ensures !c.hasSession ==> |r.state.messages| == |c.messages| + 1 && r.state.response == c.response
    ensures c.hasSession && reply.ending == Finished ==>
      && |r.state.messages| == |c.messages| + 2
      && Last(r.state.messages).text == (if |reply.snapshots| > 0 then Last(reply.snapshots) else c.response.GetOr(""))
      && !Last(r.state.messages).isUser
      && r.state.response == None
    ensures c.hasSession && reply.ending == Threw ==>
      && |r.state.messages| == |c.messages| + 1
      && r.state.response == (if |reply.snapshots| > 0 then Some(Last(reply.snapshots)) else c.response)
  {
    var posted := c.(messages := c.messages + [ChatMessage(c.nextId, c.input, true)], input := "", nextId := c.nextId + 1);
    if !c.hasSession then Sent(posted, None)
    else Sent(Commit(posted, Consume(c.response, reply)), Some(c.input))
  }

  /** The "Send" button: disabled, so nothing happens, while the input is
      blank. */
  function PressSend(c: Content, reply: Stream): (r: Sent)
    ensures !HasContent(c.input) ==> r == Sent(c, None)
    ensures HasContent(c.input) ==> r == Send(c, reply)
    // a summary of what that equality gives, spelled out for callers
    ensures HasContent(c.input) ==>
      && |r.state.messages| > |c.messages| && r.state.input == ""
      && r.state.messages[..|c.messages|] == c.messages
      && r.state.messages[|c.messages|] == ChatMessage(c.nextId, c.input, true)
      && r.request == (if c.hasSession then Some(c.input) else None)
  {
    if HasContent(c.input) then Send(c, reply) else Sent(c, None)
  }

  /** Pressing the button keeps message ids unique, whether or not it sends. */
  lemma PressSendKeepsIdsFresh(c: Content, reply: Stream)
    requires IdsFresh(c)
    ensures IdsFresh(PressSend(c, reply).state)
  {
    if HasContent(c.input) {
      SendKeepsIdsFresh(c, reply);
    }
  }

  /** The gate lives only in the button: called directly, `sendMessage`
      appends a blank message and sends it. */
  lemma SendDoesNotRecheck()
    ensures var c := Appear(Initial()).(input := " ");
      && !HasContent(c.input)
      && Last(Send(c, Stream([], Finished)).state.messages) == ChatMessage(2, "", false)
      && Send(c, Stream([], Finished)).state.messages[1] == ChatMessage(1, " ", true)
      && Send(c, Stream([], Finished)).request == Some(" ")
  {
    var c := Appear(Initial()).(input := " ");
    assert !HasContent(c.input) by {
      assert IsWhitespaceOrNewline(c.input[0]);
      assert AllWhitespace(c.input);
    }
  }

  /** Sending keeps message ids unique: every new message takes the counter. */
  lemma SendKeepsIdsFresh(c: Content, reply: Stream)
    requires IdsFresh(c)
    ensures IdsFresh(Send(c, reply).state)
  {
    var r := Send(c, reply).state;
    var n := |c.messages|;
    forall i | 0 <= i < n
      ensures r.messages[i] == c.messages[i]
    {
      assert r.messages[..n][i] == c.messages[i];
    }
  }

  /** `sendMessage` with the corrected error path: a thrown stream also
      clears `response`. */
  function SendCorrected(c: Content, reply: Stream): (r: Sent)
    ensures |r.state.messages| > |c.messages|
    ensures c.hasSession ==> r.state.response == None
    ensures c.hasSession && c.response == None && reply.ending == Finished ==>
      Last(r.state.messages) == ChatMessage(c.nextId + 1, OwnReply(reply), false)
    ensures reply.ending == Threw ==> |r.state.messages| == |c.messages| + 1
  {
    var posted := c.(messages := c.messages + [ChatMessage(c.nextId, c.input, true)], input := "", nextId := c.nextId + 1);
    if !c.hasSession then Sent(posted, None)
    else Sent(Commit(posted, ConsumeCorrected(c.response, reply)), Some(c.input))
  }

  /** The correction touches nothing but the `response` slot: the same
      messages, the same prompt, the same id counter. */
  lemma CorrectionOnlyClearsSlot(c: Content, reply: Stream)
    ensures SendCorrected(c, reply).request == Send(c, reply).request
    ensures SendCorrected(c, reply).state
         == Send(c, reply).state.(response := if c.hasSession then None else c.response)
  {
    if c.hasSession {
      assert Consume(c.response, reply).committed == ConsumeCorrected(c.response, reply).committed;
    }
  }

  /** So the corrected send keeps message ids unique as well. */
  lemma SendCorrectedKeepsIdsFresh(c: Content, reply: Stream)
    requires IdsFresh(c)
    ensures IdsFresh(SendCorrected(c, reply).state)
  {
    CorrectionOnlyClearsSlot(c, reply);
    SendKeepsIdsFresh(c, reply);
  }

  /** As written: "Hi" then a throw leaves "Hi" in `response`; the next
      stream, finishing without a snapshot, commits "Hi". */
  lemma StaleReplyAsWritten()
    ensures
      var first := Send(Appear(Initial()).(input := "Hello"), Stream(["Hi"], Threw));
      && first.state.response == Some("Hi")
      && Last(Send(first.state.(input := "Again"), Stream([], Finished)).state.messages).text == "Hi"
  {
  }

  /** The corrected definition on the same inputs commits an empty reply. */
  lemma StaleReplyCorrected()
    ensures
      var first := SendCorrected(Appear(Initial()).(input := "Hello"), Stream(["Hi"], Threw));
      && first.state.response == None
      && Last(SendCorrected(first.state.(input := "Again"), Stream([], Finished)).state.messages).text == ""
  {
  }
}
