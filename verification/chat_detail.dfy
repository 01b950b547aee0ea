/** One open conversation (FoundationModelChatBot/ChatDetailView.swift): the
    view's `@State` around the shared `chat` object, and its event handlers
    as transitions. The provider session is a flag (created or not); what
    it answers is a parameter of the transition that calls it. Each request
    runs to completion before the next event. */
module ChatDetail {
  import opened Common
  import opened ChatModels
  import opened Prompts
  import opened Streaming
  import Order

  /** `inputText`, `response`, `textFieldFocused` and whether `session` has
      been created, around the chat being shown. */
  datatype Detail = Detail(chat: Chat, input: string, response: Option<string>, focused: bool, hasSession: bool)

  /** `ChatDetailView(chat:)`: the `@State` initial values. The input starts
      empty, not with the draft, no partial reply is shown, the field is not
      focused, and no session exists until the view appears. */
  function Mount(chat: Chat): (v: Detail)
    ensures v.chat == chat && v.input == "" && v.response == None
    ensures !v.focused && !v.hasSession
  {
    Detail(chat, "", None, false, false)
  }

  /** `.onAppear`: the draft comes back into the input buffer, the field is
      focused, and a fresh provider session is created. */
  function Appear(v: Detail): (w: Detail)
    ensures w.input == v.chat.cachedInputText && w.focused && w.hasSession
    ensures w.chat == v.chat && w.response == v.response
  {
    v.(input := v.chat.cachedInputText, focused := true, hasSession := true)
  }

  /** The state after a submission, the clock after the records it created,
      and the prompt it sent to the provider (`None`: no provider call). */
  datatype Exchange = Exchange(view: Detail, clock: Clock, request: Option<ReplyPrompt>)

  /** First half of `sendMessage`: append the user message with the raw
      input, clear the input, and build the reply prompt from the updated
      history. */
  function Post(v: Detail, clock: Clock): (e: Exchange)
    ensures e.view.chat == v.chat.(messages := v.chat.messages + [Message(clock.nextId, v.input, true, clock.now, Some(v.chat.id))])
    ensures e.view == v.(chat := e.view.chat, input := "")
    ensures e.clock == clock.Tick()
    ensures e.request == Some(BuildReplyPrompt(e.view.chat.messages, v.input))
  {
    var user := NewMessage(v.input, true, clock);
    var chat := Append(v.chat, user);
    Exchange(v.(chat := chat, input := ""), clock.Tick(), Some(BuildReplyPrompt(chat.messages, v.input)))
  }

  /** Second half: commit the bot text, if the stream produced a commit, and
      store what is left in the `response` slot. */
  function Settle(e: Exchange, o: Outcome): (r: Exchange)
    ensures r.view == e.view.(chat := r.view.chat, response := o.slot) && r.request == e.request
    ensures o.committed.None? ==> r.view.chat == e.view.chat && r.clock == e.clock
    ensures o.committed.Some? ==>
      && r.view.chat == e.view.chat.(messages := e.view.chat.messages + [Message(e.clock.nextId, o.committed.value, false, e.clock.now, Some(e.view.chat.id))])
      && r.clock == e.clock.Tick()
  {
    match o.committed
    case Some(text) =>
      var bot := NewMessage(text, false, e.clock);
      e.(view := e.view.(chat := Append(e.view.chat, bot), response := o.slot), clock := e.clock.Tick())
    case None =>
      e.(view := e.view.(response := o.slot))
  }

  /** `sendMessage`, as written. It does not look at the input itself: the
      raw buffer becomes the user message, whatever it holds. */
  function SendMessage(v: Detail, clock: Clock, reply: Stream): (e: Exchange)
    // the raw input becomes one user message, the buffer empties
    ensures && e.view.input == "" && e.view.focused == v.focused && e.view.hasSession == v.hasSession
            && e.view.chat.id == v.chat.id && e.view.chat.title == v.chat.title
            && e.view.chat.cachedInputText == v.chat.cachedInputText
            && |v.chat.messages| < |e.view.chat.messages|
            && e.view.chat.messages[..|v.chat.messages|] == v.chat.messages
            && e.view.chat.messages[|v.chat.messages|] == Message(clock.nextId, v.input, true, clock.now, Some(v.chat.id))
    // the provider is called exactly when there is a session, with the whole
    // history including the new message, then the new text again
    ensures e.request.Some? <==> v.hasSession
    ensures e.request.Some? ==>
      && DecodeEntries(e.request.value.history) == Some(Turns(v.chat.messages) + [Turn(true, v.input)])
      && e.request.value.newUserText == v.input
    // no session: the user message stays unanswered
    ensures !v.hasSession ==>
      |e.view.chat.messages| == |v.chat.messages| + 1 && e.view.response == v.response
    // a finished stream: one bot message with the last snapshot, slot cleared
    ensures v.hasSession && reply.ending == Finished ==>
      && |e.view.chat.messages| == |v.chat.messages| + 2
      && Last(e.view.chat.messages).text == (if |reply.snapshots| > 0 then Last(reply.snapshots) else v.response.GetOr(""))
      && !Last(e.view.chat.messages).isUser
      && e.view.response == None
    // a thrown stream: no bot message, the slot keeps the last snapshot
    ensures v.hasSession && reply.ending == Threw ==>
      && |e.view.chat.messages| == |v.chat.messages| + 1
      && e.view.response == (if |reply.snapshots| > 0 then Some(Last(reply.snapshots)) else v.response)
  {
    var posted := Post(v, clock);
    assert Turns(posted.view.chat.messages) == Turns(v.chat.messages) + [Turn(true, v.input)];
    if !v.hasSession then posted.(request := None)
    else Settle(posted, Consume(v.response, reply))
  }

  /** `sendButtonPressed`: a blank input is refused; otherwise the field
      loses focus and `sendMessage` runs. The button's `.disabled` test is
      the same `HasContent` check. */
  function Submit(v: Detail, clock: Clock, reply: Stream): (e: Exchange)
    // a blank input changes nothing and calls nothing
    ensures !HasContent(v.input) ==> e == Exchange(v, clock, None)
    // otherwise the field loses focus and `sendMessage` runs on the raw input
    ensures HasContent(v.input) ==> e == SendMessage(v.(focused := false), clock, reply)
    // a summary of what that equality gives, spelled out for callers
    ensures HasContent(v.input) ==>
      && !e.view.focused && e.view.input == ""
      && |v.chat.messages| < |e.view.chat.messages|
      && e.view.chat.messages[..|v.chat.messages|] == v.chat.messages
      && e.view.chat.messages[|v.chat.messages|] == Message(clock.nextId, v.input, true, clock.now, Some(v.chat.id))
      && (e.request.Some? <==> v.hasSession)
    ensures HasContent(v.input) && v.hasSession && reply.ending == Finished ==>
      && |e.view.chat.messages| == |v.chat.messages| + 2 && e.view.response == None
    ensures HasContent(v.input) && v.hasSession && reply.ending == Threw ==>
      |e.view.chat.messages| == |v.chat.messages| + 1
  {
    if !HasContent(v.input) then Exchange(v, clock, None)
    else SendMessage(v.(focused := false), clock, reply)
  }

  /** `sendMessage` with the corrected error path: a thrown stream also
      clears `response`. */
  function SubmitCorrected(v: Detail, clock: Clock, reply: Stream): (e: Exchange)
    ensures !HasContent(v.input) ==> e == Exchange(v, clock, None)
    ensures HasContent(v.input) && v.hasSession ==> e.view.response == None
    ensures !v.hasSession ==> e.view.response == v.response
    ensures HasContent(v.input) && v.hasSession && v.response == None && reply.ending == Finished ==>
      && |e.view.chat.messages| == |v.chat.messages| + 2
      && Last(e.view.chat.messages) == Message(clock.nextId + 1, OwnReply(reply), false, clock.now + 1, Some(v.chat.id))
    ensures HasContent(v.input) && reply.ending == Threw ==>
      |e.view.chat.messages| == |v.chat.messages| + 1
  {
    if !HasContent(v.input) then Exchange(v, clock, None)
    else
      var posted := Post(v.(focused := false), clock);
      if !v.hasSession then posted.(request := None)
      else Settle(posted, ConsumeCorrected(v.response, reply))
  }

  /** Corrected: a view whose slot is empty keeps it empty through any run
      of submissions, so each finished stream commits its own reply and no
      stale partial is ever shown. */
  lemma {:induction false} CorrectedSlotStaysEmpty(v: Detail, clock: Clock, inputs: seq<string>, replies: seq<Stream>)
    requires v.response == None && |inputs| == |replies|
    ensures RunCorrected(v, clock, inputs, replies).view.response == None
    decreases |inputs|
  {
    if |inputs| > 0 {
      var e := SubmitCorrected(v.(input := inputs[0]), clock, replies[0]);
      CorrectedSlotStaysEmpty(e.view, e.clock, inputs[1..], replies[1..]);
    }
  }

  /** Successive corrected submissions, the i-th typed text answered by the
      i-th reply. */
  function RunCorrected(v: Detail, clock: Clock, inputs: seq<string>, replies: seq<Stream>): (e: Exchange)
    requires |inputs| == |replies|
    decreases |inputs|
  {
    if |inputs| == 0 then Exchange(v, clock, None)
    else
      var e := SubmitCorrected(v.(input := inputs[0]), clock, replies[0]);
      RunCorrected(e.view, e.clock, inputs[1..], replies[1..])
  }

  /** As written: a stream that throws after "Hi" leaves "Hi" on screen with
      no bot message behind it, and the next stream, finishing without a
      snapshot, commits "Hi" as its reply. */
  lemma StaleReplyAsWritten()
    ensures
      var v := Detail(NewChat(DefaultTitle, Clock(0, 0)), "Hello", None, true, true);
      var first := Submit(v, Clock(1, 1), Stream(["Hi"], Threw));
      && first.view.response == Some("Hi")
      && |first.view.chat.messages| == 1
      && var second := Submit(first.view.(input := "Again"), first.clock, Stream([], Finished));
         Last(second.view.chat.messages).text == "Hi"
  {
    var v := Detail(NewChat(DefaultTitle, Clock(0, 0)), "Hello", None, true, true);
    VisibleFirstHasContent(v.input);
    var first := Submit(v, Clock(1, 1), Stream(["Hi"], Threw));
    var w := first.view.(input := "Again");
    VisibleFirstHasContent(w.input);
  }

  /** The corrected definition on the same inputs: the failed turn leaves no
      partial on screen, and the empty reply commits an empty message. */
  lemma StaleReplyCorrected()
    ensures
      var v := Detail(NewChat(DefaultTitle, Clock(0, 0)), "Hello", None, true, true);
      var first := SubmitCorrected(v, Clock(1, 1), Stream(["Hi"], Threw));
      && first.view.response == None
      && |first.view.chat.messages| == 1
      && var second := SubmitCorrected(first.view.(input := "Again"), first.clock, Stream([], Finished));
         Last(second.view.chat.messages).text == ""
  {
    var v := Detail(NewChat(DefaultTitle, Clock(0, 0)), "Hello", None, true, true);
    VisibleFirstHasContent(v.input);
    var first := SubmitCorrected(v, Clock(1, 1), Stream(["Hi"], Threw));
    var w := first.view.(input := "Again");
    VisibleFirstHasContent(w.input);
  }

  /** `sendMessage` appends records created from the clock it was given,
      in order, owned by the chat, and moves the clock past them. */
  lemma SendMessageGrows(v: Detail, clock: Clock, reply: Stream)
    ensures var e := SendMessage(v, clock, reply);
      Later(clock, e.clock) && Grows(v.chat, e.view.chat, clock, e.clock)
  {
    var e := SendMessage(v, clock, reply);
    var n := |v.chat.messages|;
    var posted := Post(v, clock);
    var user := Message(clock.nextId, v.input, true, clock.now, Some(v.chat.id));
    if !v.hasSession {
      assert e.view.chat.messages[n..] == [user];
      FreshOne(user, v.chat.id, clock, e.clock);
    } else {
      var o := Consume(v.response, reply);
      if o.committed.Some? {
        var bot := Message(clock.nextId + 1, o.committed.value, false, clock.now + 1, Some(v.chat.id));
        assert e.view.chat.messages == v.chat.messages + [user, bot];
        assert e.view.chat.messages[n..] == [user, bot];
        FreshTwo(user, bot, v.chat.id, clock, e.clock);
      } else {
        assert e.view.chat.messages[n..] == [user];
        FreshOne(user, v.chat.id, clock, e.clock);
      }
    }
  }

  /** So does the guarded button handler; a refused submission changes
      nothing. */
  lemma SubmitGrows(v: Detail, clock: Clock, reply: Stream)
    ensures var e := Submit(v, clock, reply);
      Later(clock, e.clock) && Grows(v.chat, e.view.chat, clock, e.clock)
  {
    if !HasContent(v.input) {
      assert Submit(v, clock, reply) == Exchange(v, clock, None);
      assert v.chat.messages[|v.chat.messages|..] == [];
      FreshNone(v.chat.id, clock, clock);
    } else {
      assert Submit(v, clock, reply) == SendMessage(v.(focused := false), clock, reply);
      SendMessageGrows(v.(focused := false), clock, reply);
    }
  }

  /** A submission only grows the chat with fresh records, so writing the
      chat back keeps every id in the store unique. */
  lemma SubmitKeepsStoreValid(s: Store, v: Detail, reply: Stream)
    requires Valid(s) && v.chat in s.chats
    ensures var e := Submit(v, s.clock, reply);
      Valid(Store(Replace(s.chats, e.view.chat), e.clock))
  {
    var e := Submit(v, s.clock, reply);
    SubmitGrows(v, s.clock, reply);
    ReplaceGrownKeepsValid(s, v.chat, e.view.chat, e.clock);
  }

  /** The correction touches nothing but the `response` slot: the same
      messages are appended, the same prompt is sent, the clock moves the
      same way. */
  lemma CorrectionOnlyClearsSlot(v: Detail, clock: Clock, reply: Stream)
    ensures var a := Submit(v, clock, reply);
      var b := SubmitCorrected(v, clock, reply);
      && b.clock == a.clock && b.request == a.request
      && b.view == a.view.(response := b.view.response)
      && (HasContent(v.input) && v.hasSession ==> b.view.response == None)
  {
    if HasContent(v.input) {
      assert Submit(v, clock, reply) == SendMessage(v.(focused := false), clock, reply);
      if v.hasSession {
        assert Consume(v.response, reply).committed == ConsumeCorrected(v.response, reply).committed;
      }
    }
  }

  /** So the corrected submission keeps the store valid as well. */
  lemma SubmitCorrectedKeepsStoreValid(s: Store, v: Detail, reply: Stream)
    requires Valid(s) && v.chat in s.chats
    ensures var e := SubmitCorrected(v, s.clock, reply);
      Valid(Store(Replace(s.chats, e.view.chat), e.clock))
  {
    CorrectionOnlyClearsSlot(v, s.clock, reply);
    SubmitKeepsStoreValid(s, v, reply);
  }

  /** What the one-shot `respond` call for the title gives back. */
  datatype TitleReply = Titled(content: string) | TitleThrew

  /** The state after closing, and the title prompt sent (`None`: no call). */
  datatype Closing = Closing(view: Detail, request: Option<TitlePrompt>)

  /** `.onDisappear`: the input buffer is saved as the draft; an untitled
      chat with messages asks the session for a title from its first five
      messages, and the title changes only when that call returns. */
  function Disappear(v: Detail, reply: TitleReply): (c: Closing)
    ensures c.view.chat.cachedInputText == v.input
    ensures c.view.chat.messages == v.chat.messages && c.view.chat.id == v.chat.id
    ensures c.view.chat.createdAt == v.chat.createdAt
    ensures c.view == v.(chat := c.view.chat)
    ensures c.request.Some? <==> v.chat.title == DefaultTitle && |v.chat.messages| > 0 && v.hasSession
    ensures c.request.Some? ==>
      && |c.request.value.history| == (if |v.chat.messages| < TitleWindow then |v.chat.messages| else TitleWindow)
      && DecodeEntries(c.request.value.history) == Some(Turns(v.chat.messages)[..|c.request.value.history|])
    ensures c.view.chat.title != v.chat.title ==> c.request.Some? && reply == Titled(c.view.chat.title)
    ensures c.request.Some? && reply.Titled? ==> c.view.chat.title == reply.content
  {
    var chat := v.chat.(cachedInputText := v.input);
    if !(chat.title == DefaultTitle && |chat.messages| > 0) || !v.hasSession then
      Closing(v.(chat := chat), None)
    else
      var prompt := BuildTitlePrompt(chat.messages);
      match reply
      case Titled(t) => Closing(v.(chat := chat.(title := t)), Some(prompt))
      case TitleThrew => Closing(v.(chat := chat), Some(prompt))
  }

  /** Closing and reopening a chat gives back the text that was in the
      input buffer. */
  lemma DraftSurvivesReopen(v: Detail, reply: TitleReply)
    ensures Appear(Mount(Disappear(v, reply).view.chat)).input == v.input
  {
  }

  /** Closing only edits the title and the draft, so writing the chat back
      keeps the store valid. */
  lemma DisappearKeepsStoreValid(s: Store, v: Detail, reply: TitleReply)
    requires Valid(s) && v.chat in s.chats
    ensures Valid(Store(Replace(s.chats, Disappear(v, reply).view.chat), s.clock))
  {
    var c := Disappear(v, reply).view.chat;
    assert c.messages[|v.chat.messages|..] == [];
    ReplaceGrownKeepsValid(s, v.chat, c, s.clock);
  }

  /** The message list as shown: sorted by creation time. */
  function Timeline(c: Chat): (r: seq<Message>)
    ensures Order.SortedBy(r, CreatedAt)
    ensures multiset(r) == multiset(c.messages)
  {
    Order.SortBy(c.messages, CreatedAt)
  }

  /** Messages are appended in creation order, so in a valid store the shown
      order is the storage order the prompts and the share history use. */
  lemma TimelineIsStorageOrder(s: Store, c: Chat)
    requires Valid(s) && c in s.chats
    ensures Timeline(c) == c.messages
  {
    assert WellFormedChat(c, s.clock);
    Order.SortByKeepsStrictlySorted(c.messages, CreatedAt);
  }

  /** The basic exchange: an empty chat, "Hello" sent,
      the stream yields "Hi" then "Hi there!" and finishes. */
  lemma HelloScenario(c: Chat, clock: Clock)
    requires c.messages == []
    ensures
      var v := Appear(Mount(c)).(input := "Hello");
      var e := Submit(v, clock, Stream(["Hi", "Hi there!"], Finished));
      && Turns(e.view.chat.messages) == [Turn(true, "Hello"), Turn(false, "Hi there!")]
      && e.view.response == None
      && e.view.input == ""
  {
    var v := Appear(Mount(c)).(input := "Hello");
    VisibleFirstHasContent(v.input);
    var e := Submit(v, clock, Stream(["Hi", "Hi there!"], Finished));
    var user := Message(clock.nextId, "Hello", true, clock.now, Some(c.id));
    var bot := Message(clock.nextId + 1, "Hi there!", false, clock.now + 1, Some(c.id));
    assert e.view.chat.messages == [user, bot];
  }
}
