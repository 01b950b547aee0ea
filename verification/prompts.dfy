/** The texts built from a chat's history (ChatDetailView.swift): the
    labelled entries of the reply and title prompts, and the share-sheet
    history. Swift's `\(array)` interpolation of the entries is library
    defined, so a prompt is kept as its ordered entries plus the parts that
    surround them. */
module Prompts {
  import opened Common
  import opened ChatModels

  const UserLabel: string := "User:"
  const BotLabel: string := "ChatBot (you):"

  /** How many of the oldest messages the title prompt shows. */
  const TitleWindow: nat := 5

  /** One message as a prompt shows it: `"\(author) \(text)"`. */
  datatype Entry = Entry(author: string, text: string)

  /** One turn of a conversation, the content that both the prompt entries
      and the share history encode. */
  datatype Turn = Turn(isUser: bool, text: string)

  function Label(isUser: bool): string {
    if isUser then UserLabel else BotLabel
  }

  function Turns(ms: seq<Message>): (r: seq<Turn>)
    ensures |r| == |ms|
    ensures forall i :: 0 <= i < |ms| ==> r[i] == Turn(ms[i].isUser, ms[i].text)
  {
    seq(|ms|, i requires 0 <= i < |ms| => Turn(ms[i].isUser, ms[i].text))
  }

  /** `messages.compactMap { "\(author) \($0.text)" }`: one entry per message,
      in storage order, labelled `User:` or `ChatBot (you):` by its author. */
  function Entries(ms: seq<Message>): (r: seq<Entry>)
    ensures |r| == |ms|
    ensures forall i :: 0 <= i < |ms| ==> r[i].text == ms[i].text
    ensures forall i :: 0 <= i < |ms| ==>
      (ms[i].isUser ==> r[i].author == UserLabel) && (!ms[i].isUser ==> r[i].author == BotLabel)
  {
    seq(|ms|, i requires 0 <= i < |ms| => Entry(Label(ms[i].isUser), ms[i].text))
  }

  /** Reads one entry back; an entry with neither label is not one that
      `Entries` writes. */
  function DecodeEntry(e: Entry): Option<Turn> {
    if e.author == UserLabel then Some(Turn(true, e.text))
    else if e.author == BotLabel then Some(Turn(false, e.text))
    else None
  }

  /** Reads a whole history back, or `None` when some entry carries an
      unknown label. */
  function DecodeEntries(es: seq<Entry>): (r: Option<seq<Turn>>)
    ensures r.Some? ==> |r.value| == |es|
  {
    if forall i :: 0 <= i < |es| ==> DecodeEntry(es[i]).Some? then
      Some(seq(|es|, i requires 0 <= i < |es| => DecodeEntry(es[i]).value))
    else None
  }

  /** The entries lose nothing: every author and text can be read back. */
  lemma EntriesRoundTrip(ms: seq<Message>)
    ensures DecodeEntries(Entries(ms)) == Some(Turns(ms))
  {
    assert UserLabel != BotLabel by { assert |UserLabel| != |BotLabel|; }
    var es := Entries(ms);
    forall i | 0 <= i < |es|
      ensures DecodeEntry(es[i]) == Some(Turns(ms)[i])
    {
    }
    assert DecodeEntries(es).value == Turns(ms);
  }

  /** The reply prompt: the whole stored history, which already ends with the
      new user message, and then the new user text once more. */
  datatype ReplyPrompt = ReplyPrompt(history: seq<Entry>, newUserText: string)

  function BuildReplyPrompt(ms: seq<Message>, newUserText: string): (p: ReplyPrompt)
    ensures DecodeEntries(p.history) == Some(Turns(ms))
    ensures p.newUserText == newUserText
  {
    EntriesRoundTrip(ms);
    ReplyPrompt(Entries(ms), newUserText)
  }

  /** The title prompt: the first messages of the chat, oldest first. */
  datatype TitlePrompt = TitlePrompt(history: seq<Entry>)

  /** `chat.messages.prefix(5)`: at most five entries, and they are the
      entries of the first messages. */
  function BuildTitlePrompt(ms: seq<Message>): (p: TitlePrompt)
    ensures |p.history| == if |ms| < TitleWindow then |ms| else TitleWindow
    ensures DecodeEntries(p.history) == Some(Turns(ms)[..|p.history|])
  {
    var window := Take(ms, TitleWindow);
    EntriesRoundTrip(window);
    assert Turns(window) == Turns(ms)[..|window|];
    TitlePrompt(Entries(window))
  }

  /** `"\(isUser ? "User" : "Bot"): \(text)"`. */
  function ShareLine(m: Message): string {
    (if m.isUser then "User" else "Bot") + ": " + m.text
  }

  function ShareLines(ms: seq<Message>): (r: seq<string>)
    ensures |r| == |ms|
    ensures forall i :: 0 <= i < |ms| ==> r[i] == ShareLine(ms[i])
  {
    seq(|ms|, i requires 0 <= i < |ms| => ShareLine(ms[i]))
  }

  /** `chatHistory`: one line per message, in storage order, joined by
      newlines. */
  function ShareHistory(ms: seq<Message>): (r: string)
    ensures r == "" <==> |ms| == 0
    ensures |ms| > 0 ==> ShareLine(ms[0]) <= r
  {
    var lines := ShareLines(ms);
    if |lines| == 0 then ""
    else
      JoinLinesStartsWithFirst(lines);
      JoinLines(lines)
  }

  /** The history of a single message is its share line. */
  lemma ShareHistoryOne(m: Message)
    ensures ShareHistory([m]) == ShareLine(m)
  {
  }

  /** Each further message adds a newline and its share line at the end,
      whatever its text holds: with `ShareHistoryOne` this pins the history
      of every chat, multi-line replies included. */
  lemma ShareHistoryAppend(ms: seq<Message>, m: Message)
    requires |ms| > 0
    ensures ShareHistory(ms + [m]) == ShareHistory(ms) + "\n" + ShareLine(m)
  {
    assert ShareLines(ms + [m]) == ShareLines(ms) + [ShareLine(m)];
    JoinLinesSnoc(ShareLines(ms), ShareLine(m));
  }

  /** Reads one share line back into the turn it shows. */
  function ParseShareLine(line: string): Option<Turn> {
    if |line| >= 6 && line[..6] == "User: " then Some(Turn(true, line[6..]))
    else if |line| >= 5 && line[..5] == "Bot: " then Some(Turn(false, line[5..]))
    else None
  }

  function ParseShareHistory(h: string): (r: seq<Option<Turn>>) {
    var lines := SplitLines(h);
    seq(|lines|, i requires 0 <= i < |lines| => ParseShareLine(lines[i]))
  }

  predicate NewlineFree(ms: seq<Message>) {
    forall i :: 0 <= i < |ms| ==> '\n' !in ms[i].text
  }

  /** A share line holds no newline of its own when the text has none, and
      it reads back as the message's author and text. */
  lemma ShareLineRoundTrip(m: Message)
    requires '\n' !in m.text
    ensures '\n' !in ShareLine(m)
    ensures ParseShareLine(ShareLine(m)) == Some(Turn(m.isUser, m.text))
  {
    var prefix := if m.isUser then "User: " else "Bot: ";
    assert ShareLine(m) == prefix + m.text;
    assert ShareLine(m)[..|prefix|] == prefix;
    assert ShareLine(m)[|prefix|..] == m.text;
    if !m.isUser && |ShareLine(m)| >= 6 {
      assert ShareLine(m)[..6][0] == 'B';
    }
  }

  /** The share history of a non-empty chat (sharing is disabled when the
      chat is empty) whose messages hold no newline can be read back: one
      line per message, in storage order, each with its author and text. */
  lemma ShareHistoryRoundTrip(ms: seq<Message>)
    requires |ms| > 0 && NewlineFree(ms)
    ensures |ParseShareHistory(ShareHistory(ms))| == |ms|
    ensures forall i :: 0 <= i < |ms| ==> ParseShareHistory(ShareHistory(ms))[i] == Some(Turn(ms[i].isUser, ms[i].text))
  {
    var lines := ShareLines(ms);
    forall i | 0 <= i < |ms|
      ensures '\n' !in lines[i] && ParseShareLine(lines[i]) == Some(Turn(ms[i].isUser, ms[i].text))
    {
      ShareLineRoundTrip(ms[i]);
    }
    SplitJoinLines(lines);
  }
}
