/** The chat list screen (FoundationModelChatBot/ChatListView.swift): the
    newest-first query, the sweep of empty chats when the list appears,
    deletion by row offsets, the "+" button, and each row's preview line.
    The per-deletion `save()` calls only print their failures and are not
    modelled. */
module ChatList {
  import opened Common
  import opened ChatModels
  import Order

  const EmptyPreview: string := "No messages yet"
  const PreviewLength: nat := 80

  function NewestFirst(c: Chat): int {
    -c.createdAt
  }

  /** `@Query(sort: [SortDescriptor(\Chat.createdAt, order: .reverse)])`:
      every chat of the store, newest first. */
  function Query(s: Store): (r: seq<Chat>)
    ensures multiset(r) == multiset(s.chats) && |r| == |s.chats|
    ensures forall i, j :: 0 <= i < j < |r| ==> r[i].createdAt >= r[j].createdAt
  {
    var r := Order.SortBy(s.chats, NewestFirst);
    assert forall i, j :: 0 <= i < j < |r| ==> NewestFirst(r[i]) <= NewestFirst(r[j]);
    r
  }

  /** `.onAppear`: every chat without messages is deleted. */
  function Reap(s: Store): (r: Store)
    ensures r.clock == s.clock
    ensures forall c :: c in r.chats <==> c in s.chats && |c.messages| > 0
  {
    Store(Filter(s.chats, HasMessages), s.clock)
  }

  function HasMessages(c: Chat): bool {
    |c.messages| > 0
  }

  /** Sweeping twice leaves the same chats, in the same order, as sweeping
      once. */
  lemma ReapIdempotent(s: Store)
    ensures Reap(Reap(s)) == Reap(s)
  {
    FilterIdempotent(s.chats, HasMessages);
  }

  /** The sweep deletes chats, and their messages with them, so the store
      stays valid. */
  lemma ReapKeepsValid(s: Store)
    requires Valid(s)
    ensures Valid(Reap(s))
  {
    FilterKeepsUniqueIds(s.chats, HasMessages);
    assert Messages(Reap(s).chats) <= Messages(s.chats);
  }

  /** The chats shown at the given rows of the newest-first list. */
  function ChatsAt(s: Store, offsets: set<nat>): set<Chat>
    requires forall o :: o in offsets ==> o < |s.chats|
  {
    var shown := Query(s);
    set o | o in offsets :: shown[o]
  }

  /** `deleteChats(at:)`: each offset indexes the newest-first list, and the
      chat found there is deleted with its messages. Swift traps on an
      offset out of range, so offsets are rows of the list. */
  function DeleteAt(s: Store, offsets: set<nat>): (r: Store)
    requires forall o :: o in offsets ==> o < |s.chats|
    ensures r.clock == s.clock
    ensures forall c :: c in r.chats ==> c in s.chats
    ensures forall c :: c in ChatsAt(s, offsets) ==> c !in r.chats
  {
    var shown := Query(s);
    RemoveChats(s, set o | o in offsets :: shown[o].id)
  }

  /** Exactly the chats at the given rows go: with unique ids, no other chat
      shares an id with a deleted one. */
  lemma DeleteAtRemovesExactly(s: Store, offsets: set<nat>)
    requires Valid(s)
    requires forall o :: o in offsets ==> o < |s.chats|
    ensures forall c :: c in DeleteAt(s, offsets).chats <==> c in s.chats && c !in ChatsAt(s, offsets)
  {
    var shown := Query(s);
    var doomed := set o | o in offsets :: shown[o].id;
    forall c | c in s.chats && c.id in doomed
      ensures c in ChatsAt(s, offsets)
    {
      var o :| o in offsets && shown[o].id == c.id;
      assert shown[o] in multiset(s.chats);
    }
  }

  /** Deleting rows keeps the store valid. */
  lemma DeleteAtKeepsValid(s: Store, offsets: set<nat>)
    requires Valid(s)
    requires forall o :: o in offsets ==> o < |s.chats|
    ensures Valid(DeleteAt(s, offsets))
  {
    var shown := Query(s);
    RemoveChatsKeepsValid(s, set o | o in offsets :: shown[o].id);
  }

  /** The store after the "+" button, and the chat it navigates to. */
  datatype Created = Created(store: Store, newChat: Chat)

  /** The "+" button: insert `Chat(title: "New Chat")` and navigate to it. */
  function CreateChat(s: Store): (r: Created)
    ensures r.newChat.title == DefaultTitle && r.newChat.messages == [] && r.newChat.cachedInputText == ""
    ensures forall c :: c in r.store.chats <==> c in s.chats || c == r.newChat
  {
    var c := NewChat(DefaultTitle, s.clock);
    Created(InsertChat(s, c, s.clock.Tick()), c)
  }

  /** The new chat is a fresh record, so the store stays valid, and it is
      the newest one, so it heads the list. */
  lemma CreateChatHeadsList(s: Store)
    requires Valid(s)
    ensures Valid(CreateChat(s).store)
    ensures CreateChat(s).newChat !in s.chats
    ensures Query(CreateChat(s).store)[0] == CreateChat(s).newChat
  {
    InsertNewChatKeepsValid(s, DefaultTitle);
    var r := CreateChat(s);
    assert forall c :: c in s.chats ==> c.createdAt < r.newChat.createdAt by {
      forall c | c in s.chats
        ensures c.createdAt < r.newChat.createdAt
      {
        assert WellFormedChat(c, s.clock);
      }
    }
    var q := Query(r.store);
    assert r.newChat in multiset(q);
    var k :| 0 <= k < |q| && q[k] == r.newChat;
    assert q[0].createdAt >= r.newChat.createdAt;
    assert q[0] in multiset(r.store.chats);
    assert q[0] !in s.chats;
  }

  /** A new chat left without messages disappears again on the next sweep. */
  lemma UnusedNewChatIsReaped(s: Store)
    ensures Reap(CreateChat(s).store).chats == Reap(s).chats
  {
    FilterAppendRejected(s.chats, CreateChat(s).newChat, HasMessages);
  }

  /** The row's second line: the last message cut to 80 characters, or a
      placeholder when there is no message. */
  function Preview(c: Chat): (r: string)
    ensures |c.messages| == 0 ==> r == EmptyPreview
    ensures |c.messages| > 0 ==>
      && r <= Last(c.messages).text
      && |r| == if |Last(c.messages).text| < PreviewLength then |Last(c.messages).text| else PreviewLength
  {
    if |c.messages| == 0 then EmptyPreview
    else Take(Last(c.messages).text, PreviewLength)
  }
}
