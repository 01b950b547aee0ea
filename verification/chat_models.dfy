/** The persisted records, `Chat` and `Message`, and the store that holds
    them (FoundationModelChatBot/ChatModels.swift). `UUID()` and `Date()`
    become a logical clock, and the store is the sequence of chats in
    insertion order, each chat owning its messages. */
module ChatModels {
  import opened Common
  import Order

  type Id = nat

  /** The title every new chat gets; while a chat still carries it, the chat
      counts as untitled. */
  const DefaultTitle: string := "New Chat"

  datatype Message = Message(id: Id, text: string, isUser: bool, createdAt: int, chat: Option<Id>)

  datatype Chat = Chat(id: Id, title: string, createdAt: int, messages: seq<Message>, cachedInputText: string)

  /** Stands for `UUID()` and `Date()`: the next unused id and the current
      instant. Each record creation takes both and then ticks. */
  datatype Clock = Clock(nextId: Id, now: int) {

    function Tick(): (c: Clock)
      ensures Later(this, c) && c.nextId > nextId && c.now > now
    {
      Clock(nextId + 1, now + 1)
    }
  }

  predicate Later(from: Clock, to: Clock) {
    from.nextId <= to.nextId && from.now <= to.now
  }

  function CreatedAt(m: Message): int {
    m.createdAt
  }

  /** `Message(text:isUser:)` with its defaulted arguments: a fresh id, the
      current instant, and no owning chat. */
  function NewMessage(text: string, isUser: bool, clock: Clock): (m: Message)
    ensures m.text == text && m.isUser == isUser && m.chat == None
    ensures m.id == clock.nextId && m.createdAt == clock.now
  {
    Message(clock.nextId, text, isUser, clock.now, None)
  }

  /** `Chat(title:)` with its defaulted arguments: a fresh id, the current
      instant, no messages and an empty draft. */
  function NewChat(title: string, clock: Clock): (c: Chat)
    ensures c.title == title && c.messages == [] && c.cachedInputText == ""
    ensures c.id == clock.nextId && c.createdAt == clock.now
  {
    Chat(clock.nextId, title, clock.now, [], "")
  }

  /** `chat.messages.append(m)`: SwiftData also sets the inverse `chat`
      relationship of the appended message. */
  function Append(c: Chat, m: Message): (r: Chat)
    ensures r.id == c.id && r.title == c.title && r.createdAt == c.createdAt
    ensures r.cachedInputText == c.cachedInputText
    ensures |r.messages| == |c.messages| + 1 && r.messages[..|c.messages|] == c.messages
    ensures Last(r.messages) == m.(chat := Some(c.id))
  {
    var r := c.(messages := c.messages + [m.(chat := Some(c.id))]);
    assert r.messages[..|c.messages|] == c.messages;
    r
  }

  /** The model context: every chat, in insertion order, and the clock. */
  datatype Store = Store(chats: seq<Chat>, clock: Clock)

  /** Every record of the store as a set; a message belongs to the store
      through the chat that owns it. */
  function Messages(chats: seq<Chat>): set<Message> {
    set c, m | c in chats && m in c.messages :: m
  }

  predicate Chronological(ms: seq<Message>) {
    Order.StrictlySortedBy(ms, CreatedAt)
  }

  /** A chat of the store: created before the clock's reading, its messages
      in creation order, each created before the clock's reading and owned
      by this chat. */
  predicate WellFormedChat(c: Chat, clock: Clock) {
    && c.id < clock.nextId
    && c.createdAt < clock.now
    && Chronological(c.messages)
    && forall m :: m in c.messages ==> m.id < clock.nextId && m.createdAt < clock.now && m.chat == Some(c.id)
  }

  /** `@Attribute(.unique) var id` on `Chat`: no two places of the store hold
      chats with the same id, so no chat is stored twice either. */
  predicate UniqueChatIds(chats: seq<Chat>) {
    forall i, j :: 0 <= i < j < |chats| ==> chats[i].id != chats[j].id
  }

  /** `@Attribute(.unique) var id` on `Message`, across the whole store. */
  predicate UniqueMessageIds(chats: seq<Chat>) {
    forall m1, m2 :: m1 in Messages(chats) && m2 in Messages(chats) && m1.id == m2.id ==> m1 == m2
  }

  predicate Valid(s: Store) {
    && (forall c :: c in s.chats ==> WellFormedChat(c, s.clock))
    && UniqueChatIds(s.chats)
    && UniqueMessageIds(s.chats)
  }

  /** A valid store holds no record twice: equal message ids mean the same
      chat and the same place in it. */
  lemma {:induction false} NoMessageStoredTwice(s: Store, i: nat, k: nat, j: nat, l: nat)
    requires Valid(s)
    requires i < |s.chats| && k < |s.chats[i].messages|
    requires j < |s.chats| && l < |s.chats[j].messages|
    requires s.chats[i].messages[k].id == s.chats[j].messages[l].id
    ensures i == j && k == l
  {
    var m1, m2 := s.chats[i].messages[k], s.chats[j].messages[l];
    assert s.chats[i] in s.chats && m1 in s.chats[i].messages;
    assert s.chats[j] in s.chats && m2 in s.chats[j].messages;
    assert m1 in Messages(s.chats) && m2 in Messages(s.chats);
    assert WellFormedChat(s.chats[i], s.clock) && WellFormedChat(s.chats[j], s.clock);
    assert m1 == m2;
    assert s.chats[i].id == s.chats[j].id;
  }

  /** Two copies of one chat are never a valid store. */
  lemma DuplicateChatIsInvalid(c: Chat, clock: Clock)
    ensures !Valid(Store([c, c], clock))
  {
    assert Store([c, c], clock).chats[0].id == Store([c, c], clock).chats[1].id;
  }

  /** Keeps the chats `keep` accepts, in their order. */
  function Filter(chats: seq<Chat>, keep: Chat -> bool): (r: seq<Chat>)
    ensures forall c :: c in r <==> c in chats && keep(c)
    ensures |r| <= |chats|
  {
    if |chats| == 0 then []
    else if keep(chats[0]) then [chats[0]] + Filter(chats[1..], keep)
    else Filter(chats[1..], keep)
  }

  /** Filtering keeps a subsequence, so distinct ids stay distinct. */
  lemma {:induction false} FilterKeepsUniqueIds(chats: seq<Chat>, keep: Chat -> bool)
    requires UniqueChatIds(chats)
    ensures UniqueChatIds(Filter(chats, keep))
  {
    if |chats| > 0 {
      var tail := Filter(chats[1..], keep);
      FilterKeepsUniqueIds(chats[1..], keep);
      if keep(chats[0]) {
        var r := [chats[0]] + tail;
        forall k | 0 <= k < |tail|
          ensures tail[k].id != chats[0].id
        {
          assert tail[k] in chats[1..];
          var q :| 0 <= q < |chats[1..]| && chats[1..][q] == tail[k];
          assert chats[q + 1] == tail[k];
        }
        forall a, b | 0 <= a < b < |r|
          ensures r[a].id != r[b].id
        {
          if a > 0 {
            assert r[a] == tail[a - 1] && r[b] == tail[b - 1];
          } else {
            assert r[b] == tail[b - 1];
          }
        }
      }
    }
  }

  /** Filtering twice with the same test is filtering once. */
  lemma {:induction false} FilterIdempotent(chats: seq<Chat>, keep: Chat -> bool)
    ensures Filter(Filter(chats, keep), keep) == Filter(chats, keep)
  {
    if |chats| > 0 {
      FilterIdempotent(chats[1..], keep);
      if keep(chats[0]) {
        var f := Filter(chats, keep);
        assert f[0] == chats[0] && f[1..] == Filter(chats[1..], keep);
      }
    }
  }

  /** Filtering ignores an appended chat the test rejects. */
  lemma {:induction false} FilterAppendRejected(chats: seq<Chat>, c: Chat, keep: Chat -> bool)
    requires !keep(c)
    ensures Filter(chats + [c], keep) == Filter(chats, keep)
  {
    if |chats| == 0 {
      assert chats + [c] == [c];
      assert [c][1..] == [];
    } else {
      assert (chats + [c])[0] == chats[0];
      assert (chats + [c])[1..] == chats[1..] + [c];
      FilterAppendRejected(chats[1..], c, keep);
    }
  }

  /** `modelContext.delete(chat)` for every chat whose id is in `doomed`;
      the cascade rule on `Chat.messages` takes their messages along. */
  function RemoveChats(s: Store, doomed: set<Id>): (r: Store)
    ensures r.clock == s.clock
    ensures forall c :: c in r.chats <==> c in s.chats && c.id !in doomed
  {
    Store(Filter(s.chats, (c: Chat) => c.id !in doomed), s.clock)
  }

  /** The messages that the chats with ids in `doomed` own. */
  function MessagesOf(chats: seq<Chat>, doomed: set<Id>): set<Message> {
    set c, m | c in chats && c.id in doomed && m in c.messages :: m
  }

  /** Cascade delete: removing chats removes exactly the messages they own,
      and every message of a surviving chat stays in the store. */
  lemma RemoveChatsCascades(s: Store, doomed: set<Id>)
    requires Valid(s)
    ensures Messages(RemoveChats(s, doomed).chats) == Messages(s.chats) - MessagesOf(s.chats, doomed)
  {
    var r := RemoveChats(s, doomed);
    forall m | m in Messages(r.chats)
      ensures m !in MessagesOf(s.chats, doomed)
    {
      var c :| c in r.chats && m in c.messages;
      assert m.chat == Some(c.id) && c.id !in doomed;
    }
    forall m | m in Messages(s.chats) && m !in MessagesOf(s.chats, doomed)
      ensures m in Messages(r.chats)
    {
      var c :| c in s.chats && m in c.messages;
      assert c in r.chats;
    }
  }

  lemma RemoveChatsKeepsValid(s: Store, doomed: set<Id>)
    requires Valid(s)
    ensures Valid(RemoveChats(s, doomed))
  {
    var r := RemoveChats(s, doomed);
    FilterKeepsUniqueIds(s.chats, (c: Chat) => c.id !in doomed);
    assert Messages(r.chats) <= Messages(s.chats);
  }

  /** `modelContext.insert(chat)`. */
  function InsertChat(s: Store, c: Chat, clock: Clock): (r: Store)
    ensures forall d :: d in r.chats <==> d in s.chats || d == c
    ensures |r.chats| == |s.chats| + 1
  {
    Store(s.chats + [c], clock)
  }

  /** Inserting a chat created from the store's clock keeps every record
      unique and every chat well formed. */
  lemma InsertNewChatKeepsValid(s: Store, title: string)
    requires Valid(s)
    ensures Valid(InsertChat(s, NewChat(title, s.clock), s.clock.Tick()))
  {
    var c := NewChat(title, s.clock);
    var r := InsertChat(s, c, s.clock.Tick());
    assert Messages(r.chats) == Messages(s.chats);
    forall a, b | 0 <= a < b < |r.chats|
      ensures r.chats[a].id != r.chats[b].id
    {
      if b == |s.chats| {
        assert r.chats[a] in s.chats && WellFormedChat(r.chats[a], s.clock);
      }
    }
    forall d | d in r.chats
      ensures WellFormedChat(d, r.clock)
    {
      if d != c {
        assert WellFormedChat(d, s.clock);
      }
    }
  }

  /** Writes an edited chat back: the live `@Model` object is shared, so every
      edit of the open chat is an edit of the store. */
  function Replace(chats: seq<Chat>, c: Chat): (r: seq<Chat>)
    ensures |r| == |chats|
    ensures forall i :: 0 <= i < |chats| ==> r[i] == if chats[i].id == c.id then c else chats[i]
  {
    seq(|chats|, i requires 0 <= i < |chats| => if chats[i].id == c.id then c else chats[i])
  }

  /** A message created between two clock readings and owned by `owner`. */
  predicate CreatedBetween(m: Message, owner: Id, from: Clock, to: Clock) {
    from.nextId <= m.id < to.nextId && from.now <= m.createdAt < to.now && m.chat == Some(owner)
  }

  /** Messages created between two clock readings, in creation order, owned
      by `owner`. */
  predicate FreshMessages(extra: seq<Message>, owner: Id, from: Clock, to: Clock) {
    && Chronological(extra)
    && (forall m :: m in extra ==> CreatedBetween(m, owner, from, to))
    && (forall m1, m2 :: m1 in extra && m2 in extra && m1.id == m2.id ==> m1 == m2)
  }

  /** `c2` is `c1` edited the way an open chat is edited: its title and
      draft may change and fresh messages may be appended at the end. */
  predicate Grows(c1: Chat, c2: Chat, from: Clock, to: Clock) {
    && c2.id == c1.id
    && c2.createdAt == c1.createdAt
    && |c1.messages| <= |c2.messages|
    && c2.messages[..|c1.messages|] == c1.messages
    && FreshMessages(c2.messages[|c1.messages|..], c1.id, from, to)
  }

  lemma FreshNone(owner: Id, from: Clock, to: Clock)
    ensures FreshMessages([], owner, from, to)
  {
  }

  lemma FreshOne(m: Message, owner: Id, from: Clock, to: Clock)
    requires CreatedBetween(m, owner, from, to)
    ensures FreshMessages([m], owner, from, to)
  {
  }

  lemma FreshTwo(m1: Message, m2: Message, owner: Id, from: Clock, to: Clock)
    requires CreatedBetween(m1, owner, from, to) && CreatedBetween(m2, owner, from, to)
    requires m1.createdAt < m2.createdAt && m1.id != m2.id
    ensures FreshMessages([m1, m2], owner, from, to)
  {
  }

  lemma ChronologicalAppend(ms: seq<Message>, extra: seq<Message>, now: int)
    requires Chronological(ms) && Chronological(extra)
    requires forall m :: m in ms ==> m.createdAt < now
    requires forall m :: m in extra ==> now <= m.createdAt
    ensures Chronological(ms + extra)
  {
    var all := ms + extra;
    forall i, j | 0 <= i < j < |all|
      ensures all[i].createdAt < all[j].createdAt
    {
      if j < |ms| {
        assert all[i] == ms[i] && all[j] == ms[j];
      } else if i >= |ms| {
        assert all[i] == extra[i - |ms|] && all[j] == extra[j - |ms|];
      } else {
        assert all[i] == ms[i] && all[j] == extra[j - |ms|];
      }
    }
  }

  lemma ReplaceMembers(chats: seq<Chat>, c1: Chat, c2: Chat)
    requires c1 in chats && c2.id == c1.id
    ensures forall c :: c in Replace(chats, c2) <==> c == c2 || (c in chats && c.id != c2.id)
  {
    var r := Replace(chats, c2);
    var k :| 0 <= k < |chats| && chats[k] == c1;
    assert r[k] == c2;
    forall c | c in chats && c.id != c2.id
      ensures c in r
    {
      var i :| 0 <= i < |chats| && chats[i] == c;
      assert r[i] == c;
    }
  }

  /** A grown chat is still well formed at the later clock reading, and each
      of its messages is either an old one or one of the appended ones. */
  lemma GrownWellFormed(c1: Chat, c2: Chat, from: Clock, to: Clock)
    requires WellFormedChat(c1, from) && Later(from, to) && Grows(c1, c2, from, to)
    ensures WellFormedChat(c2, to)
    ensures forall m :: m in c2.messages ==> m in c1.messages || m in c2.messages[|c1.messages|..]
  {
    var before := c1.messages;
    var extra := c2.messages[|before|..];
    assert c2.messages == before + extra;
    ChronologicalAppend(before, extra, from.now);
  }

  /** Writing back an open chat that only grew keeps the store valid: the
      appended messages take ids no record of the store has. */
  lemma ReplaceGrownKeepsValid(s: Store, c1: Chat, c2: Chat, to: Clock)
    requires Valid(s) && c1 in s.chats
    requires Later(s.clock, to) && Grows(c1, c2, s.clock, to)
    ensures Valid(Store(Replace(s.chats, c2), to))
  {
    var r := Replace(s.chats, c2);
    var extra := c2.messages[|c1.messages|..];
    ReplaceMembers(s.chats, c1, c2);
    GrownWellFormed(c1, c2, s.clock, to);
    forall c | c in r
      ensures WellFormedChat(c, to)
    {
      if c != c2 {
        assert WellFormedChat(c, s.clock);
      }
    }
    forall m | m in Messages(r)
      ensures m in Messages(s.chats) || m in extra
    {
      var c :| c in r && m in c.messages;
    }
  }
}
