/** The chat store: conversations, their messages and the read state of each
    message (src/context/ChatContext.tsx). The collection is a value; every
    operation that changes it returns the new collection. Ids are not assumed
    unique, so an update acts on every chat carrying the id, as `Array.map` does. */
module ChatStore {
  import opened Base
  import Seqs

  datatype Message = Message(
    id: Id,
    senderId: UserId,
    content: string,
    imageUrl: Option<string>,
    timestamp: Time,
    read: bool)

  /** What a caller hands to `sendMessage`: a message without id, timestamp and read flag. */
  datatype MessageDraft = MessageDraft(senderId: UserId, content: string, imageUrl: Option<string>)

  datatype Chat = Chat(id: Id, participants: seq<UserId>, messages: seq<Message>, lastActivity: Time)

  /** The chat and the collection after `createChat`. */
  datatype Created = Created(chats: seq<Chat>, chat: Chat)

  function LastActivity(c: Chat): int {
    c.lastActivity
  }

  function HasParticipant(u: UserId): Chat -> bool {
    (c: Chat) => u in c.participants
  }

  function HasId(chatId: Id): Chat -> bool {
    (c: Chat) => c.id == chatId
  }

  /** The chats `u` takes part in, most recent activity first; chats with
      equal activity keep their order in the collection. */
  function UserChats(chats: seq<Chat>, u: UserId): (r: seq<Chat>)
    ensures forall c :: c in r <==> c in chats && u in c.participants
    ensures forall c :: multiset(r)[c] == if u in c.participants then multiset(chats)[c] else 0
    ensures forall i, j :: 0 <= i < j < |r| ==> r[i].lastActivity >= r[j].lastActivity
  {
    Seqs.SortedFilter(chats, HasParticipant(u), LastActivity)
  }

  function ActiveAt(u: UserId, t: Time): Chat -> bool {
    (c: Chat) => u in c.participants && c.lastActivity == t
  }

  /** Among the chats of `u` with the same last activity, the listing keeps collection order. */
  lemma UserChatsStable(chats: seq<Chat>, u: UserId, t: Time)
    ensures Seqs.Filter(UserChats(chats, u), Seqs.KeyIs(LastActivity, t)) ==
            Seqs.Filter(chats, ActiveAt(u, t))
  {
    Seqs.SortedFilterStable(chats, HasParticipant(u), LastActivity, t, ActiveAt(u, t));
  }

  /** The first chat with the id, absent when there is none. */
  function GetChat(chats: seq<Chat>, chatId: Id): (r: Option<Chat>)
    ensures r.None? <==> forall c :: c in chats ==> c.id != chatId
    ensures r.Some? ==> exists i :: 0 <= i < |chats| && chats[i] == r.value && r.value.id == chatId &&
                                    forall j :: 0 <= j < i ==> chats[j].id != chatId
  {
    Seqs.Find(chats, HasId(chatId))
  }

  /** `c` has exactly two participants, and both `a` and `b` are among them. */
  predicate IsDirectWith(c: Chat, a: UserId, b: UserId) {
    a in c.participants && b in c.participants && |c.participants| == 2
  }

  function DirectWith(a: UserId, b: UserId): Chat -> bool {
    (c: Chat) => IsDirectWith(c, a, b)
  }

  /** The first two-person chat containing both users, absent when there is none. */
  function GetChatWithUser(chats: seq<Chat>, a: UserId, b: UserId): (r: Option<Chat>)
    ensures r.None? <==> forall c :: c in chats ==> !IsDirectWith(c, a, b)
    ensures r.Some? ==> exists i :: 0 <= i < |chats| && chats[i] == r.value && IsDirectWith(r.value, a, b) &&
                                    forall j :: 0 <= j < i ==> !IsDirectWith(chats[j], a, b)
  {
    Seqs.Find(chats, DirectWith(a, b))
  }

  /** The stored message: the draft's fields, the given id and time, unread. */
  function NewMessage(d: MessageDraft, id: Id, now: Time): Message {
    Message(id, d.senderId, d.content, d.imageUrl, now, false)
  }

  function AppendTo(c: Chat, chatId: Id, m: Message): Chat {
    if c.id == chatId then c.(messages := c.messages + [m], lastActivity := m.timestamp) else c
  }

  /** `sendMessage`: every chat with the id gets the new unread message at the
      end of its messages and the message time as last activity; the content
      is stored as given, whatever it is. */
  function SendMessage(chats: seq<Chat>, chatId: Id, d: MessageDraft, id: Id, now: Time): (r: seq<Chat>)
    ensures |r| == |chats|
    ensures forall i :: 0 <= i < |chats| && chats[i].id != chatId ==> r[i] == chats[i]
    ensures forall i :: 0 <= i < |chats| && chats[i].id == chatId ==>
              && r[i].id == chatId
              && r[i].participants == chats[i].participants
              && |r[i].messages| == |chats[i].messages| + 1
              && r[i].messages[..|chats[i].messages|] == chats[i].messages
              && r[i].messages[|chats[i].messages|] ==
                   Message(id, d.senderId, d.content, d.imageUrl, now, false)
              && r[i].lastActivity == now
    ensures (forall c :: c in chats ==> c.id != chatId) ==> r == chats
  {
    var m := NewMessage(d, id, now);
    seq(|chats|, i requires 0 <= i < |chats| => AppendTo(chats[i], chatId, m))
  }

  /** `createChat`: a new chat with the given participants and no messages is
      added at the end. Nothing checks for an existing chat between the same users. */
  function CreateChat(chats: seq<Chat>, participants: seq<UserId>, id: Id, now: Time): (r: Created)
    ensures |r.chats| == |chats| + 1 && r.chats[..|chats|] == chats && r.chats[|chats|] == r.chat
    ensures r.chat.id == id && r.chat.participants == participants
    ensures r.chat.messages == [] && r.chat.lastActivity == now
  {
    var c := Chat(id, participants, [], now);
    Created(chats + [c], c)
  }

  /** Creating a chat never changes which chat `getChatWithUser` finds when one existed. */
  lemma CreateChatKeepsFoundChat(chats: seq<Chat>, participants: seq<UserId>, id: Id, now: Time, a: UserId, b: UserId)
    requires GetChatWithUser(chats, a, b).Some?
    ensures GetChatWithUser(CreateChat(chats, participants, id, now).chats, a, b) == GetChatWithUser(chats, a, b)
  {
    var after := CreateChat(chats, participants, id, now).chats;
    var i := Seqs.FindIndex(chats, DirectWith(a, b)).value;
    assert after[i] == chats[i];
    var k := Seqs.FindIndex(after, DirectWith(a, b));
    assert k == Some(i);
  }

  /** When no direct chat between two distinct users existed, one created for them is found next. */
  lemma CreateChatIsFound(chats: seq<Chat>, id: Id, now: Time, a: UserId, b: UserId)
    requires a != b
    requires GetChatWithUser(chats, a, b).None?
    ensures GetChatWithUser(CreateChat(chats, [a, b], id, now).chats, a, b) == Some(Chat(id, [a, b], [], now))
  {
    var after := CreateChat(chats, [a, b], id, now).chats;
    assert after[|chats|] == Chat(id, [a, b], [], now);
    assert IsDirectWith(after[|chats|], a, b);
  }

  /** Each creation for a pair that already has a direct chat adds another one:
      direct chats are not unique. */
  lemma CreateChatDuplicates(chats: seq<Chat>, id: Id, now: Time, a: UserId, b: UserId)
    ensures Seqs.Count(CreateChat(chats, [a, b], id, now).chats, DirectWith(a, b)) ==
            Seqs.Count(chats, DirectWith(a, b)) + 1
  {
    var c := Chat(id, [a, b], [], now);
    Seqs.FilterConcat(chats, [c], DirectWith(a, b));
    assert IsDirectWith(c, a, b);
  }

  /** The read transition of one message as seen by viewer `u`. */
  function MarkMessage(m: Message, u: UserId): Message {
    if m.senderId != u && !m.read then m.(read := true) else m
  }

  function MarkChat(c: Chat, chatId: Id, u: UserId): Chat {
    if c.id == chatId then
      c.(messages := seq(|c.messages|, k requires 0 <= k < |c.messages| => MarkMessage(c.messages[k], u)))
    else c
  }

  /** `markChatAsRead`: in every chat with the id, each message `u` did not send
      becomes read; nothing else changes, neither the number nor the order of messages. */
  function MarkChatAsRead(chats: seq<Chat>, chatId: Id, u: UserId): (r: seq<Chat>)
    ensures |r| == |chats|
    ensures forall i :: 0 <= i < |chats| && chats[i].id != chatId ==> r[i] == chats[i]
    ensures forall i :: 0 <= i < |chats| && chats[i].id == chatId ==>
              && r[i].id == chats[i].id
              && r[i].participants == chats[i].participants
              && r[i].lastActivity == chats[i].lastActivity
              && |r[i].messages| == |chats[i].messages|
              && forall k :: 0 <= k < |r[i].messages| ==>
                   r[i].messages[k] ==
                     if chats[i].messages[k].senderId != u then chats[i].messages[k].(read := true)
                     else chats[i].messages[k]
  {
    seq(|chats|, i requires 0 <= i < |chats| => MarkChat(chats[i], chatId, u))
  }

  /** Marking a chat read twice is marking it once. */
  lemma MarkChatAsReadIdempotent(chats: seq<Chat>, chatId: Id, u: UserId)
    ensures MarkChatAsRead(MarkChatAsRead(chats, chatId, u), chatId, u) == MarkChatAsRead(chats, chatId, u)
  {
    var once := MarkChatAsRead(chats, chatId, u);
    var twice := MarkChatAsRead(once, chatId, u);
    forall i | 0 <= i < |chats| ensures twice[i] == once[i] {
      if chats[i].id == chatId {
        assert twice[i].messages == once[i].messages;
      }
    }
  }

  /** Marking a chat read again after `u` sent a message to it changes
      nothing: the new message is `u`'s own and the earlier ones are read. */
  lemma MarkAfterOwnSendIsNoOp(chats: seq<Chat>, chatId: Id, d: MessageDraft, id: Id, now: Time, u: UserId)
    requires d.senderId == u
    ensures var sent := SendMessage(MarkChatAsRead(chats, chatId, u), chatId, d, id, now);
            MarkChatAsRead(sent, chatId, u) == sent
  {
    var marked := MarkChatAsRead(chats, chatId, u);
    var sent := SendMessage(marked, chatId, d, id, now);
    var again := MarkChatAsRead(sent, chatId, u);
    forall i | 0 <= i < |chats| ensures again[i] == sent[i] {
      if chats[i].id == chatId {
        forall k | 0 <= k < |sent[i].messages| ensures again[i].messages[k] == sent[i].messages[k] {
          if k < |chats[i].messages| {
            assert sent[i].messages[k] == marked[i].messages[k];
          }
        }
        assert again[i].messages == sent[i].messages;
      }
    }
  }

  /** A message `u` has not seen: sent by someone else and not read. */
  predicate IsUnreadFor(m: Message, u: UserId) {
    m.senderId != u && !m.read
  }

  function UnreadFor(u: UserId): Message -> bool {
    (m: Message) => IsUnreadFor(m, u)
  }

  /** The messages of one chat `u` has not seen. */
  function UnreadIn(c: Chat, u: UserId): nat {
    Seqs.Count(c.messages, UnreadFor(u))
  }

  /** What one chat adds to the unread count of `u`. */
  function ContributionOf(c: Chat, u: UserId): nat {
    if u in c.participants then UnreadIn(c, u) else 0
  }

  function Contribution(u: UserId): Chat -> nat {
    (c: Chat) => ContributionOf(c, u)
  }

  /** `getUnreadCount`: the unseen messages of `u` over all chats `u` takes part in. */
  function UnreadCount(chats: seq<Chat>, u: UserId): (r: nat)
    ensures r > 0 <==> exists i, k :: 0 <= i < |chats| && 0 <= k < |chats[i].messages| &&
                                      u in chats[i].participants &&
                                      chats[i].messages[k].senderId != u && !chats[i].messages[k].read
  {
    UnseenSomewhere(chats, u);
    Seqs.Sum(chats, Contribution(u))
  }

  /** The sum over the chats is positive exactly when some chat of `u` holds a
      message from someone else that is not read. */
  lemma UnseenSomewhere(chats: seq<Chat>, u: UserId)
    ensures Seqs.Sum(chats, Contribution(u)) > 0 <==>
            exists i, k :: 0 <= i < |chats| && 0 <= k < |chats[i].messages| &&
                           u in chats[i].participants &&
                           chats[i].messages[k].senderId != u && !chats[i].messages[k].read
  {
    var f := Contribution(u);
    Seqs.SumPositive(chats, f);
    forall i | 0 <= i < |chats|
      ensures f(chats[i]) > 0 <==>
              u in chats[i].participants &&
              exists k :: 0 <= k < |chats[i].messages| &&
                          chats[i].messages[k].senderId != u && !chats[i].messages[k].read
    {
      Seqs.CountPositive(chats[i].messages, UnreadFor(u));
    }
  }

  /** No message in a chat is unseen by `u` when every message is read or sent by `u`. */
  lemma NoUnreadIn(c: Chat, u: UserId)
    requires forall k :: 0 <= k < |c.messages| ==> !IsUnreadFor(c.messages[k], u)
    ensures UnreadIn(c, u) == 0
  {
    if Seqs.Filter(c.messages, UnreadFor(u)) != [] {
      var m := Seqs.Filter(c.messages, UnreadFor(u))[0];
      assert m in c.messages;
    }
  }

  /** After `markChatAsRead(chatId, u)` no chat with that id holds a message `u` has not seen. */
  lemma MarkChatAsReadClears(chats: seq<Chat>, chatId: Id, u: UserId, i: nat)
    requires i < |chats| && chats[i].id == chatId
    ensures UnreadIn(MarkChatAsRead(chats, chatId, u)[i], u) == 0
  {
    NoUnreadIn(MarkChatAsRead(chats, chatId, u)[i], u);
  }

  function IdIsNot(chatId: Id): Chat -> bool {
    (c: Chat) => c.id != chatId
  }

  function OutsideContribution(chatId: Id, u: UserId): Chat -> nat {
    (c: Chat) => if c.id != chatId then ContributionOf(c, u) else 0
  }

  /** `markChatAsRead(chatId, u)` takes away exactly the contribution of the
      chats with that id from the unread count of `u`. */
  lemma UnreadCountAfterMarkChatAsRead(chats: seq<Chat>, chatId: Id, u: UserId)
    ensures UnreadCount(MarkChatAsRead(chats, chatId, u), u) ==
            UnreadCount(Seqs.Filter(chats, IdIsNot(chatId)), u)
  {
    var after := MarkChatAsRead(chats, chatId, u);
    var masked := OutsideContribution(chatId, u);
    forall i | 0 <= i < |chats| ensures Contribution(u)(after[i]) == masked(chats[i]) {
      if chats[i].id == chatId {
        MarkChatAsReadClears(chats, chatId, u, i);
      }
    }
    Seqs.SumPointwise(after, Contribution(u), chats, masked);
    Seqs.SumFilter(chats, IdIsNot(chatId), Contribution(u), masked);
  }

  /** Appending a message adds one to the unread count of a chat exactly when `u` has not seen it. */
  lemma UnreadInAppend(c: Chat, chatId: Id, m: Message, u: UserId)
    requires c.id == chatId
    ensures UnreadIn(AppendTo(c, chatId, m), u) == UnreadIn(c, u) + if IsUnreadFor(m, u) then 1 else 0
  {
    Seqs.FilterConcat(c.messages, [m], UnreadFor(u));
  }

  function IdAndMember(chatId: Id, u: UserId): Chat -> bool {
    (c: Chat) => c.id == chatId && u in c.participants
  }

  function NewUnread(chatId: Id, u: UserId, sender: UserId): Chat -> nat {
    (c: Chat) => if c.id == chatId && u in c.participants && sender != u then 1 else 0
  }

  function WithNewUnread(chatId: Id, u: UserId, sender: UserId): Chat -> nat {
    (c: Chat) => ContributionOf(c, u) + if c.id == chatId && u in c.participants && sender != u then 1 else 0
  }

  /** A message never counts as unread for its own sender; for any other
      participant it adds one per chat carrying the id. */
  lemma UnreadCountAfterSendMessage(chats: seq<Chat>, chatId: Id, d: MessageDraft, id: Id, now: Time, u: UserId)
    ensures UnreadCount(SendMessage(chats, chatId, d, id, now), u) ==
            UnreadCount(chats, u) + if d.senderId == u then 0 else Seqs.Count(chats, IdAndMember(chatId, u))
  {
    var after := SendMessage(chats, chatId, d, id, now);
    var m := NewMessage(d, id, now);
    var extra := NewUnread(chatId, u, d.senderId);
    var total := WithNewUnread(chatId, u, d.senderId);
    forall i | 0 <= i < |chats| ensures Contribution(u)(after[i]) == total(chats[i]) {
      if chats[i].id == chatId {
        UnreadInAppend(chats[i], chatId, m, u);
      }
    }
    Seqs.SumPointwise(after, Contribution(u), chats, total);
    Seqs.SumPlus(chats, Contribution(u), extra, total);
    if d.senderId == u {
      Seqs.SumZero(chats, extra);
    } else {
      Seqs.SumIndicator(chats, IdAndMember(chatId, u), extra);
    }
  }
}
