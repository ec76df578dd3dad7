/** The conversation list (src/pages/Chats.tsx): the viewer's chats, most
    recent first, each with its partner, last message and unread badge. */
module ChatsPage {
  import opened Base
  import Seqs
  import Text
  import Routes
  import ChatStore

  /** The user names the chat pages know, by user id. */
  function KnownUsername(id: UserId): Option<string> {
    if id == "2" then Some("sarahjones")
    else if id == "3" then Some("mikesmith")
    else if id == "4" then Some("emilywong")
    else if id == "5" then Some("alexchen")
    else if id == "6" then Some("davidlee")
    else None
  }

  const UnknownUser: string := "Unknown User"

  /** `participants.find(id => id !== viewer)`: the first other participant. */
  function PartnerId(c: ChatStore.Chat, viewer: UserId): (r: Option<UserId>)
    ensures r.None? <==> forall p :: p in c.participants ==> p == viewer
    ensures r.Some? ==> r.value in c.participants && r.value != viewer
    ensures r.Some? ==> exists i :: 0 <= i < |c.participants| && c.participants[i] == r.value &&
                                    forall j :: 0 <= j < i ==> c.participants[j] == viewer
  {
    Seqs.Find(c.participants, Seqs.IsNot(viewer))
  }

  /** The name shown for the chat: the partner's known name, otherwise 'Unknown User'. */
  function PartnerName(c: ChatStore.Chat, viewer: UserId): (r: string)
    ensures PartnerId(c, viewer).None? ==> r == UnknownUser
    ensures PartnerId(c, viewer).Some? ==> r == KnownUsername(PartnerId(c, viewer).value).GetOr(UnknownUser)
  {
    match PartnerId(c, viewer)
    case None => UnknownUser
    case Some(p) => KnownUsername(p).GetOr(UnknownUser)
  }

  /** In a chat created for two different users each sees the other as partner. */
  lemma DirectChatPartners(chats: seq<ChatStore.Chat>, a: UserId, b: UserId, id: Id, now: Time)
    requires a != b
    ensures var c := ChatStore.CreateChat(chats, [a, b], id, now).chat;
            PartnerId(c, a) == Some(b) && PartnerId(c, b) == Some(a)
  {
    var c := ChatStore.CreateChat(chats, [a, b], id, now).chat;
    assert c.participants[0] == a && c.participants[1] == b;
  }

  /** `getLastMessage`. */
  function LastMessage(c: ChatStore.Chat): (r: Option<ChatStore.Message>)
    ensures r.None? <==> c.messages == []
    ensures r.Some? ==> r.value == c.messages[|c.messages| - 1]
  {
    if |c.messages| == 0 then None else Some(c.messages[|c.messages| - 1])
  }

  /** The line under the partner's name: "You: " before the viewer's own
      messages, the text cut to its preview, and an image marker. */
  datatype LastLine = LastLine(fromViewer: bool, text: string, hasImage: bool)

  datatype Row = Row(link: Routes.Route, partner: string, lastLine: Option<LastLine>, unread: nat, highlighted: bool)

  /** One row of the list. Its badge counts the chat's messages from others
      not yet read, and the row is highlighted exactly when there are some. */
  function RowFor(c: ChatStore.Chat, viewer: UserId): (r: Row)
    ensures r.link == Routes.ChatPage(c.id) && r.partner == PartnerName(c, viewer)
    ensures r.unread == ChatStore.UnreadIn(c, viewer) && (r.highlighted <==> r.unread > 0)
    ensures r.lastLine.None? <==> c.messages == []
    ensures r.lastLine.Some? ==>
              var m := c.messages[|c.messages| - 1];
              && (r.lastLine.value.fromViewer <==> m.senderId == viewer)
              && r.lastLine.value.text == Text.Preview(m.content)
              && (r.lastLine.value.hasImage <==> m.imageUrl.Some? && m.imageUrl.value != "")
  {
    var n := ChatStore.UnreadIn(c, viewer);
    var line := match LastMessage(c)
                case None => None
                case Some(m) => Some(LastLine(m.senderId == viewer, Text.Preview(m.content),
                                              m.imageUrl.Some? && m.imageUrl.value != ""));
    Row(Routes.ChatPage(c.id), PartnerName(c, viewer), line, n, n > 0)
  }

  /** The whole list: nothing without a signed-in user, otherwise one row per
      chat of the viewer, most recently active first. */
  function Rows(chats: seq<ChatStore.Chat>, viewer: Option<UserId>): (r: Option<seq<Row>>)
    ensures r.None? <==> viewer.None?
    ensures r.Some? ==>
              var listed := ChatStore.UserChats(chats, viewer.value);
              |r.value| == |listed| &&
              forall i :: 0 <= i < |listed| ==> r.value[i] == RowFor(listed[i], viewer.value)
  {
    match viewer
    case None => None
    case Some(u) =>
      var listed := ChatStore.UserChats(chats, u);
      Some(seq(|listed|, i requires 0 <= i < |listed| => RowFor(listed[i], u)))
  }

  function RowUnread(viewer: UserId): ChatStore.Chat -> nat {
    (c: ChatStore.Chat) => ChatStore.UnreadIn(c, viewer)
  }

  function BadgeOf(r: Row): nat {
    r.unread
  }

  /** The badges of the list add up to the unread count the store reports. */
  lemma BadgesAddUp(chats: seq<ChatStore.Chat>, viewer: UserId)
    ensures Seqs.Sum(Rows(chats, Some(viewer)).value, BadgeOf) == ChatStore.UnreadCount(chats, viewer)
  {
    var mine := Seqs.Filter(chats, ChatStore.HasParticipant(viewer));
    var listed := ChatStore.UserChats(chats, viewer);
    var rows := Rows(chats, Some(viewer)).value;
    Seqs.SumPointwise(rows, BadgeOf, listed, RowUnread(viewer));
    Seqs.SumSortDesc(mine, ChatStore.LastActivity, RowUnread(viewer));
    Seqs.SumFilter(chats, ChatStore.HasParticipant(viewer), RowUnread(viewer), ChatStore.Contribution(viewer));
  }
}
