/** One conversation (src/pages/ChatDetail.tsx): opening it marks the
    partner's messages read; the composer sends trimmed text. */
module ChatDetailPage {
  import opened Base
  import Seqs
  import Text
  import Routes
  import Auth
  import ChatStore
  import ChatsPage

  /** A route parameter is truthy: present and not empty. */
  predicate Given(chatId: Option<Id>) {
    chatId.Some? && chatId.value != ""
  }

  /** What the page shows: nothing, a redirect, or the conversation after its
      opening effect has marked it read. */
  datatype View =
    | Nothing
    | Redirect(to: Routes.Route)
    | Conversation(chats: seq<ChatStore.Chat>, chat: ChatStore.Chat, partner: string)

  /** Opening `/chat/<id>`: no user or no id shows nothing; an unknown chat
      sends the viewer back to the list; otherwise the chat is marked read for
      the viewer and shown with its partner's name. */
  function Open(user: Option<Auth.User>, chatId: Option<Id>, chats: seq<ChatStore.Chat>): (r: View)
    ensures user.None? || !Given(chatId) ==> r == Nothing
    ensures user.Some? && Given(chatId) && ChatStore.GetChat(chats, chatId.value).None? ==>
              r == Redirect(Routes.ChatList)
    ensures r.Conversation? <==>
              user.Some? && Given(chatId) && ChatStore.GetChat(chats, chatId.value).Some?
    ensures r.Conversation? ==>
              && r.chats == ChatStore.MarkChatAsRead(chats, chatId.value, user.value.id)
              && r.chat.id == chatId.value
              && r.chat == ChatStore.GetChat(r.chats, chatId.value).value
              && r.chat.participants == ChatStore.GetChat(chats, chatId.value).value.participants
              && |r.chat.messages| == |ChatStore.GetChat(chats, chatId.value).value.messages|
              && ChatStore.UnreadIn(r.chat, user.value.id) == 0
              && r.partner == ChatsPage.PartnerName(r.chat, user.value.id)
  {
    if user.None? || !Given(chatId) then Nothing
    else
      var id, u := chatId.value, user.value.id;
      match ChatStore.GetChat(chats, id)
      case None => Redirect(Routes.ChatList)
      case Some(found) =>
        var after := ChatStore.MarkChatAsRead(chats, id, u);
        MarkedIsFound(chats, id, u);
        var shown := ChatStore.GetChat(after, id).value;
        Conversation(after, shown, ChatsPage.PartnerName(shown, u))
  }

  /** After marking, `getChat` finds the same chat, with the same
      participants and messages, none of them unread by the viewer. */
  lemma MarkedIsFound(chats: seq<ChatStore.Chat>, chatId: Id, u: UserId)
    requires ChatStore.GetChat(chats, chatId).Some?
    ensures var found := ChatStore.GetChat(chats, chatId).value;
            var again := ChatStore.GetChat(ChatStore.MarkChatAsRead(chats, chatId, u), chatId);
            && again.Some? && again.value.id == chatId
            && again.value.participants == found.participants
            && |again.value.messages| == |found.messages|
            && ChatStore.UnreadIn(again.value, u) == 0
  {
    var after := ChatStore.MarkChatAsRead(chats, chatId, u);
    var found := ChatStore.GetChat(chats, chatId).value;
    var i :| 0 <= i < |chats| && chats[i] == found && found.id == chatId &&
             forall j :: 0 <= j < i ==> chats[j].id != chatId;
    ChatStore.MarkChatAsReadClears(chats, chatId, u, i);
    assert forall j :: 0 <= j < |chats| ==> after[j].id == chats[j].id;
    var again := ChatStore.GetChat(after, chatId).value;
    var k :| 0 <= k < |after| && after[k] == again && again.id == chatId &&
             forall j :: 0 <= j < k ==> after[j].id != chatId;
    assert chats[k].id == chatId;
    assert k == i;
  }

  /** Opening a chat takes exactly that chat's messages off the viewer's unread count. */
  lemma OpenClearsOnlyThisChat(user: Auth.User, chatId: Id, chats: seq<ChatStore.Chat>)
    requires chatId != "" && ChatStore.GetChat(chats, chatId).Some?
    ensures ChatStore.UnreadCount(Open(Some(user), Some(chatId), chats).chats, user.id) ==
            ChatStore.UnreadCount(Seqs.Filter(chats, ChatStore.IdIsNot(chatId)), user.id)
  {
    ChatStore.UnreadCountAfterMarkChatAsRead(chats, chatId, user.id);
  }

  /** The send button is enabled: the typed text is not only white space. */
  predicate CanSend(input: string) {
    Text.Trim(input) != ""
  }

  datatype Sent = Sent(chats: seq<ChatStore.Chat>, input: string)

  /** `handleSendMessage`: text that is only white space is not sent;
      otherwise the trimmed text goes to the chat from the viewer, without an
      image, and the input is emptied. */
  function HandleSendMessage(user: Auth.User, chatId: Id, chats: seq<ChatStore.Chat>, input: string,
                             id: Id, now: Time): (r: Sent)
    ensures !CanSend(input) ==> r == Sent(chats, input)
    ensures CanSend(input) ==>
              && r.input == ""
              && r.chats == ChatStore.SendMessage(chats, chatId,
                                                  ChatStore.MessageDraft(user.id, Text.Trim(input), None), id, now)
  {
    if !CanSend(input) then Sent(chats, input)
    else Sent(ChatStore.SendMessage(chats, chatId, ChatStore.MessageDraft(user.id, Text.Trim(input), None), id, now), "")
  }

  /** Sending closes the conversation with the viewer's trimmed text, and it
      never adds to the viewer's own unread count. */
  lemma SendAppendsOwnMessage(user: Auth.User, chatId: Id, chats: seq<ChatStore.Chat>, input: string,
                              id: Id, now: Time, i: nat)
    requires CanSend(input) && i < |chats| && chats[i].id == chatId
    ensures var after := HandleSendMessage(user, chatId, chats, input, id, now).chats;
            && ChatsPage.LastMessage(after[i]) ==
                 Some(ChatStore.Message(id, user.id, Text.Trim(input), None, now, false))
            && ChatStore.UnreadCount(after, user.id) == ChatStore.UnreadCount(chats, user.id)
  {
    ChatStore.UnreadCountAfterSendMessage(chats, chatId, ChatStore.MessageDraft(user.id, Text.Trim(input), None),
                                          id, now, user.id);
  }

  /** The mark-as-read effect runs again when the message count changes; after
      the viewer's own send into the opened chat that second marking changes nothing. */
  lemma RemarkAfterSendIsNoOp(user: Auth.User, chatId: Id, chats: seq<ChatStore.Chat>, input: string,
                              id: Id, now: Time)
    ensures var viewed := ChatStore.MarkChatAsRead(chats, chatId, user.id);
            var sent := HandleSendMessage(user, chatId, viewed, input, id, now).chats;
            ChatStore.MarkChatAsRead(sent, chatId, user.id) == sent
  {
    if CanSend(input) {
      ChatStore.MarkAfterOwnSendIsNoOp(chats, chatId, ChatStore.MessageDraft(user.id, Text.Trim(input), None),
                                       id, now, user.id);
    } else {
      ChatStore.MarkChatAsReadIdempotent(chats, chatId, user.id);
    }
  }

  /** `handleKeyDown`: Enter without Shift sends; any other key leaves everything as it was. */
  function HandleKeyDown(key: string, shift: bool, user: Auth.User, chatId: Id, chats: seq<ChatStore.Chat>,
                         input: string, id: Id, now: Time): (r: Sent)
    ensures key == "Enter" && !shift ==> r == HandleSendMessage(user, chatId, chats, input, id, now)
    ensures key != "Enter" || shift ==> r == Sent(chats, input)
  {
    if key == "Enter" && !shift then HandleSendMessage(user, chatId, chats, input, id, now)
    else Sent(chats, input)
  }
}
