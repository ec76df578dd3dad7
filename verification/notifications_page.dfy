/** The notification list (src/pages/Notifications.tsx): the viewer's
    notifications newest first, click routing, and "Mark all as read". */
module NotificationsPage {
  import opened Base
  import Seqs
  import Routes
  import Auth
  import ChatStore
  import NotificationStore
  import PostsStore
  import PostCard
  import ChatDetailPage

  type Notification = NotificationStore.Notification

  function IsNotRead(): Notification -> bool {
    (n: Notification) => !n.read
  }

  /** The page's own count: unread entries among the listed notifications. */
  function PageUnread(ns: seq<Notification>, u: UserId): nat {
    Seqs.Count(NotificationStore.UserNotifications(ns, u), IsNotRead())
  }

  /** The page's count agrees with the store's `unreadCount`, though the list is sorted. */
  lemma PageUnreadIsStoreCount(ns: seq<Notification>, u: UserId)
    ensures PageUnread(ns, u) == NotificationStore.UnreadCount(ns, u)
  {
    var mine := Seqs.Filter(ns, NotificationStore.IsFor(u));
    Seqs.CountSortDesc(mine, NotificationStore.CreatedAt, IsNotRead());
    Seqs.CountFilter(ns, NotificationStore.IsFor(u), IsNotRead(), NotificationStore.UnreadFor(u));
  }

  /** "Mark all as read" is offered exactly when the viewer has an unread notification. */
  predicate OffersMarkAll(ns: seq<Notification>, u: UserId) {
    PageUnread(ns, u) > 0
  }

  /** The button marks all of the viewer's notifications read, and is then no longer offered. */
  function MarkAllClick(ns: seq<Notification>, u: UserId): (r: seq<Notification>)
    ensures r == NotificationStore.MarkAllAsRead(ns, u)
    ensures !OffersMarkAll(r, u)
  {
    var r := NotificationStore.MarkAllAsRead(ns, u);
    NotificationStore.MarkAllAsReadClears(ns, u);
    PageUnreadIsStoreCount(r, u);
    r
  }

  /** `if (notification.entityId)`: present and not empty. */
  predicate HasEntity(n: Notification) {
    n.entityId.Some? && n.entityId.value != ""
  }

  /** The routing table of `handleNotificationClick`, as written: a follow
      opens the follower, a like or comment the post, a community request or
      approval the community (those two only with an entity id), and a
      message `/chat/` followed by the sender's user id. */
  function Target(n: Notification): (r: Option<Routes.Route>)
    ensures n.kind == NotificationStore.Follow ==> r == Some(Routes.UserPage(n.fromUserId))
    ensures n.kind in {NotificationStore.Like, NotificationStore.Comment} ==>
              r == if HasEntity(n) then Some(Routes.PostPage(n.entityId.value)) else None
    ensures n.kind in {NotificationStore.CommunityRequest, NotificationStore.CommunityApproved} ==>
              r == if HasEntity(n) then Some(Routes.CommunityPage(n.entityId.value)) else None
    ensures n.kind == NotificationStore.DirectMessage ==> r == Some(Routes.ChatPage(n.fromUserId))
  {
    match n.kind
    case Follow => Some(Routes.UserPage(n.fromUserId))
    case Like => if HasEntity(n) then Some(Routes.PostPage(n.entityId.value)) else None
    case Comment => if HasEntity(n) then Some(Routes.PostPage(n.entityId.value)) else None
    case CommunityRequest => if HasEntity(n) then Some(Routes.CommunityPage(n.entityId.value)) else None
    case CommunityApproved => if HasEntity(n) then Some(Routes.CommunityPage(n.entityId.value)) else None
    case DirectMessage => Some(Routes.ChatPage(n.fromUserId))
  }

  datatype Clicked = Clicked(notifications: seq<Notification>, navigate: Option<Routes.Route>)

  /** `handleNotificationClick`: the notification is marked read whatever its
      kind, then the page routes by the table. */
  function Click(ns: seq<Notification>, n: Notification): (r: Clicked)
    ensures r.notifications == NotificationStore.MarkAsRead(ns, n.id)
    ensures r.navigate == Target(n)
  {
    Clicked(NotificationStore.MarkAsRead(ns, n.id), Target(n))
  }

  /** A click takes exactly the records sharing the clicked id off the viewer's unread count. */
  lemma ClickMarksRead(ns: seq<Notification>, n: Notification, u: UserId)
    ensures NotificationStore.UnreadCount(Click(ns, n).notifications, u) ==
            Seqs.Count(ns, NotificationStore.UnreadForExcept(u, n.id))
    ensures forall i :: 0 <= i < |ns| && ns[i].id == n.id ==> Click(ns, n).notifications[i].read
  {
    NotificationStore.UnreadCountAfterMarkAsRead(ns, n.id, u);
  }

  /** The notification a like on someone else's post produces, once stored,
      leads back to that post when clicked. */
  lemma LikeNotificationLeadsToPost(user: Auth.User, post: PostsStore.Post, card: PostCard.Card,
                                    ns: seq<Notification>, id: Id, now: Time)
    requires !card.hasLiked && user.id != post.userId && post.id != ""
    ensures var d := PostCard.HandleLike(Some(user), post, card).notification.value;
            var stored := NotificationStore.AddNotification(ns, d, id, now);
            stored[0].userId == post.userId &&
            Click(stored, stored[0]).navigate == Some(Routes.PostPage(post.id))
  {
  }

  /** Likewise for the notification a comment on someone else's post produces. */
  lemma CommentNotificationLeadsToPost(user: Auth.User, post: PostsStore.Post, card: PostCard.Card,
                                       ns: seq<Notification>, id: Id, now: Time)
    requires user.id != post.userId && post.id != ""
    requires PostCard.HandleCommentSubmit(Some(user), post, card).comment.Some?
    ensures var d := PostCard.HandleCommentSubmit(Some(user), post, card).notification.value;
            var stored := NotificationStore.AddNotification(ns, d, id, now);
            stored[0].userId == post.userId &&
            Click(stored, stored[0]).navigate == Some(Routes.PostPage(post.id))
  {
  }

  /** As written, a message notification opens `/chat/<sender id>`; the chat
      page looks chats up by chat id, so unless some chat happens to carry the
      sender's user id as its id, the viewer is sent back to the chat list,
      even when a conversation with the sender exists. */
  lemma MessageClickMissesChat(viewer: Auth.User, n: Notification, chats: seq<ChatStore.Chat>)
    requires n.kind == NotificationStore.DirectMessage && n.fromUserId != ""
    requires forall c :: c in chats ==> c.id != n.fromUserId
    ensures Target(n) == Some(Routes.ChatPage(n.fromUserId))
    ensures ChatDetailPage.Open(Some(viewer), Some(n.fromUserId), chats) == ChatDetailPage.Redirect(Routes.ChatList)
  {
  }

  /** The concrete case: user '1' has chat 'chat1' with user '2'; a message
      notification from '2' still lands on the chat list. */
  lemma MessageClickMissesSeededChat()
    ensures var chats := [ChatStore.Chat("chat1", ["1", "2"], [], 0)];
            var viewer := Auth.MockUser("john@example.com");
            var n := NotificationStore.Notification("5", "1", NotificationStore.DirectMessage, "2", "sarahjones",
                                                    None, "sent you a message", false, 0);
            && ChatStore.GetChatWithUser(chats, viewer.id, n.fromUserId).Some?
            && ChatDetailPage.Open(Some(viewer), Some(n.fromUserId), chats) == ChatDetailPage.Redirect(Routes.ChatList)
  {
    var chats := [ChatStore.Chat("chat1", ["1", "2"], [], 0)];
    assert ChatStore.IsDirectWith(chats[0], "1", "2");
    assert "chat1" != "2";
  }

  /** The evidently intended routing: a message notification opens the
      viewer's direct chat with the sender, or the chat list when there is
      none; the other kinds route as written. */
  function IntendedTarget(n: Notification, viewer: UserId, chats: seq<ChatStore.Chat>): (r: Option<Routes.Route>)
    ensures n.kind != NotificationStore.DirectMessage ==> r == Target(n)
    ensures n.kind == NotificationStore.DirectMessage ==> r.Some?
    ensures n.kind == NotificationStore.DirectMessage && r.value.ChatPage? ==>
              exists c :: c in chats && c.id == r.value.id && ChatStore.IsDirectWith(c, viewer, n.fromUserId)
  {
    if n.kind != NotificationStore.DirectMessage then Target(n)
    else
      match ChatStore.GetChatWithUser(chats, viewer, n.fromUserId)
      case Some(c) => Some(Routes.ChatPage(c.id))
      case None => Some(Routes.ChatList)
  }

  /** With the intended routing, a message notification from someone the
      viewer has a chat with opens a conversation rather than bouncing. */
  lemma IntendedMessageClickOpensChat(viewer: Auth.User, n: Notification, chats: seq<ChatStore.Chat>)
    requires n.kind == NotificationStore.DirectMessage
    requires ChatStore.GetChatWithUser(chats, viewer.id, n.fromUserId).Some?
    requires ChatStore.GetChatWithUser(chats, viewer.id, n.fromUserId).value.id != ""
    ensures IntendedTarget(n, viewer.id, chats).value.ChatPage?
    ensures ChatDetailPage.Open(Some(viewer), Some(IntendedTarget(n, viewer.id, chats).value.id), chats).Conversation?
  {
    var c := ChatStore.GetChatWithUser(chats, viewer.id, n.fromUserId).value;
    assert c in chats;
  }
}
