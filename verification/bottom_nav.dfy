/** The badges on the bottom navigation bar (src/components/layout/BottomNavigation.tsx). */
module BottomNav {
  import opened Base
  import Auth
  import ChatStore
  import NotificationStore

  /** A count badge: hidden, or showing a label. */
  datatype Badge = Hidden | Shown(caption: string)

  /** The decimal numeral of a single digit. */
  function Digit(n: nat): (r: string)
    requires n <= 9
    ensures |r| == 1 && '0' <= r[0] <= '9' && r[0] as int - '0' as int == n
  {
    [('0' as int + n) as char]
  }

  /** Badges are shown only for a positive count; above nine they read '9+'. */
  function BadgeFor(count: int): (r: Badge)
    ensures r.Hidden? <==> count <= 0
    ensures count > 9 ==> r == Shown("9+")
    ensures 0 < count <= 9 ==> r == Shown(Digit(count))
    ensures r.Shown? ==> 1 <= |r.caption| <= 2
  {
    if count <= 0 then Hidden
    else if count > 9 then Shown("9+")
    else Shown(Digit(count))
  }

  /** `notificationCount`: the store's unread count for the signed-in user, 0 without one. */
  function NotificationCount(user: Option<Auth.User>, ns: seq<NotificationStore.Notification>): (r: nat)
    ensures user.None? ==> r == 0
    ensures user.Some? ==> r == NotificationStore.UnreadCount(ns, user.value.id)
  {
    match user
    case None => 0
    case Some(u) => NotificationStore.UnreadCount(ns, u.id)
  }

  /** `messageCount`: the store's unread message count for the signed-in user, 0 without one. */
  function MessageCount(user: Option<Auth.User>, chats: seq<ChatStore.Chat>): (r: nat)
    ensures user.None? ==> r == 0
    ensures user.Some? ==> r == ChatStore.UnreadCount(chats, user.value.id)
  {
    match user
    case None => 0
    case Some(u) => ChatStore.UnreadCount(chats, u.id)
  }

  /** The bell shows a badge exactly when the user has an unread notification. */
  lemma NotificationBadgeShown(user: Auth.User, ns: seq<NotificationStore.Notification>)
    ensures BadgeFor(NotificationCount(Some(user), ns)).Shown? <==>
            exists i :: 0 <= i < |ns| && ns[i].userId == user.id && !ns[i].read
  {
  }

  /** The chat icon shows a badge exactly when a chat of the user holds a
      message from someone else that is not read. */
  lemma MessageBadgeShown(user: Auth.User, chats: seq<ChatStore.Chat>)
    ensures BadgeFor(MessageCount(Some(user), chats)).Shown? <==>
            exists i, k :: 0 <= i < |chats| && 0 <= k < |chats[i].messages| &&
                           user.id in chats[i].participants &&
                           chats[i].messages[k].senderId != user.id && !chats[i].messages[k].read
  {
  }

  /** After "mark all as read" the bell's badge is gone. */
  lemma MarkAllHidesBadge(user: Auth.User, ns: seq<NotificationStore.Notification>)
    ensures BadgeFor(NotificationCount(Some(user), NotificationStore.MarkAllAsRead(ns, user.id))) == Hidden
  {
    NotificationStore.MarkAllAsReadClears(ns, user.id);
  }
}
