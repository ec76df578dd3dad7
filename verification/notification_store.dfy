/** The notification store: a feed of event records, each addressed to one
    user (src/context/NotificationContext.tsx). New records go to the front.
    Ids are not assumed unique. */
module NotificationStore {
  import opened Base
  import Seqs

  datatype NotificationType =
    | Follow
    | Like
    | Comment
    | CommunityRequest
    | CommunityApproved
    | DirectMessage

  datatype Notification = Notification(
    id: Id,
    userId: UserId,            // the recipient
    kind: NotificationType,
    fromUserId: UserId,
    fromUsername: string,
    entityId: Option<Id>,      // a post id or a community id
    content: string,
    read: bool,
    createdAt: Time)

  /** What a caller hands to `addNotification`: a record without id, read flag and creation time. */
  datatype NotificationDraft = NotificationDraft(
    userId: UserId,
    kind: NotificationType,
    fromUserId: UserId,
    fromUsername: string,
    entityId: Option<Id>,
    content: string)

  function CreatedAt(n: Notification): int {
    n.createdAt
  }

  function IsFor(u: UserId): Notification -> bool {
    (n: Notification) => n.userId == u
  }

  /** `userNotifications`: the records addressed to `u`, newest first; records
      created at the same time keep their order in the store. */
  function UserNotifications(ns: seq<Notification>, u: UserId): (r: seq<Notification>)
    ensures forall n :: n in r <==> n in ns && n.userId == u
    ensures forall n :: multiset(r)[n] == if n.userId == u then multiset(ns)[n] else 0
    ensures forall i, j :: 0 <= i < j < |r| ==> r[i].createdAt >= r[j].createdAt
  {
    Seqs.SortedFilter(ns, IsFor(u), CreatedAt)
  }

  function CreatedAtFor(u: UserId, t: int): Notification -> bool {
    (n: Notification) => n.userId == u && n.createdAt == t
  }

  /** Records of `u` created at the same time keep their order in the store. */
  lemma UserNotificationsStable(ns: seq<Notification>, u: UserId, t: int)
    ensures Seqs.Filter(UserNotifications(ns, u), Seqs.KeyIs(CreatedAt, t)) == Seqs.Filter(ns, CreatedAtFor(u, t))
  {
    Seqs.SortedFilterStable(ns, IsFor(u), CreatedAt, t, CreatedAtFor(u, t));
  }

  predicate IsUnreadFor(n: Notification, u: UserId) {
    n.userId == u && !n.read
  }

  function UnreadFor(u: UserId): Notification -> bool {
    (n: Notification) => IsUnreadFor(n, u)
  }

  /** `unreadCount`: how many records addressed to `u` are unread. */
  function UnreadCount(ns: seq<Notification>, u: UserId): (r: nat)
    ensures r <= |ns|
    ensures r > 0 <==> exists i :: 0 <= i < |ns| && ns[i].userId == u && !ns[i].read
  {
    Seqs.CountPositive(ns, UnreadFor(u));
    Seqs.Count(ns, UnreadFor(u))
  }

  /** `addNotification`: one unread record carrying the caller's fields is put
      in front of the others. The store does not drop a notification whose
      sender is its recipient. */
  function AddNotification(ns: seq<Notification>, d: NotificationDraft, id: Id, now: Time): (r: seq<Notification>)
    ensures |r| == |ns| + 1 && r[1..] == ns
    ensures r[0] == Notification(id, d.userId, d.kind, d.fromUserId, d.fromUsername, d.entityId, d.content, false, now)
  {
    [Notification(id, d.userId, d.kind, d.fromUserId, d.fromUsername, d.entityId, d.content, false, now)] + ns
  }

  /** Adding a record raises the recipient's unread count by one, whoever sent
      it, and leaves every other user's count alone. */
  lemma UnreadCountAfterAdd(ns: seq<Notification>, d: NotificationDraft, id: Id, now: Time, u: UserId)
    ensures UnreadCount(AddNotification(ns, d, id, now), u) == UnreadCount(ns, u) + if d.userId == u then 1 else 0
  {
    var r := AddNotification(ns, d, id, now);
    assert r == [r[0]] + ns;
    Seqs.FilterConcat([r[0]], ns, UnreadFor(u));
  }

  function MarkOne(n: Notification, id: Id): Notification {
    if n.id == id then n.(read := true) else n
  }

  /** `markAsRead`: the records with the id become read; the others, the length
      and the order stay; an id no record carries changes nothing. */
  function MarkAsRead(ns: seq<Notification>, id: Id): (r: seq<Notification>)
    ensures |r| == |ns|
    ensures forall i :: 0 <= i < |ns| && ns[i].id != id ==> r[i] == ns[i]
    ensures forall i :: 0 <= i < |ns| && ns[i].id == id ==> r[i] == ns[i].(read := true)
    ensures (forall n :: n in ns ==> n.id != id) ==> r == ns
  {
    seq(|ns|, i requires 0 <= i < |ns| => MarkOne(ns[i], id))
  }

  function UnreadForExcept(u: UserId, id: Id): Notification -> bool {
    (n: Notification) => IsUnreadFor(n, u) && n.id != id
  }

  /** `markAsRead(id)` removes from the unread count of `u` exactly the unread records of `u` with that id. */
  lemma UnreadCountAfterMarkAsRead(ns: seq<Notification>, id: Id, u: UserId)
    ensures UnreadCount(MarkAsRead(ns, id), u) == Seqs.Count(ns, UnreadForExcept(u, id))
  {
    Seqs.CountPointwise(MarkAsRead(ns, id), UnreadFor(u), ns, UnreadForExcept(u, id));
  }

  /** Marking a record read twice is marking it once. */
  lemma MarkAsReadIdempotent(ns: seq<Notification>, id: Id)
    ensures MarkAsRead(MarkAsRead(ns, id), id) == MarkAsRead(ns, id)
  {
  }

  function MarkMine(n: Notification, u: UserId): Notification {
    if n.userId == u then n.(read := true) else n
  }

  /** `markAllAsRead`: every record addressed to `u` becomes read; records
      addressed to anyone else stay as they were. */
  function MarkAllAsRead(ns: seq<Notification>, u: UserId): (r: seq<Notification>)
    ensures |r| == |ns|
    ensures forall i :: 0 <= i < |ns| && ns[i].userId != u ==> r[i] == ns[i]
    ensures forall i :: 0 <= i < |ns| && ns[i].userId == u ==> r[i] == ns[i].(read := true)
  {
    seq(|ns|, i requires 0 <= i < |ns| => MarkMine(ns[i], u))
  }

  /** After `markAllAsRead(u)` nothing is unread for `u`. */
  lemma MarkAllAsReadClears(ns: seq<Notification>, u: UserId)
    ensures UnreadCount(MarkAllAsRead(ns, u), u) == 0
  {
    var r := MarkAllAsRead(ns, u);
    if Seqs.Filter(r, UnreadFor(u)) != [] {
      var n := Seqs.Filter(r, UnreadFor(u))[0];
      assert n in r;
    }
  }

  /** `markAllAsRead(u)` leaves the feed of every other user exactly as it was,
      and with it their unread count. */
  lemma MarkAllAsReadKeepsOthers(ns: seq<Notification>, u: UserId, v: UserId)
    requires v != u
    ensures Seqs.Filter(MarkAllAsRead(ns, u), IsFor(v)) == Seqs.Filter(ns, IsFor(v))
    ensures UnreadCount(MarkAllAsRead(ns, u), v) == UnreadCount(ns, v)
  {
    Seqs.FilterPointwise(MarkAllAsRead(ns, u), ns, IsFor(v));
    Seqs.CountPointwise(MarkAllAsRead(ns, u), UnreadFor(v), ns, UnreadFor(v));
  }

  /** Marking all read twice is marking all read once. */
  lemma MarkAllAsReadIdempotent(ns: seq<Notification>, u: UserId)
    ensures MarkAllAsRead(MarkAllAsRead(ns, u), u) == MarkAllAsRead(ns, u)
  {
  }
}
