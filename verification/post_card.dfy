/** The post card's like and comment handlers (src/components/post/PostCard.tsx). */
module PostCard {
  import opened Base
  import Text
  import Auth
  import PostsStore
  import NotificationStore

  /** The card's own state: the comment being typed, whether the comment box
      is open, and whether this card has sent a like. */
  datatype Card = Card(comment: string, showCommentInput: bool, hasLiked: bool)

  const Fresh := Card("", false, false)

  const LikedText: string := "liked your post"

  /** The notification text for a comment: a fixed lead-in and the comment's preview in quotes. */
  function CommentedText(comment: string): (r: string)
    ensures |comment| <= Text.PreviewLength ==> r == "commented on your post: \"" + comment + "\""
    ensures |comment| > Text.PreviewLength ==>
              r == "commented on your post: \"" + comment[..Text.PreviewLength] + Text.Ellipsis + "\""
    ensures |r| <= |"commented on your post: \"\""| + Text.PreviewLength + |Text.Ellipsis|
  {
    "commented on your post: \"" + Text.Preview(comment) + "\""
  }

  /** What `handleLike` asks of the contexts, and the card after it. */
  datatype LikeEffect = LikeEffect(likePost: bool, notification: Option<NotificationStore.NotificationDraft>, card: Card)

  /** `handleLike`: without a user, or once this card has liked, nothing
      happens; otherwise the post is liked, the card remembers it, and an
      author other than the liker is told. */
  function HandleLike(user: Option<Auth.User>, post: PostsStore.Post, card: Card): (r: LikeEffect)
    ensures r.likePost <==> user.Some? && !card.hasLiked
    ensures !r.likePost ==> r.notification.None? && r.card == card
    ensures r.likePost ==> r.card == card.(hasLiked := true)
    ensures r.notification.Some? <==> r.likePost && user.value.id != post.userId
    ensures r.notification.Some? ==>
              r.notification.value == NotificationStore.NotificationDraft(
                post.userId, NotificationStore.Like, user.value.id, user.value.username, Some(post.id), LikedText)
  {
    if user.None? || card.hasLiked then LikeEffect(false, None, card)
    else
      var u := user.value;
      var n := if u.id != post.userId then
                 Some(NotificationStore.NotificationDraft(post.userId, NotificationStore.Like, u.id, u.username,
                                                          Some(post.id), LikedText))
               else None;
      LikeEffect(true, n, card.(hasLiked := true))
  }

  /** The posts, the notifications and one card. */
  datatype World = World(posts: seq<PostsStore.Post>, notifications: seq<NotificationStore.Notification>, card: Card)

  /** Applies a handler's requests to the stores; `id` and `now` stand for the clock the stores read. */
  function LikeClick(w: World, user: Option<Auth.User>, post: PostsStore.Post, id: Id, now: Time): World {
    var e := HandleLike(user, post, w.card);
    var posts := if e.likePost then PostsStore.LikePost(w.posts, post.id) else w.posts;
    var ns := match e.notification
              case Some(d) => NotificationStore.AddNotification(w.notifications, d, id, now)
              case None => w.notifications;
    World(posts, ns, e.card)
  }

  /** `n` clicks on the like button of one card. */
  function LikeClicks(w: World, user: Option<Auth.User>, post: PostsStore.Post, id: Id, now: Time, n: nat): World
    decreases n
  {
    if n == 0 then w else LikeClicks(LikeClick(w, user, post, id, now), user, post, id, now, n - 1)
  }

  /** However often a signed-in user clicks like on a card, the post gains
      exactly one like and its author (if someone else) exactly one notification. */
  lemma {:induction false} LikeCountsOnce(w: World, user: Auth.User, post: PostsStore.Post, id: Id, now: Time, n: nat)
    requires !w.card.hasLiked && n >= 1
    ensures var after := LikeClicks(w, Some(user), post, id, now, n);
            && after.posts == PostsStore.LikePost(w.posts, post.id)
            && after.card.hasLiked
            && (user.id != post.userId ==>
                  |after.notifications| == |w.notifications| + 1 &&
                  after.notifications[0].userId == post.userId && after.notifications[0].kind == NotificationStore.Like)
            && (user.id == post.userId ==> after.notifications == w.notifications)
  {
    var first := LikeClick(w, Some(user), post, id, now);
    LikedCardIsInert(first, Some(user), post, id, now, n - 1);
  }

  /** Once a card has liked, further clicks change nothing. */
  lemma {:induction false} LikedCardIsInert(w: World, user: Option<Auth.User>, post: PostsStore.Post, id: Id, now: Time, n: nat)
    requires w.card.hasLiked
    ensures LikeClicks(w, user, post, id, now, n) == w
    decreases n
  {
    if n > 0 {
      assert LikeClick(w, user, post, id, now) == w;
      LikedCardIsInert(w, user, post, id, now, n - 1);
    }
  }

  /** What `handleCommentSubmit` asks of the contexts, and the card after it. */
  datatype CommentEffect = CommentEffect(
    comment: Option<PostsStore.CommentDraft>,
    notification: Option<NotificationStore.NotificationDraft>,
    card: Card)

  /** `handleCommentSubmit`: without a user, or with only white space typed,
      nothing happens. Otherwise the comment goes in as typed (not trimmed),
      an author other than the commenter is told with a preview of it, and
      the box is emptied and closed. */
  function HandleCommentSubmit(user: Option<Auth.User>, post: PostsStore.Post, card: Card): (r: CommentEffect)
    ensures r.comment.None? <==> user.None? || Text.Trim(card.comment) == ""
    ensures r.comment.None? ==> r.notification.None? && r.card == card
    ensures r.comment.Some? ==>
              && r.comment.value == PostsStore.CommentDraft(user.value.id, user.value.username,
                                                           user.value.profilePicture, card.comment)
              && r.card == card.(comment := "", showCommentInput := false)
              && (r.notification.Some? <==> user.value.id != post.userId)
    ensures r.notification.Some? ==>
              r.notification.value == NotificationStore.NotificationDraft(
                post.userId, NotificationStore.Comment, user.value.id, user.value.username,
                Some(post.id), CommentedText(card.comment))
  {
    if user.None? || Text.Trim(card.comment) == "" then CommentEffect(None, None, card)
    else
      var u := user.value;
      var n := if u.id != post.userId then
                 Some(NotificationStore.NotificationDraft(post.userId, NotificationStore.Comment, u.id, u.username,
                                                          Some(post.id), CommentedText(card.comment)))
               else None;
      CommentEffect(Some(PostsStore.CommentDraft(u.id, u.username, u.profilePicture, card.comment)), n,
                    card.(comment := "", showCommentInput := false))
  }

  /** A submitted comment reaches the post's comment list, last, as typed. */
  lemma CommentLandsOnPost(ps: seq<PostsStore.Post>, i: nat, user: Auth.User, card: Card, id: Id, now: Time)
    requires i < |ps| && Text.Trim(card.comment) != ""
    ensures var e := HandleCommentSubmit(Some(user), ps[i], card);
            var after := PostsStore.AddComment(ps, ps[i].id, e.comment.value, id, now);
            && |after[i].comments| == |ps[i].comments| + 1
            && after[i].comments[|ps[i].comments|].content == card.comment
            && after[i].comments[|ps[i].comments|].userId == user.id
  {
  }

  /** The comment button opens or closes the comment box and touches nothing else. */
  function ToggleComments(card: Card): (r: Card)
    ensures r.showCommentInput != card.showCommentInput
    ensures r.comment == card.comment && r.hasLiked == card.hasLiked
  {
    card.(showCommentInput := !card.showCommentInput)
  }

  /** Two presses of the comment button restore the card. */
  lemma ToggleTwice(card: Card)
    ensures ToggleComments(ToggleComments(card)) == card
  {
  }
}
