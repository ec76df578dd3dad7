/** The post feed with its like counters and comments (src/context/PostsContext.tsx).
    New posts go to the front. Ids are not assumed unique. */
module PostsStore {
  import opened Base
  import Seqs

  datatype Comment = Comment(
    id: Id,
    userId: UserId,
    username: string,
    userProfilePic: Option<string>,
    content: string,
    createdAt: Time)

  /** What a caller hands to `addComment`. */
  datatype CommentDraft = CommentDraft(
    userId: UserId,
    username: string,
    userProfilePic: Option<string>,
    content: string)

  datatype Post = Post(
    id: Id,
    userId: UserId,
    username: string,
    userProfilePic: Option<string>,
    content: string,
    imageUrl: Option<string>,
    likes: int,
    comments: seq<Comment>,
    createdAt: Time,
    communityId: Option<Id>)

  /** What a caller hands to `addPost`. */
  datatype PostDraft = PostDraft(
    userId: UserId,
    username: string,
    userProfilePic: Option<string>,
    content: string,
    imageUrl: Option<string>,
    communityId: Option<Id>)

  function ByUser(u: UserId): Post -> bool {
    (p: Post) => p.userId == u
  }

  function InCommunity(communityId: Id): Post -> bool {
    (p: Post) => p.communityId == Some(communityId)
  }

  /** `userPosts`: the posts written by `u`, in feed order. */
  function UserPosts(ps: seq<Post>, u: UserId): (r: seq<Post>)
    ensures forall p :: p in r <==> p in ps && p.userId == u
    ensures forall p :: multiset(r)[p] == if p.userId == u then multiset(ps)[p] else 0
    ensures Seqs.IsSubsequence(r, ps)
  {
    Seqs.Filter(ps, ByUser(u))
  }

  /** `communityPosts`: the posts of one community, in feed order; posts
      outside any community never match. */
  function CommunityPosts(ps: seq<Post>, communityId: Id): (r: seq<Post>)
    ensures forall p :: p in r <==> p in ps && p.communityId == Some(communityId)
    ensures forall p :: multiset(r)[p] == if p.communityId == Some(communityId) then multiset(ps)[p] else 0
    ensures Seqs.IsSubsequence(r, ps)
  {
    Seqs.Filter(ps, InCommunity(communityId))
  }

  /** The stored post: the draft's fields, the given id and time, no likes and no comments. */
  function NewPost(d: PostDraft, id: Id, now: Time): Post {
    Post(id, d.userId, d.username, d.userProfilePic, d.content, d.imageUrl, 0, [], now, d.communityId)
  }

  /** `addPost`: the new post, with no likes and no comments, goes in front. */
  function AddPost(ps: seq<Post>, d: PostDraft, id: Id, now: Time): (r: seq<Post>)
    ensures |r| == |ps| + 1 && r[1..] == ps
    ensures r[0].likes == 0 && r[0].comments == []
    ensures && r[0].id == id && r[0].createdAt == now
            && r[0].userId == d.userId && r[0].username == d.username
            && r[0].userProfilePic == d.userProfilePic && r[0].content == d.content
            && r[0].imageUrl == d.imageUrl && r[0].communityId == d.communityId
  {
    [NewPost(d, id, now)] + ps
  }

  /** A new post heads its author's list. */
  lemma AddPostHeadsUserPosts(ps: seq<Post>, d: PostDraft, id: Id, now: Time)
    ensures UserPosts(AddPost(ps, d, id, now), d.userId) == [NewPost(d, id, now)] + UserPosts(ps, d.userId)
  {
    Seqs.FilterConcat([NewPost(d, id, now)], ps, ByUser(d.userId));
  }

  /** A new post written in a community heads that community's list. */
  lemma AddPostHeadsCommunityPosts(ps: seq<Post>, d: PostDraft, id: Id, now: Time)
    requires d.communityId.Some?
    ensures CommunityPosts(AddPost(ps, d, id, now), d.communityId.value) ==
            [NewPost(d, id, now)] + CommunityPosts(ps, d.communityId.value)
  {
    Seqs.FilterConcat([NewPost(d, id, now)], ps, InCommunity(d.communityId.value));
  }

  function LikeOne(p: Post, postId: Id): Post {
    if p.id == postId then p.(likes := p.likes + 1) else p
  }

  /** `likePost`: each post with the id gets one more like and nothing else
      changes; the number and order of posts stay. */
  function LikePost(ps: seq<Post>, postId: Id): (r: seq<Post>)
    ensures |r| == |ps|
    ensures forall i :: 0 <= i < |ps| && ps[i].id != postId ==> r[i] == ps[i]
    ensures forall i :: 0 <= i < |ps| && ps[i].id == postId ==>
              r[i].likes == ps[i].likes + 1 && r[i] == ps[i].(likes := r[i].likes)
  {
    seq(|ps|, i requires 0 <= i < |ps| => LikeOne(ps[i], postId))
  }

  function NewComment(d: CommentDraft, id: Id, now: Time): Comment {
    Comment(id, d.userId, d.username, d.userProfilePic, d.content, now)
  }

  function CommentOn(p: Post, postId: Id, c: Comment): Post {
    if p.id == postId then p.(comments := p.comments + [c]) else p
  }

  /** `addComment`: each post with the id gets the comment appended after its
      existing comments; every other post and every other field stays, and an
      id no post carries changes nothing. */
  function AddComment(ps: seq<Post>, postId: Id, d: CommentDraft, id: Id, now: Time): (r: seq<Post>)
    ensures |r| == |ps|
    ensures forall i :: 0 <= i < |ps| && ps[i].id != postId ==> r[i] == ps[i]
    ensures forall i :: 0 <= i < |ps| && ps[i].id == postId ==>
              && |r[i].comments| == |ps[i].comments| + 1
              && r[i].comments[..|ps[i].comments|] == ps[i].comments
              && r[i].comments[|ps[i].comments|] == Comment(id, d.userId, d.username, d.userProfilePic, d.content, now)
              && r[i] == ps[i].(comments := r[i].comments)
    ensures (forall p :: p in ps ==> p.id != postId) ==> r == ps
  {
    var c := NewComment(d, id, now);
    seq(|ps|, i requires 0 <= i < |ps| => CommentOn(ps[i], postId, c))
  }

  /** Liking and commenting touch different fields, so their order does not matter. */
  lemma LikeAndCommentCommute(ps: seq<Post>, likeId: Id, postId: Id, d: CommentDraft, id: Id, now: Time)
    ensures LikePost(AddComment(ps, postId, d, id, now), likeId) == AddComment(LikePost(ps, likeId), postId, d, id, now)
  {
  }

  /** Likes and comments never change which posts the feed holds or their order. */
  lemma UpdatesKeepPostIds(ps: seq<Post>, likeId: Id, postId: Id, d: CommentDraft, id: Id, now: Time, i: nat)
    requires i < |ps|
    ensures LikePost(ps, likeId)[i].id == ps[i].id
    ensures AddComment(ps, postId, d, id, now)[i].id == ps[i].id
  {
  }
}
