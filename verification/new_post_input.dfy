/** The post composer (src/components/post/NewPostInput.tsx). */
module NewPostInput {
  import opened Base
  import Text
  import Auth
  import PostsStore

  datatype Composer = Composer(content: string, image: Option<string>, isExpanded: bool)

  /** The composer as first shown: empty and collapsed. */
  const Empty := Composer("", None, false)

  /** The text `addCodeSnippet` appends: a new line and a fenced placeholder. */
  const CodeSnippet: string := "\n```\nYour code here\n```"

  /** The post button is enabled: there is something besides white space. */
  predicate CanPost(c: Composer) {
    Text.Trim(c.content) != ""
  }

  /** `image || undefined`: the empty data URL counts as no image. */
  function AttachedImage(image: Option<string>): (r: Option<string>)
    ensures r.Some? <==> image.Some? && image.value != ""
    ensures r.Some? ==> r == image
  {
    match image
    case Some(url) => if url == "" then None else image
    case None => None
  }

  datatype Submission = Submission(draft: Option<PostsStore.PostDraft>, composer: Composer)

  /** `handleSubmit`: with nobody signed in or only white space typed nothing
      happens; otherwise the trimmed text, the image and the community go to
      `addPost` under the user's name, and the composer is emptied and collapsed. */
  function Submit(user: Option<Auth.User>, c: Composer, communityId: Option<Id>): (r: Submission)
    ensures r.draft.None? <==> user.None? || !CanPost(c)
    ensures r.draft.None? ==> r.composer == c
    ensures r.draft.Some? ==>
              && r.composer == Empty
              && r.draft.value.userId == user.value.id
              && r.draft.value.username == user.value.username
              && r.draft.value.userProfilePic == user.value.profilePicture
              && r.draft.value.content == Text.Trim(c.content)
              && r.draft.value.imageUrl == AttachedImage(c.image)
              && r.draft.value.communityId == communityId
  {
    if user.None? || !CanPost(c) then Submission(None, c)
    else
      var u := user.value;
      Submission(Some(PostsStore.PostDraft(u.id, u.username, u.profilePicture, Text.Trim(c.content),
                                           AttachedImage(c.image), communityId)),
                 Empty)
  }

  /** A submitted post's text is non-empty and neither starts nor ends with white space. */
  lemma SubmittedContentIsTrimmed(user: Option<Auth.User>, c: Composer, communityId: Option<Id>)
    requires Submit(user, c, communityId).draft.Some?
    ensures var text := Submit(user, c, communityId).draft.value.content;
            |text| > 0 && !Text.IsSpace(text[0]) && !Text.IsSpace(text[|text| - 1])
  {
  }

  /** Submitting into the store puts the post at the head of its author's
      posts, and of its community's posts when it was written in one. */
  lemma SubmitHeadsLists(ps: seq<PostsStore.Post>, user: Auth.User, c: Composer, communityId: Option<Id>,
                         id: Id, now: Time)
    requires CanPost(c)
    ensures var d := Submit(Some(user), c, communityId).draft.value;
            var after := PostsStore.AddPost(ps, d, id, now);
            && PostsStore.UserPosts(after, user.id) == [after[0]] + PostsStore.UserPosts(ps, user.id)
            && (communityId.Some? ==>
                  PostsStore.CommunityPosts(after, communityId.value) ==
                  [after[0]] + PostsStore.CommunityPosts(ps, communityId.value))
  {
    var d := Submit(Some(user), c, communityId).draft.value;
    PostsStore.AddPostHeadsUserPosts(ps, d, id, now);
    if communityId.Some? {
      PostsStore.AddPostHeadsCommunityPosts(ps, d, id, now);
    }
  }

  /** `addCodeSnippet`: the fenced placeholder is appended and the composer opens;
      whatever was typed before, there is now something to post. */
  function AddCodeSnippet(c: Composer): (r: Composer)
    ensures r.content == c.content + CodeSnippet
    ensures r.isExpanded && r.image == c.image
    ensures CanPost(r)
  {
    var r := c.(content := c.content + CodeSnippet, isExpanded := true);
    assert r.content[|r.content| - 1] == '`';
    assert !Text.AllSpace(r.content) by {
      assert !Text.IsSpace(r.content[|r.content| - 1]);
    }
    r
  }

  /** `removeImage`. */
  function RemoveImage(c: Composer): (r: Composer)
    ensures r.image.None? && r.content == c.content && r.isExpanded == c.isExpanded
  {
    c.(image := None)
  }

  /** Focusing the text area opens the composer. */
  function Focus(c: Composer): (r: Composer)
    ensures r.isExpanded && r.content == c.content && r.image == c.image
  {
    c.(isExpanded := true)
  }
}
