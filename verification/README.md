# dev-pulse-network: the stores and handler rules, in Dafny

DevPulse is a mobile-first social app for developers. It is a React front end
whose state lives in five in-memory contexts: authentication, posts, chats,
notifications and communities. This project models those stores and the
decision rules of the pages that drive them.

Each context's collection is an immutable `seq` of records. Each store
operation is a pure function from the old collection to the new one. The
clock and the generated ids are parameters (`id: Id`, `now: Time`). Record
ids are not assumed to be unique, so every update acts on every record that
carries the id, as the source's `Array.map` does.

Page handlers become functions that return what they ask of the contexts and
the route they navigate to, as a `Routes.Route` value.

Modules, one per source file:

- `ChatStore`, `NotificationStore`, `CommunityStore`, `PostsStore`, `Auth`: the contexts.
- `PostCard`, `ChatsPage`, `ChatDetailPage`, `BottomNav`, `NotificationsPage`: the handlers.
- `RegisterPage`, `SetupProfilePage`, `NewPostInput`, `SearchPage`: the forms.
- Shared modules:
  - `Base`: `Option` and the id types.
  - `Seqs`: filter, count, sum, find and a stable descending sort. `Array.prototype.sort` is stable, so the listing order of equal timestamps is defined.
  - `Text`: `trim`, ASCII `toLowerCase`, `includes`, the 30-character preview, the community slug and `split('@')[0]`.
  - `Routes`: the navigation targets.

In four places the code does less than a reader might expect; the model follows
the code:

- `createChat` never checks for an existing chat between the same users. `ChatStore.CreateChatDuplicates` shows that every creation adds another one.
- `sendMessage` stores any content, the empty text included. Only the chat page trims and refuses white space.
- `addNotification` stores self-notifications. Only the post card's callers avoid them.
- `memberCount` is not kept equal to the length of `members`. The seed data already differs, so the model only states how each operation changes the count (`CommunityStore.CountGapPreserved`).

## Model

| member | source | states |
|---|---|---|
| ChatStore.UserChats | src/context/ChatContext.tsx:126-130 | exactly the chats that have the user as a participant, each as often as in the store, ordered by last activity from newest to oldest |
| ChatStore.UserChatsStable | src/context/ChatContext.tsx:126-130 | chats with equal last activity keep their store order in the listing, because the sort is stable |
| ChatStore.GetChat | src/context/ChatContext.tsx:132-134 | the first chat with the id; absent exactly when no chat has it |
| ChatStore.GetChatWithUser | src/context/ChatContext.tsx:136-142 | the first chat with exactly two participants that include both users; absent exactly when there is none |
| ChatStore.SendMessage | src/context/ChatContext.tsx:144-164 | every chat with the id gets one unread message at the end, carrying the given content unchanged, and takes its time as last activity; other chats are unchanged; an unknown id changes nothing |
| ChatStore.CreateChat | src/context/ChatContext.tsx:166-176 | one chat with the given participants and no messages is appended; the chats before it are untouched |
| ChatStore.CreateChatKeepsFoundChat | src/context/ChatContext.tsx:136-176 | creating a chat never changes the direct chat that lookup finds when one already existed |
| ChatStore.CreateChatIsFound | src/context/ChatContext.tsx:136-176 | with no direct chat between two distinct users, a chat created for them is the one lookup finds next |
| ChatStore.CreateChatDuplicates | src/context/ChatContext.tsx:166-176 | there is no duplicate check: each creation for a pair adds one more direct chat between them |
| ChatStore.MarkChatAsRead | src/context/ChatContext.tsx:178-195 | in the chats with the id, exactly the messages the user did not send become read; message count, order and other fields are kept |
| ChatStore.MarkChatAsReadIdempotent | src/context/ChatContext.tsx:178-195 | marking a chat read twice is the same as marking it once |
| ChatStore.NoUnreadIn | src/context/ChatContext.tsx:197-207 | a chat whose messages are all read or sent by the user adds nothing to that user's unread count |
| ChatStore.MarkChatAsReadClears | src/context/ChatContext.tsx:178-207 | after marking, a chat with that id holds no message the user has not seen |
| ChatStore.UnreadCount | src/context/ChatContext.tsx:197-207 | positive exactly when a chat the user takes part in holds a message from someone else that is not read |
| ChatStore.UnseenSomewhere | src/context/ChatContext.tsx:197-207 | the per-chat sum is positive exactly when some chat of the user holds an unread message from someone else |
| ChatStore.UnreadCountAfterMarkChatAsRead | src/context/ChatContext.tsx:178-207 | marking takes away exactly the contribution of the chats with that id from the user's unread count |
| ChatStore.UnreadInAppend | src/context/ChatContext.tsx:144-164 | appending a message adds one to a chat's unread count for a user exactly when that user has not seen it |
| ChatStore.UnreadCountAfterSendMessage | src/context/ChatContext.tsx:144-207 | a message never adds to its sender's unread count; for any other user it adds one per chat with the id that the user takes part in |
| ChatStore.MarkAfterOwnSendIsNoOp | src/context/ChatContext.tsx:144-195 | after a chat is marked read for a user and that user sends into it, marking it again changes nothing |
| NotificationStore.UserNotifications | src/context/NotificationContext.tsx:101-105 | exactly the user's notifications, each as often as in the store, newest first |
| NotificationStore.AddNotification | src/context/NotificationContext.tsx:111-119 | one unread notification is put first, with the caller's fields copied and no check against the sender; the rest follow unchanged |
| NotificationStore.UserNotificationsStable | src/context/NotificationContext.tsx:101-105 | notifications of the user created at the same time keep their store order in the listing, because the sort is stable |
| NotificationStore.UnreadCount | src/context/NotificationContext.tsx:107-109 | never more than the records in the store, and positive exactly when some record addressed to the user is unread |
| NotificationStore.UnreadCountAfterAdd | src/context/NotificationContext.tsx:107-119 | adding raises the unread count of the recipient by one and of nobody else |
| NotificationStore.MarkAsRead | src/context/NotificationContext.tsx:121-127 | only the records with the id become read; length and the other records are kept; an absent id changes nothing |
| NotificationStore.UnreadCountAfterMarkAsRead | src/context/NotificationContext.tsx:107-127 | after marking, the unread count counts the user's unread records that do not carry the id |
| NotificationStore.MarkAsReadIdempotent | src/context/NotificationContext.tsx:121-127 | marking one notification read twice is marking it once |
| NotificationStore.MarkAllAsRead | src/context/NotificationContext.tsx:129-135 | every notification of the user becomes read; the others are unchanged |
| NotificationStore.MarkAllAsReadClears | src/context/NotificationContext.tsx:107-135 | afterwards the user's unread count is zero |
| NotificationStore.MarkAllAsReadKeepsOthers | src/context/NotificationContext.tsx:101-135 | another user's list and unread count are untouched |
| NotificationStore.MarkAllAsReadIdempotent | src/context/NotificationContext.tsx:129-135 | marking all read twice is marking all read once |
| CommunityStore.UserCommunities | src/context/CommunityContext.tsx:118-120 | exactly the communities that list the user as a member, in store order |
| CommunityStore.GetCommunity | src/context/CommunityContext.tsx:122-124 | the first community with the id; absent exactly when none has it |
| CommunityStore.CreateCommunity | src/context/CommunityContext.tsx:126-135 | the new community is appended; its id is the slug of its name and has no white space; the creator is its only member, the count is one, there are no requests, and the draft's fields are copied |
| CommunityStore.JoinCommunity | src/context/CommunityContext.tsx:137-150 | a non-member is appended to the members and the count goes up by one; a member, or another community, is unchanged |
| CommunityStore.RequestToJoin | src/context/CommunityContext.tsx:152-164 | the user is added to the pending requests at most once; members and count never change |
| CommunityStore.ApproveRequest | src/context/CommunityContext.tsx:166-180 | only a pending user is affected: they leave the requests, are appended to the members, and the count rises by one |
| CommunityStore.RejectRequest | src/context/CommunityContext.tsx:182-194 | only a pending user is affected: they leave the requests; members and count stay |
| CommunityStore.LeaveCommunity | src/context/CommunityContext.tsx:196-209 | only a member is affected: every occurrence leaves the members and the count drops by one |
| CommunityStore.JoinThenLeave | src/context/CommunityContext.tsx:137-209 | joining and then leaving, for a previous non-member, restores the store exactly |
| CommunityStore.RequestThenReject | src/context/CommunityContext.tsx:152-194 | requesting and then being rejected, for a user who was not pending, restores the store exactly |
| CommunityStore.RequestThenApproveIsJoin | src/context/CommunityContext.tsx:137-180 | requesting and then being approved, for a user who was neither pending nor a member, is the same as joining |
| CommunityStore.CountGapPreserved | src/context/CommunityContext.tsx:137-209 | the difference between the member count and the number of listed members is kept by every operation, and by leaving when the user is listed at most once |
| CommunityStore.LeaveWithDuplicateMember | src/context/CommunityContext.tsx:196-209 | a user listed twice is removed twice but the count drops only once |
| PostsStore.UserPosts | src/context/PostsContext.tsx:156-158 | exactly the user's posts, in store order |
| PostsStore.CommunityPosts | src/context/PostsContext.tsx:160-162 | exactly the posts of the community, in store order |
| PostsStore.AddPost | src/context/PostsContext.tsx:164-173 | one post with no likes and no comments is put first, with the draft's fields; the rest follow unchanged |
| PostsStore.AddPostHeadsUserPosts | src/context/PostsContext.tsx:156-173 | the new post heads its author's list, followed by the author's earlier posts |
| PostsStore.AddPostHeadsCommunityPosts | src/context/PostsContext.tsx:160-173 | a post into a community heads that community's list |
| PostsStore.LikePost | src/context/PostsContext.tsx:175-181 | the posts with the id gain exactly one like and nothing else changes; number and order of posts are kept |
| PostsStore.AddComment | src/context/PostsContext.tsx:183-200 | the posts with the id get the comment at the end of their comments; the other posts and fields are unchanged; an unknown id changes nothing |
| PostsStore.LikeAndCommentCommute | src/context/PostsContext.tsx:175-200 | liking and commenting commute |
| PostsStore.UpdatesKeepPostIds | src/context/PostsContext.tsx:175-200 | liking and commenting keep every post's id in its place |
| Text.Trim | src/components/post/NewPostInput.tsx:20-26 | the slice left after removing leading and trailing white space; it is empty exactly when the text is all white space |
| Text.Preview | src/pages/Chats.tsx:118-120 | text of at most 30 characters unchanged; longer text cut to its first 30 characters followed by "..." |
| Text.Slug | src/context/CommunityContext.tsx:129 | the lowered name with white space runs dashed: no white space is left, it is never longer, and a name without white space is just lowered |
| Text.SlugSplit | src/context/CommunityContext.tsx:129 | for a word, a non-empty run of white space and a rest starting with a non-space: the slug is the lowered word, one '-', then the slug of the rest (covers leading and trailing runs too) |
| Text.DashSpacesSplit | src/context/CommunityContext.tsx:129 | a whole run of white space after a word turns into exactly one '-', and the text after it is dashed independently |
| Text.LowerConcat | src/context/CommunityContext.tsx:129 | `toLowerCase` works character by character: it distributes over concatenation and never turns white space into a non-space or back |
| Text.LeadingSpacesBefore | src/context/CommunityContext.tsx:129 | the run of white space in front of a word start is exactly what is skipped, so the run is replaced as a whole |
| Text.SlugIdempotent | src/context/CommunityContext.tsx:129 | a slug is its own slug |
| Text.LongerQueryNarrows | src/pages/Search.tsx:39-52 | a text that matches a query also matches every prefix of it |
| Text.BeforeAt | src/context/AuthContext.tsx:99 | a prefix of the address with no '@', ending just before the first '@' when there is one |
| Auth.Restore | src/context/AuthContext.tsx:32-39 | the stored user, if any, is signed in, and loading ends |
| Auth.Login | src/context/AuthContext.tsx:41-68 | the user becomes the fixed mock record: id '1', name 'johndoe', the given address, and the prefilled picture, profession, field of study, skills and experience; loading ends |
| Auth.LoginIgnoresPassword | src/context/AuthContext.tsx:41-68 | two logins with the same address end in the same state, whatever the passwords |
| Auth.Register | src/context/AuthContext.tsx:70-87 | nobody is signed in by registering, nothing is thrown, and loading ends |
| Auth.VerifyEmail | src/context/AuthContext.tsx:89-113 | the code '123456' signs in user '1' named after the address; any other code throws 'Invalid verification code' and keeps the user; loading ends either way |
| Auth.VerifiedUsername | src/context/AuthContext.tsx:96-104 | the chosen name is the address up to its first '@', or all of it: a prefix free of '@' that stops either at the end or at an '@' |
| Auth.Logout | src/context/AuthContext.tsx:115-118 | nobody is signed in afterwards |
| Auth.UpdateProfile | src/context/AuthContext.tsx:120-137 | each key present in the patch replaces that field, the others are kept; without a user nothing changes; loading ends |
| Auth.UpdateProfileLaws | src/context/AuthContext.tsx:120-137 | an empty patch changes nothing, and a patch applied twice acts as once |
| RegisterPage.Submit | src/pages/auth/Register.tsx:20-58 | the error is cleared first; empty fields, then a password mismatch, stop the details step before registering; a registration moves to the code step; an empty code stops before verifying; only the right code navigates to profile setup; a rejected code shows its message |
| RegisterPage.HappyPath | src/pages/auth/Register.tsx:20-58 | filling all fields, repeating the password and entering '123456' leads to profile setup, signed in as a user named after the address |
| SetupProfilePage.Start | src/pages/auth/SetupProfile.tsx:52-59 | step 1 with empty searches, prefilled from the signed-in user |
| SetupProfilePage.FilteredFields | src/pages/auth/SetupProfile.tsx:62-64 | exactly the options containing the search text, ignoring case, in option order |
| SetupProfilePage.FilteredSkills | src/pages/auth/SetupProfile.tsx:66-69 | exactly the options containing the search text that are not yet chosen, in option order |
| SetupProfilePage.Suggestions | src/pages/auth/SetupProfile.tsx:309-312 | none while the search is empty; otherwise exactly the first five filtered skills (all of them when there are fewer), each an unchosen option matching the search |
| SetupProfilePage.AddSkill | src/pages/auth/SetupProfile.tsx:107-112 | the skill is appended unless already chosen, and the search is cleared either way |
| SetupProfilePage.Take | src/pages/auth/SetupProfile.tsx:309-312 | `slice(0, n)`: a prefix of the list, of length n or the whole list when it is shorter |
| SetupProfilePage.RemoveSkill | src/pages/auth/SetupProfile.tsx:103-105 | every occurrence of the skill goes; the others stay in their order, each as often as before; nothing else changes |
| SetupProfilePage.SkillsStayDistinct | src/pages/auth/SetupProfile.tsx:103-112 | adding and removing keep the chosen skills free of repeats |
| SetupProfilePage.AddThenRemove | src/pages/auth/SetupProfile.tsx:103-112 | adding a skill that was not chosen and then removing it restores the list |
| SetupProfilePage.AddedSkillLeavesSuggestions | src/pages/auth/SetupProfile.tsx:66-112 | a skill once added is no longer suggested |
| SetupProfilePage.ConsistentInvariant | src/pages/auth/SetupProfile.tsx:84-90 | the wizard stays on steps 1 to 3, past step 1 only with a profession and experience, and past step 2 only with a field of study, under every control the page offers |
| SetupProfilePage.RunConsistent | src/pages/auth/SetupProfile.tsx:84-112 | the same holds along every sequence of offered controls |
| SetupProfilePage.Finish | src/pages/auth/SetupProfile.tsx:92-101 | exactly the five wizard fields are written into the signed-in user, then the app goes home |
| SetupProfilePage.FinishStoresCompleteProfile | src/pages/auth/SetupProfile.tsx:84-101 | finishing from a reached step 3 stores a non-empty profession, experience and field of study for the same user |
| NewPostInput.AttachedImage | src/components/post/NewPostInput.tsx:27 | the empty data URL counts as no image |
| NewPostInput.Submit | src/components/post/NewPostInput.tsx:18-34 | without a user, or with only white space typed, no post is made and the composer stays; otherwise the trimmed text, the image and the community are submitted and the composer is cleared and collapsed |
| NewPostInput.SubmittedContentIsTrimmed | src/components/post/NewPostInput.tsx:20-26 | submitted text is non-empty and neither starts nor ends with white space |
| NewPostInput.SubmitHeadsLists | src/components/post/NewPostInput.tsx:18-34 | the stored post heads its author's list |
| NewPostInput.AddCodeSnippet | src/components/post/NewPostInput.tsx:53-56 | the fenced placeholder is appended, the composer opens and posting is enabled |
| NewPostInput.RemoveImage | src/components/post/NewPostInput.tsx:49-51 | the image is dropped and the text kept |
| NewPostInput.Focus | src/components/post/NewPostInput.tsx:84 | focusing opens the composer and changes nothing else |
| SearchPage.FilteredPeople | src/pages/Search.tsx:39-42 | exactly the people whose name or profession contains the query, ignoring case, each as often as listed, in order |
| SearchPage.FilteredCommunities | src/pages/Search.tsx:44-48 | exactly the communities whose name, description or some tag contains the query, each as often as in the store, in order |
| SearchPage.FilteredSkills | src/pages/Search.tsx:50-52 | exactly the skills whose name contains the query, each as often as listed, in order |
| SearchPage.EmptyQueryShowsAll | src/pages/Search.tsx:39-52 | with the query empty each list is shown whole |
| SearchPage.LongerQueryNarrows | src/pages/Search.tsx:39-52 | typing more characters never brings a result back |
| SearchPage.SkillClick | src/pages/Search.tsx:60-74 | one id per post whose text mentions the skill, ignoring case, in feed order; every such post's id is there and no other; then navigation to the skill's results |
| SearchPage.SkillResultsIgnoreLikes | src/pages/Search.tsx:60-70 | liking a post or commenting on it never changes a skill's results |
| SearchPage.PersonClick | src/pages/Search.tsx:55-57 | a person opens their profile page |
| PostCard.CommentedText | src/components/post/PostCard.tsx:69 | a comment of up to 30 characters is quoted verbatim; a longer one is quoted as its first 30 characters followed by "..." |
| PostCard.HandleLike | src/components/post/PostCard.tsx:23-47 | likes exactly when a user is signed in and this card has not liked; then the card is marked liked; a 'like' notification for the post goes to its author exactly when that is someone else |
| PostCard.LikeCountsOnce | src/components/post/PostCard.tsx:23-47 | however often a signed-in user clicks like on a card, the post gains exactly one like |
| PostCard.LikedCardIsInert | src/components/post/PostCard.tsx:23-47 | once a card has liked, further clicks change nothing |
| PostCard.HandleCommentSubmit | src/components/post/PostCard.tsx:49-75 | without a user or with only white space nothing happens; otherwise the untrimmed text is commented, a notification quoting its preview goes to an author who is someone else, and the input is cleared and hidden |
| PostCard.CommentLandsOnPost | src/components/post/PostCard.tsx:49-75 | a submitted comment lands last on the post, as typed |
| PostCard.ToggleComments | src/components/post/PostCard.tsx:151 | the comment button flips the comment box and touches nothing else |
| PostCard.ToggleTwice | src/components/post/PostCard.tsx:151 | two presses restore the card |
| ChatsPage.PartnerId | src/pages/Chats.tsx:20-34 | the first participant other than the viewer; absent exactly when there is none |
| ChatsPage.PartnerName | src/pages/Chats.tsx:20-34 | the partner's known name, otherwise 'Unknown User' |
| ChatsPage.DirectChatPartners | src/pages/Chats.tsx:20-34 | in a chat created for two different users each sees the other as partner |
| ChatsPage.LastMessage | src/pages/Chats.tsx:37-40 | absent for an empty chat, otherwise the final message |
| ChatsPage.RowFor | src/pages/Chats.tsx:43-126 | the row links to the chat, names the partner, counts the messages the viewer has not seen, is highlighted exactly when that count is positive, and previews the last message with "You: " exactly when the viewer sent it |
| ChatsPage.Rows | src/pages/Chats.tsx:13-17 | nothing without a user; otherwise one row per listed chat, in listing order |
| ChatsPage.BadgesAddUp | src/pages/Chats.tsx:43-47 | the badges of the list add up to the store's unread count for the viewer |
| ChatDetailPage.Open | src/pages/ChatDetail.tsx:19-52 | nothing without a user or id; an unknown chat redirects to the chat list; otherwise the chat is marked read for the viewer, and the shown chat is the marked record, with its partner |
| ChatDetailPage.MarkedIsFound | src/pages/ChatDetail.tsx:23-36 | after marking, the same chat is found with the same participants and message count, and none of its messages is unseen by the viewer |
| ChatDetailPage.OpenClearsOnlyThisChat | src/pages/ChatDetail.tsx:30-36 | opening a chat takes exactly that chat's messages off the viewer's unread count |
| ChatDetailPage.HandleSendMessage | src/pages/ChatDetail.tsx:56-69 | only text that is not all white space is sent, trimmed and from the viewer, and the input is then cleared |
| ChatDetailPage.SendAppendsOwnMessage | src/pages/ChatDetail.tsx:56-69 | the sent message closes the chat, with the trimmed text, unread and from the viewer |
| ChatDetailPage.RemarkAfterSendIsNoOp | src/pages/ChatDetail.tsx:30-69 | when the mark-as-read effect runs again after the viewer's own send into the opened chat, it changes nothing |
| ChatDetailPage.HandleKeyDown | src/pages/ChatDetail.tsx:71-76 | Enter without Shift sends; every other key changes nothing |
| BottomNav.BadgeFor | src/components/layout/BottomNavigation.tsx:28-38 | hidden exactly when the count is not positive; '9+' above nine, otherwise the digit |
| BottomNav.NotificationCount | src/components/layout/BottomNavigation.tsx:14 | the store's unread count for the signed-in user, zero without one |
| BottomNav.MessageCount | src/components/layout/BottomNavigation.tsx:15 | the store's unread message count for the signed-in user, zero without one |
| BottomNav.NotificationBadgeShown | src/components/layout/BottomNavigation.tsx:14-30 | the bell shows a badge exactly when the user has an unread notification |
| BottomNav.MessageBadgeShown | src/components/layout/BottomNavigation.tsx:15-38 | the chat icon shows a badge exactly when a chat of the user holds a message from someone else that is unread |
| BottomNav.MarkAllHidesBadge | src/components/layout/BottomNavigation.tsx:14-30 | after marking all read the bell's badge is gone |
| NotificationsPage.PageUnreadIsStoreCount | src/pages/Notifications.tsx:22-23 | the page's count over its sorted list equals the store's unread count |
| NotificationsPage.MarkAllClick | src/pages/Notifications.tsx:77-86 | the button marks all of the viewer's notifications read and is then no longer offered |
| NotificationsPage.Target | src/pages/Notifications.tsx:29-50 | a follow opens the sender's profile; a like or comment opens the post and a community event the community, only when the entity id is not empty; a message opens `/chat/<sender id>` |
| NotificationsPage.Click | src/pages/Notifications.tsx:25-51 | a click marks the notification read and then routes by its type |
| NotificationsPage.ClickMarksRead | src/pages/Notifications.tsx:25-26 | a click takes exactly the records sharing the clicked id off the unread count |
| NotificationsPage.LikeNotificationLeadsToPost | src/pages/Notifications.tsx:33-38 | the notification a like produces, once stored and clicked, opens the liked post |
| NotificationsPage.CommentNotificationLeadsToPost | src/pages/Notifications.tsx:33-38 | the notification a comment produces, once stored and clicked, opens the commented post |
| NotificationsPage.MessageClickMissesChat | src/pages/Notifications.tsx:45-47 | as written, a message notification opens a chat route named after the sender's user id, which the chat page redirects away from |
| NotificationsPage.MessageClickMissesSeededChat | src/pages/Notifications.tsx:45-47 | the concrete case: user '1' has chat 'chat1' with user '2', and a message notification from '2' redirects to the chat list |
| NotificationsPage.IntendedTarget | src/pages/Notifications.tsx:45-47 | the corrected routing: a message opens the viewer's direct chat with the sender, falling back to the chat list |
| NotificationsPage.IntendedMessageClickOpensChat | src/pages/Notifications.tsx:45-47 | with the corrected routing, a message from someone the viewer has a direct chat with opens that conversation |
| Seqs.SortDescIsStable | src/context/ChatContext.tsx:126-130 | the descending sort keeps the input order among elements with equal keys |

## Left out

- Local storage: the loading and saving effects of every context are I/O. Each collection is a value passed in and returned.
- The clock: ids from `Date.now()` and ISO timestamps are parameters. Timestamps are integers, which stands in for parsing the date strings.
- Simulated delays, `setTimeout`, `FileReader` (image upload) and `alert` are left out. The asynchronous auth operations are modelled by their completed state.
- React rendering, hook ordering and effect scheduling are left out. In particular, the chat page declares its mark-as-read effect after an early return. Opening a chat is modelled as: mark read, then show. The effect's re-runs on a changed message count are not scheduled; `ChatDetailPage.RemarkAfterSendIsNoOp` shows that the re-run after the viewer's own send changes nothing.
- `formatContent` (regex-to-HTML rewriting of post text) and `formatDistanceToNow` are presentation only.
- `encodeURIComponent` in the skill results route: the route carries the skill name as is.
- `Text.Preview`: counts lengths and cuts in Unicode characters, while the source's `length` and `substring(0, 30)` count UTF-16 code units. Text with characters outside the Basic Multilingual Plane (emoji, for instance) is cut later than in the app, and a cut that splits a surrogate pair cannot be represented, because a Dafny `string` holds no lone surrogates. The same holds for `PostCard.CommentedText` and `ChatsPage.RowFor`, which use it.
- `Auth.UpdateProfile`: a patch cannot set one of the required keys (`id`, `username`, `email`) explicitly to `undefined`. Such a patch type-checks against `Partial<User>` and would clear the field. The optional keys can be set to `undefined`.
- `Text.Lower`: lowers only the ASCII letters, because Unicode case mapping is not modelled.
- `ChatsPage.PartnerName`: the user-name table is looked up by plain key. Lookups of JavaScript prototype keys (such as "constructor") are not modelled.
- The registration failure branch of the register page cannot be reached, because `register` never rejects. It is present in `RegisterPage.Submit`, but no input leads to it.
- `login`'s rejection path cannot be reached, because its body never throws.
- The resend-code button and the tab switches of the setup wizard are left out. They store nothing the model reads.
- The wizard's profile-picture upload is kept, except for the `FileReader` read of the chosen file. `SetupProfilePage.Event.PickPicture` carries the data URL that the read produces.
- Presentation-only files are left out: the post header, actions and comment list, the dev button, the profile, index and home pages, the login form, the route guards and the app configuration.

## Findings

| source | as written | input that shows it | evidently intended | confidence | as-written member | corrected member |
|---|---|---|---|---|---|---|
| src/pages/Notifications.tsx:45-47 | a 'message' notification navigates to `/chat/<fromUserId>`, a user id, while the chat page looks the route parameter up as a chat id (src/pages/ChatDetail.tsx:23-28) | chats `[chat1 between '1' and '2']`; user '1' clicks a message notification from '2'; `getChat('2')` finds nothing and the page redirects to `/chats` | open the viewer's direct chat with the sender | medium, not executed | NotificationsPage.MessageClickMissesChat | NotificationsPage.IntendedMessageClickOpensChat |
