/** Navigation targets the handlers hand to the router, and the paths they stand for. */
module Routes {

  datatype Route =
    | Home                      // '/'
    | ChatList                  // '/chats'
    | SetupProfile              // '/setup-profile'
    | UserPage(userId: string)  // '/user/<id>'
    | PostPage(postId: string)  // '/post/<id>'
    | CommunityPage(communityId: string)  // '/community/<id>'
    | ChatPage(id: string)      // '/chat/<id>'
    | SkillResults(skill: string)  // '/?skill=<encoded skill>'

  /** The path string of a route; the skill query is shown unencoded. */
  function Path(r: Route): string {
    match r
    case Home => "/"
    case ChatList => "/chats"
    case SetupProfile => "/setup-profile"
    case UserPage(id) => "/user/" + id
    case PostPage(id) => "/post/" + id
    case CommunityPage(id) => "/community/" + id
    case ChatPage(id) => "/chat/" + id
    case SkillResults(skill) => "/?skill=" + skill
  }
}
