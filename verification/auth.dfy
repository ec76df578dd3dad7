/** The mock authentication context (src/context/AuthContext.tsx): the signed-in
    user, if any, and the loading flag. The simulated one-second delays and the
    local storage writes are not modelled; each operation is its completed state. */
module Auth {
  import opened Base
  import Text

  datatype User = User(
    id: UserId,
    username: string,
    email: string,
    profilePicture: Option<string>,
    profession: Option<string>,
    fieldOfStudy: Option<string>,
    skills: Option<seq<string>>,
    experience: Option<string>)

  datatype AuthState = AuthState(user: Option<User>, isLoading: bool)

  /** `isAuthenticated`: a user is signed in. */
  predicate IsAuthenticated(s: AuthState) {
    s.user.Some?
  }

  /** Before the stored user has been read: nobody signed in, loading. */
  const Initial := AuthState(None, true)

  /** The start-up effect: the user found in local storage, if any, is signed in and loading ends. */
  function Restore(s: AuthState, stored: Option<User>): (r: AuthState)
    ensures IsAuthenticated(r) <==> stored.Some?
    ensures stored.Some? ==> r.user == stored
    ensures !r.isLoading
  {
    AuthState(stored, false)
  }

  /** What an `async` operation may reject with: an `Error` and its message, or some other value. */
  datatype Thrown = ErrorObject(message: string) | OtherValue

  /** A completed operation: the new state and what it threw, if anything. */
  datatype Completion = Completion(state: AuthState, thrown: Option<Thrown>)

  /** The record every `login` signs in as; only the e-mail comes from the caller. */
  function MockUser(email: string): User {
    User("1", "johndoe", email,
         Some("https://images.unsplash.com/photo-1518791841217-8f162f1e1131"),
         Some("Software Engineer"), Some("Computer Science"),
         Some(["React", "TypeScript", "Node.js"]), Some("5 years"))
  }

  /** `login`: the password is never looked at; the user becomes the fixed
      mock user with the given e-mail, and loading ends. */
  function Login(s: AuthState, email: string, password: string): (r: AuthState)
    ensures r.user.Some? && r.user.value.id == "1" && r.user.value.username == "johndoe"
    ensures r.user.value.email == email
    ensures r.user.value.profession == Some("Software Engineer")
    ensures r.user.value.fieldOfStudy == Some("Computer Science")
    ensures r.user.value.skills == Some(["React", "TypeScript", "Node.js"])
    ensures r.user.value.experience == Some("5 years")
    ensures r.user == Some(MockUser(email))
    ensures IsAuthenticated(r) && !r.isLoading
  {
    AuthState(Some(MockUser(email)), false)
  }

  /** Two logins with the same e-mail end in the same state, whatever the passwords. */
  lemma LoginIgnoresPassword(s: AuthState, t: AuthState, email: string, p1: string, p2: string)
    ensures Login(s, email, p1) == Login(t, email, p2)
  {
  }

  /** `register`: nothing is stored and nobody is signed in; loading ends. It never fails. */
  function Register(s: AuthState, email: string, username: string, password: string): (r: Completion)
    ensures r.state.user == s.user && !r.state.isLoading && r.thrown.None?
  {
    Completion(s.(isLoading := false), None)
  }

  /** The only code `verifyEmail` accepts. */
  const VerificationCode: string := "123456"

  /** `verifyEmail`: with the fixed code the user becomes id '1' named after
      the part of the e-mail before '@'; any other code throws
      'Invalid verification code' and leaves the user as it was. Loading ends either way. */
  function VerifyEmail(s: AuthState, email: string, code: string): (r: Completion)
    ensures code == VerificationCode ==>
              r.thrown.None? && r.state.user == Some(User("1", Text.BeforeAt(email), email, None, None, None, None, None))
    ensures code != VerificationCode ==>
              r.thrown == Some(ErrorObject("Invalid verification code")) && r.state.user == s.user
    ensures !r.state.isLoading
  {
    if code == VerificationCode then
      Completion(AuthState(Some(User("1", Text.BeforeAt(email), email, None, None, None, None, None)), false), None)
    else
      Completion(s.(isLoading := false), Some(ErrorObject("Invalid verification code")))
  }

  /** The user name chosen at verification is a prefix of the e-mail with no '@' in it. */
  lemma VerifiedUsername(s: AuthState, email: string)
    ensures VerifyEmail(s, email, VerificationCode).state.user.Some?
    ensures var name := VerifyEmail(s, email, VerificationCode).state.user.value.username;
            '@' !in name && name <= email && ('@' in email ==> |name| < |email|)
            && (|name| == |email| || email[|name|] == '@')
  {
  }

  /** `logout`: nobody is signed in any more. */
  function Logout(s: AuthState): (r: AuthState)
    ensures !IsAuthenticated(r) && r.isLoading == s.isLoading
  {
    s.(user := None)
  }

  /** One key of a `Partial<User>` object: absent, or present with a value
      (for an optional field the value may itself be `undefined`). */
  datatype Field<T> = Absent | Present(value: T) {
    function Over(old_: T): T {
      match this
      case Absent => old_
      case Present(v) => v
    }
  }

  /** A `Partial<User>`. The required keys (`id`, `username`, `email`) can only
      be absent or carry a value: a patch that sets one of them to `undefined`
      explicitly is not represented. */
  datatype UserPatch = UserPatch(
    id: Field<UserId>,
    username: Field<string>,
    email: Field<string>,
    profilePicture: Field<Option<string>>,
    profession: Field<Option<string>>,
    fieldOfStudy: Field<Option<string>>,
    skills: Field<Option<seq<string>>>,
    experience: Field<Option<string>>)

  /** The patch with no keys. */
  const EmptyPatch := UserPatch(Absent, Absent, Absent, Absent, Absent, Absent, Absent, Absent)

  /** `{ ...user, ...patch }`: every key present in the patch overrides, even with `undefined`. */
  function Merge(u: User, p: UserPatch): User {
    User(p.id.Over(u.id), p.username.Over(u.username), p.email.Over(u.email),
         p.profilePicture.Over(u.profilePicture), p.profession.Over(u.profession),
         p.fieldOfStudy.Over(u.fieldOfStudy), p.skills.Over(u.skills), p.experience.Over(u.experience))
  }

  /** `updateProfile`: with a user signed in, the keys of the patch replace that
      user's fields and the rest stay; with nobody signed in nothing changes.
      Loading ends either way. */
  function UpdateProfile(s: AuthState, p: UserPatch): (r: AuthState)
    ensures s.user.None? ==> r.user.None?
    ensures s.user.Some? ==> r.user.Some?
    ensures s.user.Some? ==>
              var (u, v) := (s.user.value, r.user.value);
              && v.id == (if p.id.Present? then p.id.value else u.id)
              && v.username == (if p.username.Present? then p.username.value else u.username)
              && v.email == (if p.email.Present? then p.email.value else u.email)
              && v.profilePicture == (if p.profilePicture.Present? then p.profilePicture.value else u.profilePicture)
              && v.profession == (if p.profession.Present? then p.profession.value else u.profession)
              && v.fieldOfStudy == (if p.fieldOfStudy.Present? then p.fieldOfStudy.value else u.fieldOfStudy)
              && v.skills == (if p.skills.Present? then p.skills.value else u.skills)
              && v.experience == (if p.experience.Present? then p.experience.value else u.experience)
    ensures !r.isLoading
  {
    match s.user
    case None => s.(isLoading := false)
    case Some(u) => AuthState(Some(Merge(u, p)), false)
  }

  /** An empty patch leaves the user alone, and a patch applied twice acts as once. */
  lemma UpdateProfileLaws(s: AuthState, p: UserPatch)
    ensures UpdateProfile(s, EmptyPatch).user == s.user
    ensures UpdateProfile(UpdateProfile(s, p), p) == UpdateProfile(s, p)
  {
  }
}
