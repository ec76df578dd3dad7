/** The three-step profile wizard shown after sign-up (src/pages/auth/SetupProfile.tsx):
    profession and experience, then field of study, then skills. */
module SetupProfilePage {
  import opened Base
  import Seqs
  import Text
  import Auth
  import Routes

  /** The fields of study offered in step 2. */
  const FieldOptions: seq<string> := [
    "Software Engineering", "Machine Learning", "Data Science", "Web Development",
    "Mobile Development", "DevOps", "Game Development", "UX/UI Design",
    "Cybersecurity", "Blockchain"]

  /** The skills suggested in step 3. */
  const SkillOptions: seq<string> := [
    "JavaScript", "TypeScript", "Python", "Java", "C#", "Go", "Rust", "Ruby", "PHP",
    "Swift", "Kotlin", "React", "Angular", "Vue", "Node.js", "Django", "Flask",
    "Spring", "ASP.NET", "AWS", "Azure", "Google Cloud", "Docker", "Kubernetes",
    "Git", "CI/CD"]

  /** How many skill suggestions are listed at most. */
  const MaxSuggestions: nat := 5

  datatype Wizard = Wizard(
    step: int,
    profilePicture: Option<string>,
    profession: string,
    fieldOfStudy: string,
    skills: seq<string>,
    experience: string,
    searchField: string,
    searchSkill: string)

  /** The wizard as first shown: step 1, prefilled from the signed-in user. */
  function Start(user: Option<Auth.User>): (w: Wizard)
    ensures w.step == 1 && w.searchField == "" && w.searchSkill == ""
    ensures user.None? ==>
              w.profilePicture.None? && w.profession == "" && w.fieldOfStudy == "" &&
              w.skills == [] && w.experience == ""
    ensures user.Some? ==>
              && w.profilePicture == user.value.profilePicture
              && (if user.value.profession.Some? then w.profession == user.value.profession.value else w.profession == "")
              && (if user.value.fieldOfStudy.Some? then w.fieldOfStudy == user.value.fieldOfStudy.value else w.fieldOfStudy == "")
              && (if user.value.experience.Some? then w.experience == user.value.experience.value else w.experience == "")
              && (if user.value.skills.Some? then w.skills == user.value.skills.value else w.skills == [])
  {
    match user
    case None => Wizard(1, None, "", "", [], "", "", "")
    case Some(u) =>
      Wizard(1, u.profilePicture, u.profession.GetOr(""), u.fieldOfStudy.GetOr(""),
             u.skills.GetOr([]), u.experience.GetOr(""), "", "")
  }

  function FieldMatches(query: string): string -> bool {
    (f: string) => Text.Matches(f, query)
  }

  function SkillSuggested(query: string, chosen: seq<string>): string -> bool {
    (s: string) => Text.Matches(s, query) && s !in chosen
  }

  /** `filteredFields`: the options whose name contains the search text, ignoring case. */
  function FilteredFields(w: Wizard): (r: seq<string>)
    ensures forall f :: f in r <==> f in FieldOptions && Text.Matches(f, w.searchField)
    ensures Seqs.IsSubsequence(r, FieldOptions)
  {
    Seqs.Filter(FieldOptions, FieldMatches(w.searchField))
  }

  /** `filteredSkills`: the options matching the search text that are not chosen yet. */
  function FilteredSkills(w: Wizard): (r: seq<string>)
    ensures forall s :: s in r <==> s in SkillOptions && Text.Matches(s, w.searchSkill) && s !in w.skills
    ensures Seqs.IsSubsequence(r, SkillOptions)
  {
    Seqs.Filter(SkillOptions, SkillSuggested(w.searchSkill, w.skills))
  }

  /** The suggestion list under the skill search: nothing while the search is
      empty, otherwise the first five filtered skills. */
  function Suggestions(w: Wizard): (r: seq<string>)
    ensures |r| <= MaxSuggestions
    ensures w.searchSkill == "" ==> r == []
    ensures forall s :: s in r ==> s in SkillOptions && s !in w.skills && Text.Matches(s, w.searchSkill)
    ensures w.searchSkill != "" ==> r <= FilteredSkills(w)
    ensures w.searchSkill != "" ==> r == Take(FilteredSkills(w), MaxSuggestions)
  {
    if w.searchSkill == "" then [] else Take(FilteredSkills(w), MaxSuggestions)
  }

  /** `slice(0, n)`. */
  function Take(s: seq<string>, n: nat): (r: seq<string>)
    ensures |r| <= n && r <= s
    ensures |r| == if |s| <= n then |s| else n
    ensures forall x :: x in r ==> x in s
  {
    if |s| <= n then s else s[..n]
  }

  /** `addSkill`: the skill is appended unless already chosen; the search is cleared either way. */
  function AddSkill(w: Wizard, skill: string): (r: Wizard)
    ensures skill in r.skills && r.searchSkill == ""
    ensures skill in w.skills ==> r.skills == w.skills
    ensures skill !in w.skills ==> r.skills == w.skills + [skill]
    ensures r == w.(skills := r.skills, searchSkill := "")
  {
    w.(skills := if skill in w.skills then w.skills else w.skills + [skill], searchSkill := "")
  }

  /** `removeSkill`: every occurrence of the skill goes; the others stay, in order. */
  function RemoveSkill(w: Wizard, skill: string): (r: Wizard)
    ensures skill !in r.skills
    ensures forall s :: s != skill ==> (s in r.skills <==> s in w.skills)
    ensures r.skills == Seqs.Without(w.skills, skill)
    ensures Seqs.IsSubsequence(r.skills, w.skills)
    ensures forall s :: s != skill ==> multiset(r.skills)[s] == multiset(w.skills)[s]
    ensures r == w.(skills := r.skills)
  {
    w.(skills := Seqs.Without(w.skills, skill))
  }

  /** Adding and removing keep the chosen skills free of repeats. */
  lemma SkillsStayDistinct(w: Wizard, skill: string, other: string)
    requires Seqs.Distinct(w.skills)
    ensures Seqs.Distinct(AddSkill(w, skill).skills)
    ensures Seqs.Distinct(RemoveSkill(w, other).skills)
  {
    if skill !in w.skills {
      var r := w.skills + [skill];
      forall x
        ensures multiset(r)[x] <= 1
      {
        assert multiset(r) == multiset(w.skills) + multiset{skill};
      }
    }
  }

  /** Adding a skill that was not chosen and then removing it restores the list. */
  lemma AddThenRemove(w: Wizard, skill: string)
    requires skill !in w.skills
    ensures RemoveSkill(AddSkill(w, skill), skill) == w.(searchSkill := "")
  {
    Seqs.WithoutAppended(w.skills, skill);
  }

  /** A suggested skill, once added, is no longer suggested. */
  lemma AddedSkillLeavesSuggestions(w: Wizard, skill: string)
    ensures skill !in FilteredSkills(AddSkill(w, skill))
    ensures Suggestions(AddSkill(w, skill)) == []
  {
  }

  /** The controls of the wizard, each as the step that shows it. */
  datatype Event =
    | PickPicture(url: string)      // step 1: the file reader's data URL
    | SetProfession(profession: string)  // step 1
    | SetExperience(experience: string)  // step 1
    | SearchField(query: string)    // step 2
    | PickField(field: string)      // step 2: a button of the filtered list
    | SearchSkill(query: string)    // step 3
    | Add(skill: string)            // step 3: a suggestion, or the typed text
    | Remove(skill: string)         // step 3: the cross on a chosen skill
    | Next                          // steps 1 and 2
    | Back                          // steps 2 and 3

  /** The Next button is enabled: step 1 needs a profession and an
      experience, step 2 a field of study. */
  predicate CanContinue(w: Wizard) {
    (w.step == 1 && w.profession != "" && w.experience != "") ||
    (w.step == 2 && w.fieldOfStudy != "")
  }

  /** The event is offered by the page in the wizard's current state. */
  predicate Offered(w: Wizard, e: Event) {
    match e
    case PickPicture(_) => w.step == 1
    case SetProfession(_) => w.step == 1
    case SetExperience(_) => w.step == 1
    case SearchField(_) => w.step == 2
    case PickField(f) => w.step == 2 && f in FilteredFields(w)
    case SearchSkill(_) => w.step == 3
    case Add(s) => w.step == 3 && (s == w.searchSkill || s in Suggestions(w)) && w.searchSkill != ""
    case Remove(s) => w.step == 3 && s in w.skills
    case Next => CanContinue(w)
    case Back => w.step == 2 || w.step == 3
  }

  /** The state after an event. */
  function Apply(w: Wizard, e: Event): Wizard {
    match e
    case PickPicture(url) => w.(profilePicture := Some(url))
    case SetProfession(p) => w.(profession := p)
    case SetExperience(x) => w.(experience := x)
    case SearchField(q) => w.(searchField := q)
    case PickField(f) => w.(fieldOfStudy := f)
    case SearchSkill(q) => w.(searchSkill := q)
    case Add(s) => AddSkill(w, s)
    case Remove(s) => RemoveSkill(w, s)
    case Next => w.(step := w.step + 1)
    case Back => w.(step := w.step - 1)
  }

  /** What the page guarantees about a wizard it has reached: it is on one of
      the three steps, and every step passed was completed. */
  predicate Consistent(w: Wizard) {
    && 1 <= w.step <= 3
    && (w.step >= 2 ==> w.profession != "" && w.experience != "")
    && (w.step == 3 ==> w.fieldOfStudy != "")
  }

  /** The start state is consistent and every offered event keeps it so. */
  lemma ConsistentInvariant(user: Option<Auth.User>, w: Wizard, e: Event)
    ensures Consistent(Start(user))
    ensures Consistent(w) && Offered(w, e) ==> Consistent(Apply(w, e))
  {
    if Consistent(w) && Offered(w, e) && e.PickField? {
      assert e.field in FieldOptions;
    }
  }

  /** Consistency holds along every run of offered events. */
  lemma {:induction false} RunConsistent(w: Wizard, events: seq<Event>)
    requires Consistent(w)
    requires OfferedRun(w, events)
    ensures Consistent(Run(w, events))
    decreases |events|
  {
    if |events| > 0 {
      ConsistentInvariant(None, w, events[0]);
      RunConsistent(Apply(w, events[0]), events[1..]);
    }
  }

  /** The state after a sequence of events. */
  function Run(w: Wizard, events: seq<Event>): Wizard
    decreases |events|
  {
    if |events| == 0 then w else Run(Apply(w, events[0]), events[1..])
  }

  /** Each event of the sequence is offered when it happens. */
  predicate OfferedRun(w: Wizard, events: seq<Event>)
    decreases |events|
  {
    |events| == 0 || (Offered(w, events[0]) && OfferedRun(Apply(w, events[0]), events[1..]))
  }

  /** The object `handleFinish` passes to `updateProfile`: the five wizard fields. */
  function ProfilePatch(w: Wizard): Auth.UserPatch {
    Auth.UserPatch(Auth.Absent, Auth.Absent, Auth.Absent,
                   Auth.Present(w.profilePicture), Auth.Present(Some(w.profession)),
                   Auth.Present(Some(w.fieldOfStudy)), Auth.Present(Some(w.skills)),
                   Auth.Present(Some(w.experience)))
  }

  datatype Finished = Finished(auth: Auth.AuthState, navigate: Routes.Route)

  /** `handleFinish`: the signed-in user takes the wizard's five fields and
      keeps id, name and e-mail; the page then goes home. */
  function Finish(w: Wizard, auth: Auth.AuthState): (r: Finished)
    ensures r.navigate == Routes.Home
    ensures auth.user.None? ==> r.auth.user.None?
    ensures auth.user.Some? ==>
              r.auth.user == Some(auth.user.value.(profilePicture := w.profilePicture,
                                                   profession := Some(w.profession),
                                                   fieldOfStudy := Some(w.fieldOfStudy),
                                                   skills := Some(w.skills),
                                                   experience := Some(w.experience)))
  {
    Finished(Auth.UpdateProfile(auth, ProfilePatch(w)), Routes.Home)
  }

  /** Whatever the user did on the way, finishing from a reached step 3
      stores a non-empty profession, experience and field of study. */
  lemma FinishStoresCompleteProfile(user: Auth.User, events: seq<Event>)
    requires OfferedRun(Start(Some(user)), events)
    requires Run(Start(Some(user)), events).step == 3
    ensures var u := Finish(Run(Start(Some(user)), events), Auth.AuthState(Some(user), false)).auth.user.value;
            u.profession.Some? && u.profession.value != "" &&
            u.experience.Some? && u.experience.value != "" &&
            u.fieldOfStudy.Some? && u.fieldOfStudy.value != "" &&
            u.id == user.id
  {
    ConsistentInvariant(Some(user), Start(Some(user)), Next);
    RunConsistent(Start(Some(user)), events);
  }
}
