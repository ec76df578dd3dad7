/** The search page (src/pages/Search.tsx): one query filters people,
    communities and skills, ignoring case; a skill opens the feed of posts
    that mention it. */
module SearchPage {
  import opened Base
  import Seqs
  import Text
  import Routes
  import CommunityStore
  import PostsStore

  datatype Person = Person(id: UserId, username: string, profession: string, profilePic: string)

  datatype Skill = Skill(id: Id, name: string, count: nat)

  /** The people the page searches. */
  const People: seq<Person> := [
    Person("2", "sarahjones", "Software Engineer", "https://images.unsplash.com/photo-1494790108377-be9c29b29330"),
    Person("3", "mikesmith", "Frontend Developer", "https://images.unsplash.com/photo-1599566150163-29194dcaad36"),
    Person("4", "emilywong", "Data Scientist", "https://images.unsplash.com/photo-1438761681033-6461ffad8d80"),
    Person("5", "alexchen", "DevOps Engineer", "https://images.unsplash.com/photo-1507003211169-0a1dd7228f2d"),
    Person("6", "davidlee", "Mobile Developer", "https://images.unsplash.com/photo-1603415526960-f7e0328c63b1")]

  /** The skills the page searches, with their follower counts. */
  const Skills: seq<Skill> := [
    Skill("1", "React", 124), Skill("2", "JavaScript", 156), Skill("3", "Node.js", 89),
    Skill("4", "Python", 112), Skill("5", "TypeScript", 78), Skill("6", "Docker", 67),
    Skill("7", "AWS", 92), Skill("8", "GraphQL", 45), Skill("9", "Git", 134)]

  predicate PersonHit(p: Person, query: string) {
    Text.Matches(p.username, query) || Text.Matches(p.profession, query)
  }

  predicate CommunityHit(c: CommunityStore.Community, query: string) {
    || Text.Matches(c.name, query)
    || Text.Matches(c.description, query)
    || exists i :: 0 <= i < |c.tags| && Text.Matches(c.tags[i], query)
  }

  predicate SkillHit(s: Skill, query: string) {
    Text.Matches(s.name, query)
  }

  function PersonMatches(query: string): Person -> bool {
    (p: Person) => PersonHit(p, query)
  }

  function CommunityMatches(query: string): CommunityStore.Community -> bool {
    (c: CommunityStore.Community) => CommunityHit(c, query)
  }

  function SkillMatches(query: string): Skill -> bool {
    (s: Skill) => SkillHit(s, query)
  }

  /** `filteredUsers`: the people whose name or profession contains the query. */
  function FilteredPeople(people: seq<Person>, query: string): (r: seq<Person>)
    ensures forall p :: p in r <==> p in people && PersonHit(p, query)
    ensures forall p :: multiset(r)[p] == if PersonHit(p, query) then multiset(people)[p] else 0
    ensures Seqs.IsSubsequence(r, people)
  {
    Seqs.Filter(people, PersonMatches(query))
  }

  /** `filteredCommunities`: the communities whose name, description or one of whose tags contains the query. */
  function FilteredCommunities(cs: seq<CommunityStore.Community>, query: string): (r: seq<CommunityStore.Community>)
    ensures forall c :: c in r <==> c in cs && CommunityHit(c, query)
    ensures forall c :: multiset(r)[c] == if CommunityHit(c, query) then multiset(cs)[c] else 0
    ensures Seqs.IsSubsequence(r, cs)
  {
    Seqs.Filter(cs, CommunityMatches(query))
  }

  /** `filteredSkills`: the skills whose name contains the query. */
  function FilteredSkills(skills: seq<Skill>, query: string): (r: seq<Skill>)
    ensures forall s :: s in r <==> s in skills && SkillHit(s, query)
    ensures forall s :: multiset(r)[s] == if SkillHit(s, query) then multiset(skills)[s] else 0
    ensures Seqs.IsSubsequence(r, skills)
  {
    Seqs.Filter(skills, SkillMatches(query))
  }

  /** With the query empty (as first shown, or after the clear button) every list is shown whole. */
  lemma EmptyQueryShowsAll(people: seq<Person>, cs: seq<CommunityStore.Community>, skills: seq<Skill>)
    ensures FilteredPeople(people, "") == people
    ensures FilteredCommunities(cs, "") == cs
    ensures FilteredSkills(skills, "") == skills
  {
    forall i | 0 <= i < |people| ensures PersonHit(people[i], "") {
      Text.EmptyQueryMatches(people[i].username);
    }
    Seqs.FilterAll(people, PersonMatches(""));
    forall i | 0 <= i < |cs| ensures CommunityHit(cs[i], "") {
      Text.EmptyQueryMatches(cs[i].name);
    }
    Seqs.FilterAll(cs, CommunityMatches(""));
    forall i | 0 <= i < |skills| ensures SkillHit(skills[i], "") {
      Text.EmptyQueryMatches(skills[i].name);
    }
    Seqs.FilterAll(skills, SkillMatches(""));
  }

  /** Typing more characters never brings a result back. */
  lemma LongerQueryNarrows(people: seq<Person>, cs: seq<CommunityStore.Community>, skills: seq<Skill>,
                           query: string, more: string)
    ensures forall p :: p in FilteredPeople(people, query + more) ==> p in FilteredPeople(people, query)
    ensures forall c :: c in FilteredCommunities(cs, query + more) ==> c in FilteredCommunities(cs, query)
    ensures forall s :: s in FilteredSkills(skills, query + more) ==> s in FilteredSkills(skills, query)
  {
    forall p | p in FilteredPeople(people, query + more) ensures PersonHit(p, query) {
      if Text.Matches(p.username, query + more) {
        Text.LongerQueryNarrows(p.username, query, more);
      } else {
        Text.LongerQueryNarrows(p.profession, query, more);
      }
    }
    forall c | c in FilteredCommunities(cs, query + more) ensures CommunityHit(c, query) {
      if Text.Matches(c.name, query + more) {
        Text.LongerQueryNarrows(c.name, query, more);
      } else if Text.Matches(c.description, query + more) {
        Text.LongerQueryNarrows(c.description, query, more);
      } else {
        var i :| 0 <= i < |c.tags| && Text.Matches(c.tags[i], query + more);
        Text.LongerQueryNarrows(c.tags[i], query, more);
      }
    }
    forall s | s in FilteredSkills(skills, query + more) ensures SkillHit(s, query) {
      Text.LongerQueryNarrows(s.name, query, more);
    }
  }

  function MentionsSkill(skill: string): PostsStore.Post -> bool {
    (p: PostsStore.Post) => Text.Matches(p.content, skill)
  }

  function Ids(ps: seq<PostsStore.Post>): (r: seq<Id>)
    ensures |r| == |ps| && forall i :: 0 <= i < |ps| ==> r[i] == ps[i].id
  {
    seq(|ps|, i requires 0 <= i < |ps| => ps[i].id)
  }

  /** What `handleSkillClick` stores and where it goes. */
  datatype SkillSearch = SkillSearch(skill: string, postIds: seq<Id>, navigate: Routes.Route)

  /** `handleSkillClick`: the ids of the posts whose text mentions the skill,
      ignoring case, in feed order; then the feed filtered by that skill. */
  function SkillClick(posts: seq<PostsStore.Post>, skill: string): (r: SkillSearch)
    ensures r.skill == skill && r.navigate == Routes.SkillResults(skill)
    ensures |r.postIds| <= |posts|
    ensures forall p :: p in posts && Text.Matches(p.content, skill) ==> p.id in r.postIds
    ensures forall id :: id in r.postIds ==>
              exists p :: p in posts && p.id == id && Text.Matches(p.content, skill)
    ensures var hits := Seqs.Filter(posts, MentionsSkill(skill));
            |r.postIds| == |hits| && forall i :: 0 <= i < |hits| ==> r.postIds[i] == hits[i].id
  {
    HitIds(posts, skill);
    SkillSearch(skill, Ids(Seqs.Filter(posts, MentionsSkill(skill))), Routes.SkillResults(skill))
  }

  /** The ids of the posts mentioning a skill are exactly the ids of such posts. */
  lemma HitIds(posts: seq<PostsStore.Post>, skill: string)
    ensures var ids := Ids(Seqs.Filter(posts, MentionsSkill(skill)));
            && |ids| <= |posts|
            && (forall p :: p in posts && Text.Matches(p.content, skill) ==> p.id in ids)
            && (forall id :: id in ids ==> exists p :: p in posts && p.id == id && Text.Matches(p.content, skill))
  {
    var hits := Seqs.Filter(posts, MentionsSkill(skill));
    var ids := Ids(hits);
    forall p | p in posts && Text.Matches(p.content, skill) ensures p.id in ids {
      assert MentionsSkill(skill)(p);
      var i :| 0 <= i < |hits| && hits[i] == p;
      assert ids[i] == p.id;
    }
    forall id | id in ids ensures exists p :: p in posts && p.id == id && Text.Matches(p.content, skill) {
      var i :| 0 <= i < |ids| && ids[i] == id;
      assert hits[i] in hits;
    }
  }

  /** A post stays among a skill's results however it is liked or commented on. */
  lemma SkillResultsIgnoreLikes(posts: seq<PostsStore.Post>, skill: string, postId: Id)
    ensures SkillClick(PostsStore.LikePost(posts, postId), skill).postIds == SkillClick(posts, skill).postIds
    ensures forall d, id, now ::
              SkillClick(PostsStore.AddComment(posts, postId, d, id, now), skill).postIds == SkillClick(posts, skill).postIds
  {
    SameHitIds(posts, PostsStore.LikePost(posts, postId), skill);
    forall d, id, now
      ensures SkillClick(PostsStore.AddComment(posts, postId, d, id, now), skill).postIds == SkillClick(posts, skill).postIds
    {
      SameHitIds(posts, PostsStore.AddComment(posts, postId, d, id, now), skill);
    }
  }

  /** Two feeds that agree on every post's id and text give the same skill results. */
  lemma {:induction false} SameHitIds(a: seq<PostsStore.Post>, b: seq<PostsStore.Post>, skill: string)
    requires |a| == |b|
    requires forall i :: 0 <= i < |a| ==> a[i].id == b[i].id && a[i].content == b[i].content
    ensures Ids(Seqs.Filter(a, MentionsSkill(skill))) == Ids(Seqs.Filter(b, MentionsSkill(skill)))
  {
    if |a| > 0 {
      var m := MentionsSkill(skill);
      assert forall i :: 0 <= i < |a| - 1 ==> a[1..][i] == a[i + 1] && b[1..][i] == b[i + 1];
      SameHitIds(a[1..], b[1..], skill);
      var ta, tb := Seqs.Filter(a[1..], m), Seqs.Filter(b[1..], m);
      assert m(a[0]) == m(b[0]);
      if m(a[0]) {
        assert Seqs.Filter(a, m) == [a[0]] + ta;
        assert Seqs.Filter(b, m) == [b[0]] + tb;
        IdsCons(a[0], ta);
        IdsCons(b[0], tb);
      } else {
        assert Seqs.Filter(a, m) == ta;
        assert Seqs.Filter(b, m) == tb;
      }
    }
  }

  lemma IdsCons(p: PostsStore.Post, ps: seq<PostsStore.Post>)
    ensures Ids([p] + ps) == [p.id] + Ids(ps)
  {
  }

  /** `handleUserClick`: a person opens their profile. */
  function PersonClick(p: Person): (r: Routes.Route)
    ensures r == Routes.UserPage(p.id) && Routes.Path(r) == "/user/" + p.id
  {
    Routes.UserPage(p.id)
  }
}
