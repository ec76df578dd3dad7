/** The community store and its membership transitions (src/context/CommunityContext.tsx).
    `memberCount` is stored next to `members` and is not derived from it
    (the seed data already disagree), so the operations are stated by how
    each of them moves the two. Ids are not assumed unique. */
module CommunityStore {
  import opened Base
  import Seqs
  import Text

  datatype Community = Community(
    id: Id,
    name: string,
    description: string,
    creatorId: UserId,
    creatorName: string,
    memberCount: int,
    imageUrl: Option<string>,
    tags: seq<string>,
    isPrivate: bool,
    members: seq<UserId>,
    pendingRequests: seq<UserId>)

  /** What a caller hands to `createCommunity`. */
  datatype CommunityDraft = CommunityDraft(
    name: string,
    description: string,
    creatorId: UserId,
    creatorName: string,
    imageUrl: Option<string>,
    tags: seq<string>,
    isPrivate: bool)

  function HasMember(u: UserId): Community -> bool {
    (c: Community) => u in c.members
  }

  function HasId(id: Id): Community -> bool {
    (c: Community) => c.id == id
  }

  /** `userCommunities`: the communities `u` is a member of, in store order. */
  function UserCommunities(cs: seq<Community>, u: UserId): (r: seq<Community>)
    ensures forall c :: c in r <==> c in cs && u in c.members
    ensures forall c :: multiset(r)[c] == if u in c.members then multiset(cs)[c] else 0
    ensures Seqs.IsSubsequence(r, cs)
  {
    Seqs.Filter(cs, HasMember(u))
  }

  /** `getCommunity`: the first community with the id, absent when there is none. */
  function GetCommunity(cs: seq<Community>, id: Id): (r: Option<Community>)
    ensures r.None? <==> forall c :: c in cs ==> c.id != id
    ensures r.Some? ==> exists i :: 0 <= i < |cs| && cs[i] == r.value && r.value.id == id &&
                                    forall j :: 0 <= j < i ==> cs[j].id != id
  {
    Seqs.Find(cs, HasId(id))
  }

  /** `createCommunity`: the new community goes last; its id is the slug of its
      name, its creator is its only member, its count is 1 and nobody is pending. */
  function CreateCommunity(cs: seq<Community>, d: CommunityDraft): (r: seq<Community>)
    ensures |r| == |cs| + 1 && r[..|cs|] == cs
    ensures r[|cs|].id == Text.Slug(d.name) && Text.NoSpace(r[|cs|].id)
    ensures r[|cs|].members == [d.creatorId] && r[|cs|].memberCount == 1 && r[|cs|].pendingRequests == []
    ensures && r[|cs|].name == d.name && r[|cs|].description == d.description
            && r[|cs|].creatorId == d.creatorId && r[|cs|].creatorName == d.creatorName
            && r[|cs|].imageUrl == d.imageUrl && r[|cs|].tags == d.tags && r[|cs|].isPrivate == d.isPrivate
  {
    cs + [Community(Text.Slug(d.name), d.name, d.description, d.creatorId, d.creatorName, 1,
                    d.imageUrl, d.tags, d.isPrivate, [d.creatorId], [])]
  }

  function JoinOne(c: Community, id: Id, u: UserId): Community {
    if c.id == id && u !in c.members then c.(members := c.members + [u], memberCount := c.memberCount + 1) else c
  }

  /** `joinCommunity`: in a community with the id that `u` is not a member of,
      `u` is appended to the members and the count goes up by one; nothing else
      changes anywhere. */
  function JoinCommunity(cs: seq<Community>, id: Id, u: UserId): (r: seq<Community>)
    ensures |r| == |cs|
    ensures forall i :: 0 <= i < |cs| && (cs[i].id != id || u in cs[i].members) ==> r[i] == cs[i]
    ensures forall i :: 0 <= i < |cs| && cs[i].id == id && u !in cs[i].members ==>
              r[i] == cs[i].(members := cs[i].members + [u], memberCount := cs[i].memberCount + 1)
  {
    seq(|cs|, i requires 0 <= i < |cs| => JoinOne(cs[i], id, u))
  }

  function RequestOne(c: Community, id: Id, u: UserId): Community {
    if c.id == id && u !in c.pendingRequests then c.(pendingRequests := c.pendingRequests + [u]) else c
  }

  /** `requestToJoin`: `u` is added to the pending requests of a community with
      the id unless already there; members and count are never touched. */
  function RequestToJoin(cs: seq<Community>, id: Id, u: UserId): (r: seq<Community>)
    ensures |r| == |cs|
    ensures forall i :: 0 <= i < |cs| && (cs[i].id != id || u in cs[i].pendingRequests) ==> r[i] == cs[i]
    ensures forall i :: 0 <= i < |cs| && cs[i].id == id && u !in cs[i].pendingRequests ==>
              r[i] == cs[i].(pendingRequests := cs[i].pendingRequests + [u])
    ensures forall i :: 0 <= i < |cs| ==>
              r[i].members == cs[i].members && r[i].memberCount == cs[i].memberCount &&
              multiset(r[i].pendingRequests)[u] <= multiset(cs[i].pendingRequests)[u] + 1
  {
    seq(|cs|, i requires 0 <= i < |cs| => RequestOne(cs[i], id, u))
  }

  function ApproveOne(c: Community, id: Id, u: UserId): Community {
    if c.id == id && u in c.pendingRequests then
      c.(members := c.members + [u], memberCount := c.memberCount + 1,
         pendingRequests := Seqs.Without(c.pendingRequests, u))
    else c
  }

  /** `approveRequest`: only where `u` is pending, `u` leaves the pending
      requests, is appended to the members (without a membership check) and the
      count goes up by one; elsewhere nothing changes. */
  function ApproveRequest(cs: seq<Community>, id: Id, u: UserId): (r: seq<Community>)
    ensures |r| == |cs|
    ensures forall i :: 0 <= i < |cs| && (cs[i].id != id || u !in cs[i].pendingRequests) ==> r[i] == cs[i]
    ensures forall i :: 0 <= i < |cs| && cs[i].id == id && u in cs[i].pendingRequests ==>
              && r[i].members == cs[i].members + [u]
              && r[i].memberCount == cs[i].memberCount + 1
              && u !in r[i].pendingRequests
              && r[i].pendingRequests == Seqs.Without(cs[i].pendingRequests, u)
              && r[i] == cs[i].(members := r[i].members, memberCount := r[i].memberCount,
                                pendingRequests := r[i].pendingRequests)
  {
    seq(|cs|, i requires 0 <= i < |cs| => ApproveOne(cs[i], id, u))
  }

  function RejectOne(c: Community, id: Id, u: UserId): Community {
    if c.id == id && u in c.pendingRequests then c.(pendingRequests := Seqs.Without(c.pendingRequests, u)) else c
  }

  /** `rejectRequest`: only where `u` is pending, `u` leaves the pending
      requests; members and count stay. */
  function RejectRequest(cs: seq<Community>, id: Id, u: UserId): (r: seq<Community>)
    ensures |r| == |cs|
    ensures forall i :: 0 <= i < |cs| && (cs[i].id != id || u !in cs[i].pendingRequests) ==> r[i] == cs[i]
    ensures forall i :: 0 <= i < |cs| && cs[i].id == id && u in cs[i].pendingRequests ==>
              && u !in r[i].pendingRequests
              && r[i] == cs[i].(pendingRequests := Seqs.Without(cs[i].pendingRequests, u))
  {
    seq(|cs|, i requires 0 <= i < |cs| => RejectOne(cs[i], id, u))
  }

  function LeaveOne(c: Community, id: Id, u: UserId): Community {
    if c.id == id && u in c.members then
      c.(members := Seqs.Without(c.members, u), memberCount := c.memberCount - 1)
    else c
  }

  /** `leaveCommunity`: only where `u` is a member, every occurrence of `u`
      leaves the members and the count goes down by one. */
  function LeaveCommunity(cs: seq<Community>, id: Id, u: UserId): (r: seq<Community>)
    ensures |r| == |cs|
    ensures forall i :: 0 <= i < |cs| && (cs[i].id != id || u !in cs[i].members) ==> r[i] == cs[i]
    ensures forall i :: 0 <= i < |cs| && cs[i].id == id && u in cs[i].members ==>
              && u !in r[i].members
              && r[i] == cs[i].(members := Seqs.Without(cs[i].members, u), memberCount := cs[i].memberCount - 1)
  {
    seq(|cs|, i requires 0 <= i < |cs| => LeaveOne(cs[i], id, u))
  }

  lemma JoinThenLeaveOne(c: Community, id: Id, u: UserId)
    requires c.id == id ==> u !in c.members
    ensures LeaveOne(JoinOne(c, id, u), id, u) == c
  {
    if c.id == id {
      Seqs.WithoutAppended(c.members, u);
    }
  }

  /** Joining and then leaving restores a store in which `u` was not a member. */
  lemma JoinThenLeave(cs: seq<Community>, id: Id, u: UserId)
    requires forall c :: c in cs && c.id == id ==> u !in c.members
    ensures LeaveCommunity(JoinCommunity(cs, id, u), id, u) == cs
  {
    var joined := JoinCommunity(cs, id, u);
    var left := LeaveCommunity(joined, id, u);
    forall i | 0 <= i < |cs| ensures left[i] == cs[i] {
      assert cs[i] in cs;
      assert joined[i] == JoinOne(cs[i], id, u);
      assert left[i] == LeaveOne(joined[i], id, u);
      JoinThenLeaveOne(cs[i], id, u);
    }
  }

  lemma RequestThenRejectOne(c: Community, id: Id, u: UserId)
    requires c.id == id ==> u !in c.pendingRequests
    ensures RejectOne(RequestOne(c, id, u), id, u) == c
  {
    if c.id == id {
      Seqs.WithoutAppended(c.pendingRequests, u);
    }
  }

  /** Requesting and then being rejected restores a store in which `u` was not pending. */
  lemma RequestThenReject(cs: seq<Community>, id: Id, u: UserId)
    requires forall c :: c in cs && c.id == id ==> u !in c.pendingRequests
    ensures RejectRequest(RequestToJoin(cs, id, u), id, u) == cs
  {
    var requested := RequestToJoin(cs, id, u);
    var rejected := RejectRequest(requested, id, u);
    forall i | 0 <= i < |cs| ensures rejected[i] == cs[i] {
      assert cs[i] in cs;
      assert requested[i] == RequestOne(cs[i], id, u);
      assert rejected[i] == RejectOne(requested[i], id, u);
      RequestThenRejectOne(cs[i], id, u);
    }
  }

  lemma RequestThenApproveOne(c: Community, id: Id, u: UserId)
    requires c.id == id ==> u !in c.pendingRequests && u !in c.members
    ensures ApproveOne(RequestOne(c, id, u), id, u) == JoinOne(c, id, u)
  {
    if c.id == id {
      Seqs.WithoutAppended(c.pendingRequests, u);
    }
  }

  /** For a user who is neither member nor pending, requesting and being
      approved ends where joining does. */
  lemma RequestThenApproveIsJoin(cs: seq<Community>, id: Id, u: UserId)
    requires forall c :: c in cs && c.id == id ==> u !in c.pendingRequests && u !in c.members
    ensures ApproveRequest(RequestToJoin(cs, id, u), id, u) == JoinCommunity(cs, id, u)
  {
    var requested := RequestToJoin(cs, id, u);
    var approved := ApproveRequest(requested, id, u);
    var joined := JoinCommunity(cs, id, u);
    forall i | 0 <= i < |cs| ensures approved[i] == joined[i] {
      assert cs[i] in cs;
      RequestThenApproveOne(cs[i], id, u);
    }
  }

  /** The difference between the stored count and the length of the member list. */
  function CountGap(c: Community): int {
    c.memberCount - |c.members|
  }

  /** Join, request, approve and reject never change the gap between
      `memberCount` and the member list, and neither does leave as long as the
      leaving user is listed at most once. */
  lemma CountGapPreserved(cs: seq<Community>, id: Id, u: UserId, i: nat)
    requires i < |cs|
    ensures CountGap(JoinCommunity(cs, id, u)[i]) == CountGap(cs[i])
    ensures CountGap(RequestToJoin(cs, id, u)[i]) == CountGap(cs[i])
    ensures CountGap(ApproveRequest(cs, id, u)[i]) == CountGap(cs[i])
    ensures CountGap(RejectRequest(cs, id, u)[i]) == CountGap(cs[i])
    ensures multiset(cs[i].members)[u] <= 1 ==> CountGap(LeaveCommunity(cs, id, u)[i]) == CountGap(cs[i])
  {
    Seqs.WithoutLength(cs[i].members, u);
  }

  /** Leaving removes a member listed twice in one step, but lowers the count only by one. */
  lemma LeaveWithDuplicateMember(c: Community, u: UserId)
    requires multiset(c.members)[u] == 2
    ensures CountGap(LeaveCommunity([c], c.id, u)[0]) == CountGap(c) + 1
  {
    Seqs.WithoutLength(c.members, u);
  }
}
