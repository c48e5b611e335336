/**
 * Team members on the plan card and on the build card. A team lists up to
 * three members besides the plan's own character; removing the last member
 * removes the team.
 */
module TeamMembers {
  import opened Wrappers
  import opened Lists

  /** The most teams the plan card offers to create. */
  const MAX_TEAMS := 10
  /** The member picker is offered while a team has fewer members than this. */
  const MAX_MEMBERS := 3

  /** Characters the member picker does not list: the plan's own and the current members. */
  function Ignored(planCharacter: string, members: seq<string>): (r: set<string>)
    ensures forall c :: c in r <==> c == planCharacter || c in members
  {
    {planCharacter} + set m | m in members
  }

  /** A well-formed team: members are distinct and never the plan's own character. */
  ghost predicate GoodTeam(planCharacter: string, members: seq<string>) {
    Distinct(members) && planCharacter !in members
  }

  predicate PickerShown(members: seq<string>) {
    |members| < MAX_MEMBERS
  }

  // The plan card edits a draft of the team in place.

  /** The draft of a team an update callback receives. */
  class TeamDraft {
    var characters: seq<string>

    constructor(members: seq<string>)
      ensures characters == members
    {
      characters := members;
    }

    /** `draft.characters.push(characterId)`. */
    method PushMember(c: string)
      modifies this
      ensures characters == old(characters) + [c]
    {
      characters := characters + [c];
    }

    /** `removeByPredMut(draft.characters, c => c == characterId)`. */
    method RemoveMember(c: string)
      modifies this
      ensures characters == RemoveAll(old(characters), c)
    {
      characters := RemoveAll(characters, c);
    }
  }

  datatype TeamAction = NoAction | PushMember(c: string) | RemoveMember(c: string) | DeleteTeam

  /** The plan card's `addMember`: nothing for an ignored character, otherwise push it. */
  function PlanAddMember(planCharacter: string, members: seq<string>, c: string): (a: TeamAction)
    ensures a == NoAction <==> c in Ignored(planCharacter, members)
    ensures a != NoAction ==> a == PushMember(c)
  {
    if c in Ignored(planCharacter, members) then NoAction else PushMember(c)
  }

  /** The plan card's `deleteMember`: the team goes with its last member; otherwise every occurrence is removed. */
  function PlanDeleteMember(members: seq<string>, c: string): (a: TeamAction)
    ensures a == DeleteTeam <==> |members| == 1
    ensures a != DeleteTeam ==> a == RemoveMember(c)
  {
    if |members| == 1 then DeleteTeam else RemoveMember(c)
  }

  /** The update callback an action hands the mutation, run on the draft. */
  method RunOnDraft(d: TeamDraft, a: TeamAction)
    modifies d
    ensures a.PushMember? ==> d.characters == old(d.characters) + [a.c]
    ensures a.RemoveMember? ==> d.characters == RemoveAll(old(d.characters), a.c)
    ensures !a.PushMember? && !a.RemoveMember? ==> d.characters == old(d.characters)
  {
    match a
    case PushMember(c) => d.PushMember(c);
    case RemoveMember(c) => d.RemoveMember(c);
    case _ =>
  }

  /**
   * `addMember` keeps a team well formed, and adding through the picker,
   * which is shown below three members, keeps the team at three at most.
   */
  lemma PlanAddKeepsTeamGood(planCharacter: string, members: seq<string>, c: string)
    requires GoodTeam(planCharacter, members)
    ensures var a := PlanAddMember(planCharacter, members, c);
            var after := if a.PushMember? then members + [c] else members;
            GoodTeam(planCharacter, after) &&
            (PickerShown(members) ==> |after| <= MAX_MEMBERS)
  {
    var a := PlanAddMember(planCharacter, members, c);
    if a.PushMember? {
      var after := members + [c];
      forall i, j | 0 <= i < j < |after|
        ensures after[i] != after[j]
      {
        if j == |members| {
          assert after[i] in members;
        }
      }
    }
  }

  /** Adding a member and deleting it again gives back the team. */
  lemma PlanAddThenDelete(planCharacter: string, members: seq<string>, c: string)
    requires GoodTeam(planCharacter, members) && c !in Ignored(planCharacter, members)
    ensures PlanDeleteMember(members + [c], c) == (if members == [] then DeleteTeam else RemoveMember(c))
    ensures RemoveAll(members + [c], c) == members
  {
    RemoveAllAppendFresh(members, c);
  }

  // The build card sends a whole new team record.

  /** What the build card sends: nothing, a team update with its member list, or the team's deletion. */
  datatype BuildTeamRequest = NoRequest | UpdateTeam(characters: seq<string>) | DeleteTeamRequest

  /**
   * The build card's `addMember`: nothing without a loaded team, while a
   * delete or an update is pending, or for a current member; otherwise the
   * member list with the character at the end.
   */
  function BuildAddMember(team: Option<seq<string>>, deletePending: bool, updatePending: bool, c: string)
    : (r: BuildTeamRequest)
    ensures r == NoRequest <==> team.None? || deletePending || updatePending || c in team.value
    ensures r != NoRequest ==> r == UpdateTeam(team.value + [c])
  {
    if team.None? || deletePending || updatePending then NoRequest
    else if c in team.value then NoRequest
    else UpdateTeam(team.value + [c])
  }

  /**
   * The build card's `deleteMember`: the same guards; the team's deletion for
   * its sole member, otherwise the members without that character.
   */
  function BuildDeleteMember(team: Option<seq<string>>, deletePending: bool, updatePending: bool, c: string)
    : (r: BuildTeamRequest)
    ensures r == NoRequest <==> team.None? || deletePending || updatePending
    ensures r == DeleteTeamRequest <==> !(team.None? || deletePending || updatePending) && |team.value| == 1
    ensures r.UpdateTeam? ==> r.characters == RemoveAll(team.value, c)
  {
    if team.None? || deletePending || updatePending then NoRequest
    else if |team.value| == 1 then DeleteTeamRequest
    else UpdateTeam(RemoveAll(team.value, c))
  }

  /**
   * Both cards agree: with nothing pending and the character allowed by the
   * plan card, the build card sends the list the plan card's draft ends with;
   * deleting from a team of two or more sends the list the draft ends with.
   */
  lemma CardsAgree(planCharacter: string, members: seq<string>, c: string)
    requires GoodTeam(planCharacter, members)
    ensures PlanAddMember(planCharacter, members, c).PushMember? ==>
              BuildAddMember(Some(members), false, false, c) == UpdateTeam(members + [c])
    ensures PlanDeleteMember(members, c).RemoveMember? ==>
              BuildDeleteMember(Some(members), false, false, c) == UpdateTeam(RemoveAll(members, c))
  {
  }

  /** The build card's `addMember` followed by deleting that member sends back the original members. */
  lemma BuildAddThenDelete(members: seq<string>, c: string)
    requires c !in members && members != []
    ensures BuildAddMember(Some(members), false, false, c) == UpdateTeam(members + [c])
    ensures BuildDeleteMember(Some(members + [c]), false, false, c) == UpdateTeam(members)
  {
    RemoveAllAppendFresh(members, c);
  }
}
