/** The LTS (3v3 and larger) team registry: the lts_teams table with its
    commands to register a team, add and remove roster members, rename a
    team and leave one. A team's id is its position in the table. */
module LtsRegistry {
  import opened Common

  /** An lts_teams row. */
  datatype LtsTeam = LtsTeam(
    name: string, owner: PlayerId, roster: seq<PlayerId>,
    rating: int, matchesPlayed: int, wins: int, losses: int)

  /** An lts_matches row; the purse is always 0. */
  datatype LtsMatchRow = LtsMatchRow(
    submitter: PlayerId, confirmer: PlayerId,
    winnerTeam: nat, winnerScore: int, winnerRating: int,
    loserTeam: nat, loserScore: int, loserRating: int, purse: int)

  /** The WHERE clauses the registry looks teams up by. */
  datatype Criterion =
    | NamedAs(name: string)              // team_name = name
    | OwnedBy(owner: PlayerId)           // team_owner = owner
    | Holding(player: PlayerId)          // roster @> [player]
    | OwnerOrMember(user: PlayerId)      // team_owner = user OR roster @> [user]

  predicate Meets(t: LtsTeam, c: Criterion)
  {
    match c
    case NamedAs(name) => t.name == name
    case OwnedBy(owner) => t.owner == owner
    case Holding(player) => player in t.roster
    case OwnerOrMember(user) => t.owner == user || user in t.roster
  }

  /** fetchrow / fetchval of the query: the first team meeting the criterion. */
  function FindTeam(teams: seq<LtsTeam>, c: Criterion): (o: Option<nat>)
    ensures o.Some? ==> o.value < |teams| && Meets(teams[o.value], c)
    ensures o.Some? ==> forall j :: 0 <= j < o.value ==> !Meets(teams[j], c)
    ensures o.None? ==> forall j :: 0 <= j < |teams| ==> !Meets(teams[j], c)
    decreases |teams|
  {
    if teams == [] then None
    else
      var earlier := FindTeam(teams[..|teams| - 1], c);
      if earlier.Some? then earlier
      else if Meets(teams[|teams| - 1], c) then Some(|teams| - 1)
      else None
  }

  /** get_team_of_player: the team whose roster holds the player. */
  function TeamOf(teams: seq<LtsTeam>, player: PlayerId): (o: Option<nat>)
    ensures o.Some? ==> o.value < |teams| && player in teams[o.value].roster
    ensures o.None? ==> forall j :: 0 <= j < |teams| ==> player !in teams[j].roster
  {
    FindTeam(teams, Holding(player))
  }

  predicate NoDuplicates(s: seq<PlayerId>)
  {
    forall i, j :: 0 <= i < j < |s| ==> s[i] != s[j]
  }

  predicate Disjoint(a: seq<PlayerId>, b: seq<PlayerId>)
  {
    forall p :: p in a ==> p !in b
  }

  /** No two teams share a name. */
  ghost predicate NamesUnique(teams: seq<LtsTeam>)
  {
    forall i, j :: 0 <= i < j < |teams| ==> teams[i].name != teams[j].name
  }

  /** No player owns two teams. */
  ghost predicate OwnersUnique(teams: seq<LtsTeam>)
  {
    forall i, j :: 0 <= i < j < |teams| ==> teams[i].owner != teams[j].owner
  }

  /** A player is on at most one roster. */
  ghost predicate RostersDisjoint(teams: seq<LtsTeam>)
  {
    forall i, j :: 0 <= i < j < |teams| ==> Disjoint(teams[i].roster, teams[j].roster)
  }

  /** No roster lists a player twice. */
  ghost predicate RostersDistinct(teams: seq<LtsTeam>)
  {
    forall i :: 0 <= i < |teams| ==> NoDuplicates(teams[i].roster)
  }

  ghost predicate RegistryInvariant(teams: seq<LtsTeam>)
  {
    NamesUnique(teams) && OwnersUnique(teams) && RostersDisjoint(teams) && RostersDistinct(teams)
  }

  /** Where rosters are disjoint, the team of a player is the one roster
      holding them, whichever row the lookup reaches first. */
  lemma TeamOfUnique(teams: seq<LtsTeam>, player: PlayerId, i: nat)
    requires RostersDisjoint(teams) && i < |teams| && player in teams[i].roster
    ensures TeamOf(teams, player) == Some(i)
  {
  }

  /** Where names are unique, the lookup by name finds the team of that name. */
  lemma TeamNamedUnique(teams: seq<LtsTeam>, i: nat)
    requires NamesUnique(teams) && i < |teams|
    ensures FindTeam(teams, NamedAs(teams[i].name)) == Some(i)
  {
  }

  /** list.remove(x): the first occurrence of x removed. */
  function RemoveFirst(s: seq<PlayerId>, x: PlayerId): (r: seq<PlayerId>)
    requires x in s
    ensures |r| == |s| - 1
    ensures multiset(r) == multiset(s) - multiset{x}
    decreases |s|
  {
    assert s == [s[0]] + s[1..];
    if s[0] == x then s[1..]
    else [s[0]] + RemoveFirst(s[1..], x)
  }

  /** From a roster without duplicates, removing a player removes them
      entirely and keeps everyone else, still without duplicates. */
  lemma RemoveFirstFromDistinct(s: seq<PlayerId>, x: PlayerId)
    requires x in s && NoDuplicates(s)
    ensures var r := RemoveFirst(s, x);
      && x !in r
      && (forall y :: y != x ==> (y in r <==> y in s))
      && NoDuplicates(r)
  {
    var r: seq<PlayerId> := RemoveFirst(s, x);
    assert multiset(s)[x] == 1 by {
      DistinctCount(s, x);
    }
    assert multiset(r)[x] == 0;
    forall y | y != x
      ensures y in r <==> y in s
    {
      assert multiset(r)[y] == multiset(s)[y];
    }
    DistinctFromMultiset(r, s);
  }

  /** In a sequence without duplicates every element occurs once. */
  lemma {:induction false} DistinctCount(s: seq<PlayerId>, x: PlayerId)
    requires x in s && NoDuplicates(s)
    ensures multiset(s)[x] == 1
    decreases |s|
  {
    assert s == [s[0]] + s[1..];
    if s[0] == x {
      assert x !in s[1..];
    } else {
      DistinctCount(s[1..], x);
    }
  }

  /** A sequence whose elements occur at most as often as in a sequence
      without duplicates has no duplicates either. */
  lemma DistinctFromMultiset(r: seq<PlayerId>, s: seq<PlayerId>)
    requires NoDuplicates(s) && multiset(r) <= multiset(s)
    ensures NoDuplicates(r)
  {
    forall i, j | 0 <= i < j < |r|
      ensures r[i] != r[j]
    {
      if r[i] == r[j] {
        MultisetAtLeastTwo(r, i, j);
        DistinctCount(s, r[i]);
        assert false;
      }
    }
  }

  /** A value at two positions occurs at least twice. */
  lemma MultisetAtLeastTwo(r: seq<PlayerId>, i: nat, j: nat)
    requires i < j < |r| && r[i] == r[j]
    ensures multiset(r)[r[i]] >= 2
  {
    assert r == r[..j] + [r[j]] + r[j + 1..];
    assert r[i] in r[..j];
  }

  /** The outcome of a registry command. */
  datatype RegistryResult =
    | Done
    | NameTaken          // a team already has that name
    | AlreadyInTeam      // the player owns or is on a team
    | AlreadyInYourTeam
    | NoPlayer           // add or remove without a player
    | NotOwner           // the caller owns no team
    | NotInYourTeam
    | OwnerCannotLeave
    | NotMember

  datatype RosterAction = Add | Remove

  /** The lts_teams table and the lts_matches history. */
  class League {
    var teams: seq<LtsTeam>
    var matches: seq<LtsMatchRow>
    /** The rating a registered team starts with (the column default). */
    const defaultRating: int

    ghost predicate Valid()
      reads this
    {
      RegistryInvariant(teams)
    }

    constructor (defaultRating: int)
      ensures Valid() && teams == [] && matches == [] && this.defaultRating == defaultRating
    {
      teams := [];
      matches := [];
      this.defaultRating := defaultRating;
    }

    /** lts_register_team: refused when the name is taken, then when the
        caller already owns a team or is on a roster; otherwise the caller's
        new team is added with the caller as owner and only member. */
    method RegisterTeam(caller: PlayerId, name: string) returns (r: RegistryResult)
      requires Valid()
      modifies this`teams
      ensures Valid()
      ensures FindTeam(old(teams), NamedAs(name)).Some? ==> r == NameTaken
      ensures FindTeam(old(teams), NamedAs(name)).None? && FindTeam(old(teams), OwnerOrMember(caller)).Some? ==>
        r == AlreadyInTeam
      ensures r == Done <==> FindTeam(old(teams), NamedAs(name)).None? && FindTeam(old(teams), OwnerOrMember(caller)).None?
      ensures r == Done ==> teams == old(teams) + [LtsTeam(name, caller, [caller], defaultRating, 0, 0, 0)]
      ensures r != Done ==> teams == old(teams)
    {
      if FindTeam(teams, NamedAs(name)).Some? {
        return NameTaken;
      }
      if FindTeam(teams, OwnerOrMember(caller)).Some? {
        return AlreadyInTeam;
      }
      var t := LtsTeam(name, caller, [caller], defaultRating, 0, 0, 0);
      AppendPreserves(teams, t);
      teams := teams + [t];
      r := Done;
    }

    /** lts_roster add / remove, through handle_add_remove_action: a player
        must be given and the caller must own a team. Add refuses a player on
        any roster and otherwise appends them; remove deletes the player from
        the owner's roster when present (the owner included). Only the
        owner's team changes. */
    method ChangeRoster(caller: PlayerId, action: RosterAction, player: Option<PlayerId>) returns (r: RegistryResult)
      requires Valid()
      modifies this`teams
      ensures Valid()
      ensures player.None? ==> r == NoPlayer
      ensures player.Some? && FindTeam(old(teams), OwnedBy(caller)).None? ==> r == NotOwner
      ensures r != Done ==> teams == old(teams)
      ensures r == Done ==> player.Some? && FindTeam(old(teams), OwnedBy(caller)).Some?
      ensures player.Some? && FindTeam(old(teams), OwnedBy(caller)).Some? ==>
        var i, p := FindTeam(old(teams), OwnedBy(caller)).value, player.value;
        var roster := old(teams)[i].roster;
        && (action == Add && TeamOf(old(teams), p).Some? ==> r == AlreadyInTeam)
        && (action == Add && TeamOf(old(teams), p).None? ==>
              r == Done && teams == old(teams)[i := old(teams)[i].(roster := roster + [p])])
        && (action == Remove && p !in roster ==> r == NotInYourTeam)
        && (action == Remove && p in roster ==>
              r == Done && teams == old(teams)[i := old(teams)[i].(roster := RemoveFirst(roster, p))])
    {
      if player.None? {
        return NoPlayer;
      }
      var p := player.value;
      var team := FindTeam(teams, OwnedBy(caller));
      if team.None? {
        return NotOwner;
      }
      var i := team.value;
      var roster := teams[i].roster;
      if action == Add {
        if TeamOf(teams, p).Some? {
          return AlreadyInTeam;
        }
        if p !in roster {
          roster := roster + [p];
          AddPreserves(teams, i, p);
          teams := teams[i := teams[i].(roster := roster)];
          r := Done;
        } else {
          r := AlreadyInYourTeam;
        }
      } else {
        if p in roster {
          roster := RemoveFirst(roster, p);
          RemovePreserves(teams, i, p);
          teams := teams[i := teams[i].(roster := roster)];
          r := Done;
        } else {
          r := NotInYourTeam;
        }
      }
    }

    /** lts_rename_team: refused when any team, the caller's own included,
        has the new name; then when the caller owns no team; otherwise only
        the owned team's name changes. */
    method RenameTeam(caller: PlayerId, newName: string) returns (r: RegistryResult)
      requires Valid()
      modifies this`teams
      ensures Valid()
      ensures FindTeam(old(teams), NamedAs(newName)).Some? ==> r == NameTaken
      ensures FindTeam(old(teams), NamedAs(newName)).None? && FindTeam(old(teams), OwnedBy(caller)).None? ==> r == NotOwner
      ensures r == Done <==> FindTeam(old(teams), NamedAs(newName)).None? && FindTeam(old(teams), OwnedBy(caller)).Some?
      ensures r == Done ==>
        var i := FindTeam(old(teams), OwnedBy(caller)).value;
        teams == old(teams)[i := old(teams)[i].(name := newName)]
      ensures r != Done ==> teams == old(teams)
    {
      if FindTeam(teams, NamedAs(newName)).Some? {
        return NameTaken;
      }
      var team := FindTeam(teams, OwnedBy(caller));
      if team.None? {
        return NotOwner;
      }
      var i := team.value;
      RenamePreserves(teams, i, newName);
      teams := teams[i := teams[i].(name := newName)];
      r := Done;
    }

    /** lts_leave_team: an owner can never leave; anyone else leaves the
        roster holding them, and a player on no roster is refused. */
    method LeaveTeam(caller: PlayerId) returns (r: RegistryResult)
      requires Valid()
      modifies this`teams
      ensures Valid()
      ensures FindTeam(old(teams), OwnedBy(caller)).Some? ==> r == OwnerCannotLeave
      ensures FindTeam(old(teams), OwnedBy(caller)).None? && TeamOf(old(teams), caller).None? ==> r == NotMember
      ensures r == Done <==> FindTeam(old(teams), OwnedBy(caller)).None? && TeamOf(old(teams), caller).Some?
      ensures r == Done ==>
        var i := TeamOf(old(teams), caller).value;
        teams == old(teams)[i := old(teams)[i].(roster := RemoveFirst(old(teams)[i].roster, caller))]
      ensures r != Done ==> teams == old(teams)
    {
      if FindTeam(teams, OwnedBy(caller)).Some? {
        return OwnerCannotLeave;
      }
      var team := TeamOf(teams, caller);
      if team.None? {
        return NotMember;
      }
      var i := team.value;
      var roster := teams[i].roster;
      roster := RemoveFirst(roster, caller);
      RemovePreserves(teams, i, caller);
      teams := teams[i := teams[i].(roster := roster)];
      r := Done;
    }
  }

  /** Registering a new team with a fresh name and a fresh owner-member keeps
      the registry invariant. */
  lemma AppendPreserves(teams: seq<LtsTeam>, t: LtsTeam)
    requires RegistryInvariant(teams) && t.roster == [t.owner]
    requires FindTeam(teams, NamedAs(t.name)).None? && FindTeam(teams, OwnerOrMember(t.owner)).None?
    ensures RegistryInvariant(teams + [t])
  {
    var u := teams + [t];
    forall i, j | 0 <= i < j < |u|
      ensures u[i].name != u[j].name && u[i].owner != u[j].owner && Disjoint(u[i].roster, u[j].roster)
    {
      if j == |teams| {
        assert !Meets(teams[i], OwnerOrMember(t.owner));
      }
    }
  }

  /** Appending a player on no roster to one roster keeps the invariant. */
  lemma AddPreserves(teams: seq<LtsTeam>, i: nat, p: PlayerId)
    requires RegistryInvariant(teams) && i < |teams| && TeamOf(teams, p).None?
    ensures RegistryInvariant(teams[i := teams[i].(roster := teams[i].roster + [p])])
  {
    var u := teams[i := teams[i].(roster := teams[i].roster + [p])];
    forall a, b | 0 <= a < b < |u|
      ensures Disjoint(u[a].roster, u[b].roster)
    {
      assert Disjoint(teams[a].roster, teams[b].roster);
      assert p !in teams[a].roster && p !in teams[b].roster;
    }
    assert NoDuplicates(teams[i].roster);
  }

  /** Removing a player from one roster keeps the invariant. */
  lemma RemovePreserves(teams: seq<LtsTeam>, i: nat, p: PlayerId)
    requires RegistryInvariant(teams) && i < |teams| && p in teams[i].roster
    ensures RegistryInvariant(teams[i := teams[i].(roster := RemoveFirst(teams[i].roster, p))])
  {
    RemoveFirstFromDistinct(teams[i].roster, p);
    var u := teams[i := teams[i].(roster := RemoveFirst(teams[i].roster, p))];
    forall a, b | 0 <= a < b < |u|
      ensures Disjoint(u[a].roster, u[b].roster)
    {
      assert Disjoint(teams[a].roster, teams[b].roster);
    }
  }

  /** Giving one team a name no team has keeps the invariant. */
  lemma RenamePreserves(teams: seq<LtsTeam>, i: nat, newName: string)
    requires RegistryInvariant(teams) && i < |teams| && FindTeam(teams, NamedAs(newName)).None?
    ensures RegistryInvariant(teams[i := teams[i].(name := newName)])
  {
  }
}
