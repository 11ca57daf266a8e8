/** submit_duo: the 2v2 duo submission and the duo_teams table. The
    submitter and a team mate report a score against two enemies; both duo
    teams are looked up or created before the wait, and a confirmation by an
    enemy updates both team ratings and writes a duos history row. */
module Duo {
  import opened Common
  import opened Elo
  import opened Store
  import opened Confirmation

  /** The rating of a newly created duo team. */
  const InitialDuoRating: real := 1500.0

  /** The first occurrence of the unordered pair {a, b} in the teams table;
      its index is the team's id. */
  function FindDuoTeam(teams: seq<DuoTeam>, a: PlayerId, b: PlayerId): (o: Option<nat>)
    ensures o.Some? ==> o.value < |teams| && SamePair(teams[o.value], a, b)
    ensures o.Some? ==> forall j :: 0 <= j < o.value ==> !SamePair(teams[j], a, b)
    ensures o.None? ==> forall j :: 0 <= j < |teams| ==> !SamePair(teams[j], a, b)
    decreases |teams|
  {
    if teams == [] then None
    else
      var earlier := FindDuoTeam(teams[..|teams| - 1], a, b);
      if earlier.Some? then Some(earlier.value)
      else if SamePair(teams[|teams| - 1], a, b) then Some(|teams| - 1)
      else None
  }

  /** The lookup does not depend on the order of the two players. */
  lemma {:induction false} FindDuoTeamSymmetric(teams: seq<DuoTeam>, a: PlayerId, b: PlayerId)
    ensures FindDuoTeam(teams, a, b) == FindDuoTeam(teams, b, a)
    decreases |teams|
  {
    if teams != [] {
      FindDuoTeamSymmetric(teams[..|teams| - 1], a, b);
    }
  }

  /** Appending a team for a pair that had none makes the new row the one
      found. */
  lemma FindAfterAppend(teams: seq<DuoTeam>, t: DuoTeam, a: PlayerId, b: PlayerId)
    requires SamePair(t, a, b) && FindDuoTeam(teams, a, b).None?
    ensures FindDuoTeam(teams + [t], a, b) == Some(|teams|)
  {
    assert (teams + [t])[..|teams|] == teams;
  }

  /** Appending a team leaves the lookup of every other pair as it was. */
  lemma FindAfterAppendOther(teams: seq<DuoTeam>, t: DuoTeam, c: PlayerId, d: PlayerId)
    requires !SamePair(t, c, d)
    ensures FindDuoTeam(teams + [t], c, d) == FindDuoTeam(teams, c, d)
  {
    assert (teams + [t])[..|teams|] == teams;
  }

  /** Where the pairs are unique, the two teams of four distinct players are
      two different rows. */
  lemma DistinctPairsDistinctTeams(teams: seq<DuoTeam>, a: PlayerId, b: PlayerId, c: PlayerId, d: PlayerId)
    requires a != c && a != d && b != c && b != d
    requires FindDuoTeam(teams, a, b).Some? && FindDuoTeam(teams, c, d).Some?
    ensures FindDuoTeam(teams, a, b).value != FindDuoTeam(teams, c, d).value
  {
  }

  /** A player's part of a new team name: the first four characters of the
      display name, or "Unk" for an empty one. */
  function NameFragment(name: string): (part: string)
    ensures name == "" ==> part == "Unk"
    ensures name != "" ==> part == name[..Min(4, |name|)] && |part| == Min(4, |name|)
    ensures 0 < |part| <= 4
  {
    if name != "" then name[..Min(4, |name|)] else "Unk"
  }

  /** The duo_teams row check_or_create_duo_team inserts for a new pair. */
  function NewDuoTeam(players: map<PlayerId, Player>, a: PlayerId, b: PlayerId): (t: DuoTeam)
    ensures t.player1 == a && t.player2 == b && SamePair(t, a, b)
    ensures t.name == NameFragment(DisplayName(players, a)) + NameFragment(DisplayName(players, b))
    ensures 2 <= |t.name| <= 8
    ensures t.rating == InitialDuoRating && t.matchesPlayed == 0
  {
    DuoTeam(a, b, NameFragment(DisplayName(players, a)) + NameFragment(DisplayName(players, b)), InitialDuoRating, 0)
  }

  /** duo_teams once the pair (a, b) has a team: unchanged for a known pair,
      one new row for a new one. */
  function WithTeam(players: map<PlayerId, Player>, teams: seq<DuoTeam>, a: PlayerId, b: PlayerId): (u: seq<DuoTeam>)
    ensures teams <= u && FindDuoTeam(u, a, b).Some?
    ensures FindDuoTeam(teams, a, b).Some? ==> u == teams
    ensures FindDuoTeam(teams, a, b).None? ==> u == teams + [NewDuoTeam(players, a, b)]
  {
    if FindDuoTeam(teams, a, b).Some? then teams
    else
      FindAfterAppend(teams, NewDuoTeam(players, a, b), a, b);
      teams + [NewDuoTeam(players, a, b)]
  }

  /** duo_teams after the two lookups of submit_duo, the submitting pair
      first. */
  function WithBothTeams(players: map<PlayerId, Player>, teams: seq<DuoTeam>,
                         submitter: PlayerId, mate: PlayerId, enemy1: PlayerId, enemy2: PlayerId): seq<DuoTeam>
  {
    WithTeam(players, WithTeam(players, teams, submitter, mate), enemy1, enemy2)
  }

  /** After both lookups each pair has a team, and with four distinct
      players the two teams are different rows; two known pairs leave the
      table as it was. */
  lemma BothTeamsExist(players: map<PlayerId, Player>, teams: seq<DuoTeam>,
                       submitter: PlayerId, mate: PlayerId, enemy1: PlayerId, enemy2: PlayerId)
    requires submitter != enemy1 && submitter != enemy2 && mate != enemy1 && mate != enemy2
    ensures var u := WithBothTeams(players, teams, submitter, mate, enemy1, enemy2);
      && FindDuoTeam(u, submitter, mate).Some? && FindDuoTeam(u, enemy1, enemy2).Some?
      && FindDuoTeam(u, submitter, mate).value != FindDuoTeam(u, enemy1, enemy2).value
      && (FindDuoTeam(teams, submitter, mate).Some? && FindDuoTeam(teams, enemy1, enemy2).Some? ==> u == teams)
  {
    var middle := WithTeam(players, teams, submitter, mate);
    var u := WithTeam(players, middle, enemy1, enemy2);
    if FindDuoTeam(middle, enemy1, enemy2).None? {
      FindAfterAppendOther(middle, NewDuoTeam(players, enemy1, enemy2), submitter, mate);
    }
    if FindDuoTeam(teams, submitter, mate).None? {
      FindAfterAppendOther(teams, NewDuoTeam(players, submitter, mate), enemy1, enemy2);
    }
    DistinctPairsDistinctTeams(u, submitter, mate, enemy1, enemy2);
  }

  /** Both lookups only append: at most two rows, each the new team of one
      of the pairs. */
  lemma BothTeamsAppended(players: map<PlayerId, Player>, teams: seq<DuoTeam>,
                          submitter: PlayerId, mate: PlayerId, enemy1: PlayerId, enemy2: PlayerId)
    ensures var u := WithBothTeams(players, teams, submitter, mate, enemy1, enemy2);
      && teams <= u && |u| <= |teams| + 2
      && (forall i :: |teams| <= i < |u| ==>
            u[i] == NewDuoTeam(players, submitter, mate) || u[i] == NewDuoTeam(players, enemy1, enemy2))
  {
    var middle := WithTeam(players, teams, submitter, mate);
    var u := WithTeam(players, middle, enemy1, enemy2);
    PrefixTransitive(teams, middle, u);
    forall i | |teams| <= i < |u|
      ensures u[i] == NewDuoTeam(players, submitter, mate) || u[i] == NewDuoTeam(players, enemy1, enemy2)
    {
      if i < |middle| {
        assert u[i] == middle[i];
      }
    }
  }

  /** check_or_create_duo_team: the id of the pair's team, inserting one when
      the pair has none. Afterwards the lookup finds exactly that id, so a
      repeated call returns it without inserting again. */
  method CheckOrCreateDuoTeam(db: Database, a: PlayerId, b: PlayerId) returns (id: nat)
    requires db.Valid()
    modifies db`duoTeams
    ensures db.Valid()
    ensures id < |db.duoTeams| && FindDuoTeam(db.duoTeams, a, b) == Some(id)
    ensures old(db.duoTeams) <= db.duoTeams
    ensures forall i :: |old(db.duoTeams)| <= i < |db.duoTeams| ==> db.duoTeams[i].matchesPlayed == 0
    ensures db.duoTeams == WithTeam(db.players, old(db.duoTeams), a, b)
    ensures FindDuoTeam(old(db.duoTeams), a, b).Some? ==>
      db.duoTeams == old(db.duoTeams) && Some(id) == FindDuoTeam(old(db.duoTeams), a, b)
    ensures FindDuoTeam(old(db.duoTeams), a, b).None? ==>
      db.duoTeams == old(db.duoTeams) + [NewDuoTeam(db.players, a, b)] && id == |old(db.duoTeams)|
  {
    var team := FindDuoTeam(db.duoTeams, a, b);
    if team.Some? {
      return team.value;
    }
    var t := NewDuoTeam(db.players, a, b);
    FindAfterAppend(db.duoTeams, t, a, b);
    AppendKeepsPairsUnique(db.duoTeams, t);
    id := |db.duoTeams|;
    db.duoTeams := db.duoTeams + [t];
  }

  /** Appending a team whose pair is new keeps the pairs unique. */
  lemma AppendKeepsPairsUnique(teams: seq<DuoTeam>, t: DuoTeam)
    requires DuoPairsUnique(teams) && FindDuoTeam(teams, t.player1, t.player2).None?
    ensures DuoPairsUnique(teams + [t])
  {
    var u := teams + [t];
    forall i, j | 0 <= i < j < |u|
      ensures !SamePair(u[j], u[i].player1, u[i].player2)
    {
      if j == |teams| {
        assert !SamePair(teams[i], t.player1, t.player2);
      } else {
        assert u[i] == teams[i] && u[j] == teams[j];
      }
    }
  }

  datatype DuoRejection = DuplicatePlayers | RetiredPlayers(ids: set<PlayerId>)

  /** The guard of submit_duo: the four players must be distinct and none of
      them retired. None means the submission goes ahead. */
  function DuoGuard(players: map<PlayerId, Player>, submitter: PlayerId, mate: PlayerId,
                    enemy1: PlayerId, enemy2: PlayerId): (g: Option<DuoRejection>)
    ensures g.None? <==>
      && |{submitter, mate, enemy1, enemy2}| == 4
      && forall id :: id in {submitter, mate, enemy1, enemy2} && id in players ==> !players[id].retired
    ensures g == Some(DuplicatePlayers) <==> |{submitter, mate, enemy1, enemy2}| != 4
    ensures g.Some? && g.value.RetiredPlayers? ==>
      g.value.ids != {} && g.value.ids <= {submitter, mate, enemy1, enemy2}
      && forall id :: id in g.value.ids ==> id in players && players[id].retired
  {
    var ids := {submitter, mate, enemy1, enemy2};
    if |ids| != 4 then Some(DuplicatePlayers)
    else
      var retired := set id | id in ids && id in players && players[id].retired;
      if retired != {} then Some(RetiredPlayers(retired)) else None
  }

  /** Four ids form a four-element set exactly when they are pairwise distinct. */
  lemma FourDistinct(a: PlayerId, b: PlayerId, c: PlayerId, d: PlayerId)
    ensures |{a, b, c, d}| == 4 <==> a != b && a != c && a != d && b != c && b != d && c != d
  {
    if a != b && a != c && a != d && b != c && b != d && c != d {
      assert {a, b, c, d} == {a, b, c} + {d};
      assert |{a, b, c}| == 3 by { assert {a, b, c} == {a, b} + {c}; }
    } else {
      assert |{a, b, c, d}| <= 3 by {
        if a == b { assert {a, b, c, d} == {a, c, d}; }
        else if a == c { assert {a, b, c, d} == {a, b, d}; }
        else if a == d { assert {a, b, c, d} == {a, b, c}; }
        else if b == c { assert {a, b, c, d} == {a, b, d}; }
        else if b == d { assert {a, b, c, d} == {a, b, c}; }
        else { assert {a, b, c, d} == {a, b, c}; }
      }
    }
  }

  /** The check of the duo's wait: only reactions on the proposal message
      count; an enemy may confirm or deny, the submitting team may only deny,
      and everyone else is ignored. */
  predicate DuoCheck(messageId: nat, submitter: PlayerId, mate: PlayerId, enemy1: PlayerId, enemy2: PlayerId, r: Reaction)
  {
    if r.messageId != messageId then false
    else
      var isOpposingTeam := r.user == enemy1 || r.user == enemy2;
      var isSubmittingTeam := r.user == submitter || r.user == mate;
      if isOpposingTeam && (r.emoji == Tick || r.emoji == Cross) then true
      else if isSubmittingTeam && r.emoji == Cross then true
      else false
  }

  /** The permission table of the duo check. */
  lemma DuoCheckAuthorisation(messageId: nat, submitter: PlayerId, mate: PlayerId, enemy1: PlayerId, enemy2: PlayerId, r: Reaction)
    requires |{submitter, mate, enemy1, enemy2}| == 4
    ensures DuoCheck(messageId, submitter, mate, enemy1, enemy2, r) ==> r.messageId == messageId && r.emoji != OtherEmoji
    ensures r.messageId == messageId && (r.user == enemy1 || r.user == enemy2) ==>
      (DuoCheck(messageId, submitter, mate, enemy1, enemy2, r) <==> r.emoji != OtherEmoji)
    ensures r.messageId == messageId && (r.user == submitter || r.user == mate) ==>
      (DuoCheck(messageId, submitter, mate, enemy1, enemy2, r) <==> r.emoji == Cross)
    ensures r.user !in {submitter, mate, enemy1, enemy2} ==> !DuoCheck(messageId, submitter, mate, enemy1, enemy2, r)
  {
    FourDistinct(submitter, mate, enemy1, enemy2);
  }

  /** Only an enemy can confirm a duo result. */
  lemma OnlyEnemiesConfirm(messageId: nat, submitter: PlayerId, mate: PlayerId, enemy1: PlayerId, enemy2: PlayerId, rs: seq<Reaction>)
    requires |{submitter, mate, enemy1, enemy2}| == 4
    ensures var s := WaitFor(r => DuoCheck(messageId, submitter, mate, enemy1, enemy2, r), rs);
      s.Resolved? && s.reaction.emoji == Tick ==> s.reaction.user == enemy1 || s.reaction.user == enemy2
  {
    ResolvedByAccepted(r => DuoCheck(messageId, submitter, mate, enemy1, enemy2, r), rs);
  }

  /** A duo team after a confirmed match: the new rating and one more match. */
  function Played(t: DuoTeam, newRating: real): (t': DuoTeam)
    ensures t'.rating == newRating && t'.matchesPlayed == t.matchesPlayed + 1
    ensures t'.player1 == t.player1 && t'.player2 == t.player2 && t'.name == t.name
  {
    t.(rating := newRating, matchesPlayed := t.matchesPlayed + 1)
  }

  /** The confirmed branch of submit_duo: both teams get their new ratings
      (a tie lowers both) and one more match, and the duos row is written
      with the submitting team in the winner columns whatever the scores. */
  method ApplyConfirmedDuo(db: Database, submitter: PlayerId, team1: nat, team1Score: int,
                           team2: nat, team2Score: int, E: (real, real) -> real)
    returns (ratings: (real, real))
    requires db.Valid() && IsExpectedScore(E)
    requires team1 < |db.duoTeams| && team2 < |db.duoTeams| && team1 != team2
    modifies db`duoTeams, db`duos
    ensures db.Valid()
    ensures ratings == DuoRatings(old(db.duoTeams)[team1].rating, old(db.duoTeams)[team2].rating, team1Score, team2Score, E)
    ensures db.duoTeams == old(db.duoTeams)[team1 := Played(old(db.duoTeams)[team1], ratings.0)]
                                           [team2 := Played(old(db.duoTeams)[team2], ratings.1)]
    ensures db.duos == old(db.duos) + [DuoRow(submitter, team1, team1Score, ratings.0, team2, team2Score, ratings.1)]
  {
    ratings := DuoRatings(db.duoTeams[team1].rating, db.duoTeams[team2].rating, team1Score, team2Score, E);
    ghost var before := db.duoTeams;
    db.duoTeams := db.duoTeams[team1 := db.duoTeams[team1].(rating := ratings.0)];
    db.duoTeams := db.duoTeams[team2 := db.duoTeams[team2].(rating := ratings.1)];
    db.duoTeams := db.duoTeams[team1 := db.duoTeams[team1].(matchesPlayed := db.duoTeams[team1].matchesPlayed + 1)];
    db.duoTeams := db.duoTeams[team2 := db.duoTeams[team2].(matchesPlayed := db.duoTeams[team2].matchesPlayed + 1)];
    PlayersKeepPairs(before, db.duoTeams);
    db.duos := db.duos + [DuoRow(submitter, team1, team1Score, ratings.0, team2, team2Score, ratings.1)];
  }

  /** Changing only ratings and match counts keeps the pairs unique. */
  lemma PlayersKeepPairs(teams: seq<DuoTeam>, teams': seq<DuoTeam>)
    requires DuoPairsUnique(teams) && |teams'| == |teams|
    requires forall i :: 0 <= i < |teams| ==> teams'[i].player1 == teams[i].player1 && teams'[i].player2 == teams[i].player2
    ensures DuoPairsUnique(teams')
  {
    forall i, j | 0 <= i < j < |teams'|
      ensures !SamePair(teams'[j], teams'[i].player1, teams'[i].player2)
    {
      assert !SamePair(teams[j], teams[i].player1, teams[i].player2);
    }
  }

  /** The duos history row names the submitting team as winner even when the
      enemies won: with team 2 ahead, the team that won is in the loser
      columns. */
  lemma DuoRowWinnerQuirk(submitter: PlayerId, team1: nat, team1Score: int, team2: nat, team2Score: int, ratings: (real, real))
    requires team2Score > team1Score
    ensures var row := DuoRow(submitter, team1, team1Score, ratings.0, team2, team2Score, ratings.1);
      row.winnerTeam == team1 && row.winnerScore < row.loserScore
  {
  }

  /** How a duo submission ended. */
  datatype DuoOutcome =
    | Rejected(reason: DuoRejection)
    | Denied(denier: PlayerId)
    | Expired
    | Applied(team1: nat, team2: nat, ratings: (real, real))

  /** submit_duo end to end. A rejected submission changes nothing. A
      submission that passes the guard looks up or creates both teams before
      the wait, so a denied or expired duo may still have created teams; only
      a confirmation changes ratings, match counts and the history. */
  method SubmitDuo(db: Database, messageId: nat, submitter: PlayerId, mate: PlayerId, teamScore: int,
                   enemy1: PlayerId, enemy2: PlayerId, enemyScore: int,
                   rs: seq<Reaction>, E: (real, real) -> real)
    returns (outcome: DuoOutcome)
    requires db.Valid() && IsExpectedScore(E)
    modifies db`duoTeams, db`duos
    ensures db.Valid()
    ensures var g := DuoGuard(db.players, submitter, mate, enemy1, enemy2);
      && (g.Some? <==> outcome.Rejected?)
      && (g.Some? ==> outcome == Rejected(g.value) && db.duoTeams == old(db.duoTeams))
      && (g.None? ==>
            var w := WaitFor(r => DuoCheck(messageId, submitter, mate, enemy1, enemy2, r), rs);
            && (w.TimedOut? <==> outcome == Expired)
            && (w.Resolved? && w.reaction.emoji == Cross <==> outcome.Denied?)
            && (outcome.Denied? ==> outcome.denier == w.reaction.user)
            && (w.Resolved? && w.reaction.emoji == Tick <==> outcome.Applied?))
    ensures !outcome.Applied? ==> db.duos == old(db.duos)
    ensures !outcome.Rejected? ==>
      var created := WithBothTeams(db.players, old(db.duoTeams), submitter, mate, enemy1, enemy2);
      && FindDuoTeam(created, submitter, mate).Some? && FindDuoTeam(created, enemy1, enemy2).Some?
      && (!outcome.Applied? ==> db.duoTeams == created)
      && (outcome.Applied? ==>
            && FindDuoTeam(created, submitter, mate) == Some(outcome.team1)
            && FindDuoTeam(created, enemy1, enemy2) == Some(outcome.team2)
            && outcome.team1 != outcome.team2
            && outcome.ratings == DuoRatings(created[outcome.team1].rating, created[outcome.team2].rating,
                                             teamScore, enemyScore, E)
            && db.duoTeams == created[outcome.team1 := Played(created[outcome.team1], outcome.ratings.0)]
                                     [outcome.team2 := Played(created[outcome.team2], outcome.ratings.1)]
            && FindDuoTeam(db.duoTeams, submitter, mate) == Some(outcome.team1)
            && FindDuoTeam(db.duoTeams, enemy1, enemy2) == Some(outcome.team2)
            && db.duos == old(db.duos) + [DuoRow(submitter, outcome.team1, teamScore, outcome.ratings.0,
                                                 outcome.team2, enemyScore, outcome.ratings.1)])
  {
    var guard := DuoGuard(db.players, submitter, mate, enemy1, enemy2);
    if guard.Some? {
      return Rejected(guard.value);
    }
    FourDistinct(submitter, mate, enemy1, enemy2);
    var team1, team2 := CheckOrCreateBothTeams(db, submitter, mate, enemy1, enemy2);
    outcome := AwaitDuoConfirmation(db, messageId, submitter, mate, teamScore, enemy1, enemy2, enemyScore,
                                    team1, team2, rs, E);
  }

  /** The wait of submit_duo once both teams exist, and its confirmed branch:
      a deny or the timeout changes nothing, and an enemy's tick rates both
      teams from their stored ratings, adds a match to each and writes the
      duos row. */
  method AwaitDuoConfirmation(db: Database, messageId: nat, submitter: PlayerId, mate: PlayerId, teamScore: int,
                              enemy1: PlayerId, enemy2: PlayerId, enemyScore: int, team1: nat, team2: nat,
                              rs: seq<Reaction>, E: (real, real) -> real)
    returns (outcome: DuoOutcome)
    requires db.Valid() && IsExpectedScore(E)
    requires |{submitter, mate, enemy1, enemy2}| == 4
    requires FindDuoTeam(db.duoTeams, submitter, mate) == Some(team1)
    requires FindDuoTeam(db.duoTeams, enemy1, enemy2) == Some(team2)
    requires team1 != team2
    modifies db`duoTeams, db`duos
    ensures db.Valid()
    ensures var w := WaitFor(r => DuoCheck(messageId, submitter, mate, enemy1, enemy2, r), rs);
      && !outcome.Rejected?
      && (w.TimedOut? <==> outcome == Expired)
      && (w.Resolved? && w.reaction.emoji == Cross <==> outcome.Denied?)
      && (outcome.Denied? ==> outcome.denier == w.reaction.user)
      && (w.Resolved? && w.reaction.emoji == Tick <==> outcome.Applied?)
    ensures !outcome.Applied? ==> db.duoTeams == old(db.duoTeams) && db.duos == old(db.duos)
    ensures outcome.Applied? ==>
      var t := old(db.duoTeams);
      && outcome.team1 == team1 && outcome.team2 == team2
      && outcome.ratings == DuoRatings(t[team1].rating, t[team2].rating, teamScore, enemyScore, E)
      && db.duoTeams == t[team1 := Played(t[team1], outcome.ratings.0)][team2 := Played(t[team2], outcome.ratings.1)]
      && FindDuoTeam(db.duoTeams, submitter, mate) == Some(team1)
      && FindDuoTeam(db.duoTeams, enemy1, enemy2) == Some(team2)
      && db.duos == old(db.duos) + [DuoRow(submitter, team1, teamScore, outcome.ratings.0,
                                           team2, enemyScore, outcome.ratings.1)]
  {
    var w := WaitFor(r => DuoCheck(messageId, submitter, mate, enemy1, enemy2, r), rs);
    ResolvedByAccepted(r => DuoCheck(messageId, submitter, mate, enemy1, enemy2, r), rs);
    if w.TimedOut? {
      return Expired;
    }
    DuoCheckAuthorisation(messageId, submitter, mate, enemy1, enemy2, w.reaction);
    if w.reaction.emoji == Tick {
      ghost var before := db.duoTeams;
      var ratings := ApplyConfirmedDuo(db, submitter, team1, teamScore, team2, enemyScore, E);
      FindUnderPlayed(before, db.duoTeams, submitter, mate);
      FindUnderPlayed(before, db.duoTeams, enemy1, enemy2);
      outcome := Applied(team1, team2, ratings);
    } else {
      outcome := Denied(w.reaction.user);
    }
  }

  /** The two lookups of submit_duo, the submitting team first. The table
      becomes WithBothTeams of the old one: it only grows, every row it gains
      is the new team of one of the pairs and has played no match, and of
      four distinct players the two teams are different rows. */
  method CheckOrCreateBothTeams(db: Database, submitter: PlayerId, mate: PlayerId, enemy1: PlayerId, enemy2: PlayerId)
    returns (team1: nat, team2: nat)
    requires db.Valid()
    requires submitter != enemy1 && submitter != enemy2 && mate != enemy1 && mate != enemy2
    modifies db`duoTeams
    ensures db.Valid()
    ensures db.duoTeams == WithBothTeams(db.players, old(db.duoTeams), submitter, mate, enemy1, enemy2)
    ensures old(db.duoTeams) <= db.duoTeams
    ensures forall i :: |old(db.duoTeams)| <= i < |db.duoTeams| ==> db.duoTeams[i].matchesPlayed == 0
    ensures team1 < |db.duoTeams| && team2 < |db.duoTeams| && team1 != team2
    ensures FindDuoTeam(db.duoTeams, submitter, mate) == Some(team1)
    ensures FindDuoTeam(db.duoTeams, enemy1, enemy2) == Some(team2)
  {
    ghost var before := db.duoTeams;
    team1 := CheckOrCreateDuoTeam(db, submitter, mate);
    ghost var middle := db.duoTeams;
    team2 := CheckOrCreateDuoTeam(db, enemy1, enemy2);
    PrefixTransitive(before, middle, db.duoTeams);
    forall i | |before| <= i < |db.duoTeams|
      ensures db.duoTeams[i].matchesPlayed == 0
    {
      if i < |middle| {
        assert db.duoTeams[i] == middle[i];
      }
    }
    if FindDuoTeam(middle, enemy1, enemy2).None? {
      var t := NewDuoTeam(db.players, enemy1, enemy2);
      assert db.duoTeams == middle + [t];
      FindAfterAppendOther(middle, t, submitter, mate);
    }
    DistinctPairsDistinctTeams(db.duoTeams, submitter, mate, enemy1, enemy2);
  }

  /** A prefix of a prefix is a prefix. */
  lemma PrefixTransitive(a: seq<DuoTeam>, b: seq<DuoTeam>, c: seq<DuoTeam>)
    requires a <= b && b <= c
    ensures a <= c
  {
  }

  /** Updating ratings and match counts leaves every lookup as it was. */
  lemma {:induction false} FindUnderPlayed(teams: seq<DuoTeam>, teams': seq<DuoTeam>, a: PlayerId, b: PlayerId)
    requires |teams'| == |teams|
    requires forall i :: 0 <= i < |teams| ==> teams'[i].player1 == teams[i].player1 && teams'[i].player2 == teams[i].player2
    ensures FindDuoTeam(teams', a, b) == FindDuoTeam(teams, a, b)
    decreases |teams|
  {
    if teams != [] {
      FindUnderPlayed(teams[..|teams| - 1], teams'[..|teams| - 1], a, b);
    }
  }
}
