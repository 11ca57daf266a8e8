/** submit_lts: an LTS team match is reported by a player of one team
    against a player of another, confirmed or cancelled through the two
    buttons of a ConfirmLTS view, and only a confirmation rates the two teams
    and writes an lts_matches row. */
module LtsMatch {
  import opened Common
  import opened Elo
  import opened LtsRegistry

  datatype Button = ConfirmButton | CancelButton

  /** A button click: who clicked which button. */
  datatype Click = Click(user: PlayerId, button: Button)

  /** The fields of the view that the clicks change. */
  datatype ViewState = ViewState(confirmed: Option<bool>, canceller: Option<PlayerId>, stopped: bool)

  const InitialView: ViewState := ViewState(None, None, false)

  /** A click the view acts on: Confirm by an opposing-roster member, Cancel
      by a member of either roster. */
  predicate Authorised(submitterRoster: seq<PlayerId>, opposingRoster: seq<PlayerId>, c: Click)
  {
    match c.button
    case ConfirmButton => c.user in opposingRoster
    case CancelButton => c.user in submitterRoster || c.user in opposingRoster
  }

  /** The effect of one callback on the view's fields. */
  function Clicked(submitterRoster: seq<PlayerId>, opposingRoster: seq<PlayerId>, s: ViewState, c: Click): ViewState
  {
    match c.button
    case ConfirmButton =>
      if c.user in opposingRoster then s.(confirmed := Some(true), stopped := true) else s
    case CancelButton =>
      if c.user in submitterRoster || c.user in opposingRoster then ViewState(Some(false), Some(c.user), true) else s
  }

  /** The view after the clicks made before its timeout; a stopped view
      receives no more callbacks. */
  function AfterClicks(submitterRoster: seq<PlayerId>, opposingRoster: seq<PlayerId>, clicks: seq<Click>): ViewState
    decreases |clicks|
  {
    if clicks == [] then InitialView
    else
      var s := AfterClicks(submitterRoster, opposingRoster, clicks[..|clicks| - 1]);
      if s.stopped then s else Clicked(submitterRoster, opposingRoster, s, clicks[|clicks| - 1])
  }

  /** The position of the first authorised click. */
  function FirstAuthorised(submitterRoster: seq<PlayerId>, opposingRoster: seq<PlayerId>, clicks: seq<Click>): (o: Option<nat>)
    ensures o.Some? ==> o.value < |clicks| && Authorised(submitterRoster, opposingRoster, clicks[o.value])
    ensures o.Some? ==> forall j :: 0 <= j < o.value ==> !Authorised(submitterRoster, opposingRoster, clicks[j])
    ensures o.None? ==> forall j :: 0 <= j < |clicks| ==> !Authorised(submitterRoster, opposingRoster, clicks[j])
    decreases |clicks|
  {
    if clicks == [] then None
    else
      var earlier := FirstAuthorised(submitterRoster, opposingRoster, clicks[..|clicks| - 1]);
      if earlier.Some? then earlier
      else if Authorised(submitterRoster, opposingRoster, clicks[|clicks| - 1]) then Some(|clicks| - 1)
      else None
  }

  /** The view is decided by its first authorised click alone: unauthorised
      clicks before it change nothing and later clicks are never delivered. */
  lemma {:induction false} DecidedByFirstAuthorised(submitterRoster: seq<PlayerId>, opposingRoster: seq<PlayerId>, clicks: seq<Click>)
    ensures var o := FirstAuthorised(submitterRoster, opposingRoster, clicks);
      AfterClicks(submitterRoster, opposingRoster, clicks) ==
        if o.Some? then Clicked(submitterRoster, opposingRoster, InitialView, clicks[o.value]) else InitialView
    decreases |clicks|
  {
    if clicks != [] {
      var front := clicks[..|clicks| - 1];
      DecidedByFirstAuthorised(submitterRoster, opposingRoster, front);
      var o := FirstAuthorised(submitterRoster, opposingRoster, front);
      if o.Some? {
        assert front[o.value] == clicks[o.value];
      }
    }
  }

  /** What the view ends with: confirmed only by an opposing-roster member,
      cancelled only by a member of either roster (who is then the
      canceller), and still undecided when no click was authorised. */
  lemma ViewOutcome(submitterRoster: seq<PlayerId>, opposingRoster: seq<PlayerId>, clicks: seq<Click>)
    ensures var s := AfterClicks(submitterRoster, opposingRoster, clicks);
      && (s.confirmed == Some(true) ==>
            && s.canceller == None
            && exists j :: 0 <= j < |clicks| && clicks[j].button == ConfirmButton && clicks[j].user in opposingRoster)
      && (s.confirmed == Some(false) ==>
            && s.canceller.Some?
            && (s.canceller.value in submitterRoster || s.canceller.value in opposingRoster))
      && (s.confirmed == None <==> forall j :: 0 <= j < |clicks| ==> !Authorised(submitterRoster, opposingRoster, clicks[j]))
      && (s.confirmed == None ==> s == InitialView)
  {
    DecidedByFirstAuthorised(submitterRoster, opposingRoster, clicks);
  }

  /** The ConfirmLTS view. */
  class ConfirmLts {
    const submitter: PlayerId
    const opposingPlayer: PlayerId
    const submitterRoster: seq<PlayerId>
    const opposingRoster: seq<PlayerId>
    var confirmed: Option<bool>
    var canceller: Option<PlayerId>
    var stopped: bool

    /** The view's fields as a value. */
    function State(): ViewState
      reads this
    {
      ViewState(confirmed, canceller, stopped)
    }

    constructor (submitter: PlayerId, opposingPlayer: PlayerId, submitterRoster: seq<PlayerId>, opposingRoster: seq<PlayerId>)
      ensures this.submitter == submitter && this.opposingPlayer == opposingPlayer
      ensures this.submitterRoster == submitterRoster && this.opposingRoster == opposingRoster
      ensures State() == InitialView
    {
      this.submitter := submitter;
      this.opposingPlayer := opposingPlayer;
      this.submitterRoster := submitterRoster;
      this.opposingRoster := opposingRoster;
      confirmed := None;
      canceller := None;
      stopped := false;
    }

    /** confirm_button_callback: only an opposing-roster member confirms;
        anyone else is told they are not authorised. */
    method ConfirmClicked(user: PlayerId)
      modifies this`confirmed, this`stopped
      ensures State() == Clicked(submitterRoster, opposingRoster, old(State()), Click(user, ConfirmButton))
    {
      if user in opposingRoster {
        confirmed := Some(true);
        stopped := true;
      }
    }

    /** cancel_button_callback: a member of either roster cancels and is
        recorded as the canceller; anyone else is told they are not
        authorised. */
    method CancelClicked(user: PlayerId)
      modifies this`confirmed, this`canceller, this`stopped
      ensures State() == Clicked(submitterRoster, opposingRoster, old(State()), Click(user, CancelButton))
    {
      if user in submitterRoster || user in opposingRoster {
        confirmed := Some(false);
        canceller := Some(user);
        stopped := true;
      }
    }
  }

  /** A team after a confirmed match: the new rating, one more match, and a
      win or a loss. */
  function Rated(t: LtsTeam, newRating: int, won: bool): (t': LtsTeam)
    ensures t'.rating == newRating && t'.matchesPlayed == t.matchesPlayed + 1
    ensures won ==> t'.wins == t.wins + 1 && t'.losses == t.losses
    ensures !won ==> t'.losses == t.losses + 1 && t'.wins == t.wins
    ensures t'.name == t.name && t'.owner == t.owner && t'.roster == t.roster
  {
    if won then t.(rating := newRating, matchesPlayed := t.matchesPlayed + 1, wins := t.wins + 1)
    else t.(rating := newRating, matchesPlayed := t.matchesPlayed + 1, losses := t.losses + 1)
  }

  /** The two lts_teams UPDATEs, the winner's first. When a team played
      itself the second overwrites the rating and the row gains two matches,
      a win and a loss. */
  method RecordResult(league: League, winner: nat, loser: nat, ratings: (int, int))
    requires league.Valid() && winner < |league.teams| && loser < |league.teams|
    modifies league`teams
    ensures league.Valid()
    ensures var t := old(league.teams);
      league.teams == t[winner := Rated(t[winner], ratings.0, true)][loser := Rated(t[winner := Rated(t[winner], ratings.0, true)][loser], ratings.1, false)]
  {
    RatedPreserves(league.teams, winner, ratings.0, true);
    league.teams := league.teams[winner := Rated(league.teams[winner], ratings.0, true)];
    RatedPreserves(league.teams, loser, ratings.1, false);
    league.teams := league.teams[loser := Rated(league.teams[loser], ratings.1, false)];
  }

  /** Rating a team keeps the registry invariant. */
  lemma RatedPreserves(teams: seq<LtsTeam>, i: nat, newRating: int, won: bool)
    requires RegistryInvariant(teams) && i < |teams|
    ensures RegistryInvariant(teams[i := Rated(teams[i], newRating, won)])
  {
    var u := teams[i := Rated(teams[i], newRating, won)];
    assert forall a :: 0 <= a < |u| ==> u[a].roster == teams[a].roster && u[a].name == teams[a].name && u[a].owner == teams[a].owner;
  }

  /** A confirmed match between two different teams: the winner gains a win,
      the loser a loss, both one match, and no other team changes. */
  lemma RecordedBetweenTwoTeams(teams: seq<LtsTeam>, winner: nat, loser: nat, ratings: (int, int))
    requires winner < |teams| && loser < |teams| && winner != loser
    ensures var u := teams[winner := Rated(teams[winner], ratings.0, true)][loser := Rated(teams[winner := Rated(teams[winner], ratings.0, true)][loser], ratings.1, false)];
      && |u| == |teams|
      && u[winner].wins == teams[winner].wins + 1 && u[winner].losses == teams[winner].losses
      && u[loser].losses == teams[loser].losses + 1 && u[loser].wins == teams[loser].wins
      && u[winner].matchesPlayed == teams[winner].matchesPlayed + 1
      && u[loser].matchesPlayed == teams[loser].matchesPlayed + 1
      && u[winner].rating == ratings.0 && u[loser].rating == ratings.1
      && forall k :: 0 <= k < |teams| && k != winner && k != loser ==> u[k] == teams[k]
  {
  }

  /** With no same-team check, a team reported against itself records both a
      win and a loss, two matches, and ends with the loser's rating. */
  lemma RecordedAgainstItself(teams: seq<LtsTeam>, i: nat, ratings: (int, int))
    requires i < |teams|
    ensures var u := teams[i := Rated(teams[i], ratings.0, true)][i := Rated(teams[i := Rated(teams[i], ratings.0, true)][i], ratings.1, false)];
      && u[i].wins == teams[i].wins + 1 && u[i].losses == teams[i].losses + 1
      && u[i].matchesPlayed == teams[i].matchesPlayed + 2 && u[i].rating == ratings.1
  {
  }

  /** The submitting team wins only with a strictly greater score; on a tie
      the opposing team wins. Returns winner, winner score, loser, loser
      score. */
  function LtsWinner(submitterTeam: nat, teamScore: int, opposingTeam: nat, opposingScore: int): (w: (nat, int, nat, int))
    ensures teamScore > opposingScore ==> w == (submitterTeam, teamScore, opposingTeam, opposingScore)
    ensures teamScore <= opposingScore ==> w == (opposingTeam, opposingScore, submitterTeam, teamScore)
    ensures w.3 <= w.1
  {
    if teamScore > opposingScore then (submitterTeam, teamScore, opposingTeam, opposingScore)
    else (opposingTeam, opposingScore, submitterTeam, teamScore)
  }

  /** How an LTS submission ended. */
  datatype LtsOutcome =
    | NotInTeam
    | Applied(winner: nat, loser: nat, ratings: (int, int))
    | Cancelled(canceller: PlayerId, cancellerTeamName: string)
    | TimedOut

  /** The notice submit_lts sends about a resolved view, as written: the
      branch for a view left undecided sits inside the test that the view is
      decided, so an undecided view reports an unexpected error. */
  datatype LtsNotice = ConfirmedNotice | CancelledNotice | TimedOutNotice | UnexpectedErrorNotice

  function NoticeAsWritten(confirmed: Option<bool>): LtsNotice
  {
    if confirmed.Some? then
      if confirmed.value then ConfirmedNotice
      else if !confirmed.value then CancelledNotice
      else TimedOutNotice
    else UnexpectedErrorNotice
  }

  /** The time-out notice is never sent: a view that timed out yields the
      unexpected-error notice. */
  lemma TimedOutNoticeUnreachable(confirmed: Option<bool>)
    ensures NoticeAsWritten(confirmed) != TimedOutNotice
    ensures NoticeAsWritten(InitialView.confirmed) == UnexpectedErrorNotice
  {
  }

  /** The notice as evidently intended: the undecided view times out. */
  function Notice(confirmed: Option<bool>): (n: LtsNotice)
    ensures n == TimedOutNotice <==> confirmed.None?
    ensures n == ConfirmedNotice <==> confirmed == Some(true)
    ensures n == CancelledNotice <==> confirmed == Some(false)
    ensures n != UnexpectedErrorNotice
  {
    if confirmed.None? then TimedOutNotice
    else if confirmed.value then ConfirmedNotice
    else CancelledNotice
  }

  /** The two notices agree on every decided view. */
  lemma NoticeAgreesWhenDecided(confirmed: Option<bool>)
    ensures confirmed.Some? ==> Notice(confirmed) == NoticeAsWritten(confirmed)
  {
  }

  /** submit_lts end to end. Both players must be on a roster (the same
      roster is not refused); the view then receives the clicks made before
      its timeout until it stops; a confirmation rates the two teams from the
      ratings read at submission and writes the lts_matches row with the
      opposing player as confirmer. Only a confirmation changes the league.
      The notice returned is the corrected one, which differs from the notice
      lts.py sends only on a view that timed out. */
  method SubmitLts(league: League, submitter: PlayerId, teamScore: int, opposingPlayer: PlayerId, opposingScore: int,
                   clicks: seq<Click>, E: (real, real) -> real)
    returns (outcome: LtsOutcome, notice: LtsNotice)
    requires league.Valid() && IsExpectedScore(E)
    modifies league`teams, league`matches
    ensures league.Valid()
    ensures TeamOf(old(league.teams), submitter).None? || TeamOf(old(league.teams), opposingPlayer).None? <==>
      outcome == NotInTeam
    ensures !outcome.Applied? ==> league.teams == old(league.teams) && league.matches == old(league.matches)
    ensures outcome != NotInTeam ==>
      var st, ot := TeamOf(old(league.teams), submitter).value, TeamOf(old(league.teams), opposingPlayer).value;
      var view := AfterClicks(old(league.teams)[st].roster, old(league.teams)[ot].roster, clicks);
      && notice == Notice(view.confirmed)
      && (view.confirmed.Some? ==> notice == NoticeAsWritten(view.confirmed))
      && (outcome == TimedOut <==> view.confirmed == None)
      && (outcome.Cancelled? <==> view.confirmed == Some(false))
      && (outcome.Cancelled? ==>
            && Some(outcome.canceller) == view.canceller
            && outcome.cancellerTeamName ==
              (if outcome.canceller in old(league.teams)[st].roster then old(league.teams)[st].name else old(league.teams)[ot].name))
      && (outcome.Applied? <==> view.confirmed == Some(true))
      && (outcome.Applied? ==>
            var w := LtsWinner(st, teamScore, ot, opposingScore);
            var ratings := LtsRatings(old(league.teams)[w.0].rating, old(league.teams)[w.2].rating, E);
            && outcome == Applied(w.0, w.2, ratings)
            && league.matches == old(league.matches) +
                 [LtsMatchRow(submitter, opposingPlayer, w.0, w.1, ratings.0, w.2, w.3, ratings.1, 0)]
            && var t := old(league.teams);
               league.teams == t[w.0 := Rated(t[w.0], ratings.0, true)][w.2 := Rated(t[w.0 := Rated(t[w.0], ratings.0, true)][w.2], ratings.1, false)])
  {
    notice := UnexpectedErrorNotice;
    var submitterTeam := TeamOf(league.teams, submitter);
    var opposingTeam := TeamOf(league.teams, opposingPlayer);
    if submitterTeam.None? || opposingTeam.None? {
      return NotInTeam, notice;
    }
    var st, ot := submitterTeam.value, opposingTeam.value;
    var view := new ConfirmLts(submitter, opposingPlayer, league.teams[st].roster, league.teams[ot].roster);
    var i := 0;
    while i < |clicks| && !view.stopped
      invariant 0 <= i <= |clicks|
      invariant view.State() == AfterClicks(view.submitterRoster, view.opposingRoster, clicks[..i])
      invariant league.teams == old(league.teams) && league.matches == old(league.matches)
    {
      assert clicks[..i + 1][..i] == clicks[..i];
      if clicks[i].button == ConfirmButton {
        view.ConfirmClicked(clicks[i].user);
      } else {
        view.CancelClicked(clicks[i].user);
      }
      i := i + 1;
    }
    StoppedViewIgnores(view.submitterRoster, view.opposingRoster, clicks, i);
    NoticeAgreesWhenDecided(view.confirmed);
    notice := Notice(view.confirmed);
    if view.confirmed == Some(true) {
      var (winner, winnerScore, loser, loserScore) := LtsWinner(st, teamScore, ot, opposingScore);
      var ratings := LtsRatings(league.teams[winner].rating, league.teams[loser].rating, E);
      league.matches := league.matches +
        [LtsMatchRow(submitter, opposingPlayer, winner, winnerScore, ratings.0, loser, loserScore, ratings.1, 0)];
      RecordResult(league, winner, loser, ratings);
      outcome := Applied(winner, loser, ratings);
    } else if view.confirmed == Some(false) {
      ViewOutcome(view.submitterRoster, view.opposingRoster, clicks);
      var canceller := view.canceller.value;
      var cancellerTeamName := if canceller in view.submitterRoster then league.teams[st].name else league.teams[ot].name;
      outcome := Cancelled(canceller, cancellerTeamName);
    } else {
      outcome := TimedOut;
    }
  }

  /** Once the view has stopped, or every click was delivered, the rest of
      the clicks change nothing. */
  lemma StoppedViewIgnores(submitterRoster: seq<PlayerId>, opposingRoster: seq<PlayerId>, clicks: seq<Click>, i: nat)
    requires i <= |clicks|
    requires i == |clicks| || AfterClicks(submitterRoster, opposingRoster, clicks[..i]).stopped
    ensures AfterClicks(submitterRoster, opposingRoster, clicks[..i]) == AfterClicks(submitterRoster, opposingRoster, clicks)
    decreases |clicks| - i
  {
    if i == |clicks| {
      assert clicks[..i] == clicks;
    } else {
      assert clicks[..i + 1][..i] == clicks[..i];
      StoppedViewIgnores(submitterRoster, opposingRoster, clicks, i + 1);
    }
  }
}
