/** submit_duel: the 1v1 duel submission. The submission is guarded, the
    winner is picked from the scores, the bot waits for the opponent's reaction,
    and only a confirmation applies the result to ranked_players, the duels
    history and the house account. */
module Duel {
  import opened Common
  import opened Elo
  import opened Store
  import opened Economy
  import opened Confirmation

  /** The flat coin reward each fighter receives for a confirmed duel. */
  const CoinReward: int := 3

  datatype DuelRejection = SelfDuel | RetiredPlayers(ids: set<PlayerId>)

  /** The players among ids that have a ranked row marked retired. */
  function RetiredAmong(players: map<PlayerId, Player>, ids: set<PlayerId>): set<PlayerId>
  {
    set id | id in ids && id in players && players[id].retired
  }

  /** The guard before any message is posted: no duel against oneself, and
      no retired participant. None means the submission goes ahead. */
  function DuelGuard(players: map<PlayerId, Player>, initiator: PlayerId, opponent: PlayerId): (g: Option<DuelRejection>)
    ensures g.None? <==>
      && initiator != opponent
      && !(initiator in players && players[initiator].retired)
      && !(opponent in players && players[opponent].retired)
    ensures g == Some(SelfDuel) <==> initiator == opponent
    ensures g.Some? && g.value.RetiredPlayers? ==>
      g.value.ids != {} && g.value.ids <= {initiator, opponent}
      && forall id :: id in g.value.ids ==> id in players && players[id].retired
  {
    if initiator == opponent then Some(SelfDuel)
    else
      var retired := RetiredAmong(players, {initiator, opponent});
      if retired != {} then Some(RetiredPlayers(retired))
      else
        assert initiator !in retired && opponent !in retired;
        None
  }

  /** Who won, with which score. */
  datatype MatchUp = MatchUp(winner: PlayerId, winnerScore: int, loser: PlayerId, loserScore: int)

  /** The initiator wins only with a strictly higher score; on a tie the
      opponent is the winner. The scores are the larger and the smaller one. */
  function DuelMatchUp(initiator: PlayerId, initiatorScore: int, opponent: PlayerId, opponentScore: int): (m: MatchUp)
    requires initiator != opponent
    ensures m.winner == initiator <==> initiatorScore > opponentScore
    ensures {m.winner, m.loser} == {initiator, opponent} && m.winner != m.loser
    ensures m.loserScore <= m.winnerScore
    ensures m.winnerScore == (if m.winner == initiator then initiatorScore else opponentScore)
    ensures m.loserScore == (if m.loser == initiator then initiatorScore else opponentScore)
  {
    var (winner, loser) := if initiatorScore > opponentScore then (initiator, opponent) else (opponent, initiator);
    MatchUp(winner, Max(initiatorScore, opponentScore), loser, Min(initiatorScore, opponentScore))
  }

  /** The player the proposal asks to react: the opponent when the initiator
      submitted, and the initiator otherwise. It is always a fighter, and when
      a fighter submitted it is the other one, the same player the check
      lets confirm. */
  function UserToVerify(initiator: PlayerId, opponent: PlayerId, submitter: PlayerId): (u: PlayerId)
    ensures u == initiator || u == opponent
    ensures initiator != opponent && (submitter == initiator || submitter == opponent) ==>
      u != submitter && u == NonSubmitter(initiator, opponent, submitter)
  {
    if submitter == initiator then opponent else initiator
  }

  /** The player that is not the submitter, computed from submitter_id: a
      fighter, never the submitter when the fighters differ, and the other
      fighter when a fighter submitted. */
  function NonSubmitter(initiator: PlayerId, opponent: PlayerId, submitter: PlayerId): (n: PlayerId)
    ensures n == initiator || n == opponent
    ensures initiator != opponent ==> n != submitter
    ensures initiator != opponent && (submitter == initiator || submitter == opponent) ==>
      {n, submitter} == {initiator, opponent}
  {
    if submitter == opponent then initiator else opponent
  }

  /** The check of the duel's wait: only reactions on the proposal message
      count; the non-submitter may confirm or deny, the submitter may only
      deny, and everyone else is ignored. */
  predicate DuelCheck(messageId: nat, initiator: PlayerId, opponent: PlayerId, submitter: PlayerId, r: Reaction)
  {
    if r.messageId != messageId then false
    else
      var nonSubmitter := NonSubmitter(initiator, opponent, submitter);
      if r.user == nonSubmitter then r.emoji == Tick || r.emoji == Cross
      else if r.user == submitter then r.emoji == Cross
      else false
  }

  /** The permission table of the duel check, stated per kind of user. */
  lemma DuelCheckAuthorisation(messageId: nat, initiator: PlayerId, opponent: PlayerId, submitter: PlayerId, r: Reaction)
    requires initiator != opponent
    ensures DuelCheck(messageId, initiator, opponent, submitter, r) ==> r.messageId == messageId && r.emoji != OtherEmoji
    ensures r.messageId == messageId && r.user == NonSubmitter(initiator, opponent, submitter) ==>
      (DuelCheck(messageId, initiator, opponent, submitter, r) <==> r.emoji != OtherEmoji)
    ensures r.messageId == messageId && r.user == submitter ==>
      (DuelCheck(messageId, initiator, opponent, submitter, r) <==> r.emoji == Cross)
    ensures r.user != submitter && r.user != NonSubmitter(initiator, opponent, submitter) ==>
      !DuelCheck(messageId, initiator, opponent, submitter, r)
    ensures NonSubmitter(initiator, opponent, submitter) != submitter
  {
  }

  /** The submitter can never confirm their own result. */
  lemma SubmitterNeverConfirms(messageId: nat, initiator: PlayerId, opponent: PlayerId, submitter: PlayerId, rs: seq<Reaction>)
    requires initiator != opponent
    ensures var s := WaitFor(r => DuelCheck(messageId, initiator, opponent, submitter, r), rs);
      s.Resolved? && s.reaction.emoji == Tick ==>
        s.reaction.user == NonSubmitter(initiator, opponent, submitter) && s.reaction.user != submitter
  {
    ResolvedByAccepted(r => DuelCheck(messageId, initiator, opponent, submitter, r), rs);
  }

  /** When a third party submits the duel, the proposal asks the initiator
      to react, but the check only lets the opponent (and the submitter)
      resolve it: nothing the initiator adds is accepted. */
  lemma ThirdPartySubmitterQuirk(messageId: nat, initiator: PlayerId, opponent: PlayerId, submitter: PlayerId, r: Reaction)
    requires initiator != opponent && submitter != initiator && submitter != opponent
    ensures UserToVerify(initiator, opponent, submitter) == initiator
    ensures r.user == initiator ==> !DuelCheck(messageId, initiator, opponent, submitter, r)
    ensures r.messageId == messageId && r.user == opponent && r.emoji == Tick ==>
      DuelCheck(messageId, initiator, opponent, submitter, r)
  {
  }

  /** A fighter after a confirmed duel: kills and deaths from the scores, the
      new exact rating, one more match and the coins received. */
  function Fought(p: Player, newRating: real, scored: int, conceded: int, coins: int): (q: Player)
    ensures q.kills - p.kills == scored && q.deaths - p.deaths == conceded
    ensures q.matches == p.matches + 1 && q.coins == p.coins + coins && q.rating == newRating
    ensures q.retired == p.retired && q.gameName == p.gameName && q.commonName == p.commonName
  {
    p.(kills := p.kills + scored, deaths := p.deaths + conceded, rating := newRating,
       matches := p.matches + 1, coins := p.coins + coins)
  }

  /** ranked_players after a confirmed duel in which each fighter also
      receives credit from the house skim. */
  function SettledPlayers(players: map<PlayerId, Player>, m: MatchUp, E: (real, real) -> real, credit: int): map<PlayerId, Player>
    requires m.winner in players && m.loser in players && m.winner != m.loser
    requires IsExpectedScore(E)
  {
    var w, l := players[m.winner], players[m.loser];
    var ratings := DuelRatings(w.rating, l.rating, E);
    players[m.winner := Fought(w, ratings.0, m.winnerScore, m.loserScore, CoinReward + credit)]
           [m.loser := Fought(l, ratings.1, m.loserScore, m.winnerScore, CoinReward + credit)]
  }

  /** What a confirmed duel does to ranked_players: the two fighters swap
      kills for deaths, play one more match each, receive 3 coins plus the
      skim each, the winner's rating rises and the loser's falls by the same
      amount, and no one else changes. */
  lemma SettledPlayersEffect(players: map<PlayerId, Player>, m: MatchUp, E: (real, real) -> real, credit: int)
    requires m.winner in players && m.loser in players && m.winner != m.loser
    requires IsExpectedScore(E)
    ensures var p' := SettledPlayers(players, m, E, credit);
      var w, l, w', l' := players[m.winner], players[m.loser], p'[m.winner], p'[m.loser];
      && p'.Keys == players.Keys
      && (forall id :: id in players && id != m.winner && id != m.loser ==> p'[id] == players[id])
      && (w'.kills - w.kills) + (l'.kills - l.kills) == (w'.deaths - w.deaths) + (l'.deaths - l.deaths)
      && w'.kills - w.kills == l'.deaths - l.deaths == m.winnerScore
      && w'.matches == w.matches + 1 && l'.matches == l.matches + 1
      && w'.coins == w.coins + CoinReward + credit && l'.coins == l.coins + CoinReward + credit
      && w.rating < w'.rating && l'.rating < l.rating
      && (w'.rating - w.rating) + (l'.rating - l.rating) == 0.0
  {
  }

  /** Between equally rated fighters the winner gains exactly 16 and the loser
      loses exactly 16. */
  lemma EqualRatingsSettle(players: map<PlayerId, Player>, m: MatchUp, E: (real, real) -> real, credit: int)
    requires m.winner in players && m.loser in players && m.winner != m.loser
    requires IsExpectedScore(E) && players[m.winner].rating == players[m.loser].rating
    ensures var p' := SettledPlayers(players, m, E, credit);
      p'[m.winner].rating == players[m.winner].rating + 16.0
      && p'[m.loser].rating == players[m.loser].rating - 16.0
  {
  }

  /** The submitter recorded in the duels row: the winner when the winner
      submitted, and the loser otherwise, a third-party submitter included. */
  function RecordedSubmitter(submitter: PlayerId, m: MatchUp): (id: PlayerId)
    ensures id == m.winner <==> submitter == m.winner || m.loser == m.winner
    ensures id == m.winner || id == m.loser
  {
    if submitter == m.winner then m.winner else m.loser
  }

  /** The confirmed duel's new exact ratings and the reported house bonus. */
  datatype Settlement = NotRegistered | Settled(winnerRating: real, loserRating: real, bonus: int)

  /** The confirmed branch of submit_duel: with both players registered, write
      the history row (a failed insert is only logged), add kills and deaths,
      set both ratings, add one match each, pay each fighter 3 coins and then
      run the house skim. Without both rows nothing changes. */
  method ApplyConfirmedDuel(db: Database, submitter: PlayerId, m: MatchUp, E: (real, real) -> real, historyInsertOk: bool)
    returns (s: Settlement)
    requires db.Valid() && m.winner != m.loser && IsExpectedScore(E)
    modifies db`players, db`house, db`duels
    ensures db.Valid()
    ensures !(m.winner in old(db.players) && m.loser in old(db.players)) ==>
      s == NotRegistered && db.players == old(db.players) && db.house == old(db.house) && db.duels == old(db.duels)
    ensures m.winner in old(db.players) && m.loser in old(db.players) ==>
      var skim := HouseSkim(old(db.house));
      var ratings := DuelRatings(old(db.players)[m.winner].rating, old(db.players)[m.loser].rating, E);
      && s == Settled(ratings.0, ratings.1, skim.payout)
      && db.players == SettledPlayers(old(db.players), m, E, SkimCredit(skim))
      && db.house == SkimmedHouse(old(db.house), skim)
      && db.duels == old(db.duels) + (if historyInsertOk then
           [DuelRow(RecordedSubmitter(submitter, m), m.winner, m.winnerScore, ratings.0,
                    m.loser, m.loserScore, ratings.1)] else [])
  {
    if !(m.winner in db.players && m.loser in db.players) {
      return NotRegistered;
    }
    var winnerRating, loserRating := db.players[m.winner].rating, db.players[m.loser].rating;
    var ratings := DuelRatings(winnerRating, loserRating, E);
    var newWinnerRating, newLoserRating := ratings.0, ratings.1;
    var recorded := RecordedSubmitter(submitter, m);
    if historyInsertOk {
      db.duels := db.duels + [DuelRow(recorded, m.winner, m.winnerScore, newWinnerRating,
                                      m.loser, m.loserScore, newLoserRating)];
    }
    ghost var before := db.players;
    var w, l := db.players[m.winner], db.players[m.loser];
    db.players := db.players
      [m.winner := Fought(w, newWinnerRating, m.winnerScore, m.loserScore, CoinReward)]
      [m.loser := Fought(l, newLoserRating, m.loserScore, m.winnerScore, CoinReward)];
    ghost var skim := HouseSkim(db.house);
    var bonus := SkimHouse(db, m.winner, m.loser);
    SkimAfterReward(before, m, E, SkimCredit(skim));
    s := Settled(newWinnerRating, newLoserRating, bonus);
  }

  /** Paying the skim credit after the flat reward gives the settled table. */
  lemma SkimAfterReward(players: map<PlayerId, Player>, m: MatchUp, E: (real, real) -> real, credit: int)
    requires m.winner in players && m.loser in players && m.winner != m.loser
    requires IsExpectedScore(E)
    ensures var ratings := DuelRatings(players[m.winner].rating, players[m.loser].rating, E);
      var rewarded := players
        [m.winner := Fought(players[m.winner], ratings.0, m.winnerScore, m.loserScore, CoinReward)]
        [m.loser := Fought(players[m.loser], ratings.1, m.loserScore, m.winnerScore, CoinReward)];
      rewarded[m.winner := AddCoins(rewarded[m.winner], credit)][m.loser := AddCoins(rewarded[m.loser], credit)]
        == SettledPlayers(players, m, E, credit)
  {
  }

  /** The player the deny message names: the user asked to verify when they
      reacted ("denied by"), and the initiator in every other case
      ("cancelled by"). */
  function DenialNamed(initiator: PlayerId, opponent: PlayerId, submitter: PlayerId, reactor: PlayerId): PlayerId
  {
    if reactor == UserToVerify(initiator, opponent, submitter) then reactor else initiator
  }

  /** Of the crosses the check accepts, the message names the player who
      reacted exactly when the initiator submitted or the reactor is the user
      asked to verify; otherwise it names the initiator, who did not react. */
  lemma DenialNaming(messageId: nat, initiator: PlayerId, opponent: PlayerId, submitter: PlayerId, r: Reaction)
    requires initiator != opponent
    requires DuelCheck(messageId, initiator, opponent, submitter, r) && r.emoji == Cross
    ensures DenialNamed(initiator, opponent, submitter, r.user) == r.user <==>
      submitter == initiator || r.user == UserToVerify(initiator, opponent, submitter)
    ensures DenialNamed(initiator, opponent, submitter, r.user) != r.user ==>
      DenialNamed(initiator, opponent, submitter, r.user) == initiator && r.user != initiator
  {
  }

  /** When the opponent submits and then withdraws with a cross, the message
      says the initiator cancelled the duel. */
  lemma DenialMisattributed(messageId: nat, initiator: PlayerId, opponent: PlayerId)
    requires initiator != opponent
    ensures var r := Reaction(messageId, opponent, Cross);
      && DuelCheck(messageId, initiator, opponent, opponent, r)
      && DenialNamed(initiator, opponent, opponent, r.user) == initiator
  {
  }

  /** How a duel submission ended. A deny records who reacted and whom the
      message names. */
  datatype DuelOutcome =
    | Rejected(reason: DuelRejection)
    | Denied(reactor: PlayerId, named: PlayerId)
    | Expired
    | Unregistered
    | Applied(winnerRating: real, loserRating: real, bonus: int)

  /** The wait of a duel that passed the guard. */
  function DuelWait(messageId: nat, initiator: PlayerId, opponent: PlayerId, submitter: PlayerId, rs: seq<Reaction>): Status
  {
    WaitFor(r => DuelCheck(messageId, initiator, opponent, submitter, r), rs)
  }

  /** submit_duel end to end. The guard rejects before anything is posted;
      the proposal then waits on the reactions added before the timeout; a
      deny or the timeout only edits the message; a confirmation applies the
      result. Only the Applied outcome changes the database. */
  method SubmitDuel(db: Database, messageId: nat, submitter: PlayerId,
                    initiator: PlayerId, initiatorScore: int, opponent: PlayerId, opponentScore: int,
                    rs: seq<Reaction>, E: (real, real) -> real, historyInsertOk: bool)
    returns (outcome: DuelOutcome)
    requires db.Valid() && IsExpectedScore(E)
    modifies db`players, db`house, db`duels
    ensures db.Valid()
    ensures !outcome.Applied? ==>
      db.players == old(db.players) && db.house == old(db.house) && db.duels == old(db.duels)
    ensures var g := DuelGuard(old(db.players), initiator, opponent);
      && (g.Some? <==> outcome.Rejected?)
      && (g.Some? ==> outcome == Rejected(g.value))
      && (g.None? ==>
            var w := DuelWait(messageId, initiator, opponent, submitter, rs);
            && (w.TimedOut? <==> outcome == Expired)
            && (w.Resolved? && w.reaction.emoji == Cross <==> outcome.Denied?)
            && (outcome.Denied? ==>
                  outcome == Denied(w.reaction.user, DenialNamed(initiator, opponent, submitter, w.reaction.user)))
            && (outcome.Applied? || outcome.Unregistered? <==> w.Resolved? && w.reaction.emoji == Tick)
            && (w.Resolved? && w.reaction.emoji == Tick ==>
                  (outcome.Unregistered? <==> initiator !in old(db.players) || opponent !in old(db.players))))
    ensures outcome.Applied? ==>
      && initiator != opponent && initiator in old(db.players) && opponent in old(db.players)
      && var m := DuelMatchUp(initiator, initiatorScore, opponent, opponentScore);
      var skim := HouseSkim(old(db.house));
      var ratings := DuelRatings(old(db.players)[m.winner].rating, old(db.players)[m.loser].rating, E);
      && outcome == Applied(ratings.0, ratings.1, skim.payout)
      && db.players == SettledPlayers(old(db.players), m, E, SkimCredit(skim))
      && db.house == SkimmedHouse(old(db.house), skim)
      && db.duels == old(db.duels) + (if historyInsertOk then
           [DuelRow(RecordedSubmitter(submitter, m), m.winner, m.winnerScore, ratings.0,
                    m.loser, m.loserScore, ratings.1)] else [])
  {
    var guard := DuelGuard(db.players, initiator, opponent);
    if guard.Some? {
      return Rejected(guard.value);
    }
    var m := DuelMatchUp(initiator, initiatorScore, opponent, opponentScore);
    var w := DuelWait(messageId, initiator, opponent, submitter, rs);
    if w.TimedOut? {
      return Expired;
    }
    DuelCheckAuthorisation(messageId, initiator, opponent, submitter, w.reaction);
    ResolvedByAccepted(r => DuelCheck(messageId, initiator, opponent, submitter, r), rs);
    if w.reaction.emoji == Tick {
      var s := ApplyConfirmedDuel(db, submitter, m, E, historyInsertOk);
      if s.NotRegistered? {
        outcome := Unregistered;
      } else {
        outcome := Applied(s.winnerRating, s.loserRating, s.bonus);
      }
    } else {
      outcome := Denied(w.reaction.user, DenialNamed(initiator, opponent, submitter, w.reaction.user));
    }
  }

  /** A confirmed duel mints exactly 6 coins: the house loses what the
      fighters receive beyond their flat 3 coins each. */
  lemma DuelCoinConservation(players: map<PlayerId, Player>, house: Option<House>, m: MatchUp, E: (real, real) -> real)
    requires m.winner in players && m.loser in players && m.winner != m.loser
    requires IsExpectedScore(E)
    ensures var skim := HouseSkim(house);
      var p' := SettledPlayers(players, m, E, SkimCredit(skim));
      p'[m.winner].coins + p'[m.loser].coins + HouseBalance(SkimmedHouse(house, skim))
        == players[m.winner].coins + players[m.loser].coins + HouseBalance(house) + 2 * CoinReward
  {
  }
}
