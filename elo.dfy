/** The rating engine: the three ELO updates the bot uses. The logistic
    expected score 1 / (1 + 10^((opponent - R) / 400)) is kept abstract as a
    function E with E(a, b) strictly between 0 and 1 and E(a, b) + E(b, a) = 1,
    which the logistic curve satisfies. */
module Elo {
  import opened Common

  /** The K-factor of every match kind. */
  const K: real := 32.0

  /** E(a, b) is the expected score of a player rated a against one rated b. */
  ghost predicate IsExpectedScore(E: (real, real) -> real)
  {
    forall a: real, b: real :: 0.0 < E(a, b) < 1.0 && E(a, b) + E(b, a) == 1.0
  }

  /** Between equal ratings the expected score is one half. */
  lemma ExpectedScoreOfEquals(E: (real, real) -> real, a: real)
    requires IsExpectedScore(E)
    ensures E(a, a) == 0.5
  {
    assert E(a, a) + E(a, a) == 1.0;
  }

  /** calculate_elo: R' = R + k * (gamesWon / gamesPlayed - E(R, opponent)). */
  function CalculateElo(r: real, k: real, gamesWon: real, gamesPlayed: real, opponent: real,
                        E: (real, real) -> real): (r': real)
    requires gamesPlayed > 0.0
    requires IsExpectedScore(E)
    ensures 0.0 < k && gamesPlayed <= gamesWon ==> r < r'
    ensures 0.0 < k && gamesWon == 0.0 ==> r' < r
    ensures r == opponent ==> r' == r + k * (gamesWon / gamesPlayed - 0.5)
  {
    ExpectedScoreOfEquals(E, r);
    r + k * (gamesWon / gamesPlayed - E(r, opponent))
  }

  /** The two new exact ratings of a confirmed duel: the winner scores 1, the
      loser 0, one game each. The winner rises, the loser falls, what one gains
      the other loses, and between equals the change is exactly 16. */
  function DuelRatings(winnerRating: real, loserRating: real, E: (real, real) -> real): (ratings: (real, real))
    requires IsExpectedScore(E)
    ensures winnerRating < ratings.0 && ratings.1 < loserRating
    ensures (ratings.0 - winnerRating) + (ratings.1 - loserRating) == 0.0
    ensures winnerRating == loserRating ==> ratings == (winnerRating + 16.0, loserRating - 16.0)
  {
    assert E(winnerRating, loserRating) + E(loserRating, winnerRating) == 1.0;
    (CalculateElo(winnerRating, K, 1.0, 1.0, loserRating, E),
     CalculateElo(loserRating, K, 0.0, 1.0, winnerRating, E))
  }

  /** Python's bool as the games_won argument. */
  function Won(b: bool): real { if b then 1.0 else 0.0 }

  /** calculate_duo_elo: each team "won" only with a strictly greater score, so
      a tie is a loss for both teams. */
  function DuoRatings(team1Rating: real, team2Rating: real, team1Score: int, team2Score: int,
                      E: (real, real) -> real): (ratings: (real, real))
    requires IsExpectedScore(E)
    ensures team1Score > team2Score ==> team1Rating < ratings.0 && ratings.1 < team2Rating
    ensures team2Score > team1Score ==> ratings.0 < team1Rating && team2Rating < ratings.1
    ensures team1Score == team2Score ==> ratings.0 < team1Rating && ratings.1 < team2Rating
    ensures team1Score != team2Score ==> (ratings.0 - team1Rating) + (ratings.1 - team2Rating) == 0.0
  {
    assert E(team1Rating, team2Rating) + E(team2Rating, team1Rating) == 1.0;
    (CalculateElo(team1Rating, K, Won(team1Score > team2Score), 1.0, team2Rating, E),
     CalculateElo(team2Rating, K, Won(team2Score > team1Score), 1.0, team1Rating, E))
  }

  /** calculate_new_elo of the LTS module: integer ratings, k = 32, each new
      rating rounded with round(). The expected scores Tw / (Tw + Tl) and
      Tl / (Tw + Tl) are E(w, l) and E(l, w). The winner never goes down, the
      loser never goes up, neither moves by more than k, and between equals the
      result is exactly +16 / -16. */
  function LtsRatings(winnerRating: int, loserRating: int, E: (real, real) -> real): (ratings: (int, int))
    requires IsExpectedScore(E)
    ensures winnerRating <= ratings.0 <= winnerRating + 32
    ensures loserRating - 32 <= ratings.1 <= loserRating
    ensures winnerRating == loserRating ==> ratings == (winnerRating + 16, loserRating - 16)
  {
    var w, l := winnerRating as real, loserRating as real;
    var expectedWinner, expectedLoser := E(w, l), E(l, w);
    var winnerExact := w + K * (1.0 - expectedWinner);
    var loserExact := l + K * (0.0 - expectedLoser);
    RoundAtLeast(winnerExact, winnerRating);
    RoundAtMost(winnerExact, winnerRating + 32);
    RoundAtLeast(loserExact, loserRating - 32);
    RoundAtMost(loserExact, loserRating);
    LtsEqualRatings(winnerRating, loserRating, E);
    (RoundHalfEven(winnerExact), RoundHalfEven(loserExact))
  }

  /** The equal-ratings case of LtsRatings: the exact updates are integral. */
  lemma LtsEqualRatings(winnerRating: int, loserRating: int, E: (real, real) -> real)
    requires IsExpectedScore(E)
    ensures winnerRating == loserRating ==>
      var w, l := winnerRating as real, loserRating as real;
      && RoundHalfEven(w + K * (1.0 - E(w, l))) == winnerRating + 16
      && RoundHalfEven(l + K * (0.0 - E(l, w))) == loserRating - 16
  {
    if winnerRating == loserRating {
      ExpectedScoreOfEquals(E, winnerRating as real);
      RoundOfInteger(winnerRating + 16);
      RoundOfInteger(loserRating - 16);
    }
  }
}
