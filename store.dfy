/** The ranked tables the bot reads and writes: ranked_players, duo_teams,
    the singleton house_account and the duels / duos history tables, held in
    memory by one Database object. */
module Store {
  import opened Common

  /** A ranked_players row. */
  datatype Player = Player(
    rating: real,        // elo_duelsx, the exact duel rating
    kills: int,
    deaths: int,
    matches: int,
    coins: int,
    retired: bool,
    gameName: string,    // "" stands for an empty or missing name
    commonName: string)

  /** A duo_teams row; its id is its position in the table. */
  datatype DuoTeam = DuoTeam(player1: PlayerId, player2: PlayerId, name: string, rating: real, matchesPlayed: int)

  /** The house_account row: a coin balance and a payout rate in percent. */
  datatype House = House(balance: int, payoutRate: real)

  /** A row of the duels history table. */
  datatype DuelRow = DuelRow(
    submitter: PlayerId, winner: PlayerId, winnerScore: int, winnerRating: real,
    loser: PlayerId, loserScore: int, loserRating: real)

  /** A row of the duos history table. */
  datatype DuoRow = DuoRow(
    submitter: PlayerId, winnerTeam: nat, winnerScore: int, winnerRating: real,
    loserTeam: nat, loserScore: int, loserRating: real)

  /** A player with amount coins added to the purse. */
  function AddCoins(p: Player, amount: int): Player
  {
    p.(coins := p.coins + amount)
  }

  /** The house balance, zero when no house row exists yet. */
  function HouseBalance(house: Option<House>): int
  {
    if house.Some? then house.value.balance else 0
  }

  /** The team holds the unordered pair {a, b}. */
  predicate SamePair(t: DuoTeam, a: PlayerId, b: PlayerId)
  {
    (t.player1 == a && t.player2 == b) || (t.player1 == b && t.player2 == a)
  }

  /** No two duo teams are made of the same two players. */
  ghost predicate DuoPairsUnique(teams: seq<DuoTeam>)
  {
    forall i, j :: 0 <= i < j < |teams| ==> !SamePair(teams[j], teams[i].player1, teams[i].player2)
  }

  /** get_display_name_from_ranked_players: the game name, else the common
      name, else "Unknown Player" for an id with no ranked_players row. */
  function DisplayName(players: map<PlayerId, Player>, id: PlayerId): string
  {
    if id !in players then "Unknown Player"
    else if players[id].gameName != "" then players[id].gameName
    else players[id].commonName
  }

  class Database {
    var players: map<PlayerId, Player>
    var duoTeams: seq<DuoTeam>
    var house: Option<House>
    var duels: seq<DuelRow>
    var duos: seq<DuoRow>

    /** The ledger never holds a negative balance and a pair of players forms
        at most one duo team. */
    ghost predicate Valid()
      reads this
    {
      && HouseBalance(house) >= 0
      && (forall id :: id in players ==> players[id].coins >= 0)
      && DuoPairsUnique(duoTeams)
    }

    constructor (players: map<PlayerId, Player>, house: Option<House>)
      requires HouseBalance(house) >= 0
      requires forall id :: id in players ==> players[id].coins >= 0
      ensures Valid()
      ensures this.players == players && this.house == house
      ensures duoTeams == [] && duels == [] && duos == []
    {
      this.players := players;
      this.house := house;
      duoTeams := [];
      duels := [];
      duos := [];
    }
  }
}
