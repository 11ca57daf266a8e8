/** The coin economy around the singleton house account: deposits into the
    house (update_house_account_balance), the skim the house pays out to both
    players of a confirmed duel, and the read-check-write charge of a player's
    purse that every coin purchase performs. */
module Economy {
  import opened Common
  import opened Store

  /** The payout rate, in percent, of a house row created by a first deposit. */
  const InitialPayoutRate: real := 5.0

  /** The house after a deposit of amount: a missing row is created holding
      the amount at the initial rate; an existing one keeps its rate. */
  function Credited(house: Option<House>, amount: int): (h: House)
    ensures h.balance == HouseBalance(house) + amount
    ensures h.payoutRate == if house.Some? then house.value.payoutRate else InitialPayoutRate
  {
    if house.Some? then house.value.(balance := house.value.balance + amount)
    else House(amount, InitialPayoutRate)
  }

  /** update_house_account_balance: read the balance, add, write it back
      (inserting the row first when there is none). */
  method CreditHouse(db: Database, amount: int)
    modifies db`house
    ensures db.house == Some(Credited(old(db.house), amount))
  {
    var houseBalance: int;
    if db.house.Some? {
      houseBalance := db.house.value.balance + amount;
    } else {
      houseBalance := amount;
      db.house := Some(House(houseBalance, InitialPayoutRate));
    }
    db.house := Some(db.house.value.(balance := houseBalance));
  }

  /** balance * payout_rate / 100 before rounding. */
  function Share(balance: int, payoutRate: real): real
  {
    balance as real * (payoutRate / 100.0)
  }

  /** round(balance * payout_rate / 100), the "house bonus" of one player. */
  function Payout(balance: int, payoutRate: real): (payout: int)
    ensures 0 < balance && 0.0 < payoutRate ==> 0 <= payout
    ensures payout as real <= Share(balance, payoutRate) + 0.5
  {
    var x := Share(balance, payoutRate);
    assert 0 < balance && 0.0 < payoutRate ==> 0.0 < x;
    if 0.0 < x then RoundAtLeast(x, 0); RoundHalfEven(x) else RoundHalfEven(x)
  }

  /** What the duel skim decides: the bonus it reports, and whether the house
      actually pays it to both players. */
  datatype Skim = Skim(payout: int, applied: bool)

  /** The skim of bot.py: a house row with a positive balance and a positive
      rate computes a payout, and pays it to both players only if the balance
      covers twice the payout; a missing row counts as balance 0 and rate 0. */
  function HouseSkim(house: Option<House>): (s: Skim)
    ensures 0 <= s.payout
    ensures s.applied <==>
      house.Some? && 0 < house.value.balance && 0.0 < house.value.payoutRate
      && 2 * s.payout <= house.value.balance
    ensures house.Some? && 0 < house.value.balance && 0.0 < house.value.payoutRate ==>
      s.payout == Payout(house.value.balance, house.value.payoutRate)
    ensures !(house.Some? && 0 < house.value.balance && 0.0 < house.value.payoutRate) ==> s.payout == 0
  {
    var (balance, payoutRate) := if house.Some? then (house.value.balance, house.value.payoutRate) else (0, 0.0);
    if 0 < balance && 0.0 < payoutRate then
      var payout := Payout(balance, payoutRate);
      Skim(payout, payout * 2 <= balance)
    else
      Skim(0, false)
  }

  /** What each player receives from the skim. */
  function SkimCredit(s: Skim): int
  {
    if s.applied then s.payout else 0
  }

  /** The house after the skim. The house loses exactly what the two players
      gain, and a non-negative balance stays non-negative. */
  function SkimmedHouse(house: Option<House>, s: Skim): (h: Option<House>)
    requires s == HouseSkim(house)
    ensures HouseBalance(h) + 2 * SkimCredit(s) == HouseBalance(house)
    ensures 0 <= HouseBalance(house) ==> 0 <= HouseBalance(h)
    ensures h.Some? <==> house.Some?
    ensures h.Some? ==> h.value.payoutRate == house.value.payoutRate
  {
    if s.applied then Some(house.value.(balance := house.value.balance - 2 * s.payout)) else house
  }

  /** At a rate of at most 25 percent (the initial rate is 5) a positive house
      balance always covers the skim, so the reported bonus is paid. */
  lemma SkimPaidAtModerateRates(balance: int, payoutRate: real)
    requires 0 < balance && 0.0 < payoutRate <= 25.0
    ensures HouseSkim(Some(House(balance, payoutRate))).applied
  {
    var b := balance as real;
    ScaleMonotone(balance, payoutRate / 100.0, 0.25);
    assert Share(balance, payoutRate) <= b / 4.0;
    var payout := Payout(balance, payoutRate);
    assert payout as real <= b / 4.0 + 0.5;
    if balance == 1 {
      assert payout < 1;
    } else {
      assert (2 * payout) as real <= b;
    }
  }

  /** Multiplying by a count of coins preserves the order of rates. */
  lemma {:induction false} ScaleMonotone(n: nat, q: real, bound: real)
    requires q <= bound
    ensures n as real * q <= n as real * bound
  {
    if n > 0 {
      ScaleMonotone(n - 1, q, bound);
      assert n as real * q == (n - 1) as real * q + q;
      assert n as real * bound == (n - 1) as real * bound + bound;
    }
  }

  /** The bonus shown is the computed payout even when the balance cannot
      cover it: at a 100 percent rate a house of 10 reports +10 and pays
      nothing. */
  lemma BonusReportedWhenSkimSkipped()
    ensures HouseSkim(Some(House(10, 100.0))) == Skim(10, false)
  {
    RoundOfInteger(10);
    assert 10 as real * (100.0 / 100.0) == 10 as real;
  }

  /** The same skim on the database: pays SkimCredit to winner and loser and
      takes twice that from the house; returns the reported bonus. */
  method SkimHouse(db: Database, winner: PlayerId, loser: PlayerId) returns (bonus: int)
    requires db.Valid()
    requires winner != loser && winner in db.players && loser in db.players
    modifies db`players, db`house
    ensures db.Valid()
    ensures var s := HouseSkim(old(db.house));
      && bonus == s.payout
      && db.house == SkimmedHouse(old(db.house), s)
      && db.players == old(db.players)
           [winner := AddCoins(old(db.players)[winner], SkimCredit(s))]
           [loser := AddCoins(old(db.players)[loser], SkimCredit(s))]
  {
    ghost var s := HouseSkim(db.house);
    var houseBalance, payoutRate := 0, 0.0;
    if db.house.Some? {
      houseBalance, payoutRate := db.house.value.balance, db.house.value.payoutRate;
    }
    var payoutAmount := 0;
    var newHouseBalance := houseBalance;
    if houseBalance > 0 && payoutRate > 0.0 {
      payoutAmount := Payout(houseBalance, payoutRate);
      if houseBalance >= payoutAmount * 2 {
        newHouseBalance := houseBalance - payoutAmount * 2;
        db.players := db.players[winner := AddCoins(db.players[winner], payoutAmount)];
        db.players := db.players[loser := AddCoins(db.players[loser], payoutAmount)];
        db.house := Some(db.house.value.(balance := newHouseBalance));
      }
    }
    bonus := payoutAmount;
  }

  datatype ChargeResult = Charged(newBalance: int) | NoAccount | NotEnoughCoins

  /** The purchase step of the coin commands: a buyer without a ranked row
      fails (reading their coins yields None and the comparison raises), a
      buyer with fewer than cost coins is refused, and otherwise the buyer
      pays cost into the house. Either nothing changes or exactly cost moves
      from the buyer's purse to the house. */
  method Charge(db: Database, buyer: PlayerId, cost: int) returns (r: ChargeResult)
    requires db.Valid() && 0 <= cost
    modifies db`players, db`house
    ensures db.Valid()
    ensures buyer !in old(db.players) ==> r == NoAccount
    ensures buyer in old(db.players) && old(db.players)[buyer].coins < cost ==> r == NotEnoughCoins
    ensures buyer in old(db.players) && cost <= old(db.players)[buyer].coins ==> r.Charged?
    ensures !r.Charged? ==> db.players == old(db.players) && db.house == old(db.house)
    ensures r.Charged? ==>
      && buyer in old(db.players) && cost <= old(db.players)[buyer].coins
      && r.newBalance == old(db.players)[buyer].coins - cost
      && db.players == old(db.players)[buyer := AddCoins(old(db.players)[buyer], -cost)]
      && db.house == Some(Credited(old(db.house), cost))
      && db.players[buyer].coins + HouseBalance(db.house) == old(db.players)[buyer].coins + HouseBalance(old(db.house))
  {
    if buyer !in db.players {
      return NoAccount;
    }
    var userCoins := db.players[buyer].coins;
    if userCoins < cost {
      return NotEnoughCoins;
    }
    var newBalance := userCoins - cost;
    db.players := db.players[buyer := db.players[buyer].(coins := newBalance)];
    CreditHouse(db, cost);
    r := Charged(newBalance);
  }
}
