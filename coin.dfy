/** The coin commands: buying a global clown nickname toggle and buying an
    announcement echoed to every guild. Both charge the buyer's purse into
    the house account; the clown toggle is string work on display names. */
module Coin {
  import opened Common
  import opened Store
  import opened Economy

  /** The clown face emoji, a single code point. */
  const ClownEmoji: char := '\U{1F921}'

  /** The price of /clown in coin.py. */
  const ClownCost: int := 50

  /** The price of the older /clown command still in bot.py. */
  const LegacyClownCost: int := 25

  /** The price of an announcement. */
  const AnnouncementCost: int := 10

  datatype ClownAction = Clown | Declown

  /** The global action: clown a member whose display name has no clown
      emoji, declown one whose name has it. */
  function ActionFor(displayName: string): ClownAction
  {
    if ClownEmoji !in displayName then Clown else Declown
  }

  /** The characters Python's str.isspace() accepts. */
  predicate IsSpace(c: char)
  {
    ('\U{9}' <= c <= '\U{D}') || ('\U{1C}' <= c <= '\U{20}') || c == '\U{85}' || c == '\U{A0}'
    || c == '\U{1680}' || ('\U{2000}' <= c <= '\U{200A}') || c == '\U{2028}' || c == '\U{2029}'
    || c == '\U{202F}' || c == '\U{205F}' || c == '\U{3000}'
  }

  /** s.replace(c, ""): every occurrence of c removed, the rest in order. */
  function RemoveAll(s: string, c: char): (r: string)
    ensures c !in r && |r| == |s| - multiset(s)[c]
    ensures multiset(r) == multiset(s)[c := 0]
    ensures forall x :: x in r <==> x in s && x != c
    decreases |s|
  {
    if s == [] then []
    else
      assert s == [s[0]] + s[1..];
      if s[0] == c then RemoveAll(s[1..], c)
      else [s[0]] + RemoveAll(s[1..], c)
  }

  /** Removal works piecewise, so the kept characters stay in their order:
      removing from s + t is removing from s, then from t. */
  lemma {:induction false} RemoveAllConcat(s: string, t: string, c: char)
    ensures RemoveAll(s + t, c) == RemoveAll(s, c) + RemoveAll(t, c)
    decreases |s|
  {
    if s != [] {
      assert (s + t)[0] == s[0] && (s + t)[1..] == s[1..] + t;
      RemoveAllConcat(s[1..], t, c);
    } else {
      assert s + t == t;
    }
  }

  /** Leading whitespace removed. */
  function StripLeft(s: string): (r: string)
    ensures |r| <= |s| && r == s[|s| - |r|..]
    ensures forall i :: 0 <= i < |s| - |r| ==> IsSpace(s[i])
    ensures r == [] || !IsSpace(r[0])
    decreases |s|
  {
    if s != [] && IsSpace(s[0]) then StripLeft(s[1..]) else s
  }

  /** Trailing whitespace removed. */
  function StripRight(s: string): (r: string)
    ensures |r| <= |s| && r == s[..|r|]
    ensures forall i :: |r| <= i < |s| ==> IsSpace(s[i])
    ensures r == [] || !IsSpace(r[|r| - 1])
    decreases |s|
  {
    if s != [] && IsSpace(s[|s| - 1]) then StripRight(s[..|s| - 1]) else s
  }

  /** str.strip(): whitespace removed at both ends. */
  function Strip(s: string): (r: string)
    ensures r == [] || (!IsSpace(r[0]) && !IsSpace(r[|r| - 1]))
    ensures |r| <= |s| && IsInnerSlice(s, |s| - |StripLeft(s)|, r)
    ensures forall x :: x in r ==> x in s
  {
    var l := StripLeft(s);
    var r := StripRight(l);
    StripsToInnerSlice(s, |s| - |l|, l, r);
    r
  }

  /** r is the slice of s starting at i, and everything of s outside that
      slice is whitespace. */
  predicate IsInnerSlice(s: string, i: int, r: string)
  {
    && 0 <= i && i + |r| <= |s| && r == s[i..i + |r|]
    && (forall k :: 0 <= k < i ==> IsSpace(s[k]))
    && (forall k :: i + |r| <= k < |s| ==> IsSpace(s[k]))
  }

  /** A right-stripped prefix of a left-stripped suffix is the inner slice,
      and neither of its ends is whitespace. */
  lemma StripsToInnerSlice(s: string, i: nat, l: string, r: string)
    requires i <= |s| && l == s[i..] && forall k :: 0 <= k < i ==> IsSpace(s[k])
    requires l == [] || !IsSpace(l[0])
    requires |r| <= |l| && r == l[..|r|] && forall k :: |r| <= k < |l| ==> IsSpace(l[k])
    requires r == [] || !IsSpace(r[|r| - 1])
    ensures |r| <= |s| && IsInnerSlice(s, i, r)
    ensures r == [] || (!IsSpace(r[0]) && !IsSpace(r[|r| - 1]))
    ensures forall x :: x in r ==> x in s
  {
    assert r == s[i..i + |r|];
    forall k | i + |r| <= k < |s|
      ensures IsSpace(s[k])
    {
      assert s[k] == l[k - i];
    }
    SliceMembers(s, i, i + |r|);
  }

  /** Every character of a slice occurs in the whole string. */
  lemma SliceMembers(s: string, i: nat, j: nat)
    requires i <= j <= |s|
    ensures forall x :: x in s[i..j] ==> x in s
  {
    forall x | x in s[i..j]
      ensures x in s
    {
      var k :| 0 <= k < j - i && s[i..j][k] == x;
      assert s[i + k] == x;
    }
  }

  /** The nickname a member gets in one guild: clowning puts the emoji and a
      space in front, declowning removes every emoji and surrounding space. */
  function NewNickname(action: ClownAction, displayName: string): (nick: string)
    ensures action == Clown ==> nick == [ClownEmoji, ' '] + displayName
    ensures action == Declown ==>
      && nick == Strip(RemoveAll(displayName, ClownEmoji))
      && ClownEmoji !in nick
      && |nick| <= |displayName| - multiset(displayName)[ClownEmoji]
      && (nick == [] || (!IsSpace(nick[0]) && !IsSpace(nick[|nick| - 1])))
  {
    if action == Clown then [ClownEmoji, ' '] + displayName
    else
      var removed := RemoveAll(displayName, ClownEmoji);
      var stripped := Strip(removed);
      assert ClownEmoji !in stripped && |stripped| <= |removed|;
      stripped
  }

  /** Removing a character that does not occur changes nothing. */
  lemma {:induction false} RemoveAbsent(s: string, c: char)
    requires c !in s
    ensures RemoveAll(s, c) == s
    decreases |s|
  {
    if s != [] {
      RemoveAbsent(s[1..], c);
    }
  }

  /** Declowning a clowned emoji-free name gives the name back, stripped. */
  lemma DeclownUndoesClown(name: string)
    requires ClownEmoji !in name
    ensures NewNickname(Declown, NewNickname(Clown, name)) == Strip(name)
  {
    var clowned := [ClownEmoji, ' '] + name;
    assert clowned[1..] == [' '] + name;
    assert ([' '] + name)[1..] == name;
    RemoveAbsent(name, ClownEmoji);
    assert RemoveAll(clowned, ClownEmoji) == [' '] + name;
    assert StripLeft([' '] + name) == StripLeft(name);
  }

  /** The action alternates: a freshly clowned name is declowned next time,
      and a declowned name is clowned next time. */
  lemma ActionToggles(name: string)
    ensures ActionFor(NewNickname(Clown, name)) == Declown
    ensures ActionFor(NewNickname(Declown, name)) == Clown
  {
    assert ([ClownEmoji, ' '] + name)[0] == ClownEmoji;
  }

  /** The clown purchase, at 50 coins in coin.py or 25 in the older bot.py
      command: refused without a ranked row or with fewer coins than the
      price, otherwise the price moves from the buyer to the house and the
      action is decided from the target's display name. */
  method BuyClown(db: Database, buyer: PlayerId, targetName: string, cost: int)
    returns (r: ChargeResult, action: Option<ClownAction>)
    requires db.Valid() && (cost == ClownCost || cost == LegacyClownCost)
    modifies db`players, db`house
    ensures db.Valid()
    ensures buyer !in old(db.players) ==> r == NoAccount
    ensures buyer in old(db.players) && old(db.players)[buyer].coins < cost ==> r == NotEnoughCoins
    ensures buyer in old(db.players) && cost <= old(db.players)[buyer].coins ==> r.Charged?
    ensures !r.Charged? ==> action == None && db.players == old(db.players) && db.house == old(db.house)
    ensures r.Charged? ==>
      && action == Some(ActionFor(targetName))
      && buyer in old(db.players) && r.newBalance == old(db.players)[buyer].coins - cost
      && db.players == old(db.players)[buyer := AddCoins(old(db.players)[buyer], -cost)]
      && db.house == Some(Credited(old(db.house), cost))
  {
    r := Charge(db, buyer, cost);
    if r.Charged? {
      action := Some(ActionFor(targetName));
    } else {
      action := None;
    }
  }

  /** A guild the bot is in, with the names of its text channels. */
  datatype Guild = Guild(id: nat, textChannels: seq<string>)

  /** The channel announcements are echoed to: the test channel when the
      command came from it, and the ranked channel otherwise. */
  function EchoChannelName(origin: string): string
  {
    if origin == "chivstats-test" then "chivstats-test" else "chivstats-ranked"
  }

  /** The number of guilds that have a text channel with the given name. */
  function GuildsWithChannel(guilds: seq<Guild>, name: string): (n: nat)
    ensures n <= |guilds|
    decreases |guilds|
  {
    if guilds == [] then 0
    else GuildsWithChannel(guilds[..|guilds| - 1], name) + (if name in guilds[|guilds| - 1].textChannels then 1 else 0)
  }

  /** Every guild is reached exactly when every guild has the channel, and
      none is reached exactly when none has it. */
  lemma {:induction false} GuildsWithChannelExtremes(guilds: seq<Guild>, name: string)
    ensures GuildsWithChannel(guilds, name) == |guilds| <==> forall i :: 0 <= i < |guilds| ==> name in guilds[i].textChannels
    ensures GuildsWithChannel(guilds, name) == 0 <==> forall i :: 0 <= i < |guilds| ==> name !in guilds[i].textChannels
    decreases |guilds|
  {
    if guilds != [] {
      var front := guilds[..|guilds| - 1];
      GuildsWithChannelExtremes(front, name);
      assert forall i :: 0 <= i < |front| ==> front[i] == guilds[i];
    }
  }

  /** The channels_sent_to loop: one more channel for every guild that has a
      channel with the echo name. */
  method CountEchoChannels(guilds: seq<Guild>, name: string) returns (channelsSentTo: nat)
    ensures channelsSentTo == GuildsWithChannel(guilds, name)
  {
    channelsSentTo := 0;
    for i := 0 to |guilds|
      invariant channelsSentTo == GuildsWithChannel(guilds[..i], name)
    {
      assert guilds[..i + 1][..i] == guilds[..i];
      if name in guilds[i].textChannels {
        channelsSentTo := channelsSentTo + 1;
      }
    }
    assert guilds[..|guilds|] == guilds;
  }

  /** The announcement purchase: refused without a ranked row or with fewer
      than 10 coins, otherwise 10 coins move to the house and the
      announcement is echoed to every guild with the echo channel. */
  method BuyAnnouncement(db: Database, buyer: PlayerId, originChannel: string, guilds: seq<Guild>)
    returns (r: ChargeResult, channelsSentTo: nat)
    requires db.Valid()
    modifies db`players, db`house
    ensures db.Valid()
    ensures buyer !in old(db.players) ==> r == NoAccount
    ensures buyer in old(db.players) && old(db.players)[buyer].coins < AnnouncementCost ==> r == NotEnoughCoins
    ensures buyer in old(db.players) && AnnouncementCost <= old(db.players)[buyer].coins ==> r.Charged?
    ensures !r.Charged? ==> channelsSentTo == 0 && db.players == old(db.players) && db.house == old(db.house)
    ensures r.Charged? ==>
      && buyer in old(db.players)
      && r.newBalance == old(db.players)[buyer].coins - AnnouncementCost
      && db.players == old(db.players)[buyer := AddCoins(old(db.players)[buyer], -AnnouncementCost)]
      && db.house == Some(Credited(old(db.house), AnnouncementCost))
      && channelsSentTo == GuildsWithChannel(guilds, EchoChannelName(originChannel))
  {
    channelsSentTo := 0;
    r := Charge(db, buyer, AnnouncementCost);
    if r.Charged? {
      var echoChannelName := EchoChannelName(originChannel);
      channelsSentTo := CountEchoChannels(guilds, echoChannelName);
    }
  }
}
