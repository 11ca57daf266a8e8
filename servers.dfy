/** The private-server list: the games of the parsed current-games document,
    filtered to those with players, of which at most 25 are listed while the
    count reports all of them. */
module PrivateServers {
  import opened Common

  /** A game server entry: its PlayerUserIds (absent or null as None) and its
      Tags. */
  datatype Server = Server(playerUserIds: Option<seq<string>>, tags: map<string, string>)

  /** The 'Data' object, with its 'Games' list when present. */
  datatype DataSection = DataSection(games: Option<seq<Server>>)

  /** The parsed document, with its 'Data' object when present; the document
      itself is None when the file could not be read or parsed, and an empty
      document has no 'Data'. */
  datatype Document = Document(data: Option<DataSection>)

  /** The most servers one listing shows. */
  const MaxListed: nat := 25

  /** extract_servers: data['Data']['Games'], or [] when the document, its
      'Data' or their 'Games' is missing. */
  function ExtractServers(doc: Option<Document>): seq<Server>
  {
    if doc.None? || doc.value.data.None? || doc.value.data.value.games.None? then []
    else doc.value.data.value.games.value
  }

  /** A server has players when its PlayerUserIds is present and non-empty. */
  predicate HasPlayers(s: Server)
  {
    s.playerUserIds.Some? && |s.playerUserIds.value| > 0
  }

  /** The servers with players, in their original order. */
  function WithPlayers(servers: seq<Server>): (r: seq<Server>)
    ensures |r| <= |servers|
    ensures forall s :: s in r <==> s in servers && HasPlayers(s)
    decreases |servers|
  {
    if servers == [] then []
    else if HasPlayers(servers[0]) then [servers[0]] + WithPlayers(servers[1..])
    else WithPlayers(servers[1..])
  }

  /** The filter keeps the order: filtering a concatenation concatenates the
      filtered parts. */
  lemma {:induction false} WithPlayersAppend(a: seq<Server>, b: seq<Server>)
    ensures WithPlayers(a + b) == WithPlayers(a) + WithPlayers(b)
    decreases |a|
  {
    if a != [] {
      var ab := a + b;
      assert ab != [] && ab[0] == a[0] && ab[1..] == a[1..] + b;
      WithPlayersAppend(a[1..], b);
    } else {
      assert a + b == b;
    }
  }

  /** A list of servers that all have players is left as it is. */
  lemma {:induction false} WithPlayersKeepsFiltered(servers: seq<Server>)
    requires forall i :: 0 <= i < |servers| ==> HasPlayers(servers[i])
    ensures WithPlayers(servers) == servers
    decreases |servers|
  {
    if servers != [] {
      WithPlayersKeepsFiltered(servers[1..]);
    }
  }

  /** Filtering twice filters once. */
  lemma WithPlayersIdempotent(servers: seq<Server>)
    ensures WithPlayers(WithPlayers(servers)) == WithPlayers(servers)
  {
    var r := WithPlayers(servers);
    assert forall i :: 0 <= i < |r| ==> r[i] in r;
    WithPlayersKeepsFiltered(r);
  }

  /** One field of the listing. */
  datatype Entry = Entry(serverName: string, mapName: string, playerCount: nat)

  /** tags.get(key, 'Unknown'). */
  function TagOr(tags: map<string, string>, key: string): string
  {
    if key in tags then tags[key] else "Unknown"
  }

  /** The field shown for a server: its name and map, 'Unknown' when the tag
      is missing, and its number of player ids. */
  function EntryOf(s: Server): Entry
    requires HasPlayers(s)
  {
    Entry(TagOr(s.tags, "ServerName_s"), TagOr(s.tags, "MapName_s"), |s.playerUserIds.value|)
  }

  /** What listservers replies. */
  datatype Listing = NoServers | Found(count: nat, entries: seq<Entry>)

  /** The field of every server in the list. */
  function Entries(servers: seq<Server>): (es: seq<Entry>)
    requires forall i :: 0 <= i < |servers| ==> HasPlayers(servers[i])
    ensures |es| == |servers|
    ensures forall i :: 0 <= i < |servers| ==> es[i] == EntryOf(servers[i])
    decreases |servers|
  {
    if servers == [] then [] else [EntryOf(servers[0])] + Entries(servers[1..])
  }

  /** listservers: no servers with players gives the "none found" reply;
      otherwise the count is the number of all servers with players and the
      fields are those of the first 25 of them, in order. */
  function ListServers(doc: Option<Document>): (l: Listing)
    ensures var shown := WithPlayers(ExtractServers(doc));
      && (l == NoServers <==> shown == [])
      && (l.Found? ==>
            && l.count == |shown|
            && |l.entries| == Min(MaxListed, |shown|)
            && forall i :: 0 <= i < |l.entries| ==> l.entries[i] == EntryOf(shown[i]))
  {
    var serversWithPlayers := WithPlayers(ExtractServers(doc));
    if serversWithPlayers == [] then NoServers
    else
      var listed := serversWithPlayers[..Min(MaxListed, |serversWithPlayers|)];
      assert forall i :: 0 <= i < |listed| ==> listed[i] in serversWithPlayers;
      Found(|serversWithPlayers|, Entries(listed))
  }
}
