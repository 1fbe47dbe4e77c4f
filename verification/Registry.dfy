// The connection registry of the network server: three indexes kept in step
// (internal/server/networking/server.go).

module Registry {

  type ConnectionId = nat
  type PlayerId = nat
  type MatchId = nat

  datatype Binding = Binding(player: PlayerId, match_: MatchId)

  // What the three maps and the connections' own fields say; 0 is the empty id.
  datatype Index = Index(
    issued: nat, bound: map<ConnectionId, Binding>,
    byPlayer: map<PlayerId, ConnectionId>, byMatch: map<MatchId, set<ConnectionId>>)

  const UNBOUND := Binding(0, 0)

  // ---- the operations on values ----

  function Left(byMatch: map<MatchId, set<ConnectionId>>, m: MatchId, c: ConnectionId): map<MatchId,
      set<ConnectionId>> {
    if m == 0 || m !in byMatch then byMatch
    else if byMatch[m] - {c} == {} then byMatch - {m}
    else byMatch[m := byMatch[m] - {c}]
  }

  function Entered(byMatch: map<MatchId, set<ConnectionId>>, m: MatchId, c: ConnectionId): map<MatchId,
      set<ConnectionId>> {
    byMatch[m := (if m in byMatch then byMatch[m] else {}) + {c}]
  }

  function Registered(r: Index): Index {
    r.(issued := r.issued + 1, bound := r.bound[r.issued + 1 := UNBOUND])
  }

  function Unregistered(r: Index, c: ConnectionId): Index {
    if c !in r.bound then r
    else
      var b := r.bound[c];
      r.(bound := r.bound - {c},
         byPlayer := if b.player != 0 && b.player in r.byPlayer && r.byPlayer[b.player] == c
                     then r.byPlayer - {b.player} else r.byPlayer,
         byMatch := Left(r.byMatch, b.match_, c))
  }

  // The connection a player is taken over from, if it is another one.
  predicate TakesOver(r: Index, c: ConnectionId, p: PlayerId) {
    p != 0 && p in r.byPlayer && r.byPlayer[p] != c
  }

  function Released(r: Index, c: ConnectionId, p: PlayerId): (released: Index)
    ensures released.bound.Keys == r.bound.Keys
  {
    if !TakesOver(r, c, p) then r
    else
      var previous := r.byPlayer[p];
      var cleared := r.(byPlayer := r.byPlayer - {p});
      if previous !in r.bound then cleared
      else cleared.(bound := r.bound[previous := UNBOUND],
                   byMatch := Left(r.byMatch, r.bound[previous].match_, previous))
  }

  function PlayerMoved(byPlayer: map<PlayerId, ConnectionId>, before: PlayerId, p: PlayerId,
      c: ConnectionId): map<PlayerId, ConnectionId> {
    var left := if before != 0 then byPlayer - {before} else byPlayer;
    if p != 0 then left[p := c] else left
  }

  function Rebound(r: Index, c: ConnectionId, m: MatchId, p: PlayerId): Index
    requires c in r.bound
  {
    var b := r.bound[c];
    r.(bound := r.bound[c := Binding(p, m)],
       byPlayer := PlayerMoved(r.byPlayer, b.player, p, c),
       byMatch := Entered(Left(r.byMatch, b.match_, c), m, c))
  }

  function Bound(r: Index, c: ConnectionId, m: MatchId, p: PlayerId): Index {
    if c !in r.bound then r else Rebound(Released(r, c, p), c, m, p)
  }

  // ---- the server ----

  class Connection {
    const id: ConnectionId
    var playerID: PlayerId
    var matchID: MatchId

    constructor (id: ConnectionId)
      ensures this.id == id && playerID == 0 && matchID == 0
    {
      this.id, playerID, matchID := id, 0, 0;
    }
  }

  class Server {
    var nextSequence: nat
    var connections: map<ConnectionId, Connection>
    var playerToConnection: map<PlayerId, ConnectionId>
    var matchToConnections: map<MatchId, set<ConnectionId>>

    ghost predicate Valid()
      reads this
    {
      && (forall c :: c in connections ==> connections[c].id == c && c <= nextSequence)
    }

    ghost function Connected(): set<Connection>
      reads this
    {
      set c | c in connections :: connections[c]
    }

    ghost function View(): Index
      reads this, Connected()
    {
      Index(nextSequence,
            map c | c in connections :: Binding(connections[c].playerID, connections[c].matchID),
            playerToConnection, matchToConnections)
    }

    constructor ()
      ensures Valid() && View() == Index(0, map[], map[], map[])
    {
      nextSequence := 0;
      connections, playerToConnection, matchToConnections := map[], map[], map[];
    }

    method RegisterConnection() returns (conn: Connection)
      requires Valid()
      modifies this
      ensures Valid() && fresh(conn) && conn.id in connections && connections[conn.id] == conn
      ensures View() == Registered(old(View()))
    {
      nextSequence := nextSequence + 1;
      conn := new Connection(nextSequence);
      connections := connections[nextSequence := conn];
    }

    method LeaveMatch(m: MatchId, c: ConnectionId)
      modifies this`matchToConnections
      ensures matchToConnections == Left(old(matchToConnections), m, c)
    {
      if m != 0 && m in matchToConnections {
        var remaining := matchToConnections[m] - {c};
        if remaining == {} {
          matchToConnections := matchToConnections - {m};
        } else {
          matchToConnections := matchToConnections[m := remaining];
        }
      }
    }

    method UnregisterConnection(c: ConnectionId)
      requires Valid()
      modifies this
      ensures Valid() && View() == Unregistered(old(View()), c)
    {
      if c !in connections { return; }
      var conn := connections[c];
      connections := connections - {c};
      if conn.playerID != 0 {
        if conn.playerID in playerToConnection && playerToConnection[conn.playerID] == c {
          playerToConnection := playerToConnection - {conn.playerID};
        }
      }
      LeaveMatch(conn.matchID, c);
    }

    // Takes the player away from the connection it was bound to, which is left unbound.
    method ReleasePlayer(c: ConnectionId, p: PlayerId)
      requires Valid()
      modifies this, Connected()
      ensures Valid() && nextSequence == old(nextSequence) && connections == old(connections)
      ensures View() == Released(old(View()), c, p)
    {
      if p == 0 || p !in playerToConnection || playerToConnection[p] == c { return; }
      var previous := playerToConnection[p];
      if previous in connections {
        var previousConn := connections[previous];
        LeaveMatch(previousConn.matchID, previous);
        previousConn.playerID := 0;
        previousConn.matchID := 0;
      }
      playerToConnection := playerToConnection - {p};
    }

    method EnterMatch(m: MatchId, c: ConnectionId)
      modifies this`matchToConnections
      ensures matchToConnections == Entered(old(matchToConnections), m, c)
    {
      if m !in matchToConnections { matchToConnections := matchToConnections[m := {}]; }
      matchToConnections := matchToConnections[m := matchToConnections[m] + {c}];
    }

    method MovePlayer(before: PlayerId, p: PlayerId, c: ConnectionId)
      modifies this`playerToConnection
      ensures playerToConnection == PlayerMoved(old(playerToConnection), before, p, c)
    {
      if before != 0 { playerToConnection := playerToConnection - {before}; }
      if p != 0 { playerToConnection := playerToConnection[p := c]; }
    }

    method Rebind(c: ConnectionId, m: MatchId, p: PlayerId)
      requires Valid() && c in connections
      modifies this, connections[c]
      ensures Valid() && View() == Rebound(old(View()), c, m, p)
    {
      hide Left, Entered, PlayerMoved;
      var conn := connections[c];
      LeaveMatch(conn.matchID, c);
      MovePlayer(conn.playerID, p, c);
      conn.matchID := m;
      conn.playerID := p;
      EnterMatch(m, c);
      assert View().bound == old(View()).bound[c := Binding(p, m)];
    }

    method BindConnection(c: ConnectionId, m: MatchId, p: PlayerId)
      requires Valid()
      modifies this, Connected()
      ensures Valid() && View() == Bound(old(View()), c, m, p)
    {
      hide Released, Rebound;
      if c !in connections { return; }
      ReleasePlayer(c, p);
      Rebind(c, m, p);
    }
  }

  // ---- the invariant ----

  ghost predicate PlayersExact(r: Index) {
    forall p, c :: (p in r.byPlayer && r.byPlayer[p] == c) <==> (p != 0 && c in r.bound && r.bound[c].player == p)
  }

  ghost predicate MatchesExact(r: Index) {
    forall m, c :: (m in r.byMatch && c in r.byMatch[m]) <==> (m != 0 && c in r.bound && r.bound[c].match_ == m)
  }

  ghost predicate Exact(r: Index) {
    && PlayersExact(r) && MatchesExact(r)
    && NoneEmpty(r.byMatch)
    && (forall c :: c in r.bound ==> c <= r.issued)
  }

  lemma LeftExact(r: Index, c: ConnectionId, b: Binding, m: MatchId, other: ConnectionId)
    requires MatchesExact(r) && c in r.bound && b == r.bound[c]
    ensures (m in Left(r.byMatch, b.match_, c) && other in Left(r.byMatch, b.match_, c)[m])
      <==> (m in r.byMatch && other in r.byMatch[m] && other != c)
  {
    if m in r.byMatch && other in r.byMatch[m] {
      if other == c { assert m == b.match_; } else { assert other in r.byMatch[m] - {c}; }
    }
  }

  ghost predicate NoneEmpty(byMatch: map<MatchId, set<ConnectionId>>) {
    forall m :: m in byMatch ==> byMatch[m] != {}
  }

  lemma LeftNoneEmpty(byMatch: map<MatchId, set<ConnectionId>>, m: MatchId, c: ConnectionId)
    requires NoneEmpty(byMatch)
    ensures NoneEmpty(Left(byMatch, m, c)) && NoneEmpty(Entered(byMatch, m, c))
  {
    if m !in byMatch { assert c in Entered(byMatch, m, c)[m]; }
    assert c in Entered(byMatch, m, c)[m];
  }

  lemma RegisterKeeps(r: Index)
    requires Exact(r)
    ensures Exact(Registered(r))
  {
  }

  lemma UnregisterKeeps(r: Index, c: ConnectionId)
    requires Exact(r)
    ensures Exact(Unregistered(r, c))
  {
    if c in r.bound {
      var r' := Unregistered(r, c);
      LeftNoneEmpty(r.byMatch, r.bound[c].match_, c);
      forall m, other ensures (m in r'.byMatch && other in r'.byMatch[m])
        <==> (m != 0 && other in r'.bound && r'.bound[other].match_ == m)
      {
        LeftExact(r, c, r.bound[c], m, other);
      }
    }
  }

  lemma ListedExact(r: Index, m: MatchId, c: ConnectionId)
    requires MatchesExact(r)
    ensures (m in r.byMatch && c in r.byMatch[m]) <==> (m != 0 && c in r.bound && r.bound[c].match_ == m)
  {
    if m in r.byMatch && c in r.byMatch[m] {
      assert m != 0 && c in r.bound && r.bound[c].match_ == m;
    }
    if m != 0 && c in r.bound && r.bound[c].match_ == m {
      assert m in r.byMatch && c in r.byMatch[m];
    }
  }

  lemma ReleaseMatches(r: Index, c: ConnectionId, p: PlayerId)
    requires Exact(r) && TakesOver(r, c, p)
    ensures MatchesExact(Released(r, c, p)) && NoneEmpty(Released(r, c, p).byMatch)
  {
    var r', previous := Released(r, c, p), r.byPlayer[p];
    assert previous in r.bound && r.bound[previous].player == p;
    LeftNoneEmpty(r.byMatch, r.bound[previous].match_, previous);
    hide PlayersExact, NoneEmpty, Left;
    forall m, other ensures (m in r'.byMatch && other in r'.byMatch[m])
      <==> (m != 0 && other in r'.bound && r'.bound[other].match_ == m)
    {
      LeftExact(r, previous, r.bound[previous], m, other);
      ListedExact(r, m, other);
    }
  }

  lemma ReleaseKeeps(r: Index, c: ConnectionId, p: PlayerId)
    requires Exact(r)
    ensures Exact(Released(r, c, p)) && !TakesOver(Released(r, c, p), c, p)
  {
    if TakesOver(r, c, p) {
      ReleaseMatches(r, c, p);
      assert r.byPlayer[p] in r.bound && r.bound[r.byPlayer[p]].player == p;
      hide MatchesExact, NoneEmpty, Left;
    }
  }

  // Entering a match: the other matches' members are those of before, less the connection.
  lemma EnteredExact(r: Index, c: ConnectionId, b: Binding, m: MatchId, n: MatchId, other: ConnectionId)
    requires MatchesExact(r) && c in r.bound && b == r.bound[c]
    ensures var byMatch := Entered(Left(r.byMatch, b.match_, c), m, c);
      (n in byMatch && other in byMatch[n])
      <==> (if other == c then n == m else n in r.byMatch && other in r.byMatch[n])
  {
    LeftExact(r, c, b, n, other);
    LeftExact(r, c, b, m, other);
    hide Left;
  }

  lemma RebindMatches(r: Index, c: ConnectionId, m: MatchId, p: PlayerId)
    requires MatchesExact(r) && c in r.bound && m != 0
    ensures MatchesExact(Rebound(r, c, m, p))
  {
    var r' := Rebound(r, c, m, p);
    forall n, other ensures (n in r'.byMatch && other in r'.byMatch[n])
      <==> (n != 0 && other in r'.bound && r'.bound[other].match_ == n)
    {
      EnteredExact(r, c, r.bound[c], m, n, other);
      assert (n in r.byMatch && other in r.byMatch[n]) <==> (n != 0 && other in r.bound && r.bound[other].match_ == n);
      hide Left, Entered, PlayerMoved;
    }
  }

  lemma RebindPlayers(r: Index, c: ConnectionId, m: MatchId, p: PlayerId)
    requires PlayersExact(r) && c in r.bound && !TakesOver(r, c, p)
    ensures PlayersExact(Rebound(r, c, m, p))
  {
    hide Left, Entered;
    var r', before := Rebound(r, c, m, p), r.bound[c].player;
    forall q, other ensures (q in r'.byPlayer && r'.byPlayer[q] == other)
      <==> (q != 0 && other in r'.bound && r'.bound[other].player == q)
    {
      assert (q in r.byPlayer && r.byPlayer[q] == other)
        <==> (q != 0 && other in r.bound && r.bound[other].player == q);
      assert before != 0 ==> before in r.byPlayer && r.byPlayer[before] == c;
    }
  }

  lemma EmptyMatchListed(r: Index, c: ConnectionId, p: PlayerId)
    requires c in r.bound
    ensures var bound := Bound(r, c, 0, p);
      c in bound.bound && bound.bound[c].match_ == 0 && 0 in bound.byMatch && c in bound.byMatch[0]
  {
    hide Left, Released;
  }

  // Binding to a match keeps the indexes exact; binding to the empty match id breaks them, and
  // that is the only way.
  lemma BindKeepsExactly(r: Index, c: ConnectionId, m: MatchId, p: PlayerId)
    requires Exact(r)
    ensures Exact(Bound(r, c, m, p)) <==> m != 0 || c !in r.bound
  {
    if c in r.bound {
      var free := Released(r, c, p);
      ReleaseKeeps(r, c, p);
      if m != 0 {
        RebindMatches(free, c, m, p);
        RebindPlayers(free, c, m, p);
        LeftNoneEmpty(free.byMatch, free.bound[c].match_, c);
        LeftNoneEmpty(Left(free.byMatch, free.bound[c].match_, c), m, c);
        hide Left, Entered, PlayersExact, MatchesExact, NoneEmpty, Released, PlayerMoved;
      } else {
        EmptyMatchListed(r, c, p);
        assert !MatchesExact(Bound(r, c, 0, p));
      }
    }
  }

  // What is left behind then: the unregistered connection stays listed under the empty match.
  lemma EmptyMatchLeaks(r: Index, c: ConnectionId, p: PlayerId)
    requires Exact(r) && c in r.bound
    ensures var gone := Unregistered(Bound(r, c, 0, p), c);
      c !in gone.bound && 0 in gone.byMatch && c in gone.byMatch[0]
  {
    EmptyMatchListed(r, c, p);
    hide Bound;
  }

  // ---- every run ----

  datatype Step = Register | Bind(c: ConnectionId, m: MatchId, p: PlayerId) | Unregister(c: ConnectionId)

  function After(r: Index, step: Step): Index {
    match step
    case Register => Registered(r)
    case Bind(c, m, p) => Bound(r, c, m, p)
    case Unregister(c) => Unregistered(r, c)
  }

  function Run(steps: seq<Step>): Index {
    if steps == [] then Index(0, map[], map[], map[]) else After(Run(steps[..|steps| - 1]), steps[|steps| - 1])
  }

  // Any sequence of register, bind to a match and unregister keeps the indexes exact: a player
  // points at the one live connection bound to it, a match lists exactly the live connections
  // bound to it, and no match is listed without connections.
  lemma {:induction false} IndexesStayExact(steps: seq<Step>)
    requires forall k :: 0 <= k < |steps| && steps[k].Bind? ==> steps[k].m != 0
    ensures Exact(Run(steps))
  {
    hide Exact, Registered, Unregistered, Bound;
    if steps == [] {
      NothingExact();
    } else {
      var before, step := Run(steps[..|steps| - 1]), steps[|steps| - 1];
      IndexesStayExact(steps[..|steps| - 1]);
      match step
      case Register => RegisterKeeps(before);
      case Bind(c, m, p) => BindKeepsExactly(before, c, m, p);
      case Unregister(c) => UnregisterKeeps(before, c);
    }
  }

  lemma NothingExact()
    ensures Exact(Index(0, map[], map[], map[]))
  {
  }

  lemma OneConnectionPerPlayer(r: Index, a: ConnectionId, b: ConnectionId)
    requires Exact(r) && a in r.bound && b in r.bound && r.bound[a].player == r.bound[b].player != 0
    ensures a == b
  {
    assert r.byPlayer[r.bound[a].player] == a;
  }
}
