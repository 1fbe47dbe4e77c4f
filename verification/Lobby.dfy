// Matches, their rosters and the player-to-match table (internal/server/game/manager.go).

module Lobby {
  import opened Records
  import opened State

  type MatchId = nat

  // A match session: its status, the players who joined with their names, and the player list
  // of its game state.
  datatype Session = Session(status: MatchStatus, roster: map<PlayerId, nat>, players: seq<PlayerState>)

  datatype Error =
    | InvalidPlayerId | InvalidPlayerName | PlayerAlreadyInMatch | MatchNotFound | MatchNotJoinable
    | MatchFull | PlayerNotFound | MatchAlreadyRunning | MatchAlreadyEnded | NotEnoughPlayers
  datatype Result = Ok | Err(error: Error)

  datatype Limits = Limits(minPlayers: nat, maxPlayers: nat)

  datatype Matches = Matches(created: nat, sessions: map<MatchId, Session>, playerToMatch: map<PlayerId, MatchId>)

  // `newcomer` is the state given to a player the game state does not hold yet.
  type Newcomer = PlayerId -> PlayerBody

  // The body a rostered player has after a sync: the one held, or a newcomer's, under the
  // roster's name.
  function BodyFor(held: map<nat, PlayerBody>, p: PlayerId, name: nat, newcomer: Newcomer): PlayerBody {
    (if p in held then held[p] else newcomer(p)).(name := name)
  }

  function Bodies(s: Session, newcomer: Newcomer): map<nat, PlayerBody> {
    map p | p in s.roster :: BodyFor(Index(s.players), p, s.roster[p], newcomer)
  }

  ghost function Synced(s: Session, newcomer: Newcomer): Session {
    s.(players := Listing(Bodies(s, newcomer)))
  }

  // ---- the operations on values ----

  function Created(ms: Matches): Matches {
    ms.(created := ms.created + 1, sessions := ms.sessions[ms.created + 1 := Session(MatchStatus.Lobby, map[], [])])
  }

  function JoinOutcome(ms: Matches, limits: Limits, m: MatchId, p: PlayerId, name: nat): Result {
    if p == 0 then Err(InvalidPlayerId)
    else if name == 0 then Err(InvalidPlayerName)
    else if p in ms.playerToMatch then Err(PlayerAlreadyInMatch)
    else if m !in ms.sessions then Err(MatchNotFound)
    else if ms.sessions[m].status != MatchStatus.Lobby then Err(MatchNotJoinable)
    else if |ms.sessions[m].roster| >= limits.maxPlayers then Err(MatchFull)
    else Ok
  }

  ghost function Entered(ms: Matches, m: MatchId, p: PlayerId, name: nat, newcomer: Newcomer): Matches
    requires m in ms.sessions
  {
    var s := ms.sessions[m];
    ms.(sessions := ms.sessions[m := Synced(s.(roster := s.roster[p := name]), newcomer)],
        playerToMatch := ms.playerToMatch[p := m])
  }

  function ResumeOutcome(ms: Matches, m: MatchId, p: PlayerId): Result {
    if p == 0 then Err(InvalidPlayerId)
    else if m !in ms.sessions then Err(MatchNotFound)
    else if ms.sessions[m].status == GameOver then Err(MatchNotJoinable)
    else if p in ms.playerToMatch && ms.playerToMatch[p] != m then Err(PlayerAlreadyInMatch)
    else if p !in ms.sessions[m].roster then Err(PlayerNotFound)
    else Ok
  }

  function StartOutcome(ms: Matches, limits: Limits, m: MatchId): Result {
    if m !in ms.sessions then Err(MatchNotFound)
    else if ms.sessions[m].status == Running then Err(MatchAlreadyRunning)
    else if ms.sessions[m].status == GameOver then Err(MatchAlreadyEnded)
    else if |ms.sessions[m].roster| < limits.minPlayers then Err(NotEnoughPlayers)
    else Ok
  }

  ghost function Started(ms: Matches, m: MatchId, newcomer: Newcomer): Matches
    requires m in ms.sessions
  {
    ms.(sessions := ms.sessions[m := Synced(ms.sessions[m].(status := Running), newcomer)])
  }

  function EndOutcome(ms: Matches, m: MatchId): Result {
    if m !in ms.sessions then Err(MatchNotFound)
    else if ms.sessions[m].status == GameOver then Err(MatchAlreadyEnded)
    else Ok
  }

  // The match is over and lets its players go; ended by hand or by the tick that decided it.
  function Ended(ms: Matches, m: MatchId): Matches
    requires m in ms.sessions
  {
    ms.(sessions := ms.sessions[m := ms.sessions[m].(status := GameOver)],
        playerToMatch := ms.playerToMatch - ms.sessions[m].roster.Keys)
  }

  // ---- the manager ----

  // The name a resumed player goes by: the one given, or the roster's.
  function Name(given: nat, known: nat): nat { if given != 0 then given else known }

  function ResumedName(ms: Matches, m: MatchId, p: PlayerId, given: nat): nat {
    if m in ms.sessions && p in ms.sessions[m].roster then Name(given, ms.sessions[m].roster[p]) else given
  }

  class Manager {
    const limits: Limits
    const newcomer: Newcomer
    var created: nat
    var matches: map<MatchId, Session>
    var playerToMatch: map<PlayerId, MatchId>

    constructor (limits: Limits, newcomer: Newcomer)
      ensures this.limits == limits && this.newcomer == newcomer
      ensures View() == Matches(0, map[], map[])
    {
      this.limits, this.newcomer := limits, newcomer;
      created, matches, playerToMatch := 0, map[], map[];
    }

    ghost function View(): Matches
      reads this
    {
      Matches(created, matches, playerToMatch)
    }

    method CreateMatch() returns (m: MatchId)
      modifies this
      ensures m == old(created) + 1 && View() == Created(old(View()))
    {
      created := created + 1;
      matches := matches[created := Session(MatchStatus.Lobby, map[], [])];
      return created;
    }

    method SyncPlayers(s: Session) returns (synced: Session)
      ensures synced == Synced(s, newcomer)
    {
      var existing: map<nat, PlayerBody> := map[];
      for i := 0 to |s.players|
        invariant existing == Index(s.players[..i])
      {
        assert s.players[..i + 1][..i] == s.players[..i];
        existing := existing[s.players[i].id := s.players[i].body];
      }
      assert s.players[..|s.players|] == s.players;
      var bodies := map p | p in s.roster :: BodyFor(existing, p, s.roster[p], newcomer);
      var players := ListTable(bodies);
      return s.(players := players);
    }

    method JoinMatch(m: MatchId, p: PlayerId, name: nat) returns (result: Result)
      modifies this
      ensures result == JoinOutcome(old(View()), limits, m, p, name)
      ensures View() == if result == Ok then Entered(old(View()), m, p, name, newcomer) else old(View())
    {
      hide Synced;
      if p == 0 { return Err(InvalidPlayerId); }
      if name == 0 { return Err(InvalidPlayerName); }
      if p in playerToMatch { return Err(PlayerAlreadyInMatch); }
      if m !in matches { return Err(MatchNotFound); }
      var session := matches[m];
      if session.status != MatchStatus.Lobby { return Err(MatchNotJoinable); }
      if |session.roster| >= limits.maxPlayers { return Err(MatchFull); }
      var synced := SyncPlayers(session.(roster := session.roster[p := name]));
      playerToMatch := playerToMatch[p := m];
      matches := matches[m := synced];
      return Ok;
    }

    method ResumePlayer(m: MatchId, p: PlayerId, name: nat) returns (result: Result)
      modifies this
      ensures result == ResumeOutcome(old(View()), m, p)
      ensures View() == if result == Ok
        then Entered(old(View()), m, p, ResumedName(old(View()), m, p, name), newcomer) else old(View())
    {
      hide Synced;
      if p == 0 { return Err(InvalidPlayerId); }
      if m !in matches { return Err(MatchNotFound); }
      var session := matches[m];
      if session.status == GameOver { return Err(MatchNotJoinable); }
      if p in playerToMatch && playerToMatch[p] != m { return Err(PlayerAlreadyInMatch); }
      if p !in session.roster { return Err(PlayerNotFound); }
      var roster := session.roster[p := Name(name, session.roster[p])];
      var synced := SyncPlayers(session.(roster := roster));
      playerToMatch := playerToMatch[p := m];
      matches := matches[m := synced];
      return Ok;
    }

    method StartMatch(m: MatchId) returns (result: Result)
      modifies this
      ensures result == StartOutcome(old(View()), limits, m)
      ensures View() == if result == Ok then Started(old(View()), m, newcomer) else old(View())
    {
      hide Synced;
      if m !in matches { return Err(MatchNotFound); }
      var session := matches[m];
      if session.status == Running { return Err(MatchAlreadyRunning); }
      if session.status == GameOver { return Err(MatchAlreadyEnded); }
      if |session.roster| < limits.minPlayers { return Err(NotEnoughPlayers); }
      var synced := SyncPlayers(session.(status := Running));
      matches := matches[m := synced];
      return Ok;
    }

    method ReleasePlayers(roster: map<PlayerId, nat>)
      modifies this`playerToMatch
      ensures playerToMatch == old(playerToMatch) - roster.Keys
    {
      var pending := roster.Keys;
      while pending != {}
        invariant pending <= roster.Keys
        invariant playerToMatch == old(playerToMatch) - (roster.Keys - pending)
        decreases |pending|
      {
        var p :| p in pending;
        playerToMatch := playerToMatch - {p};
        pending := pending - {p};
      }
    }

    method EndMatch(m: MatchId) returns (result: Result)
      modifies this
      ensures result == EndOutcome(old(View()), m)
      ensures View() == if result == Ok then Ended(old(View()), m) else old(View())
    {
      if m !in matches { return Err(MatchNotFound); }
      var session := matches[m];
      if session.status == GameOver { return Err(MatchAlreadyEnded); }
      matches := matches[m := session.(status := GameOver)];
      ReleasePlayers(session.roster);
      return Ok;
    }
  }

  // ---- the invariant ----

  predicate Live(ms: Matches, m: MatchId, p: PlayerId) {
    m in ms.sessions && ms.sessions[m].status != GameOver && p in ms.sessions[m].roster
  }

  ghost predicate TableExact(ms: Matches) {
    forall p, m :: (p in ms.playerToMatch && ms.playerToMatch[p] == m) <==> Live(ms, m, p)
  }

  // The game state's player list is the roster in id order.
  ghost predicate ListsRoster(s: Session) {
    AscendingById(s.players) && Index(s.players).Keys == s.roster.Keys
  }

  ghost predicate SessionSound(s: Session, limits: Limits) {
    ListsRoster(s) && |s.roster| <= limits.maxPlayers
  }

  ghost predicate Exact(ms: Matches, limits: Limits) {
    && TableExact(ms)
    && SessionsSound(ms.sessions, ms.created, limits)
  }

  ghost predicate SessionsSound(sessions: map<MatchId, Session>, created: nat, limits: Limits) {
    forall m :: m in sessions ==> m <= created && SessionSound(sessions[m], limits)
  }

  lemma SessionsWith(sessions: map<MatchId, Session>, created: nat, limits: Limits, m: MatchId, s: Session)
    requires SessionsSound(sessions, created, limits) && m in sessions && SessionSound(s, limits)
    ensures SessionsSound(sessions[m := s], created, limits)
  {
  }

  lemma SyncedLists(s: Session, newcomer: Newcomer)
    ensures ListsRoster(Synced(s, newcomer))
    ensures Synced(s, newcomer).roster == s.roster && Synced(s, newcomer).status == s.status
  {
    ListingShape(Bodies(s, newcomer));
  }

  lemma CreateKeeps(ms: Matches, limits: Limits)
    requires Exact(ms, limits)
    ensures Exact(Created(ms), limits)
  {
    assert ListsRoster(Session(MatchStatus.Lobby, map[], []));
    hide SessionSound;
    var ms' := Created(ms);
    forall p, n ensures (p in ms'.playerToMatch && ms'.playerToMatch[p] == n) <==> Live(ms', n, p) {
      assert (p in ms.playerToMatch && ms.playerToMatch[p] == n) <==> Live(ms, n, p);
    }
  }

  // Replacing a session that is not over by one not over with p on its roster as well.
  lemma TableWith(ms: Matches, m: MatchId, s: Session, p: PlayerId)
    requires TableExact(ms) && m in ms.sessions && ms.sessions[m].status != GameOver && s.status != GameOver
    requires s.roster.Keys == ms.sessions[m].roster.Keys + {p}
    requires p in ms.playerToMatch ==> ms.playerToMatch[p] == m
    ensures TableExact(ms.(sessions := ms.sessions[m := s], playerToMatch := ms.playerToMatch[p := m]))
  {
    var ms' := ms.(sessions := ms.sessions[m := s], playerToMatch := ms.playerToMatch[p := m]);
    forall q, n ensures (q in ms'.playerToMatch && ms'.playerToMatch[q] == n) <==> Live(ms', n, q) {
      assert (q in ms.playerToMatch && ms.playerToMatch[q] == n) <==> Live(ms, n, q);
    }
  }

  lemma EnterKeeps(ms: Matches, limits: Limits, m: MatchId, p: PlayerId, name: nat, newcomer: Newcomer)
    requires Exact(ms, limits) && m in ms.sessions && ms.sessions[m].status != GameOver
    requires p in ms.playerToMatch ==> ms.playerToMatch[p] == m
    requires p in ms.sessions[m].roster || |ms.sessions[m].roster| < limits.maxPlayers
    ensures Exact(Entered(ms, m, p, name, newcomer), limits)
  {
    var s := ms.sessions[m].(roster := ms.sessions[m].roster[p := name]);
    assert s.roster.Keys == ms.sessions[m].roster.Keys + {p};
    RosterSize(ms.sessions[m].roster, p, name);
    SyncedLists(s, newcomer);
    assert SessionSound(ms.sessions[m], limits);
    hide ListsRoster, Synced, TableExact, Live, SessionsSound;
    assert SessionSound(Synced(s, newcomer), limits);
    hide SessionSound;
    TableWith(ms, m, Synced(s, newcomer), p);
    SessionsWith(ms.sessions, ms.created, limits, m, Synced(s, newcomer));
  }

  lemma RosterSize(roster: map<PlayerId, nat>, p: PlayerId, name: nat)
    ensures |roster[p := name]| == |roster| + (if p in roster then 0 else 1)
  {
    assert roster[p := name].Keys == roster.Keys + {p};
  }

  lemma JoinKeeps(ms: Matches, limits: Limits, m: MatchId, p: PlayerId, name: nat, newcomer: Newcomer)
    requires Exact(ms, limits) && JoinOutcome(ms, limits, m, p, name) == Ok
    ensures Exact(Entered(ms, m, p, name, newcomer), limits)
  {
    hide Exact, Entered;
    EnterKeeps(ms, limits, m, p, name, newcomer);
  }

  lemma ResumeKeeps(ms: Matches, limits: Limits, m: MatchId, p: PlayerId, name: nat, newcomer: Newcomer)
    requires Exact(ms, limits) && ResumeOutcome(ms, m, p) == Ok
    ensures Exact(Entered(ms, m, p, name, newcomer), limits)
  {
    hide Exact, Entered;
    EnterKeeps(ms, limits, m, p, name, newcomer);
  }

  lemma StartKeeps(ms: Matches, limits: Limits, m: MatchId, newcomer: Newcomer)
    requires Exact(ms, limits) && StartOutcome(ms, limits, m) == Ok
    ensures Exact(Started(ms, m, newcomer), limits)
  {
    var s := ms.sessions[m].(status := Running);
    SyncedLists(s, newcomer);
    assert SessionSound(ms.sessions[m], limits);
    hide ListsRoster, Synced, TableExact, Live, SessionsSound;
    assert SessionSound(Synced(s, newcomer), limits);
    hide SessionSound;
    SameRosterTable(ms, m, Synced(s, newcomer));
    SessionsWith(ms.sessions, ms.created, limits, m, Synced(s, newcomer));
  }

  lemma SameRosterTable(ms: Matches, m: MatchId, s: Session)
    requires TableExact(ms) && m in ms.sessions && ms.sessions[m].status != GameOver && s.status != GameOver
    requires s.roster == ms.sessions[m].roster
    ensures TableExact(ms.(sessions := ms.sessions[m := s]))
  {
    var ms' := ms.(sessions := ms.sessions[m := s]);
    forall q, n ensures (q in ms'.playerToMatch && ms'.playerToMatch[q] == n) <==> Live(ms', n, q) {
      assert (q in ms.playerToMatch && ms.playerToMatch[q] == n) <==> Live(ms, n, q);
    }
  }

  lemma EndKeeps(ms: Matches, limits: Limits, m: MatchId)
    requires Exact(ms, limits) && EndOutcome(ms, m) == Ok
    ensures Exact(Ended(ms, m), limits)
  {
    var ms' := Ended(ms, m);
    forall p, n ensures (p in ms'.playerToMatch && ms'.playerToMatch[p] == n) <==> Live(ms', n, p) {
      assert (p in ms.playerToMatch && ms.playerToMatch[p] == n) <==> Live(ms, n, p);
      assert (p in ms.playerToMatch && ms.playerToMatch[p] == m) <==> Live(ms, m, p);
    }
    assert ListsRoster(ms.sessions[m]);
  }

  // ---- every run ----

  datatype Step =
    | Create
    | Join(m: MatchId, p: PlayerId, name: nat)
    | Resume(m: MatchId, p: PlayerId, name: nat)
    | Start(m: MatchId)
    // By hand, or by the tick that decided the match.
    | End(m: MatchId)

  ghost function After(ms: Matches, step: Step, limits: Limits, newcomer: Newcomer): Matches {
    match step
    case Create => Created(ms)
    case Join(m, p, name) => if JoinOutcome(ms, limits, m, p, name) == Ok then Entered(ms, m, p, name, newcomer) else ms
    case Resume(m, p, name) =>
      if ResumeOutcome(ms, m, p) == Ok then Entered(ms, m, p, ResumedName(ms, m, p, name), newcomer) else ms
    case Start(m) => if StartOutcome(ms, limits, m) == Ok then Started(ms, m, newcomer) else ms
    case End(m) => if EndOutcome(ms, m) == Ok then Ended(ms, m) else ms
  }

  ghost function Run(steps: seq<Step>, limits: Limits, newcomer: Newcomer): Matches {
    if steps == [] then Matches(0, map[], map[])
    else After(Run(steps[..|steps| - 1], limits, newcomer), steps[|steps| - 1], limits, newcomer)
  }

  // Whatever is created, joined, resumed, started and ended, in any order: the table points a
  // player at a match exactly when the match is not over and the player is on its roster, rosters
  // stay within the limit, and each game state lists its roster in id order.
  lemma {:induction false} TableStaysExact(steps: seq<Step>, limits: Limits, newcomer: Newcomer)
    ensures Exact(Run(steps, limits, newcomer), limits)
  {
    hide Exact, Created, Entered, Started, Ended;
    if steps == [] {
      NothingExact(limits);
    } else {
      var ms, step := Run(steps[..|steps| - 1], limits, newcomer), steps[|steps| - 1];
      TableStaysExact(steps[..|steps| - 1], limits, newcomer);
      match step
      case Create => CreateKeeps(ms, limits);
      case Join(m, p, name) =>
        if JoinOutcome(ms, limits, m, p, name) == Ok { JoinKeeps(ms, limits, m, p, name, newcomer); }
      case Resume(m, p, name) =>
        if ResumeOutcome(ms, m, p) == Ok {
          ResumeKeeps(ms, limits, m, p, ResumedName(ms, m, p, name), newcomer);
        }
      case Start(m) => if StartOutcome(ms, limits, m) == Ok { StartKeeps(ms, limits, m, newcomer); }
      case End(m) => if EndOutcome(ms, m) == Ok { EndKeeps(ms, limits, m); }
    }
  }

  lemma NothingExact(limits: Limits)
    ensures Exact(Matches(0, map[], map[]), limits)
  {
  }

  // So a player is on the roster of at most one match that is not over.
  lemma OneLiveMatch(ms: Matches, limits: Limits, p: PlayerId, m: MatchId, n: MatchId)
    requires Exact(ms, limits) && Live(ms, m, p) && Live(ms, n, p)
    ensures m == n
  {
    assert ms.playerToMatch[p] == m;
  }
}
