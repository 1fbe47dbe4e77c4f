// The succession of the gang leader (internal/gamecore/roles/succession.go).

module Succession {
  import opened Records
  import opened State

  // The player fields that succession reads and writes.
  datatype Member = Member(id: PlayerId, role: Role, faction: Faction, alignment: Alignment, alive: bool)

  // ---- who may succeed ----

  predicate LivingLeader(m: Member) { m.role == GangLeader && m.alive }
  predicate FallenLeader(m: Member) { m.role == GangLeader && !m.alive }
  predicate Eligible(m: Member) { m.role == GangMember && m.alive }

  ghost predicate LeaderLives(ms: seq<Member>) { exists i :: 0 <= i < |ms| && LivingLeader(ms[i]) }

  // Positions of the eligible members, inserted in id order.
  function InsertById(ms: seq<Member>, sorted: seq<nat>, i: nat): (r: seq<nat>)
    requires i < |ms| && forall k :: k in sorted ==> k < |ms|
    ensures forall k :: k in r <==> k in sorted || k == i
  {
    if sorted == [] then [i]
    else
      assert sorted == [sorted[0]] + sorted[1..];
      assert sorted[0] in sorted && forall k :: k in sorted[1..] ==> k in sorted;
      if ms[i].id < ms[sorted[0]].id then [i] + sorted else [sorted[0]] + InsertById(ms, sorted[1..], i)
  }

  function EligibleById(ms: seq<Member>, upTo: nat): (r: seq<nat>)
    requires upTo <= |ms|
    ensures forall k: nat :: k in r <==> k < upTo && Eligible(ms[k])
  {
    if upTo == 0 then []
    else if Eligible(ms[upTo - 1]) then InsertById(ms, EligibleById(ms, upTo - 1), upTo - 1)
    else EligibleById(ms, upTo - 1)
  }

  // `pick` stands for hashing the match, the tick and the candidates' ids.
  type Pick = seq<PlayerId> -> nat

  function IdAt(ms: seq<Member>, positions: seq<nat>, i: nat): PlayerId
    requires i < |positions| && forall k :: k in positions ==> k < |ms|
  {
    assert positions[i] in positions;
    ms[positions[i]].id
  }

  function Ids(ms: seq<Member>, positions: seq<nat>): seq<PlayerId>
    requires forall k :: k in positions ==> k < |ms|
  {
    seq(|positions|, i requires 0 <= i < |positions| => IdAt(ms, positions, i))
  }

  function Successor(ms: seq<Member>, pick: Pick): (s: nat)
    requires EligibleById(ms, |ms|) != []
    ensures s < |ms| && Eligible(ms[s])
  {
    var eligible := EligibleById(ms, |ms|);
    var chosen := if |eligible| <= 1 then 0 else pick(Ids(ms, eligible)) % |eligible|;
    assert eligible[chosen] in eligible;
    eligible[chosen]
  }

  predicate Vacant(ms: seq<Member>) {
    (forall i :: 0 <= i < |ms| ==> !LivingLeader(ms[i])) && EligibleById(ms, |ms|) != []
  }

  function Promoted(m: Member): Member { m.(role := GangLeader, faction := Prisoner, alignment := Evil) }
  function Demoted(m: Member): Member { if FallenLeader(m) then m.(role := GangMember) else m }

  function Succeeded(ms: seq<Member>, pick: Pick): (r: seq<Member>)
    ensures |r| == |ms|
  {
    if !Vacant(ms) then ms
    else
      var s := Successor(ms, pick);
      seq(|ms|, i requires 0 <= i < |ms| => if i == s then Promoted(ms[i]) else Demoted(ms[i]))
  }

  ghost function Changed(before: seq<Member>, after: seq<Member>): set<PlayerId>
    requires |before| == |after|
  {
    set i | 0 <= i < |before| && before[i] != after[i] :: before[i].id
  }

  // ---- the call ----

  // The positions of the fallen leaders.
  ghost predicate Lists(positions: seq<nat>, ms: seq<Member>, upTo: nat) {
    && upTo <= |ms|
    && (forall i :: 0 <= i < |positions| ==> positions[i] < upTo && FallenLeader(ms[positions[i]]))
    && (forall k: nat :: k < upTo && FallenLeader(ms[k]) ==> k in positions)
  }

  method ScanGang(players: array<Member>) returns (leaderLives: bool, fallen: seq<nat>, eligible: seq<nat>)
    ensures leaderLives == LeaderLives(players[..])
    ensures Lists(fallen, players[..], players.Length)
    ensures eligible == EligibleById(players[..], players.Length)
  {
    leaderLives, fallen, eligible := false, [], [];
    for index := 0 to players.Length
      invariant leaderLives <==> exists i :: 0 <= i < index && LivingLeader(players[..][i])
      invariant Lists(fallen, players[..], index)
      invariant eligible == EligibleById(players[..], index)
    {
      var player := players[index];
      match player.role {
        case GangLeader =>
          if player.alive { leaderLives := true; } else { fallen := fallen + [index]; }
        case GangMember =>
          if player.alive { eligible := InsertById(players[..], eligible, index); }
        case _ =>
      }
    }
  }

  ghost function FallenIds(ms: seq<Member>): set<PlayerId> {
    set k | 0 <= k < |ms| && FallenLeader(ms[k]) :: ms[k].id
  }

  method DemoteFallen(players: array<Member>, fallen: seq<nat>) returns (ids: set<PlayerId>)
    requires Lists(fallen, players[..], players.Length)
    modifies players
    ensures forall k :: 0 <= k < players.Length ==> players[k] == Demoted(old(players[k]))
    ensures ids == FallenIds(old(players[..]))
  {
    ids := {};
    ghost var before := players[..];
    for i := 0 to |fallen|
      invariant ids == set k | 0 <= k < i :: before[fallen[k]].id
      invariant forall k :: 0 <= k < players.Length ==>
        players[k] == if k in fallen[..i] then Demoted(old(players[k])) else old(players[k])
    {
      assert fallen[i] in fallen && fallen[..i + 1] == fallen[..i] + [fallen[i]];
      if players[fallen[i]].role != GangMember {
        players[fallen[i]] := players[fallen[i]].(role := GangMember);
      }
      ids := ids + {players[fallen[i]].id};
    }
    assert fallen[..|fallen|] == fallen;
  }

  method ApplySuccession(players: array<Member>, pick: Pick) returns (changed: seq<PlayerId>)
    modifies players
    ensures players[..] == Succeeded(old(players[..]), pick)
    ensures changed == AscendingIds(Changed(old(players[..]), players[..]))
  {
    ghost var before := players[..];
    if players.Length == 0 {
      assert Changed(before, before) == {};
      return [];
    }
    var leaderLives, fallen, eligible := ScanGang(players);
    if leaderLives || |eligible| == 0 {
      assert Changed(before, before) == {};
      return [];
    }
    var ids := DemoteFallen(players, fallen);
    assert forall k :: 0 <= k < |before| ==> players[..][k].id == before[k].id;
    assert Ids(players[..], eligible) == Ids(before, eligible);
    var chosen := if |eligible| <= 1 then 0 else pick(Ids(players[..], eligible)) % |eligible|;
    var s := eligible[chosen];
    assert s == Successor(before, pick);
    players[s] := Promoted(players[s]);
    ids := ids + {players[s].id};
    assert players[..] == Succeeded(before, pick);
    assert ids == Changed(before, players[..]);
    changed := SortedIds(ids);
  }

  // ---- what succession keeps ----

  predicate InGang(m: Member) { m.role == GangLeader || m.role == GangMember }

  ghost predicate SoleLeader(ms: seq<Member>, s: nat) {
    s < |ms| && forall i :: 0 <= i < |ms| ==> (ms[i].role == GangLeader <==> i == s)
  }

  ghost predicate OneLeader(ms: seq<Member>) { exists s :: SoleLeader(ms, s) }

  // The same players, and the same of them in the gang.
  ghost predicate SameGang(a: seq<Member>, b: seq<Member>) {
    |a| == |b| && forall i :: 0 <= i < |a| ==> a[i].id == b[i].id && (InGang(a[i]) <==> InGang(b[i]))
  }

  ghost predicate GangLives(ms: seq<Member>) { exists i :: 0 <= i < |ms| && InGang(ms[i]) && ms[i].alive }

  // A call fills a vacancy with a sole, living leader and leaves everyone's place in the gang
  // and among the living as it was.
  lemma VacancyFilled(ms: seq<Member>, pick: Pick)
    ensures SameGang(ms, Succeeded(ms, pick))
    ensures forall i :: 0 <= i < |ms| ==> Succeeded(ms, pick)[i].alive == ms[i].alive
    ensures Vacant(ms) ==> SoleLeader(Succeeded(ms, pick), Successor(ms, pick))
    ensures Vacant(ms) ==> LivingLeader(Succeeded(ms, pick)[Successor(ms, pick)])
    ensures !Vacant(ms) ==> Succeeded(ms, pick) == ms
  {
  }

  // After a call somebody living leads exactly when somebody living is in the gang.
  lemma LedIfAlive(ms: seq<Member>, pick: Pick)
    ensures LeaderLives(Succeeded(ms, pick)) <==> GangLives(Succeeded(ms, pick))
  {
    var after := Succeeded(ms, pick);
    VacancyFilled(ms, pick);
    if Vacant(ms) {
      assert InGang(after[Successor(ms, pick)]);
    } else if i :| 0 <= i < |ms| && InGang(ms[i]) && ms[i].alive {
      if Eligible(ms[i]) { assert i in EligibleById(ms, |ms|); }
    }
  }

  // Between deaths a second call changes nothing, whatever it would pick.
  lemma CallTwice(ms: seq<Member>, first: Pick, second: Pick)
    ensures Succeeded(Succeeded(ms, first), second) == Succeeded(ms, first)
  {
    VacancyFilled(ms, first);
  }

  datatype Event = Death(victim: nat) | Call(pick: Pick)

  function After(ms: seq<Member>, event: Event): seq<Member> {
    match event
    case Death(victim) => if victim < |ms| then ms[victim := ms[victim].(alive := false)] else ms
    case Call(pick) => Succeeded(ms, pick)
  }

  function Run(ms: seq<Member>, events: seq<Event>): seq<Member> {
    if events == [] then ms else After(Run(ms, events[..|events| - 1]), events[|events| - 1])
  }

  lemma EventKeeps(ms: seq<Member>, event: Event)
    requires OneLeader(ms)
    ensures OneLeader(After(ms, event)) && SameGang(ms, After(ms, event))
  {
    var s :| SoleLeader(ms, s);
    match event
    case Death(victim) => assert SoleLeader(After(ms, event), s);
    case Call(pick) =>
      VacancyFilled(ms, pick);
      assert !Vacant(ms) ==> SoleLeader(After(ms, event), s);
  }

  // From one gang leader, any deaths and calls in any order keep exactly one player in the
  // leader's role and the same players in the gang.
  lemma {:induction false} OneLeaderAlways(ms: seq<Member>, events: seq<Event>)
    requires OneLeader(ms)
    ensures OneLeader(Run(ms, events)) && SameGang(ms, Run(ms, events))
  {
    if events != [] {
      OneLeaderAlways(ms, events[..|events| - 1]);
      EventKeeps(Run(ms, events[..|events| - 1]), events[|events| - 1]);
    }
  }
}
