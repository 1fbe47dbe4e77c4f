// Role assignment at match start (internal/gamecore/roles/assignment.go).

module Assignments {
  import opened Records
  import opened State

  datatype Profile = Profile(role: Role, faction: Faction, alignment: Alignment)
  datatype Assignment = Assignment(player: PlayerId, profile: Profile)
  datatype Error = NoPlayersProvided | DuplicatePlayerId
  datatype Result<+T> = Ok(value: T) | Err(error: Error)

  const WARDEN := Profile(Warden, Authority, Good)
  const GOOD_DEPUTY := Profile(Deputy, Authority, Good)
  const BAD_DEPUTY := Profile(Deputy, Authority, Evil)
  const LEADER := Profile(GangLeader, Prisoner, Evil)
  const MEMBER := Profile(GangMember, Prisoner, Evil)
  const SNITCH := Profile(Snitch, Prisoner, Good)
  const NEUTRAL := Profile(NeutralPrisoner, Neutral, NeutralAligned)

  // The shape of every template: a warden, deputies, the gang with its leader, snitches, neutrals.
  function Template(goodDeputies: nat, badDeputies: nat, members: nat, snitches: nat, neutrals: nat): (r: seq<Profile>)
    ensures |r| == 2 + goodDeputies + badDeputies + members + snitches + neutrals
  {
    var leader := 1 + goodDeputies + badDeputies;
    seq(leader + 1 + members + snitches + neutrals, i =>
      if i == 0 then WARDEN
      else if i < 1 + goodDeputies then GOOD_DEPUTY
      else if i < leader then BAD_DEPUTY
      else if i == leader then LEADER
      else if i < leader + 1 + members then MEMBER
      else if i < leader + 1 + members + snitches then SNITCH
      else NEUTRAL)
  }

  function ProfilesForCount(count: nat): (templates: seq<seq<Profile>>)
    requires count > 0
    ensures templates != [] && forall k :: 0 <= k < |templates| ==> |templates[k]| == count
  {
    if count == 6 then [Template(1, 0, 2, 1, 0), Template(1, 0, 1, 0, 2), Template(0, 1, 1, 1, 1)]
    else if count == 7 then [Template(2, 0, 2, 0, 1), Template(1, 1, 1, 1, 1)]
    else if count == 8 then [Template(2, 0, 3, 0, 1), Template(1, 1, 2, 1, 1)]
    else if count == 9 then [Template(2, 0, 3, 0, 2), Template(1, 1, 2, 1, 2)]
    else if count == 10 then [Template(2, 1, 3, 1, 1), Template(3, 0, 4, 0, 1), Template(1, 2, 1, 2, 2)]
    else if count == 11 then [Template(2, 1, 4, 1, 1), Template(3, 0, 5, 0, 1), Template(1, 2, 2, 2, 2)]
    else if count == 12 then [Template(2, 2, 3, 2, 1), Template(4, 0, 6, 0, 0), Template(2, 2, 2, 2, 2)]
    else if count == 1 then [[WARDEN]]
    else if count == 2 then [[WARDEN, GOOD_DEPUTY]]
    else [Template(1, 0, 0, 0, count - 3)]
  }

  // ---- the generator ----

  const SEED_MASK: bv64 := 0x9e3779b97f4a7c15
  const ZERO_SEED: bv64 := 0x6a09e667f3bcc909

  function ShiftLeft13(x: bv64): bv64 { x ^ (x << 13) }
  function ShiftRight7(x: bv64): bv64 { x ^ (x >> 7) }
  function ShiftLeft17(x: bv64): bv64 { x ^ (x << 17) }

  function NextState(x: bv64): bv64 { ShiftLeft17(ShiftRight7(ShiftLeft13(x))) }

  // Shifting by twice as much cancels a step; doubling until nothing is left undoes it.
  function UndoLeft13(y: bv64): bv64 {
    var a := y ^ (y << 13);
    var b := a ^ (a << 26);
    b ^ (b << 52)
  }

  function UndoRight7(y: bv64): bv64 {
    var a := y ^ (y >> 7);
    var b := a ^ (a >> 14);
    var c := b ^ (b >> 28);
    c ^ (c >> 56)
  }

  function UndoLeft17(y: bv64): bv64 {
    var a := y ^ (y << 17);
    a ^ (a << 34)
  }

  lemma StepsUndone(x: bv64)
    ensures UndoLeft13(x ^ (x << 13)) == x
    ensures UndoRight7(x ^ (x >> 7)) == x
    ensures UndoLeft17(x ^ (x << 17)) == x
  {
  }

  lemma StepUndone(x: bv64)
    ensures UndoLeft13(ShiftLeft13(x)) == x
    ensures UndoRight7(ShiftRight7(x)) == x
    ensures UndoLeft17(ShiftLeft17(x)) == x
  {
    hide UndoLeft13, UndoRight7, UndoLeft17;
    StepsUndone(x);
  }

  function PreviousState(y: bv64): bv64 { UndoLeft13(UndoRight7(UndoLeft17(y))) }

  lemma ZeroStays()
    ensures ShiftLeft13(0) == 0 && ShiftRight7(0) == 0 && ShiftLeft17(0) == 0
  {
  }

  // Every draw can be undone, so the states run in cycles; zero is on one of its own.
  lemma DrawUndone(x: bv64)
    ensures PreviousState(NextState(x)) == x
    ensures NextState(x) == 0 ==> x == 0
  {
    hide ShiftLeft13, ShiftRight7, ShiftLeft17, UndoLeft13, UndoRight7, UndoLeft17;
    StepUndone(x);
    StepUndone(ShiftLeft13(x));
    StepUndone(ShiftRight7(ShiftLeft13(x)));
    ZeroStays();
    StepUndone(0);
  }

  function StateAfter(seed: bv64, draws: nat): bv64 {
    if draws == 0 then seed else NextState(StateAfter(seed, draws - 1))
  }

  function Seeded(seed: bv64): bv64 { if seed == 0 then ZERO_SEED else seed }

  // However it is seeded and however often it is drawn from, the generator's state is never zero.
  lemma {:induction false} NeverZero(seed: bv64, draws: nat)
    ensures StateAfter(Seeded(seed), draws) != 0
  {
    hide NextState;
    if draws > 0 {
      NeverZero(seed, draws - 1);
      DrawUndone(StateAfter(Seeded(seed), draws - 1));
    }
  }

  // Two generators that ever meet were seeded alike.
  lemma {:induction false} StatesDistinct(a: bv64, b: bv64, draws: nat)
    ensures StateAfter(a, draws) == StateAfter(b, draws) ==> a == b
  {
    hide NextState, PreviousState;
    if draws > 0 {
      StatesDistinct(a, b, draws - 1);
      DrawUndone(StateAfter(a, draws - 1));
      DrawUndone(StateAfter(b, draws - 1));
    }
  }

  class Rng {
    var state: bv64

    constructor (seed: bv64)
      ensures state == Seeded(seed)
    {
      state := if seed == 0 then ZERO_SEED else seed;
    }

    method Next() returns (x: bv64)
      modifies this
      ensures x == state == NextState(old(state))
    {
      x := state;
      x := ShiftLeft13(x);
      x := ShiftRight7(x);
      x := ShiftLeft17(x);
      state := x;
    }

    method Intn(limit: nat) returns (n: nat)
      modifies this
      ensures n == Drawn(old(state), limit)
      ensures state == if limit <= 1 then old(state) else NextState(old(state))
    {
      if limit <= 1 { return 0; }
      var x := Next();
      return x as nat % limit;
    }
  }

  function Drawn(state: bv64, limit: nat): (n: nat)
    ensures limit > 0 ==> n < limit
  {
    if limit <= 1 then 0 else NextState(state) as nat % limit
  }

  // ---- the shuffle ----

  function Swapped<T>(s: seq<T>, i: nat, j: nat): (r: seq<T>)
    requires i < |s| && j < |s|
    ensures |r| == |s|
  {
    s[i := s[j]][j := s[i]]
  }

  // Fisher-Yates from position `last` downwards.
  function Shuffled<T>(s: seq<T>, last: nat, state: bv64): (r: seq<T>)
    requires last < |s| || last == 0
    ensures |r| == |s|
    decreases last
  {
    if last == 0 then s
    else Shuffled(Swapped(s, last, Drawn(state, last + 1)), last - 1, NextState(state))
  }

  lemma SwapPermutes<T>(s: seq<T>, i: nat, j: nat)
    requires i < |s| && j < |s|
    ensures multiset(Swapped(s, i, j)) == multiset(s)
  {
  }

  // The shuffle is a permutation.
  lemma {:induction false} ShufflePermutes<T>(s: seq<T>, last: nat, state: bv64)
    requires last < |s| || last == 0
    ensures multiset(Shuffled(s, last, state)) == multiset(s)
    decreases last
  {
    if last > 0 {
      var j := Drawn(state, last + 1);
      SwapPermutes(s, last, j);
      ShufflePermutes(Swapped(s, last, j), last - 1, NextState(state));
    }
  }

  function Last(n: nat): nat { if n == 0 then 0 else n - 1 }

  method ShuffleProfiles(profiles: array<Profile>, rng: Rng)
    modifies profiles, rng
    ensures profiles[..] == Shuffled(old(profiles[..]), Last(profiles.Length), old(rng.state))
  {
    var idx := profiles.Length - 1;
    while idx > 0
      invariant -1 <= idx < profiles.Length
      invariant Shuffled(profiles[..], if idx > 0 then idx else 0, rng.state)
             == Shuffled(old(profiles[..]), Last(profiles.Length), old(rng.state))
    {
      ghost var before := profiles[..];
      var swapIdx := rng.Intn(idx + 1);
      profiles[idx], profiles[swapIdx] := profiles[swapIdx], profiles[idx];
      assert profiles[..] == Swapped(before, idx, swapIdx);
      idx := idx - 1;
    }
  }

  // ---- the assignment ----

  ghost predicate HasRepeat(ids: seq<PlayerId>) {
    exists i, j :: 0 <= i < j < |ids| && ids[i] == ids[j]
  }

  function TemplateIndex(seed: bv64, count: nat): (index: nat)
    ensures count > 0 ==> index < count
  {
    if count > 1 then seed as nat % count else 0
  }

  function Masked(seed: bv64): bv64 { seed ^ SEED_MASK }

  function Selected(ordered: seq<PlayerId>, seed: bv64): (profiles: seq<Profile>)
    requires ordered != []
    ensures |profiles| == |ordered|
  {
    var templates := ProfilesForCount(|ordered|);
    Shuffled(templates[TemplateIndex(seed, |templates|)], |ordered| - 1, Seeded(Masked(seed)))
  }

  function Paired(ordered: seq<PlayerId>, profiles: seq<Profile>): (out: seq<Assignment>)
    requires |profiles| >= |ordered|
    ensures |out| == |ordered|
    ensures forall i :: 0 <= i < |ordered| ==> out[i] == Assignment(ordered[i], profiles[i])
  {
    seq(|ordered|, i requires 0 <= i < |ordered| => Assignment(ordered[i], profiles[i]))
  }

  // `hash` stands for hashing the match id and the ordered ids.
  method Assign(playerIds: seq<PlayerId>, hash: seq<PlayerId> -> bv64) returns (result: Result<seq<Assignment>>)
    ensures playerIds == [] ==> result == Err(NoPlayersProvided)
    ensures playerIds != [] && HasRepeat(playerIds) ==> result == Err(DuplicatePlayerId)
    ensures playerIds != [] && !HasRepeat(playerIds) ==>
      var ordered := AscendingIds(IdSet(playerIds));
      ordered != [] && result == Ok(Paired(ordered, Selected(ordered, hash(ordered))))
  {
    hide HasRepeat, Selected, AscendingIds, InOrder;
    if |playerIds| == 0 { return Err(NoPlayersProvided); }
    var ordered := InOrder(playerIds);
    InOrderSame(playerIds);
    InOrderOrdered(playerIds);
    assert |multiset(ordered)| == |ordered| && |multiset(playerIds)| == |playerIds|;
    for idx := 1 to |ordered|
      invariant forall k :: 0 < k < idx ==> ordered[k - 1] != ordered[k]
    {
      if ordered[idx - 1] == ordered[idx] {
        AdjacentRepeat(ordered, playerIds, idx);
        return Err(DuplicatePlayerId);
      }
    }
    OrderedDistinct(ordered, playerIds);
    var out := AssignOrdered(ordered, hash(ordered));
    return Ok(out);
  }

  method AssignOrdered(ordered: seq<PlayerId>, seed: bv64) returns (out: seq<Assignment>)
    requires ordered != []
    ensures out == Paired(ordered, Selected(ordered, seed))
  {
    hide ProfilesForCount, Shuffled, TemplateIndex, Masked, Seeded;
    var profiles := ProfilesForCount(|ordered|);
    var template := profiles[TemplateIndex(seed, |profiles|)];
    var selected := new Profile[|template|](i requires 0 <= i < |template| => template[i]);
    assert selected[..] == template;
    var rng := new Rng(Masked(seed));
    ShuffleProfiles(selected, rng);
    assert selected[..] == Selected(ordered, seed);
    out := PairUp(ordered, selected);
  }

  method PairUp(ordered: seq<PlayerId>, selected: array<Profile>) returns (out: seq<Assignment>)
    requires selected.Length == |ordered|
    ensures out == Paired(ordered, selected[..])
  {
    out := [];
    for idx := 0 to |ordered|
      invariant |out| == idx
      invariant forall i :: 0 <= i < idx ==> out[i] == Assignment(ordered[i], selected[i])
    {
      out := out + [Assignment(ordered[idx], selected[idx])];
    }
  }

  lemma AdjacentRepeat(ordered: seq<nat>, ids: seq<nat>, k: nat)
    requires multiset(ordered) == multiset(ids) && 0 < k < |ordered| && ordered[k - 1] == ordered[k]
    ensures HasRepeat(ids)
  {
    RepeatShared(ordered, ids);
  }

  lemma {:induction false} RepeatCounts(ids: seq<nat>)
    ensures HasRepeat(ids) <==> exists k :: multiset(ids)[k] >= 2
  {
    if ids != [] {
      var n := |ids| - 1;
      RepeatCounts(ids[..n]);
      assert ids == ids[..n] + [ids[n]];
      assert multiset(ids) == multiset(ids[..n]) + multiset{ids[n]};
      if i, j :| 0 <= i < j < |ids| && ids[i] == ids[j] {
        if j < n {
          assert ids[..n][i] == ids[..n][j];
          var k :| multiset(ids[..n])[k] >= 2;
          assert multiset(ids)[k] >= 2;
        } else {
          assert ids[i] in ids[..n];
          assert multiset(ids)[ids[n]] >= 2;
        }
      }
      if k :| multiset(ids)[k] >= 2 {
        if multiset(ids[..n])[k] >= 2 {
          var i, j :| 0 <= i < j < n && ids[..n][i] == ids[..n][j];
          assert ids[i] == ids[j];
        } else {
          assert k == ids[n] && k in ids[..n];
          var i :| 0 <= i < n && ids[..n][i] == k;
          assert ids[i] == ids[n];
        }
      }
    }
  }

  lemma RepeatShared(a: seq<nat>, b: seq<nat>)
    requires multiset(a) == multiset(b)
    ensures HasRepeat(a) <==> HasRepeat(b)
  {
    RepeatCounts(a);
    RepeatCounts(b);
  }

  lemma OrderedDistinct(ordered: seq<nat>, ids: seq<nat>)
    requires multiset(ordered) == multiset(ids) && NonDescending(ordered)
    requires forall k :: 0 < k < |ordered| ==> ordered[k - 1] != ordered[k]
    ensures !HasRepeat(ids) && ordered == AscendingIds(IdSet(ids))
  {
    forall i, j | 0 <= i < j < |ordered| ensures ordered[i] < ordered[j] {
      assert ordered[j - 1] != ordered[j - 1 + 1];
    }
    RepeatShared(ordered, ids);
    forall k ensures k in ordered <==> k in IdSet(ids) {
      assert k in ordered <==> k in multiset(ordered);
      assert k in ids <==> k in multiset(ids);
    }
    AscendingIdsUnique(ordered, AscendingIds(IdSet(ids)));
  }

  // ---- what an assignment guarantees ----

  // The result depends on who plays, not on the order they are named in.
  lemma OrderIrrelevant(a: seq<PlayerId>, b: seq<PlayerId>)
    requires multiset(a) == multiset(b)
    ensures HasRepeat(a) <==> HasRepeat(b)
    ensures AscendingIds(IdSet(a)) == AscendingIds(IdSet(b))
  {
    RepeatShared(a, b);
    forall k ensures k in IdSet(a) <==> k in IdSet(b) {
      assert k in a <==> k in multiset(a);
      assert k in b <==> k in multiset(b);
    }
    assert IdSet(a) == IdSet(b);
  }

  // The profiles handed out are one of the templates for that many players, rearranged.
  lemma SelectedIsTemplate(ordered: seq<PlayerId>, seed: bv64)
    requires ordered != []
    ensures var templates := ProfilesForCount(|ordered|);
      exists k :: 0 <= k < |templates| && multiset(Selected(ordered, seed)) == multiset(templates[k])
  {
    hide ProfilesForCount, TemplateIndex, Masked, Seeded, Shuffled;
    var templates := ProfilesForCount(|ordered|);
    ShufflePermutes(templates[TemplateIndex(seed, |templates|)], |ordered| - 1, Seeded(Masked(seed)));
  }

  function RoleCount(profiles: seq<Profile>, role: Role): nat {
    if profiles == [] then 0
    else RoleCount(profiles[..|profiles| - 1], role) + (if profiles[|profiles| - 1].role == role then 1 else 0)
  }

  lemma {:induction false} RoleCountUpdated(profiles: seq<Profile>, i: nat, p: Profile, role: Role)
    requires i < |profiles|
    ensures RoleCount(profiles[i := p], role) ==
      RoleCount(profiles, role) - (if profiles[i].role == role then 1 else 0) + (if p.role == role then 1 else 0)
  {
    var n := |profiles| - 1;
    if i < n {
      assert profiles[i := p][..n] == profiles[..n][i := p];
      RoleCountUpdated(profiles[..n], i, p, role);
    } else {
      assert profiles[i := p][..n] == profiles[..n];
    }
  }

  lemma {:induction false} ShuffleKeepsRoles(profiles: seq<Profile>, last: nat, state: bv64, role: Role)
    requires last < |profiles| || last == 0
    ensures RoleCount(Shuffled(profiles, last, state), role) == RoleCount(profiles, role)
    decreases last
  {
    hide NextState;
    if last > 0 {
      var j := Drawn(state, last + 1);
      RoleCountUpdated(profiles, last, profiles[j], role);
      RoleCountUpdated(profiles[last := profiles[j]], j, profiles[last], role);
      ShuffleKeepsRoles(Swapped(profiles, last, j), last - 1, NextState(state), role);
    }
  }

  ghost predicate OnlyAt(profiles: seq<Profile>, role: Role, i: nat) {
    i < |profiles| && forall j :: 0 <= j < |profiles| ==> (profiles[j].role == role <==> j == i)
  }

  lemma {:induction false} NoneCounts(profiles: seq<Profile>, role: Role)
    requires forall j :: 0 <= j < |profiles| ==> profiles[j].role != role
    ensures RoleCount(profiles, role) == 0
  {
    if profiles != [] { NoneCounts(profiles[..|profiles| - 1], role); }
  }

  lemma {:induction false} OnlyCounts(profiles: seq<Profile>, role: Role, i: nat)
    requires OnlyAt(profiles, role, i)
    ensures RoleCount(profiles, role) == 1
  {
    var n := |profiles| - 1;
    if i < n { OnlyCounts(profiles[..n], role, i); } else { NoneCounts(profiles[..n], role); }
  }

  lemma TemplateRoles(goodDeputies: nat, badDeputies: nat, members: nat, snitches: nat, neutrals: nat)
    ensures var t := Template(goodDeputies, badDeputies, members, snitches, neutrals);
      RoleCount(t, Warden) == 1 && RoleCount(t, GangLeader) == 1
  {
    var t := Template(goodDeputies, badDeputies, members, snitches, neutrals);
    OnlyCounts(t, Warden, 0);
    OnlyCounts(t, GangLeader, 1 + goodDeputies + badDeputies);
  }

  // A template has one warden and, from three players on, one gang leader.
  lemma TemplatesBalanced(count: nat, k: nat)
    requires count > 0 && k < |ProfilesForCount(count)|
    ensures RoleCount(ProfilesForCount(count)[k], Warden) == 1
    ensures count >= 3 ==> RoleCount(ProfilesForCount(count)[k], GangLeader) == 1
  {
    OnlyCounts([WARDEN], Warden, 0);
    OnlyCounts([WARDEN, GOOD_DEPUTY], Warden, 0);
    hide RoleCount, Template;
    forall g, b, m, s, n
      ensures RoleCount(Template(g, b, m, s, n), Warden) == 1 && RoleCount(Template(g, b, m, s, n), GangLeader) == 1
    {
      TemplateRoles(g, b, m, s, n);
    }
  }

  // Exactly one player is the warden and, from three players on, exactly one leads the gang.
  lemma OneWardenOneLeader(ordered: seq<PlayerId>, seed: bv64)
    requires ordered != []
    ensures RoleCount(Selected(ordered, seed), Warden) == 1
    ensures |ordered| >= 3 ==> RoleCount(Selected(ordered, seed), GangLeader) == 1
  {
    hide ProfilesForCount, TemplateIndex, Masked, Seeded, Shuffled, RoleCount;
    var templates := ProfilesForCount(|ordered|);
    var index := TemplateIndex(seed, |templates|);
    TemplatesBalanced(|ordered|, index);
    ShuffleKeepsRoles(templates[index], |ordered| - 1, Seeded(Masked(seed)), Warden);
    ShuffleKeepsRoles(templates[index], |ordered| - 1, Seeded(Masked(seed)), GangLeader);
  }
}
