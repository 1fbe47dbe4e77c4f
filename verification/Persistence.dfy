// Match history and account statistics (internal/server/persistence/store.go).

module Persistence {
  import opened State

  datatype PlayerRecord = PlayerRecord(player: PlayerId, name: nat, alive: bool, escaped: bool, winner: bool)

  // A finished match; `detail` stands for the fields nothing here looks into.
  datatype MatchRecord = MatchRecord(id: nat, endedAt: int, players: seq<PlayerRecord>, detail: nat)

  datatype Stats = Stats(played: nat, won: nat, escaped: nat, survived: nat, deaths: nat)

  datatype Account = Account(name: nat, createdAt: int, updatedAt: int, lastSeenAt: int, stats: Stats)

  datatype Error = InvalidPlayerId | InvalidMatchRecord
  datatype Result = Ok | Err(error: Error)

  const NO_STATS := Stats(0, 0, 0, 0, 0)

  // ---- the history, on values ----

  // Later end first; on a tie the greater id first.
  predicate Newer(a: MatchRecord, b: MatchRecord) {
    if a.endedAt == b.endedAt then a.id > b.id else a.endedAt > b.endedAt
  }

  function Filed(sorted: seq<MatchRecord>, r: MatchRecord): seq<MatchRecord> {
    if sorted == [] || Newer(r, sorted[0]) then [r] + sorted else [sorted[0]] + Filed(sorted[1..], r)
  }

  function NewestFirst(matches: seq<MatchRecord>): seq<MatchRecord> {
    if matches == [] then [] else Filed(NewestFirst(matches[..|matches| - 1]), matches[|matches| - 1])
  }

  function Take<T>(s: seq<T>, k: nat): (r: seq<T>)
    ensures |r| == if |s| <= k then |s| else k
  {
    if |s| <= k then s else s[..k]
  }

  // Cap 0 means no cap.
  function Capped(matches: seq<MatchRecord>, cap: nat): seq<MatchRecord> {
    if cap == 0 then matches else Take(matches, cap)
  }

  // The record replaces the first one of its id, or joins at the end.
  function Upserted(matches: seq<MatchRecord>, r: MatchRecord): seq<MatchRecord> {
    if matches == [] then [r]
    else if matches[0].id == r.id then [r] + matches[1..]
    else [matches[0]] + Upserted(matches[1..], r)
  }

  function Recorded(history: seq<MatchRecord>, r: MatchRecord, cap: nat): seq<MatchRecord> {
    Capped(NewestFirst(Upserted(history, r)), cap)
  }

  // ---- statistics, on values ----

  function Plus(a: Stats, b: Stats): Stats {
    Stats(a.played + b.played, a.won + b.won, a.escaped + b.escaped, a.survived + b.survived, a.deaths + b.deaths)
  }

  // What one appearance in a match adds.
  function Appearance(r: PlayerRecord): Stats {
    Stats(1, if r.winner then 1 else 0, if r.escaped then 1 else 0, if r.alive then 1 else 0, if r.alive then 0 else 1)
  }

  // The empty player id is not counted.
  function Counted(r: PlayerRecord, p: PlayerId): Stats {
    if p != 0 && r.player == p then Appearance(r) else NO_STATS
  }

  function Tally(players: seq<PlayerRecord>, p: PlayerId): Stats {
    if players == [] then NO_STATS
    else
      var n := |players| - 1;
      Plus(Tally(players[..n], p), Counted(players[n], p))
  }

  function StatsOf(history: seq<MatchRecord>, p: PlayerId): Stats {
    if history == [] then NO_STATS
    else Plus(StatsOf(history[..|history| - 1], p), Tally(history[|history| - 1].players, p))
  }

  function StatsIn(accounts: map<PlayerId, Account>, p: PlayerId): Stats {
    if p in accounts then accounts[p].stats else NO_STATS
  }

  method WithAppearance(before: Stats, r: PlayerRecord) returns (stats: Stats)
    ensures stats == Plus(before, Appearance(r))
  {
    stats := before.(played := before.played + 1);
    if r.winner { stats := stats.(won := stats.won + 1); }
    if r.escaped { stats := stats.(escaped := stats.escaped + 1); }
    if r.alive {
      stats := stats.(survived := stats.survived + 1);
    } else {
      stats := stats.(deaths := stats.deaths + 1);
    }
  }

  lemma PlusNothing(s: Stats)
    ensures Plus(s, NO_STATS) == s
  {
  }

  // `fallback` names a player without a name; 0 is the empty name.
  type Fallback = PlayerId -> nat

  // The account as observed once more; a zero creation time counts as unset.
  function Observed(accounts: map<PlayerId, Account>, p: PlayerId, name: nat, at: int,
      fallback: Fallback): (account: Account)
    ensures account.stats == StatsIn(accounts, p)
  {
    var a := if p in accounts then accounts[p] else Account(name, at, at, at, NO_STATS);
    var named := if name != 0 then name else a.name;
    Account(if named != 0 then named else fallback(p), if a.createdAt == 0 then at else a.createdAt,
            if at > a.updatedAt then at else a.updatedAt, if at > a.lastSeenAt then at else a.lastSeenAt, a.stats)
  }

  // ---- the store ----

  class Store {
    const cap: nat
    const fallback: Fallback
    var accounts: map<PlayerId, Account>
    var matches: seq<MatchRecord>

    // Everybody's statistics are the counts over the retained history.
    ghost predicate StatsExact()
      reads this
    {
      forall p :: StatsIn(accounts, p) == StatsOf(matches, p)
    }

    // Whoever appears in the retained history has an account.
    ghost predicate EveryoneKept()
      reads this
    {
      forall k, i :: 0 <= k < |matches| && 0 <= i < |matches[k].players| && matches[k].players[i].player != 0 ==>
        matches[k].players[i].player in accounts
    }

    // Opening a store on what was loaded.
    constructor (maxHistory: int, fallback: Fallback, accounts: map<PlayerId, Account>, loaded: seq<MatchRecord>)
      ensures cap == (if maxHistory < 0 then 0 else maxHistory) && this.fallback == fallback
      ensures matches == Capped(NewestFirst(loaded), cap)
      ensures StatsExact() && EveryoneKept()
    {
      cap, this.fallback := if maxHistory < 0 then 0 else maxHistory, fallback;
      this.accounts, matches := accounts, NewestFirst(loaded);
      new;
      EnforceHistoryCap();
      RecomputeStats();
    }

    method EnforceHistoryCap()
      modifies this`matches
      ensures matches == Capped(old(matches), cap)
    {
      if cap == 0 || |matches| <= cap { return; }
      matches := matches[..cap];
    }

    method ResetStats()
      modifies this`accounts
      ensures accounts.Keys == old(accounts).Keys
      ensures forall p :: StatsIn(accounts, p) == NO_STATS
    {
      var pending := accounts.Keys;
      while pending != {}
        invariant pending <= accounts.Keys == old(accounts).Keys
        invariant forall p :: p !in pending ==> StatsIn(accounts, p) == NO_STATS
        decreases |pending|
      {
        var p :| p in pending;
        accounts := accounts[p := accounts[p].(stats := NO_STATS)];
        pending := pending - {p};
      }
    }

    method CountAppearance(r: PlayerRecord, endedAt: int)
      modifies this`accounts
      ensures accounts.Keys >= old(accounts).Keys
      ensures forall p :: StatsIn(accounts, p) == Plus(StatsIn(old(accounts), p), Counted(r, p))
    {
      hide Observed, Plus, Appearance;
      forall p ensures Plus(StatsIn(accounts, p), NO_STATS) == StatsIn(accounts, p) {
        PlusNothing(StatsIn(accounts, p));
      }
      if r.player == 0 { return; }
      var account := Observed(accounts, r.player, r.name, endedAt, fallback);
      var stats := WithAppearance(account.stats, r);
      accounts := accounts[r.player := account.(stats := stats)];
    }

    method CountMatch(record: MatchRecord)
      modifies this`accounts
      ensures accounts.Keys >= old(accounts).Keys
      ensures forall p :: StatsIn(accounts, p) == Plus(StatsIn(old(accounts), p), Tally(record.players, p))
    {
      hide Counted, StatsIn;
      for j := 0 to |record.players|
        invariant accounts.Keys >= old(accounts).Keys
        invariant forall p :: StatsIn(accounts, p) == Plus(StatsIn(old(accounts), p), Tally(record.players[..j], p))
      {
        assert record.players[..j + 1][..j] == record.players[..j];
        CountAppearance(record.players[j], record.endedAt);
      }
      assert record.players[..|record.players|] == record.players;
    }

    method RecomputeStats()
      modifies this`accounts
      ensures StatsExact() && EveryoneKept() && accounts.Keys >= old(accounts).Keys
    {
      hide Tally, StatsIn;
      ResetStats();
      for i := 0 to |matches|
        invariant accounts.Keys >= old(accounts).Keys
        invariant forall p :: StatsIn(accounts, p) == StatsOf(matches[..i], p)
      {
        assert matches[..i + 1][..i] == matches[..i];
        CountMatch(matches[i]);
      }
      assert matches[..|matches|] == matches;
      forall k, i | 0 <= k < |matches| && 0 <= i < |matches[k].players| && matches[k].players[i].player != 0
        ensures matches[k].players[i].player in accounts
      {
        AppearanceKept(matches, k, i);
        CountedIsKept(accounts, matches[k].players[i].player);
      }
    }

    method RecordMatch(record: MatchRecord, finished: bool) returns (result: Result)
      requires StatsExact()
      modifies this
      ensures StatsExact() && (result == Ok ==> EveryoneKept()) && accounts.Keys >= old(accounts).Keys
      ensures record.id == 0 || !finished ==> result == Err(InvalidMatchRecord) && matches == old(matches)
      ensures record.id != 0 && finished ==> result == Ok && matches == Recorded(old(matches), record, cap)
    {
      hide StatsOf, NewestFirst, Capped;
      if record.id == 0 || !finished { return Err(InvalidMatchRecord); }
      var index := 0;
      while index < |matches| && matches[index].id != record.id
        invariant index <= |matches| && forall i :: 0 <= i < index ==> matches[i].id != record.id
      {
        index := index + 1;
      }
      UpsertedAt(matches, record, index);
      if index < |matches| { matches := matches[index := record]; } else { matches := matches + [record]; }
      SortMatches();
      EnforceHistoryCap();
      RecomputeStats();
      return Ok;
    }

    // sort.Slice with the order Newer.
    method SortMatches()
      modifies this`matches
      ensures matches == NewestFirst(old(matches))
    {
      var sorted: seq<MatchRecord> := [];
      for i := 0 to |matches|
        invariant matches == old(matches) && sorted == NewestFirst(matches[..i])
      {
        assert matches[..i + 1][..i] == matches[..i];
        sorted := Filed(sorted, matches[i]);
      }
      assert matches[..|matches|] == matches;
      matches := sorted;
    }

    method UpsertAccount(p: PlayerId, name: nat, at: int) returns (result: Result)
      requires StatsExact()
      modifies this`accounts
      ensures StatsExact()
      ensures p == 0 ==> result == Err(InvalidPlayerId) && accounts == old(accounts)
      ensures p != 0 ==> result == Ok && accounts == old(accounts)[p :=
        Observed(old(accounts), p, name, at, fallback).(updatedAt := at, lastSeenAt := at)]
    {
      hide StatsOf;
      if p == 0 { return Err(InvalidPlayerId); }
      var account := Observed(accounts, p, name, at, fallback);
      account := account.(updatedAt := at, lastSeenAt := at);
      if name != 0 { account := account.(name := name); }
      if account.name == 0 { account := account.(name := fallback(p)); }
      ghost var before := accounts;
      accounts := accounts[p := account];
      forall q ensures StatsIn(accounts, q) == StatsOf(matches, q) {
        assert StatsIn(before, q) == StatsOf(matches, q);
      }
      return Ok;
    }
  }

  lemma {:induction false} UpsertedAt(matches: seq<MatchRecord>, r: MatchRecord, index: nat)
    requires index <= |matches| && forall i :: 0 <= i < index ==> matches[i].id != r.id
    requires index < |matches| ==> matches[index].id == r.id
    ensures Upserted(matches, r) == if index < |matches| then matches[index := r] else matches + [r]
  {
    if matches != [] && index > 0 {
      UpsertedAt(matches[1..], r, index - 1);
    }
  }

  // ---- the order of the history ----

  ghost predicate StrictlyNewest(matches: seq<MatchRecord>) {
    forall i, j :: 0 <= i < j < |matches| ==> Newer(matches[i], matches[j])
  }

  ghost predicate UniqueIds(matches: seq<MatchRecord>) {
    forall i, j :: 0 <= i < j < |matches| ==> matches[i].id != matches[j].id
  }

  lemma {:induction false} FiledKeeps(sorted: seq<MatchRecord>, r: MatchRecord)
    ensures multiset(Filed(sorted, r)) == multiset(sorted) + multiset{r}
    ensures |Filed(sorted, r)| == |sorted| + 1
  {
    hide Newer;
    if sorted != [] && !Newer(r, sorted[0]) {
      FiledKeeps(sorted[1..], r);
      assert sorted == [sorted[0]] + sorted[1..];
    }
  }

  lemma {:induction false} NewestFirstKeeps(matches: seq<MatchRecord>)
    ensures multiset(NewestFirst(matches)) == multiset(matches)
  {
    hide Filed;
    if matches != [] {
      var n := |matches| - 1;
      NewestFirstKeeps(matches[..n]);
      FiledKeeps(NewestFirst(matches[..n]), matches[n]);
      assert matches == matches[..n] + [matches[n]];
    }
  }

  lemma NewerOrder(a: MatchRecord, b: MatchRecord, c: MatchRecord)
    ensures a.id != b.id && !Newer(a, b) ==> Newer(b, a)
    ensures Newer(a, b) && Newer(b, c) ==> Newer(a, c)
    ensures !Newer(a, a)
  {
  }

  ghost predicate Fresh(matches: seq<MatchRecord>, id: nat) {
    forall i :: 0 <= i < |matches| ==> matches[i].id != id
  }

  lemma FreshShuffled(a: seq<MatchRecord>, b: seq<MatchRecord>, id: nat)
    requires multiset(a) == multiset(b) && Fresh(a, id)
    ensures Fresh(b, id)
  {
    forall i | 0 <= i < |b| ensures b[i].id != id {
      assert b[i] in multiset(a);
    }
  }

  // A record of a new id takes its place in the order.
  lemma {:induction false} FiledOrdered(sorted: seq<MatchRecord>, r: MatchRecord)
    requires StrictlyNewest(sorted) && Fresh(sorted, r.id)
    ensures StrictlyNewest(Filed(sorted, r))
    ensures Filed(sorted, r)[0] == r || (sorted != [] && Filed(sorted, r)[0] == sorted[0])
  {
    hide Newer;
    if sorted != [] {
      NewerOrder(r, sorted[0], sorted[0]);
      if Newer(r, sorted[0]) {
        forall i | 0 < i < |sorted| ensures Newer(r, sorted[i]) { NewerOrder(r, sorted[0], sorted[i]); }
      } else {
        FiledOrdered(sorted[1..], r);
        FiledKeeps(sorted[1..], r);
        var tail := Filed(sorted[1..], r);
        forall i | 0 <= i < |tail| ensures Newer(sorted[0], tail[i]) {
          assert tail[i] in multiset(sorted[1..]) + multiset{r};
        }
      }
    }
  }

  lemma {:induction false} NewestFirstOrdered(matches: seq<MatchRecord>)
    requires UniqueIds(matches)
    ensures StrictlyNewest(NewestFirst(matches))
  {
    if matches != [] {
      var n := |matches| - 1;
      var sorted := NewestFirst(matches[..n]);
      NewestFirstOrdered(matches[..n]);
      NewestFirstKeeps(matches[..n]);
      assert Fresh(matches[..n], matches[n].id);
      hide UniqueIds, StrictlyNewest, Filed, Fresh;
      FreshShuffled(matches[..n], sorted, matches[n].id);
      FiledOrdered(sorted, matches[n]);
    }
  }

  lemma FirstIsNewest(a: seq<MatchRecord>, b: seq<MatchRecord>)
    requires StrictlyNewest(a) && StrictlyNewest(b) && multiset(a) == multiset(b) && a != [] && b != []
    ensures a[0] == b[0]
  {
    hide Newer;
    assert a[0] in multiset(b) && b[0] in multiset(a);
    var i :| 0 <= i < |b| && b[i] == a[0];
    var j :| 0 <= j < |a| && a[j] == b[0];
    NewerOrder(a[0], b[0], a[0]);
  }

  // There is one way to order records of distinct times and ids.
  lemma RestSame(a: seq<MatchRecord>, b: seq<MatchRecord>)
    requires a != [] && b != [] && a[0] == b[0] && multiset(a) == multiset(b)
    ensures multiset(a[1..]) == multiset(b[1..])
  {
    assert a == [a[0]] + a[1..] && b == [b[0]] + b[1..];
    assert multiset(a[1..]) == multiset(a) - multiset{a[0]};
    assert multiset(b[1..]) == multiset(b) - multiset{b[0]};
  }

  lemma {:induction false} OrderUnique(a: seq<MatchRecord>, b: seq<MatchRecord>)
    requires StrictlyNewest(a) && StrictlyNewest(b) && multiset(a) == multiset(b)
    ensures a == b
  {
    hide Newer;
    assert |multiset(a)| == |a| && |multiset(b)| == |b|;
    if a != [] {
      FirstIsNewest(a, b);
      RestSame(a, b);
      OrderUnique(a[1..], b[1..]);
      assert a == [a[0]] + a[1..] && b == [b[0]] + b[1..];
    }
  }

  // ---- what every history keeps ----

  ghost predicate Sound(history: seq<MatchRecord>) { StrictlyNewest(history) && UniqueIds(history) }

  lemma {:induction false} FiledUnique(sorted: seq<MatchRecord>, r: MatchRecord)
    requires UniqueIds(sorted) && Fresh(sorted, r.id)
    ensures UniqueIds(Filed(sorted, r))
  {
    hide Newer;
    if sorted != [] && !Newer(r, sorted[0]) {
      FiledUnique(sorted[1..], r);
      FiledKeeps(sorted[1..], r);
      var tail := Filed(sorted[1..], r);
      forall i | 0 <= i < |tail| ensures tail[i].id != sorted[0].id {
        assert tail[i] in multiset(sorted[1..]) + multiset{r};
      }
    }
  }

  lemma {:induction false} NewestFirstSound(matches: seq<MatchRecord>)
    requires UniqueIds(matches)
    ensures Sound(NewestFirst(matches))
  {
    NewestFirstOrdered(matches);
    if matches != [] {
      var n := |matches| - 1;
      NewestFirstSound(matches[..n]);
      NewestFirstKeeps(matches[..n]);
      FreshShuffled(matches[..n], NewestFirst(matches[..n]), matches[n].id);
      hide StrictlyNewest, Filed, UniqueIds;
      FiledUnique(NewestFirst(matches[..n]), matches[n]);
    }
  }

  lemma {:induction false} UpsertedIds(matches: seq<MatchRecord>, r: MatchRecord, id: nat)
    requires Fresh(matches, id) && r.id != id
    ensures Fresh(Upserted(matches, r), id)
  {
    if matches != [] && matches[0].id != r.id {
      UpsertedIds(matches[1..], r, id);
    }
  }

  lemma {:induction false} UpsertedUnique(matches: seq<MatchRecord>, r: MatchRecord)
    requires UniqueIds(matches)
    ensures UniqueIds(Upserted(matches, r))
  {
    if matches != [] && matches[0].id != r.id {
      UpsertedUnique(matches[1..], r);
      UpsertedIds(matches[1..], r, matches[0].id);
    }
  }

  lemma CappedSound(matches: seq<MatchRecord>, cap: nat)
    requires Sound(matches)
    ensures Sound(Capped(matches, cap)) && (cap > 0 ==> |Capped(matches, cap)| <= cap)
  {
  }

  // Recording keeps the history in strict order of end time and id, without a repeated id, and
  // within the cap, whatever is recorded or recorded again.
  lemma RecordedSound(history: seq<MatchRecord>, r: MatchRecord, cap: nat)
    requires UniqueIds(history)
    ensures Sound(Recorded(history, r, cap)) && (cap > 0 ==> |Recorded(history, r, cap)| <= cap)
  {
    hide Sound, UniqueIds, NewestFirst, Upserted, Capped;
    UpsertedUnique(history, r);
    NewestFirstSound(Upserted(history, r));
    CappedSound(NewestFirst(Upserted(history, r)), cap);
  }

  lemma SortedStays(history: seq<MatchRecord>)
    requires Sound(history)
    ensures NewestFirst(history) == history
  {
    NewestFirstOrdered(history);
    NewestFirstKeeps(history);
    OrderUnique(NewestFirst(history), history);
  }

  lemma TakeFirst<T>(first: T, rest: seq<T>, k: nat)
    requires k > 0
    ensures Take([first] + rest, k) == [first] + Take(rest, k - 1)
    ensures Take(Take(rest, k), k - 1) == Take(rest, k - 1)
  {
  }

  // Filing into the newest k and keeping k is filing into everything and keeping k.
  lemma {:induction false} TakeFiled(sorted: seq<MatchRecord>, r: MatchRecord, k: nat)
    ensures Take(Filed(Take(sorted, k), r), k) == Take(Filed(sorted, r), k)
  {
    hide Newer;
    if sorted != [] && k > 0 {
      var first, rest := sorted[0], sorted[1..];
      assert sorted == [first] + rest;
      TakeFirst(first, rest, k);
      if Newer(r, first) {
        TakeFirst(r, sorted, k);
        TakeFirst(r, Take(sorted, k), k);
      } else {
        TakeFiled(rest, r, k - 1);
        TakeFirst(first, Filed(rest, r), k);
        TakeFirst(first, Filed(Take(rest, k - 1), r), k);
        assert ([first] + Take(rest, k - 1))[1..] == Take(rest, k - 1);
        hide Take;
      }
    }
  }

  lemma CappedFiled(sorted: seq<MatchRecord>, r: MatchRecord, cap: nat)
    ensures Capped(Filed(Capped(sorted, cap), r), cap) == Capped(Filed(sorted, r), cap)
  {
    if cap > 0 { TakeFiled(sorted, r, cap); }
  }

  // A record of a new id is filed into the history and the history cut.
  lemma RecordedNew(history: seq<MatchRecord>, r: MatchRecord, cap: nat)
    requires Sound(history) && Fresh(history, r.id)
    ensures Recorded(history, r, cap) == Capped(Filed(history, r), cap)
  {
    hide Sound, Capped, Filed;
    UpsertedAt(history, r, |history|);
    SortedStays(history);
    assert (history + [r])[..|history|] == history;
  }

  function RecordAll(rs: seq<MatchRecord>, cap: nat): seq<MatchRecord> {
    if rs == [] then [] else Recorded(RecordAll(rs[..|rs| - 1], cap), rs[|rs| - 1], cap)
  }

  lemma CappedFresh(matches: seq<MatchRecord>, cap: nat, id: nat)
    requires Fresh(matches, id)
    ensures Fresh(Capped(matches, cap), id)
  {
  }

  // Recording distinct matches one by one leaves the newest of all of them, in order.
  lemma {:induction false} HistoryIsNewest(rs: seq<MatchRecord>, cap: nat)
    requires UniqueIds(rs)
    ensures RecordAll(rs, cap) == Capped(NewestFirst(rs), cap)
  {
    if rs != [] {
      var n := |rs| - 1;
      var sorted := NewestFirst(rs[..n]);
      HistoryIsNewest(rs[..n], cap);
      NewestFirstSound(rs[..n]);
      NewestFirstKeeps(rs[..n]);
      FreshShuffled(rs[..n], sorted, rs[n].id);
      CappedSound(sorted, cap);
      CappedFresh(sorted, cap, rs[n].id);
      hide Sound, Fresh, Capped, Recorded, Filed, UniqueIds;
      RecordedNew(Capped(sorted, cap), rs[n], cap);
      CappedFiled(sorted, rs[n], cap);
    }
  }

  // So the order they are recorded in does not matter.
  lemma RecordedInAnyOrder(a: seq<MatchRecord>, b: seq<MatchRecord>, cap: nat)
    requires UniqueIds(a) && UniqueIds(b) && multiset(a) == multiset(b)
    ensures RecordAll(a, cap) == RecordAll(b, cap)
  {
    HistoryIsNewest(a, cap);
    HistoryIsNewest(b, cap);
    NewestFirstOrdered(a);
    NewestFirstOrdered(b);
    NewestFirstKeeps(a);
    NewestFirstKeeps(b);
    OrderUnique(NewestFirst(a), NewestFirst(b));
  }

  lemma CutIsOlder(sorted: seq<MatchRecord>, r: MatchRecord, cap: nat)
    requires Sound(sorted) && r in sorted && r !in Capped(sorted, cap)
    ensures Fresh(Capped(sorted, cap), r.id) && cap > 0 && |Capped(sorted, cap)| == cap
    ensures forall i :: 0 <= i < |Capped(sorted, cap)| ==> Newer(Capped(sorted, cap)[i], r)
  {
    hide Newer;
    var k :| 0 <= k < |sorted| && sorted[k] == r;
    assert forall m :: 0 <= m < |Capped(sorted, cap)| ==> Capped(sorted, cap)[m] == sorted[m];
  }

  // Whatever is retained is newer than whatever is not.
  lemma RetainedAreNewest(rs: seq<MatchRecord>, cap: nat, kept: MatchRecord, cut: MatchRecord)
    requires UniqueIds(rs) && kept in RecordAll(rs, cap) && cut in rs && cut !in RecordAll(rs, cap)
    ensures Newer(kept, cut)
  {
    hide *;
    HistoryIsNewest(rs, cap);
    NewestFirstSound(rs);
    NewestFirstKeeps(rs);
    assert cut in multiset(NewestFirst(rs));
    CutIsOlder(NewestFirst(rs), cut, cap);
  }

  // ---- recording again ----

  lemma {:induction false} UpsertSame(matches: seq<MatchRecord>, r: MatchRecord)
    requires UniqueIds(matches) && r in matches
    ensures Upserted(matches, r) == matches
  {
    if matches[0].id != r.id {
      assert r in matches[1..];
      UpsertSame(matches[1..], r);
    } else {
      var i :| 0 <= i < |matches| && matches[i] == r;
      assert i == 0;
    }
  }

  lemma {:induction false} FiledLast(sorted: seq<MatchRecord>, r: MatchRecord)
    requires forall i :: 0 <= i < |sorted| ==> Newer(sorted[i], r)
    ensures Filed(sorted, r) == sorted + [r]
  {
    hide Newer;
    if sorted != [] {
      NewerOrder(sorted[0], r, sorted[0]);
      FiledLast(sorted[1..], r);
    }
  }

  lemma {:induction false} UpsertedHas(matches: seq<MatchRecord>, r: MatchRecord)
    ensures r in Upserted(matches, r)
  {
    if matches != [] && matches[0].id != r.id {
      UpsertedHas(matches[1..], r);
      assert Upserted(matches, r)[1..] == Upserted(matches[1..], r);
    }
  }

  // Recording the same match twice is recording it once.
  lemma RecordedTwice(history: seq<MatchRecord>, r: MatchRecord, cap: nat)
    requires UniqueIds(history)
    ensures Recorded(Recorded(history, r, cap), r, cap) == Recorded(history, r, cap)
  {
    var sorted := NewestFirst(Upserted(history, r));
    var once := Capped(sorted, cap);
    RecordedSound(history, r, cap);
    UpsertedUnique(history, r);
    NewestFirstSound(Upserted(history, r));
    hide UniqueIds, StrictlyNewest, Upserted, NewestFirst;
    if r in once {
      UpsertSame(once, r);
      SortedStays(once);
      CappedTwice(sorted, cap);
    } else {
      UpsertedHas(history, r);
      NewestFirstKeeps(Upserted(history, r));
      assert r in multiset(sorted);
      CutIsOlder(sorted, r, cap);
      RecordedNew(once, r, cap);
      FiledLast(once, r);
    }
  }

  lemma CappedTwice(matches: seq<MatchRecord>, cap: nat)
    ensures Capped(Capped(matches, cap), cap) == Capped(matches, cap)
  {
  }

  // ---- the statistics add up ----

  lemma {:induction false} TallyBalanced(players: seq<PlayerRecord>, p: PlayerId)
    ensures var t := Tally(players, p); t.survived + t.deaths == t.played && t.won <= t.played && t.escaped <= t.played
  {
    if players != [] { TallyBalanced(players[..|players| - 1], p); }
  }

  // Everyone who appears in a match has it counted.
  lemma {:induction false} AppearanceCounts(players: seq<PlayerRecord>, i: nat)
    requires i < |players| && players[i].player != 0
    ensures Tally(players, players[i].player).played > 0
  {
    if i < |players| - 1 { AppearanceCounts(players[..|players| - 1], i); }
  }

  lemma {:induction false} AppearanceKept(history: seq<MatchRecord>, k: nat, i: nat)
    requires k < |history| && i < |history[k].players| && history[k].players[i].player != 0
    ensures StatsOf(history, history[k].players[i].player).played > 0
  {
    if k < |history| - 1 {
      AppearanceKept(history[..|history| - 1], k, i);
    } else {
      AppearanceCounts(history[k].players, i);
    }
  }

  lemma CountedIsKept(accounts: map<PlayerId, Account>, p: PlayerId)
    requires StatsIn(accounts, p).played > 0
    ensures p in accounts
  {
  }

  // Survived and died add up to played, for everyone.
  lemma {:induction false} StatsBalanced(history: seq<MatchRecord>, p: PlayerId)
    ensures var s := StatsOf(history, p);
      s.survived + s.deaths == s.played && s.won <= s.played && s.escaped <= s.played
  {
    if history != [] {
      StatsBalanced(history[..|history| - 1], p);
      TallyBalanced(history[|history| - 1].players, p);
    }
  }
}
