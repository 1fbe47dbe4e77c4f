// The client's prediction engine: its queue of unacknowledged inputs and its frame history
// (internal/client/prediction/engine.go, internal/gamecore/determinism/reconciliation.go).

module Prediction {
  import opened InputQueue

  // ---- the pending queue, on values ----

  predicate Predicted(c: Command, local: PlayerId) {
    c.player == local && c.clientSeq != 0 && IsContinuous(c.kind)
  }

  predicate HasSeq(pending: seq<Command>, clientSeq: nat) {
    exists i :: 0 <= i < |pending| && pending[i].clientSeq == clientSeq
  }

  function Recorded(pending: seq<Command>, commands: seq<Command>, local: PlayerId): seq<Command> {
    if commands == [] then pending
    else
      var n := |commands| - 1;
      var before := Recorded(pending, commands[..n], local);
      if Predicted(commands[n], local) && !HasSeq(before, commands[n].clientSeq) then before + [commands[n]] else before
  }

  function Above(commands: seq<Command>, ack: nat): seq<Command> {
    if commands == [] then []
    else
      var n := |commands| - 1;
      Above(commands[..n], ack) + (if commands[n].clientSeq <= ack then [] else [commands[n]])
  }

  function LastOf<T>(s: seq<T>, limit: nat): (r: seq<T>)
    ensures |r| == if |s| <= limit then |s| else limit
  {
    if |s| <= limit then s else s[|s| - limit..]
  }

  // ---- frames ----

  datatype Frame<S> = Frame(at: int, state: S)

  ghost predicate TimeSorted<S>(history: seq<Frame<S>>) {
    forall i, j :: 0 <= i < j < |history| ==> history[i].at <= history[j].at
  }

  // What the renderer shows: nothing, one frame, or a blend of two.
  datatype Shown<S> = Nothing | One(frame: Frame<S>) | Blend(previous: Frame<S>, next: Frame<S>, alpha: real)

  datatype Config = Config(buffer: int, historyLimit: int, pendingLimit: int) {
    function Normalized(): (c: Config)
      ensures c.buffer >= 0 && c.historyLimit > 1 && c.pendingLimit > 0
    {
      Config(if buffer < 0 then 0 else buffer, if historyLimit <= 1 then 64 else historyLimit,
             if pendingLimit <= 0 then 256 else pendingLimit)
    }
  }

  ghost predicate Earliest<S>(frames: seq<Frame<S>>, k: nat) {
    k < |frames| && forall i :: 0 <= i < |frames| ==> frames[k].at <= frames[i].at
  }

  // The frame joins the history in time order; over the limit, an earliest frame goes.
  ghost predicate Joined<S>(limit: int, before: seq<Frame<S>>, frame: Frame<S>, after: seq<Frame<S>>) {
    if |before| < limit then multiset(after) == multiset(before) + multiset{frame}
    else
      var all := before + [frame];
      exists k: nat :: Earliest(all, k) && multiset(after) + multiset{all[k]} == multiset(before) + multiset{frame}
  }

  // Nothing of an empty history, a lone frame always, the ends of the history beyond it; in
  // between, a blend of two neighbours of distinct times that bracket the moment.
  ghost predicate Shows<S>(history: seq<Frame<S>>, target: int, shown: Shown<S>) {
    if history == [] then shown == Nothing
    else if |history| == 1 || target <= history[0].at then shown == One(history[0])
    else if target >= history[|history| - 1].at then shown == One(history[|history| - 1])
    else exists k: nat :: 1 <= k < |history| && BlendsAt(history, target, shown, k)
  }

  ghost predicate BlendsAt<S>(history: seq<Frame<S>>, target: int, shown: Shown<S>, k: nat)
    requires 1 <= k < |history|
  {
    && history[k - 1].at < target <= history[k].at
    && shown == Blend(history[k - 1], history[k],
                      (target - history[k - 1].at) as real / (history[k].at - history[k - 1].at) as real)
  }

  // A blend weighs its two frames by parts that make a whole.
  lemma BlendWeight<S>(history: seq<Frame<S>>, target: int, shown: Shown<S>)
    requires Shows(history, target, shown) && shown.Blend?
    ensures 0.0 < shown.alpha <= 1.0
    ensures shown.alpha * (shown.next.at - shown.previous.at) as real == (target - shown.previous.at) as real
  {
  }

  lemma SplitSame<T>(s: seq<T>, k: nat, x: T)
    requires k <= |s|
    ensures multiset(s[..k] + [x] + s[k..]) == multiset(s) + multiset{x}
  {
    assert s == s[..k] + s[k..];
  }

  method SortedWith<S>(history: seq<Frame<S>>, frame: Frame<S>) returns (full: seq<Frame<S>>)
    requires TimeSorted(history)
    ensures TimeSorted(full) && |full| == |history| + 1
    ensures multiset(full) == multiset(history) + multiset{frame}
  {
    var k := |history|;
    while k > 0 && history[k - 1].at > frame.at
      invariant 0 <= k <= |history|
      invariant forall i :: k <= i < |history| ==> history[i].at > frame.at
    {
      k := k - 1;
    }
    full := history[..k] + [frame] + history[k..];
    SplitSame(history, k, frame);
  }

  lemma NothingCut<S>(limit: int, before: seq<Frame<S>>, frame: Frame<S>, full: seq<Frame<S>>)
    requires |full| == |before| + 1 && |full| <= limit
    requires multiset(full) == multiset(before) + multiset{frame}
    ensures Joined(limit, before, frame, full)
  {
  }

  lemma EarliestCut<S>(limit: int, before: seq<Frame<S>>, frame: Frame<S>, full: seq<Frame<S>>)
    requires TimeSorted(full) && |full| == |before| + 1 && |before| == limit > 0
    requires multiset(full) == multiset(before) + multiset{frame}
    ensures Joined(limit, before, frame, full[1..])
  {
    assert full == [full[0]] + full[1..];
    var all := before + [frame];
    assert multiset(all) == multiset(full);
    forall i | 0 <= i < |all| ensures full[0].at <= all[i].at {
      assert all[i] in multiset(all);
      assert all[i] in full;
    }
    assert full[0] in multiset(all);
    var k :| 0 <= k < |all| && all[k] == full[0];
    assert Earliest(all, k);
  }

  method DropAckedInputs(pending: seq<Command>, lastProcessed: nat) returns (filtered: seq<Command>)
    ensures filtered == Above(pending, lastProcessed)
  {
    filtered := [];
    for i := 0 to |pending|
      invariant filtered == Above(pending[..i], lastProcessed)
    {
      assert pending[..i + 1][..i] == pending[..i];
      if pending[i].clientSeq <= lastProcessed { continue; }
      filtered := filtered + [pending[i]];
    }
    assert pending[..|pending|] == pending;
  }

  class Engine<S> {
    const local: PlayerId
    const config: Config
    var history: seq<Frame<S>>
    var pending: seq<Command>

    ghost predicate Valid()
      reads this
    {
      && config.historyLimit > 1 && config.pendingLimit > 0
      && TimeSorted(history) && |history| <= config.historyLimit
    }

    constructor (local: PlayerId, config: Config)
      ensures Valid() && history == [] && pending == []
      ensures this.local == local && this.config == config.Normalized()
    {
      this.local, this.config, history, pending := local, config.Normalized(), [], [];
    }

    method TrimPending()
      requires config.pendingLimit > 0
      modifies this`pending
      ensures pending == LastOf(old(pending), config.pendingLimit)
    {
      if |pending| <= config.pendingLimit { return; }
      pending := pending[|pending| - config.pendingLimit..];
    }

    method RecordLocalCommands(commands: seq<Command>)
      requires Valid()
      modifies this`pending
      ensures Valid()
      ensures pending == if commands == [] then old(pending)
                         else LastOf(Recorded(old(pending), commands, local), config.pendingLimit)
    {
      if |commands| == 0 { return; }
      for i := 0 to |commands|
        invariant pending == Recorded(old(pending), commands[..i], local)
      {
        assert commands[..i + 1][..i] == commands[..i];
        if commands[i].player != local || commands[i].clientSeq == 0 { continue; }
        if !IsContinuous(commands[i].kind) { continue; }
        if HasSeq(pending, commands[i].clientSeq) { continue; }
        pending := pending + [commands[i]];
      }
      assert commands[..|commands|] == commands;
      TrimPending();
    }

    // ack 0: the snapshot acknowledges nothing of this player's.
    method AcceptAuthoritativeSnapshot(state: S, receivedAt: int, ack: nat)
      requires Valid()
      modifies this
      ensures Valid() && Joined(config.historyLimit, old(history), Frame(receivedAt, state), history)
      ensures pending == LastOf(if ack != 0 then Above(old(pending), ack) else old(pending), config.pendingLimit)
    {
      InsertFrame(state, receivedAt);
      if ack != 0 { pending := DropAckedInputs(pending, ack); }
      TrimPending();
    }

    method InsertFrame(state: S, receivedAt: int)
      requires Valid()
      modifies this`history
      ensures Valid() && Joined(config.historyLimit, old(history), Frame(receivedAt, state), history)
    {
      hide Joined;
      var full := SortedWith(history, Frame(receivedAt, state));
      ghost var before := history;
      history := full;
      if |history| > config.historyLimit {
        var cut := |history| - config.historyLimit;
        history := history[cut..];
        EarliestCut(config.historyLimit, before, Frame(receivedAt, state), full);
      } else {
        NothingCut(config.historyLimit, before, Frame(receivedAt, state), full);
      }
    }

    // Which frames show a moment, `config.buffer` behind now.
    method Interpolate(now: int) returns (shown: Shown<S>)
      requires Valid()
      ensures Shows(history, now - config.buffer, shown)
    {
      if |history| == 0 { return Nothing; }
      if |history| == 1 { return One(history[0]); }
      var target := now - config.buffer;
      var first, last := history[0], history[|history| - 1];
      if target <= first.at { return One(first); }
      if target >= last.at { return One(last); }
      shown := One(last);
      for index := 1 to |history|
        invariant history[index - 1].at < target
      {
        var prev, next := history[index - 1], history[index];
        if target < prev.at || target > next.at { continue; }
        var window := next.at - prev.at;
        // The window is positive here, and some pair brackets the target: neither the guard
        // against an empty window nor the fallback after the loop can be reached.
        assert window > 0;
        shown := Blend(prev, next, (target - prev.at) as real / window as real);
        assert BlendsAt(history, target, shown, index);
        return;
      }
      assert false;
    }
  }

  // ---- whole runs ----

  datatype Event = Record(commands: seq<Command>) | Ack(seqNo: nat)

  function PendingAfter(pending: seq<Command>, event: Event, local: PlayerId, limit: nat): seq<Command> {
    match event
    case Record(commands) => if commands == [] then pending else LastOf(Recorded(pending, commands, local), limit)
    case Ack(seqNo) => LastOf(if seqNo != 0 then Above(pending, seqNo) else pending, limit)
  }

  function Run(events: seq<Event>, local: PlayerId, limit: nat): seq<Command> {
    if events == [] then []
    else PendingAfter(Run(events[..|events| - 1], local, limit), events[|events| - 1], local, limit)
  }

  // The move and aim commands of a batch.
  function Chosen(commands: seq<Command>, local: PlayerId): seq<Command> {
    if commands == [] then []
    else
      var n := |commands| - 1;
      Chosen(commands[..n], local) + (if Predicted(commands[n], local) then [commands[n]] else [])
  }

  // All move and aim commands recorded, and the highest acknowledgement received.
  function AllChosen(events: seq<Event>, local: PlayerId): seq<Command> {
    if events == [] then []
    else
      var last := events[|events| - 1];
      AllChosen(events[..|events| - 1], local) + (if last.Record? then Chosen(last.commands, local) else [])
  }

  function HighestAck(events: seq<Event>): nat {
    if events == [] then 0
    else
      var before, last := HighestAck(events[..|events| - 1]), events[|events| - 1];
      if last.Ack? && last.seqNo > before then last.seqNo else before
  }

  // What no acknowledgement has removed, were there no limit.
  function Unacked(events: seq<Event>, local: PlayerId): seq<Command> {
    if events == [] then []
    else
      var before, last := Unacked(events[..|events| - 1], local), events[|events| - 1];
      match last
      case Record(commands) => before + Chosen(commands, local)
      case Ack(seqNo) => if seqNo == 0 then before else Above(before, seqNo)
  }

  ghost predicate Increasing(commands: seq<Command>) {
    forall i, j :: 0 <= i < j < |commands| ==> commands[i].clientSeq < commands[j].clientSeq
  }

  lemma AppendTail<T>(s: seq<T>, n: nat, k: nat)
    requires n + 1 == |s| && k <= n
    ensures s[..n][k..] + [s[n]] == s[k..]
  {
  }

  lemma {:induction false} AboveFrom(commands: seq<Command>, ack: nat, k: nat)
    requires k <= |commands| && forall i :: 0 <= i < |commands| ==> (commands[i].clientSeq <= ack <==> i < k)
    ensures Above(commands, ack) == commands[k..]
  {
    if commands != [] {
      var n := |commands| - 1;
      if k == n + 1 {
        AboveFrom(commands[..n], ack, n);
      } else {
        AboveFrom(commands[..n], ack, k);
        AppendTail(commands, n, k);
      }
    }
  }

  lemma AboveSuffix(commands: seq<Command>, ack: nat) returns (k: nat)
    requires Increasing(commands)
    ensures k <= |commands| && Above(commands, ack) == commands[k..]
    ensures forall i :: 0 <= i < |commands| ==> (commands[i].clientSeq <= ack <==> i < k)
  {
    k := 0;
    while k < |commands| && commands[k].clientSeq <= ack
      invariant k <= |commands|
      invariant forall i :: 0 <= i < k ==> commands[i].clientSeq <= ack
    {
      k := k + 1;
    }
    AboveFrom(commands, ack, k);
  }

  lemma {:induction false} RecordedFresh(pending: seq<Command>, commands: seq<Command>, local: PlayerId)
    requires Increasing(pending + Chosen(commands, local))
    ensures Recorded(pending, commands, local) == pending + Chosen(commands, local)
  {
    if commands == [] {
      assert pending + [] == pending;
    } else {
      var n := |commands| - 1;
      var before, c := pending + Chosen(commands[..n], local), commands[n];
      if Predicted(c, local) {
        assert pending + Chosen(commands, local) == before + [c];
        PrefixIncreasing(before, [c]);
        forall i | 0 <= i < |before| ensures before[i].clientSeq < c.clientSeq {
          assert (before + [c])[i].clientSeq < (before + [c])[|before|].clientSeq;
        }
      } else {
        assert Chosen(commands, local) == Chosen(commands[..n], local);
      }
      RecordedFresh(pending, commands[..n], local);
    }
  }

  lemma LastOfLonger<T>(s: seq<T>, more: seq<T>, limit: nat)
    ensures LastOf(LastOf(s, limit) + more, limit) == LastOf(s + more, limit)
  {
  }

  // In a suffix of an increasing list, the covered commands are the covered ones of the list
  // that the suffix still has.
  lemma CoveredInSuffix(s: seq<Command>, cut: nat, ack: nat, k: nat, l: nat)
    requires cut <= |s| && k <= |s| && l <= |s| - cut
    requires forall i :: 0 <= i < |s| ==> (s[i].clientSeq <= ack <==> i < k)
    requires forall i :: 0 <= i < |s| - cut ==> (s[cut..][i].clientSeq <= ack <==> i < l)
    ensures l == if k > cut then k - cut else 0
  {
    if l > 0 { assert s[cut..][l - 1] == s[cut + l - 1]; }
    if l < |s| - cut { assert s[cut..][l] == s[cut + l]; }
  }

  // What stays above the acknowledgement, in a list and in a suffix of it.
  lemma AboveInSuffix(s: seq<Command>, cut: nat, ack: nat) returns (k: nat, l: nat)
    requires Increasing(s) && cut <= |s|
    ensures k <= |s| && l == (if k > cut then k - cut else 0)
    ensures Above(s, ack) == s[k..] && Above(s[cut..], ack) == s[cut + l..]
  {
    hide Above;
    SuffixIncreasing(s, cut);
    k := AboveSuffix(s, ack);
    l := AboveSuffix(s[cut..], ack);
    hide Increasing;
    CoveredInSuffix(s, cut, ack, k, l);
    assert s[cut..][l..] == s[cut + l..];
  }

  lemma LastOfAbove(s: seq<Command>, ack: nat, limit: nat)
    requires Increasing(s)
    ensures LastOf(Above(LastOf(s, limit), ack), limit) == LastOf(Above(s, ack), limit)
  {
    var cut := if |s| <= limit then 0 else |s| - limit;
    assert LastOf(s, limit) == s[cut..];
    hide *;
    var k, l := AboveInSuffix(s, cut, ack);
    SameLast(s, cut, k, l, limit);
  }

  lemma SameLast<T>(s: seq<T>, cut: nat, k: nat, l: nat, limit: nat)
    requires cut == (if |s| <= limit then 0 else |s| - limit) && k <= |s|
    requires l == (if k > cut then k - cut else 0)
    ensures LastOf(s[cut + l..], limit) == LastOf(s[k..], limit)
  {
    if k <= cut {
      assert s[k..][cut - k..] == s[cut..];
    }
  }

  // Acknowledgements take away a prefix of what was recorded.
  lemma {:induction false} UnackedSuffix(events: seq<Event>, local: PlayerId) returns (k: nat)
    requires Increasing(AllChosen(events, local))
    ensures k <= |AllChosen(events, local)| && Unacked(events, local) == AllChosen(events, local)[k..]
  {
    if events == [] {
      k := 0;
    } else {
      var front, last := events[..|events| - 1], events[|events| - 1];
      var chosen := AllChosen(front, local);
      PrefixIncreasing(chosen, if last.Record? then Chosen(last.commands, local) else []);
      k := UnackedSuffix(front, local);
      if last.Ack? {
        assert AllChosen(events, local) == chosen;
        if last.seqNo != 0 {
          var m := AboveSuffix(chosen[k..], last.seqNo);
          assert chosen[k..][m..] == chosen[k + m..];
          k := k + m;
        }
      } else {
        assert chosen[k..] + Chosen(last.commands, local) == (chosen + Chosen(last.commands, local))[k..];
      }
    }
  }

  lemma PrefixIncreasing(a: seq<Command>, b: seq<Command>)
    requires Increasing(a + b)
    ensures Increasing(a)
  {
    forall i, j | 0 <= i < j < |a| ensures a[i].clientSeq < a[j].clientSeq {
      assert (a + b)[i].clientSeq < (a + b)[j].clientSeq;
    }
  }

  lemma SuffixIncreasing(s: seq<Command>, k: nat)
    requires Increasing(s) && k <= |s|
    ensures Increasing(s[k..])
  {
  }

  // With increasing client sequences, the pending queue is always the last `limit` of the
  // recorded commands that no later acknowledgement covers.
  lemma {:induction false} PendingIsLast(events: seq<Event>, local: PlayerId, limit: nat)
    requires Increasing(AllChosen(events, local))
    ensures Run(events, local, limit) == LastOf(Unacked(events, local), limit)
  {
    if events != [] {
      var front, last := events[..|events| - 1], events[|events| - 1];
      var chosen, unacked := AllChosen(front, local), Unacked(front, local);
      PrefixIncreasing(chosen, if last.Record? then Chosen(last.commands, local) else []);
      var k := UnackedSuffix(front, local);
      PendingIsLast(front, local, limit);
      SuffixIncreasing(chosen, k);
      hide Increasing, Recorded, Chosen, Above, LastOf, AllChosen;
      match last
      case Record(commands) =>
        RecordKeepsLast(chosen, k, commands, local, limit);
        NothingRecorded(unacked, local);
      case Ack(seqNo) =>
        LastOfAbove(unacked, seqNo, limit);
        LastOfLast(unacked, limit);
    }
  }

  lemma LastOfLast<T>(s: seq<T>, limit: nat)
    ensures LastOf(LastOf(s, limit), limit) == LastOf(s, limit)
  {
  }

  lemma NothingRecorded(unacked: seq<Command>, local: PlayerId)
    ensures unacked + Chosen([], local) == unacked
  {
  }

  lemma RecordKeepsLast(chosen: seq<Command>, k: nat, commands: seq<Command>, local: PlayerId, limit: nat)
    requires k <= |chosen| && Increasing(chosen + Chosen(commands, local))
    ensures LastOf(Recorded(LastOf(chosen[k..], limit), commands, local), limit)
         == LastOf(chosen[k..] + Chosen(commands, local), limit)
  {
    var unacked, more := chosen[k..], Chosen(commands, local);
    var cut := |unacked| - |LastOf(unacked, limit)|;
    assert (chosen + more)[k + cut..] == LastOf(unacked, limit) + more;
    SuffixIncreasing(chosen + more, k + cut);
    hide Increasing, Recorded, Chosen;
    RecordedFresh(LastOf(unacked, limit), commands, local);
    LastOfLonger(unacked, more, limit);
  }

  // ---- the highest acknowledgement ----

  // Acknowledgements only cover what was recorded before them.
  ghost predicate AcksFollow(events: seq<Event>, local: PlayerId) {
    forall k, i :: 0 <= k < |events| && events[k].Record? && 0 <= i < |Chosen(events[k].commands, local)| ==>
      Chosen(events[k].commands, local)[i].clientSeq > HighestAck(events[..k])
  }

  lemma {:induction false} AboveConcat(a: seq<Command>, b: seq<Command>, ack: nat)
    ensures Above(a + b, ack) == Above(a, ack) + Above(b, ack)
  {
    if b == [] {
      assert a + b == a;
    } else {
      AboveConcat(a, b[..|b| - 1], ack);
      assert (a + b)[..|a + b| - 1] == a + b[..|b| - 1];
    }
  }

  lemma {:induction false} AboveAll(s: seq<Command>, ack: nat)
    requires forall i :: 0 <= i < |s| ==> s[i].clientSeq > ack
    ensures Above(s, ack) == s
  {
    if s != [] { AboveAll(s[..|s| - 1], ack); }
  }

  lemma {:induction false} AboveTwice(s: seq<Command>, a: nat, b: nat)
    ensures Above(Above(s, a), b) == Above(s, if a < b then b else a)
  {
    if s != [] {
      var n := |s| - 1;
      AboveTwice(s[..n], a, b);
      AboveConcat(Above(s[..n], a), if s[n].clientSeq <= a then [] else [s[n]], b);
    }
  }

  lemma AcksFollowFront(events: seq<Event>, local: PlayerId)
    requires AcksFollow(events, local) && events != []
    ensures var n := |events| - 1;
      && AcksFollow(events[..n], local)
      && (events[n].Record? ==> forall i :: 0 <= i < |Chosen(events[n].commands, local)| ==>
           Chosen(events[n].commands, local)[i].clientSeq > HighestAck(events[..n]))
  {
    hide Chosen, HighestAck;
    var front := events[..|events| - 1];
    forall k | 0 <= k < |front| ensures front[..k] == events[..k] && front[k] == events[k] {
    }
  }

  lemma {:induction false} UnackedAboveHighest(events: seq<Event>, local: PlayerId)
    requires AcksFollow(events, local)
    ensures Unacked(events, local) == Above(AllChosen(events, local), HighestAck(events))
  {
    hide AcksFollow, Chosen;
    if events != [] {
      var front, last := events[..|events| - 1], events[|events| - 1];
      AcksFollowFront(events, local);
      UnackedAboveHighest(front, local);
      hide Above;
      match last
      case Record(commands) =>
        AboveConcat(AllChosen(front, local), Chosen(commands, local), HighestAck(front));
        AboveAll(Chosen(commands, local), HighestAck(front));
      case Ack(seqNo) =>
        AboveTwice(AllChosen(front, local), HighestAck(front), seqNo);
        assert AllChosen(front, local) + [] == AllChosen(front, local);
    }
  }

  // So the queue is exactly the last `limit` recorded move and aim commands above the highest
  // acknowledgement.
  lemma PendingAboveHighest(events: seq<Event>, local: PlayerId, limit: nat)
    requires Increasing(AllChosen(events, local)) && AcksFollow(events, local)
    ensures Run(events, local, limit) == LastOf(Above(AllChosen(events, local), HighestAck(events)), limit)
  {
    PendingIsLast(events, local, limit);
    UnackedAboveHighest(events, local);
  }
}
