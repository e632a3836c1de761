/** The moderation function's dead-letter queue (internal/moderation/dlq.go):
    listing it and redriving its events, against a queue and a function whose
    every call may fail, before or after it takes effect.

    A message received stays hidden for the rest of the command, which is what
    the visibility timeouts are chosen for, and a receive returns nothing only
    when no message is visible, which is what its long poll is for. */
module DeadLetterQueue {
  import opened Wrappers

  // keys is None for a body that doesn't parse.
  datatype Message = Message(payload: string, keys: Option<seq<string>>)

  // receipt is the handle of the message an event was received from.
  datatype FailedEvent = FailedEvent(receipt: nat, payload: string, keys: seq<string>) {
    predicate HasKey(key: string) {
      key in keys
    }
  }

  datatype Invocation = Invocation(receipt: nat, payload: string, succeeded: bool)

  datatype Snapshot = Snapshot(messages: map<nat, Message>, hidden: set<nat>, invocations: seq<Invocation>)

  datatype Failure = Receiving | Parsing | Releasing | Redriving(released: bool)

  // The function ran on the message's own payload, and succeeded.
  predicate Redriven(s: Snapshot, receipt: nat, m: Message) {
    exists i :: 0 <= i < |s.invocations| && s.invocations[i] == Invocation(receipt, m.payload, true)
  }

  // Every message of from is still queued, or was redriven.
  ghost predicate Conserves(from: map<nat, Message>, s: Snapshot) {
    forall id :: id in from ==>
      if id in s.messages then s.messages[id] == from[id] else Redriven(s, id, from[id])
  }

  predicate Matches(m: Message, key: string) {
    m.keys.Some? && (key == "" || key in m.keys.value)
  }

  // The events received so far stand for distinct hidden messages of from.
  ghost predicate Received(evs: seq<FailedEvent>, from: Snapshot) {
    && (forall i, j :: 0 <= i < j < |evs| ==> evs[i].receipt != evs[j].receipt)
    && forall i :: 0 <= i < |evs| ==>
         && evs[i].receipt in from.messages && evs[i].receipt !in from.hidden
         && from.messages[evs[i].receipt] == Message(evs[i].payload, Some(evs[i].keys))
  }

  function Receipts(evs: seq<FailedEvent>): set<nat> {
    set i | 0 <= i < |evs| :: evs[i].receipt
  }

  lemma ReceiptsGrow(before: seq<FailedEvent>, evs: seq<FailedEvent>, receipts: seq<nat>)
    requires |evs| == |before| + |receipts| && evs[..|before|] == before
    requires forall j :: 0 <= j < |receipts| ==> evs[|before| + j].receipt == receipts[j]
    ensures Receipts(evs) == Receipts(before) + (set r | r in receipts)
  {
    forall r
      ensures r in Receipts(evs) <==> r in Receipts(before) || r in receipts
    {
      if r in Receipts(evs) {
        var i :| 0 <= i < |evs| && evs[i].receipt == r;
        if i < |before| {
          assert before[i] == evs[i];
        } else {
          assert evs[|before| + (i - |before|)].receipt == receipts[i - |before|];
        }
      }
      if r in Receipts(before) {
        var i :| 0 <= i < |before| && before[i].receipt == r;
        assert evs[i] == before[i];
      }
      if r in receipts {
        var j :| 0 <= j < |receipts| && receipts[j] == r;
        assert evs[|before| + j].receipt == r;
      }
    }
  }

  // A message isn't a dead-lettered event.
  predicate Unreadable(messages: map<nat, Message>) {
    exists id :: id in messages && messages[id].keys.None?
  }

  class Dlq {
    var messages: map<nat, Message>
    var hidden: set<nat>
    // The function's invocations, and the state after every call: what a caller
    // could have seen at any point.
    ghost var invocations: seq<Invocation>
    ghost var trace: seq<Snapshot>
    // The number of calls that failed.
    ghost var failures: nat

    constructor (messages: map<nat, Message>)
      ensures Now() == Snapshot(messages, {}, []) && trace == [Now()]
    {
      this.messages, this.hidden, this.invocations := messages, {}, [];
      this.trace, this.failures := [Snapshot(messages, {}, [])], 0;
    }

    ghost function Now(): Snapshot
      reads this`messages, this`hidden, this`invocations
    {
      Snapshot(messages, hidden, invocations)
    }

    // ---- the queue's and the function's calls ----

    // Up to ten visible messages, hidden from now on.
    method ReceiveMessage() returns (ok: bool, receipts: seq<nat>)
      modifies this
      ensures messages == old(messages) && invocations == old(invocations)
      ensures trace == old(trace) + [Now()]
      ensures forall i, j :: 0 <= i < j < |receipts| ==> receipts[i] != receipts[j]
      ensures forall r :: r in receipts ==> r in messages && r !in old(hidden)
      ensures ok ==> hidden == old(hidden) + (set r | r in receipts)
      ensures ok && receipts == [] ==> messages.Keys <= hidden
      ensures old(hidden) <= hidden
      ensures failures == old(failures) + if ok then 0 else 1
    {
      receipts := [];
      ok := *;
      var reached: bool := *;
      if ok || reached {
        var limit: nat := *;
        var visible := messages.Keys - hidden;
        while visible != {} && |receipts| < 10 && (receipts == [] || |receipts| < limit)
          invariant visible == messages.Keys - hidden - (set r | r in receipts)
          invariant forall i, j :: 0 <= i < j < |receipts| ==> receipts[i] != receipts[j]
          invariant forall r :: r in receipts ==> r in messages && r !in hidden
          decreases visible
        {
          var r :| r in visible;
          receipts := receipts + [r];
          visible := visible - {r};
        }
        assert receipts == [] ==> forall id :: id in messages && id !in hidden ==> id in visible;
        hidden := hidden + (set r | r in receipts);
      }
      trace := trace + [Now()];
      failures := failures + if ok then 0 else 1;
    }

    // Invoke and its FunctionError: an error may hide a run that succeeded.
    method Invoke(ev: FailedEvent) returns (ok: bool)
      modifies this`invocations, this`trace, this`failures
      ensures trace == old(trace) + [Now()]
      ensures ok ==> invocations == old(invocations) + [Invocation(ev.receipt, ev.payload, true)]
      ensures invocations == old(invocations)
        || (exists s :: invocations == old(invocations) + [Invocation(ev.receipt, ev.payload, s)])
      ensures failures == old(failures) + if ok then 0 else 1
    {
      var ran: bool := *;
      var succeeded: bool := *;
      var answered: bool := *;
      if ran {
        invocations := invocations + [Invocation(ev.receipt, ev.payload, succeeded)];
      }
      trace := trace + [Now()];
      ok := ran && succeeded && answered;
      failures := failures + if ok then 0 else 1;
    }

    method DeleteMessage(receipt: nat) returns (ok: bool)
      modifies this
      ensures invocations == old(invocations)
      ensures trace == old(trace) + [Now()]
      ensures (messages == old(messages) - {receipt} && hidden == old(hidden) - {receipt})
        || (!ok && messages == old(messages) && hidden == old(hidden))
      ensures failures == old(failures) + if ok then 0 else 1
    {
      ok := *;
      var reached: bool := *;
      if ok || reached {
        messages, hidden := messages - {receipt}, hidden - {receipt};
      }
      trace := trace + [Now()];
      failures := failures + if ok then 0 else 1;
    }

    // ChangeMessageVisibility with a timeout of 0.
    method ShowMessage(receipt: nat) returns (ok: bool)
      modifies this
      ensures messages == old(messages) && invocations == old(invocations)
      ensures trace == old(trace) + [Now()]
      ensures hidden == old(hidden) - {receipt} || (!ok && hidden == old(hidden))
      ensures failures == old(failures) + if ok then 0 else 1
    {
      ok := *;
      var reached: bool := *;
      if ok || reached {
        hidden := hidden - {receipt};
      }
      trace := trace + [Now()];
      failures := failures + if ok then 0 else 1;
    }

    // ---- the commands ----

    // Every state from n on conserves from's messages.
    ghost predicate ConservedSince(n: nat, from: map<nat, Message>)
      reads this`messages, this`hidden, this`invocations, this`trace
    {
      && n <= |trace|
      && Conserves(from, Now())
      && forall i :: n <= i < |trace| ==> Conserves(from, trace[i])
    }

    // receiveAll: every message that is visible, each hidden from then on.
    method ReceiveAll() returns (failed: Option<Failure>, evs: seq<FailedEvent>)
      modifies this
      ensures messages == old(messages) && invocations == old(invocations)
      ensures old(trace) <= trace && ConservedSince(|old(trace)|, old(messages))
      ensures Received(evs, old(Now()))
      ensures failed.Some? ==> failed.value.Receiving? || failed.value.Parsing?
      ensures failed.None? ==> hidden == old(hidden) + Receipts(evs) && messages.Keys <= hidden
      ensures failures >= old(failures)
      ensures failed.Some? ==> if failed.value.Parsing? then Unreadable(old(messages)) else failures > old(failures)
    {
      evs := [];
      while true
        invariant messages == old(messages) && invocations == old(invocations)
        invariant old(trace) <= trace && ConservedSince(|old(trace)|, old(messages))
        invariant Received(evs, old(Now()))
        invariant hidden == old(hidden) + Receipts(evs) && failures == old(failures)
        decreases messages.Keys - hidden
      {
        ghost var before, unseen := evs, hidden;
        var ok, receipts := ReceiveMessage();
        if !ok {
          return Some(Receiving), evs;
        }
        if receipts == [] {
          return None, evs;
        }
        assert receipts[0] in receipts && receipts[0] in messages.Keys - unseen;
        ghost var seen := hidden;
        for i := 0 to |receipts|
          invariant |evs| == |before| + i && evs[..|before|] == before
          invariant forall j :: 0 <= j < i ==> evs[|before| + j].receipt == receipts[j]
          invariant Received(evs, old(Now()))
          invariant hidden == seen && messages == old(messages)
        {
          var m := messages[receipts[i]];
          if m.keys.None? {
            return Some(Parsing), evs;
          }
          forall j | 0 <= j < |evs|
            ensures evs[j].receipt != receipts[i]
          {
            if j < |before| {
              assert evs[j] == before[j] && before[j].receipt in Receipts(before);
            } else {
              assert evs[|before| + (j - |before|)].receipt == receipts[j - |before|];
            }
          }
          evs := evs + [FailedEvent(receipts[i], m.payload, m.keys.value)];
        }
        ReceiptsGrow(before, evs, receipts);
      }
    }

    // release: ends the hiding of evs one by one, and stops at the first failure.
    method Release(evs: seq<FailedEvent>) returns (ok: bool)
      modifies this
      ensures messages == old(messages) && invocations == old(invocations)
      ensures old(trace) <= trace
      ensures forall i :: |old(trace)| <= i < |trace| ==>
        trace[i].messages == old(messages) && trace[i].invocations == old(invocations)
      ensures ok ==> hidden == old(hidden) - Receipts(evs)
      ensures failures >= old(failures) && (!ok ==> failures > old(failures))
    {
      for i := 0 to |evs|
        invariant messages == old(messages) && invocations == old(invocations)
        invariant old(trace) <= trace
        invariant forall i :: |old(trace)| <= i < |trace| ==>
          trace[i].messages == old(messages) && trace[i].invocations == old(invocations)
        invariant hidden == old(hidden) - Receipts(evs[..i]) && failures == old(failures)
      {
        ok := ShowMessage(evs[i].receipt);
        if !ok {
          return;
        }
        assert Receipts(evs[..i + 1]) == Receipts(evs[..i]) + {evs[i].receipt};
      }
      assert evs[..|evs|] == evs;
      ok := true;
    }

    /** List returns every visible event and consumes none: at no point is a
        message missing, and a nil return leaves them all visible. */
    method List() returns (failed: Option<Failure>, evs: seq<FailedEvent>)
      modifies this
      ensures messages == old(messages) && invocations == old(invocations)
      ensures ConservedSince(|old(trace)|, old(messages))
      ensures failed.None? ==> hidden == old(hidden)
      ensures failed.None? ==> Received(evs, old(Now())) && Receipts(evs) == messages.Keys - hidden
      ensures failures >= old(failures)
      ensures failed.Some? ==> if failed.value.Parsing? then Unreadable(old(messages)) else failures > old(failures)
    {
      failed, evs := ReceiveAll();
      if failed.Some? {
        return;
      }
      ghost var n := |trace|;
      var ok := Release(evs);
      failed := if ok then None else Some(Releasing);
    }

    // redrive: one event. Only a successful invocation lets it off the queue.
    method RedriveOne(ev: FailedEvent, ghost from: map<nat, Message>, ghost n: nat) returns (ok: bool)
      requires ConservedSince(n, from)
      requires ev.receipt in from && from[ev.receipt].payload == ev.payload && ev.receipt in messages
      modifies this
      ensures ConservedSince(n, from) && old(trace) <= trace
      ensures old(invocations) <= invocations <= old(invocations) + [Invocation(ev.receipt, ev.payload, true)]
        || (!ok && invocations == old(invocations) + [Invocation(ev.receipt, ev.payload, false)])
      ensures (messages == old(messages) - {ev.receipt} && hidden == old(hidden) - {ev.receipt})
        || (!ok && messages == old(messages) && hidden == old(hidden))
      ensures failures >= old(failures) && (!ok ==> failures > old(failures))
    {
      ok := Invoke(ev);
      assert Conserves(from, Now()) by {
        KeepsRedriven(old(Now()), Now(), from);
      }
      if !ok {
        return;
      }
      ghost var s := Now();
      assert s.invocations[|s.invocations| - 1] == Invocation(ev.receipt, from[ev.receipt].payload, true);
      ok := DeleteMessage(ev.receipt);
      assert Conserves(from, Now()) by {
        KeepsRedriven(s, Now(), from);
      }
    }

    // The first i of evs were redriven or shown again; the rest are still hidden.
    ghost predicate RedrivenUpTo(evs: seq<FailedEvent>, i: nat, key: string, from: Snapshot, n: nat)
      requires i <= |evs|
      reads this`messages, this`hidden, this`invocations, this`trace
    {
      && ConservedSince(n, from.messages)
      && hidden == from.hidden + Receipts(evs[i..])
      && Runs(from, invocations, evs, i, key)
      && forall id :: id in messages <==> id in from.messages && !Redrives(evs, i, key, id)
    }

    // An event not asked for goes back on the queue.
    method SkipNext(evs: seq<FailedEvent>, i: nat, key: string, ghost from: Snapshot, ghost n: nat) returns (ok: bool)
      requires i < |evs| && Received(evs, from) && RedrivenUpTo(evs, i, key, from, n)
      requires key != "" && !evs[i].HasKey(key)
      modifies this
      ensures old(trace) <= trace && ConservedSince(n, from.messages)
      ensures messages == old(messages) && invocations == old(invocations) && Runs(from, invocations, evs, i + 1, key)
      ensures ok ==> RedrivenUpTo(evs, i + 1, key, from, n)
      ensures failures >= old(failures) && (!ok ==> failures > old(failures))
    {
      ReceiptsTail(evs, i);
      RunsGrow(from, invocations, evs, i, i + 1, key);
      RedrivesNext(evs, i, key);
      ok := Release([evs[i]]);
      assert Conserves(from.messages, old(Now()));
    }

    // After a failure, the event and the rest go back on the queue.
    method GiveBack(evs: seq<FailedEvent>, i: nat, ghost from: Snapshot, ghost n: nat) returns (ok: bool)
      requires i < |evs| && Received(evs, from) && ConservedSince(n, from.messages)
      requires hidden + {evs[i].receipt} == from.hidden + Receipts(evs[i..])
      modifies this
      ensures old(trace) <= trace && ConservedSince(n, from.messages)
      ensures messages == old(messages) && invocations == old(invocations)
      ensures ok ==> hidden == from.hidden
      ensures failures >= old(failures) && (!ok ==> failures > old(failures))
    {
      ReceiptsTail(evs, i);
      assert forall r :: r in Receipts(evs[i..]) ==> r !in from.hidden;
      ok := Release(evs[i..]);
      assert Conserves(from.messages, old(Now()));
    }

    // A matching event is redriven, or it and the rest go back on the queue, unless
    // that fails as well.
    method RedriveNext(evs: seq<FailedEvent>, i: nat, key: string, ghost from: Snapshot, ghost n: nat)
        returns (failed: Option<Failure>)
      requires i < |evs| && Received(evs, from) && RedrivenUpTo(evs, i, key, from, n)
      requires key == "" || evs[i].HasKey(key)
      modifies this
      ensures old(trace) <= trace && ConservedSince(n, from.messages)
      ensures messages.Keys <= old(messages).Keys && Runs(from, invocations, evs, i + 1, key)
      ensures old(invocations) <= invocations && |invocations| <= |old(invocations)| + 1
      ensures failed.None? && old(invocations) < invocations ==> invocations[|old(invocations)|].succeeded
      ensures failed.None? ==> RedrivenUpTo(evs, i + 1, key, from, n)
      ensures failed.Some? ==> failed.value.Redriving? && failures > old(failures)
      ensures failed == Some(Redriving(true)) ==> hidden == from.hidden
      ensures failed == Some(Redriving(false)) ==> failures >= old(failures) + 2
      ensures failures >= old(failures)
    {
      ReceiptsTail(evs, i);
      RedrivesNext(evs, i, key);
      assert evs[i].receipt in messages;
      var ok := RedriveOne(evs[i], from.messages, n);
      RunsNext(from, old(invocations), invocations, evs, i, key);
      if ok {
        assert hidden == from.hidden + Receipts(evs[i + 1..]);
        assert forall id :: id in messages <==> id in old(messages) && id != evs[i].receipt;
        return None;
      }
      var shown := GiveBack(evs, i, from, n);
      return Some(Redriving(shown));
    }

    // Redrive's loop.
    method RedriveEvents(evs: seq<FailedEvent>, key: string, ghost from: Snapshot, ghost n: nat)
        returns (failed: Option<Failure>)
      requires Received(evs, from) && RedrivenUpTo(evs, 0, key, from, n) && invocations == from.invocations
      modifies this
      ensures ConservedSince(n, from.messages) && messages.Keys <= old(messages).Keys
      ensures Runs(from, invocations, evs, |evs|, key) && AllButLastSucceeded(from, invocations)
      ensures failed.None? ==> RedrivenUpTo(evs, |evs|, key, from, n)
      ensures failed == Some(Redriving(true)) ==> hidden == from.hidden
      ensures failed == Some(Redriving(false)) ==> failures >= old(failures) + 2
      ensures failures >= old(failures)
      ensures failed.Some? && !failed.value.Redriving? ==> failed.value.Releasing? && key != ""
      ensures failed.Some? ==> failures > old(failures)
    {
      hide RedrivenUpTo, Runs, ConservedSince, Received;
      Untouched(evs, key, from, n);
      for i := 0 to |evs|
        invariant ConservedSince(n, from.messages) && messages.Keys <= old(messages).Keys
        invariant Runs(from, invocations, evs, i, key)
        invariant RedrivenUpTo(evs, i, key, from, n) && failures >= old(failures)
        invariant |from.invocations| <= |invocations|
        invariant forall k :: |from.invocations| <= k < |invocations| ==> invocations[k].succeeded
      {
        if key != "" && !evs[i].HasKey(key) {
          var ok := SkipNext(evs, i, key, from, n);
          failed := if ok then None else Some(Releasing);
        } else {
          failed := RedriveNext(evs, i, key, from, n);
        }
        if failed.Some? {
          RunsGrow(from, invocations, evs, i + 1, |evs|, key);
          return;
        }
      }
      return None;
    }

    lemma Untouched(evs: seq<FailedEvent>, key: string, from: Snapshot, n: nat)
      requires RedrivenUpTo(evs, 0, key, from, n)
      ensures ConservedSince(n, from.messages) && Runs(from, invocations, evs, 0, key)
    {
    }

    /** Redrive invokes the function with each visible event, or only those for
        key, and deletes it once that succeeds, stopping at the first failure.
        Wherever it stops, every message was conserved at every point, none was
        invoked twice, and none after a failed run. A nil return deleted exactly the
        matching events and left the others visible. A failed redrive gives every
        remaining event back, unless a second call failed. */
    method Redrive(key: string) returns (failed: Option<Failure>)
      modifies this
      ensures ConservedSince(|old(trace)|, old(messages))
      ensures messages.Keys <= old(messages).Keys
      ensures exists evs :: Received(evs, old(Now())) && Runs(old(Now()), invocations, evs, |evs|, key)
      ensures AllButLastSucceeded(old(Now()), invocations)
      ensures failed.None? ==> hidden == old(hidden)
      ensures failed.None? ==> forall id :: id in messages <==>
        id in old(messages) && (id in old(hidden) || !Matches(old(messages)[id], key))
      ensures failed == Some(Redriving(true)) ==> hidden == old(hidden)
      ensures failed == Some(Redriving(false)) ==> failures >= old(failures) + 2
      ensures failed == Some(Releasing) ==> key != ""
      ensures failures >= old(failures)
      ensures failed.Some? ==> if failed.value.Parsing? then Unreadable(old(messages)) else failures > old(failures)
    {
      ghost var from, n := Now(), |trace|;
      var evs;
      failed, evs := ReceiveAll();
      if failed.Some? {
        assert Runs(from, invocations, evs, |evs|, key);
        return;
      }
      failed := RedriveEvents(evs, key, from, n);
      assert evs[|evs|..] == [];
    }
  }

  // The event of message id is among the first i that match key.
  ghost predicate Redrives(evs: seq<FailedEvent>, i: nat, key: string, id: nat)
    requires i <= |evs|
  {
    exists j :: 0 <= j < i && evs[j].receipt == id && (key == "" || evs[j].HasKey(key))
  }

  predicate RunOf(run: Invocation, ev: FailedEvent, key: string) {
    run.receipt == ev.receipt && run.payload == ev.payload && (key == "" || ev.HasKey(key))
  }

  ghost predicate RunOfAny(run: Invocation, evs: seq<FailedEvent>, i: nat, key: string)
    requires i <= |evs|
  {
    exists j :: 0 <= j < i && RunOf(run, evs[j], key)
  }

  // The invocations since from are of matching events among the first i, each
  // on its own payload, and at most one of each.
  ghost predicate Runs(from: Snapshot, invocations: seq<Invocation>, evs: seq<FailedEvent>, i: nat, key: string)
    requires i <= |evs|
  {
    && from.invocations <= invocations
    && (forall k :: |from.invocations| <= k < |invocations| ==> RunOfAny(invocations[k], evs, i, key))
    && forall k, l :: |from.invocations| <= k < l < |invocations| ==> invocations[k].receipt != invocations[l].receipt
  }

  // No invocation since from follows a failed one.
  predicate AllButLastSucceeded(from: Snapshot, invocations: seq<Invocation>) {
    forall k :: |from.invocations| <= k < |invocations| - 1 ==> invocations[k].succeeded
  }

  lemma RedrivesNext(evs: seq<FailedEvent>, i: nat, key: string)
    requires i < |evs|
    ensures forall id :: Redrives(evs, i + 1, key, id) <==>
      Redrives(evs, i, key, id) || (evs[i].receipt == id && (key == "" || evs[i].HasKey(key)))
  {
    forall id
      ensures Redrives(evs, i + 1, key, id) <==>
        Redrives(evs, i, key, id) || (evs[i].receipt == id && (key == "" || evs[i].HasKey(key)))
    {
      if Redrives(evs, i + 1, key, id) {
        var j :| 0 <= j < i + 1 && evs[j].receipt == id && (key == "" || evs[j].HasKey(key));
        assert j < i ==> Redrives(evs, i, key, id);
      }
    }
  }

  lemma RunsGrow(
      from: Snapshot, invocations: seq<Invocation>, evs: seq<FailedEvent>, i: nat, i': nat, key: string)
    requires i <= i' <= |evs| && Runs(from, invocations, evs, i, key)
    ensures Runs(from, invocations, evs, i', key)
  {
    forall k | |from.invocations| <= k < |invocations|
      ensures RunOfAny(invocations[k], evs, i', key)
    {
      assert RunOfAny(invocations[k], evs, i, key);
    }
  }

  lemma RunsSnoc(
      from: Snapshot, invocations: seq<Invocation>, evs: seq<FailedEvent>, i: nat, key: string, run: Invocation)
    requires i < |evs| && Runs(from, invocations, evs, i, key) && RunOf(run, evs[i], key)
    requires forall j, k :: 0 <= j < k < |evs| ==> evs[j].receipt != evs[k].receipt
    ensures Runs(from, invocations + [run], evs, i + 1, key)
  {
    RunsGrow(from, invocations, evs, i, i + 1, key);
    var all := invocations + [run];
    forall k | |from.invocations| <= k < |all|
      ensures RunOfAny(all[k], evs, i + 1, key)
      ensures k < |invocations| ==> all[k].receipt != run.receipt
    {
      if k < |invocations| {
        assert RunOfAny(invocations[k], evs, i, key);
      } else {
        assert RunOf(all[k], evs[i], key);
      }
    }
  }

  // The next event was invoked once more, or not at all.
  lemma RunsNext(from: Snapshot, before: seq<Invocation>, after: seq<Invocation>,
      evs: seq<FailedEvent>, i: nat, key: string)
    requires i < |evs| && Runs(from, before, evs, i, key) && (key == "" || evs[i].HasKey(key))
    requires forall j, k :: 0 <= j < k < |evs| ==> evs[j].receipt != evs[k].receipt
    requires before <= after <= before + [Invocation(evs[i].receipt, evs[i].payload, true)]
      || after == before + [Invocation(evs[i].receipt, evs[i].payload, false)]
    ensures Runs(from, after, evs, i + 1, key)
  {
    if after == before {
      RunsGrow(from, after, evs, i, i + 1, key);
    } else {
      var last := after[|before|];
      assert after == before + [last];
      RunsSnoc(from, before, evs, i, key, last);
    }
  }

  // Invocations only accumulate, so what was redriven stays so.
  lemma KeepsRedriven(s: Snapshot, s': Snapshot, from: map<nat, Message>)
    requires Conserves(from, s) && s.invocations <= s'.invocations
    requires forall id :: id in s.messages && id !in s'.messages && id in from ==> Redriven(s', id, from[id])
    requires forall id :: id in s'.messages ==> id in s.messages && s'.messages[id] == s.messages[id]
    ensures Conserves(from, s')
  {
    forall id | id in from && id !in s'.messages
      ensures Redriven(s', id, from[id])
    {
      if id !in s.messages {
        var i :| 0 <= i < |s.invocations| && s.invocations[i] == Invocation(id, from[id].payload, true);
        assert s'.invocations[i] == s.invocations[i];
      }
    }
  }

  lemma ReceiptsTail(evs: seq<FailedEvent>, i: nat)
    requires i < |evs|
    requires forall j, k :: 0 <= j < k < |evs| ==> evs[j].receipt != evs[k].receipt
    ensures Receipts(evs[i..]) == Receipts(evs[i + 1..]) + {evs[i].receipt}
    ensures evs[i].receipt !in Receipts(evs[i + 1..])
    ensures Receipts([evs[i]]) == {evs[i].receipt}
  {
    assert [evs[i]][0] == evs[i];
    var tail := evs[i + 1..];
    assert forall j :: 0 <= j < |tail| ==> tail[j] == evs[i + 1 + j];
    forall r
      ensures r in Receipts(evs[i..]) <==> r in Receipts(evs[i + 1..]) || r == evs[i].receipt
    {
      if r in Receipts(evs[i..]) {
        var j :| 0 <= j < |evs[i..]| && evs[i..][j].receipt == r;
        if j > 0 {
          assert evs[i + 1..][j - 1] == evs[i..][j];
        }
      }
      if r in Receipts(evs[i + 1..]) {
        var j :| 0 <= j < |evs[i + 1..]| && evs[i + 1..][j].receipt == r;
        assert evs[i..][j + 1] == evs[i + 1..][j];
      }
      assert evs[i..][0] == evs[i];
    }
  }
}
