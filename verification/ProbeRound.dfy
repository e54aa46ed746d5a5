/** One round of dependency probes: a goroutine per probe, joined before the
    failing names are collected in probe order. */
module ProbeRound {
  import opened Trace

  datatype Probe = Probe(name: string, pings: bool, observes: bool)

  /** One call of a probe's observer, with the index of the goroutine that made it. */
  datatype Observation = Observation(index: nat, name: string, err: Err)

  /** The indices of the failed probes, in probe order. */
  function FailingIndices(failed: seq<bool>): (indices: seq<nat>)
    ensures forall k :: 0 <= k < |indices| ==> indices[k] < |failed|
  {
    if failed == [] then []
    else
      var n := |failed| - 1;
      FailingIndices(failed[..n]) + if failed[n] then [n] else []
  }

  function NamesAt(probes: seq<Probe>, indices: seq<nat>): seq<string>
    requires forall k :: 0 <= k < |indices| ==> indices[k] < |probes|
  {
    seq(|indices|, k requires 0 <= k < |indices| => probes[indices[k]].name)
  }

  function FailingNames(probes: seq<Probe>, failed: seq<bool>): seq<string>
    requires |failed| == |probes|
  {
    NamesAt(probes, FailingIndices(failed))
  }

  /** The collected indices are exactly the failed ones, each once, ascending. */
  lemma {:induction false} FailingIndicesExact(failed: seq<bool>)
    ensures forall i: nat :: i in FailingIndices(failed) <==> i < |failed| && failed[i]
    ensures forall j, k :: 0 <= j < k < |FailingIndices(failed)| ==>
              FailingIndices(failed)[j] < FailingIndices(failed)[k]
  {
    if failed != [] {
      var n := |failed| - 1;
      FailingIndicesExact(failed[..n]);
      forall i: nat ensures i in FailingIndices(failed) <==> i < |failed| && failed[i] {
        assert i in FailingIndices(failed) <==> i in FailingIndices(failed[..n]) || (failed[n] && i == n);
      }
      var before := FailingIndices(failed[..n]);
      assert forall k :: 0 <= k < |before| ==> FailingIndices(failed)[k] == before[k];
    }
  }

  /** No name is reported exactly when no probe failed. */
  lemma NoNamesIffAllSucceeded(probes: seq<Probe>, failed: seq<bool>)
    requires |failed| == |probes|
    ensures FailingNames(probes, failed) == [] <==> forall i :: 0 <= i < |failed| ==> !failed[i]
  {
    FailingIndicesExact(failed);
    if i: nat :| i < |failed| && failed[i] {
      assert i in FailingIndices(failed);
    }
    if FailingIndices(failed) != [] {
      assert FailingIndices(failed)[0] in FailingIndices(failed);
    }
  }

  /** Which probes failed, by their outcomes. */
  function FailedOf(outcomes: seq<Err>): seq<bool> {
    seq(|outcomes|, i requires 0 <= i < |outcomes| => outcomes[i] != NoError)
  }

  /** An interleaving of n goroutines, each of which is scheduled twice: once for
      its ping and result store, once for its observer call and Done. */
  ghost predicate Interleaving(schedule: seq<nat>, n: nat) {
    && (forall t :: 0 <= t < |schedule| ==> schedule[t] < n)
    && (forall i: nat :: i < n ==> multiset(schedule)[i] == 2)
  }

  /** How often goroutine i called its observer. */
  function CallsBy(calls: seq<Observation>, i: nat): nat {
    if calls == [] then 0
    else CallsBy(calls[..|calls| - 1], i) + if calls[|calls| - 1].index == i then 1 else 0
  }

  lemma CallsBySnoc(calls: seq<Observation>, c: Observation)
    ensures forall i: nat :: CallsBy(calls + [c], i) == CallsBy(calls, i) + if c.index == i then 1 else 0
  {
    assert (calls + [c])[..|calls|] == calls;
  }

  lemma PrefixCounts(schedule: seq<nat>, t: nat)
    requires t < |schedule|
    ensures multiset(schedule[..t + 1]) == multiset(schedule[..t]) + multiset{schedule[t]}
    ensures multiset(schedule[..t])[schedule[t]] < multiset(schedule)[schedule[t]]
  {
    assert schedule[..t + 1] == schedule[..t] + [schedule[t]];
    assert schedule == schedule[..t + 1] + schedule[t + 1..];
  }

  /** How often each goroutine was scheduled. */
  ghost function Tally(schedule: seq<nat>, n: nat): seq<nat> {
    seq(n, i => multiset(schedule)[i])
  }

  lemma TallySnoc(schedule: seq<nat>, t: nat, n: nat)
    requires t < |schedule| && schedule[t] < n
    ensures var before := Tally(schedule[..t], n);
            Tally(schedule[..t + 1], n) == before[schedule[t] := before[schedule[t]] + 1]
  {
    PrefixCounts(schedule, t);
  }

  /** What the first t scheduled actions have done: results stored, observers called. */
  ghost predicate Progress(probes: seq<Probe>, outcomes: seq<Err>, done: multiset<nat>, failed: seq<bool>,
                           calls: seq<Observation>)
    requires |probes| == |outcomes| == |failed|
  {
    Results(outcomes, done, failed) && Called(probes, done, calls) && AllFaithful(probes, outcomes, calls)
  }

  ghost predicate Results(outcomes: seq<Err>, done: multiset<nat>, failed: seq<bool>)
    requires |outcomes| == |failed|
  {
    forall i: nat :: i < |failed| ==> failed[i] == (done[i] >= 1 && outcomes[i] != NoError)
  }

  ghost predicate Called(probes: seq<Probe>, done: multiset<nat>, calls: seq<Observation>) {
    forall i: nat :: i < |probes| ==> CallsBy(calls, i) == if done[i] >= 2 && probes[i].observes then 1 else 0
  }

  ghost predicate AllFaithful(probes: seq<Probe>, outcomes: seq<Err>, calls: seq<Observation>)
    requires |probes| == |outcomes|
  {
    forall k :: 0 <= k < |calls| ==> Faithful(probes, outcomes, calls[k])
  }

  ghost predicate Faithful(probes: seq<Probe>, outcomes: seq<Err>, c: Observation)
    requires |probes| == |outcomes|
  {
    c.index < |probes| && c.name == probes[c.index].name && c.err == outcomes[c.index]
  }

  lemma CalledStep(probes: seq<Probe>, done: multiset<nat>, calls: seq<Observation>, i: nat, c: Observation)
    requires i < |probes| && done[i] == 1 && c.index == i && Called(probes, done, calls)
    ensures Called(probes, done + multiset{i}, if probes[i].observes then calls + [c] else calls)
  {
    CallsBySnoc(calls, c);
    var later := if probes[i].observes then calls + [c] else calls;
    forall j: nat | j < |probes|
      ensures CallsBy(later, j) == if (done + multiset{i})[j] >= 2 && probes[j].observes then 1 else 0
    {
      assert (done + multiset{i})[j] == done[j] + if j == i then 1 else 0;
    }
  }

  lemma ResultsKept(outcomes: seq<Err>, done: multiset<nat>, failed: seq<bool>, i: nat)
    requires |outcomes| == |failed| && i < |failed| && done[i] >= 1 && Results(outcomes, done, failed)
    ensures Results(outcomes, done + multiset{i}, failed)
  {
    assert forall j: nat :: (done + multiset{i})[j] == done[j] + if j == i then 1 else 0;
  }

  lemma ObserveStep(probes: seq<Probe>, outcomes: seq<Err>, done: multiset<nat>, failed: seq<bool>,
                    calls: seq<Observation>, i: nat)
    requires |probes| == |outcomes| == |failed| && i < |failed|
    requires Progress(probes, outcomes, done, failed, calls)
    requires done[i] == 1
    ensures Progress(probes, outcomes, done + multiset{i}, failed,
                     if probes[i].observes then calls + [Observation(i, probes[i].name, outcomes[i])] else calls)
  {
    CalledStep(probes, done, calls, i, Observation(i, probes[i].name, outcomes[i]));
    ResultsKept(outcomes, done, failed, i);
  }

  lemma PingStep(probes: seq<Probe>, outcomes: seq<Err>, done: multiset<nat>, failed: seq<bool>,
                 calls: seq<Observation>, i: nat)
    requires |probes| == |outcomes| == |failed| && i < |failed|
    requires Progress(probes, outcomes, done, failed, calls)
    requires done[i] == 0
    ensures Progress(probes, outcomes, done + multiset{i}, failed[i := outcomes[i] != NoError], calls)
  {
    assert forall j: nat :: (done + multiset{i})[j] == done[j] + if j == i then 1 else 0;
  }

  /** One scheduled action: a goroutine's first is its ping, its second its observer call. */
  lemma ScheduledStep(probes: seq<Probe>, outcomes: seq<Err>, schedule: seq<nat>, t: nat, failed: seq<bool>,
                      calls: seq<Observation>, failed': seq<bool>, calls': seq<Observation>)
    requires |probes| == |outcomes| == |failed| && Interleaving(schedule, |probes|) && t < |schedule|
    requires Progress(probes, outcomes, multiset(schedule[..t]), failed, calls)
    requires var i := schedule[t];
             if Tally(schedule[..t], |probes|)[i] == 0 then
               failed' == failed[i := outcomes[i] != NoError] && calls' == calls
             else
               && failed' == failed
               && calls' == if probes[i].observes then calls + [Observation(i, probes[i].name, outcomes[i])] else calls
    ensures Progress(probes, outcomes, multiset(schedule[..t + 1]), failed', calls')
  {
    PrefixCounts(schedule, t);
    if multiset(schedule[..t])[schedule[t]] == 0 {
      PingStep(probes, outcomes, multiset(schedule[..t]), failed, calls, schedule[t]);
    } else {
      ObserveStep(probes, outcomes, multiset(schedule[..t]), failed, calls, schedule[t]);
    }
  }

  lemma NothingDone(probes: seq<Probe>, outcomes: seq<Err>, schedule: seq<nat>, failed: seq<bool>,
                    scheduled: seq<nat>)
    requires |probes| == |outcomes| == |failed| == |scheduled|
    requires forall i :: 0 <= i < |failed| ==> !failed[i] && scheduled[i] == 0
    ensures scheduled == Tally(schedule[..0], |probes|)
    ensures Progress(probes, outcomes, multiset(schedule[..0]), failed, [])
  {
  }

  /** A probe goroutine goes on: first it stores its result, then it calls its observer. */
  method TakeStep(probes: seq<Probe>, outcomes: seq<Err>, index: nat, scheduled: array<nat>, failed: array<bool>,
                  calls: seq<Observation>) returns (after: seq<Observation>)
    requires |probes| == |outcomes| == scheduled.Length == failed.Length && index < |probes|
    modifies scheduled, failed
    ensures scheduled[..] == old(scheduled[..])[index := old(scheduled[index]) + 1]
    ensures old(scheduled[index]) == 0 ==>
              failed[..] == old(failed[..])[index := outcomes[index] != NoError] && after == calls
    ensures old(scheduled[index]) != 0 ==>
              && failed[..] == old(failed[..])
              && after == if !probes[index].observes then calls
                          else calls + [Observation(index, probes[index].name, outcomes[index])]
  {
    after := calls;
    if scheduled[index] == 0 {
      failed[index] := outcomes[index] != NoError;
    } else if probes[index].observes {
      after := calls + [Observation(index, probes[index].name, outcomes[index])];
    }
    scheduled[index] := scheduled[index] + 1;
  }

  /** wait.Wait: every goroutine has stored its result and called its observer. */
  method ForkAndJoin(probes: seq<Probe>, outcomes: seq<Err>, schedule: seq<nat>)
    returns (failed: array<bool>, calls: seq<Observation>)
    requires |outcomes| == |probes| && Interleaving(schedule, |probes|)
    ensures failed.Length == |probes| && fresh(failed)
    ensures Progress(probes, outcomes, multiset(schedule), failed[..], calls)
  {
    failed := new bool[|probes|](i => false);
    var scheduled := new nat[|probes|](i => 0);
    calls := [];
    NothingDone(probes, outcomes, schedule, failed[..], scheduled[..]);
    for t := 0 to |schedule|
      invariant scheduled[..] == Tally(schedule[..t], |probes|)
      invariant Progress(probes, outcomes, multiset(schedule[..t]), failed[..], calls)
    {
      ghost var before, called := failed[..], calls;
      TallySnoc(schedule, t, |probes|);
      calls := TakeStep(probes, outcomes, schedule[t], scheduled, failed, calls);
      ScheduledStep(probes, outcomes, schedule, t, before, called, failed[..], calls);
    }
    assert schedule[..|schedule|] == schedule;
  }

  /** The collecting loop after the join. */
  method Collect(probes: seq<Probe>, failed: array<bool>) returns (names: seq<string>)
    requires failed.Length == |probes|
    ensures names == FailingNames(probes, failed[..])
  {
    names := [];
    for index := 0 to failed.Length
      invariant names == FailingNames(probes[..index], failed[..index])
    {
      assert failed[..index + 1][..index] == failed[..index];
      assert probes[..index + 1][..index] == probes[..index];
      if failed[index] {
        names := names + [probes[index].name];
      }
    }
    assert probes[..failed.Length] == probes && failed[..failed.Length] == failed[..];
  }

  /** For every interleaving of the goroutines, the round reports the failing names
      in probe order and calls every observer once, with that probe's error. */
  method RunProbes(probes: seq<Probe>, outcomes: seq<Err>, schedule: seq<nat>)
    returns (names: seq<string>, calls: seq<Observation>)
    requires |outcomes| == |probes| && Interleaving(schedule, |probes|)
    ensures names == FailingNames(probes, FailedOf(outcomes))
    ensures forall i: nat :: i < |probes| ==> CallsBy(calls, i) == if probes[i].observes then 1 else 0
    ensures forall k :: 0 <= k < |calls| ==> Faithful(probes, outcomes, calls[k])
  {
    var failed;
    failed, calls := ForkAndJoin(probes, outcomes, schedule);
    assert failed[..] == FailedOf(outcomes);
    names := Collect(probes, failed);
  }
}
