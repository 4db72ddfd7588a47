/** What Complete does outside, by counting in the log. */
module HandoverLog {
  import opened Results
  import opened HandoverCodec
  import opened HandoverWalk
  import opened HandoverCollect
  import opened HandoverSpec

  /** The order of the phases: clients are given objects, clients commit, link policies, releases. */
  function Phase(call: Call): nat {
    match call
    case Unmarshalled(_, _, _) => 0
    case Committed(_, _) => 1
    case PolicyForced(_) => 2
    case Freed(_) => 3
  }

  ghost predicate InPhases(log: seq<Call>) {
    forall i, j | 0 <= i < j < |log| :: Phase(log[i]) <= Phase(log[j])
  }

  /** Each of the `n` clients commits exactly once, in this role and in table order, and nothing else commits. */
  ghost predicate CommitsOnce(log: seq<Call>, n: nat, primary: bool) {
    && (forall c: nat | c < n :: multiset(log)[Committed(c, primary)] == 1)
    && (forall i | 0 <= i < |log| && log[i].Committed? :: log[i].client < n && log[i].primary == primary)
    && forall i, j | 0 <= i < j < |log| && log[i].Committed? && log[j].Committed? :: log[i].client < log[j].client
  }

  function Addresses(devs: seq<Dev>): (addrs: seq<nat>)
    ensures |addrs| == |devs| && forall k | 0 <= k < |devs| :: addrs[k] == devs[k].addr.addr
  {
    seq(|devs|, k requires 0 <= k < |devs| => devs[k].addr.addr)
  }

  /** The policy of an address is updated once for each device that has it, and only as primary. */
  ghost predicate PoliciesOnce(log: seq<Call>, devs: seq<Dev>, primary: bool) {
    forall addr: nat :: multiset(log)[PolicyForced(addr)] == if primary then multiset(Addresses(devs))[addr] else 0
  }

  // ---------------------------------------------------------------- the parts of the log

  /** Only calls of one phase. */
  ghost predicate Only(log: seq<Call>, phase: nat) {
    forall i | 0 <= i < |log| :: Phase(log[i]) == phase
  }

  lemma {:induction false} OnlyUnmarshals(table: Table, addr: nat, focused: bool, entries: seq<Entry>)
    ensures var r := Dispatch(table, addr, focused, entries); r.Ran? ==> Only(r.value.calls, 0)
  {
    if entries != [] {
      OnlyUnmarshals(table, addr, focused, entries[1..]);
      hide Owner;
    }
  }

  lemma {:induction false} AllOnlyUnmarshal(table: Table, devs: seq<Dev>)
    ensures var r := DispatchAll(table, devs); r.Ran? ==> Only(r.value.calls, 0)
  {
    hide Dispatch;
    if devs != [] {
      AllOnlyUnmarshal(table, devs[1..]);
      if InUse(devs[0]) {
        OnlyUnmarshals(table, devs[0].addr.addr, devs[0].focused, devs[0].part.list[..devs[0].part.free]);
      }
    }
  }

  lemma {:induction false} OnlyFrees(entries: seq<Entry>)
    ensures Only(Frees(entries), 3)
  {
    if entries != [] {
      OnlyFrees(entries[1..]);
    }
  }

  lemma {:induction false} AllOnlyFree(devs: seq<Dev>)
    ensures Only(AllFrees(devs), 3)
  {
    if devs != [] {
      AllOnlyFree(devs[1..]);
      if InUse(devs[0]) {
        OnlyFrees(devs[0].part.list[..devs[0].part.free]);
      }
    }
  }

  lemma {:induction false} CommitsAreOnce(n: nat, primary: bool)
    ensures Only(Commits(n, primary), 1) && CommitsOnce(Commits(n, primary), n, primary)
  {
    if n > 0 {
      CommitsAreOnce(n - 1, primary);
      assert Commits(n, primary) == Commits(n - 1, primary) + [Committed(n - 1, primary)];
      NotYet(Commits(n - 1, primary), n - 1, primary);
    }
  }

  lemma NotYet(log: seq<Call>, n: nat, primary: bool)
    requires CommitsOnce(log, n, primary)
    ensures multiset(log)[Committed(n, primary)] == 0
  {
    assert Committed(n, primary) !in log;
  }

  lemma {:induction false} PoliciesAreOnce(devs: seq<Dev>)
    ensures Only(Policies(devs), 2) && PoliciesOnce(Policies(devs), devs, true)
    decreases |devs|
  {
    if devs != [] {
      var front, last := devs[..|devs| - 1], devs[|devs| - 1];
      PoliciesAreOnce(front);
      assert Policies(devs) == Policies(front) + [PolicyForced(last.addr.addr)];
      assert Addresses(devs) == Addresses(front) + [last.addr.addr];
    }
  }

  // ---------------------------------------------------------------- Complete

  /** What Complete adds to the log of the devices `devs` and `n` clients. */
  ghost predicate CompletesOnce(before: seq<Call>, after: seq<Call>, devs: seq<Dev>, n: nat, primary: bool) {
    && before <= after
    && var log := after[|before|..];
       && InPhases(log) && CommitsOnce(log, n, primary) && PoliciesOnce(log, devs, primary)
       && (!primary ==> forall i | 0 <= i < |log| :: !log[i].Unmarshalled?)
  }

  ghost predicate Without(log: seq<Call>, phase: nat) {
    forall i | 0 <= i < |log| :: Phase(log[i]) != phase
  }

  lemma NoneWithout(log: seq<Call>, phase: nat, call: Call)
    requires Without(log, phase) && Phase(call) == phase
    ensures multiset(log)[call] == 0
  {
    assert call !in log;
  }

  lemma CommitsAround(x: seq<Call>, commits: seq<Call>, y: seq<Call>, n: nat, primary: bool)
    requires CommitsOnce(commits, n, primary) && Without(x, 1) && Without(y, 1)
    ensures CommitsOnce(x + commits + y, n, primary)
  {
    var log := x + commits + y;
    forall c: nat | c < n ensures multiset(log)[Committed(c, primary)] == 1 {
      NoneWithout(x, 1, Committed(c, primary));
      NoneWithout(y, 1, Committed(c, primary));
    }
    forall i | 0 <= i < |log| && log[i].Committed? ensures |x| <= i < |x| + |commits| && log[i] == commits[i - |x|] {
      assert Phase(log[i]) == 1;
    }
  }

  lemma PoliciesAround(x: seq<Call>, policies: seq<Call>, y: seq<Call>, devs: seq<Dev>, primary: bool)
    requires PoliciesOnce(policies, devs, primary) && Without(x, 2) && Without(y, 2)
    ensures PoliciesOnce(x + policies + y, devs, primary)
  {
    var log := x + policies + y;
    forall addr: nat ensures multiset(log)[PolicyForced(addr)] == multiset(policies)[PolicyForced(addr)] {
      NoneWithout(x, 2, PolicyForced(addr));
      NoneWithout(y, 2, PolicyForced(addr));
    }
  }

  lemma PhasesInOrder(calls: seq<Call>, commits: seq<Call>, policies: seq<Call>, frees: seq<Call>)
    requires Only(calls, 0) && Only(commits, 1) && Only(policies, 2) && Only(frees, 3)
    ensures InPhases(calls + commits + policies + frees)
  {
    var log := calls + commits + policies + frees;
    var c, p, f := |calls|, |calls| + |commits|, |calls| + |commits| + |policies|;
    forall i | 0 <= i < |log|
      ensures Phase(log[i]) == if i < c then 0 else if i < p then 1 else if i < f then 2 else 3
    {
    }
  }

  lemma FourParts(calls: seq<Call>, commits: seq<Call>, policies: seq<Call>, frees: seq<Call>, devs: seq<Dev>, n: nat, primary: bool)
    requires Only(calls, 0) && Only(commits, 1) && Only(policies, 2) && Only(frees, 3)
    requires CommitsOnce(commits, n, primary) && PoliciesOnce(policies, devs, primary)
    ensures var log := calls + commits + policies + frees;
            InPhases(log) && CommitsOnce(log, n, primary) && PoliciesOnce(log, devs, primary)
  {
    PhasesInOrder(calls, commits, policies, frees);
    hide CommitsOnce, PoliciesOnce, InPhases;
    CommitsAround(calls, commits, policies + frees, n, primary);
    PoliciesAround(calls + commits, policies, frees, devs, primary);
    assert calls + commits + policies + frees == calls + commits + (policies + frees);
  }

  lemma PartsAfter(before: seq<Call>, after: seq<Call>, calls: seq<Call>, commits: seq<Call>, policies: seq<Call>,
                   frees: seq<Call>, devs: seq<Dev>, n: nat, primary: bool)
    requires after == before + (calls + commits + policies + frees) && (primary || calls == [])
    requires Only(calls, 0) && Only(commits, 1) && Only(policies, 2) && Only(frees, 3)
    requires CommitsOnce(commits, n, primary) && PoliciesOnce(policies, devs, primary)
    ensures CompletesOnce(before, after, devs, n, primary)
  {
    FourParts(calls, commits, policies, frees, devs, n, primary);
    hide CommitsOnce, PoliciesOnce, InPhases;
    assert after[|before|..] == calls + commits + policies + frees;
  }

  lemma NoPolicyCalls(devs: seq<Dev>)
    ensures Only([], 0) && Only([], 2) && PoliciesOnce([], devs, false)
  {
  }

  /** The log of Complete in its parts. */
  lemma CompleteParts(env: Env, app: App, primary: bool) returns (calls: seq<Call>, policies: seq<Call>, frees: seq<Call>)
    requires CompleteCall(env, app, primary).Ran?
    ensures CompleteCall(env, app, primary).value.log
            == app.log + (calls + Commits(|env.table|, primary) + policies + frees)
    ensures primary || calls == []
    ensures Only(calls, 0) && Only(policies, 2) && Only(frees, 3) && PoliciesOnce(policies, app.devs, primary)
  {
    hide DispatchAll, Commits, Policies, AllFrees, PoliciesOnce, Only;
    var commits := Commits(|env.table|, primary);
    if primary {
      var d := DispatchAll(env.table, app.devs).value;
      AllOnlyUnmarshal(env.table, app.devs);
      PoliciesAreOnce(app.devs);
      AllOnlyFree(d.items);
      calls, policies, frees := d.calls, Policies(app.devs), AllFrees(d.items);
      assert app.log + calls + commits + policies + frees == app.log + (calls + commits + policies + frees);
    } else {
      AllOnlyFree(app.devs);
      NoPolicyCalls(app.devs);
      calls, policies, frees := [], [], AllFrees(app.devs);
      assert app.log + commits + frees == app.log + ([] + commits + [] + frees);
    }
  }

  /** Complete, whatever it starts from: in either role every client commits exactly once, with that role, in table order
      and after the last object was given to a client; as primary the link policy is updated once for each device after
      that; and what is released is released last. */
  lemma CompleteLog(env: Env, app: App, primary: bool)
    requires CompleteCall(env, app, primary).Ran?
    ensures CompletesOnce(app.log, CompleteCall(env, app, primary).value.log, app.devs, |env.table|, primary)
  {
    hide CompleteCall, Commits, CommitsOnce, PoliciesOnce, Only, CompletesOnce;
    CommitsAreOnce(|env.table|, primary);
    var calls, policies, frees := CompleteParts(env, app, primary);
    PartsAfter(app.log, CompleteCall(env, app, primary).value.log, calls, Commits(|env.table|, primary), policies, frees,
               app.devs, |env.table|, primary);
  }
}
