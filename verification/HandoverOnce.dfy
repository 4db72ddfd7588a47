/** The runs of the round trip are runs of the entry points, so what they collect is released once. */
module HandoverOnce {
  import opened Results
  import opened HandoverCodec
  import opened HandoverWalk
  import opened HandoverCollect
  import opened HandoverSpec
  import opened HandoverMarshal
  import opened HandoverUnmarshal
  import opened HandoverComplete
  import opened HandoverRuns

  /** Some operations lead from no devices to `app`. */
  ghost predicate Reached(env: Env, ops: seq<Op>, app: App) {
    RunOps(env, NO_DEVICES, ops) == Ran(app)
  }

  lemma ReachedNext(env: Env, ops: seq<Op>, app: App, op: Op)
    requires Reached(env, ops, app) && StepOp(env, app, op).Ran?
    ensures Reached(env, ops + [op], StepOp(env, app, op).value)
  {
    hide StepOp;
    assert (ops + [op])[..|ops + [op]| - 1] == ops;
  }

  lemma {:induction false} ChunksAreOps(env: Env, before: seq<Op>, app: App, addr: TpAddr, stream: seq<Byte>, cuts: seq<nat>)
    returns (ops: seq<Op>)
    requires Reached(env, before, app) && UnmarshalRun(env, app, addr, stream, cuts).Ran?
    ensures Reached(env, ops, UnmarshalRun(env, app, addr, stream, cuts).value.app)
    decreases |cuts|
  {
    hide Reached, UnmarshalCall;
    ops := before;
    if cuts != [] {
      var fed := UnmarshalRun(env, app, addr, stream, cuts[..|cuts| - 1]).value;
      var cut := cuts[|cuts| - 1];
      ops := ChunksAreOps(env, before, app, addr, stream, cuts[..|cuts| - 1]);
      if fed.offset < cut <= |stream| {
        var op := DoUnmarshal(addr, stream[fed.offset..cut]);
        ReachedNext(env, ops, fed.app, op);
        ops := ops + [op];
      }
    }
  }

  lemma {:induction false} TransfersAreOps(env: Env, plan: seq<Transfer>, streams: seq<seq<Byte>>) returns (ops: seq<Op>)
    requires |streams| == |plan| && ReceiveAll(env, NO_DEVICES, plan, streams).Ran?
    ensures Reached(env, ops, ReceiveAll(env, NO_DEVICES, plan, streams).value)
    decreases |plan|
  {
    ops := [];
    if plan != [] {
      var n := |plan| - 1;
      var before := TransfersAreOps(env, plan[..n], streams[..n]);
      var app := ReceiveAll(env, NO_DEVICES, plan[..n], streams[..n]).value;
      ops := ChunksAreOps(env, before, app, plan[n].addr, streams[n], plan[n].cuts);
    }
  }

  /** At the end of the round trip, in either role, each collected object is released exactly once, unless its client
      was asked and keeps it; and after an abort instead, each exactly once. */
  lemma {:induction false} RoundTripReleasesOnce(env: Env, plan: seq<Transfer>, streams: seq<seq<Byte>>, primary: bool,
                                                 d: nat, k: nat)
    requires |streams| == |plan| && ReceiveAll(env, NO_DEVICES, plan, streams).Ran?
    requires var app := ReceiveAll(env, NO_DEVICES, plan, streams).value;
             d < |app.devs| && InUse(app.devs[d]) && k < app.devs[d].part.free
    ensures Inv(env, ReceiveAll(env, NO_DEVICES, plan, streams).value)
    ensures var app := ReceiveAll(env, NO_DEVICES, plan, streams).value;
            && CollectedAt(app, d, k)
            && (CompleteCall(env, app, primary).Ran? ==>
                  FreedTimes(CompleteCall(env, app, primary).value.log, app.devs[d].part.list[k].held.handle)
                  == One(AnswerAt(env, app, primary, d, k) != DontFreeObject))
            && FreedTimes(Cleanup(app).log, app.devs[d].part.list[k].held.handle) == 1
  {
    hide RunOps, ReceiveAll, CompleteCall, Cleanup, AnswerAt, FreedTimes, Inv;
    var ops := TransfersAreOps(env, plan, streams);
    RunsKeepInv(env, ops);
    AbortReleases(env, ops, d, k);
    if CompleteCall(env, ReceiveAll(env, NO_DEVICES, plan, streams).value, primary).Ran? {
      CompleteReleases(env, ops, primary, d, k);
    }
  }

  // ---------------------------------------------------------------- what is left behind

  /** Each allocation takes a slot. */
  lemma {:induction false} ReadTakesSlots(sizes: seq<nat>, partial: seq<Held>, buf: seq<Byte>, pos: nat, next: nat, slots: nat)
    requires pos <= |buf|
    ensures match ReadObject(sizes, partial, buf, pos, next, slots)
            case Root(_, _, next2, slots2) => next2 + slots2 == next + slots
            case Need(_, next2, slots2) => next2 + slots2 == next + slots
            case _ => true
    decreases |buf| - pos
  {
    if pos < |buf| && buf[pos] != END && buf[pos] < |sizes| && pos + 1 + sizes[buf[pos]] <= |buf| && slots > 0 {
      var after := pos + 1 + sizes[buf[pos]];
      var held := Held(next, Obj(buf[pos], buf[pos + 1..after]));
      ReadTakesSlots(sizes, partial + [held], buf, after, next + 1, slots - 1);
    }
  }

  lemma {:induction false} CollectTakesSlots(table: Table, sizes: seq<nat>, c: Collector, buf: seq<Byte>, pos: nat)
    requires pos <= |buf|
    ensures var r := Collect(table, sizes, c, buf, pos);
            r.Collected? ==> r.collector.next + r.collector.slots == c.next + c.slots
    decreases |buf| - pos
  {
    hide Known;
    if pos < |buf| && c.free < |c.list| {
      ReadTakesSlots(sizes, c.partial, buf, pos, c.next, c.slots);
      match ReadObject(sizes, c.partial, buf, pos, c.next, c.slots)
      case Root(held, after, next, slots) =>
        if Known(table, held.obj.kind) {
          CollectTakesSlots(table, sizes, Store(c, held, next, slots), buf, after);
        }
      case _ =>
    }
  }

  /** Either nothing has been unmarshalled for the device, or it is the first one, and what its library has room for and
      what has been allocated add up. */
  ghost predicate AddsUp(app: App, addr: TpAddr, now: App) {
    || now == app
    || (now.devs != [] && now.devs[0].addr == addr && now.devs[1..] == app.devs
        && now.devs[0].mode.Unmarshaling? && now.devs[0].part.UnmarshalPart?
        && now.next + now.devs[0].part.slots == app.next + MAX_OBJECTS)
  }

  lemma CallAddsUp(env: Env, app: App, addr: TpAddr, now: App, buf: seq<Byte>)
    requires Find(app.devs, addr) == |app.devs| && AddsUp(app, addr, now) && UnmarshalCall(env, now, addr, buf).Ran?
    ensures AddsUp(app, addr, UnmarshalCall(env, now, addr, buf).value.app)
  {
    hide Collect, EmptyList;
    var found := WithDevice(env, now, addr);
    assert Find(found.devs, addr) == 0;
    var begun := SetUp(env, found.devs[0]);
    CollectTakesSlots(env.table, env.sizes, CollectorFor(found, begun), buf, 0);
  }

  lemma {:induction false} RunAddsUp(env: Env, app: App, addr: TpAddr, stream: seq<Byte>, cuts: seq<nat>)
    requires Find(app.devs, addr) == |app.devs| && UnmarshalRun(env, app, addr, stream, cuts).Ran?
    ensures AddsUp(app, addr, UnmarshalRun(env, app, addr, stream, cuts).value.app)
    decreases |cuts|
  {
    hide AddsUp, UnmarshalCall;
    if cuts == [] {
      assert AddsUp(app, addr, app) by {
        AddsUpAtFirst(app, addr);
      }
    } else {
      RunAddsUp(env, app, addr, stream, cuts[..|cuts| - 1]);
      var fed := UnmarshalRun(env, app, addr, stream, cuts[..|cuts| - 1]).value;
      var cut := cuts[|cuts| - 1];
      if fed.offset < cut <= |stream| {
        CallAddsUp(env, app, addr, fed.app, stream[fed.offset..cut]);
      }
    }
  }

  lemma AddsUpAtFirst(app: App, addr: TpAddr)
    ensures AddsUp(app, addr, app)
  {
  }

  lemma {:induction false} FreesAll(entries: seq<Entry>)
    requires forall k | 0 <= k < |entries| :: entries[k].Entry? && entries[k].status == Failure
    ensures |Frees(entries)| == |entries|
  {
    if entries != [] {
      FreesAll(entries[1..]);
    }
  }

  lemma DeviceFrees(app: App, dev: Dev, done: seq<Obj>, todo: seq<Obj>)
    requires dev.mode.Unmarshaling? && dev.part.UnmarshalPart? && Collects(CollectorFor(app, dev), done, todo)
    ensures |FreesOf(dev)| == |done|
  {
    FreesAll(dev.part.list[..dev.part.free]);
  }

  /** Of the objects that the library allocates for a device, those that were consumed are in its list, to be released once;
      the others are copies left in the set by chunks that ended just before an end marker, and are never released. */
  lemma LeftBehind(sender: Env, receiver: Env, app: App, addr: TpAddr, cuts: seq<nat>)
    requires SoundTable(receiver) && SoundClients(sender) && Twins(sender, receiver) && AnyTyped(receiver.table)
    requires Find(app.devs, addr) == |app.devs| && app.curr.None?
    requires UnmarshalRun(receiver, app, addr, Encode(Supplied(sender, addr)), cuts).Ran?
    ensures var objs := Supplied(sender, addr);
            var now := UnmarshalRun(receiver, app, addr, Encode(objs), cuts).value.app;
            && now.next == app.next + Pushed(objs, cuts)
            && |AllFrees(now.devs)| == |AllFrees(app.devs)| + Taken(objs, cuts)
            && now.curr.None? && (now.devs == app.devs || (now.devs != [] && now.devs[0].addr == addr && now.devs[1..] == app.devs))
  {
    var objs := Supplied(sender, addr);
    CutsDoNotMatter(sender, receiver, app, addr, cuts);
    RunAddsUp(receiver, app, addr, Encode(objs), cuts);
    hide UnmarshalRun, Encode, Supplied, Pushed, Taken, Collects, FreesOf;
    var now := UnmarshalRun(receiver, app, addr, Encode(objs), cuts).value.app;
    FreshOrReceiving(receiver, app, addr, objs, now, cuts);
  }

  lemma FreshOrReceiving(env: Env, app: App, addr: TpAddr, objs: seq<Obj>, now: App, cuts: seq<nat>)
    requires RunReceives(env, app, addr, objs, cuts) && Find(app.devs, addr) == |app.devs|
    requires UnmarshalRun(env, app, addr, Encode(objs), cuts).Ran?
    requires now == UnmarshalRun(env, app, addr, Encode(objs), cuts).value.app && AddsUp(app, addr, now)
    ensures now.next == app.next + Pushed(objs, cuts)
    ensures |AllFrees(now.devs)| == |AllFrees(app.devs)| + Taken(objs, cuts)
    ensures now.curr == app.curr
    ensures now.devs == app.devs || (now.devs != [] && now.devs[0].addr == addr && now.devs[1..] == app.devs)
  {
    hide UnmarshalRun, Encode, Pushed, Taken, Collects, FreesOf;
    var k, pushed := Taken(objs, cuts), Pushed(objs, cuts);
    if now != app {
      var dev := now.devs[0];
      assert Receiving(env, now, addr, objs[..k], objs[k..], MAX_OBJECTS - pushed);
      DeviceFrees(now, dev, objs[..k], objs[k..]);
      assert now.devs == [dev] + app.devs;
    }
  }

  function PushedByAll(env: Env, plan: seq<Transfer>): nat {
    if plan == [] then 0
    else PushedByAll(env, plan[..|plan| - 1]) + Pushed(Supplied(env, plan[|plan| - 1].addr), plan[|plan| - 1].cuts)
  }

  function TakenByAll(env: Env, plan: seq<Transfer>): nat {
    if plan == [] then 0
    else TakenByAll(env, plan[..|plan| - 1]) + Taken(Supplied(env, plan[|plan| - 1].addr), plan[|plan| - 1].cuts)
  }

  /** Over all devices, whether or not their streams have been handed over to the end: so many objects were allocated,
      and so many of them would be released by an abort. The difference is left behind. */
  lemma {:induction false} LeftBehindByAll(sender: Env, receiver: Env, plan: seq<Transfer>, streams: seq<seq<Byte>>)
    requires SoundTable(receiver) && SoundClients(sender) && Twins(sender, receiver) && AnyTyped(receiver.table)
    requires Distinct(plan) && StreamsOf(sender, plan, streams) && ReceiveAll(receiver, NO_DEVICES, plan, streams).Ran?
    ensures var a := ReceiveAll(receiver, NO_DEVICES, plan, streams).value;
            && a.next == PushedByAll(sender, plan) && |AllFrees(a.devs)| == TakenByAll(sender, plan)
            && a.curr.None? && forall k | 0 <= k < |a.devs| :: InPlan(plan, a.devs[k].addr)
    decreases |plan|
  {
    hide UnmarshalRun, Encode, Supplied, Pushed, Taken, FreesOf, SoundTable, SoundClients, Twins, AnyTyped;
    if plan != [] {
      var n := |plan| - 1;
      assert forall i | 0 <= i < n :: plan[..n][i] == plan[i] && streams[..n][i] == streams[i];
      LeftBehindByAll(sender, receiver, plan[..n], streams[..n]);
      var a := ReceiveAll(receiver, NO_DEVICES, plan[..n], streams[..n]).value;
      NotYetListed(plan, a.devs);
      LeftBehind(sender, receiver, a, plan[n].addr, plan[n].cuts);
      StillInPlan(plan, a.devs);
    }
  }

  lemma {:induction false} NotYetListed(plan: seq<Transfer>, devs: seq<Dev>)
    requires plan != [] && Distinct(plan) && forall k | 0 <= k < |devs| :: InPlan(plan[..|plan| - 1], devs[k].addr)
    ensures Find(devs, plan[|plan| - 1].addr) == |devs|
  {
    var n := |plan| - 1;
    forall k | 0 <= k < |devs| ensures devs[k].addr != plan[n].addr {
      assert InPlan(plan[..n], devs[k].addr);
      var i :| 0 <= i < n && plan[..n][i].addr == devs[k].addr;
      assert plan[i].addr != plan[n].addr;
    }
    FindAbsent(devs, plan[n].addr);
  }

  lemma {:induction false} StillInPlan(plan: seq<Transfer>, devs: seq<Dev>)
    requires plan != [] && forall k | 0 <= k < |devs| :: InPlan(plan[..|plan| - 1], devs[k].addr)
    ensures forall k | 0 <= k < |devs| :: InPlan(plan, devs[k].addr)
    ensures InPlan(plan, plan[|plan| - 1].addr)
  {
    var n := |plan| - 1;
    forall k | 0 <= k < |devs| ensures InPlan(plan, devs[k].addr) {
      assert InPlan(plan[..n], devs[k].addr);
      var i :| 0 <= i < n && plan[..n][i].addr == devs[k].addr;
      assert plan[i].addr == devs[k].addr;
    }
  }
}
