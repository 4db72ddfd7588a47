/** Over every run of the entry points: the union of each device matches its mode, addresses are distinct, and
    each collected object is released at most once. */
module HandoverRuns {
  import opened Results
  import opened HandoverCodec
  import opened HandoverWalk
  import opened HandoverCollect
  import opened HandoverSpec

  datatype Op = DoMarshal(addr: TpAddr, size: nat) | DoUnmarshal(addr: TpAddr, buf: seq<Byte>)
              | DoCommit(addr: TpAddr) | DoComplete(primary: bool) | DoAbort

  function StepOp(env: Env, app: App, op: Op): Outcome<App> {
    match op
    case DoMarshal(addr, size) =>
      (match MarshalCall(env, app, addr, size) case Ran(r) => Ran(r.app) case Panicked => Panicked)
    case DoUnmarshal(addr, buf) =>
      (match UnmarshalCall(env, app, addr, buf) case Ran(r) => Ran(r.app) case Panicked => Panicked)
    case DoCommit(addr) => CommitCall(env, app, addr)
    case DoComplete(primary) => CompleteCall(env, app, primary)
    case DoAbort => Ran(Cleanup(app))
  }

  function RunOps(env: Env, app: App, ops: seq<Op>): Outcome<App> {
    if ops == [] then Ran(app)
    else
      match RunOps(env, app, ops[..|ops| - 1])
      case Panicked => Panicked
      case Ran(before) => StepOp(env, before, ops[|ops| - 1])
  }

  // ---------------------------------------------------------------- where a piece of memory is

  function One(b: bool): nat {
    if b then 1 else 0
  }

  function InEntries(entries: seq<Entry>, h: nat): nat {
    if entries == [] then 0
    else One(entries[0].Entry? && entries[0].held.handle == h) + InEntries(entries[1..], h)
  }

  function InPartial(partial: seq<Held>, h: nat): nat {
    if partial == [] then 0 else One(partial[0].handle == h) + InPartial(partial[1..], h)
  }

  /** How often a device refers to the memory, to give it to a client or release it. */
  function InDev(dev: Dev, h: nat): nat {
    if dev.part.UnmarshalPart? then InPartial(dev.part.partial, h) + InEntries(dev.part.list, h) else 0
  }

  function InDevs(devs: seq<Dev>, h: nat): nat {
    if devs == [] then 0 else InDev(devs[0], h) + InDevs(devs[1..], h)
  }

  /** How often the memory was released. */
  function FreedTimes(log: seq<Call>, h: nat): nat {
    if log == [] then 0 else One(log[0] == Freed(h)) + FreedTimes(log[1..], h)
  }

  lemma {:induction false} InPartialConcat(x: seq<Held>, y: seq<Held>, h: nat)
    ensures InPartial(x + y, h) == InPartial(x, h) + InPartial(y, h)
  {
    if x == [] {
      assert x + y == y;
    } else {
      assert (x + y)[1..] == x[1..] + y;
      InPartialConcat(x[1..], y, h);
    }
  }

  lemma {:induction false} InEntriesConcat(x: seq<Entry>, y: seq<Entry>, h: nat)
    ensures InEntries(x + y, h) == InEntries(x, h) + InEntries(y, h)
  {
    if x == [] {
      assert x + y == y;
    } else {
      assert (x + y)[1..] == x[1..] + y;
      InEntriesConcat(x[1..], y, h);
    }
  }

  lemma {:induction false} FreedTimesConcat(x: seq<Call>, y: seq<Call>, h: nat)
    ensures FreedTimes(x + y, h) == FreedTimes(x, h) + FreedTimes(y, h)
  {
    if x == [] {
      assert x + y == y;
    } else {
      assert (x + y)[1..] == x[1..] + y;
      FreedTimesConcat(x[1..], y, h);
    }
  }

  lemma {:induction false} InEntriesStore(entries: seq<Entry>, k: nat, e: Entry, h: nat)
    requires k < |entries| && entries[k].Vacant? && e.Entry?
    ensures InEntries(entries[k := e], h) == InEntries(entries, h) + One(e.held.handle == h)
  {
    if k > 0 {
      assert entries[k := e][1..] == entries[1..][k - 1 := e];
      InEntriesStore(entries[1..], k - 1, e, h);
    }
  }

  lemma {:induction false} InDevsUpdate(devs: seq<Dev>, d: nat, dev: Dev, h: nat)
    requires d < |devs|
    ensures InDevs(devs[d := dev], h) + InDev(devs[d], h) == InDevs(devs, h) + InDev(dev, h)
  {
    if d > 0 {
      assert devs[d := dev][1..] == devs[1..][d - 1 := dev];
      InDevsUpdate(devs[1..], d - 1, dev, h);
    }
  }

  // ---------------------------------------------------------------- collecting allocates

  lemma {:induction false} ReadAllocates(sizes: seq<nat>, partial: seq<Held>, buf: seq<Byte>, pos: nat, next: nat, slots: nat,
                                         h: nat)
    requires pos <= |buf|
    ensures match ReadObject(sizes, partial, buf, pos, next, slots)
            case Root(held, _, next2, _) =>
              next <= next2 && One(held.handle == h) <= InPartial(partial, h) + One(next <= h < next2)
            case Need(kept, next2, _) =>
              next <= next2 && InPartial(kept, h) <= InPartial(partial, h) + One(next <= h < next2)
            case _ => true
    decreases |buf| - pos
  {
    if pos < |buf| && buf[pos] != END && buf[pos] < |sizes| && pos + 1 + sizes[buf[pos]] <= |buf| && slots > 0 {
      var after := pos + 1 + sizes[buf[pos]];
      var held := Held(next, Obj(buf[pos], buf[pos + 1..after]));
      ReadAllocates(sizes, partial + [held], buf, after, next + 1, slots - 1, h);
      InPartialConcat(partial, [held], h);
      assert [held][1..] == [];
    }
  }

  /** The list is filled from the front. */
  predicate Packed(list: seq<Entry>, free: nat) {
    && free <= |list|
    && (forall k | 0 <= k < free :: list[k].Entry?) && (forall k | free <= k < |list| :: list[k].Vacant?)
  }

  function InCollector(c: Collector, h: nat): nat {
    InPartial(c.partial, h) + InEntries(c.list, h)
  }

  lemma {:induction false} CollectAllocates(table: Table, sizes: seq<nat>, c: Collector, buf: seq<Byte>, pos: nat, h: nat)
    requires pos <= |buf| && Packed(c.list, c.free)
    ensures var r := Collect(table, sizes, c, buf, pos);
            r.Collected? ==>
              && Packed(r.collector.list, r.collector.free) && c.next <= r.collector.next
              && InCollector(r.collector, h) <= InCollector(c, h) + One(c.next <= h < r.collector.next)
    decreases |buf| - pos
  {
    if pos < |buf| && c.free < |c.list| {
      ReadAllocates(sizes, c.partial, buf, pos, c.next, c.slots, h);
      match ReadObject(sizes, c.partial, buf, pos, c.next, c.slots)
      case Root(held, after, next, slots) =>
        if Known(table, held.obj.kind) {
          InEntriesStore(c.list, c.free, Entry(held, Failure), h);
          CollectAllocates(table, sizes, Store(c, held, next, slots), buf, after, h);
        }
      case _ =>
    }
  }

  // ---------------------------------------------------------------- the invariant

  /** The meaningful member of the union is the one for the mode, and no device is left without a task. */
  predicate MemberMatches(dev: Dev) {
    match dev.mode
    case Initialized => false
    case Marshaling => dev.part.MarshalPart?
    case Unmarshaling => dev.part.UnmarshalPart? && Packed(dev.part.list, dev.part.free)
  }

  predicate Shaped(devs: seq<Dev>) {
    && (forall k | 0 <= k < |devs| :: MemberMatches(devs[k]))
    && forall k, l | 0 <= k < l < |devs| :: devs[k].addr != devs[l].addr
  }

  predicate CursorOk(table: Table, app: App) {
    app.curr.Some? ==> app.curr.value < |table| && table[app.curr.value].types.Some?
                       && app.currType <= |TypesOf(table, app.curr.value)|
  }

  /** The memory with handle `h` is allocated, and is referred to or was released, at most once. */
  predicate Accounted(app: App, h: nat) {
    InDevs(app.devs, h) + FreedTimes(app.log, h) <= One(h < app.next)
  }

  /** No client was asked about an object that is still in the list. */
  predicate Unasked(dev: Dev) {
    dev.part.UnmarshalPart? ==> AllUnasked(dev.part.list)
  }

  predicate AllUnasked(list: seq<Entry>) {
    forall k | 0 <= k < |list| && list[k].Entry? :: list[k].status == Failure
  }

  ghost predicate Inv(env: Env, app: App) {
    && Shaped(app.devs) && CursorOk(env.table, app)
    && (forall k | 0 <= k < |app.devs| :: Unasked(app.devs[k]))
    && forall h: nat :: Accounted(app, h)
  }

  // ---------------------------------------------------------------- what releases

  lemma {:induction false} DispatchKeeps(table: Table, addr: nat, focused: bool, entries: seq<Entry>, h: nat)
    ensures var r := Dispatch(table, addr, focused, entries);
            r.Ran? ==>
              && (forall k | 0 <= k < |entries| :: entries[k].Entry? && r.value.items[k].Entry?
                                                   && r.value.items[k].held == entries[k].held)
              && InEntries(r.value.items, h) == InEntries(entries, h) && FreedTimes(r.value.calls, h) == 0
  {
    hide DispatchOne, FreedTimes;
    if entries == [] {
      NothingFreed(h);
    } else if Dispatch(table, addr, focused, entries).Ran? {
      DispatchKeeps(table, addr, focused, entries[1..], h);
      DispatchOneKeeps(table, addr, focused, entries[0], h);
      var first, others := DispatchOne(table, addr, focused, entries[0]).value, Dispatch(table, addr, focused, entries[1..]).value;
      FreedTimesConcat(first.calls, others.calls, h);
      assert (first.items + others.items)[1..] == others.items;
    }
  }

  lemma NothingFreed(h: nat)
    ensures FreedTimes([], h) == 0
  {
  }

  lemma DispatchOneKeeps(table: Table, addr: nat, focused: bool, e: Entry, h: nat)
    ensures var r := DispatchOne(table, addr, focused, e);
            r.Ran? ==> e.Entry? && r.value.items[0].Entry? && r.value.items[0].held == e.held && FreedTimes(r.value.calls, h) == 0
  {
    hide Owner;
  }

  /** Dispatching only sets statuses. */
  predicate OnlyStatuses(before: Dev, after: Dev) {
    && InUse(before) && InUse(after) && MemberMatches(after)
    && after.addr == before.addr && after.focused == before.focused && after.part.free == before.part.free
    && forall k | 0 <= k < before.part.free ::
         && k < |before.part.list| && k < |after.part.list|
         && before.part.list[k].Entry? && after.part.list[k].Entry? && after.part.list[k].held == before.part.list[k].held
  }

  lemma DispatchDevKeeps(table: Table, dev: Dev, h: nat)
    requires MemberMatches(dev)
    ensures var r := DispatchDev(table, dev);
            r.Ran? ==> OnlyStatuses(dev, r.value.items[0]) && InDev(r.value.items[0], h) == InDev(dev, h)
                       && FreedTimes(r.value.calls, h) == 0
  {
    hide Dispatch, FreedTimes, InEntries, InPartial;
    var part := dev.part;
    if DispatchDev(table, dev).Ran? {
      DispatchKeeps(table, dev.addr.addr, dev.focused, part.list[..part.free], h);
      var entries := Dispatch(table, dev.addr.addr, dev.focused, part.list[..part.free]).value.items;
      InEntriesConcat(part.list[..part.free], part.list[part.free..], h);
      InEntriesConcat(entries, part.list[part.free..], h);
      assert part.list == part.list[..part.free] + part.list[part.free..];
    }
  }

  lemma {:induction false} DispatchAllKeeps(table: Table, devs: seq<Dev>, h: nat)
    requires forall k | 0 <= k < |devs| :: MemberMatches(devs[k])
    ensures var r := DispatchAll(table, devs);
            r.Ran? ==> && (forall k | 0 <= k < |devs| :: OnlyStatuses(devs[k], r.value.items[k]))
                       && InDevs(r.value.items, h) == InDevs(devs, h) && FreedTimes(r.value.calls, h) == 0
  {
    if devs != [] && DispatchAll(table, devs).Ran? {
      DispatchDevKeeps(table, devs[0], h);
      DispatchAllKeeps(table, devs[1..], h);
      FreedTimesConcat(DispatchDev(table, devs[0]).value.calls, DispatchAll(table, devs[1..]).value.calls, h);
    }
  }

  lemma {:induction false} FreesAtMost(entries: seq<Entry>, h: nat)
    ensures FreedTimes(Frees(entries), h) <= InEntries(entries, h)
  {
    if entries != [] {
      FreesAtMost(entries[1..], h);
      if entries[0].Entry? && entries[0].status != DontFreeObject {
        FreedTimesConcat([Freed(entries[0].held.handle)], Frees(entries[1..]), h);
        assert [Freed(entries[0].held.handle)][1..] == [];
      } else {
        assert [] + Frees(entries[1..]) == Frees(entries[1..]);
      }
    }
  }

  lemma FreesOfAtMost(dev: Dev, h: nat)
    ensures FreedTimes(FreesOf(dev), h) <= InDev(dev, h)
  {
    if InUse(dev) {
      var list, free := dev.part.list, dev.part.free;
      FreesAtMost(list[..free], h);
      InEntriesConcat(list[..free], list[free..], h);
      assert list == list[..free] + list[free..];
    }
  }

  lemma {:induction false} AllFreesAtMost(devs: seq<Dev>, h: nat)
    ensures FreedTimes(AllFrees(devs), h) <= InDevs(devs, h)
  {
    if devs != [] {
      FreesOfAtMost(devs[0], h);
      AllFreesAtMost(devs[1..], h);
      FreedTimesConcat(FreesOf(devs[0]), AllFrees(devs[1..]), h);
    }
  }

  lemma {:induction false} NoFrees(calls: seq<Call>, h: nat)
    requires forall k | 0 <= k < |calls| :: !calls[k].Freed?
    ensures FreedTimes(calls, h) == 0
  {
    if calls != [] {
      NoFrees(calls[1..], h);
    }
  }

  // ---------------------------------------------------------------- every step

  /** Conservation for one piece of memory: a step only allocates new memory, and moves what there is from
      "referred to" to "released" or to a client. */
  ghost predicate Conserves(before: App, after: App, h: nat) {
    && before.next <= after.next && FreedTimes(before.log, h) <= FreedTimes(after.log, h)
    && InDevs(after.devs, h) + FreedTimes(after.log, h)
       <= InDevs(before.devs, h) + FreedTimes(before.log, h) + One(before.next <= h < after.next)
  }

  lemma CleanupConserves(app: App, h: nat)
    ensures Conserves(app, Cleanup(app), h)
  {
    AllFreesAtMost(app.devs, h);
    FreedTimesConcat(app.log, AllFrees(app.devs), h);
  }

  lemma CompleteConserves(env: Env, app: App, primary: bool, h: nat)
    requires Shaped(app.devs)
    ensures CompleteCall(env, app, primary).Ran? ==> Conserves(app, CompleteCall(env, app, primary).value, h)
  {
    var n := |env.table|;
    NoFrees(Commits(n, primary), h);
    NoFrees(Policies(app.devs), h);
    if primary {
      DispatchAllKeeps(env.table, app.devs, h);
      if DispatchAll(env.table, app.devs).Ran? {
        var d := DispatchAll(env.table, app.devs).value;
        FreedTimesConcat(app.log, d.calls, h);
        FreedTimesConcat(app.log + d.calls, Commits(n, true), h);
        FreedTimesConcat(app.log + d.calls + Commits(n, true), Policies(app.devs), h);
        CleanupConserves(app.(devs := d.items, log := app.log + d.calls + Commits(n, true) + Policies(app.devs)), h);
      }
    } else {
      FreedTimesConcat(app.log, Commits(n, false), h);
      CleanupConserves(app.(log := app.log + Commits(n, false)), h);
    }
  }

  lemma WithDeviceConserves(env: Env, app: App, addr: TpAddr, h: nat)
    ensures var found := WithDevice(env, app, addr);
            InDevs(found.devs, h) == InDevs(app.devs, h) && found.log == app.log && found.next == app.next
  {
    var found := WithDevice(env, app, addr);
    assert found.devs == app.devs || found.devs[1..] == app.devs;
  }

  lemma MarshalConserves(env: Env, app: App, addr: TpAddr, size: nat, h: nat)
    ensures MarshalCall(env, app, addr, size).Ran? ==> Conserves(app, MarshalCall(env, app, addr, size).value.app, h)
  {
    if AnyTyped(env.table) && MarshalCall(env, app, addr, size).Ran? {
      WithDeviceConserves(env, app, addr, h);
      var found := WithDevice(env, app, addr);
      var d := Find(found.devs, addr);
      var begun := Begin(env, found, d);
      var after := MarshalCall(env, app, addr, size).value.app;
      InDevsUpdate(found.devs, d, begun.devs[d], h);
      assert begun.devs == found.devs[d := begun.devs[d]];
      InDevsUpdate(begun.devs, d, after.devs[d], h);
      assert after.devs == begun.devs[d := after.devs[d]];
    }
  }

  lemma {:induction false} FreshList(n: nat, h: nat)
    ensures InEntries(seq(n, _ => Vacant), h) == 0
  {
    if n > 0 {
      assert seq(n, _ => Vacant)[1..] == seq(n - 1, _ => Vacant);
      FreshList(n - 1, h);
    }
  }

  lemma SetUpKeeps(env: Env, dev: Dev, h: nat)
    requires dev.mode.Initialized? ==> dev.part.NoPart?
    ensures InDev(SetUp(env, dev), h) == InDev(dev, h)
  {
    FreshList(EligibleTypes(env.table, dev.focused, 0) % 256, h);
  }

  predicate MemberMatchesOrNew(dev: Dev) {
    MemberMatches(dev) || (dev.mode.Initialized? && dev.part.NoPart?)
  }

  lemma FoundMatches(env: Env, app: App, addr: TpAddr)
    requires forall k | 0 <= k < |app.devs| :: MemberMatches(app.devs[k])
    ensures var found := WithDevice(env, app, addr); MemberMatchesOrNew(found.devs[Find(found.devs, addr)])
  {
  }

  lemma UnmarshalConserves(env: Env, app: App, addr: TpAddr, buf: seq<Byte>, h: nat)
    requires Shaped(app.devs)
    ensures UnmarshalCall(env, app, addr, buf).Ran? ==> Conserves(app, UnmarshalCall(env, app, addr, buf).value.app, h)
  {
    if UnmarshalCall(env, app, addr, buf).Ran? {
      WithDeviceConserves(env, app, addr, h);
      FoundMatches(env, app, addr);
      var found := WithDevice(env, app, addr);
      var d := Find(found.devs, addr);
      var begun := SetUp(env, found.devs[d]);
      SetUpKeeps(env, found.devs[d], h);
      var c := CollectorFor(found, begun);
      CollectAllocates(env.table, env.sizes, c, buf, 0, h);
      var after := UnmarshalCall(env, app, addr, buf).value.app;
      InDevsUpdate(found.devs, d, after.devs[d], h);
    }
  }

  /** No step creates or duplicates memory, or releases it twice. */
  lemma StepConserves(env: Env, app: App, op: Op, h: nat)
    requires Shaped(app.devs)
    ensures StepOp(env, app, op).Ran? ==> Conserves(app, StepOp(env, app, op).value, h)
  {
    match op
    case DoMarshal(addr, size) => MarshalConserves(env, app, addr, size, h);
    case DoUnmarshal(addr, buf) => UnmarshalConserves(env, app, addr, buf, h);
    case DoCommit(_) =>
    case DoComplete(primary) => CompleteConserves(env, app, primary, h);
    case DoAbort => CleanupConserves(app, h);
  }

  // ---------------------------------------------------------------- shape

  lemma WithDeviceDistinct(env: Env, app: App, addr: TpAddr)
    requires Shaped(app.devs)
    ensures var found := WithDevice(env, app, addr);
            && (forall k, l | 0 <= k < l < |found.devs| :: found.devs[k].addr != found.devs[l].addr)
            && forall k | 0 <= k < |found.devs| && k != Find(found.devs, addr) :: MemberMatches(found.devs[k])
  {
  }

  lemma ReplacedShape(devs: seq<Dev>, d: nat, dev: Dev)
    requires d < |devs| && dev.addr == devs[d].addr && MemberMatches(dev)
    requires forall k, l | 0 <= k < l < |devs| :: devs[k].addr != devs[l].addr
    requires forall k | 0 <= k < |devs| && k != d :: MemberMatches(devs[k])
    ensures Shaped(devs[d := dev])
  {
  }

  /** The walk stops at a type of a typed interface. */
  lemma {:induction false} WalkCursor(table: Table, addr: nat, focused: bool, i: nat, j: nat, m: Marshaller)
    ensures var w := Walk(table, addr, focused, i, j, m);
            w.Walked? && !w.done ==> w.i < |table| && table[w.i].types.Some? && w.j < |TypesOf(table, w.i)|
    decreases |table| - i, if i < |table| then |TypesOf(table, i)| - j else 0
  {
    if i < |table| {
      if j >= |TypesOf(table, i)| {
        WalkCursor(table, addr, focused, i + 1, 0, m);
      } else if Offer(table, addr, focused, i, j).None? {
        WalkCursor(table, addr, focused, i, j + 1, m);
      } else if !Overflows(m) {
        WalkCursor(table, addr, focused, i, j + 1, MarshalObject(m, Offer(table, addr, focused, i, j).value.obj).0);
      }
    }
  }

  /** A call panics at once exactly when the device is being unmarshalled; else it goes on with the walk. */
  lemma MarshalCallCases(env: Env, app: App, addr: TpAddr, size: nat)
    requires Shaped(app.devs) && AnyTyped(env.table)
    ensures var found := WithDevice(env, app, addr);
            var d := Find(found.devs, addr);
            var begun := Begin(env, found, d);
            if found.devs[d].mode.Unmarshaling? then MarshalCall(env, app, addr, size).Panicked?
            else (found.devs[d].mode.Initialized? || (found.devs[d].mode.Marshaling? && found.devs[d].part.MarshalPart?))
                 && begun.devs[d].part.MarshalPart? && MarshalCall(env, app, addr, size) == Continue(env, begun, d, size)
  {
    FoundMatches(env, app, addr);
  }

  lemma MarshalShape(env: Env, app: App, addr: TpAddr, size: nat)
    requires Shaped(app.devs) && CursorOk(env.table, app)
    ensures var r := MarshalCall(env, app, addr, size);
            r.Ran? ==> Shaped(r.value.app.devs) && CursorOk(env.table, r.value.app)
  {
    var r := MarshalCall(env, app, addr, size);
    if AnyTyped(env.table) && r.Ran? {
      WithDeviceDistinct(env, app, addr);
      FoundMatches(env, app, addr);
      var found := WithDevice(env, app, addr);
      var d := Find(found.devs, addr);
      var begun := Begin(env, found, d);
      var dev := begun.devs[d];
      if begun.curr.Some? {
        WalkCursor(env.table, addr.addr, dev.focused, begun.curr.value, begun.currType, SetBuffer(dev.part.marshaller, size));
      }
      ReplacedShape(found.devs, d, r.value.app.devs[d]);
      assert r.value.app.devs == found.devs[d := r.value.app.devs[d]];
    }
  }

  /** A call panics at once for want of data or of interfaces, or when the device is being marshalled. */
  lemma UnmarshalCallCases(env: Env, app: App, addr: TpAddr, buf: seq<Byte>)
    requires Shaped(app.devs)
    ensures var found := WithDevice(env, app, addr);
            var d := Find(found.devs, addr);
            var dev := found.devs[d];
            if buf == [] || dev.mode.Marshaling? || (dev.mode.Initialized? && NextInterface(env.table, app.curr).None?)
            then UnmarshalCall(env, app, addr, buf).Panicked?
            else SetUp(env, dev).part.UnmarshalPart?
                 && UnmarshalCall(env, app, addr, buf) == CollectInto(env, found, d, SetUp(env, dev), buf)
  {
    FoundMatches(env, app, addr);
  }

  lemma UnmarshalShape(env: Env, app: App, addr: TpAddr, buf: seq<Byte>)
    requires Shaped(app.devs) && CursorOk(env.table, app)
    ensures var r := UnmarshalCall(env, app, addr, buf);
            r.Ran? ==> Shaped(r.value.app.devs) && CursorOk(env.table, r.value.app)
  {
    var r := UnmarshalCall(env, app, addr, buf);
    if r.Ran? {
      WithDeviceDistinct(env, app, addr);
      FoundMatches(env, app, addr);
      var found := WithDevice(env, app, addr);
      var d := Find(found.devs, addr);
      var begun := SetUp(env, found.devs[d]);
      var c := CollectorFor(found, begun);
      CollectAllocates(env.table, env.sizes, c, buf, 0, 0);
      ReplacedShape(found.devs, d, r.value.app.devs[d]);
    }
  }

  lemma StepShape(env: Env, app: App, op: Op)
    requires Shaped(app.devs) && CursorOk(env.table, app)
    ensures var r := StepOp(env, app, op); r.Ran? ==> Shaped(r.value.devs) && CursorOk(env.table, r.value)
  {
    match op
    case DoMarshal(addr, size) => MarshalShape(env, app, addr, size);
    case DoUnmarshal(addr, buf) => UnmarshalShape(env, app, addr, buf);
    case DoCommit(_) =>
    case DoComplete(_) =>
    case DoAbort =>
  }

  lemma {:induction false} CollectAsksNobody(table: Table, sizes: seq<nat>, c: Collector, buf: seq<Byte>, pos: nat)
    requires pos <= |buf| && AllUnasked(c.list)
    ensures var r := Collect(table, sizes, c, buf, pos); r.Collected? ==> AllUnasked(r.collector.list)
    decreases |buf| - pos
  {
    if pos < |buf| && c.free < |c.list| {
      match ReadObject(sizes, c.partial, buf, pos, c.next, c.slots)
      case Root(held, after, next, slots) =>
        if Known(table, held.obj.kind) {
          CollectAsksNobody(table, sizes, Store(c, held, next, slots), buf, after);
        }
      case _ =>
    }
  }

  lemma MarshalAsksNobody(env: Env, app: App, addr: TpAddr, size: nat)
    requires forall k | 0 <= k < |app.devs| :: Unasked(app.devs[k])
    ensures var r := MarshalCall(env, app, addr, size);
            r.Ran? ==> forall k | 0 <= k < |r.value.app.devs| :: Unasked(r.value.app.devs[k])
  {
    hide Walk;
    var found := WithDevice(env, app, addr);
    assert forall k | 0 <= k < |found.devs| :: Unasked(found.devs[k]);
  }

  lemma UnmarshalAsksNobody(env: Env, app: App, addr: TpAddr, buf: seq<Byte>)
    requires forall k | 0 <= k < |app.devs| :: Unasked(app.devs[k])
    ensures var r := UnmarshalCall(env, app, addr, buf);
            r.Ran? ==> forall k | 0 <= k < |r.value.app.devs| :: Unasked(r.value.app.devs[k])
  {
    if UnmarshalCall(env, app, addr, buf).Ran? {
      var found := WithDevice(env, app, addr);
      assert forall k | 0 <= k < |found.devs| :: Unasked(found.devs[k]);
      var begun := SetUp(env, found.devs[Find(found.devs, addr)]);
      CollectAsksNobody(env.table, env.sizes, CollectorFor(found, begun), buf, 0);
    }
  }

  lemma StepAsksNobody(env: Env, app: App, op: Op)
    requires forall k | 0 <= k < |app.devs| :: Unasked(app.devs[k])
    ensures var r := StepOp(env, app, op); r.Ran? ==> forall k | 0 <= k < |r.value.devs| :: Unasked(r.value.devs[k])
  {
    match op
    case DoMarshal(addr, size) => MarshalAsksNobody(env, app, addr, size);
    case DoUnmarshal(addr, buf) => UnmarshalAsksNobody(env, app, addr, buf);
    case DoCommit(_) =>
    case DoComplete(_) =>
    case DoAbort =>
  }

  /** Every run that does not panic keeps the invariant, whatever is called in whatever order. */
  lemma {:induction false} RunsKeepInv(env: Env, ops: seq<Op>)
    ensures var r := RunOps(env, NO_DEVICES, ops); r.Ran? ==> Inv(env, r.value)
    decreases |ops|
  {
    if ops == [] {
      assert Inv(env, NO_DEVICES);
    } else if RunOps(env, NO_DEVICES, ops).Ran? {
      RunsKeepInv(env, ops[..|ops| - 1]);
      var before, op := RunOps(env, NO_DEVICES, ops[..|ops| - 1]).value, ops[|ops| - 1];
      StepShape(env, before, op);
      StepAsksNobody(env, before, op);
      forall h: nat ensures Accounted(StepOp(env, before, op).value, h) {
        assert Accounted(before, h);
        StepConserves(env, before, op, h);
      }
    }
  }

  // ---------------------------------------------------------------- released exactly once

  lemma {:induction false} FreedAt(entries: seq<Entry>, k: nat)
    requires k < |entries| && entries[k].Entry? && InEntries(entries, entries[k].held.handle) == 1
    ensures FreedTimes(Frees(entries), entries[k].held.handle) == One(entries[k].status != DontFreeObject)
  {
    var h := entries[k].held.handle;
    var first := if entries[0].Entry? && entries[0].status != DontFreeObject then [Freed(entries[0].held.handle)] else [];
    FreedTimesConcat(first, Frees(entries[1..]), h);
    assert first != [] ==> first[1..] == [];
    if k == 0 {
      FreesAtMost(entries[1..], h);
    } else {
      EntryIsIn(entries[1..], k - 1);
      FreedAt(entries[1..], k - 1);
    }
  }

  lemma {:induction false} EntryIsIn(entries: seq<Entry>, k: nat)
    requires k < |entries| && entries[k].Entry?
    ensures InEntries(entries, entries[k].held.handle) >= 1
  {
    if k > 0 {
      EntryIsIn(entries[1..], k - 1);
    }
  }

  lemma FreedInDev(dev: Dev, k: nat)
    requires InUse(dev) && k < dev.part.free && dev.part.list[k].Entry? && InDev(dev, dev.part.list[k].held.handle) == 1
    ensures FreedTimes(FreesOf(dev), dev.part.list[k].held.handle) == One(dev.part.list[k].status != DontFreeObject)
  {
    var list, free := dev.part.list, dev.part.free;
    var h := list[k].held.handle;
    InEntriesConcat(list[..free], list[free..], h);
    assert list == list[..free] + list[free..];
    EntryIsIn(list[..free], k);
    FreedAt(list[..free], k);
  }

  lemma {:induction false} FreedInDevs(devs: seq<Dev>, d: nat, k: nat)
    requires d < |devs| && InUse(devs[d]) && k < devs[d].part.free && devs[d].part.list[k].Entry?
    requires InDevs(devs, devs[d].part.list[k].held.handle) == 1
    ensures FreedTimes(AllFrees(devs), devs[d].part.list[k].held.handle) == One(devs[d].part.list[k].status != DontFreeObject)
  {
    var h := devs[d].part.list[k].held.handle;
    FreedTimesConcat(FreesOf(devs[0]), AllFrees(devs[1..]), h);
    if d == 0 {
      DevIsIn(devs[0], k);
      FreedInDev(devs[0], k);
      AllFreesAtMost(devs[1..], h);
    } else {
      DevsIsIn(devs[1..], d - 1, k);
      FreesOfAtMost(devs[0], h);
      FreedInDevs(devs[1..], d - 1, k);
    }
  }

  lemma DevIsIn(dev: Dev, k: nat)
    requires InUse(dev) && k < dev.part.free && dev.part.list[k].Entry?
    ensures InDev(dev, dev.part.list[k].held.handle) >= 1
  {
    EntryIsIn(dev.part.list, k);
  }

  lemma {:induction false} DevsIsIn(devs: seq<Dev>, d: nat, k: nat)
    requires d < |devs| && InUse(devs[d]) && k < devs[d].part.free && devs[d].part.list[k].Entry?
    ensures InDevs(devs, devs[d].part.list[k].held.handle) >= 1
  {
    if d == 0 {
      DevIsIn(devs[0], k);
    } else {
      DevsIsIn(devs[1..], d - 1, k);
    }
  }

  /** What the owner of an object answers when it is given the object; Failure stands for not being asked, too. */
  function AnswerOf(table: Table, addr: nat, focused: bool, o: Obj): Status {
    match Owner(table, o.kind, 0)
    case None => Failure
    case Some((i, j)) =>
      if Eligible(TypesOf(table, i)[j], focused) then table[i].unmarshal(addr, o.kind, o.values) else Failure
  }

  /** What the client of a collected object answers: only Complete as primary asks. */
  function AnswerAt(env: Env, app: App, primary: bool, d: nat, k: nat): Status
    requires CollectedAt(app, d, k)
  {
    var dev := app.devs[d];
    if primary then AnswerOf(env.table, dev.addr.addr, dev.focused, dev.part.list[k].held.obj) else Failure
  }

  /** The status that dispatching stores is the answer of the owner. */
  lemma {:induction false} DispatchStores(table: Table, addr: nat, focused: bool, entries: seq<Entry>, k: nat)
    requires k < |entries| && entries[k].Entry? && entries[k].status == Failure
    requires Dispatch(table, addr, focused, entries).Ran?
    ensures var items := Dispatch(table, addr, focused, entries).value.items;
            items[k].Entry? && items[k].status == AnswerOf(table, addr, focused, entries[k].held.obj)
    decreases k
  {
    hide Owner;
    if k > 0 {
      DispatchStores(table, addr, focused, entries[1..], k - 1);
    }
  }

  lemma DispatchDevStores(table: Table, dev: Dev, k: nat)
    requires InUse(dev) && k < dev.part.free && dev.part.list[k].Entry? && dev.part.list[k].status == Failure
    requires DispatchDev(table, dev).Ran?
    ensures var after := DispatchDev(table, dev).value.items[0];
            && after.part.UnmarshalPart? && k < |after.part.list| && after.part.list[k].Entry?
            && after.part.list[k].status == AnswerOf(table, dev.addr.addr, dev.focused, dev.part.list[k].held.obj)
  {
    hide Dispatch, AnswerOf;
    DispatchStores(table, dev.addr.addr, dev.focused, dev.part.list[..dev.part.free], k);
  }

  lemma {:induction false} DispatchAllStores(table: Table, devs: seq<Dev>, d: nat, k: nat)
    requires d < |devs| && InUse(devs[d]) && k < devs[d].part.free
    requires devs[d].part.list[k].Entry? && devs[d].part.list[k].status == Failure && DispatchAll(table, devs).Ran?
    ensures var after := DispatchAll(table, devs).value.items[d];
            && after.part.UnmarshalPart? && k < |after.part.list| && after.part.list[k].Entry?
            && after.part.list[k].status == AnswerOf(table, devs[d].addr.addr, devs[d].focused, devs[d].part.list[k].held.obj)
    decreases d
  {
    hide DispatchDev, AnswerOf;
    if d == 0 {
      DispatchDevStores(table, devs[0], k);
    } else {
      DispatchAllStores(table, devs[1..], d - 1, k);
    }
  }

  /** The object at place `k` of the list of device `d`. */
  predicate CollectedAt(app: App, d: nat, k: nat) {
    d < |app.devs| && InUse(app.devs[d]) && k < app.devs[d].part.free && app.devs[d].part.list[k].Entry?
  }

  lemma CollectedAreEntries(env: Env, app: App, d: nat, k: nat)
    requires Inv(env, app) && d < |app.devs| && InUse(app.devs[d]) && k < app.devs[d].part.free
    ensures CollectedAt(app, d, k) && app.devs[d].part.list[k].status == Failure
  {
    assert MemberMatches(app.devs[d]) && Unasked(app.devs[d]);
  }

  lemma PrimaryReleases(env: Env, app: App, d: nat, k: nat)
    requires Inv(env, app) && CompleteCall(env, app, true).Ran? && CollectedAt(app, d, k)
    ensures FreedTimes(CompleteCall(env, app, true).value.log, app.devs[d].part.list[k].held.handle)
            == One(AnswerAt(env, app, true, d, k) != DontFreeObject)
  {
    var h := app.devs[d].part.list[k].held.handle;
    var n := |env.table|;
    DispatchAllKeeps(env.table, app.devs, h);
    var r := DispatchAll(env.table, app.devs).value;
    assert OnlyStatuses(app.devs[d], r.items[d]);
    CollectedAreEntries(env, app, d, k);
    DispatchAllStores(env.table, app.devs, d, k);
    DevsIsIn(app.devs, d, k);
    assert Accounted(app, h);
    hide AnswerOf, Dispatch, DispatchAll, InUse;
    FreedInDevs(r.items, d, k);
    NoFrees(Commits(n, true), h);
    NoFrees(Policies(app.devs), h);
    FreedTimesConcat(app.log, r.calls, h);
    FreedTimesConcat(app.log + r.calls, Commits(n, true), h);
    FreedTimesConcat(app.log + r.calls + Commits(n, true), Policies(app.devs), h);
    FreedTimesConcat(app.log + r.calls + Commits(n, true) + Policies(app.devs), AllFrees(r.items), h);
  }

  lemma CleanupReleases(env: Env, app: App, calls: seq<Call>, d: nat, k: nat)
    requires Inv(env, app) && CollectedAt(app, d, k) && forall i | 0 <= i < |calls| :: !calls[i].Freed?
    ensures FreedTimes(Cleanup(app.(log := app.log + calls)).log, app.devs[d].part.list[k].held.handle) == 1
  {
    var h := app.devs[d].part.list[k].held.handle;
    CollectedAreEntries(env, app, d, k);
    DevsIsIn(app.devs, d, k);
    assert Accounted(app, h);
    FreedInDevs(app.devs, d, k);
    NoFrees(calls, h);
    FreedTimesConcat(app.log, calls, h);
    FreedTimesConcat(app.log + calls, AllFrees(app.devs), h);
  }

  /** After any run, Complete in either role releases each collected object exactly once, unless it asked the client and
      that keeps it. */
  lemma {:induction false} CompleteReleases(env: Env, ops: seq<Op>, primary: bool, d: nat, k: nat)
    requires RunOps(env, NO_DEVICES, ops).Ran?
    requires var app := RunOps(env, NO_DEVICES, ops).value;
             CompleteCall(env, app, primary).Ran? && d < |app.devs| && InUse(app.devs[d]) && k < app.devs[d].part.free
    ensures var app := RunOps(env, NO_DEVICES, ops).value;
            && CollectedAt(app, d, k)
            && FreedTimes(CompleteCall(env, app, primary).value.log, app.devs[d].part.list[k].held.handle)
               == One(AnswerAt(env, app, primary, d, k) != DontFreeObject)
  {
    RunsKeepInv(env, ops);
    hide RunOps, Inv;
    var app := RunOps(env, NO_DEVICES, ops).value;
    CollectedAreEntries(env, app, d, k);
    if primary {
      PrimaryReleases(env, app, d, k);
    } else {
      CleanupReleases(env, app, Commits(|env.table|, false), d, k);
    }
  }

  /** After any run, Abort releases each collected object exactly once. */
  lemma {:induction false} AbortReleases(env: Env, ops: seq<Op>, d: nat, k: nat)
    requires RunOps(env, NO_DEVICES, ops).Ran?
    requires var app := RunOps(env, NO_DEVICES, ops).value;
             d < |app.devs| && InUse(app.devs[d]) && k < app.devs[d].part.free
    ensures var app := RunOps(env, NO_DEVICES, ops).value;
            && CollectedAt(app, d, k) && FreedTimes(Cleanup(app).log, app.devs[d].part.list[k].held.handle) == 1
  {
    RunsKeepInv(env, ops);
    hide RunOps, Inv;
    var app := RunOps(env, NO_DEVICES, ops).value;
    CollectedAreEntries(env, app, d, k);
    CleanupReleases(env, app, [], d, k);
    assert app.log + [] == app.log;
  }

  /** Memory that no device refers to any more is never released again, so what a client kept stays its own. */
  lemma {:induction false} NeverAgain(env: Env, app: App, ops: seq<Op>, h: nat)
    requires Inv(env, app) && h < app.next && InDevs(app.devs, h) == 0
    ensures var r := RunOps(env, app, ops);
            r.Ran? ==> FreedTimes(r.value.log, h) == FreedTimes(app.log, h) && InDevs(r.value.devs, h) == 0
                       && Shaped(r.value.devs) && CursorOk(env.table, r.value) && h < r.value.next
    decreases |ops|
  {
    if ops != [] && RunOps(env, app, ops).Ran? {
      NeverAgain(env, app, ops[..|ops| - 1], h);
      var before, op := RunOps(env, app, ops[..|ops| - 1]).value, ops[|ops| - 1];
      StepConserves(env, before, op, h);
      StepShape(env, before, op);
    }
  }
}
