/** The state of earbud/src/earbud_handover.c as a value, and what each of its entry points does to it. */
module HandoverSpec {
  import opened Results
  import opened HandoverCodec
  import opened HandoverWalk
  import opened HandoverCollect

  /** A typed Bluetooth address; clients are told only `addr`. */
  datatype TpAddr = TpAddr(transport: nat, addr: nat)

  datatype Mode = Initialized | Marshaling | Unmarshaling

  /** The union of a device: which member is meaningful depends on the mode. */
  datatype Part = NoPart | MarshalPart(marshaller: Marshaller)
                | UnmarshalPart(partial: seq<Held>, list: seq<Entry>, free: nat, slots: nat)

  datatype Dev = Dev(addr: TpAddr, focused: bool, mode: Mode, part: Part)

  /** What happens outside, in order. */
  datatype Call = Unmarshalled(client: nat, addr: nat, obj: Obj) | Committed(client: nat, primary: bool)
                | PolicyForced(addr: nat) | Freed(handle: nat)

  /** `next` counts allocations made by unmarshallers. The type cursor means nothing without an interface. */
  datatype App = App(devs: seq<Dev>, curr: Option<nat>, currType: nat, next: nat, log: seq<Call>)

  /** What the code is given: registered interfaces, the mirrored device, and the sizes of the described types. */
  datatype Env = Env(table: Table, mirrored: nat, sizes: seq<nat>)

  datatype Outcome<+T> = Ran(value: T) | Panicked

  const NO_DEVICES := App([], None, 0, 0, [])

  // ---------------------------------------------------------------- looking things up

  function FirstTyped(table: Table, from: nat): (r: Option<nat>)
    ensures r.Some? ==> from <= r.value < |table| && table[r.value].types.Some?
    ensures r.None? <==> forall i | from <= i < |table| :: table[i].types.None?
    decreases |table| - from
  {
    if from >= |table| then None else if table[from].types.Some? then Some(from) else FirstTyped(table, from + 1)
  }

  /** getNextInterface. */
  function NextInterface(table: Table, curr: Option<nat>): Option<nat> {
    FirstTyped(table, if curr.Some? then curr.value + 1 else 0)
  }

  predicate AnyTyped(table: Table) {
    exists i | 0 <= i < |table| :: table[i].types.Some?
  }

  function Find(devs: seq<Dev>, addr: TpAddr): (k: nat)
    ensures k <= |devs| && (k < |devs| ==> devs[k].addr == addr)
    ensures forall i | 0 <= i < k :: devs[i].addr != addr
  {
    if devs == [] || devs[0].addr == addr then 0 else 1 + Find(devs[1..], addr)
  }

  function FreshDev(env: Env, addr: TpAddr): Dev {
    Dev(addr, addr.addr == env.mirrored, Initialized, NoPart)
  }

  /** A new device goes to the front of the list. */
  function WithDevice(env: Env, app: App, addr: TpAddr): (a: App)
    ensures Find(a.devs, addr) < |a.devs|
  {
    if Find(app.devs, addr) < |app.devs| then app else app.(devs := [FreshDev(env, addr)] + app.devs)
  }

  // ---------------------------------------------------------------- earbudHandover_Marshal

  datatype MarshalReturn = MarshalReturn(app: App, written: seq<Byte>, done: bool)

  function Cursor(table: Table, w: Walked): (r: (Option<nat>, nat))
    requires w.Walked?
  {
    if w.done then (None, 0) else (Some(w.i), w.j)
  }

  /** MarshalInit. */
  const FRESH_MARSHALLER := Marshaller(Idle, [], 0, MAX_OBJECTS)

  function Begin(env: Env, app: App, d: nat): App
    requires d < |app.devs|
  {
    if app.devs[d].mode.Initialized? then
      app.(curr := NextInterface(env.table, None), currType := 0,
           devs := app.devs[d := app.devs[d].(mode := Marshaling, part := MarshalPart(FRESH_MARSHALLER))])
    else app
  }

  /** The walk for a device that is being marshalled. */
  function Continue(env: Env, app: App, d: nat, size: nat): Outcome<MarshalReturn>
    requires d < |app.devs| && app.devs[d].part.MarshalPart?
  {
    var dev := app.devs[d];
    var m := SetBuffer(dev.part.marshaller, size);
    var w := if app.curr.None? then Walked(0, 0, m, true)
             else Walk(env.table, dev.addr.addr, dev.focused, app.curr.value, app.currType, m);
    if w.Overfull? then Panicked
    else
      var (curr, currType) := Cursor(env.table, w);
      Ran(MarshalReturn(app.(curr := curr, currType := currType,
                             devs := app.devs[d := dev.(part := MarshalPart(w.marshaller))]),
                        w.marshaller.out, w.done))
  }

  /** `written` means nothing to the caller when no interface has types. */
  function MarshalCall(env: Env, app: App, addr: TpAddr, size: nat): Outcome<MarshalReturn> {
    if !AnyTyped(env.table) then Ran(MarshalReturn(app, [], true))
    else
      var found := WithDevice(env, app, addr);
      var d := Find(found.devs, addr);
      var begun := Begin(env, found, d);
      if !begun.devs[d].part.MarshalPart? then Panicked else Continue(env, begun, d, size)
  }

  // ---------------------------------------------------------------- earbudHandover_Unmarshal

  function EligibleIn(infos: seq<TypeInfo>, focused: bool): (n: nat)
    ensures n <= |infos|
  {
    if infos == [] then 0 else (if Eligible(infos[0], focused) then 1 else 0) + EligibleIn(infos[1..], focused)
  }

  /** The number of types that the peer may send for this device. */
  function EligibleTypes(table: Table, focused: bool, from: nat): nat
    decreases |table| - from
  {
    if from >= |table| then 0
    else EligibleIn(TypesOf(table, from), focused) + EligibleTypes(table, focused, from + 1)
  }

  /** The list is as long as an eight-bit count says. */
  function EmptyList(table: Table, focused: bool): seq<Entry> {
    seq(EligibleTypes(table, focused, 0) % 256, _ => Vacant)
  }

  datatype UnmarshalReturn = UnmarshalReturn(app: App, consumed: nat, complete: bool)

  /** The first call for a device allocates its list. */
  function SetUp(env: Env, dev: Dev): Dev {
    if dev.mode.Initialized?
    then dev.(mode := Unmarshaling, part := UnmarshalPart([], EmptyList(env.table, dev.focused), 0, MAX_OBJECTS))
    else dev
  }

  function CollectorFor(app: App, dev: Dev): Collector
    requires dev.part.UnmarshalPart?
  {
    Collector(dev.part.partial, dev.part.list, dev.part.free, app.next, dev.part.slots)
  }

  function PartOf(c: Collector): Part {
    UnmarshalPart(c.partial, c.list, c.free, c.slots)
  }

  /** The loop for a device that is being unmarshalled. */
  function CollectInto(env: Env, app: App, d: nat, dev: Dev, buf: seq<Byte>): Outcome<UnmarshalReturn>
    requires d < |app.devs| && dev.part.UnmarshalPart?
  {
    match Collect(env.table, env.sizes, CollectorFor(app, dev), buf, 0)
    case Overrun => Panicked
    case Collected(c, consumed, complete) =>
      Ran(UnmarshalReturn(app.(devs := app.devs[d := dev.(part := PartOf(c))], next := c.next), consumed, complete))
  }

  function UnmarshalCall(env: Env, app: App, addr: TpAddr, buf: seq<Byte>): Outcome<UnmarshalReturn> {
    var found := WithDevice(env, app, addr);
    var d := Find(found.devs, addr);
    var dev := found.devs[d];
    if buf == [] || dev.mode.Marshaling? || (dev.mode.Initialized? && NextInterface(env.table, app.curr).None?) then Panicked
    else if !SetUp(env, dev).part.UnmarshalPart? then Panicked
    else CollectInto(env, found, d, SetUp(env, dev), buf)
  }

  // ---------------------------------------------------------------- earbudHandover_Complete

  function FirstWithKind(infos: seq<TypeInfo>, kind: Byte): (j: nat)
    ensures j <= |infos| && (j < |infos| ==> infos[j].kind == kind)
    ensures forall k | 0 <= k < j :: infos[k].kind != kind
  {
    if infos == [] || infos[0].kind == kind then 0 else 1 + FirstWithKind(infos[1..], kind)
  }

  /** earbudHandover_GetInterfaceForType, with the place of the type in the interface. */
  function Owner(table: Table, kind: Byte, from: nat): (r: Option<(nat, nat)>)
    ensures r.Some? ==> from <= r.value.0 < |table| && r.value.1 < |TypesOf(table, r.value.0)|
                        && TypesOf(table, r.value.0)[r.value.1].kind == kind
    decreases |table| - from
  {
    if from >= |table| then None
    else
      var j := FirstWithKind(TypesOf(table, from), kind);
      if j < |TypesOf(table, from)| then Some((from, j)) else Owner(table, kind, from + 1)
  }

  /** Entries or devices with the statuses that clients answered, and the calls that were made. */
  datatype Dispatched<+T> = Dispatched(items: seq<T>, calls: seq<Call>)

  function Join<T>(a: Outcome<Dispatched<T>>, b: Outcome<Dispatched<T>>): Outcome<Dispatched<T>> {
    if a.Panicked? || b.Panicked? then Panicked
    else Ran(Dispatched(a.value.items + b.value.items, a.value.calls + b.value.calls))
  }

  lemma JoinAssociative<T>(a: Outcome<Dispatched<T>>, b: Outcome<Dispatched<T>>, c: Outcome<Dispatched<T>>)
    ensures Join(Join(a, b), c) == Join(a, Join(b, c))
  {
    if a.Ran? && b.Ran? && c.Ran? {
      assert a.value.items + b.value.items + c.value.items == a.value.items + (b.value.items + c.value.items);
      assert a.value.calls + b.value.calls + c.value.calls == a.value.calls + (b.value.calls + c.value.calls);
    }
  }

  lemma JoinNothing<T>(a: Outcome<Dispatched<T>>)
    ensures Join(a, Ran(Dispatched([], []))) == a == Join(Ran(Dispatched([], [])), a)
  {
    if a.Ran? {
      assert a.value.items + [] == a.value.items == [] + a.value.items;
      assert a.value.calls + [] == a.value.calls == [] + a.value.calls;
    }
  }

  function DispatchOne(table: Table, addr: nat, focused: bool, e: Entry): (r: Outcome<Dispatched<Entry>>)
    ensures r.Ran? ==> |r.value.items| == 1
  {
    if e.Vacant? then Panicked
    else
      match Owner(table, e.held.obj.kind, 0)
      case None => Panicked
      case Some((i, j)) =>
        if !Eligible(TypesOf(table, i)[j], focused) then Ran(Dispatched([e], []))
        else
          var status := table[i].unmarshal(addr, e.held.obj.kind, e.held.obj.values);
          if status == Failure then Panicked
          else Ran(Dispatched([e.(status := status)], [Unmarshalled(i, addr, e.held.obj)]))
  }

  /** earbudHandover_ClientUnmarshalForDevice, over the filled part of the list. */
  function Dispatch(table: Table, addr: nat, focused: bool, entries: seq<Entry>): (r: Outcome<Dispatched<Entry>>)
    ensures r.Ran? ==> |r.value.items| == |entries|
  {
    if entries == [] then Ran(Dispatched([], []))
    else Join(DispatchOne(table, addr, focused, entries[0]), Dispatch(table, addr, focused, entries[1..]))
  }

  predicate InUse(dev: Dev) {
    dev.mode.Unmarshaling? && dev.part.UnmarshalPart? && dev.part.free <= |dev.part.list|
  }

  function DispatchDev(table: Table, dev: Dev): (r: Outcome<Dispatched<Dev>>)
    ensures r.Ran? ==> |r.value.items| == 1
  {
    if !InUse(dev) then Panicked
    else
      var part := dev.part;
      match Dispatch(table, dev.addr.addr, dev.focused, part.list[..part.free])
      case Panicked => Panicked
      case Ran(d) => Ran(Dispatched([dev.(part := part.(list := d.items + part.list[part.free..]))], d.calls))
  }

  function DispatchAll(table: Table, devs: seq<Dev>): (r: Outcome<Dispatched<Dev>>)
    ensures r.Ran? ==> |r.value.items| == |devs|
  {
    if devs == [] then Ran(Dispatched([], [])) else Join(DispatchDev(table, devs[0]), DispatchAll(table, devs[1..]))
  }

  function Commits(n: nat, primary: bool): seq<Call> {
    seq(n, i requires 0 <= i < n => Committed(i, primary))
  }

  function Policies(devs: seq<Dev>): seq<Call> {
    seq(|devs|, k requires 0 <= k < |devs| => PolicyForced(devs[k].addr.addr))
  }

  /** earbudHandover_CleanupUnmarshalDataListForDevice. */
  function Frees(entries: seq<Entry>): seq<Call> {
    if entries == [] then []
    else (if entries[0].Entry? && entries[0].status != DontFreeObject then [Freed(entries[0].held.handle)] else [])
         + Frees(entries[1..])
  }

  function FreesOf(dev: Dev): seq<Call> {
    if InUse(dev) then Frees(dev.part.list[..dev.part.free]) else []
  }

  function AllFrees(devs: seq<Dev>): seq<Call> {
    if devs == [] then [] else FreesOf(devs[0]) + AllFrees(devs[1..])
  }

  /** earbudHandover_CleanupAppContext, also what earbudHandover_Abort does. */
  function Cleanup(app: App): App {
    App([], None, 0, app.next, app.log + AllFrees(app.devs))
  }

  function CompleteCall(env: Env, app: App, primary: bool): Outcome<App> {
    if primary then
      match DispatchAll(env.table, app.devs)
      case Panicked => Panicked
      case Ran(d) =>
        Ran(Cleanup(app.(devs := d.items,
                         log := app.log + d.calls + Commits(|env.table|, true) + Policies(app.devs))))
    else Ran(Cleanup(app.(log := app.log + Commits(|env.table|, false))))
  }

  /** earbudHandover_Commit only checks that the device was marshalled or unmarshalled. */
  function CommitCall(env: Env, app: App, addr: TpAddr): Outcome<App> {
    if !AnyTyped(env.table) then Ran(app)
    else
      var d := Find(app.devs, addr);
      if d < |app.devs| && !app.devs[d].mode.Initialized? then Ran(app) else Panicked
  }

  /** The caller commits each device in turn, before Complete. */
  function CommitAll(env: Env, app: App, addrs: seq<TpAddr>): Outcome<App> {
    if addrs == [] then Ran(app)
    else
      match CommitCall(env, app, addrs[0])
      case Panicked => Panicked
      case Ran(committed) => CommitAll(env, committed, addrs[1..])
  }
}
