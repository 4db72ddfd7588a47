/** The round trip: at Complete each client of the new primary receives exactly what the same client of the old
    primary supplied. */
module HandoverComplete {
  import opened Results
  import opened HandoverCodec
  import opened HandoverWalk
  import opened HandoverCollect
  import opened HandoverSpec
  import opened HandoverMarshal
  import opened HandoverUnmarshal
  import opened HandoverLog

  // ---------------------------------------------------------------- dispatch to the owners

  lemma {:induction false} OwnerFound(table: Table, kind: Byte, i: nat, j: nat, from: nat)
    requires UniqueKinds(table) && TypeAt(table, i, j, kind) && from <= i
    ensures Owner(table, kind, from) == Some((i, j))
    decreases i - from
  {
    var k := FirstWithKind(TypesOf(table, from), kind);
    if k < |TypesOf(table, from)| {
      assert TypeAt(table, from, k, kind);
    } else {
      OwnerFound(table, kind, i, j, from + 1);
    }
  }

  /** The calls that hand these objects to the clients that supplied them. */
  function CallsFor(addr: nat, supplies: seq<Supply>): seq<Call> {
    if supplies == [] then []
    else [Unmarshalled(supplies[0].client, addr, supplies[0].obj)] + CallsFor(addr, supplies[1..])
  }

  predicate Accepts(env: Env, addr: nat, s: Supply) {
    s.client < |env.table| && env.table[s.client].unmarshal(addr, s.obj.kind, s.obj.values) != Failure
  }

  predicate AllAccepted(env: Env, addr: nat, supplies: seq<Supply>) {
    supplies == [] || (Accepts(env, addr, supplies[0]) && AllAccepted(env, addr, supplies[1..]))
  }

  predicate Carries(entries: seq<Entry>, supplies: seq<Supply>) {
    && |entries| == |supplies|
    && forall k | 0 <= k < |entries| :: entries[k].Entry? && entries[k].held.obj == supplies[k].obj && entries[k].status == Failure
  }

  /** Some type of the table supplies this. */
  ghost predicate HasSource(table: Table, addr: nat, focused: bool, s: Supply) {
    exists i: nat, j: nat :: SuppliedAt(table, addr, focused, i, j, s)
  }

  ghost predicate Genuine(table: Table, addr: nat, focused: bool, supplies: seq<Supply>) {
    forall k | 0 <= k < |supplies| :: HasSource(table, addr, focused, supplies[k])
  }

  /** One object goes back to its own client. */
  lemma DispatchToOwner(sender: Env, receiver: Env, addr: nat, focused: bool, i: nat, j: nat, s: Supply, e: Entry)
    requires SoundTable(receiver) && Twins(sender, receiver) && SuppliedAt(sender.table, addr, focused, i, j, s)
    requires e.Entry? && e.held.obj == s.obj
    ensures s.client == i
    ensures var r := DispatchOne(receiver.table, addr, focused, e);
            && (r.Ran? <==> Accepts(receiver, addr, s))
            && (r.Ran? ==> r.value.calls == [Unmarshalled(s.client, addr, s.obj)])
  {
    assert TypeAt(receiver.table, i, j, s.obj.kind);
    OwnerFound(receiver.table, s.obj.kind, i, j, 0);
  }

  lemma {:induction false} DispatchAllOfDevice(sender: Env, receiver: Env, addr: nat, focused: bool, supplies: seq<Supply>,
                                               entries: seq<Entry>)
    requires SoundTable(receiver) && Twins(sender, receiver) && Genuine(sender.table, addr, focused, supplies)
    requires Carries(entries, supplies)
    ensures var r := Dispatch(receiver.table, addr, focused, entries);
            && (r.Ran? <==> AllAccepted(receiver, addr, supplies))
            && (r.Ran? ==> r.value.calls == CallsFor(addr, supplies))
    decreases |supplies|
  {
    if supplies != [] {
      assert HasSource(sender.table, addr, focused, supplies[0]);
      var i: nat, j: nat :| SuppliedAt(sender.table, addr, focused, i, j, supplies[0]);
      DispatchToOwner(sender, receiver, addr, focused, i, j, supplies[0], entries[0]);
      assert Genuine(sender.table, addr, focused, supplies[1..]) by {
        assert forall k | 0 <= k < |supplies[1..]| :: supplies[1..][k] == supplies[k + 1];
      }
      DispatchAllOfDevice(sender, receiver, addr, focused, supplies[1..], entries[1..]);
    }
  }

  // ---------------------------------------------------------------- all devices

  /** The device holds everything the peer supplied for it. */
  ghost predicate HoldsAll(sender: Env, dev: Dev, addr: TpAddr) {
    && dev.addr == addr && dev.focused == (addr.addr == sender.mirrored) && InUse(dev)
    && Carries(dev.part.list[..dev.part.free], Supplies(sender, addr))
  }

  ghost predicate AllHold(sender: Env, devs: seq<Dev>, addrs: seq<TpAddr>) {
    && |devs| == |addrs|
    && forall k | 0 <= k < |devs| :: HoldsAll(sender, devs[k], addrs[k])
  }

  function Delivered(sender: Env, addrs: seq<TpAddr>): seq<Call> {
    if addrs == [] then [] else CallsFor(addrs[0].addr, Supplies(sender, addrs[0])) + Delivered(sender, addrs[1..])
  }

  predicate EverythingAccepted(sender: Env, receiver: Env, addrs: seq<TpAddr>) {
    addrs == [] || (AllAccepted(receiver, addrs[0].addr, Supplies(sender, addrs[0])) && EverythingAccepted(sender, receiver, addrs[1..]))
  }

  lemma SuppliesAreGenuine(sender: Env, addr: TpAddr)
    ensures Genuine(sender.table, addr.addr, addr.addr == sender.mirrored, Supplies(sender, addr))
  {
    var focused := addr.addr == sender.mirrored;
    forall k | 0 <= k < |Supplies(sender, addr)|
      ensures HasSource(sender.table, addr.addr, focused, Supplies(sender, addr)[k])
    {
      var i, j := WhereSupplied(sender.table, addr.addr, focused, 0, 0, k);
      assert SuppliedAt(sender.table, addr.addr, focused, i, j, Supplies(sender, addr)[k]);
    }
  }

  lemma {:induction false} DispatchToAll(sender: Env, receiver: Env, devs: seq<Dev>, addrs: seq<TpAddr>)
    requires SoundTable(receiver) && Twins(sender, receiver) && AllHold(sender, devs, addrs)
    ensures var r := DispatchAll(receiver.table, devs);
            && (r.Ran? <==> EverythingAccepted(sender, receiver, addrs))
            && (r.Ran? ==> r.value.calls == Delivered(sender, addrs))
    decreases |devs|
  {
    if devs != [] {
      var dev, addr := devs[0], addrs[0];
      assert HoldsAll(sender, dev, addr);
      SuppliesAreGenuine(sender, addr);
      DispatchAllOfDevice(sender, receiver, addr.addr, dev.focused, Supplies(sender, addr), dev.part.list[..dev.part.free]);
      assert AllHold(sender, devs[1..], addrs[1..]) by {
        assert forall k | 0 <= k < |devs[1..]| :: devs[1..][k] == devs[k + 1] && addrs[1..][k] == addrs[k + 1];
      }
      DispatchToAll(sender, receiver, devs[1..], addrs[1..]);
    }
  }

  // ---------------------------------------------------------------- one device after another

  /** A device with the sizes of the marshal buffers, and the places where its stream is cut. */
  datatype Transfer = Transfer(addr: TpAddr, sizes: seq<nat>, cuts: seq<nat>)

  datatype Shipment = Shipment(app: App, streams: seq<seq<Byte>>, done: bool)

  /** The old primary marshals device after device; `done` says whether each was completed. */
  function SendAll(env: Env, app: App, plan: seq<Transfer>): (r: Outcome<Shipment>)
    ensures r.Ran? ==> |r.value.streams| == |plan|
  {
    if plan == [] then Ran(Shipment(app, [], true))
    else
      match SendAll(env, app, plan[..|plan| - 1])
      case Panicked => Panicked
      case Ran(s) =>
        match MarshalRun(env, s.app, plan[|plan| - 1].addr, plan[|plan| - 1].sizes)
        case Panicked => Panicked
        case Ran(r) => Ran(Shipment(r.app, s.streams + [r.written], s.done && r.done))
  }

  function ReceiveAll(env: Env, app: App, plan: seq<Transfer>, streams: seq<seq<Byte>>): Outcome<App>
    requires |streams| == |plan|
  {
    if plan == [] then Ran(app)
    else
      var n := |plan| - 1;
      match ReceiveAll(env, app, plan[..n], streams[..n])
      case Panicked => Panicked
      case Ran(a) =>
        match UnmarshalRun(env, a, plan[n].addr, streams[n], plan[n].cuts)
        case Panicked => Panicked
        case Ran(f) => Ran(f.app)
  }

  predicate Distinct(plan: seq<Transfer>) {
    forall i, j | 0 <= i < j < |plan| :: plan[i].addr != plan[j].addr
  }

  /** The devices with something to send, the latest first: the order of the device list. */
  function ListOrder(env: Env, plan: seq<Transfer>): (addrs: seq<TpAddr>)
    ensures forall addr :: addr in addrs <==> InPlan(plan, addr) && Supplied(env, addr) != []
  {
    if plan == [] then []
    else
      var addr := plan[|plan| - 1].addr;
      assert forall a :: InPlan(plan, a) <==> a == addr || InPlan(plan[..|plan| - 1], a);
      (if Supplied(env, addr) == [] then [] else [addr]) + ListOrder(env, plan[..|plan| - 1])
  }

  predicate InPlan(plan: seq<Transfer>, addr: TpAddr) {
    exists i | 0 <= i < |plan| :: plan[i].addr == addr
  }

  lemma {:induction false} FindAbsent(devs: seq<Dev>, addr: TpAddr)
    requires forall k | 0 <= k < |devs| :: devs[k].addr != addr
    ensures Find(devs, addr) == |devs|
  {
  }

  /** The streams say what the clients supply, device by device. */
  ghost predicate StreamsOf(env: Env, plan: seq<Transfer>, streams: seq<seq<Byte>>) {
    && |streams| == |plan|
    && forall i | 0 <= i < |plan| :: streams[i] == Encode(Supplied(env, plan[i].addr))
  }

  lemma OneMoreStream(env: Env, plan: seq<Transfer>, streams: seq<seq<Byte>>, stream: seq<Byte>)
    requires plan != [] && |streams| == |plan| - 1
    ensures StreamsOf(env, plan, streams + [stream])
            <==> StreamsOf(env, plan[..|plan| - 1], streams) && stream == Encode(Supplied(env, plan[|plan| - 1].addr))
  {
    var before, all := plan[..|plan| - 1], streams + [stream];
    assert forall i | 0 <= i < |before| :: before[i] == plan[i] && all[i] == streams[i];
    if StreamsOf(env, plan, all) {
      assert all[|plan| - 1] == stream;
    }
  }

  /** The devices of the old primary, the latest first, all being marshalled. */
  predicate Listed(devs: seq<Dev>, plan: seq<Transfer>) {
    |devs| == |plan| && forall k | 0 <= k < |plan| :: devs[k].addr == plan[|plan| - 1 - k].addr && devs[k].mode.Marshaling?
  }

  lemma ListedAbsent(devs: seq<Dev>, plan: seq<Transfer>)
    requires plan != [] && Distinct(plan) && Listed(devs, plan[..|plan| - 1])
    ensures Find(devs, plan[|plan| - 1].addr) == |devs|
  {
    FindAbsent(devs, plan[|plan| - 1].addr);
  }

  lemma ListedMore(devs: seq<Dev>, plan: seq<Transfer>)
    requires plan != [] && devs != [] && Listed(devs[1..], plan[..|plan| - 1])
    requires devs[0].addr == plan[|plan| - 1].addr && devs[0].mode.Marshaling?
    ensures Listed(devs, plan)
  {
    assert forall k | 1 <= k < |plan| :: devs[k] == devs[1..][k - 1];
  }

  /** No device overruns the object set of the old primary's library. */
  predicate SendersHold(env: Env, plan: seq<Transfer>) {
    plan == [] || (SendersHold(env, plan[..|plan| - 1])
                   && !Overruns(Pieces(Supplied(env, plan[|plan| - 1].addr)), plan[|plan| - 1].sizes))
  }

  /** No device overruns the object set of the new primary's library. */
  predicate ReceiversHold(env: Env, plan: seq<Transfer>) {
    plan == [] || (ReceiversHold(env, plan[..|plan| - 1])
                   && Pushed(Supplied(env, plan[|plan| - 1].addr), plan[|plan| - 1].cuts) <= MAX_OBJECTS)
  }

  /** What the old primary sends for each device is the encoding of its objects, exactly when every device was
      completed; it panics exactly when a device overruns the object set. */
  lemma {:induction false} Shipped(env: Env, plan: seq<Transfer>)
    requires AnyTyped(env.table) && Distinct(plan) && forall i | 0 <= i < |plan| :: plan[i].sizes != []
    ensures SendAll(env, NO_DEVICES, plan).Ran? <==> SendersHold(env, plan)
    ensures SendAll(env, NO_DEVICES, plan).Ran? ==>
              var s := SendAll(env, NO_DEVICES, plan).value;
              (s.done <==> StreamsOf(env, plan, s.streams)) && Listed(s.app.devs, plan) && s.app.log == []
    decreases |plan|
  {
    if plan != [] {
      var n := |plan| - 1;
      Shipped(env, plan[..n]);
      if SendersHold(env, plan[..n]) {
        ShippedOne(env, plan, SendAll(env, NO_DEVICES, plan[..n]).value);
      }
    }
  }

  /** One more device. */
  lemma ShippedOne(env: Env, plan: seq<Transfer>, s: Shipment)
    requires AnyTyped(env.table) && plan != [] && Distinct(plan) && plan[|plan| - 1].sizes != []
    requires |s.streams| == |plan| - 1 && Listed(s.app.devs, plan[..|plan| - 1]) && s.app.log == []
    requires s.done <==> StreamsOf(env, plan[..|plan| - 1], s.streams)
    ensures var t := plan[|plan| - 1];
            var c := MarshalRun(env, s.app, t.addr, t.sizes);
            && (c.Panicked? <==> Overruns(Pieces(Supplied(env, t.addr)), t.sizes))
            && (c.Ran? ==> (s.done && c.value.done <==> StreamsOf(env, plan, s.streams + [c.value.written]))
                           && Listed(c.value.app.devs, plan) && c.value.app.log == [])
  {
    hide MarshalRun, Overruns, Supplied, Pieces, StreamsOf;
    var t := plan[|plan| - 1];
    ListedAbsent(s.app.devs, plan);
    ChunksDoNotMatter(env, s.app, t.addr, t.sizes);
    CompletedDevice(env, s.app, t.addr, t.sizes);
    if MarshalRun(env, s.app, t.addr, t.sizes).Ran? {
      var r := MarshalRun(env, s.app, t.addr, t.sizes).value;
      OneMoreStream(env, plan, s.streams, r.written);
      ListedMore(r.app.devs, plan);
    }
  }

  /** Every stream with bytes was handed over up to its end. */
  predicate HandedOver(plan: seq<Transfer>, streams: seq<seq<Byte>>)
    requires |streams| == |plan|
  {
    forall i | 0 <= i < |plan| && streams[i] != [] :: |streams[i]| in plan[i].cuts
  }

  lemma {:induction false} EmptyStream(env: Env, app: App, addr: TpAddr, cuts: seq<nat>)
    ensures UnmarshalRun(env, app, addr, [], cuts) == Ran(Fed(app, 0)) && Pushed([], cuts) == 0
    decreases |cuts|
  {
    if cuts != [] {
      EmptyStream(env, app, addr, cuts[..|cuts| - 1]);
    }
  }

  lemma CarriesAll(list: seq<Entry>, supplies: seq<Supply>)
    requires |supplies| <= |list|
    requires forall k | 0 <= k < |supplies| ::
               list[k].Entry? && list[k].held.obj == Objects(supplies)[k] && list[k].status == Failure
    ensures Carries(list[..|supplies|], supplies)
  {
  }

  /** A device with something to send is held in full afterwards, at the front of the list, unless it overruns the
      object set. */
  lemma DeviceReceived(sender: Env, receiver: Env, app: App, t: Transfer)
    requires SoundTable(receiver) && SoundClients(sender) && Twins(sender, receiver) && AnyTyped(receiver.table)
    requires Find(app.devs, t.addr) == |app.devs| && app.curr.None?
    requires Supplied(sender, t.addr) != [] && |Encode(Supplied(sender, t.addr))| in t.cuts
    ensures var r := UnmarshalRun(receiver, app, t.addr, Encode(Supplied(sender, t.addr)), t.cuts);
            && (r.Ran? <==> Pushed(Supplied(sender, t.addr), t.cuts) <= MAX_OBJECTS)
            && (r.Ran? ==>
                  && r.value.app.devs != [] && r.value.app.devs[1..] == app.devs
                  && HoldsAll(sender, r.value.app.devs[0], t.addr)
                  && r.value.app.log == app.log && r.value.app.curr == app.curr)
  {
    hide UnmarshalRun, Encode, Pushed;
    var objs := Supplied(sender, t.addr);
    CutsDoNotMatter(sender, receiver, app, t.addr, t.cuts);
    WholeStreamTaken(objs, t.cuts);
    assert objs[..|objs|] == objs && objs[|objs|..] == [];
    var r := UnmarshalRun(receiver, app, t.addr, Encode(objs), t.cuts);
    if r.Ran? {
      assert Receiving(receiver, r.value.app, t.addr, objs, [], MAX_OBJECTS - Pushed(objs, t.cuts));
      CarriesAll(r.value.app.devs[0].part.list, Supplies(sender, t.addr));
    }
  }

  lemma {:induction false} OrderedAbsent(env: Env, plan: seq<Transfer>, devs: seq<Dev>)
    requires plan != [] && Distinct(plan) && AllHold(env, devs, ListOrder(env, plan[..|plan| - 1]))
    ensures Find(devs, plan[|plan| - 1].addr) == |devs|
  {
    var addrs := ListOrder(env, plan[..|plan| - 1]);
    forall k | 0 <= k < |devs| ensures devs[k].addr != plan[|plan| - 1].addr {
      assert HoldsAll(env, devs[k], addrs[k]);
      assert addrs[k] in addrs;
    }
    FindAbsent(devs, plan[|plan| - 1].addr);
  }

  lemma HoldOneMore(env: Env, devs: seq<Dev>, addr: TpAddr, addrs: seq<TpAddr>)
    requires devs != [] && HoldsAll(env, devs[0], addr) && AllHold(env, devs[1..], addrs)
    ensures AllHold(env, devs, [addr] + addrs)
  {
    assert forall k | 1 <= k < |devs| :: devs[k] == devs[1..][k - 1] && ([addr] + addrs)[k] == addrs[k - 1];
  }

  /** The new primary holds the objects of all devices, in its list order; it panics exactly when a device overruns
      the object set. */
  lemma {:induction false} Arrived(sender: Env, receiver: Env, plan: seq<Transfer>, streams: seq<seq<Byte>>)
    requires SoundTable(receiver) && SoundClients(sender) && Twins(sender, receiver) && AnyTyped(receiver.table)
    requires Distinct(plan) && StreamsOf(sender, plan, streams) && HandedOver(plan, streams)
    ensures ReceiveAll(receiver, NO_DEVICES, plan, streams).Ran? <==> ReceiversHold(sender, plan)
    ensures ReceiveAll(receiver, NO_DEVICES, plan, streams).Ran? ==>
              var a := ReceiveAll(receiver, NO_DEVICES, plan, streams).value;
              AllHold(sender, a.devs, ListOrder(sender, plan)) && a.log == [] && a.curr.None?
    decreases |plan|
  {
    if plan != [] {
      var n := |plan| - 1;
      assert forall i | 0 <= i < n :: plan[..n][i] == plan[i] && streams[..n][i] == streams[i];
      Arrived(sender, receiver, plan[..n], streams[..n]);
      if ReceiversHold(sender, plan[..n]) {
        var a := ReceiveAll(receiver, NO_DEVICES, plan[..n], streams[..n]).value;
        ArrivedOne(sender, receiver, plan, streams[n], a);
      }
    }
  }

  /** One more device. */
  lemma ArrivedOne(sender: Env, receiver: Env, plan: seq<Transfer>, stream: seq<Byte>, a: App)
    requires SoundTable(receiver) && SoundClients(sender) && Twins(sender, receiver) && AnyTyped(receiver.table)
    requires plan != [] && Distinct(plan) && a.curr.None?
    requires var t := plan[|plan| - 1];
             stream == Encode(Supplied(sender, t.addr)) && (stream != [] ==> |stream| in t.cuts)
    requires AllHold(sender, a.devs, ListOrder(sender, plan[..|plan| - 1]))
    ensures var t := plan[|plan| - 1];
            var r := UnmarshalRun(receiver, a, t.addr, stream, t.cuts);
            && (r.Ran? <==> Pushed(Supplied(sender, t.addr), t.cuts) <= MAX_OBJECTS)
            && (r.Ran? ==> AllHold(sender, r.value.app.devs, ListOrder(sender, plan)) && r.value.app.log == a.log
                           && r.value.app.curr.None?)
  {
    hide UnmarshalRun, Pushed, HoldsAll;
    var t := plan[|plan| - 1];
    OrderedAbsent(sender, plan, a.devs);
    if Supplied(sender, t.addr) == [] {
      EmptyStream(receiver, a, t.addr, t.cuts);
    } else {
      DeviceReceived(sender, receiver, a, t);
      var r := UnmarshalRun(receiver, a, t.addr, stream, t.cuts);
      if r.Ran? {
        HoldOneMore(sender, r.value.app.devs, t.addr, ListOrder(sender, plan[..|plan| - 1]));
      }
    }
  }

  // ---------------------------------------------------------------- the commits before Complete

  predicate Committable(app: App, addr: TpAddr) {
    var d := Find(app.devs, addr);
    d < |app.devs| && !app.devs[d].mode.Initialized?
  }

  /** Committing devices changes nothing, and panics exactly when one of them was not handed over. */
  lemma {:induction false} CommitsAre(env: Env, app: App, addrs: seq<TpAddr>)
    requires AnyTyped(env.table)
    ensures CommitAll(env, app, addrs)
            == if forall i | 0 <= i < |addrs| :: Committable(app, addrs[i]) then Ran(app) else Panicked
  {
    if addrs != [] {
      CommitsAre(env, app, addrs[1..]);
      assert forall i | 1 <= i < |addrs| :: addrs[i] == addrs[1..][i - 1];
      if forall i | 0 <= i < |addrs| - 1 :: Committable(app, addrs[1..][i]) {
        assert Committable(app, addrs[0]) ==> forall i | 0 <= i < |addrs| :: Committable(app, addrs[i]);
      }
    }
  }

  /** The devices are committed in any order, each at least once. */
  ghost predicate Covers(addrs: seq<TpAddr>, plan: seq<Transfer>) {
    forall addr :: addr in addrs <==> InPlan(plan, addr)
  }

  lemma {:induction false} FindPresent(devs: seq<Dev>, k: nat)
    requires k < |devs|
    ensures Find(devs, devs[k].addr) <= k
  {
  }

  lemma ListedCommits(env: Env, app: App, plan: seq<Transfer>, addrs: seq<TpAddr>)
    requires AnyTyped(env.table) && Listed(app.devs, plan) && Covers(addrs, plan)
    ensures CommitAll(env, app, addrs) == Ran(app)
  {
    CommitsAre(env, app, addrs);
    forall i | 0 <= i < |addrs| ensures Committable(app, addrs[i]) {
      assert addrs[i] in addrs;
      var j :| 0 <= j < |plan| && plan[j].addr == addrs[i];
      FindPresent(app.devs, |plan| - 1 - j);
    }
  }

  lemma HeldCommits(sender: Env, receiver: Env, app: App, plan: seq<Transfer>, addrs: seq<TpAddr>)
    requires AnyTyped(receiver.table) && AllHold(sender, app.devs, ListOrder(sender, plan)) && Covers(addrs, plan)
    ensures CommitAll(receiver, app, addrs) == if EachSupplied(sender, plan) then Ran(app) else Panicked
  {
    CommitsAre(receiver, app, addrs);
    var listed := ListOrder(sender, plan);
    forall i | 0 <= i < |addrs| ensures Committable(app, addrs[i]) <==> Supplied(sender, addrs[i]) != [] {
      assert addrs[i] in addrs;
      if Supplied(sender, addrs[i]) != [] {
        assert addrs[i] in listed;
        var k :| 0 <= k < |listed| && listed[k] == addrs[i];
        assert HoldsAll(sender, app.devs[k], listed[k]);
        FindPresent(app.devs, k);
        assert HoldsAll(sender, app.devs[Find(app.devs, addrs[i])], listed[Find(app.devs, addrs[i])]);
      } else {
        forall k | 0 <= k < |app.devs| ensures app.devs[k].addr != addrs[i] {
          assert HoldsAll(sender, app.devs[k], listed[k]);
          assert listed[k] in listed;
        }
        FindAbsent(app.devs, addrs[i]);
      }
    }
    if EachSupplied(sender, plan) {
      forall i | 0 <= i < |addrs| ensures Committable(app, addrs[i]) {
        assert addrs[i] in addrs;
        assert InPlan(plan, addrs[i]);
      }
    } else {
      var i :| 0 <= i < |plan| && Supplied(sender, plan[i].addr) == [];
      assert InPlan(plan, plan[i].addr);
      var k :| 0 <= k < |addrs| && addrs[k] == plan[i].addr;
      assert !Committable(app, addrs[k]);
    }
  }

  /** For every device some client has something to hand over. */
  ghost predicate EachSupplied(env: Env, plan: seq<Transfer>) {
    forall i | 0 <= i < |plan| :: Supplied(env, plan[i].addr) != []
  }

  // ---------------------------------------------------------------- the handover as a whole

  /** The new primary at Complete: it panics exactly when some client refuses an object; otherwise each client receives
      exactly the objects that the same client supplied, once each, in stream order per device; then every client
      commits exactly once; then the link policy of each device is updated once; then what clients do not keep is
      released; and nothing is left. */
  ghost predicate CompletesNew(sender: Env, receiver: Env, addrs: seq<TpAddr>, app: App) {
    var c := CompleteCall(receiver, app, true);
    && (c.Ran? <==> EverythingAccepted(sender, receiver, addrs))
    && (c.Ran? ==> c.value.devs == [] && c.value.curr.None?
                   && c.value.log == Delivered(sender, addrs) + Commits(|receiver.table|, true) + Policies(app.devs)
                                     + AllFrees(DispatchAll(receiver.table, app.devs).value.items)
                   && CompletesOnce(app.log, c.value.log, app.devs, |receiver.table|, true))
  }

  /** The old primary at Complete: every client commits exactly once, as secondary, nothing else happens, and nothing is
      left. */
  ghost predicate CompletesOld(env: Env, app: App) {
    && CompleteCall(env, app, false) == Ran(App([], None, 0, app.next, Commits(|env.table|, false)))
    && CommitsOnce(Commits(|env.table|, false), |env.table|, false)
  }

  lemma {:induction false} NothingToFree(devs: seq<Dev>)
    requires forall k | 0 <= k < |devs| :: devs[k].mode.Marshaling?
    ensures AllFrees(devs) == []
  {
    if devs != [] {
      NothingToFree(devs[1..]);
    }
  }

  lemma OldCompletes(env: Env, plan: seq<Transfer>, app: App)
    requires Listed(app.devs, plan) && app.log == []
    ensures CompletesOld(env, app)
  {
    NothingToFree(app.devs);
    CommitsAreOnce(|env.table|, false);
    assert [] + Commits(|env.table|, false) + [] == Commits(|env.table|, false);
  }

  lemma NewCompletes(sender: Env, receiver: Env, addrs: seq<TpAddr>, app: App)
    requires SoundTable(receiver) && Twins(sender, receiver) && AllHold(sender, app.devs, addrs) && app.log == []
    ensures CompletesNew(sender, receiver, addrs, app)
  {
    DispatchToAll(sender, receiver, app.devs, addrs);
    if CompleteCall(receiver, app, true).Ran? {
      CompleteLog(receiver, app, true);
    }
    hide CompletesOnce, AllHold;
    assert [] + Delivered(sender, addrs) == Delivered(sender, addrs);
  }

  /** The handover round trip. Devices are marshalled one after another into buffers of any sizes until each is
      complete, the streams are handed over in any chunks, every device is committed on both sides in any order, and both
      sides complete. The old primary panics exactly when a device overruns the object set of its library. The new
      one panics while it unmarshals exactly when a device overruns that of its own, and at the commits exactly when for
      some device no client had anything to hand over. Otherwise both complete as they should. */
  lemma {:induction false} HandoverRoundTrip(sender: Env, receiver: Env, plan: seq<Transfer>, commits: seq<TpAddr>)
    requires SoundTable(receiver) && SoundClients(sender) && Twins(sender, receiver) && AnyTyped(receiver.table)
    requires Distinct(plan) && Covers(commits, plan) && forall i | 0 <= i < |plan| :: plan[i].sizes != []
    requires var s := SendAll(sender, NO_DEVICES, plan); s.Ran? ==> s.value.done && HandedOver(plan, s.value.streams)
    ensures SendAll(sender, NO_DEVICES, plan).Ran? <==> SendersHold(sender, plan)
    ensures SendersHold(sender, plan) ==>
              var s := SendAll(sender, NO_DEVICES, plan).value;
              var received := ReceiveAll(receiver, NO_DEVICES, plan, s.streams);
              && CommitAll(sender, s.app, commits) == Ran(s.app) && CompletesOld(sender, s.app)
              && (received.Ran? <==> ReceiversHold(sender, plan))
              && (received.Ran? ==>
                    && CommitAll(receiver, received.value, commits)
                       == (if EachSupplied(sender, plan) then received else Panicked)
                    && CompletesNew(sender, receiver, ListOrder(sender, plan), received.value))
  {
    hide SendersHold, ReceiversHold, StreamsOf, EachSupplied, CompletesOld, CompletesNew, HandedOver, Covers, Distinct,
         SendAll, ReceiveAll, AllHold, Listed;
    SameTyped(sender, receiver);
    Shipped(sender, plan);
    if SendersHold(sender, plan) {
      var s := SendAll(sender, NO_DEVICES, plan).value;
      ListedCommits(sender, s.app, plan, commits);
      OldCompletes(sender, plan, s.app);
      Arrived(sender, receiver, plan, s.streams);
      if ReceiversHold(sender, plan) {
        var a := ReceiveAll(receiver, NO_DEVICES, plan, s.streams).value;
        HeldCommits(sender, receiver, a, plan, commits);
        NewCompletes(sender, receiver, ListOrder(sender, plan), a);
      }
    }
  }

  lemma SameTyped(sender: Env, receiver: Env)
    requires Twins(sender, receiver) && AnyTyped(receiver.table)
    ensures AnyTyped(sender.table)
  {
    var i :| 0 <= i < |receiver.table| && receiver.table[i].types.Some?;
    assert sender.table[i].types.Some?;
  }

  lemma OneDeviceHolds(objs: seq<Obj>, sizes: seq<nat>)
    ensures !Overruns(Pieces(objs), sizes) && Pushed(objs, [|Encode(objs)|]) <= MAX_OBJECTS <==> |objs| <= MAX_OBJECTS
  {
    OneChunkPushesEachOnce(objs);
    hide Pushed, Written;
  }

  /** No device has more objects than a set holds. */
  predicate AllSmall(env: Env, plan: seq<Transfer>) {
    plan == [] || (AllSmall(env, plan[..|plan| - 1]) && |Supplied(env, plan[|plan| - 1].addr)| <= 254)
  }

  /** For the transfers of the repository, each in one chunk, the object sets suffice on both sides exactly when no
      device has more than 254 objects. */
  lemma {:induction false} OneChunkHolds(env: Env, plan: seq<Transfer>)
    requires forall i | 0 <= i < |plan| :: plan[i].cuts == [|Encode(Supplied(env, plan[i].addr))|]
    ensures SendersHold(env, plan) && ReceiversHold(env, plan) <==> AllSmall(env, plan)
    decreases |plan|
  {
    hide Overruns, Pushed, Encode, Supplied;
    if plan != [] {
      var n := |plan| - 1;
      assert forall i | 0 <= i < n :: plan[..n][i] == plan[i];
      OneChunkHolds(env, plan[..n]);
      OneDeviceHolds(Supplied(env, plan[n].addr), plan[n].sizes);
    }
  }

  // ---------------------------------------------------------------- a smallest handover

  const ANSWER: seq<Byte> := [7]

  /** One client with one type, which always has one byte to hand over and accepts everything. */
  function OneClient(): Interface {
    Interface(Some([TypeInfo(0, true)]), (addr: nat, kind: Byte) => Some(ANSWER),
              (addr: nat, kind: Byte, values: seq<Byte>) => FreeObject)
  }

  function OneClientEnv(): Env {
    Env([OneClient()], 0, [1])
  }

  const ADDR := TpAddr(0, 1)

  function OneTransfer(): seq<Transfer> {
    [Transfer(ADDR, [3], [3])]
  }

  lemma OneClientIsSound()
    ensures var env := OneClientEnv();
            SoundTable(env) && SoundClients(env) && Twins(env, env) && AnyTyped(env.table)
  {
    assert OneClientEnv().table[0].types.Some?;
  }

  lemma OneClientSupplies()
    ensures Supplies(OneClientEnv(), ADDR) == [Supply(0, Obj(0, ANSWER))]
    ensures Supplied(OneClientEnv(), ADDR) == [Obj(0, ANSWER)]
    ensures |Encode([Obj(0, ANSWER)])| == 3 && Written(Pieces([Obj(0, ANSWER)]), [3]) == 2
    ensures Pushed([Obj(0, ANSWER)], [3]) == 1
  {
    var env := OneClientEnv();
    assert SupplyFrom(env.table, 1, false, 1, 0) == [];
    assert SupplyFrom(env.table, 1, false, 0, 1) == [];
    WrittenOne(Pieces([Obj(0, ANSWER)]), 3);
    OneChunkPushesEachOnce([Obj(0, ANSWER)]);
  }

  lemma OneTransferSent()
    ensures var s := SendAll(OneClientEnv(), NO_DEVICES, OneTransfer()); s.Ran? && s.value.done
  {
    var env, plan := OneClientEnv(), OneTransfer();
    OneClientIsSound();
    OneClientSupplies();
    hide OneClientEnv, Supplies, Supplied, MarshalRun, Pieces, Written, AnyTyped;
    assert plan[..|plan| - 1] == [];
    assert SendAll(env, NO_DEVICES, []) == Ran(Shipment(NO_DEVICES, [], true));
    ChunksDoNotMatter(env, NO_DEVICES, ADDR, [3]);
    assert |Pieces([Obj(0, ANSWER)])| == 2;
  }

  lemma OneClientAccepts()
    ensures EverythingAccepted(OneClientEnv(), OneClientEnv(), [ADDR])
  {
    OneClientSupplies();
    var env, s := OneClientEnv(), Supply(0, Obj(0, ANSWER));
    assert Accepts(env, 1, s);
    assert AllAccepted(env, 1, [s]) by {
      assert [s][1..] == [];
    }
    hide Supplies;
    assert EverythingAccepted(env, env, []);
    assert [ADDR][1..] == [];
  }

  /** The hypotheses of the round trip can be met, and so can every condition in it: this handover goes through. */
  lemma SmallestHandover() returns (env: Env, plan: seq<Transfer>)
    ensures SoundTable(env) && SoundClients(env) && Twins(env, env) && AnyTyped(env.table)
    ensures Distinct(plan) && Covers([ADDR], plan) && forall i | 0 <= i < |plan| :: plan[i].sizes != []
    ensures SendAll(env, NO_DEVICES, plan).Ran?
    ensures var s := SendAll(env, NO_DEVICES, plan).value; s.done && HandedOver(plan, s.streams)
    ensures SendersHold(env, plan) && ReceiversHold(env, plan) && EachSupplied(env, plan)
    ensures EverythingAccepted(env, env, ListOrder(env, plan))
  {
    env, plan := OneClientEnv(), OneTransfer();
    OneClientIsSound();
    OneClientSupplies();
    OneTransferSent();
    OneClientAccepts();
    hide OneClientEnv, Supplies, Supplied, SendAll, SoundTable, SoundClients, Twins, AnyTyped, EverythingAccepted, Written,
         Pushed, Pieces, Encode;
    assert plan[..0] == [] && plan[0].addr == ADDR;
    assert InPlan(plan, ADDR);
    assert ListOrder(env, plan[..0]) == [] && ListOrder(env, plan) == [ADDR];
    Shipped(env, plan);
  }
}
