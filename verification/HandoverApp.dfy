/** earbud/src/earbud_handover.c as it is written: a linked list of devices with a tagged union each, and cursors
    shared by all of them. Every method is proved to do what HandoverSpec says. */
module HandoverApp {
  import opened Results
  import opened Sequences
  import opened HandoverCodec
  import opened HandoverWalk
  import opened HandoverCollect
  import opened HandoverSpec
  import opened HandoverLog
  import opened HandoverRuns

  class Device {
    const addr: TpAddr
    const focused: bool
    var next: Device?
    var mode: Mode
    var part: Part

    constructor (addr: TpAddr, focused: bool, next: Device?)
      ensures View() == Dev(addr, focused, Initialized, NoPart) && this.next == next
    {
      this.addr, this.focused, this.next, mode, part := addr, focused, next, Initialized, NoPart;
    }

    function View(): Dev
      reads this
    {
      Dev(addr, focused, mode, part)
    }
  }

  ghost function Views(devices: seq<Device>): (devs: seq<Dev>)
    reads devices
    ensures |devs| == |devices| && forall k | 0 <= k < |devices| :: devs[k] == devices[k].View()
  {
    if devices == [] then [] else [devices[0].View()] + Views(devices[1..])
  }

  function At(devices: seq<Device>, k: nat): Device? {
    if k < |devices| then devices[k] else null
  }

  /** The list from `head` on is exactly these devices. */
  ghost predicate ListOf(head: Device?, devices: seq<Device>)
    reads devices`next
  {
    && head == At(devices, 0)
    && (forall k | 0 <= k < |devices| :: devices[k].next == At(devices, k + 1))
    && forall k, l | 0 <= k < l < |devices| :: devices[k] != devices[l]
  }

  lemma ListCons(d: Device, devices: seq<Device>)
    requires ListOf(d.next, devices) && d !in devices
    ensures ListOf(d, [d] + devices) && Views([d] + devices) == [d.View()] + Views(devices)
  {
    var all := [d] + devices;
    assert forall l: nat :: At(all, l + 1) == At(devices, l);
    assert forall l | 1 <= l < |all| :: all[l] == devices[l - 1];
  }

  class Handover {
    const env: Env
    var deviceList: Device?
    var currInterface: Option<nat>
    var currType: nat
    /** Allocations made by unmarshallers, and what clients, the link policy and the allocator were told. */
    var allocations: nat
    var log: seq<Call>
    ghost var devices: seq<Device>

    /** EarbudHandover_Init. */
    constructor (env: Env)
      ensures Linked() && View() == NO_DEVICES && this.env == env && devices == []
    {
      this.env := env;
      deviceList, currInterface, currType, allocations, log := null, None, 0, 0, [];
      devices := [];
    }

    ghost predicate Linked()
      reads this, devices`next
    {
      ListOf(deviceList, devices)
    }

    ghost function View(): App
      reads this, devices
    {
      App(Views(devices), currInterface, if currInterface.Some? then currType else 0, allocations, log)
    }

    ghost predicate Valid()
      reads this, devices
    {
      Linked() && Shaped(Views(devices)) && CursorOk(env.table, View())
    }

    // -------------------------------------------------------------- looking things up

    /** getNextInterface. */
    method GetNextInterface() returns (r: Option<nat>)
      ensures r == NextInterface(env.table, currInterface)
    {
      var i := if currInterface.Some? then currInterface.value + 1 else 0;
      ghost var start := i;
      while i < |env.table|
        invariant start <= i && FirstTyped(env.table, i) == FirstTyped(env.table, start)
      {
        if env.table[i].types.Some? {
          return Some(i);
        }
        i := i + 1;
      }
      r := None;
    }

    /** earbudHandover_IsAnyValidInterfaceRegistered. */
    method IsAnyValidInterfaceRegistered() returns (r: bool)
      ensures r == AnyTyped(env.table)
    {
      for i := 0 to |env.table|
        invariant forall k | 0 <= k < i :: env.table[k].types.None?
      {
        if env.table[i].types.Some? {
          return true;
        }
      }
      r := false;
    }

    /** earbudHandover_GetInterfaceForType, with the category of the type. */
    method GetInterfaceForType(kind: Byte) returns (r: Option<(nat, nat)>)
      ensures r == Owner(env.table, kind, 0)
    {
      for i := 0 to |env.table|
        invariant Owner(env.table, kind, 0) == Owner(env.table, kind, i)
      {
        var infos := TypesOf(env.table, i);
        for j := 0 to |infos|
          invariant forall k | 0 <= k < j :: infos[k].kind != kind
        {
          if infos[j].kind == kind {
            assert FirstWithKind(infos, kind) == j;
            return Some((i, j));
          }
        }
      }
      r := None;
    }

    /** The search loop of earbudHandover_GetOrCreateDevice. */
    method FindDevice(addr: TpAddr) returns (d: Device?, ghost k: nat)
      requires Linked()
      ensures k == Find(View().devs, addr)
      ensures d == At(devices, Find(View().devs, addr))
    {
      d := deviceList;
      k := 0;
      while d != null
        invariant k <= |devices| && d == At(devices, k)
        invariant forall l | 0 <= l < k :: devices[l].addr != addr
        decreases |devices| - k
      {
        if d.addr == addr {
          break;
        }
        assert d == devices[k] && d.next == At(devices, k + 1);
        d := d.next;
        k := k + 1;
      }
      assert Views(devices)[..k] == View().devs[..k];
    }

    /** The other half of earbudHandover_GetOrCreateDevice: a new device at the front of the list. */
    method AddDevice(addr: TpAddr) returns (d: Device)
      requires Linked()
      modifies this`deviceList, this`devices
      ensures fresh(d) && devices == [d] + old(devices) && Linked()
      ensures Views(devices) == [FreshDev(env, addr)] + old(Views(devices))
    {
      d := new Device(addr, addr.addr == env.mirrored, deviceList);
      ListCons(d, devices);
      devices := [d] + devices;
      deviceList := d;
    }

    /** earbudHandover_GetOrCreateDevice. */
    method GetOrCreateDevice(addr: TpAddr) returns (d: Device, ghost k: nat)
      requires Linked()
      modifies this`deviceList, this`devices
      ensures Linked() && View() == WithDevice(env, old(View()), addr)
      ensures k == Find(View().devs, addr) < |devices| && d == devices[k]
      ensures d in old(devices) || fresh(d)
      ensures forall x | x in devices :: x in old(devices) || fresh(x)
    {
      var found;
      found, k := FindDevice(addr);
      if found != null {
        return found, k;
      }
      d := AddDevice(addr);
      k := 0;
    }

    // -------------------------------------------------------------- earbudHandover_Marshal

    /** The union and the mode of one device change together. */
    method SetMember(d: Device, ghost k: nat, mode: Mode, part: Part)
      requires Linked() && k < |devices| && d == devices[k]
      modifies d`mode, d`part
      ensures Linked() && d.View() == Dev(d.addr, d.focused, mode, part)
      ensures Views(devices) == old(Views(devices))[k := d.View()]
    {
      d.mode, d.part := mode, part;
    }

    /** The inner loop of earbudHandover_Marshal, over the types of one interface. */
    method MarshalTypes(addr: nat, focused: bool, i: nat, m0: Marshaller)
      returns (panicked: bool, m: Marshaller, marshalled: bool)
      requires i < |env.table| && currType <= |TypesOf(env.table, i)|
      modifies this`currType
      ensures currType <= |TypesOf(env.table, i)|
      ensures var w := Walk(env.table, addr, focused, i, old(currType), m0);
              w == if panicked then Overfull
                   else if marshalled then Walk(env.table, addr, focused, i + 1, 0, m)
                   else Walked(i, currType, m, false)
    {
      panicked, m, marshalled := false, m0, true;
      var infos := TypesOf(env.table, i);
      var j := currType;
      while j < |infos|
        invariant j <= |infos| && currType == old(currType)
        invariant Walk(env.table, addr, focused, i, old(currType), m0) == Walk(env.table, addr, focused, i, j, m)
      {
        if Eligible(infos[j], focused) {
          var data := env.table[i].marshal(addr, infos[j].kind);
          if data.Some? {
            if Overflows(m) {
              return true, m, false;
            }
            var (n, fits) := MarshalObject(m, Obj(infos[j].kind, data.value));
            m := n;
            if !fits {
              currType := j;
              return false, m, false;
            }
          }
        }
        j := j + 1;
      }
    }

    /** The outer loop, over the interfaces from the saved cursor on. */
    method MarshalInterfaces(addr: nat, focused: bool, m0: Marshaller)
      returns (panicked: bool, m: Marshaller, marshalled: bool)
      requires currInterface.Some? ==> currInterface.value < |env.table| && currType <= |TypesOf(env.table, currInterface.value)|
      modifies this`currInterface, this`currType
      ensures var w := if old(currInterface).None? then Walked(0, 0, m0, true)
                       else Walk(env.table, addr, focused, old(currInterface).value, old(currType), m0);
              && (panicked <==> w.Overfull?)
              && (!panicked ==> w.marshaller == m && w.done == marshalled
                                && Cursor(env.table, w) == (currInterface, if currInterface.Some? then currType else 0))
    {
      panicked, m, marshalled := false, m0, true;
      ghost var w := if currInterface.None? then Walked(0, 0, m0, true)
                     else Walk(env.table, addr, focused, currInterface.value, currType, m0);
      while marshalled && currInterface.Some?
        invariant currInterface.Some? ==> currInterface.value < |env.table| && currType <= |TypesOf(env.table, currInterface.value)|
        invariant marshalled ==>
                    if currInterface.None? then w.Walked? && w.done && w.marshaller == m
                    else w == Walk(env.table, addr, focused, currInterface.value, currType, m)
        invariant !marshalled ==> currInterface.Some? && w == Walked(currInterface.value, currType, m, false)
        decreases marshalled, if currInterface.Some? then |env.table| - currInterface.value else 0
      {
        var i := currInterface.value;
        panicked, m, marshalled := MarshalTypes(addr, focused, i, m);
        if panicked {
          return;
        }
        if marshalled {
          WalkSkips(env.table, addr, focused, i + 1, m);
          currInterface := GetNextInterface();
          if currInterface.Some? {
            currType := 0;
          }
        }
      }
    }

    /** The cursor goes to the first interface with types. */
    method Rewind()
      requires Linked()
      modifies this`currInterface, this`currType
      ensures currInterface == NextInterface(env.table, None) && currType == 0
      ensures Linked() && Views(devices) == old(Views(devices))
    {
      currInterface := None;
      currInterface := GetNextInterface();
      currType := 0;
    }

    /** The part of earbudHandover_Marshal that starts a device. */
    method BeginDevice(d: Device, ghost k: nat)
      requires Linked() && k < |devices| && d == devices[k] && AnyTyped(env.table)
      requires d.mode.Initialized? || CursorOk(env.table, View())
      modifies this`currInterface, this`currType, d`mode, d`part
      ensures Linked() && View() == Begin(env, old(View()), k) && CursorOk(env.table, View())
    {
      ghost var before, dev := View(), d.View();
      if d.mode.Initialized? {
        Rewind();
        SetMember(d, k, Marshaling, MarshalPart(FRESH_MARSHALLER));
        assert Views(devices) == before.devs[k := dev.(mode := Marshaling, part := MarshalPart(FRESH_MARSHALLER))];
      }
    }

    /** earbudHandover_Marshal, once the device is being marshalled. */
    method MarshalDevice(d: Device, ghost k: nat, size: nat) returns (panicked: bool, done: bool, written: seq<Byte>)
      requires Linked() && k < |devices| && d == devices[k] && CursorOk(env.table, View())
      requires d.mode.Marshaling? && d.part.MarshalPart?
      modifies this`currInterface, this`currType, d`mode, d`part
      ensures Linked()
      ensures Continue(env, old(View()), k, size)
              == if panicked then Panicked else Ran(MarshalReturn(View(), written, done))
    {
      hide Walk, ListOf, Views, SetBuffer;
      ghost var before, dev := View(), d.View();
      var m;
      written := [];
      panicked, m, done := MarshalInterfaces(d.addr.addr, d.focused, SetBuffer(d.part.marshaller, size));
      if panicked {
        return;
      }
      assert Views(devices) == before.devs && d.View() == dev;
      SetMember(d, k, d.mode, MarshalPart(m));
      written := m.out;
      assert Views(devices) == before.devs[k := dev.(part := MarshalPart(m))];
    }

    /** earbudHandover_Marshal, for a device that is not being unmarshalled. */
    method BeginAndMarshal(d: Device, ghost k: nat, size: nat) returns (panicked: bool, done: bool, written: seq<Byte>)
      requires Linked() && k < |devices| && d == devices[k] && AnyTyped(env.table) && CursorOk(env.table, View())
      requires d.mode.Initialized? || (d.mode.Marshaling? && d.part.MarshalPart?)
      modifies this`currInterface, this`currType, d`mode, d`part
      ensures Linked() && Begin(env, old(View()), k).devs[k].part.MarshalPart?
      ensures Continue(env, Begin(env, old(View()), k), k, size)
              == if panicked then Panicked else Ran(MarshalReturn(View(), written, done))
    {
      hide Continue;
      BeginDevice(d, k);
      assert d.View() == View().devs[k];
      panicked, done, written := MarshalDevice(d, k, size);
    }

    /** earbudHandover_Marshal, once the device has been found or added. */
    method MarshalFound(d: Device, ghost k: nat, size: nat) returns (panicked: bool, done: bool, written: seq<Byte>)
      requires Linked() && k < |devices| && d == devices[k] && AnyTyped(env.table) && CursorOk(env.table, View())
      requires MemberMatchesOrNew(d.View())
      modifies this`currInterface, this`currType, d`mode, d`part
      ensures Linked()
      ensures (if old(d.mode).Unmarshaling? then Panicked else Continue(env, Begin(env, old(View()), k), k, size))
              == if panicked then Panicked else Ran(MarshalReturn(View(), written, done))
    {
      hide Continue, Begin;
      if d.mode.Unmarshaling? {
        return true, false, [];
      }
      panicked, done, written := BeginAndMarshal(d, k, size);
    }

    /** earbudHandover_Marshal. */
    method Marshal(addr: TpAddr, size: nat) returns (panicked: bool, done: bool, written: seq<Byte>)
      requires Valid()
      modifies this, devices
      ensures panicked <==> MarshalCall(env, old(View()), addr, size).Panicked?
      ensures !panicked ==> Valid() && MarshalCall(env, old(View()), addr, size) == Ran(MarshalReturn(View(), written, done))
      ensures forall x | x in devices :: x in old(devices) || fresh(x)
    {
      hide MarshalCall, Begin, Continue, WithDevice, Shaped, MemberMatchesOrNew, ListOf;
      panicked, done, written := false, true, [];
      ghost var before := View();
      var any := IsAnyValidInterfaceRegistered();
      if !any {
        NothingTyped(env, before, addr, size);
        return;
      }
      MarshalCallCases(env, before, addr, size);
      MarshalShape(env, before, addr, size);
      AllMatch(env, before.devs);
      FoundMatches(env, before, addr);
      var d, k := GetOrCreateDevice(addr);
      assert d.View() == View().devs[k];
      panicked, done, written := MarshalFound(d, k, size);
    }

    // -------------------------------------------------------------- earbudHandover_Unmarshal

    ghost function CollectorOf(d: Device): Collector
      requires d.part.UnmarshalPart?
      reads this`allocations, d`part
    {
      Collector(d.part.partial, d.part.list, d.part.free, allocations, d.part.slots)
    }

    /** earbudHandover_InitUnmarshalDataListForDevice: the count is an eight-bit number. */
    method CountTypes(focused: bool) returns (count: nat)
      ensures count == EligibleTypes(env.table, focused, 0) % 256
    {
      count := 0;
      ghost var exact := 0;
      for i := 0 to |env.table|
        invariant exact + EligibleTypes(env.table, focused, i) == EligibleTypes(env.table, focused, 0)
        invariant count == exact % 256
      {
        var infos := TypesOf(env.table, i);
        assert infos[0..] == infos;
        for j := 0 to |infos|
          invariant exact + EligibleIn(infos[j..], focused) + EligibleTypes(env.table, focused, i + 1)
                    == EligibleTypes(env.table, focused, 0)
          invariant count == exact % 256
        {
          assert infos[j..][1..] == infos[j + 1..];
          if Eligible(infos[j], focused) {
            CountWraps(exact);
            count := (count + 1) % 256;
            exact := exact + 1;
          }
        }
      }
    }

    /** The loop of earbudHandover_Unmarshal: objects go from the buffer into the list of the device. */
    method CollectObjects(d: Device, buf: seq<Byte>) returns (panicked: bool, consumed: nat, complete: bool)
      requires d.part.UnmarshalPart?
      modifies this`allocations, d`part
      ensures d.part.UnmarshalPart?
      ensures var r := Collect(env.table, env.sizes, old(CollectorOf(d)), buf, 0);
              r == if panicked then Overrun else Collected(CollectorOf(d), consumed, complete)
    {
      panicked, consumed, complete := false, 0, true;
      ghost var start := CollectorOf(d);
      while complete && consumed < |buf|
        invariant consumed <= |buf| && d.part.UnmarshalPart?
        invariant Collect(env.table, env.sizes, start, buf, 0)
                  == if complete then Collect(env.table, env.sizes, CollectorOf(d), buf, consumed)
                     else Collected(CollectorOf(d), consumed, false)
        decreases complete, |buf| - consumed
      {
        if d.part.free >= |d.part.list| {
          return true, consumed, false;
        }
        match ReadObject(env.sizes, d.part.partial, buf, consumed, allocations, d.part.slots)
        case Malformed =>
          return true, consumed, false;
        case Crowded =>
          return true, consumed, false;
        case Need(partial, next, slots) =>
          d.part := d.part.(partial := partial, slots := slots);
          allocations := next;
          complete := false;
        case Root(held, after, next, slots) =>
          var owner := GetInterfaceForType(held.obj.kind);
          OwnerKnown(env.table, held.obj.kind, 0);
          if owner.None? {
            return true, consumed, false;
          }
          d.part := UnmarshalPart([], d.part.list[d.part.free := Entry(held, Failure)], d.part.free + 1, slots);
          allocations := next;
          consumed := after;
      }
    }

    method CollectForDevice(d: Device, ghost k: nat, buf: seq<Byte>) returns (panicked: bool, consumed: nat, complete: bool)
      requires Linked() && k < |devices| && d == devices[k] && d.part.UnmarshalPart?
      modifies this`allocations, d`part
      ensures Linked()
      ensures CollectInto(env, old(View()), k, old(d.View()), buf)
              == if panicked then Panicked else Ran(UnmarshalReturn(View(), consumed, complete))
    {
      hide Collect, CollectInto, ListOf;
      ghost var before, dev, c := View(), d.View(), CollectorOf(d);
      assert forall l | 0 <= l < |devices| && l != k :: devices[l] != d by {
        ListDistinct(deviceList, devices);
      }
      panicked, consumed, complete := CollectObjects(d, buf);
      assert Views(devices) == before.devs[k := d.View()];
      assert d.View() == dev.(part := d.part) && View() == before.(devs := Views(devices), next := allocations);
      CollectIntoIs(env, before, k, dev, buf, CollectorOf(d), consumed, complete, panicked);
    }

    /** The part of earbudHandover_Unmarshal that starts a device. */
    method SetUpDevice(d: Device, ghost k: nat)
      requires Linked() && k < |devices| && d == devices[k]
      modifies d`mode, d`part
      ensures Linked() && d.View() == SetUp(env, old(d.View()))
      ensures View() == old(View()).(devs := old(View()).devs[k := d.View()])
    {
      if d.mode.Initialized? {
        var count := CountTypes(d.focused);
        SetMember(d, k, Unmarshaling, UnmarshalPart([], seq(count, _ => Vacant), 0, MAX_OBJECTS));
      }
    }

    /** earbudHandover_Unmarshal, once the device has been found or added; `found` is the state then. */
    method UnmarshalFound(d: Device, ghost k: nat, buf: seq<Byte>, ghost found: App)
      returns (panicked: bool, consumed: nat, complete: bool)
      requires Linked() && k < |devices| && d == devices[k] && MemberMatchesOrNew(d.View()) && found == View()
      modifies this`allocations, d`mode, d`part
      ensures Linked()
      ensures (if buf == [] || old(d.mode).Marshaling?
                  || (old(d.mode).Initialized? && NextInterface(env.table, currInterface).None?) then Panicked
               else if !SetUp(env, old(d.View())).part.UnmarshalPart? then Panicked
               else CollectInto(env, found, k, SetUp(env, old(d.View())), buf))
              == if panicked then Panicked else Ran(UnmarshalReturn(View(), consumed, complete))
    {
      hide CollectInto, ListOf, Views, EmptyList;
      if buf == [] || d.mode.Marshaling? {
        return true, 0, false;
      }
      if d.mode.Initialized? {
        var i := GetNextInterface();
        if i.None? {
          return true, 0, false;
        }
      }
      SetUpDevice(d, k);
      SameCollect(env, found, k, d.View(), buf);
      panicked, consumed, complete := CollectForDevice(d, k, buf);
    }

    /** earbudHandover_Unmarshal. */
    method Unmarshal(addr: TpAddr, buf: seq<Byte>) returns (panicked: bool, consumed: nat, complete: bool)
      requires Valid()
      modifies this, devices
      ensures panicked <==> UnmarshalCall(env, old(View()), addr, buf).Panicked?
      ensures !panicked ==>
                Valid() && UnmarshalCall(env, old(View()), addr, buf) == Ran(UnmarshalReturn(View(), consumed, complete))
      ensures forall x | x in devices :: x in old(devices) || fresh(x)
    {
      hide UnmarshalCall, CollectInto, SetUp, WithDevice, Shaped, MemberMatchesOrNew, ListOf;
      ghost var before := View();
      UnmarshalCallCases(env, before, addr, buf);
      UnmarshalShape(env, before, addr, buf);
      AllMatch(env, before.devs);
      FoundMatches(env, before, addr);
      var d, k := GetOrCreateDevice(addr);
      assert d.View() == View().devs[k];
      panicked, consumed, complete := UnmarshalFound(d, k, buf, View());
    }

    // -------------------------------------------------------------- cleaning up

    /** earbudHandover_CleanupMarshallerForDevice, with earbudHandover_CleanupUnmarshalDataListForDevice. */
    method CleanupDevice(d: Device)
      requires MemberMatches(d.View())
      modifies this`log, d`mode, d`part
      ensures log == old(log) + FreesOf(old(d.View()))
      ensures d.mode == Initialized && d.part == NoPart
    {
      ghost var start := log;
      if d.mode.Unmarshaling? {
        ghost var filled := d.part.list[..d.part.free];
        for j := 0 to d.part.free
          invariant d.mode == old(d.mode) && d.part == old(d.part)
          invariant log + Frees(filled[j..]) == start + Frees(filled)
        {
          assert filled[j..][1..] == filled[j + 1..] && filled[j] == d.part.list[j];
          ghost var before := log;
          if d.part.list[j].status != DontFreeObject {
            log := log + [Freed(d.part.list[j].held.handle)];
            assert log + Frees(filled[j + 1..]) == before + ([Freed(filled[j].held.handle)] + Frees(filled[j + 1..]));
          } else {
            assert [] + Frees(filled[j + 1..]) == Frees(filled[j + 1..]);
          }
        }
      }
      d.mode, d.part := Initialized, NoPart;
    }

    /** One round of earbudHandover_CleanupDeviceList. */
    method CleanupHead()
      requires Linked() && devices != [] && MemberMatches(devices[0].View())
      modifies this`deviceList, this`devices, this`log, devices
      ensures devices == old(devices[1..]) && Linked()
      ensures Views(devices) == old(Views(devices)[1..])
      ensures log == old(log) + FreesOf(old(devices[0].View()))
    {
      ListTail(deviceList, devices);
      ghost var rest := devices[1..];
      var next := deviceList.next;
      CleanupDevice(deviceList);
      devices := rest;
      deviceList := next;
    }

    /** earbudHandover_CleanupDeviceList. */
    method CleanupDeviceList()
      requires Linked() && forall k | 0 <= k < |devices| :: MemberMatches(devices[k].View())
      modifies this`deviceList, this`devices, this`log, devices
      ensures Linked() && devices == [] && log == old(log) + AllFrees(old(Views(devices)))
    {
      hide ListOf, MemberMatches, FreesOf, Views;
      ghost var views := Views(devices);
      ListEnds(deviceList, devices);
      while deviceList != null
        invariant deviceList == null <==> devices == []
        invariant Linked() && forall k | 0 <= k < |devices| :: devices[k] in old(devices)
        invariant forall k | 0 <= k < |devices| :: MemberMatches(Views(devices)[k])
        invariant log + AllFrees(Views(devices)) == old(log) + AllFrees(views)
        decreases |devices|
      {
        ghost var before, devs := log, Views(devices);
        CleanupHead();
        ListEnds(deviceList, devices);
        assert before + (FreesOf(devs[0]) + AllFrees(devs[1..])) == log + AllFrees(devs[1..]);
      }
    }

    // -------------------------------------------------------------- earbudHandover_Complete and earbudHandover_Abort

    /** One round of earbudHandover_ClientUnmarshalForDevice. */
    method DispatchEntry(addr: nat, focused: bool, e: Entry) returns (panicked: bool, e': Entry)
      modifies this`log
      ensures var r := DispatchOne(env.table, addr, focused, e);
              if panicked then r.Panicked? else r.Ran? && [e'] == r.value.items && log == old(log) + r.value.calls
    {
      panicked, e' := false, e;
      if e.Vacant? {
        return true, e;
      }
      var owner := GetInterfaceForType(e.held.obj.kind);
      if owner.None? {
        return true, e;
      }
      var (i, j) := owner.value;
      if Eligible(TypesOf(env.table, i)[j], focused) {
        var status := env.table[i].unmarshal(addr, e.held.obj.kind, e.held.obj.values);
        if status == Failure {
          return true, e;
        }
        log := log + [Unmarshalled(i, addr, e.held.obj)];
        e' := e.(status := status);
      }
    }

    /** The status goes into the list in place. */
    method DispatchAt(d: Device, j: nat) returns (panicked: bool)
      requires d.part.UnmarshalPart? && j < |d.part.list|
      modifies this`log, d`part
      ensures var r := DispatchOne(env.table, d.addr.addr, d.focused, old(d.part.list[j]));
              if panicked then r.Panicked?
              else r.Ran? && d.part == old(d.part).(list := old(d.part.list)[j := r.value.items[0]])
                   && log == old(log) + r.value.calls
    {
      var e;
      panicked, e := DispatchEntry(d.addr.addr, d.focused, d.part.list[j]);
      if !panicked {
        d.part := d.part.(list := d.part.list[j := e]);
      }
    }

    /** One round of that loop; `part` is the part of the device as it was before the loop, and `start` what had been
        logged. */
    method DispatchStep(d: Device, j: nat, ghost part: Part, ghost before: Dispatched<Entry>, ghost start: seq<Call>)
      returns (panicked: bool, ghost done: Dispatched<Entry>)
      requires part.UnmarshalPart? && j < part.free <= |part.list| && d.part == part.(list := before.items + part.list[j..])
      requires Dispatch(env.table, d.addr.addr, d.focused, part.list[..part.free][..j]) == Ran(before)
      requires |before.items| == j && log == start + before.calls
      modifies this`log, d`part
      ensures if panicked then Dispatch(env.table, d.addr.addr, d.focused, part.list[..part.free]).Panicked?
              else Dispatch(env.table, d.addr.addr, d.focused, part.list[..part.free][..j + 1]) == Ran(done)
                   && |done.items| == j + 1 && d.part == part.(list := done.items + part.list[j + 1..])
                   && log == start + done.calls
    {
      hide Dispatch, DispatchOne;
      done := before;
      ghost var filled := part.list[..part.free];
      DispatchNext(env.table, d.addr.addr, d.focused, filled, j);
      assert d.part.list[j] == filled[j];
      panicked := DispatchAt(d, j);
      if !panicked {
        ghost var one := DispatchOne(env.table, d.addr.addr, d.focused, filled[j]).value;
        OneMoreDone(part.list, j, before.items, one.items[0]);
        assert [one.items[0]] == one.items;
        Regroup(start, before.calls, one.calls);
        done := Dispatched(before.items + one.items, before.calls + one.calls);
      }
    }

    /** The loop of earbudHandover_ClientUnmarshalForDevice. */
    method DispatchList(d: Device) returns (panicked: bool, ghost done: Dispatched<Entry>)
      requires d.part.UnmarshalPart? && d.part.free <= |d.part.list|
      modifies this`log, d`part
      ensures Dispatch(env.table, d.addr.addr, d.focused, old(d.part.list[..d.part.free]))
              == if panicked then Panicked else Ran(done)
      ensures !panicked ==> d.part == old(d.part).(list := done.items + old(d.part.list[d.part.free..]))
                            && log == old(log) + done.calls
    {
      hide Dispatch, DispatchOne;
      panicked, done := false, Dispatched([], []);
      ghost var part, start := d.part, log;
      DispatchNone(env.table, d.addr.addr, d.focused, part.list[..part.free]);
      assert log == start + done.calls && part.list == done.items + part.list[0..];
      var j := 0;
      while j < d.part.free
        invariant j <= part.free && |done.items| == j && d.part == part.(list := done.items + part.list[j..])
        invariant Dispatch(env.table, d.addr.addr, d.focused, part.list[..part.free][..j]) == Ran(done)
        invariant log == start + done.calls
      {
        panicked, done := DispatchStep(d, j, part, done, start);
        if panicked {
          return;
        }
        j := j + 1;
      }
      assert part.list[..part.free][..j] == part.list[..part.free];
    }

    /** earbudHandover_ClientUnmarshalForDevice. */
    method ClientUnmarshalForDevice(d: Device) returns (panicked: bool)
      requires MemberMatches(d.View())
      modifies this`log, d`part
      ensures var r := DispatchDev(env.table, old(d.View()));
              if panicked then r.Panicked?
              else r.Ran? && r.value.items == [d.View()] && log == old(log) + r.value.calls
    {
      if !d.mode.Unmarshaling? {
        return true;
      }
      hide Dispatch;
      ghost var done;
      panicked, done := DispatchList(d);
    }

    method DispatchDevice(d: Device, ghost k: nat) returns (panicked: bool)
      requires Linked() && k < |devices| && d == devices[k] && MemberMatches(d.View())
      modifies this`log, d`part
      ensures Linked()
      ensures var r := DispatchDev(env.table, old(d.View()));
              if panicked then r.Panicked?
              else r.Ran? && Views(devices) == old(Views(devices))[k := r.value.items[0]] && log == old(log) + r.value.calls
    {
      hide DispatchDev, MemberMatches, ListOf;
      assert forall l | 0 <= l < |devices| && l != k :: devices[l] != d by {
        ListDistinct(deviceList, devices);
      }
      panicked := ClientUnmarshalForDevice(d);
      assert !panicked ==> Views(devices) == old(Views(devices))[k := d.View()];
    }

    /** One round of the first loop of earbudHandover_Complete; `views` are the devices as they were before the loop, and
        `start` is what had been logged. */
    method DispatchRound(d: Device, ghost k: nat, ghost views: seq<Dev>, ghost before: Dispatched<Dev>, ghost start: seq<Call>)
      returns (panicked: bool, ghost done: Dispatched<Dev>)
      requires Linked() && k < |devices| == |views| && d == devices[k] && MemberMatches(views[k])
      requires PartlyDone(views, k, before.items, Views(devices)) && DispatchAll(env.table, views[..k]) == Ran(before)
      requires log == start + before.calls
      modifies this`log, d`part
      ensures Linked()
      ensures if panicked then DispatchAll(env.table, views).Panicked?
              else PartlyDone(views, k + 1, done.items, Views(devices)) && DispatchAll(env.table, views[..k + 1]) == Ran(done)
                   && log == start + done.calls
    {
      hide DispatchDev, DispatchAll, MemberMatches, ListOf;
      done := before;
      DispatchAllNext(env.table, views, k);
      assert d.View() == Views(devices)[k] == views[k];
      panicked := DispatchDevice(d, k);
      if !panicked {
        ghost var one := DispatchDev(env.table, views[k]).value;
        OneMoreDone(views, k, done.items, one.items[0]);
        assert [one.items[0]] == one.items;
        Regroup(start, done.calls, one.calls);
        done := Dispatched(done.items + one.items, done.calls + one.calls);
      }
    }

    /** The first loop of earbudHandover_Complete. */
    method DispatchToDevices() returns (panicked: bool, ghost done: Dispatched<Dev>)
      requires Linked() && forall k | 0 <= k < |devices| :: MemberMatches(Views(devices)[k])
      modifies this`log, devices
      ensures Linked()
      ensures DispatchAll(env.table, old(Views(devices))) == if panicked then Panicked else Ran(done)
      ensures !panicked ==> Views(devices) == done.items && log == old(log) + done.calls
    {
      hide DispatchDev, DispatchAll, MemberMatches, ListOf, PartlyDone, Views;
      ghost var views, start, all := Views(devices), log, devices;
      DispatchNoDevice(env.table, views);
      panicked, done := false, Dispatched([], []);
      assert log == start + done.calls;
      var d := deviceList;
      ghost var k := 0;
      ListStart(deviceList, all);
      NoneDone(views);
      while d != null
        invariant Linked() && k <= |all| == |views| && d == At(all, k)
        invariant PartlyDone(views, k, done.items, Views(devices))
        invariant DispatchAll(env.table, views[..k]) == Ran(done)
        invariant log == start + done.calls
        decreases |all| - k
      {
        ListNext(deviceList, all, k);
        var next := d.next;
        panicked, done := DispatchRound(d, k, views, done, start);
        if panicked {
          return;
        }
        d := next;
        k := k + 1;
      }
      AllDone(views, done.items, Views(devices));
    }

    /** The second loop of earbudHandover_Complete. */
    method CommitInterfaces(primary: bool)
      modifies this`log
      ensures log == old(log) + Commits(|env.table|, primary)
      ensures CommitsOnce(log[|old(log)|..], |env.table|, primary)
    {
      for i := 0 to |env.table|
        invariant log == old(log) + Commits(i, primary)
      {
        log := log + [Committed(i, primary)];
        assert Commits(i + 1, primary) == Commits(i, primary) + [Committed(i, primary)];
      }
      CommitsAreOnce(|env.table|, primary);
      assert log[|old(log)|..] == Commits(|env.table|, primary);
    }

    /** The third loop of earbudHandover_Complete. */
    method ForcePolicies()
      requires Linked()
      modifies this`log
      ensures log == old(log) + Policies(Views(devices))
    {
      hide ListOf, Policies, Views;
      ghost var views, start := Views(devices), log;
      var d := deviceList;
      ghost var k := 0;
      ListStart(deviceList, devices);
      NoPolicies(views);
      while d != null
        invariant k <= |devices| && d == At(devices, k)
        invariant log == start + Policies(views[..k])
        decreases |devices| - k
      {
        ListNext(deviceList, devices, k);
        PoliciesNext(views, k);
        Regroup(start, Policies(views[..k]), [PolicyForced(views[k].addr.addr)]);
        assert views[k] == d.View();
        log := log + [PolicyForced(d.addr.addr)];
        d := d.next;
        k := k + 1;
      }
      assert views[..k] == views;
    }

    /** earbudHandover_Abort, which is earbudHandover_CleanupAppContext. */
    method Abort()
      requires Linked() && forall k | 0 <= k < |devices| :: MemberMatches(devices[k].View())
      modifies this, devices
      ensures Valid() && View() == Cleanup(old(View())) && devices == []
    {
      CleanupDeviceList();
      currInterface := None;
    }

    /** The end of earbudHandover_Complete. */
    method Finish(primary: bool)
      requires Linked() && forall k | 0 <= k < |devices| :: MemberMatches(Views(devices)[k])
      modifies this, devices
      ensures Valid() && devices == []
      ensures View() == App([], None, 0, old(allocations),
                            old(log) + Commits(|env.table|, primary)
                            + (if primary then Policies(old(Views(devices))) else []) + AllFrees(old(Views(devices))))
    {
      hide Commits, Policies, MemberMatches, ListOf, AllFrees;
      assert forall k | 0 <= k < |devices| :: Views(devices)[k] == devices[k].View();
      CommitInterfaces(primary);
      if primary {
        ForcePolicies();
      } else {
        assert log + [] == log;
      }
      Abort();
    }

    /** earbudHandover_Complete. */
    method Complete(primary: bool) returns (panicked: bool)
      requires Valid()
      modifies this, devices
      ensures panicked <==> CompleteCall(env, old(View()), primary).Panicked?
      ensures !panicked ==> Valid() && CompleteCall(env, old(View()), primary) == Ran(View()) && devices == []
      ensures !panicked ==> CompletesOnce(old(log), log, old(Views(devices)), |env.table|, primary)
    {
      hide DispatchAll, CompleteCall, Commits, Policies, MemberMatches, ListOf, AllFrees, CursorOk, Views, CompletesOnce;
      ghost var before, views := View(), Views(devices);
      panicked := false;
      ghost var done := Dispatched(views, []);
      AllMatch(env, views);
      assert forall k | 0 <= k < |devices| :: MemberMatches(views[k]);
      if primary {
        panicked, done := DispatchToDevices();
        if panicked {
          DispatchFails(env, before);
          return;
        }
        AfterDispatch(env, views, done);
      }
      assert log == before.log + done.calls;
      Finish(primary);
      CompleteIs(env, before, primary, done);
      CompleteLog(env, before, primary);
    }

    /** earbudHandover_Commit only checks; when it panics it has added the device, as not handed over. */
    method Commit(addr: TpAddr) returns (panicked: bool)
      requires Valid()
      modifies this`deviceList, this`devices
      ensures panicked <==> CommitCall(env, old(View()), addr).Panicked?
      ensures !panicked ==> Valid() && CommitCall(env, old(View()), addr) == Ran(View())
      ensures panicked ==> Linked() && View() == old(View()).(devs := [FreshDev(env, addr)] + old(View()).devs)
    {
      var any := IsAnyValidInterfaceRegistered();
      if !any {
        return false;
      }
      var d, k := GetOrCreateDevice(addr);
      assert d.View() == View().devs[k];
      panicked := d.mode.Initialized?;
    }
  }

  lemma NoPolicies(devs: seq<Dev>)
    ensures Policies(devs[..0]) == []
  {
  }

  lemma PoliciesNext(devs: seq<Dev>, k: nat)
    requires k < |devs|
    ensures Policies(devs[..k + 1]) == Policies(devs[..k]) + [PolicyForced(devs[k].addr.addr)]
  {
  }

  lemma AllMatch(env: Env, devs: seq<Dev>)
    requires Shaped(devs)
    ensures forall k | 0 <= k < |devs| :: MemberMatches(devs[k])
  {
  }

  lemma DispatchFails(env: Env, app: App)
    requires DispatchAll(env.table, app.devs).Panicked?
    ensures CompleteCall(env, app, true).Panicked?
  {
  }

  lemma AfterDispatch(env: Env, views: seq<Dev>, done: Dispatched<Dev>)
    requires Shaped(views) && DispatchAll(env.table, views) == Ran(done)
    ensures Policies(done.items) == Policies(views) && forall k | 0 <= k < |done.items| :: MemberMatches(done.items[k])
  {
    DispatchAllKeeps(env.table, views, 0);
    assert forall k | 0 <= k < |views| :: OnlyStatuses(views[k], done.items[k]);
  }

  /** earbudHandover_Complete, put together. */
  lemma CompleteIs(env: Env, app: App, primary: bool, done: Dispatched<Dev>)
    requires primary ==> DispatchAll(env.table, app.devs) == Ran(done)
    requires !primary ==> done == Dispatched(app.devs, [])
    ensures CompleteCall(env, app, primary)
            == Ran(App([], None, 0, app.next,
                       app.log + done.calls + Commits(|env.table|, primary)
                       + (if primary then Policies(app.devs) else []) + AllFrees(done.items)))
  {
    hide DispatchAll, AllFrees;
    assert app.log + [] == app.log;
    var l := app.log + done.calls + Commits(|env.table|, primary);
    assert l + [] == l;
  }

  lemma NoneDone<T(!new)>(list: seq<T>)
    ensures PartlyDone(list, 0, [], list)
  {
  }

  lemma AllDone<T(!new)>(list: seq<T>, done: seq<T>, now: seq<T>)
    requires PartlyDone(list, |list|, done, now)
    ensures now == done && list[..|list|] == list
  {
  }

  lemma ListStart(head: Device?, devices: seq<Device>)
    requires ListOf(head, devices)
    ensures head == At(devices, 0)
  {
  }

  lemma ListNext(head: Device?, devices: seq<Device>, k: nat)
    requires ListOf(head, devices) && k < |devices|
    ensures devices[k].next == At(devices, k + 1)
  {
  }

  lemma ListDistinct(head: Device?, devices: seq<Device>)
    requires ListOf(head, devices)
    ensures forall k, l | 0 <= k < l < |devices| :: devices[k] != devices[l]
  {
  }

  lemma {:induction false} DispatchConcat(table: Table, addr: nat, focused: bool, x: seq<Entry>, y: seq<Entry>)
    ensures Dispatch(table, addr, focused, x + y)
            == Join(Dispatch(table, addr, focused, x), Dispatch(table, addr, focused, y))
    decreases |x|
  {
    hide Join, DispatchOne;
    if x == [] {
      assert x + y == y;
      JoinNothing(Dispatch(table, addr, focused, y));
    } else {
      assert (x + y)[1..] == x[1..] + y;
      DispatchConcat(table, addr, focused, x[1..], y);
      JoinAssociative(DispatchOne(table, addr, focused, x[0]), Dispatch(table, addr, focused, x[1..]), Dispatch(table, addr, focused, y));
    }
  }

  lemma DispatchSingle(table: Table, addr: nat, focused: bool, e: Entry)
    ensures Dispatch(table, addr, focused, [e]) == DispatchOne(table, addr, focused, e)
  {
    hide Join, DispatchOne;
    assert [e][1..] == [];
    JoinNothing(DispatchOne(table, addr, focused, e));
  }

  /** One more entry. */
  lemma DispatchNext(table: Table, addr: nat, focused: bool, entries: seq<Entry>, j: nat)
    requires j < |entries|
    ensures var one := DispatchOne(table, addr, focused, entries[j]);
            && Dispatch(table, addr, focused, entries[..j + 1]) == Join(Dispatch(table, addr, focused, entries[..j]), one)
            && (one.Panicked? ==> Dispatch(table, addr, focused, entries).Panicked?)
  {
    hide DispatchOne, Dispatch;
    DispatchConcat(table, addr, focused, entries[..j], [entries[j]]);
    assert entries[..j + 1] == entries[..j] + [entries[j]];
    DispatchSingle(table, addr, focused, entries[j]);
    DispatchConcat(table, addr, focused, entries[..j + 1], entries[j + 1..]);
    assert entries == entries[..j + 1] + entries[j + 1..];
  }

  lemma ListEnds(head: Device?, devices: seq<Device>)
    requires ListOf(head, devices)
    ensures head == null <==> devices == []
  {
  }

  lemma ListTail(head: Device?, devices: seq<Device>)
    requires ListOf(head, devices) && devices != []
    ensures head == devices[0] && ListOf(devices[0].next, devices[1..]) && devices[0] !in devices[1..]
    ensures Views(devices) == [devices[0].View()] + Views(devices[1..])
  {
    assert forall l: nat :: At(devices[1..], l) == At(devices, l + 1);
  }

  /** The first `j` items have their statuses. */
  ghost predicate PartlyDone<T(!new)>(list: seq<T>, j: nat, done: seq<T>, now: seq<T>) {
    |done| == j <= |list| && now == done + list[j..]
  }

  lemma OneMoreDone<T(!new)>(list: seq<T>, j: nat, done: seq<T>, e: T)
    requires |done| == j < |list|
    ensures PartlyDone(list, j + 1, done + [e], (done + list[j..])[j := e])
  {
  }

  lemma {:induction false} DispatchAllConcat(table: Table, x: seq<Dev>, y: seq<Dev>)
    ensures DispatchAll(table, x + y) == Join(DispatchAll(table, x), DispatchAll(table, y))
    decreases |x|
  {
    hide Join, DispatchDev;
    if x == [] {
      assert x + y == y;
      JoinNothing(DispatchAll(table, y));
    } else {
      assert (x + y)[1..] == x[1..] + y;
      DispatchAllConcat(table, x[1..], y);
      JoinAssociative(DispatchDev(table, x[0]), DispatchAll(table, x[1..]), DispatchAll(table, y));
    }
  }

  lemma DispatchAllSingle(table: Table, dev: Dev)
    ensures DispatchAll(table, [dev]) == DispatchDev(table, dev)
  {
    hide Join, DispatchDev;
    assert [dev][1..] == [];
    JoinNothing(DispatchDev(table, dev));
  }

  /** One more device. */
  lemma DispatchAllNext(table: Table, devs: seq<Dev>, k: nat)
    requires k < |devs|
    ensures var one := DispatchDev(table, devs[k]);
            && DispatchAll(table, devs[..k + 1]) == Join(DispatchAll(table, devs[..k]), one)
            && (one.Panicked? ==> DispatchAll(table, devs).Panicked?)
  {
    hide DispatchDev, DispatchAll;
    DispatchAllConcat(table, devs[..k], [devs[k]]);
    assert devs[..k + 1] == devs[..k] + [devs[k]];
    DispatchAllSingle(table, devs[k]);
    DispatchAllConcat(table, devs[..k + 1], devs[k + 1..]);
    assert devs == devs[..k + 1] + devs[k + 1..];
  }

  lemma DispatchNoDevice(table: Table, devs: seq<Dev>)
    ensures DispatchAll(table, devs[..0]) == Ran(Dispatched([], []))
  {
  }

  lemma DispatchNone(table: Table, addr: nat, focused: bool, entries: seq<Entry>)
    ensures Dispatch(table, addr, focused, entries[..0]) == Ran(Dispatched([], []))
  {
  }

  lemma CollectIntoIs(env: Env, app: App, k: nat, dev: Dev, buf: seq<Byte>, c: Collector, consumed: nat, complete: bool,
                      panicked: bool)
    requires k < |app.devs| && dev.part.UnmarshalPart?
    requires Collect(env.table, env.sizes, CollectorFor(app, dev), buf, 0)
             == if panicked then Overrun else Collected(c, consumed, complete)
    ensures CollectInto(env, app, k, dev, buf)
            == if panicked then Panicked
               else Ran(UnmarshalReturn(app.(devs := app.devs[k := dev.(part := PartOf(c))],
                                             next := c.next), consumed, complete))
  {
  }

  /** Overwriting a device twice is overwriting it once. */
  lemma SameCollect(env: Env, app: App, k: nat, dev: Dev, buf: seq<Byte>)
    requires k < |app.devs| && dev.part.UnmarshalPart?
    ensures CollectInto(env, app.(devs := app.devs[k := dev]), k, dev, buf) == CollectInto(env, app, k, dev, buf)
  {
    hide Collect;
    var r := Collect(env.table, env.sizes, CollectorFor(app, dev), buf, 0);
    if r.Collected? {
      var after := dev.(part := PartOf(r.collector));
      assert app.devs[k := dev][k := after] == app.devs[k := after];
    }
  }

  lemma CountWraps(n: nat)
    ensures (n % 256 + 1) % 256 == (n + 1) % 256
  {
  }

  lemma {:induction false} OwnerKnown(table: Table, kind: Byte, from: nat)
    ensures Owner(table, kind, from).Some? <==>
            exists i, j | from <= i < |table| && 0 <= j < |TypesOf(table, i)| :: TypesOf(table, i)[j].kind == kind
    decreases |table| - from
  {
    if from < |table| {
      OwnerKnown(table, kind, from + 1);
    }
  }

  lemma NothingTyped(env: Env, app: App, addr: TpAddr, size: nat)
    requires !AnyTyped(env.table)
    ensures MarshalCall(env, app, addr, size) == Ran(MarshalReturn(app, [], true))
  {
  }

  /** Interfaces without types are passed over. */
  lemma {:induction false} WalkSkips(table: Table, addr: nat, focused: bool, from: nat, m: Marshaller)
    ensures var w := Walk(table, addr, focused, from, 0, m);
            var n := FirstTyped(table, from);
            if n.Some? then w == Walk(table, addr, focused, n.value, 0, m) else w.Walked? && w.done && w.marshaller == m
    decreases |table| - from
  {
    if from < |table| && table[from].types.None? {
      WalkSkips(table, addr, focused, from + 1, m);
    }
  }
}
