/** Which objects are handed over for a device, said by the categories of the types, the mirrored device and the answers
    of the clients. */
module HandoverEligible {
  import opened Results
  import opened HandoverCodec
  import opened HandoverWalk
  import opened HandoverCollect
  import opened HandoverSpec
  import opened HandoverMarshal
  import opened HandoverUnmarshal
  import opened HandoverRuns
  import opened HandoverLog

  /** Type `j` of interface `i`. */
  type Spot = (nat, nat)

  predicate Before(p: Spot, q: Spot) {
    p.0 < q.0 || (p.0 == q.0 && p.1 < q.1)
  }

  ghost predicate Ordered(spots: seq<Spot>) {
    forall k, l | 0 <= k < l < |spots| :: Before(spots[k], spots[l])
  }

  predicate IsType(table: Table, p: Spot) {
    p.0 < |table| && table[p.0].types.Some? && p.1 < |table[p.0].types.value|
  }

  function InfoAt(table: Table, p: Spot): TypeInfo
    requires IsType(table, p)
  {
    table[p.0].types.value[p.1]
  }

  // ---------------------------------------------------------------- what is in the stream

  /** The type goes with the device, and its client has something to hand over. */
  predicate Wanted(table: Table, mirrored: nat, addr: nat, p: Spot) {
    && IsType(table, p)
    && (InfoAt(table, p).perInstance || addr == mirrored)
    && table[p.0].marshal(addr, InfoAt(table, p).kind).Some?
  }

  /** The object that the client of a type hands over. */
  function Handed(table: Table, addr: nat, p: Spot): Obj
    requires IsType(table, p) && table[p.0].marshal(addr, InfoAt(table, p).kind).Some?
  {
    Obj(InfoAt(table, p).kind, table[p.0].marshal(addr, InfoAt(table, p).kind).value)
  }

  /** These are exactly the wanted types from (i, j) on, in table order, and these are their objects. */
  ghost predicate ListsWanted(table: Table, mirrored: nat, addr: nat, i: nat, j: nat, spots: seq<Spot>, supplies: seq<Supply>) {
    && |spots| == |supplies| && Ordered(spots)
    && (forall p: Spot :: p in spots <==> Wanted(table, mirrored, addr, p) && !Before(p, (i, j)))
    && forall k | 0 <= k < |spots| ::
         Wanted(table, mirrored, addr, spots[k]) && supplies[k] == Supply(spots[k].0, Handed(table, addr, spots[k]))
  }

  lemma {:induction false} SuppliesAreWanted(table: Table, mirrored: nat, addr: nat, i: nat, j: nat) returns (spots: seq<Spot>)
    ensures ListsWanted(table, mirrored, addr, i, j, spots, SupplyFrom(table, addr, addr == mirrored, i, j))
    decreases |table| - i, if i < |table| then |TypesOf(table, i)| - j else 0
  {
    var focused := addr == mirrored;
    if i >= |table| {
      spots := [];
    } else if j >= |TypesOf(table, i)| {
      spots := SuppliesAreWanted(table, mirrored, addr, i + 1, 0);
    } else {
      spots := SuppliesAreWanted(table, mirrored, addr, i, j + 1);
      if Wanted(table, mirrored, addr, (i, j)) {
        OneMoreWanted(table, mirrored, addr, i, j, spots, SupplyFrom(table, addr, focused, i, j + 1));
        spots := [(i, j)] + spots;
      } else {
        NotWanted(table, mirrored, addr, i, j, spots, SupplyFrom(table, addr, focused, i, j + 1));
      }
    }
  }

  lemma OneMoreWanted(table: Table, mirrored: nat, addr: nat, i: nat, j: nat, spots: seq<Spot>, supplies: seq<Supply>)
    requires ListsWanted(table, mirrored, addr, i, j + 1, spots, supplies) && Wanted(table, mirrored, addr, (i, j))
    ensures ListsWanted(table, mirrored, addr, i, j, [(i, j)] + spots, [Supply(i, Handed(table, addr, (i, j)))] + supplies)
  {
    var more := [(i, j)] + spots;
    forall l | 1 <= l < |more| ensures Before((i, j), more[l]) {
      assert more[l] in spots;
    }
    forall p: Spot ensures p in more <==> Wanted(table, mirrored, addr, p) && !Before(p, (i, j)) {
      assert p in more <==> p == (i, j) || p in spots;
    }
  }

  lemma NotWanted(table: Table, mirrored: nat, addr: nat, i: nat, j: nat, spots: seq<Spot>, supplies: seq<Supply>)
    requires ListsWanted(table, mirrored, addr, i, j + 1, spots, supplies) && !Wanted(table, mirrored, addr, (i, j))
    ensures ListsWanted(table, mirrored, addr, i, j, spots, supplies)
  {
    forall p: Spot ensures Wanted(table, mirrored, addr, p) && !Before(p, (i, j + 1)) <==> Wanted(table, mirrored, addr, p) && !Before(p, (i, j)) {
    }
  }

  /** The bytes of some objects: the type, the values, and the end marker 0xFF. */
  function Wire(objs: seq<Obj>): seq<Byte> {
    if objs == [] then [] else Wire(objs[..|objs| - 1]) + [objs[|objs| - 1].kind] + objs[|objs| - 1].values + [0xFF]
  }

  lemma {:induction false} EncodeIsWire(objs: seq<Obj>)
    ensures Encode(objs) == Wire(objs)
    decreases |objs|
  {
    if objs != [] {
      var front, last := objs[..|objs| - 1], objs[|objs| - 1];
      EncodeIsWire(front);
      EncodeConcat(front, [last]);
      assert front + [last] == objs && [last][1..] == [];
    }
  }

  /** A device that was marshalled to its end has sent exactly the bytes of the wanted types, in table order: a type is
      in the stream if and only if it is per instance or the device is the mirrored one, and its client has something to
      hand over. */
  lemma StreamIsWanted(env: Env, app: App, addr: TpAddr, sizes: seq<nat>) returns (spots: seq<Spot>, objs: seq<Obj>)
    requires AnyTyped(env.table) && Find(app.devs, addr) == |app.devs| && sizes != []
    requires MarshalRun(env, app, addr, sizes).Ran? && MarshalRun(env, app, addr, sizes).value.done
    ensures Ordered(spots) && forall p: Spot :: p in spots <==> Wanted(env.table, env.mirrored, addr.addr, p)
    ensures |objs| == |spots| && forall k | 0 <= k < |spots| ::
              Wanted(env.table, env.mirrored, addr.addr, spots[k]) && objs[k] == Handed(env.table, addr.addr, spots[k])
    ensures MarshalRun(env, app, addr, sizes).value.written == Wire(objs)
  {
    hide MarshalRun;
    spots := SuppliesAreWanted(env.table, env.mirrored, addr.addr, 0, 0);
    objs := Supplied(env, addr);
    CompletedDevice(env, app, addr, sizes);
    EncodeIsWire(objs);
  }

  // ---------------------------------------------------------------- what is given to clients

  /** The first type in the table with this number. */
  ghost predicate FirstSpot(table: Table, kind: Byte, p: Spot) {
    && IsType(table, p) && InfoAt(table, p).kind == kind
    && forall q: Spot | IsType(table, q) && Before(q, p) :: InfoAt(table, q).kind != kind
  }

  lemma {:induction false} OwnerIsFirst(table: Table, kind: Byte, from: nat)
    requires from <= |table| && forall q: Spot | IsType(table, q) && q.0 < from :: InfoAt(table, q).kind != kind
    ensures Owner(table, kind, from).Some? ==> FirstSpot(table, kind, Owner(table, kind, from).value)
    decreases |table| - from
  {
    if from < |table| {
      var infos := TypesOf(table, from);
      var j := FirstWithKind(infos, kind);
      if j < |infos| {
        assert IsType(table, (from, j));
        forall q: Spot | IsType(table, q) && Before(q, (from, j)) ensures InfoAt(table, q).kind != kind {
          if q.0 == from {
            assert infos[q.1].kind != kind;
          }
        }
      } else {
        forall q: Spot | IsType(table, q) && q.0 < from + 1 ensures InfoAt(table, q).kind != kind {
          if q.0 == from {
            assert infos[q.1].kind != kind;
          }
        }
        OwnerIsFirst(table, kind, from + 1);
      }
    }
  }

  /** The type that the object has goes with the device. */
  ghost predicate Takes(table: Table, mirrored: nat, addr: nat, e: Entry) {
    e.Entry? && exists p: Spot :: FirstSpot(table, e.held.obj.kind, p) && (InfoAt(table, p).perInstance || addr == mirrored)
  }

  /** The call gives the object to the client that has its type. */
  ghost predicate GivesTo(table: Table, addr: nat, e: Entry, call: Call) {
    e.Entry? && exists p: Spot :: FirstSpot(table, e.held.obj.kind, p) && call == Unmarshalled(p.0, addr, e.held.obj)
  }

  lemma FirstSpotIsOne(table: Table, kind: Byte, p: Spot, q: Spot)
    requires FirstSpot(table, kind, p) && FirstSpot(table, kind, q)
    ensures p == q
  {
    assert !Before(p, q) && !Before(q, p);
  }

  lemma OneEntry(table: Table, mirrored: nat, addr: nat, e: Entry)
    requires DispatchOne(table, addr, addr == mirrored, e).Ran?
    ensures var calls := DispatchOne(table, addr, addr == mirrored, e).value.calls;
            if Takes(table, mirrored, addr, e) then |calls| == 1 && GivesTo(table, addr, e, calls[0]) else calls == []
  {
    var kind := e.held.obj.kind;
    OwnerIsFirst(table, kind, 0);
    var p := Owner(table, kind, 0).value;
    assert InfoAt(table, p) == TypesOf(table, p.0)[p.1];
    forall q: Spot | FirstSpot(table, kind, q) ensures q == p {
      FirstSpotIsOne(table, kind, p, q);
    }
    hide FirstSpot, Owner;
  }

  predicate Increasing(ks: seq<nat>) {
    forall m, n | 0 <= m < n < |ks| :: ks[m] < ks[n]
  }

  /** These are, in order, the entries from `from` on that are taken. */
  ghost predicate Chosen(table: Table, mirrored: nat, addr: nat, entries: seq<Entry>, from: nat, ks: seq<nat>) {
    && Increasing(ks)
    && forall k: nat :: k in ks <==> from <= k < |entries| && Takes(table, mirrored, addr, entries[k])
  }

  ghost predicate GivenAt(table: Table, addr: nat, entries: seq<Entry>, k: nat, call: Call) {
    k < |entries| && GivesTo(table, addr, entries[k], call)
  }

  /** Call after call gives the next one of these entries to its client. */
  ghost predicate GivesEach(table: Table, addr: nat, entries: seq<Entry>, ks: seq<nat>, calls: seq<Call>) {
    |ks| == |calls| && forall n | 0 <= n < |ks| :: GivenAt(table, addr, entries, ks[n], calls[n])
  }

  lemma ChosenMore(table: Table, mirrored: nat, addr: nat, entries: seq<Entry>, from: nat, ks: seq<nat>)
    requires from < |entries| && Chosen(table, mirrored, addr, entries, from + 1, ks)
    requires Takes(table, mirrored, addr, entries[from])
    ensures Chosen(table, mirrored, addr, entries, from, [from] + ks)
  {
    hide Takes;
    var more := [from] + ks;
    forall n | 0 <= n < |ks| ensures from < ks[n] && more[n + 1] == ks[n] {
      assert ks[n] in ks;
    }
    forall k: nat ensures k in more <==> from <= k < |entries| && Takes(table, mirrored, addr, entries[k]) {
      assert k in more <==> k == from || k in ks;
    }
    forall m, n | 0 <= m < n < |more| ensures more[m] < more[n] {
      assert more[n] == ks[n - 1] && (m > 0 ==> more[m] == ks[m - 1]);
    }
  }

  lemma ChosenSkips(table: Table, mirrored: nat, addr: nat, entries: seq<Entry>, from: nat, ks: seq<nat>)
    requires from < |entries| && Chosen(table, mirrored, addr, entries, from + 1, ks)
    requires !Takes(table, mirrored, addr, entries[from])
    ensures Chosen(table, mirrored, addr, entries, from, ks)
  {
    hide Takes;
  }

  lemma GivesMore(table: Table, addr: nat, entries: seq<Entry>, ks: seq<nat>, calls: seq<Call>, k: nat, call: Call)
    requires GivesEach(table, addr, entries, ks, calls) && GivenAt(table, addr, entries, k, call)
    ensures GivesEach(table, addr, entries, [k] + ks, [call] + calls)
  {
    hide GivenAt;
  }

  lemma {:induction false} EntriesGivenOut(table: Table, mirrored: nat, addr: nat, entries: seq<Entry>, from: nat) returns (ks: seq<nat>)
    requires from <= |entries| && Dispatch(table, addr, addr == mirrored, entries[from..]).Ran?
    ensures Chosen(table, mirrored, addr, entries, from, ks)
    ensures GivesEach(table, addr, entries, ks, Dispatch(table, addr, addr == mirrored, entries[from..]).value.calls)
    decreases |entries| - from
  {
    hide DispatchOne, Takes, GivesTo;
    if from == |entries| {
      ks := [];
    } else {
      var e := entries[from];
      assert entries[from..][0] == e && entries[from..][1..] == entries[from + 1..];
      var first := DispatchOne(table, addr, addr == mirrored, e);
      var others := Dispatch(table, addr, addr == mirrored, entries[from + 1..]);
      assert Dispatch(table, addr, addr == mirrored, entries[from..]) == Join(first, others);
      hide Dispatch, Chosen, GivesEach;
      OneEntry(table, mirrored, addr, e);
      ks := EntriesGivenOut(table, mirrored, addr, entries, from + 1);
      if Takes(table, mirrored, addr, e) {
        ChosenMore(table, mirrored, addr, entries, from, ks);
        GivesMore(table, addr, entries, ks, others.value.calls, from, first.value.calls[0]);
        assert first.value.calls == [first.value.calls[0]];
        ks := [from] + ks;
      } else {
        ChosenSkips(table, mirrored, addr, entries, from, ks);
        assert first.value.calls + others.value.calls == others.value.calls;
      }
    }
  }

  /** The object at this place of the list of a device is taken. */
  ghost predicate TakenAt(table: Table, mirrored: nat, devs: seq<Dev>, p: Spot) {
    && p.0 < |devs| && InUse(devs[p.0]) && p.1 < devs[p.0].part.free
    && Takes(table, mirrored, devs[p.0].addr.addr, devs[p.0].part.list[p.1])
  }

  ghost predicate GivenIn(table: Table, devs: seq<Dev>, p: Spot, call: Call) {
    && p.0 < |devs| && InUse(devs[p.0]) && p.1 < devs[p.0].part.free
    && GivesTo(table, devs[p.0].addr.addr, devs[p.0].part.list[p.1], call)
  }

  /** These are, in order, the objects of the devices from `from` on that are taken. */
  ghost predicate AllChosen(table: Table, mirrored: nat, devs: seq<Dev>, from: nat, at: seq<Spot>) {
    Ordered(at) && forall p: Spot :: p in at <==> from <= p.0 && TakenAt(table, mirrored, devs, p)
  }

  /** Call after call gives the next one of these objects to its client. */
  ghost predicate AllGiven(table: Table, devs: seq<Dev>, at: seq<Spot>, calls: seq<Call>) {
    |at| == |calls| && forall n | 0 <= n < |at| :: GivenIn(table, devs, at[n], calls[n])
  }

  /** The focus flag of a device says whether it is the mirrored one. */
  ghost predicate FocusKept(mirrored: nat, devs: seq<Dev>) {
    forall k | 0 <= k < |devs| :: devs[k].focused == (devs[k].addr.addr == mirrored)
  }

  function Places(d: nat, ks: seq<nat>): (at: seq<Spot>)
    ensures |at| == |ks| && forall n | 0 <= n < |ks| :: at[n] == (d, ks[n])
    ensures forall p: Spot :: p in at <==> p.0 == d && p.1 in ks
  {
    var at := seq(|ks|, n requires 0 <= n < |ks| => (d, ks[n]));
    assert forall n | 0 <= n < |ks| :: at[n] == (d, ks[n]);
    at
  }

  /** One device, as the list of all devices has it. */
  lemma DeviceChosen(table: Table, mirrored: nat, devs: seq<Dev>, from: nat, entries: seq<Entry>, ks: seq<nat>, rest: seq<Spot>)
    requires from < |devs| && InUse(devs[from]) && entries == devs[from].part.list[..devs[from].part.free]
    requires Chosen(table, mirrored, devs[from].addr.addr, entries, 0, ks)
    requires AllChosen(table, mirrored, devs, from + 1, rest)
    ensures AllChosen(table, mirrored, devs, from, Places(from, ks) + rest)
  {
    hide Takes, Places;
    var front := Places(from, ks);
    forall p: Spot | p.0 == from ensures p in front <==> TakenAt(table, mirrored, devs, p) {
      if p.1 < |entries| {
        assert devs[from].part.list[p.1] == entries[p.1];
      }
    }
    hide TakenAt, InUse, Chosen;
    forall p: Spot ensures p in front + rest <==> from <= p.0 && TakenAt(table, mirrored, devs, p) {
      assert p in front + rest <==> p in front || p in rest;
    }
    assert Increasing(ks);
    forall n | 0 <= n < |rest| ensures from < rest[n].0 {
      assert rest[n] in rest;
    }
    OrderedPlaces(from, ks);
    OrderedConcat(from, front, rest);
  }

  lemma OrderedPlaces(d: nat, ks: seq<nat>)
    requires Increasing(ks)
    ensures Ordered(Places(d, ks))
  {
  }

  lemma OrderedConcat(d: nat, front: seq<Spot>, rest: seq<Spot>)
    requires Ordered(front) && Ordered(rest)
    requires (forall n | 0 <= n < |front| :: front[n].0 == d) && forall n | 0 <= n < |rest| :: d < rest[n].0
    ensures Ordered(front + rest)
  {
  }

  lemma DeviceGiven(table: Table, devs: seq<Dev>, d: nat, entries: seq<Entry>, ks: seq<nat>, calls: seq<Call>,
                    rest: seq<Spot>, others: seq<Call>)
    requires d < |devs| && InUse(devs[d]) && entries == devs[d].part.list[..devs[d].part.free]
    requires GivesEach(table, devs[d].addr.addr, entries, ks, calls) && AllGiven(table, devs, rest, others)
    ensures AllGiven(table, devs, Places(d, ks) + rest, calls + others)
  {
    hide GivesTo, Places;
    forall n | 0 <= n < |ks| ensures GivenIn(table, devs, (d, ks[n]), calls[n]) {
      assert GivenAt(table, devs[d].addr.addr, entries, ks[n], calls[n]);
      assert devs[d].part.list[ks[n]] == entries[ks[n]];
    }
  }

  lemma {:induction false} DevicesGivenOut(table: Table, mirrored: nat, devs: seq<Dev>, from: nat) returns (at: seq<Spot>)
    requires from <= |devs| && FocusKept(mirrored, devs) && DispatchAll(table, devs[from..]).Ran?
    ensures AllChosen(table, mirrored, devs, from, at)
    ensures AllGiven(table, devs, at, DispatchAll(table, devs[from..]).value.calls)
    decreases |devs| - from
  {
    hide Dispatch, Takes, GivesTo;
    if from == |devs| {
      at := [];
    } else {
      var dev := devs[from];
      assert devs[from..][0] == dev && devs[from..][1..] == devs[from + 1..];
      assert DispatchAll(table, devs[from..]) == Join(DispatchDev(table, dev), DispatchAll(table, devs[from + 1..]));
      hide DispatchAll, AllChosen, AllGiven, Chosen, GivesEach, Places;
      var entries := dev.part.list[..dev.part.free];
      assert entries[0..] == entries;
      var ks := EntriesGivenOut(table, mirrored, dev.addr.addr, entries, 0);
      var rest := DevicesGivenOut(table, mirrored, devs, from + 1);
      DeviceChosen(table, mirrored, devs, from, entries, ks, rest);
      DeviceGiven(table, devs, from, entries, ks, DispatchDev(table, dev).value.calls, rest,
                  DispatchAll(table, devs[from + 1..]).value.calls);
      at := Places(from, ks) + rest;
    }
  }

  lemma FocusStep(env: Env, app: App, op: Op)
    requires FocusKept(env.mirrored, app.devs) && StepOp(env, app, op).Ran?
    ensures FocusKept(env.mirrored, StepOp(env, app, op).value.devs)
  {
    hide MarshalCall, UnmarshalCall, CommitCall, DispatchAll, AllFrees;
    match op
    case DoMarshal(addr, size) => MarshalKeepsFocus(env, app, addr, size);
    case DoUnmarshal(addr, buf) => UnmarshalKeepsFocus(env, app, addr, buf);
    case DoCommit(addr) => CommitKeepsFocus(env, app, addr);
    case _ =>
  }

  lemma MarshalKeepsFocus(env: Env, app: App, addr: TpAddr, size: nat)
    requires FocusKept(env.mirrored, app.devs) && MarshalCall(env, app, addr, size).Ran?
    ensures FocusKept(env.mirrored, MarshalCall(env, app, addr, size).value.app.devs)
  {
    hide Walk, NextInterface, AnyTyped, Cursor;
  }

  lemma UnmarshalKeepsFocus(env: Env, app: App, addr: TpAddr, buf: seq<Byte>)
    requires FocusKept(env.mirrored, app.devs) && UnmarshalCall(env, app, addr, buf).Ran?
    ensures FocusKept(env.mirrored, UnmarshalCall(env, app, addr, buf).value.app.devs)
  {
    hide Collect, EmptyList, NextInterface;
  }

  lemma CommitKeepsFocus(env: Env, app: App, addr: TpAddr)
    requires FocusKept(env.mirrored, app.devs) && CommitCall(env, app, addr).Ran?
    ensures FocusKept(env.mirrored, CommitCall(env, app, addr).value.devs)
  {
    hide AnyTyped;
  }

  lemma {:induction false} RunsKeepFocus(env: Env, ops: seq<Op>)
    ensures var r := RunOps(env, NO_DEVICES, ops); r.Ran? ==> FocusKept(env.mirrored, r.value.devs)
    decreases |ops|
  {
    hide StepOp, FocusKept;
    if ops == [] {
      assert FocusKept(env.mirrored, NO_DEVICES.devs) by {
        NoFocus(env.mirrored);
      }
    } else if RunOps(env, NO_DEVICES, ops).Ran? {
      RunsKeepFocus(env, ops[..|ops| - 1]);
      FocusStep(env, RunOps(env, NO_DEVICES, ops[..|ops| - 1]).value, ops[|ops| - 1]);
    }
  }

  lemma NoFocus(mirrored: nat)
    ensures FocusKept(mirrored, [])
  {
  }

  /** After any run of the entry points, Complete as primary gives to clients exactly those collected objects whose type is
      per instance or whose device is the mirrored one, each once, in list order, and each to the first client that has
      its type. */
  lemma CompleteGives(env: Env, ops: seq<Op>) returns (at: seq<Spot>, calls: seq<Call>, rest: seq<Call>)
    requires RunOps(env, NO_DEVICES, ops).Ran? && CompleteCall(env, RunOps(env, NO_DEVICES, ops).value, true).Ran?
    ensures var app := RunOps(env, NO_DEVICES, ops).value;
            && CompleteCall(env, app, true).value.log == app.log + calls + rest
            && AllChosen(env.table, env.mirrored, app.devs, 0, at) && AllGiven(env.table, app.devs, at, calls)
            && forall i | 0 <= i < |rest| :: !rest[i].Unmarshalled?
  {
    hide RunOps, DispatchAll, AllChosen, AllGiven, FocusKept, CompleteCall;
    var app := RunOps(env, NO_DEVICES, ops).value;
    RunsKeepFocus(env, ops);
    assert app.devs[0..] == app.devs;
    calls, rest := CompleteInTwo(env, app);
    at := DevicesGivenOut(env.table, env.mirrored, app.devs, 0);
  }

  lemma CompleteInTwo(env: Env, app: App) returns (calls: seq<Call>, rest: seq<Call>)
    requires CompleteCall(env, app, true).Ran?
    ensures DispatchAll(env.table, app.devs).Ran? && calls == DispatchAll(env.table, app.devs).value.calls
    ensures CompleteCall(env, app, true).value.log == app.log + calls + rest
    ensures forall i | 0 <= i < |rest| :: !rest[i].Unmarshalled?
  {
    var d := DispatchAll(env.table, app.devs).value;
    AllOnlyFree(d.items);
    hide DispatchAll, AllFrees;
    calls, rest := d.calls, Commits(|env.table|, true) + Policies(app.devs) + AllFrees(d.items);
    assert app.log + calls + Commits(|env.table|, true) + Policies(app.devs) + AllFrees(d.items) == app.log + calls + rest;
  }

  // ---------------------------------------------------------------- no types at all

  lemma {:induction false} NothingSupplied(table: Table, addr: nat, focused: bool, i: nat)
    requires forall k | 0 <= k < |table| :: table[k].types.None?
    ensures SupplyFrom(table, addr, focused, i, 0) == []
    decreases |table| - i
  {
    if i < |table| {
      NothingSupplied(table, addr, focused, i + 1);
    }
  }

  /** Without any types, marshalling reports completion with nothing written, nothing is in the stream, committing does
      nothing, and unmarshalling for a new device panics. */
  lemma NothingRegistered(env: Env, app: App, addr: TpAddr, size: nat, buf: seq<Byte>)
    requires forall i | 0 <= i < |env.table| :: env.table[i].types.None?
    ensures MarshalCall(env, app, addr, size) == Ran(MarshalReturn(app, [], true)) && CommitCall(env, app, addr) == Ran(app)
    ensures Supplied(env, addr) == []
    ensures Find(app.devs, addr) == |app.devs| ==> UnmarshalCall(env, app, addr, buf).Panicked?
  {
    NothingSupplied(env.table, addr.addr, addr.addr == env.mirrored, 0);
  }

  // ---------------------------------------------------------------- a generic type

  /** One client with one generic type, which always has the byte 7 to hand over. */
  function GenericEnv(mirrored: nat): Env {
    Env([Interface(Some([TypeInfo(0, false)]), (addr: nat, kind: Byte) => Some([7]),
                   (addr: nat, kind: Byte, values: seq<Byte>) => FreeObject)], mirrored, [1])
  }

  lemma GenericSupply(mirrored: nat)
    ensures Supplied(GenericEnv(mirrored), TpAddr(0, 1)) == if mirrored == 1 then [Obj(0, [7])] else []
    ensures AnyTyped(GenericEnv(mirrored).table)
  {
    var table := GenericEnv(mirrored).table;
    assert table[0].types.Some?;
    assert SupplyFrom(table, 1, mirrored == 1, 1, 0) == [];
    assert SupplyFrom(table, 1, mirrored == 1, 0, 1) == [];
  }

  /** Device 1 gets the object exactly when it is the mirrored one; a buffer of three bytes holds it. */
  lemma GenericGoesWithMirrored(mirrored: nat)
    ensures var r := MarshalRun(GenericEnv(mirrored), NO_DEVICES, TpAddr(0, 1), [3]);
            r.Ran? && r.value.done && r.value.written == if mirrored == 1 then [0, 7, 0xFF] else []
  {
    var env, addr, objs := GenericEnv(mirrored), TpAddr(0, 1), if mirrored == 1 then [Obj(0, [7])] else [];
    GenericSupply(mirrored);
    hide GenericEnv, Supplied, MarshalRun, AnyTyped, Overruns;
    ChunksDoNotMatter(env, NO_DEVICES, addr, [3]);
    CompletedDevice(env, NO_DEVICES, addr, [3]);
    WrittenOne(Pieces(objs), 3);
  }
}
