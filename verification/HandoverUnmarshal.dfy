/** What the new primary collects: however a device's stream is cut, exactly the objects that were sent, and the
    list that was sized in advance is never too short. */
module HandoverUnmarshal {
  import opened Results
  import opened HandoverCodec
  import opened HandoverWalk
  import opened HandoverCollect
  import opened HandoverSpec
  import opened HandoverMarshal

  // ---------------------------------------------------------------- interface tables

  predicate TypeAt(table: Table, i: nat, j: nat, kind: Byte) {
    i < |table| && j < |TypesOf(table, i)| && TypesOf(table, i)[j].kind == kind
  }

  /** No type is registered twice. */
  ghost predicate UniqueKinds(table: Table) {
    forall i: nat, j: nat, i2: nat, j2: nat, kind: Byte | TypeAt(table, i, j, kind) && TypeAt(table, i2, j2, kind) ::
      i == i2 && j == j2
  }

  /** Registered types are unique and have descriptors, of which there are fewer than the end marker allows. */
  ghost predicate SoundTable(env: Env) {
    && UniqueKinds(env.table) && |env.sizes| <= END
    && forall i: nat, j: nat, kind: Byte | TypeAt(env.table, i, j, kind) :: kind < |env.sizes|
  }

  /** Clients supply objects of the described size. */
  ghost predicate SoundClients(env: Env) {
    forall i: nat, addr: nat, kind: Byte | i < |env.table| && env.table[i].marshal(addr, kind).Some? && kind < |env.sizes| ::
      |env.table[i].marshal(addr, kind).value| == env.sizes[kind]
  }

  /** Both sides were built alike: same types, same descriptors, same mirrored device. */
  ghost predicate Twins(a: Env, b: Env) {
    && |a.table| == |b.table| && a.sizes == b.sizes && a.mirrored == b.mirrored
    && forall i | 0 <= i < |a.table| :: a.table[i].types == b.table[i].types
  }

  // ---------------------------------------------------------------- capacity

  function KindsOf(infos: seq<TypeInfo>): set<Byte> {
    set info | info in infos :: info.kind
  }

  function KindsFrom(table: Table, from: nat): set<Byte>
    decreases |table| - from
  {
    if from >= |table| then {} else KindsOf(TypesOf(table, from)) + KindsFrom(table, from + 1)
  }

  lemma {:induction false} KindsFromAt(table: Table, from: nat, kind: Byte) returns (i: nat, j: nat)
    requires kind in KindsFrom(table, from)
    ensures from <= i && TypeAt(table, i, j, kind)
    decreases |table| - from
  {
    if kind in KindsOf(TypesOf(table, from)) {
      i := from;
      j :| j < |TypesOf(table, i)| && TypesOf(table, i)[j].kind == kind;
    } else {
      i, j := KindsFromAt(table, from + 1, kind);
    }
  }

  lemma {:induction false} EligibleKinds(infos: seq<TypeInfo>, focused: bool)
    requires forall j, j2 | 0 <= j < j2 < |infos| :: infos[j].kind != infos[j2].kind
    ensures EligibleIn(infos, focused) <= |KindsOf(infos)|
  {
    if infos != [] {
      EligibleKinds(infos[1..], focused);
      assert infos == [infos[0]] + infos[1..];
      assert KindsOf(infos) == {infos[0].kind} + KindsOf(infos[1..]);
      assert infos[0].kind !in KindsOf(infos[1..]);
    }
  }

  lemma {:induction false} EligibleBelowKinds(table: Table, focused: bool, from: nat)
    requires UniqueKinds(table)
    ensures EligibleTypes(table, focused, from) <= |KindsFrom(table, from)|
    decreases |table| - from
  {
    if from < |table| {
      var infos := TypesOf(table, from);
      EligibleBelowKinds(table, focused, from + 1);
      forall j, j2 | 0 <= j < j2 < |infos| ensures infos[j].kind != infos[j2].kind {
        assert TypeAt(table, from, j, infos[j].kind);
        assert TypeAt(table, from, j2, infos[j2].kind);
      }
      EligibleKinds(infos, focused);
      var here, later := KindsOf(infos), KindsFrom(table, from + 1);
      forall kind | kind in here && kind in later ensures false {
        var i, j := KindsFromAt(table, from + 1, kind);
        var j2: nat :| j2 < |infos| && infos[j2].kind == kind;
        assert TypeAt(table, from, j2, kind);
      }
      assert here * later == {};
      assert |here + later| == |here| + |later|;
    }
  }

  function Below(n: nat): (s: set<Byte>)
    requires n <= END
    ensures |s| == n && forall b: Byte :: b in s <==> b < n
  {
    if n == 0 then {} else var b: Byte := n - 1; Below(n - 1) + {b}
  }

  lemma SubsetSize(a: set<Byte>, b: set<Byte>)
    requires a <= b
    ensures |a| <= |b|
  {
    assert b == a + (b - a);
  }

  /** The eight-bit count of types does not wrap. */
  lemma CountFits(env: Env, focused: bool)
    requires SoundTable(env)
    ensures EligibleTypes(env.table, focused, 0) <= END
    ensures |EmptyList(env.table, focused)| == EligibleTypes(env.table, focused, 0)
  {
    var kinds := KindsFrom(env.table, 0);
    forall kind | kind in kinds ensures kind in Below(|env.sizes|) {
      var i, j := KindsFromAt(env.table, 0, kind);
    }
    EligibleBelowKinds(env.table, focused, 0);
    SubsetSize(kinds, Below(|env.sizes|));
  }

  lemma {:induction false} SupplyCount(table: Table, addr: nat, focused: bool, i: nat, j: nat)
    ensures |SupplyFrom(table, addr, focused, i, j)|
            <= (if i < |table| && j <= |TypesOf(table, i)| then EligibleIn(TypesOf(table, i)[j..], focused) else 0)
               + EligibleTypes(table, focused, i + 1)
    decreases |table| - i, if i < |table| then |TypesOf(table, i)| - j else 0
  {
    if i < |table| {
      if j >= |TypesOf(table, i)| {
        SupplyCount(table, addr, focused, i + 1, 0);
        if i + 1 < |table| {
          assert TypesOf(table, i + 1)[0..] == TypesOf(table, i + 1);
        }
      } else {
        SupplyCount(table, addr, focused, i, j + 1);
        assert TypesOf(table, i)[j..][1..] == TypesOf(table, i)[j + 1..];
      }
    }
  }

  lemma {:induction false} SameCount(a: Table, b: Table, focused: bool, from: nat)
    requires |a| == |b| && forall i | 0 <= i < |a| :: a[i].types == b[i].types
    ensures EligibleTypes(a, focused, from) == EligibleTypes(b, focused, from)
    decreases |a| - from
  {
    if from < |a| {
      SameCount(a, b, focused, from + 1);
    }
  }

  /** The list of the new primary has room for everything the old one can send. */
  lemma RoomForAll(sender: Env, receiver: Env, addr: TpAddr)
    requires SoundTable(receiver) && Twins(sender, receiver)
    ensures |Supplied(sender, addr)| <= |EmptyList(receiver.table, addr.addr == receiver.mirrored)|
  {
    var focused := addr.addr == sender.mirrored;
    CountFits(receiver, focused);
    SupplyCount(sender.table, addr.addr, focused, 0, 0);
    SameCount(sender.table, receiver.table, focused, 0);
    if |sender.table| > 0 {
      assert TypesOf(sender.table, 0)[0..] == TypesOf(sender.table, 0);
    }
  }

  // ---------------------------------------------------------------- the objects are recognised

  predicate SuppliedAt(table: Table, addr: nat, focused: bool, i: nat, j: nat, s: Supply) {
    && i < |table| && j < |TypesOf(table, i)|
    && Offer(table, addr, focused, i, j) == Some(s)
  }

  lemma {:induction false} WhereSupplied(table: Table, addr: nat, focused: bool, i: nat, j: nat, k: nat)
    returns (p: nat, q: nat)
    requires k < |SupplyFrom(table, addr, focused, i, j)|
    ensures SuppliedAt(table, addr, focused, p, q, SupplyFrom(table, addr, focused, i, j)[k])
    decreases |table| - i, if i < |table| then |TypesOf(table, i)| - j else 0
  {
    if j >= |TypesOf(table, i)| {
      p, q := WhereSupplied(table, addr, focused, i + 1, 0, k);
    } else if Offer(table, addr, focused, i, j).None? {
      p, q := WhereSupplied(table, addr, focused, i, j + 1, k);
    } else if k == 0 {
      p, q := i, j;
    } else {
      p, q := WhereSupplied(table, addr, focused, i, j + 1, k - 1);
    }
  }

  lemma SuppliedIsRecognised(sender: Env, receiver: Env, addr: TpAddr)
    requires SoundTable(receiver) && SoundClients(sender) && Twins(sender, receiver)
    ensures Recognised(receiver.table, receiver.sizes, Supplied(sender, addr))
  {
    var focused := addr.addr == sender.mirrored;
    forall k | 0 <= k < |Supplied(sender, addr)|
      ensures Known(receiver.table, Supplied(sender, addr)[k].kind) && Described(receiver.sizes, Supplied(sender, addr)[k])
    {
      var p, q := WhereSupplied(sender.table, addr.addr, focused, 0, 0, k);
      var o := Supplied(sender, addr)[k];
      assert TypeAt(receiver.table, p, q, o.kind);
      assert sender.table[p].marshal(addr.addr, o.kind).Some?;
    }
  }

  // ---------------------------------------------------------------- a device, chunk by chunk

  /** The new primary has collected `done` of the device and expects `todo`; `slots` more objects fit into its set. */
  ghost predicate Receiving(env: Env, app: App, addr: TpAddr, done: seq<Obj>, todo: seq<Obj>, slots: nat) {
    var d := Find(app.devs, addr);
    && d < |app.devs|
    && var dev := app.devs[d];
       && dev.mode.Unmarshaling? && dev.focused == (addr.addr == env.mirrored) && dev.part.UnmarshalPart?
       && Collects(CollectorFor(app, dev), done, todo) && dev.part.slots == slots
  }

  /** What one chunk does that starts at the next object: a panic exactly when it takes more slots than there are,
      else its complete objects are collected. */
  ghost predicate TakesWhole(env: Env, app: App, addr: TpAddr, done: seq<Obj>, todo: seq<Obj>, slots: nat, buf: seq<Byte>) {
    var c := UnmarshalCall(env, app, addr, buf);
    var k, pushed := Whole(todo, |buf|), Pushes(todo, |buf|);
    if pushed > slots then c.Panicked?
    else
      && c.Ran?
      && var r := c.value;
         && Receiving(env, r.app, addr, done + todo[..k], todo[k..], slots - pushed)
         && r.consumed == |Encode(todo[..k])| <= |buf| && (r.complete <==> r.consumed == |buf|)
         && (!r.complete ==> k < |todo| && buf[r.consumed..] < Encode([todo[k]]))
         && r.app.log == app.log && r.app.curr == app.curr && Find(r.app.devs, addr) == Find(app.devs, addr)
         && |r.app.devs| == |app.devs|
         && forall i | 0 <= i < |app.devs| && i != Find(app.devs, addr) :: r.app.devs[i] == app.devs[i]
  }

  lemma UnmarshalStep(env: Env, app: App, addr: TpAddr, done: seq<Obj>, todo: seq<Obj>, slots: nat, buf: seq<Byte>)
    requires Receiving(env, app, addr, done, todo, slots) && Recognised(env.table, env.sizes, todo)
    requires buf != [] && buf <= Encode(todo)
    ensures TakesWhole(env, app, addr, done, todo, slots, buf)
  {
    hide Collects, Recognised, Encode, Collect, Whole, Pushes;
    var d := Find(app.devs, addr);
    var dev := app.devs[d];
    var c := CollectorFor(app, dev);
    assert buf[0..] == buf;
    CollectPrefix(env.table, env.sizes, c, done, todo, buf, 0);
    var r := Collect(env.table, env.sizes, c, buf, 0);
    if r.Collected? {
      FindSame(app.devs, d, dev.(part := PartOf(r.collector)), addr);
    }
  }

  /** The device as the first call sets it up. */
  function Prepared(env: Env, addr: TpAddr): Dev {
    SetUp(env, FreshDev(env, addr))
  }

  lemma FirstUnmarshalCall(env: Env, app: App, addr: TpAddr, buf: seq<Byte>)
    requires Find(app.devs, addr) == |app.devs| && buf != [] && AnyTyped(env.table) && app.curr.None?
    ensures var begun := app.(devs := [Prepared(env, addr)] + app.devs);
            && UnmarshalCall(env, app, addr, buf) == UnmarshalCall(env, begun, addr, buf) && Find(begun.devs, addr) == 0
            && begun.devs[1..] == app.devs
  {
    hide EmptyList;
    var begun := app.(devs := [Prepared(env, addr)] + app.devs);
    var found := WithDevice(env, app, addr);
    assert Find(found.devs, addr) == 0 && Find(begun.devs, addr) == 0;
    var r := Collect(env.table, env.sizes, CollectorFor(app, Prepared(env, addr)), buf, 0);
    if r.Collected? {
      var after := Prepared(env, addr).(part := PartOf(r.collector));
      assert found.devs[0 := after] == begun.devs[0 := after];
    }
  }

  datatype Fed = Fed(app: App, offset: nat)

  /** One call, with the stream from the first unconsumed byte to `cut`; without new bytes there is no call. */
  function FeedTo(env: Env, before: Fed, addr: TpAddr, stream: seq<Byte>, cut: nat): Outcome<Fed> {
    if cut <= before.offset || cut > |stream| then Ran(before)
    else
      match UnmarshalCall(env, before.app, addr, stream[before.offset..cut])
      case Panicked => Panicked
      case Ran(r) => Ran(Fed(r.app, before.offset + r.consumed))
  }

  /** The caller hands over the stream up to each cut in turn, sending again what was not consumed. */
  function UnmarshalRun(env: Env, app: App, addr: TpAddr, stream: seq<Byte>, cuts: seq<nat>): Outcome<Fed> {
    if cuts == [] then Ran(Fed(app, 0))
    else
      match UnmarshalRun(env, app, addr, stream, cuts[..|cuts| - 1])
      case Panicked => Panicked
      case Ran(before) => FeedTo(env, before, addr, stream, cuts[|cuts| - 1])
  }

  // ---------------------------------------------------------------- what the cuts amount to

  /** The first `k` objects have been consumed; this is how many bytes a call up to `cut` hands over. */
  function Handed(objs: seq<Obj>, k: nat, cut: nat): nat
    requires k <= |objs|
  {
    if |Encode(objs[..k])| < cut <= |Encode(objs)| then cut - |Encode(objs[..k])| else 0
  }

  /** The number of objects that have been consumed after these cuts. */
  function Taken(objs: seq<Obj>, cuts: seq<nat>): (k: nat)
    ensures k <= |objs|
  {
    if cuts == [] then 0
    else
      var k := Taken(objs, cuts[..|cuts| - 1]);
      k + Whole(objs[k..], Handed(objs, k, cuts[|cuts| - 1]))
  }

  /** The number of objects that the library's set holds after these cuts: those consumed, and one for each call that
      ended just before an end marker. */
  function Pushed(objs: seq<Obj>, cuts: seq<nat>): nat {
    if cuts == [] then 0
    else
      var k := Taken(objs, cuts[..|cuts| - 1]);
      Pushed(objs, cuts[..|cuts| - 1]) + Pushes(objs[k..], Handed(objs, k, cuts[|cuts| - 1]))
  }

  /** Of the objects of the stream, the first `k` have been collected, and the set holds `pushed`. */
  ghost predicate Received(env: Env, app: App, addr: TpAddr, objs: seq<Obj>, f: Fed, k: nat, pushed: nat) {
    && k <= |objs| && pushed <= MAX_OBJECTS && f.offset == |Encode(objs[..k])|
    && f.app.log == app.log && f.app.curr == app.curr
    && if k == 0 && pushed == 0 && f.app == app then true
       else Receiving(env, f.app, addr, objs[..k], objs[k..], MAX_OBJECTS - pushed)
            && Find(f.app.devs, addr) == 0 && f.app.devs[1..] == app.devs
  }

  lemma StreamSuffix(objs: seq<Obj>, k: nat, cut: nat)
    requires k <= |objs| && |Encode(objs[..k])| <= cut <= |Encode(objs)|
    ensures Encode(objs)[|Encode(objs[..k])|..cut] <= Encode(objs[k..])
    ensures cut == |Encode(objs)| ==> Encode(objs)[|Encode(objs[..k])|..cut] == Encode(objs[k..])
  {
    EncodeConcat(objs[..k], objs[k..]);
    assert objs[..k] + objs[k..] == objs;
  }

  lemma MoreReceived(objs: seq<Obj>, k: nat, n: nat)
    requires k + n <= |objs|
    ensures objs[..k] + objs[k..][..n] == objs[..k + n] && objs[k..][n..] == objs[k + n..]
    ensures |Encode(objs[..k])| + |Encode(objs[k..][..n])| == |Encode(objs[..k + n])|
  {
    assert objs[..k] + objs[k..][..n] == objs[..k + n];
    EncodeConcat(objs[..k], objs[k..][..n]);
  }

  /** All bytes hold all objects. */
  lemma {:induction false} WholeStream(objs: seq<Obj>)
    ensures Whole(objs, |Encode(objs)|) == Pushes(objs, |Encode(objs)|) == |objs|
  {
    if objs != [] {
      EncodeFirst(objs);
      WholeStream(objs[1..]);
    }
  }

  /** One chunk fed to a device of which `k` objects have been collected. */
  ghost predicate FeedsOne(env: Env, app: App, addr: TpAddr, objs: seq<Obj>, before: Fed, k: nat, pushed: nat, cut: nat)
    requires k <= |objs|
  {
    var handed := Handed(objs, k, cut);
    var now := pushed + Pushes(objs[k..], handed);
    match FeedTo(env, before, addr, Encode(objs), cut)
    case Panicked => now > MAX_OBJECTS
    case Ran(f) => now <= MAX_OBJECTS && Received(env, app, addr, objs, f, k + Whole(objs[k..], handed), now)
  }

  /** What a call with new bytes does, given what it does to the objects that are expected. */
  lemma CallFeeds(env: Env, app: App, begun: App, addr: TpAddr, objs: seq<Obj>, before: Fed, k: nat, pushed: nat, cut: nat)
    requires k <= |objs| && pushed <= MAX_OBJECTS && before.offset == |Encode(objs[..k])| < cut <= |Encode(objs)|
    requires begun.log == app.log && begun.curr == app.curr && Find(begun.devs, addr) == 0 && begun.devs != []
    requires begun.devs[1..] == app.devs
    requires UnmarshalCall(env, before.app, addr, Encode(objs)[before.offset..cut])
             == UnmarshalCall(env, begun, addr, Encode(objs)[before.offset..cut])
    requires TakesWhole(env, begun, addr, objs[..k], objs[k..], MAX_OBJECTS - pushed, Encode(objs)[before.offset..cut])
    ensures FeedsOne(env, app, addr, objs, before, k, pushed, cut)
  {
    hide UnmarshalCall, Receiving, Encode, Whole, Pushes;
    var n := Whole(objs[k..], cut - before.offset);
    var c := UnmarshalCall(env, begun, addr, Encode(objs)[before.offset..cut]);
    MoreReceived(objs, k, n);
    if c.Ran? {
      assert c.value.app.devs[1..] == begun.devs[1..];
    }
  }

  /** A first chunk for a device that is not known yet. */
  lemma FirstReceived(sender: Env, receiver: Env, app: App, addr: TpAddr, cut: nat)
    requires SoundTable(receiver) && SoundClients(sender) && Twins(sender, receiver) && AnyTyped(receiver.table)
    requires Find(app.devs, addr) == |app.devs| && app.curr.None?
    requires 0 < cut <= |Encode(Supplied(sender, addr))|
    ensures FeedsOne(receiver, app, addr, Supplied(sender, addr), Fed(app, 0), 0, 0, cut)
  {
    var objs := Supplied(sender, addr);
    var buf := Encode(objs)[0..cut];
    var begun := app.(devs := [Prepared(receiver, addr)] + app.devs);
    FirstUnmarshalCall(receiver, app, addr, buf);
    RoomForAll(sender, receiver, addr);
    SuppliedIsRecognised(sender, receiver, addr);
    assert objs[..0] == [] && objs[0..] == objs;
    StreamSuffix(objs, 0, cut);
    hide UnmarshalCall, Encode, Supplied, Recognised, EmptyList;
    ReceivingNothing(receiver, begun, addr, objs);
    UnmarshalStep(receiver, begun, addr, [], objs, MAX_OBJECTS, buf);
    CallFeeds(receiver, app, begun, addr, objs, Fed(app, 0), 0, 0, cut);
  }

  lemma ReceivingNothing(env: Env, app: App, addr: TpAddr, objs: seq<Obj>)
    requires app.devs != [] && app.devs[0] == Prepared(env, addr) && Find(app.devs, addr) == 0
    requires |objs| <= |EmptyList(env.table, addr.addr == env.mirrored)|
    ensures Receiving(env, app, addr, [], objs, MAX_OBJECTS)
  {
  }

  /** A further chunk. */
  lemma NextReceived(sender: Env, receiver: Env, app: App, addr: TpAddr, before: Fed, k: nat, pushed: nat, cut: nat)
    requires SoundTable(receiver) && SoundClients(sender) && Twins(sender, receiver)
    requires Received(receiver, app, addr, Supplied(sender, addr), before, k, pushed) && before.app != app
    requires before.offset < cut <= |Encode(Supplied(sender, addr))|
    ensures FeedsOne(receiver, app, addr, Supplied(sender, addr), before, k, pushed, cut)
  {
    hide UnmarshalCall, Collects, Recognised, SupplyFrom, Encode;
    var objs := Supplied(sender, addr);
    var buf := Encode(objs)[before.offset..cut];
    SuppliedIsRecognised(sender, receiver, addr);
    RecognisedSuffix(receiver, objs, k);
    StreamSuffix(objs, k, cut);
    UnmarshalStep(receiver, before.app, addr, objs[..k], objs[k..], MAX_OBJECTS - pushed, buf);
    CallFeeds(receiver, app, before.app, addr, objs, before, k, pushed, cut);
  }

  lemma RecognisedSuffix(env: Env, objs: seq<Obj>, k: nat)
    requires k <= |objs| && Recognised(env.table, env.sizes, objs)
    ensures Recognised(env.table, env.sizes, objs[k..])
  {
    assert forall i | 0 <= i < |objs| - k :: objs[k..][i] == objs[k + i];
  }

  /** One chunk, whether it is the first or not. */
  lemma OneCut(sender: Env, receiver: Env, app: App, addr: TpAddr, before: Fed, k: nat, pushed: nat, cut: nat)
    requires SoundTable(receiver) && SoundClients(sender) && Twins(sender, receiver) && AnyTyped(receiver.table)
    requires Find(app.devs, addr) == |app.devs| && app.curr.None?
    requires Received(receiver, app, addr, Supplied(sender, addr), before, k, pushed)
    ensures FeedsOne(receiver, app, addr, Supplied(sender, addr), before, k, pushed, cut)
  {
    hide SupplyFrom, UnmarshalCall, Encode, Receiving, Recognised;
    var objs := Supplied(sender, addr);
    if before.offset < cut <= |Encode(objs)| {
      if before.app == app {
        FreshMeansNothing(receiver, app, addr, objs, before, k, pushed);
        FirstReceived(sender, receiver, app, addr, cut);
      } else {
        NextReceived(sender, receiver, app, addr, before, k, pushed, cut);
      }
    } else {
      NothingThere(objs[k..]);
    }
  }

  lemma FreshMeansNothing(env: Env, app: App, addr: TpAddr, objs: seq<Obj>, before: Fed, k: nat, pushed: nat)
    requires Received(env, app, addr, objs, before, k, pushed) && before.app == app && Find(app.devs, addr) == |app.devs|
    ensures k == 0 && pushed == 0 && before == Fed(app, 0)
  {
    assert objs[..0] == [];
  }

  /** What a run of chunks has come to. */
  ghost predicate RunReceives(env: Env, app: App, addr: TpAddr, objs: seq<Obj>, cuts: seq<nat>) {
    match UnmarshalRun(env, app, addr, Encode(objs), cuts)
    case Panicked => Pushed(objs, cuts) > 254
    case Ran(f) =>
      Pushed(objs, cuts) <= 254 && Received(env, app, addr, objs, f, Taken(objs, cuts), Pushed(objs, cuts))
  }

  /** However the stream is cut, what has been collected is the first objects of the peer's clients, in order, as many
      as the cuts amount to; and a call panics exactly when the object set of the library would have to hold more than
      it can, because objects whose end marker was cut off stay in it. */
  lemma {:induction false} CutsDoNotMatter(sender: Env, receiver: Env, app: App, addr: TpAddr, cuts: seq<nat>)
    requires SoundTable(receiver) && SoundClients(sender) && Twins(sender, receiver) && AnyTyped(receiver.table)
    requires Find(app.devs, addr) == |app.devs| && app.curr.None?
    ensures RunReceives(receiver, app, addr, Supplied(sender, addr), cuts)
    decreases |cuts|
  {
    hide FeedTo, UnmarshalCall, SupplyFrom, Received, Whole, Pushes, Handed;
    var objs := Supplied(sender, addr);
    if cuts == [] {
      ReceivedNothing(receiver, app, addr, objs);
    } else {
      CutsDoNotMatter(sender, receiver, app, addr, cuts[..|cuts| - 1]);
      var r := UnmarshalRun(receiver, app, addr, Encode(objs), cuts[..|cuts| - 1]);
      var k, pushed := Taken(objs, cuts[..|cuts| - 1]), Pushed(objs, cuts[..|cuts| - 1]);
      if r.Ran? {
        OneCut(sender, receiver, app, addr, r.value, k, pushed, cuts[|cuts| - 1]);
      }
    }
  }

  lemma ReceivedNothing(env: Env, app: App, addr: TpAddr, objs: seq<Obj>)
    ensures Received(env, app, addr, objs, Fed(app, 0), 0, 0)
  {
    assert objs[..0] == [];
  }

  // ---------------------------------------------------------------- when all arrives

  lemma TakenAll(objs: seq<Obj>, k: nat)
    requires k <= |objs|
    ensures k + Whole(objs[k..], Handed(objs, k, |Encode(objs)|)) == |objs|
    ensures Pushes(objs[k..], Handed(objs, k, |Encode(objs)|)) == |objs| - k
  {
    EncodeConcat(objs[..k], objs[k..]);
    assert objs[..k] + objs[k..] == objs;
    WholeStream(objs[k..]);
  }

  /** Once the whole stream has been handed over, all objects have been taken. */
  lemma {:induction false} WholeStreamTaken(objs: seq<Obj>, cuts: seq<nat>)
    requires |Encode(objs)| in cuts
    ensures Taken(objs, cuts) == |objs|
    decreases |cuts|
  {
    var before, last := cuts[..|cuts| - 1], cuts[|cuts| - 1];
    assert cuts == before + [last];
    if last == |Encode(objs)| {
      TakenAll(objs, Taken(objs, before));
    } else {
      WholeStreamTaken(objs, before);
    }
  }

  /** The caller in the repository hands over the whole stream at once; then the set holds each object once. */
  lemma OneChunkPushesEachOnce(objs: seq<Obj>)
    ensures Pushed(objs, [|Encode(objs)|]) == Taken(objs, [|Encode(objs)|]) == |objs|
  {
    var cuts := [|Encode(objs)|];
    assert cuts[..0] == [] && cuts[..|cuts| - 1] == [];
    assert Taken(objs, []) == Pushed(objs, []) == 0;
    TakenAll(objs, 0);
  }

  predicate Growing(cuts: seq<nat>) {
    forall i | 0 <= i < |cuts| - 1 :: cuts[i] < cuts[i + 1]
  }

  /** Only the end marker of the next object has not been handed over. */
  predicate AtGap(objs: seq<Obj>, k: nat, cut: nat) {
    k < |objs| && cut + 1 >= |Encode(objs[..k + 1])|
  }

  lemma {:induction false} WholeIsPrefix(objs: seq<Obj>, bytes: nat)
    requires bytes <= |Encode(objs)|
    ensures var k := Whole(objs, bytes);
            && |Encode(objs[..k])| <= bytes && (k < |objs| ==> bytes < |Encode(objs[..k + 1])|)
            && (Pushes(objs, bytes) > k <==> k < |objs| && bytes + 1 == |Encode(objs[..k + 1])|)
  {
    if objs != [] {
      var k := Whole(objs, bytes);
      EncodeFirst(objs);
      assert |Encode([objs[0]])| == |objs[0].values| + 2;
      assert objs[..1] == [objs[0]];
      if k > 0 {
        WholeIsPrefix(objs[1..], bytes - |Encode([objs[0]])|);
        assert objs[..k][1..] == objs[1..][..k - 1];
        EncodeFirst(objs[..k]);
        if k < |objs| {
          assert objs[..k + 1][1..] == objs[1..][..k];
          EncodeFirst(objs[..k + 1]);
        }
      } else {
        assert objs[..0] == [];
      }
    }
  }

  /** One more cut, in terms of the objects from the first. */
  lemma HandedWhole(objs: seq<Obj>, k: nat, cut: nat)
    requires k <= |objs| && |Encode(objs[..k])| < cut <= |Encode(objs)|
    ensures var n := Whole(objs[k..], Handed(objs, k, cut));
            && k + n <= |objs| && |Encode(objs[..k + n])| <= cut && (k + n < |objs| ==> cut < |Encode(objs[..k + n + 1])|)
            && (Pushes(objs[k..], Handed(objs, k, cut)) == n + 1 ==> AtGap(objs, k + n, cut))
  {
    hide Whole, Pushes, Encode, Handed, AtGap;
    var rest := objs[k..];
    HandedIs(objs, k, rest, cut);
    var bytes := Handed(objs, k, cut);
    WholeIsPrefix(rest, bytes);
    HandedAt(objs, k, rest, Whole(rest, bytes), bytes);
  }

  lemma HandedIs(objs: seq<Obj>, k: nat, rest: seq<Obj>, cut: nat)
    requires k <= |objs| && rest == objs[k..] && |Encode(objs[..k])| < cut <= |Encode(objs)|
    ensures Handed(objs, k, cut) == cut - |Encode(objs[..k])| <= |Encode(rest)|
  {
    hide Encode;
    EncodeConcat(objs[..k], rest);
    assert objs[..k] + rest == objs;
  }

  lemma HandedAt(objs: seq<Obj>, k: nat, rest: seq<Obj>, n: nat, bytes: nat)
    requires k <= |objs| && rest == objs[k..] && n <= |rest|
    requires |Encode(rest[..n])| <= bytes && (n < |rest| ==> bytes < |Encode(rest[..n + 1])|)
    ensures var cut := |Encode(objs[..k])| + bytes;
            && |Encode(objs[..k + n])| <= cut && (k + n < |objs| ==> cut < |Encode(objs[..k + n + 1])|)
            && (n < |rest| && bytes + 1 == |Encode(rest[..n + 1])| ==> AtGap(objs, k + n, cut))
  {
    hide Encode;
    MoreReceived(objs, k, n);
    if n < |rest| {
      MoreReceived(objs, k, n + 1);
    }
  }

  /** At most one object more than twice those consumed, and then the next one waits for its end marker. */
  predicate PushedTwice(objs: seq<Obj>, k: nat, pushed: nat, cut: nat) {
    pushed <= 2 * k || (pushed == 2 * k + 1 && AtGap(objs, k, cut))
  }

  lemma OneMoreCut(objs: seq<Obj>, k: nat, pushed: nat, last: nat, cut: nat)
    requires k <= |objs| && PushedTwice(objs, k, pushed, last) && (pushed > 2 * k ==> last < cut)
    ensures var handed := Handed(objs, k, cut);
            PushedTwice(objs, k + Whole(objs[k..], handed), pushed + Pushes(objs[k..], handed), cut)
  {
    if |Encode(objs[..k])| < cut <= |Encode(objs)| {
      HandedWhole(objs, k, cut);
      hide Encode, Whole, Pushes;
    } else {
      NothingThere(objs[k..]);
    }
  }

  /** With cuts that grow, no object is cut off before its end marker more than once. */
  lemma {:induction false} GrowingCutsPushTwice(objs: seq<Obj>, cuts: seq<nat>)
    requires Growing(cuts)
    ensures Pushed(objs, cuts) <= 2 * |objs|
    ensures PushedTwice(objs, Taken(objs, cuts), Pushed(objs, cuts), if cuts == [] then 0 else cuts[|cuts| - 1])
    decreases |cuts|
  {
    hide Whole, Pushes, Encode, Handed;
    if cuts != [] {
      var before, cut := cuts[..|cuts| - 1], cuts[|cuts| - 1];
      assert Growing(before) by {
        assert forall i | 0 <= i < |before| :: before[i] == cuts[i];
      }
      GrowingCutsPushTwice(objs, before);
      var last := if before == [] then 0 else before[|before| - 1];
      assert before != [] ==> last < cut;
      OneMoreCut(objs, Taken(objs, before), Pushed(objs, before), last, cut);
    }
  }
}
