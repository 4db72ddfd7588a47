/** What the old primary sends: however the buffers are cut, the bytes of a device are those of the objects that
    its eligible types supply, in table order. */
module HandoverMarshal {
  import opened Results
  import opened HandoverCodec
  import opened HandoverWalk
  import opened HandoverSpec

  /** Everything the clients supply for a device. */
  function Supplies(env: Env, addr: TpAddr): seq<Supply> {
    SupplyFrom(env.table, addr.addr, addr.addr == env.mirrored, 0, 0)
  }

  function Supplied(env: Env, addr: TpAddr): seq<Obj> {
    Objects(Supplies(env, addr))
  }

  /** The objects from the cursor on. */
  function AtCursor(env: Env, app: App, addr: TpAddr): seq<Obj> {
    if app.curr.None? then [] else ObjectsFrom(env.table, addr.addr, addr.addr == env.mirrored, app.curr.value, app.currType)
  }

  /** The device is being marshalled; from where the cursor stands it will write the pieces `left`, as long as they
      are no more than `allowance`. */
  ghost predicate Sending(env: Env, app: App, addr: TpAddr, left: seq<seq<Byte>>, allowance: nat) {
    var d := Find(app.devs, addr);
    && AnyTyped(env.table) && d < |app.devs|
    && var dev := app.devs[d];
       && dev.mode.Marshaling? && dev.part.MarshalPart? && dev.focused == (addr.addr == env.mirrored)
       && Owed(dev.part.marshaller.pending, AtCursor(env, app, addr)) == left
       && Allowance(dev.part.marshaller) == allowance
  }

  /** The object set overflows while a buffer of this size is filled. */
  predicate Exceeds(left: seq<seq<Byte>>, size: nat, allowance: nat) {
    |left| > allowance && Fit(left, size) >= allowance
  }

  /** Interfaces without types do not matter to the walk. */
  lemma {:induction false} SkipUntyped(env: Env, addr: TpAddr, from: nat)
    ensures var r := FirstTyped(env.table, from);
            SupplyFrom(env.table, addr.addr, addr.addr == env.mirrored, from, 0)
            == if r.Some? then SupplyFrom(env.table, addr.addr, addr.addr == env.mirrored, r.value, 0) else []
    decreases |env.table| - from
  {
    hide Offer;
    if from < |env.table| && env.table[from].types.None? {
      SkipUntyped(env, addr, from + 1);
    }
  }

  lemma {:induction false} FindSame(before: seq<Dev>, d: nat, dev: Dev, addr: TpAddr)
    requires d == Find(before, addr) < |before| && dev.addr == addr
    ensures Find(before[d := dev], addr) == d
  {
    if d > 0 {
      assert before[d := dev][1..] == before[1..][d - 1 := dev];
      FindSame(before[1..], d - 1, dev, addr);
    }
  }

  /** The walk into a new buffer, with the end of the table as no cursor at all. */
  lemma WalkStep(table: Table, addr: nat, focused: bool, i: nat, j: nat, m: Marshaller)
    requires m.out == []
    ensures var left := Owed(m.pending, ObjectsFrom(table, addr, focused, i, j));
            match Walk(table, addr, focused, i, j, m)
            case Overfull => Exceeds(left, m.size, Allowance(m))
            case Walked(i2, j2, n, done) =>
              var rest := if done then [] else ObjectsFrom(table, addr, focused, i2, j2);
              var k := Fit(left, m.size);
              && !Exceeds(left, m.size, Allowance(m))
              && n.out == Flat(left[..k]) && (done <==> k == |left|) && Owed(n.pending, rest) == left[k..]
              && Allowance(n) + k == Allowance(m)
  {
    hide Walk, Fit, Flat, Allowance;
    WalkIsGreedy(table, addr, focused, i, j, m);
    var left := Owed(m.pending, ObjectsFrom(table, addr, focused, i, j));
    assert [] + Flat(left[..Fit(left, m.size)]) == Flat(left[..Fit(left, m.size)]);
  }

  /** What the walk does for a device that is being marshalled. */
  lemma ContinueStep(env: Env, app: App, addr: TpAddr, size: nat, left: seq<seq<Byte>>, allowance: nat)
    requires Sending(env, app, addr, left, allowance)
    ensures var r := Continue(env, app, Find(app.devs, addr), size);
            var k := Fit(left, size);
            && (r.Panicked? <==> Exceeds(left, size, allowance))
            && (r.Ran? ==> r.value.written == Flat(left[..k]) && (r.value.done <==> k == |left|) && k <= allowance
                           && Sending(env, r.value.app, addr, left[k..], allowance - k))
  {
    hide Walk, Fit, Flat, SupplyFrom, Owed, Allowance;
    var d := Find(app.devs, addr);
    var dev := app.devs[d];
    var m := SetBuffer(dev.part.marshaller, size);
    SameAllowance(dev.part.marshaller, size);
    if app.curr.Some? {
      WalkStep(env.table, addr.addr, dev.focused, app.curr.value, app.currType, m);
      var w := Walk(env.table, addr.addr, dev.focused, app.curr.value, app.currType, m);
      if w.Walked? {
        FindSame(app.devs, d, dev.(part := MarshalPart(w.marshaller)), addr);
        NothingOwedAtEnd(w.marshaller.pending);
      }
    } else {
      NothingLeft(m, left);
      FindSame(app.devs, d, dev.(part := MarshalPart(m)), addr);
    }
  }

  lemma SameAllowance(m: Marshaller, size: nat)
    ensures Allowance(SetBuffer(m, size)) == Allowance(m)
  {
  }

  lemma NothingOwedAtEnd(pending: Pending)
    ensures Owed(pending, []) == []
  {
  }

  lemma NothingLeft(m: Marshaller, left: seq<seq<Byte>>)
    requires m.out == [] && left == Owed(m.pending, [])
    ensures left == [] && Fit(left, m.size) == 0 && Flat(left[..0]) == [] && left[0..] == left
  {
  }

  /** What a call does, once the device exists and is being marshalled: it writes as many of the pieces as fit, and
      panics exactly when the object set overflows on the way. */
  lemma MarshalStep(env: Env, app: App, addr: TpAddr, size: nat, left: seq<seq<Byte>>, allowance: nat)
    requires Sending(env, app, addr, left, allowance)
    ensures MarshalCall(env, app, addr, size).Panicked? <==> Exceeds(left, size, allowance)
    ensures MarshalCall(env, app, addr, size).Ran? ==>
              var r := MarshalCall(env, app, addr, size).value;
              var k := Fit(left, size);
              && r.written == Flat(left[..k]) && (r.done <==> k == |left|) && k <= allowance
              && Sending(env, r.app, addr, left[k..], allowance - k)
              && r.app.log == app.log && r.app.next == app.next && |r.app.devs| == |app.devs|
              && forall i | 0 <= i < |app.devs| && i != Find(app.devs, addr) :: r.app.devs[i] == app.devs[i]
  {
    hide Walk, Owed, Fit, Flat, ObjectsFrom, Allowance;
    ContinueStep(env, app, addr, size, left, allowance);
    assert MarshalCall(env, app, addr, size) == Continue(env, app, Find(app.devs, addr), size);
  }

  /** The first call for a device starts from the first interface, whatever was marshalled before. */
  lemma MarshalBegins(env: Env, app: App, addr: TpAddr)
    requires AnyTyped(env.table) && Find(app.devs, addr) == |app.devs|
    ensures var found := WithDevice(env, app, addr);
            Sending(env, Begin(env, found, 0), addr, Pieces(Supplied(env, addr)), 2 * MAX_OBJECTS)
  {
    SkipUntyped(env, addr, 0);
  }

  lemma FirstMarshalCall(env: Env, app: App, addr: TpAddr, size: nat)
    requires AnyTyped(env.table) && Find(app.devs, addr) == |app.devs|
    ensures var begun := Begin(env, WithDevice(env, app, addr), 0);
            MarshalCall(env, app, addr, size) == MarshalCall(env, begun, addr, size)
  {
    var found := WithDevice(env, app, addr);
    var begun := Begin(env, found, 0);
    assert Find(found.devs, addr) == 0 && Find(begun.devs, addr) == 0;
  }

  // ---------------------------------------------------------------- a device, buffer by buffer

  /** Repeated calls for one device, with buffers of the given sizes. */
  function MarshalRun(env: Env, app: App, addr: TpAddr, sizes: seq<nat>): Outcome<MarshalReturn> {
    if sizes == [] then Ran(MarshalReturn(app, [], false))
    else
      match MarshalRun(env, app, addr, sizes[..|sizes| - 1])
      case Panicked => Panicked
      case Ran(before) =>
        match MarshalCall(env, before.app, addr, sizes[|sizes| - 1])
        case Panicked => Panicked
        case Ran(r) => Ran(r.(written := before.written + r.written))
  }

  /** Every buffer takes at least one of the pieces. */
  predicate Roomy(pieces: seq<seq<Byte>>, sizes: seq<nat>) {
    forall i, j | 0 <= i < |pieces| && 0 <= j < |sizes| :: |pieces[i]| <= sizes[j]
  }

  /** The number of pieces that go into buffers of these sizes, one after another. */
  function Written(pieces: seq<seq<Byte>>, sizes: seq<nat>): (k: nat)
    ensures k <= |pieces|
  {
    if sizes == [] then 0
    else
      var before := Written(pieces, sizes[..|sizes| - 1]);
      before + Fit(pieces[before..], sizes[|sizes| - 1])
  }

  /** The pieces are more than the object set allows, and the buffers have room for those that it allows. */
  predicate Overruns(pieces: seq<seq<Byte>>, sizes: seq<nat>) {
    |pieces| > 2 * MAX_OBJECTS && Written(pieces, sizes) >= 2 * MAX_OBJECTS
  }

  /** After any buffers, exactly the first `k` pieces have been sent, and the other devices are as before. */
  ghost predicate Sent(env: Env, app: App, addr: TpAddr, r: MarshalReturn, k: nat) {
    var pieces := Pieces(Supplied(env, addr));
    && k <= |pieces| && k <= 2 * MAX_OBJECTS && r.written == Flat(pieces[..k]) && (r.done <==> k == |pieces|)
    && Sending(env, r.app, addr, pieces[k..], 2 * MAX_OBJECTS - k) && r.app.log == app.log && r.app.next == app.next
    && |r.app.devs| == |app.devs| + 1 && r.app.devs[1..] == app.devs
  }

  lemma SentMore(env: Env, app: App, addr: TpAddr, before: MarshalReturn, k: nat, size: nat)
    requires Sent(env, app, addr, before, k) && Find(before.app.devs, addr) == 0
    ensures var pieces := Pieces(Supplied(env, addr));
            var c := MarshalCall(env, before.app, addr, size);
            && (c.Panicked? <==> Exceeds(pieces[k..], size, 2 * MAX_OBJECTS - k))
            && (c.Ran? ==> Sent(env, app, addr, c.value.(written := before.written + c.value.written),
                                k + Fit(pieces[k..], size))
                           && Find(c.value.app.devs, addr) == 0)
  {
    hide MarshalCall, Fit, Flat, SupplyFrom, Supplied, Pieces, AtCursor, Owed, Allowance;
    var pieces := Pieces(Supplied(env, addr));
    MarshalStep(env, before.app, addr, size, pieces[k..], 2 * MAX_OBJECTS - k);
    if MarshalCall(env, before.app, addr, size).Ran? {
      FlatSplit(pieces, k, Fit(pieces[k..], size));
      var r := MarshalCall(env, before.app, addr, size).value;
      assert r.app.devs[1..] == before.app.devs[1..];
      SameFront(env, before.app, addr, size);
    }
  }

  lemma SameFront(env: Env, app: App, addr: TpAddr, size: nat)
    requires MarshalCall(env, app, addr, size).Ran? && AnyTyped(env.table) && app.devs != [] && app.devs[0].addr == addr
    ensures var r := MarshalCall(env, app, addr, size).value.app; r.devs != [] && r.devs[0].addr == addr
  {
  }

  lemma BegunDevice(env: Env, app: App, addr: TpAddr)
    requires AnyTyped(env.table) && Find(app.devs, addr) == |app.devs|
    ensures var begun := Begin(env, WithDevice(env, app, addr), 0);
            && begun.devs != [] && begun.devs[0].addr == addr && Find(begun.devs, addr) == 0
            && begun.devs[1..] == app.devs && begun.log == app.log && begun.next == app.next
  {
  }

  lemma FirstSent(env: Env, app: App, addr: TpAddr, size: nat)
    requires AnyTyped(env.table) && Find(app.devs, addr) == |app.devs|
    ensures var pieces := Pieces(Supplied(env, addr));
            var c := MarshalCall(env, app, addr, size);
            && (c.Panicked? <==> Exceeds(pieces, size, 2 * MAX_OBJECTS))
            && (c.Ran? ==> Sent(env, app, addr, c.value, Fit(pieces, size)) && Find(c.value.app.devs, addr) == 0)
  {
    var pieces := Pieces(Supplied(env, addr));
    hide MarshalCall, Begin, WithDevice, Pieces, Supplied, Fit, Flat, Sending;
    var begun := Begin(env, WithDevice(env, app, addr), 0);
    FirstMarshalCall(env, app, addr, size);
    MarshalBegins(env, app, addr);
    BegunDevice(env, app, addr);
    MarshalStep(env, begun, addr, size, pieces, 2 * MAX_OBJECTS);
    if MarshalCall(env, begun, addr, size).Ran? {
      SameFront(env, begun, addr, size);
      var r := MarshalCall(env, begun, addr, size).value;
      assert r.app.devs[1..] == begun.devs[1..] == app.devs;
    }
  }

  lemma RunOne(env: Env, app: App, addr: TpAddr, size: nat)
    ensures MarshalRun(env, app, addr, [size]) == MarshalCall(env, app, addr, size)
  {
    assert [size][..|[size]| - 1] == [];
    assert MarshalRun(env, app, addr, []) == Ran(MarshalReturn(app, [], false));
    var r := MarshalCall(env, app, addr, size);
    assert r.Ran? ==> [] + r.value.written == r.value.written;
  }

  lemma WrittenOne(pieces: seq<seq<Byte>>, size: nat)
    ensures Written(pieces, [size]) == Fit(pieces, size)
  {
    assert [size][..|[size]| - 1] == [] && pieces[0..] == pieces;
  }

  lemma RoomForOne(pieces: seq<seq<Byte>>, n: nat, sizes: seq<nat>)
    requires n < |pieces| && sizes != [] && Roomy(pieces, sizes)
    ensures Fit(pieces[n..], sizes[|sizes| - 1]) >= 1
  {
  }

  /** When every buffer has room for a piece, every call makes progress. */
  lemma {:induction false} RoomyBuffersProgress(pieces: seq<seq<Byte>>, sizes: seq<nat>)
    requires Roomy(pieces, sizes)
    ensures Written(pieces, sizes) >= |sizes| || Written(pieces, sizes) == |pieces|
    decreases |sizes|
  {
    if sizes != [] {
      var before := sizes[..|sizes| - 1];
      assert Roomy(pieces, before);
      RoomyBuffersProgress(pieces, before);
      if Written(pieces, before) < |pieces| {
        RoomForOne(pieces, Written(pieces, before), sizes);
      }
    }
  }

  /** What a run has come to. */
  ghost predicate RunSends(env: Env, app: App, addr: TpAddr, sizes: seq<nat>) {
    var pieces := Pieces(Supplied(env, addr));
    match MarshalRun(env, app, addr, sizes)
    case Panicked => Overruns(pieces, sizes)
    case Ran(r) =>
      !Overruns(pieces, sizes) && Sent(env, app, addr, r, Written(pieces, sizes)) && Find(r.app.devs, addr) == 0
  }

  lemma RunMore(env: Env, app: App, addr: TpAddr, sizes: seq<nat>)
    requires |sizes| > 1 && RunSends(env, app, addr, sizes[..|sizes| - 1])
    ensures RunSends(env, app, addr, sizes)
  {
    hide MarshalCall, Sent, Fit, Pieces;
    var b := MarshalRun(env, app, addr, sizes[..|sizes| - 1]);
    if b.Ran? {
      SentBound(env, app, addr, b.value, Written(Pieces(Supplied(env, addr)), sizes[..|sizes| - 1]));
      SentMore(env, app, addr, b.value, Written(Pieces(Supplied(env, addr)), sizes[..|sizes| - 1]), sizes[|sizes| - 1]);
    }
  }

  lemma SentBound(env: Env, app: App, addr: TpAddr, r: MarshalReturn, k: nat)
    requires Sent(env, app, addr, r, k)
    ensures k <= |Pieces(Supplied(env, addr))| && k <= 2 * MAX_OBJECTS
  {
  }

  lemma RunFirst(env: Env, app: App, addr: TpAddr, size: nat)
    requires AnyTyped(env.table) && Find(app.devs, addr) == |app.devs|
    ensures RunSends(env, app, addr, [size])
  {
    hide MarshalCall, Sent, Fit, Pieces;
    RunOne(env, app, addr, size);
    WrittenOne(Pieces(Supplied(env, addr)), size);
    FirstSent(env, app, addr, size);
  }

  /** Chunk independence: the output of any sequence of calls is the first pieces of what the clients supply, as many
      as go into the buffers, nothing lost or repeated where the buffers were full; it is complete exactly when the
      last call says so. A call panics exactly when the supply is larger than the object set of the library and the
      buffers have room for as much as the set holds. */
  lemma {:induction false} ChunksDoNotMatter(env: Env, app: App, addr: TpAddr, sizes: seq<nat>)
    requires AnyTyped(env.table) && Find(app.devs, addr) == |app.devs| && sizes != []
    ensures RunSends(env, app, addr, sizes)
    decreases |sizes|
  {
    hide RunSends;
    if |sizes| == 1 {
      assert sizes == [sizes[0]];
      RunFirst(env, app, addr, sizes[0]);
    } else {
      ChunksDoNotMatter(env, app, addr, sizes[..|sizes| - 1]);
      RunMore(env, app, addr, sizes);
    }
  }

  lemma {:induction false} FitAll(pieces: seq<seq<Byte>>)
    ensures Fit(pieces, |Flat(pieces)|) == |pieces|
  {
    if pieces != [] {
      FitAll(pieces[1..]);
    }
  }

  /** Marshalling a device never panics exactly when its clients supply no more objects than the set holds. */
  lemma SetHoldsTheSupply(env: Env, app: App, addr: TpAddr)
    requires AnyTyped(env.table) && Find(app.devs, addr) == |app.devs|
    ensures (forall sizes: seq<nat> | sizes != [] :: MarshalRun(env, app, addr, sizes).Ran?)
            <==> |Supplied(env, addr)| <= 254
  {
    hide MarshalRun, Sent;
    var pieces := Pieces(Supplied(env, addr));
    if |Supplied(env, addr)| <= 254 {
      forall sizes: seq<nat> | sizes != [] ensures MarshalRun(env, app, addr, sizes).Ran? {
        ChunksDoNotMatter(env, app, addr, sizes);
      }
    } else {
      var sizes := [|Flat(pieces)|];
      FitAll(pieces);
      WrittenOne(pieces, sizes[0]);
      ChunksDoNotMatter(env, app, addr, sizes);
      assert MarshalRun(env, app, addr, sizes).Panicked?;
    }
  }

  /** A completed device has sent the encoding of its objects. */
  lemma CompletedDevice(env: Env, app: App, addr: TpAddr, sizes: seq<nat>)
    requires AnyTyped(env.table) && Find(app.devs, addr) == |app.devs| && sizes != []
    ensures MarshalRun(env, app, addr, sizes).Ran? ==>
              var r := MarshalRun(env, app, addr, sizes).value;
              && (r.done <==> r.written == Encode(Supplied(env, addr)))
              && r.app.devs != [] && r.app.devs[1..] == app.devs && r.app.devs[0].addr == addr
              && r.app.devs[0].mode.Marshaling? && r.app.log == app.log
  {
    hide MarshalRun, Written, Pieces, Flat;
    ChunksDoNotMatter(env, app, addr, sizes);
    AllPieces(Supplied(env, addr), Written(Pieces(Supplied(env, addr)), sizes));
  }

  /** The pieces are the encoding exactly when none is missing. */
  lemma AllPieces(objs: seq<Obj>, k: nat)
    requires k <= |Pieces(objs)|
    ensures Flat(Pieces(objs)[..k]) == Encode(objs) <==> k == |Pieces(objs)|
  {
    var pieces := Pieces(objs);
    EncodeIsFlat(objs);
    assert pieces[..|pieces|] == pieces;
    if k < |pieces| {
      FlatSplit(pieces, k, |pieces| - k);
      assert pieces[k..][..|pieces| - k] == pieces[k..];
      PiecesAreNotEmpty(objs, k);
    }
  }

  lemma {:induction false} PiecesAreNotEmpty(objs: seq<Obj>, k: nat)
    requires k < |Pieces(objs)|
    ensures Pieces(objs)[k] != []
    decreases k
  {
    if k >= 2 {
      PiecesAreNotEmpty(objs[1..], k - 2);
    }
  }

  // ---------------------------------------------------------------- why devices go one after another

  predicate SameAnswer(x: Outcome<MarshalReturn>, y: Outcome<MarshalReturn>) {
    && (x.Ran? <==> y.Ran?)
    && (x.Ran? && y.Ran? ==> x.value.written == y.value.written && x.value.done == y.value.done)
  }

  /** After what is pending, the same objects follow. */
  predicate SameRest(pending: Pending, x: seq<Obj>, y: seq<Obj>) {
    if pending.Idle? then x == y else (x == [] <==> y == []) && (x != [] && y != [] ==> x[1..] == y[1..])
  }

  lemma {:induction false} PiecesInjective(x: seq<Obj>, y: seq<Obj>)
    requires Pieces(x) == Pieces(y)
    ensures x == y
  {
    if x != [] {
      assert |Pieces(x)| == 2 * |x| && |Pieces(y)| == 2 * |y|;
      assert ValuesPiece(x[0]) == Pieces(x)[0] == Pieces(y)[0] == ValuesPiece(y[0]);
      assert ValuesPiece(x[0])[0] == ValuesPiece(y[0])[0] && ValuesPiece(x[0])[1..] == ValuesPiece(y[0])[1..];
      assert ValuesPiece(x[0])[1..] == x[0].values && ValuesPiece(y[0])[1..] == y[0].values;
      assert Pieces(x)[2..] == Pieces(x[1..]) && Pieces(y)[2..] == Pieces(y[1..]);
      PiecesInjective(x[1..], y[1..]);
      assert x == [x[0]] + x[1..] && y == [y[0]] + y[1..];
    }
  }

  lemma PiecesOfRest(objs: seq<Obj>)
    requires objs != []
    ensures Pieces(objs)[2..] == Pieces(objs[1..]) && Pieces(objs)[1..][1..] == Pieces(objs[1..])
    ensures Pieces(objs)[1..] == [[END]] + Pieces(objs[1..])
  {
  }

  lemma OwedIsTheSame(pending: Pending, x: seq<Obj>, y: seq<Obj>)
    ensures Owed(pending, x) == Owed(pending, y) <==> SameRest(pending, x, y)
  {
    hide Pieces;
    match pending {
      case Idle =>
        if Owed(pending, x) == Owed(pending, y) {
          assert |Pieces(x)| == |Pieces(y)|;
          PiecesInjective(x, y);
        }
      case Values(o) =>
        if x != [] && y != [] && Owed(pending, x) == Owed(pending, y) {
          PiecesInjective([o] + x[1..], [o] + y[1..]);
          assert x[1..] == ([o] + x[1..])[1..] && y[1..] == ([o] + y[1..])[1..];
        }
      case End =>
        if x != [] && y != [] {
          PiecesOfRest(x);
          PiecesOfRest(y);
          if Owed(pending, x) == Owed(pending, y) {
            PiecesInjective(x[1..], y[1..]);
          }
        }
    }
  }

  predicate NoneEmpty(pieces: seq<seq<Byte>>) {
    forall i | 0 <= i < |pieces| :: pieces[i] != []
  }

  lemma OwedAreNotEmpty(pending: Pending, objs: seq<Obj>)
    ensures NoneEmpty(Owed(pending, objs))
  {
    var owed := Owed(pending, objs);
    forall i | 0 <= i < |owed| ensures owed[i] != [] {
      match pending {
        case Idle => PiecesAreNotEmpty(objs, i);
        case Values(o) => PiecesAreNotEmpty([o] + objs[1..], i);
        case End => PiecesAreNotEmpty(objs, i + 1);
      }
    }
  }

  /** Two piece lists say the same in every buffer. */
  ghost predicate Indistinguishable(p: seq<seq<Byte>>, q: seq<seq<Byte>>) {
    forall size: nat :: Flat(p[..Fit(p, size)]) == Flat(q[..Fit(q, size)])
  }

  lemma FirstPieceShows(p: seq<seq<Byte>>, q: seq<seq<Byte>>)
    requires p != [] && NoneEmpty(p) && NoneEmpty(q) && Indistinguishable(p, q)
    ensures q != [] && |q[0]| <= |p[0]|
  {
    var size := |p[0]|;
    assert |Flat(p[..Fit(p, size)])| >= 1 by {
      assert p[..Fit(p, size)][0] == p[0];
    }
    FlatPrefixes(q);
    assert Flat(p[..Fit(p, size)]) == Flat(q[..Fit(q, size)]);
  }

  lemma FitMore(p: seq<seq<Byte>>, size: nat)
    requires p != []
    ensures Fit(p, |p[0]| + size) == 1 + Fit(p[1..], size)
    ensures Flat(p[..1 + Fit(p[1..], size)]) == p[0] + Flat(p[1..][..Fit(p[1..], size)])
  {
    assert p[..1 + Fit(p[1..], size)][1..] == p[1..][..Fit(p[1..], size)];
  }

  lemma SamePrefix(u: seq<Byte>, v: seq<Byte>, x: seq<Byte>, y: seq<Byte>)
    requires u + x == v + y && |u| == |v|
    ensures u == v && x == y
  {
    assert u == (u + x)[..|u|] && v == (v + y)[..|v|] && x == (u + x)[|u|..] && y == (v + y)[|v|..];
  }

  /** So they are the same. */
  lemma {:induction false} AnswersTellThePieces(p: seq<seq<Byte>>, q: seq<seq<Byte>>)
    requires NoneEmpty(p) && NoneEmpty(q) && Indistinguishable(p, q)
    ensures p == q
    decreases |p|
  {
    if p == [] {
      if q != [] {
        FirstPieceShows(q, p);
      }
    } else {
      FirstPieceShows(p, q);
      FirstPieceShows(q, p);
      FirstPieceSame(p, q);
      RestIndistinguishable(p, q);
      assert NoneEmpty(p[1..]) && NoneEmpty(q[1..]);
      AnswersTellThePieces(p[1..], q[1..]);
      assert p == [p[0]] + p[1..] && q == [q[0]] + q[1..];
    }
  }

  lemma FirstPieceSame(p: seq<seq<Byte>>, q: seq<seq<Byte>>)
    requires p != [] && q != [] && |p[0]| == |q[0]| && Indistinguishable(p, q)
    ensures p[0] == q[0]
  {
    hide Fit, Flat;
    FitMore(p, 0);
    FitMore(q, 0);
    var n := |p[0]|;
    assert Flat(p[..Fit(p, n)]) == Flat(q[..Fit(q, n)]);
    SamePrefix(p[0], q[0], Flat(p[1..][..Fit(p[1..], 0)]), Flat(q[1..][..Fit(q[1..], 0)]));
  }

  lemma RestIndistinguishable(p: seq<seq<Byte>>, q: seq<seq<Byte>>)
    requires p != [] && q != [] && p[0] == q[0] && Indistinguishable(p, q)
    ensures Indistinguishable(p[1..], q[1..])
  {
    hide Fit, Flat;
    forall size: nat ensures Flat(p[1..][..Fit(p[1..], size)]) == Flat(q[1..][..Fit(q[1..], size)]) {
      FitMore(p, size);
      FitMore(q, size);
      var n := |p[0]| + size;
      assert Flat(p[..Fit(p, n)]) == Flat(q[..Fit(q, n)]);
      SamePrefix(p[0], q[0], Flat(p[1..][..Fit(p[1..], size)]), Flat(q[1..][..Fit(q[1..], size)]));
    }
  }

  function PendingOf(app: App, addr: TpAddr): Pending
    requires Find(app.devs, addr) < |app.devs| && app.devs[Find(app.devs, addr)].part.MarshalPart?
  {
    app.devs[Find(app.devs, addr)].part.marshaller.pending
  }

  /** The cursor is shared: when another device is begun in between, the first one goes on from the cursor that this
      leaves behind, with what it had pending. */
  lemma InterleavingResumes(env: Env, app: App, a: TpAddr, b: TpAddr, left: seq<seq<Byte>>, allowance: nat, sizeB: nat)
    requires Sending(env, app, a, left, allowance) && Find(app.devs, b) == |app.devs|
    requires MarshalCall(env, app, b, sizeB).Ran?
    ensures var between := MarshalCall(env, app, b, sizeB).value.app;
            Sending(env, between, a, Owed(PendingOf(app, a), AtCursor(env, between, a)), allowance)
  {
    FirstSent(env, app, b, sizeB);
    var between := MarshalCall(env, app, b, sizeB).value.app;
    assert between.devs == [between.devs[0]] + app.devs;
    assert Find(between.devs, a) == 1 + Find(app.devs, a) by {
      assert between.devs[1..] == app.devs && a != b;
    }
  }

  /** The first device says the same as without the other one, in every buffer, exactly when the same objects follow
      what it has pending. So a device that still owes something loses it when the other one was completed, and
      repeats or loses objects when the other one has stopped elsewhere. */
  lemma InterleavingIsRightExactly(env: Env, app: App, a: TpAddr, b: TpAddr, left: seq<seq<Byte>>, allowance: nat, sizeB: nat)
    requires Sending(env, app, a, left, allowance) && |left| <= allowance && Find(app.devs, b) == |app.devs|
    requires MarshalCall(env, app, b, sizeB).Ran?
    ensures var between := MarshalCall(env, app, b, sizeB).value.app;
            (forall size: nat :: SameAnswer(MarshalCall(env, between, a, size), MarshalCall(env, app, a, size)))
            <==> SameRest(PendingOf(app, a), AtCursor(env, between, a), AtCursor(env, app, a))
  {
    hide MarshalCall, SupplyFrom;
    var between := MarshalCall(env, app, b, sizeB).value.app;
    var pending := PendingOf(app, a);
    var resumed := Owed(pending, AtCursor(env, between, a));
    InterleavingResumes(env, app, a, b, left, allowance, sizeB);
    assert left == Owed(pending, AtCursor(env, app, a));
    OwedIsTheSame(pending, AtCursor(env, between, a), AtCursor(env, app, a));
    OwedAreNotEmpty(pending, AtCursor(env, between, a));
    OwedAreNotEmpty(pending, AtCursor(env, app, a));
    hide SameRest, Owed, AtCursor, Sending, Fit, Flat, NoneEmpty;
    forall size: nat
      ensures MarshalCall(env, app, a, size).Ran? && MarshalCall(env, app, a, size).value.written == Flat(left[..Fit(left, size)])
      ensures MarshalCall(env, between, a, size).Ran? ==>
                MarshalCall(env, between, a, size).value.written == Flat(resumed[..Fit(resumed, size)])
      ensures resumed == left ==> SameAnswer(MarshalCall(env, between, a, size), MarshalCall(env, app, a, size))
    {
      MarshalStep(env, app, a, size, left, allowance);
      MarshalStep(env, between, a, size, resumed, allowance);
    }
    if forall size: nat :: SameAnswer(MarshalCall(env, between, a, size), MarshalCall(env, app, a, size)) {
      forall size: nat ensures Flat(resumed[..Fit(resumed, size)]) == Flat(left[..Fit(left, size)]) {
        assert SameAnswer(MarshalCall(env, between, a, size), MarshalCall(env, app, a, size));
      }
      AnswersTellThePieces(resumed, left);
    }
  }

  /** In particular, a second device that is marshalled to its end in between makes the first one report completion
      without what it still owed. */
  lemma InterleavingLoses(env: Env, app: App, a: TpAddr, b: TpAddr, left: seq<seq<Byte>>, allowance: nat, sizeB: nat, size: nat)
    requires Sending(env, app, a, left, allowance) && Find(app.devs, b) == |app.devs|
    requires MarshalCall(env, app, b, sizeB).Ran? && MarshalCall(env, app, b, sizeB).value.done
    ensures var between := MarshalCall(env, app, b, sizeB).value.app;
            && MarshalCall(env, between, a, size).Ran?
            && MarshalCall(env, between, a, size).value.done && MarshalCall(env, between, a, size).value.written == []
  {
    var between := MarshalCall(env, app, b, sizeB).value.app;
    InterleavingResumes(env, app, a, b, left, allowance, sizeB);
    DoneClearsCursor(env, app, b, sizeB);
    MarshalStep(env, between, a, size, [], allowance);
    assert Flat([][..0]) == [];
  }

  lemma DoneClearsCursor(env: Env, app: App, addr: TpAddr, size: nat)
    requires AnyTyped(env.table) && MarshalCall(env, app, addr, size).Ran? && MarshalCall(env, app, addr, size).value.done
    ensures MarshalCall(env, app, addr, size).value.app.curr.None?
  {
  }
}
