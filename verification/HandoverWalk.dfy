/** earbudHandover_Marshal's walk over interfaces and types (earbud/src/earbud_handover.c), suspended where the
    buffer is full and resumed from the saved cursor. */
module HandoverWalk {
  import opened Results
  import opened HandoverCodec

  datatype TypeInfo = TypeInfo(kind: Byte, perInstance: bool)

  datatype Status = Failure | FreeObject | DontFreeObject

  /** A registered client. `marshal` answers the same when asked again; `types` is None for a null list. */
  datatype Interface = Interface(types: Option<seq<TypeInfo>>,
                                 marshal: (nat, Byte) -> Option<seq<Byte>>,
                                 unmarshal: (nat, Byte, seq<Byte>) -> Status)

  type Table = seq<Interface>

  function TypesOf(table: Table, i: nat): seq<TypeInfo>
    requires i < |table|
  {
    if table[i].types.Some? then table[i].types.value else []
  }

  /** Generic types go only with the focused device. */
  predicate Eligible(info: TypeInfo, focused: bool) {
    info.perInstance || focused
  }

  /** An object with the index of the client that supplied it. */
  datatype Supply = Supply(client: nat, obj: Obj)

  /** What the client supplies for one type. */
  function Offer(table: Table, addr: nat, focused: bool, i: nat, j: nat): (r: Option<Supply>)
    requires i < |table| && j < |TypesOf(table, i)|
  {
    var info := TypesOf(table, i)[j];
    if !Eligible(info, focused) then None
    else
      match table[i].marshal(addr, info.kind)
      case Some(values) => Some(Supply(i, Obj(info.kind, values)))
      case None => None
  }

  /** What the clients supply from type `j` of interface `i` on, in table order. */
  function SupplyFrom(table: Table, addr: nat, focused: bool, i: nat, j: nat): seq<Supply>
    decreases |table| - i, if i < |table| then |TypesOf(table, i)| - j else 0
  {
    if i >= |table| then []
    else if j >= |TypesOf(table, i)| then SupplyFrom(table, addr, focused, i + 1, 0)
    else
      var rest := SupplyFrom(table, addr, focused, i, j + 1);
      match Offer(table, addr, focused, i, j)
      case Some(s) => [s] + rest
      case None => rest
  }

  function Objects(supplies: seq<Supply>): (objs: seq<Obj>)
    ensures |objs| == |supplies|
    ensures forall k | 0 <= k < |objs| :: objs[k] == supplies[k].obj
  {
    seq(|supplies|, k requires 0 <= k < |supplies| => supplies[k].obj)
  }

  function ObjectsFrom(table: Table, addr: nat, focused: bool, i: nat, j: nat): seq<Obj> {
    Objects(SupplyFrom(table, addr, focused, i, j))
  }

  // ---------------------------------------------------------------- the walk

  /** Where the walk stopped: at type `j` of interface `i` for want of room, or at the end; Overfull stands for a panic
      of the library, whose object set is full. */
  datatype Walked = Walked(i: nat, j: nat, marshaller: Marshaller, done: bool) | Overfull

  function Walk(table: Table, addr: nat, focused: bool, i: nat, j: nat, m: Marshaller): Walked
    decreases |table| - i, if i < |table| then |TypesOf(table, i)| - j else 0
  {
    if i >= |table| then Walked(i, j, m, true)
    else if j >= |TypesOf(table, i)| then Walk(table, addr, focused, i + 1, 0, m)
    else
      match Offer(table, addr, focused, i, j)
      case None => Walk(table, addr, focused, i, j + 1, m)
      case Some(s) =>
        if Overflows(m) then Overfull
        else
          var (n, ok) := MarshalObject(m, s.obj);
          if ok then Walk(table, addr, focused, i, j + 1, n) else Walked(i, j, n, false)
  }

  /** What a walk from `m` has achieved. */
  ghost predicate WroteGreedily(table: Table, addr: nat, focused: bool, objs: seq<Obj>, m: Marshaller, w: Walked)
    requires |m.out| <= m.size
  {
    match w
    case Overfull => Overfills(m, Owed(m.pending, objs))
    case Walked(i, j, n, done) =>
      var left := Owed(n.pending, ObjectsFrom(table, addr, focused, i, j));
      && !Overfills(m, Owed(m.pending, objs)) && Greedy(m, Owed(m.pending, objs), n, left)
      && (done <==> left == []) && (done ==> i >= |table|) && (!done ==> i < |table| && j < |TypesOf(table, i)|)
  }

  lemma NothingToWalk(table: Table, addr: nat, focused: bool, i: nat, j: nat, m: Marshaller)
    requires i >= |table| && |m.out| <= m.size
    ensures WroteGreedily(table, addr, focused, [], m, Walked(i, j, m, true))
  {
    NothingOwed(m);
  }

  lemma FitsThenWalks(table: Table, addr: nat, focused: bool, objs: seq<Obj>, m: Marshaller, w: Walked)
    requires objs != [] && !Overflows(m) && |m.out| <= m.size && MarshalObject(m, objs[0]).1
    ensures |MarshalObject(m, objs[0]).0.out| <= MarshalObject(m, objs[0]).0.size
    ensures WroteGreedily(table, addr, focused, objs[1..], MarshalObject(m, objs[0]).0, w)
            ==> WroteGreedily(table, addr, focused, objs, m, w)
  {
    OthersOverfill(m, objs);
    hide MarshalObject, Owed, Greedy, Overfills;
    if w.Walked? && WroteGreedily(table, addr, focused, objs[1..], MarshalObject(m, objs[0]).0, w) {
      ObjectThenOthers(m, objs, w.marshaller, Owed(w.marshaller.pending, ObjectsFrom(table, addr, focused, w.i, w.j)));
    }
  }

  lemma StopsForWantOfRoom(table: Table, addr: nat, focused: bool, i: nat, j: nat, m: Marshaller)
    requires i < |table| && j < |TypesOf(table, i)| && |m.out| <= m.size
    requires ObjectsFrom(table, addr, focused, i, j) != []
    ensures var objs := ObjectsFrom(table, addr, focused, i, j);
            && (Overflows(m) ==> WroteGreedily(table, addr, focused, objs, m, Overfull))
            && (!Overflows(m) && !MarshalObject(m, objs[0]).1 ==>
                  WroteGreedily(table, addr, focused, objs, m, Walked(i, j, MarshalObject(m, objs[0]).0, false)))
  {
    var objs := ObjectsFrom(table, addr, focused, i, j);
    hide MarshalObject, Owed, Greedy, Overfills, ObjectsFrom;
    if Overflows(m) {
      NextOverfills(m, objs);
    } else if !MarshalObject(m, objs[0]).1 {
      ObjectThatDoesNotFit(m, objs);
    }
  }

  /** The nested, suspended walk writes the pieces of the flat object list greedily: as many as fit, none
      skipped, none repeated, and it is done exactly when all are written. It panics exactly when there are more
      pieces than the object set allows and the buffer has room for those that it allows. */
  lemma {:induction false} WalkIsGreedy(table: Table, addr: nat, focused: bool, i: nat, j: nat, m: Marshaller)
    requires |m.out| <= m.size
    ensures WroteGreedily(table, addr, focused, ObjectsFrom(table, addr, focused, i, j), m,
                          Walk(table, addr, focused, i, j, m))
    decreases |table| - i, if i < |table| then |TypesOf(table, i)| - j else 0
  {
    hide WroteGreedily, MarshalObject;
    var objs := ObjectsFrom(table, addr, focused, i, j);
    if i >= |table| {
      NothingToWalk(table, addr, focused, i, j, m);
    } else if j >= |TypesOf(table, i)| {
      WalkIsGreedy(table, addr, focused, i + 1, 0, m);
    } else if Offer(table, addr, focused, i, j).None? {
      WalkIsGreedy(table, addr, focused, i, j + 1, m);
    } else if !Overflows(m) && MarshalObject(m, objs[0]).1 {
      assert objs[1..] == ObjectsFrom(table, addr, focused, i, j + 1);
      var n := MarshalObject(m, objs[0]).0;
      FitsThenWalks(table, addr, focused, objs, m, Walk(table, addr, focused, i, j + 1, n));
      WalkIsGreedy(table, addr, focused, i, j + 1, n);
    } else {
      StopsForWantOfRoom(table, addr, focused, i, j, m);
    }
  }
}
