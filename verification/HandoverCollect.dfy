/** earbudHandover_Unmarshal's loop: objects are read from a buffer into a list of fixed size. */
module HandoverCollect {
  import opened Results
  import opened HandoverCodec
  import opened HandoverWalk

  /** An object in allocated memory. */
  datatype Held = Held(handle: nat, obj: Obj)

  // ---------------------------------------------------------------- the unmarshaller

  /** A root object was read up to `pos`; or the buffer ended before one was complete; or the bytes are not what
      a marshaller with the same descriptors writes; or the object set is full. `next` counts allocations, and
      `slots` more objects fit into the set. */
  datatype Reading = Root(held: Held, pos: nat, next: nat, slots: nat) | Need(partial: seq<Held>, next: nat, slots: nat)
                   | Malformed | Crowded

  /** Unmarshal: objects are allocated and read until an end marker, which completes the first of them. Objects
      that were read before the buffer ended stay in the set, though the caller sends them again. */
  function ReadObject(sizes: seq<nat>, partial: seq<Held>, buf: seq<Byte>, pos: nat, next: nat, slots: nat): (r: Reading)
    requires pos <= |buf|
    ensures r.Root? ==> pos < r.pos <= |buf|
    decreases |buf| - pos
  {
    if pos == |buf| then Need(partial, next, slots)
    else if buf[pos] == END then if partial == [] then Malformed else Root(partial[0], pos + 1, next, slots)
    else if buf[pos] >= |sizes| then Malformed
    else
      var after := pos + 1 + sizes[buf[pos]];
      if after > |buf| then Need(partial, next, slots)
      else if slots == 0 then Crowded
      else ReadObject(sizes, partial + [Held(next, Obj(buf[pos], buf[pos + 1..after]))], buf, after, next + 1, slots - 1)
  }

  /** The descriptor table knows the object. */
  predicate Described(sizes: seq<nat>, o: Obj) {
    o.kind < |sizes| <= END && |o.values| == sizes[o.kind]
  }

  predicate AllAre(partial: seq<Held>, o: Obj) {
    forall i | 0 <= i < |partial| :: partial[i].obj == o
  }

  lemma OnePrefix(o: Obj, buf: seq<Byte>, pos: nat)
    requires pos <= |buf|
    requires Encode([o]) <= buf[pos..] || buf[pos..] < Encode([o])
    ensures |Encode([o])| == |o.values| + 2
    ensures pos < |buf| ==> buf[pos] == o.kind
    ensures pos + 1 + |o.values| <= |buf| ==> buf[pos + 1..pos + 1 + |o.values|] == o.values
    ensures pos + 1 + |o.values| < |buf| ==> buf[pos + 1 + |o.values|] == END
  {
    var e, n := Encode([o]), |o.values|;
    assert [o][1..] == [] && Encode([]) == [];
    assert e == [o.kind] + o.values + [END];
    hide Encode;
    forall i | 0 <= i < |e| && pos + i < |buf| ensures buf[pos + i] == e[i] {
      assert buf[pos..][i] == e[i];
    }
    if pos + 1 + n <= |buf| {
      forall i | 0 <= i < n ensures buf[pos + 1..pos + 1 + n][i] == o.values[i] {
        assert buf[pos + (1 + i)] == e[1 + i];
      }
    }
    if pos + 1 + n < |buf| {
      assert buf[pos + (1 + n)] == e[1 + n];
    }
  }

  /** All of the object but its end marker is there. */
  predicate AllButEnd(o: Obj, bytes: nat) {
    bytes == |o.values| + 1
  }

  /** Reading at the start of an object gives that object if it is there in full, and otherwise keeps only
      copies of it: one more when just the end marker is missing. Whenever the values are there they take a slot, and
      without one the library panics. */
  lemma ReadOne(sizes: seq<nat>, partial: seq<Held>, o: Obj, buf: seq<Byte>, pos: nat, next: nat, slots: nat)
    requires pos <= |buf| && Described(sizes, o) && AllAre(partial, o)
    requires Encode([o]) <= buf[pos..] || buf[pos..] < Encode([o])
    ensures match ReadObject(sizes, partial, buf, pos, next, slots)
            case Root(held, after, _, left) =>
              Encode([o]) <= buf[pos..] && held.obj == o && after == pos + |Encode([o])| && left + 1 == slots
            case Need(kept, _, left) =>
              buf[pos..] < Encode([o]) && AllAre(kept, o) && left + Parted(o, |buf| - pos) == slots
            case Crowded => slots == 0 && |buf| - pos >= |o.values| + 1
            case Malformed => false
  {
    OnePrefix(o, buf, pos);
    if pos + 1 + |o.values| <= |buf| && slots > 0 {
      var more := partial + [Held(next, o)];
      assert AllAre(more, o);
      assert ReadObject(sizes, partial, buf, pos, next, slots)
             == ReadObject(sizes, more, buf, pos + 1 + |o.values|, next + 1, slots - 1);
    }
  }

  function Parted(o: Obj, bytes: nat): nat {
    if AllButEnd(o, bytes) then 1 else 0
  }

  // ---------------------------------------------------------------- the list

  datatype Entry = Vacant | Entry(held: Held, status: Status)

  /** The unmarshal part of a device; `next` counts allocations. */
  datatype Collector = Collector(partial: seq<Held>, list: seq<Entry>, free: nat, next: nat, slots: nat)

  predicate Known(table: Table, kind: Byte) {
    exists i, j | 0 <= i < |table| && 0 <= j < |TypesOf(table, i)| :: TypesOf(table, i)[j].kind == kind
  }

  /** How the loop ends; Overrun stands for a panic. */
  datatype Collected = Collected(collector: Collector, consumed: nat, complete: bool) | Overrun

  function Collect(table: Table, sizes: seq<nat>, c: Collector, buf: seq<Byte>, pos: nat): Collected
    requires pos <= |buf|
    decreases |buf| - pos
  {
    if pos == |buf| then Collected(c, pos, true)
    else if c.free >= |c.list| then Overrun
    else
      match ReadObject(sizes, c.partial, buf, pos, c.next, c.slots)
      case Malformed => Overrun
      case Crowded => Overrun
      case Need(partial, next, slots) => Collected(c.(partial := partial, next := next, slots := slots), pos, false)
      case Root(held, after, next, slots) =>
        if !Known(table, held.obj.kind) then Overrun else Collect(table, sizes, Store(c, held, next, slots), buf, after)
  }

  function Store(c: Collector, held: Held, next: nat, slots: nat): Collector
    requires c.free < |c.list|
  {
    Collector([], c.list[c.free := Entry(held, Failure)], c.free + 1, next, slots)
  }

  // ---------------------------------------------------------------- how many objects a buffer holds

  /** The number of objects that some first bytes of their encoding hold in full. */
  function Whole(objs: seq<Obj>, bytes: nat): (k: nat)
    ensures k <= |objs|
  {
    if objs == [] || bytes < |Encode([objs[0]])| then 0
    else 1 + Whole(objs[1..], bytes - |Encode([objs[0]])|)
  }

  /** The number of slots that those bytes take: one for each of these objects, and one for the next if only its
      end marker is missing. */
  function Pushes(objs: seq<Obj>, bytes: nat): (n: nat)
    ensures Whole(objs, bytes) <= n <= Whole(objs, bytes) + 1
  {
    if objs == [] then 0
    else if bytes < |Encode([objs[0]])| then Parted(objs[0], bytes)
    else 1 + Pushes(objs[1..], bytes - |Encode([objs[0]])|)
  }

  /** The collector holds `done`, and what is left over of earlier buffers belongs to the next object. */
  ghost predicate Collects(c: Collector, done: seq<Obj>, todo: seq<Obj>) {
    && c.free == |done| && |done| + |todo| <= |c.list|
    && (forall k | 0 <= k < |done| :: c.list[k].Entry? && c.list[k].held.obj == done[k] && c.list[k].status == Failure)
    && (if todo == [] then c.partial == [] else AllAre(c.partial, todo[0]))
  }

  predicate Recognised(table: Table, sizes: seq<nat>, objs: seq<Obj>) {
    forall k | 0 <= k < |objs| :: Known(table, objs[k].kind) && Described(sizes, objs[k])
  }

  lemma EncodeFirst(objs: seq<Obj>)
    requires objs != []
    ensures Encode(objs) == Encode([objs[0]]) + Encode(objs[1..])
  {
    assert [objs[0]] + objs[1..] == objs;
    EncodeConcat([objs[0]], objs[1..]);
  }

  lemma PrefixSplits(a: seq<Byte>, b: seq<Byte>, s: seq<Byte>)
    requires s <= a + b
    ensures a <= s ==> s[|a|..] <= b
    ensures a <= s || s < a
  {
    assert s == (a + b)[..|s|];
  }

  /** From `pos` on, the next `k` objects were collected and consumed, and `pushed` slots were taken. */
  ghost predicate Advanced(c: Collector, done: seq<Obj>, todo: seq<Obj>, buf: seq<Byte>, pos: nat, r: Collected, k: nat,
                           pushed: nat)
  {
    && k <= |todo| && r.Collected?
    && Collects(r.collector, done + todo[..k], todo[k..]) && |r.collector.list| == |c.list|
    && r.collector.slots + pushed == c.slots
    && r.consumed == pos + |Encode(todo[..k])| <= |buf|
    && (r.complete <==> r.consumed == |buf|)
    && (!r.complete ==> k < |todo| && buf[r.consumed..] < Encode([todo[k]]))
  }

  lemma StoreOne(c: Collector, done: seq<Obj>, todo: seq<Obj>, held: Held, next: nat, slots: nat)
    requires Collects(c, done, todo) && todo != [] && held.obj == todo[0]
    ensures c.free < |c.list|
    ensures Collects(Store(c, held, next, slots), done + [todo[0]], todo[1..])
  {
  }

  lemma OneMore(c: Collector, d: Collector, done: seq<Obj>, todo: seq<Obj>, grown: seq<Obj>, rest: seq<Obj>, buf: seq<Byte>,
                pos: nat, after: nat, r: Collected, n: nat, pushed: nat)
    requires todo != [] && |d.list| == |c.list| && d.slots + 1 == c.slots
    requires grown == done + [todo[0]] && rest == todo[1..] && after == pos + |Encode([todo[0]])|
    requires Advanced(d, grown, rest, buf, after, r, n, pushed)
    ensures Advanced(c, done, todo, buf, pos, r, n + 1, pushed + 1)
  {
    var o := todo[0];
    assert todo[..n + 1] == [o] + rest[..n];
    EncodeConcat([o], rest[..n]);
    assert grown + rest[..n] == done + todo[..n + 1];
    assert rest[n..] == todo[n + 1..];
  }

  lemma NoneMore(c: Collector, d: Collector, done: seq<Obj>, todo: seq<Obj>, buf: seq<Byte>, pos: nat, complete: bool,
                 pushed: nat)
    requires Collects(d, done, todo) && |d.list| == |c.list| && d.slots + pushed == c.slots
    requires pos <= |buf| && (complete <==> pos == |buf|)
    requires !complete ==> todo != [] && buf[pos..] < Encode([todo[0]])
    ensures Advanced(c, done, todo, buf, pos, Collected(d, pos, complete), 0, pushed)
  {
    assert done + todo[..0] == done && todo[0..] == todo;
  }

  /** A panic exactly when there are too few slots; else the complete objects are collected. */
  ghost predicate CollectsWhole(table: Table, sizes: seq<nat>, c: Collector, done: seq<Obj>, todo: seq<Obj>, buf: seq<Byte>,
                                pos: nat)
    requires pos <= |buf|
  {
    var r := Collect(table, sizes, c, buf, pos);
    var pushed := Pushes(todo, |buf| - pos);
    if pushed > c.slots then r.Overrun? else Advanced(c, done, todo, buf, pos, r, Whole(todo, |buf| - pos), pushed)
  }

  /** The buffer ends inside the next object. */
  lemma CollectNone(table: Table, sizes: seq<nat>, c: Collector, done: seq<Obj>, todo: seq<Obj>, buf: seq<Byte>, pos: nat)
    requires pos < |buf| && Collects(c, done, todo) && todo != []
    requires Described(sizes, todo[0]) && buf[pos..] < Encode([todo[0]])
    ensures CollectsWhole(table, sizes, c, done, todo, buf, pos)
  {
    var o := todo[0];
    ReadOne(sizes, c.partial, o, buf, pos, c.next, c.slots);
    hide ReadObject, Encode;
    assert |buf[pos..]| == |buf| - pos < |Encode([o])|;
    match ReadObject(sizes, c.partial, buf, pos, c.next, c.slots) {
      case Need(kept, next, slots) =>
        NoneMore(c, c.(partial := kept, next := next, slots := slots), done, todo, buf, pos, false, Parted(o, |buf| - pos));
      case Crowded =>
        OnePrefix(o, buf, pos);
    }
  }

  lemma WholeFirst(objs: seq<Obj>, bytes: nat)
    requires objs != [] && |Encode([objs[0]])| <= bytes
    ensures Whole(objs, bytes) == 1 + Whole(objs[1..], bytes - |Encode([objs[0]])|)
    ensures Pushes(objs, bytes) == 1 + Pushes(objs[1..], bytes - |Encode([objs[0]])|)
  {
  }

  /** One object more than the others. */
  lemma OneMoreOrOverrun(c: Collector, d: Collector, done: seq<Obj>, todo: seq<Obj>, grown: seq<Obj>, rest: seq<Obj>,
                         buf: seq<Byte>, pos: nat, after: nat, r: Collected, whole: nat, pushed: nat)
    requires todo != [] && grown == done + [todo[0]] && rest == todo[1..] && after == pos + |Encode([todo[0]])|
    requires |d.list| == |c.list| && d.slots + 1 == c.slots
    requires if pushed > d.slots then r.Overrun? else Advanced(d, grown, rest, buf, after, r, whole, pushed)
    ensures if pushed + 1 > c.slots then r.Overrun? else Advanced(c, done, todo, buf, pos, r, whole + 1, pushed + 1)
  {
    hide Encode, Advanced;
    if pushed <= d.slots {
      OneMore(c, d, done, todo, grown, rest, buf, pos, after, r, whole, pushed);
    }
  }

  /** The next object is there, and the others have been looked at. */
  lemma CollectOne(table: Table, sizes: seq<nat>, c: Collector, done: seq<Obj>, todo: seq<Obj>, grown: seq<Obj>,
                   rest: seq<Obj>, buf: seq<Byte>, pos: nat, after: nat, d: Collector)
    requires todo != [] && after == pos + |Encode([todo[0]])| <= |buf|
    requires grown == done + [todo[0]] && rest == todo[1..]
    requires |d.list| == |c.list| && d.slots + 1 == c.slots
    requires Collect(table, sizes, c, buf, pos) == Collect(table, sizes, d, buf, after)
    requires CollectsWhole(table, sizes, d, grown, rest, buf, after)
    ensures CollectsWhole(table, sizes, c, done, todo, buf, pos)
  {
    hide Collect, Encode, Advanced, Whole, Pushes;
    var r, whole, pushed := Collect(table, sizes, d, buf, after), Whole(rest, |buf| - after), Pushes(rest, |buf| - after);
    OneMoreOrOverrun(c, d, done, todo, grown, rest, buf, pos, after, r, whole, pushed);
    WholeFirst(todo, |buf| - pos);
  }

  lemma NextCollector(table: Table, sizes: seq<nat>, c: Collector, done: seq<Obj>, todo: seq<Obj>, buf: seq<Byte>, pos: nat)
    returns (d: Collector)
    requires pos < |buf| && Collects(c, done, todo) && todo != [] && c.slots > 0
    requires Described(sizes, todo[0]) && Known(table, todo[0].kind) && Encode([todo[0]]) <= buf[pos..]
    ensures |d.list| == |c.list| && d.slots + 1 == c.slots && pos + |Encode([todo[0]])| <= |buf|
    ensures Collects(d, done + [todo[0]], todo[1..])
    ensures Collect(table, sizes, c, buf, pos) == Collect(table, sizes, d, buf, pos + |Encode([todo[0]])|)
  {
    ReadOne(sizes, c.partial, todo[0], buf, pos, c.next, c.slots);
    hide ReadObject, Encode, Known;
    match ReadObject(sizes, c.partial, buf, pos, c.next, c.slots) {
      case Root(held, after, next, slots) =>
        StoreOne(c, done, todo, held, next, slots);
        d := Store(c, held, next, slots);
    }
  }

  /** Without a slot the next object panics. */
  lemma CollectFull(table: Table, sizes: seq<nat>, c: Collector, done: seq<Obj>, todo: seq<Obj>, buf: seq<Byte>, pos: nat)
    requires pos < |buf| && Collects(c, done, todo) && todo != [] && c.slots == 0
    requires Described(sizes, todo[0]) && Encode([todo[0]]) <= buf[pos..]
    ensures CollectsWhole(table, sizes, c, done, todo, buf, pos)
  {
    ReadOne(sizes, c.partial, todo[0], buf, pos, c.next, c.slots);
    hide ReadObject, Encode;
    assert |Encode([todo[0]])| <= |buf| - pos;
  }

  lemma CollectNothing(table: Table, sizes: seq<nat>, c: Collector, done: seq<Obj>, todo: seq<Obj>, buf: seq<Byte>)
    requires Collects(c, done, todo)
    ensures CollectsWhole(table, sizes, c, done, todo, buf, |buf|)
  {
    NothingThere(todo);
    NoneMore(c, c, done, todo, buf, |buf|, true, 0);
  }

  /** Some first bytes hold the first object, or a part of it. */
  lemma FirstOfBuffer(objs: seq<Obj>, buf: seq<Byte>, pos: nat)
    requires pos < |buf| && buf[pos..] <= Encode(objs)
    ensures objs != [] && (Encode([objs[0]]) <= buf[pos..] || buf[pos..] < Encode([objs[0]]))
    ensures Encode([objs[0]]) <= buf[pos..] ==>
              pos + |Encode([objs[0]])| <= |buf| && buf[pos + |Encode([objs[0]])|..] <= Encode(objs[1..])
  {
    assert |buf[pos..]| > 0;
    EncodeFirst(objs);
    var first := Encode([objs[0]]);
    hide Encode;
    PrefixSplits(first, Encode(objs[1..]), buf[pos..]);
    if first <= buf[pos..] {
      assert buf[pos..][|first|..] == buf[pos + |first|..];
    }
  }

  /** From a buffer that starts at the next object, the complete objects are collected, in order and once, and the
      consumed bytes are theirs; a panic happens exactly when they take more slots than there are. */
  lemma {:induction false} CollectPrefix(table: Table, sizes: seq<nat>, c: Collector, done: seq<Obj>, todo: seq<Obj>,
                                         buf: seq<Byte>, pos: nat)
    requires pos <= |buf| && Collects(c, done, todo) && Recognised(table, sizes, todo)
    requires buf[pos..] <= Encode(todo)
    ensures CollectsWhole(table, sizes, c, done, todo, buf, pos)
    decreases |todo|
  {
    hide Collects, CollectsWhole, Collect, Known, Described, Encode;
    if pos == |buf| {
      CollectNothing(table, sizes, c, done, todo, buf);
    } else {
      FirstOfBuffer(todo, buf, pos);
      var o := todo[0];
      assert Known(table, o.kind) && Described(sizes, o);
      if !(Encode([o]) <= buf[pos..]) {
        CollectNone(table, sizes, c, done, todo, buf, pos);
      } else if c.slots == 0 {
        CollectFull(table, sizes, c, done, todo, buf, pos);
      } else {
        var d := NextCollector(table, sizes, c, done, todo, buf, pos);
        var after := pos + |Encode([o])|;
        RecognisedRest(table, sizes, todo);
        CollectPrefix(table, sizes, d, done + [o], todo[1..], buf, after);
        CollectOne(table, sizes, c, done, todo, done + [o], todo[1..], buf, pos, after, d);
      }
    }
  }

  lemma RecognisedRest(table: Table, sizes: seq<nat>, objs: seq<Obj>)
    requires objs != [] && Recognised(table, sizes, objs)
    ensures Recognised(table, sizes, objs[1..])
  {
    assert forall k | 0 <= k < |objs| - 1 :: objs[1..][k] == objs[k + 1];
  }

  lemma NothingThere(objs: seq<Obj>)
    ensures Whole(objs, 0) == 0 && Pushes(objs, 0) == 0
  {
  }
}
