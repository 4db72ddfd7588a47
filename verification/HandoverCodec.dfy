/** The byte codec behind the handover: the marshal library, for objects without pointers.
    An object is written as two pieces, its type with its values and then an end marker; a piece that does not
    fit into the buffer is held back whole. */
module HandoverCodec {
  import opened Sequences

  type Byte = x: int | 0 <= x < 256

  /** The type byte that ends the values of an object. */
  const END: Byte := 255

  datatype Obj = Obj(kind: Byte, values: seq<Byte>)

  function ValuesPiece(o: Obj): (p: seq<Byte>)
    ensures p != []
  {
    [o.kind] + o.values
  }

  function Pieces(objs: seq<Obj>): (p: seq<seq<Byte>>)
    ensures |p| == 2 * |objs|
    ensures objs != [] ==> p[0] == ValuesPiece(objs[0]) && p[1] == [END]
  {
    if objs == [] then [] else [ValuesPiece(objs[0]), [END]] + Pieces(objs[1..])
  }

  function Flat(pieces: seq<seq<Byte>>): seq<Byte> {
    if pieces == [] then [] else pieces[0] + Flat(pieces[1..])
  }

  /** The bytes of some objects. */
  function Encode(objs: seq<Obj>): seq<Byte> {
    if objs == [] then [] else ValuesPiece(objs[0]) + [END] + Encode(objs[1..])
  }

  lemma {:induction false} FlatConcat(x: seq<seq<Byte>>, y: seq<seq<Byte>>)
    ensures Flat(x + y) == Flat(x) + Flat(y)
  {
    if x == [] {
      assert x + y == y;
    } else {
      assert (x + y)[1..] == x[1..] + y;
      FlatConcat(x[1..], y);
    }
  }

  lemma {:induction false} EncodeIsFlat(objs: seq<Obj>)
    ensures Flat(Pieces(objs)) == Encode(objs)
  {
    if objs != [] {
      EncodeIsFlat(objs[1..]);
      var p := Pieces(objs);
      assert p[1..] == [[END]] + Pieces(objs[1..]) && p[1..][1..] == Pieces(objs[1..]);
    }
  }

  lemma {:induction false} EncodeConcat(x: seq<Obj>, y: seq<Obj>)
    ensures Encode(x + y) == Encode(x) + Encode(y)
  {
    if x == [] {
      assert x + y == y;
    } else {
      assert (x + y)[1..] == x[1..] + y;
      EncodeConcat(x[1..], y);
    }
  }

  /** How many of the pieces go into `room` bytes when none is split and none is skipped. */
  function Fit(pieces: seq<seq<Byte>>, room: nat): (k: nat)
    ensures k <= |pieces|
  {
    if pieces == [] || |pieces[0]| > room then 0 else 1 + Fit(pieces[1..], room - |pieces[0]|)
  }

  lemma {:induction false} FitIsLargest(pieces: seq<seq<Byte>>, room: nat)
    ensures var k := Fit(pieces, room);
            && |Flat(pieces[..k])| <= room
            && (k < |pieces| ==> |Flat(pieces[..k + 1])| > room)
  {
    if pieces != [] && |pieces[0]| <= room {
      FitIsLargest(pieces[1..], room - |pieces[0]|);
      var k := Fit(pieces, room);
      assert pieces[..k][1..] == pieces[1..][..k - 1];
      if k < |pieces| {
        assert pieces[..k + 1][1..] == pieces[1..][..k];
      }
    } else if pieces != [] {
      assert pieces[..1][1..] == [];
    }
  }

  // ---------------------------------------------------------------- the marshaller

  /** The library's object set has room for this many objects, besides its null object; one more is a failed
      assertion. It keeps every object that it was ever given. */
  const MAX_OBJECTS := 254

  /** What a marshaller still owes from an earlier buffer: nothing, a whole object, or only its end marker. */
  datatype Pending = Idle | Values(obj: Obj) | End

  /** `out` is what it has written into the current buffer of `size` bytes; `slots` more objects fit into its set. */
  datatype Marshaller = Marshaller(pending: Pending, out: seq<Byte>, size: nat, slots: nat)

  function SetBuffer(m: Marshaller, size: nat): Marshaller {
    m.(out := [], size := size)
  }

  function WriteEnd(m: Marshaller): (r: (Marshaller, bool)) {
    if |m.out| < m.size then (m.(pending := Idle, out := m.out + [END]), true) else (m.(pending := End), false)
  }

  /** The next object does not fit into the set any more. */
  predicate Overflows(m: Marshaller) {
    m.pending.Idle? && m.slots == 0
  }

  /** Marshal: an object that is owed is finished first, whatever object is passed; a new one goes into the set, and
      stays there. */
  function MarshalObject(m: Marshaller, obj: Obj): (r: (Marshaller, bool))
    requires !Overflows(m)
  {
    match m.pending
    case End => WriteEnd(m)
    case Values(o) => WriteValues(m, o)
    case Idle => WriteValues(m.(slots := m.slots - 1), obj)
  }

  function WriteValues(m: Marshaller, o: Obj): (r: (Marshaller, bool)) {
    if |m.out| + |ValuesPiece(o)| <= m.size then WriteEnd(m.(out := m.out + ValuesPiece(o)))
    else (m.(pending := Values(o)), false)
  }

  /** The pieces that are written next, when `objs` are the objects passed next. */
  function Owed(pending: Pending, objs: seq<Obj>): seq<seq<Byte>> {
    if objs == [] then []
    else
      match pending
      case Idle => Pieces(objs)
      case Values(o) => Pieces([o] + objs[1..])
      case End => Pieces(objs)[1..]
  }

  /** The number of pieces that can be written before an object does not fit into the set. */
  function Allowance(m: Marshaller): nat {
    2 * m.slots + match m.pending case Idle => 0 case Values(_) => 2 case End => 1
  }

  /** From `m` to `n` the first pieces of `owed` were written, as many as fit, and `left` are still owed. */
  ghost predicate Greedy(m: Marshaller, owed: seq<seq<Byte>>, n: Marshaller, left: seq<seq<Byte>>) {
    && |m.out| <= m.size
    && var k := Fit(owed, m.size - |m.out|);
       && n.size == m.size && n.out == m.out + Flat(owed[..k]) && left == owed[k..] && Allowance(n) + k == Allowance(m)
  }

  /** The set overflows: there are more pieces than it allows, and the buffer has room for those that it allows. */
  predicate Overfills(m: Marshaller, owed: seq<seq<Byte>>)
    requires |m.out| <= m.size
  {
    |owed| > Allowance(m) && Fit(owed, m.size - |m.out|) >= Allowance(m)
  }

  /** Greedy writing may be interrupted between pieces. */
  lemma GreedyInTwo(m: Marshaller, owed: seq<seq<Byte>>, n: Marshaller, k: nat, rest: seq<seq<Byte>>, w: Marshaller,
                    left: seq<seq<Byte>>)
    requires |m.out| <= m.size && k <= |owed| && n.size == m.size && n.out == m.out + Flat(owed[..k])
    requires Allowance(n) + k == Allowance(m)
    requires rest == owed[k..] && Greedy(n, rest, w, left)
    requires Fit(owed, m.size - |m.out|) == k + Fit(rest, n.size - |n.out|)
    ensures Greedy(m, owed, w, left)
  {
    hide Allowance, Fit, Flat, Greedy;
    var j := GreedyCount(n, rest, w, left);
    FlatJoin(m.out, owed, k, rest, j);
    GreedyAt(m, owed, w, left, k + j);
  }

  lemma GreedyCount(m: Marshaller, owed: seq<seq<Byte>>, n: Marshaller, left: seq<seq<Byte>>) returns (k: nat)
    requires Greedy(m, owed, n, left)
    ensures |m.out| <= m.size && k == Fit(owed, m.size - |m.out|) && n.size == m.size && n.out == m.out + Flat(owed[..k])
    ensures left == owed[k..] && Allowance(n) + k == Allowance(m)
  {
    k := Fit(owed, m.size - |m.out|);
  }

  lemma GreedyAt(m: Marshaller, owed: seq<seq<Byte>>, n: Marshaller, left: seq<seq<Byte>>, k: nat)
    requires |m.out| <= m.size && k == Fit(owed, m.size - |m.out|) && n.size == m.size && n.out == m.out + Flat(owed[..k])
    requires left == owed[k..] && Allowance(n) + k == Allowance(m)
    ensures Greedy(m, owed, n, left)
  {
  }

  lemma FlatJoin(out: seq<Byte>, p: seq<seq<Byte>>, k: nat, rest: seq<seq<Byte>>, more: nat)
    requires k + more <= |p| && rest == p[k..]
    ensures (out + Flat(p[..k])) + Flat(rest[..more]) == out + Flat(p[..k + more]) && rest[more..] == p[k + more..]
  {
    FlatSplit(p, k, more);
    Regroup(out, Flat(p[..k]), Flat(rest[..more]));
  }

  lemma FlatSplit(p: seq<seq<Byte>>, k: nat, more: nat)
    requires k + more <= |p|
    ensures Flat(p[..k + more]) == Flat(p[..k]) + Flat(p[k..][..more])
    ensures p[k..][more..] == p[k + more..]
  {
    FlatConcat(p[..k], p[k..][..more]);
    assert p[..k + more] == p[..k] + p[k..][..more];
  }

  /** The number of pieces that one call writes. */
  function PiecesWritten(m: Marshaller, obj: Obj): nat
    requires !Overflows(m)
  {
    if MarshalObject(m, obj).1 then if m.pending.End? then 1 else 2
    else if MarshalObject(m, obj).0.pending.End? && !m.pending.End? then 1 else 0
  }

  lemma AllowanceUsed(m: Marshaller, obj: Obj)
    requires !Overflows(m)
    ensures Allowance(MarshalObject(m, obj).0) + PiecesWritten(m, obj) == Allowance(m)
  {
  }

  /** One object: `k` whole pieces are written, as many as fit, and the set fills up accordingly. */
  ghost predicate WritesGreedily(m: Marshaller, objs: seq<Obj>, k: nat)
    requires objs != [] && !Overflows(m) && |m.out| <= m.size
  {
    var (n, ok) := MarshalObject(m, objs[0]);
    var rest := if ok then objs[1..] else objs;
    var owed := Owed(m.pending, objs);
    && n.size == m.size && |n.out| <= n.size && (ok <==> n.pending.Idle?)
    && k <= |owed| && n.out == m.out + Flat(owed[..k]) && Owed(n.pending, rest) == owed[k..]
    && Allowance(n) + k == Allowance(m)
    && Fit(owed, m.size - |m.out|) == k + (if ok then Fit(owed[k..], n.size - |n.out|) else 0)
    && (!ok ==> k < |owed|)
  }

  lemma EndWritesGreedily(m: Marshaller, objs: seq<Obj>)
    requires objs != [] && m.pending.End? && |m.out| <= m.size
    ensures WritesGreedily(m, objs, PiecesWritten(m, objs[0]))
  {
    var owed := Owed(m.pending, objs);
    AllowanceUsed(m, objs[0]);
    FlatPrefixes(owed);
    hide Allowance, Flat;
    assert owed[1..] == Pieces(objs[1..]);
  }

  lemma ObjectWritesGreedily(m: Marshaller, objs: seq<Obj>)
    requires objs != [] && !Overflows(m) && !m.pending.End? && |m.out| <= m.size
    ensures WritesGreedily(m, objs, PiecesWritten(m, objs[0]))
  {
    var o := if m.pending.Values? then m.pending.obj else objs[0];
    var all := [o] + objs[1..];
    var owed := Pieces(all);
    AllowanceUsed(m, objs[0]);
    FlatPrefixes(owed);
    hide Allowance, Flat;
    assert all[1..] == objs[1..] && (m.pending.Idle? ==> all == objs);
    assert Owed(m.pending, objs) == owed;
    if |ValuesPiece(o)| <= m.size - |m.out| {
      assert owed[2..] == Pieces(objs[1..]) == owed[1..][1..];
      assert Pieces(objs)[1..] == owed[1..];
      var (n, ok) := MarshalObject(m, objs[0]);
      var k := PiecesWritten(m, objs[0]);
      assert Fit(owed, m.size - |m.out|) == k + (if ok then Fit(owed[k..], n.size - |n.out|) else 0);
    } else {
      assert owed[..0] == [] && m.out + [] == m.out && owed[0..] == owed;
    }
  }

  lemma MarshalObjectIsGreedy(m: Marshaller, objs: seq<Obj>)
    requires objs != [] && !Overflows(m) && |m.out| <= m.size
    ensures WritesGreedily(m, objs, PiecesWritten(m, objs[0]))
  {
    hide WritesGreedily, MarshalObject;
    if m.pending.End? {
      EndWritesGreedily(m, objs);
    } else {
      ObjectWritesGreedily(m, objs);
    }
  }

  /** An object that fits, and greedy writing of the others. */
  lemma ObjectThenOthers(m: Marshaller, objs: seq<Obj>, w: Marshaller, left: seq<seq<Byte>>)
    requires objs != [] && !Overflows(m) && |m.out| <= m.size && MarshalObject(m, objs[0]).1
    requires Greedy(MarshalObject(m, objs[0]).0, Owed(Idle, objs[1..]), w, left)
    ensures Greedy(m, Owed(m.pending, objs), w, left)
  {
    MarshalObjectIsGreedy(m, objs);
    var k := PiecesWritten(m, objs[0]);
    var owed := Owed(m.pending, objs);
    GreedyInTwo(m, owed, MarshalObject(m, objs[0]).0, k, owed[k..], w, left);
  }

  /** The object fits into the buffer; the others decide whether the set overflows. */
  lemma OthersOverfill(m: Marshaller, objs: seq<Obj>)
    requires objs != [] && !Overflows(m) && |m.out| <= m.size && MarshalObject(m, objs[0]).1
    ensures var n := MarshalObject(m, objs[0]).0;
            && n.pending.Idle? && |n.out| <= n.size
            && (Overfills(m, Owed(m.pending, objs)) <==> Overfills(n, Owed(Idle, objs[1..])))
  {
    MarshalObjectIsGreedy(m, objs);
    hide MarshalObject, Owed, Fit, Allowance;
  }

  lemma ObjectThatDoesNotFit(m: Marshaller, objs: seq<Obj>)
    requires objs != [] && !Overflows(m) && |m.out| <= m.size && !MarshalObject(m, objs[0]).1
    ensures var n := MarshalObject(m, objs[0]).0;
            && Greedy(m, Owed(m.pending, objs), n, Owed(n.pending, objs)) && Owed(n.pending, objs) != []
            && !Overfills(m, Owed(m.pending, objs))
  {
    MarshalObjectIsGreedy(m, objs);
    PiecesRemain(m, objs);
    hide MarshalObject, Fit, Flat, Owed;
  }

  lemma PiecesRemain(m: Marshaller, objs: seq<Obj>)
    requires objs != [] && !Overflows(m) && !MarshalObject(m, objs[0]).1
    ensures Allowance(MarshalObject(m, objs[0]).0) > 0
  {
  }

  /** With a full set the next object overflows it, whatever the buffer. */
  lemma NextOverfills(m: Marshaller, objs: seq<Obj>)
    requires objs != [] && Overflows(m) && |m.out| <= m.size
    ensures Overfills(m, Owed(m.pending, objs))
  {
  }

  lemma NothingOwed(m: Marshaller)
    requires |m.out| <= m.size
    ensures Greedy(m, [], m, []) && !Overfills(m, [])
  {
    assert Flat([][..0]) == [];
  }

  lemma FlatPrefixes(p: seq<seq<Byte>>)
    ensures Flat(p[..0]) == []
    ensures |p| >= 1 ==> Flat(p[..1]) == p[0]
    ensures |p| >= 2 ==> Flat(p[..2]) == p[0] + p[1]
  {
    if |p| >= 1 {
      assert p[..1][1..] == [];
    }
    if |p| >= 2 {
      FlatPrefixes(p[1..]);
      assert p[..2][1..] == p[1..][..1];
    }
  }
}
