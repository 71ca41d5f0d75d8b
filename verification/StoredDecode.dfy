/** Decoding into the caller's storage. A list is carved from the storage when its
    count is known and filled when its items come, which may be much later: the lists
    carved in between must not touch it, nor the filling of it them
    (serializers/telar_serializer.hpp, codecs/telar_value_codec.hpp). */
module StoredDecodes {
  import opened Wire
  import opened Schemas
  import opened Storage

  /** A decoded object as it lies in memory: lists are references into the storage. */
  datatype Stored =
    | SNum(n: nat)
    | SRaw(bytes: seq<byte>)
    | SRecord(items: seq<Stored>)
    | SList(at: nat, count: nat, width: nat)
    | SPick(tag: nat, body: Stored)
    | SAbsent
    | SPresent(inner: Stored)
    | SUnit

  /** One byte of the storage: not carved, carved and default, or byte `k` of an object. */
  datatype Cell = Free | Blank | Piece(obj: Stored, k: nat)

  /** How many bytes an element of a list takes, and how it must be aligned. */
  datatype Shape = Shape(width: pos, align: pos)
  type pos = n: nat | n > 0 witness 1

  function Place(at: nat, i: nat, width: nat): nat { at + i * width }

  /** All bytes of the object at `a` are there: nothing was written over any. */
  predicate Lives(memory: seq<Cell>, a: nat, width: nat, obj: Stored) {
    0 < width && a + width <= |memory| && forall p :: a <= p < a + width ==> memory[p] == Piece(obj, p - a)
  }

  function ObjectAt(memory: seq<Cell>, a: nat): Stored {
    if a < |memory| && memory[a].Piece? then memory[a].obj else SUnit
  }

  /** The object `o`, with the lists it refers to, is whole in memory and is `v`. */
  predicate Shows(s: Schema, o: Stored, v: Value, memory: seq<Cell>)
    decreases s, 1
  {
    match s
    case Number(_, _, _) => v.Num? && o == SNum(v.n)
    case Ahead(_) => v.Unit? && o.SUnit?
    case Blob(_) => v.Raw? && o == SRaw(v.bytes)
    case Repeat(_, elem) =>
      v.Many? && o.SList? && o.count == |v.items|
      && forall i :: 0 <= i < |v.items| ==> ShowsAt(elem, Place(o.at, i, o.width), o.width, v.items[i], memory)
    case Record(fields, _) =>
      v.Many? && o.SRecord? && |o.items| == |v.items| == |fields|
      && forall i :: 0 <= i < |fields| ==> Shows(fields[i], o.items[i], v.items[i], memory)
    case Tagged(alts) => v.Pick? && o.SPick? && o.tag == v.tag < |alts| && Shows(alts[v.tag], o.body, v.body, memory)
    case Framed(_, payload) =>
      (v.Absent? && o.SAbsent?) || (v.Present? && o.SPresent? && Shows(payload, o.inner, v.inner, memory))
  }

  predicate ShowsAt(s: Schema, a: nat, width: nat, v: Value, memory: seq<Cell>)
    decreases s, 2
  {
    Lives(memory, a, width, ObjectAt(memory, a)) && Shows(s, ObjectAt(memory, a), v, memory)
  }

  /** Reading a decoded object back out of memory. */
  function Load(s: Schema, o: Stored, memory: seq<Cell>): Value
    decreases s
  {
    match s
    case Number(_, _, _) => if o.SNum? then Num(o.n) else Unit
    case Ahead(_) => Unit
    case Blob(_) => if o.SRaw? then Raw(o.bytes) else Unit
    case Repeat(_, elem) =>
      if o.SList? then Many(seq(o.count, i requires 0 <= i < o.count => Load(elem, ObjectAt(memory, Place(o.at, i, o.width)), memory)))
      else Unit
    case Record(fields, _) =>
      if o.SRecord? && |o.items| == |fields|
      then Many(seq(|fields|, i requires 0 <= i < |fields| => Load(fields[i], o.items[i], memory)))
      else Unit
    case Tagged(alts) => if o.SPick? && o.tag < |alts| then Pick(o.tag, Load(alts[o.tag], o.body, memory)) else Unit
    case Framed(_, payload) => if o.SPresent? then Present(Load(payload, o.inner, memory)) else Absent
  }

  lemma {:induction false} ShownIsLoaded(s: Schema, o: Stored, v: Value, memory: seq<Cell>)
    requires Shows(s, o, v, memory)
    ensures Load(s, o, memory) == v
    decreases s
  {
    match s
    case Repeat(_, elem) =>
      forall i | 0 <= i < |v.items|
        ensures Load(elem, ObjectAt(memory, Place(o.at, i, o.width)), memory) == v.items[i]
      {
        assert ShowsAt(elem, Place(o.at, i, o.width), o.width, v.items[i], memory);
        ShownIsLoaded(elem, ObjectAt(memory, Place(o.at, i, o.width)), v.items[i], memory);
      }
      assert Load(s, o, memory).items == v.items;
    case Record(fields, _) =>
      forall i | 0 <= i < |fields| ensures Load(fields[i], o.items[i], memory) == v.items[i] {
        ShownIsLoaded(fields[i], o.items[i], v.items[i], memory);
      }
      assert Load(s, o, memory).items == v.items;
    case Tagged(alts) => ShownIsLoaded(alts[v.tag], o.body, v.body, memory);
    case Framed(_, payload) => if v.Present? { ShownIsLoaded(payload, o.inner, v.inner, memory); }
    case _ =>
  }

  // ---- what later writes leave alone

  /** No byte of an object was written over. */
  predicate Grows(before: seq<Cell>, after: seq<Cell>) {
    |before| == |after| && forall p :: 0 <= p < |before| && before[p].Piece? ==> after[p] == before[p]
  }

  predicate SameBelow(before: seq<Cell>, after: seq<Cell>, n: nat) {
    |before| == |after| && n <= |before| && forall p :: 0 <= p < n ==> after[p] == before[p]
  }

  predicate FreeFrom(memory: seq<Cell>, n: nat) {
    forall p :: n <= p < |memory| ==> memory[p].Free?
  }

  lemma {:induction false} StillShows(s: Schema, o: Stored, v: Value, before: seq<Cell>, after: seq<Cell>)
    requires Shows(s, o, v, before) && Grows(before, after)
    ensures Shows(s, o, v, after)
    decreases s, 1
  {
    match s
    case Repeat(_, elem) =>
      forall i | 0 <= i < |v.items| ensures ShowsAt(elem, Place(o.at, i, o.width), o.width, v.items[i], after) {
        StillShowsAt(elem, Place(o.at, i, o.width), o.width, v.items[i], before, after);
      }
    case Record(fields, _) =>
      forall i | 0 <= i < |fields| ensures Shows(fields[i], o.items[i], v.items[i], after) {
        StillShows(fields[i], o.items[i], v.items[i], before, after);
      }
    case Tagged(alts) => StillShows(alts[v.tag], o.body, v.body, before, after);
    case Framed(_, payload) => if v.Present? { StillShows(payload, o.inner, v.inner, before, after); }
    case _ =>
  }

  lemma {:induction false} StillShowsAt(s: Schema, a: nat, width: nat, v: Value, before: seq<Cell>, after: seq<Cell>)
    requires ShowsAt(s, a, width, v, before) && Grows(before, after)
    ensures ShowsAt(s, a, width, v, after)
    decreases s, 2
  {
    var o := ObjectAt(before, a);
    assert before[a] == Piece(o, 0);
    StillShows(s, o, v, before, after);
  }

  // ---- when a list is carved

  /** The check that so many elements of list `j` remain, right after its count. */
  predicate AnnouncedBy(fields: seq<Schema>, j: nat, i: nat)
    requires j < |fields| && fields[j].Repeat?
  {
    0 < i <= j && fields[i - 1].Ahead? && |fields[i - 1].terms| == 1 && fields[i - 1].terms[0].0 == fields[j].count
  }

  function Announced(fields: seq<Schema>, j: nat, i: nat): (r: nat)
    requires j < |fields| && fields[j].Repeat? && i <= j
    ensures r == 0 || AnnouncedBy(fields, j, r)
    decreases j - i
  {
    if AnnouncedBy(fields, j, i) then i else if i == j then 0 else Announced(fields, j, i + 1)
  }

  function RunStart(fields: seq<Schema>, j: nat): (r: nat)
    requires j < |fields|
    ensures r <= j && forall i :: r <= i < j ==> fields[i].Repeat?
  {
    if j > 0 && fields[j - 1].Repeat? then RunStart(fields, j - 1) else j
  }

  /** Before which field list `j` is carved: after the check that announces it
      alone, else with the lists it follows directly. */
  function Moment(fields: seq<Schema>, j: nat): nat
    requires j < |fields| && fields[j].Repeat?
  {
    if Announced(fields, j, 0) > 0 then Announced(fields, j, 0) else RunStart(fields, j)
  }

  lemma MomentAfterCount(fields: seq<Schema>, j: nat)
    requires j < |fields| && fields[j].Repeat? && forall i :: 0 <= i < |fields| ==> InPlace(fields, i)
    ensures fields[j].count < Moment(fields, j) <= j
  {
    assert InPlace(fields, j);
    var a := Announced(fields, j, 0);
    if a > 0 {
      assert InPlace(fields, a - 1);
    }
  }

  // ---- how much storage a decode may take

  /** The most storage a decoded value takes: the greatest count of each list, and
      what its alignment may waste. */
  function Room(s: Schema, shape: Schema -> Shape): nat
    decreases s, 1
  {
    match s
    case Record(fields, _) => InnerRoom(s, shape, |fields|) + OwnRoom(fields, shape, |fields|)
    case Tagged(alts) => MostRoom(s, shape, |alts|)
    case Framed(_, payload) => Room(payload, shape)
    case _ => 0
  }

  function MostRoom(s: Schema, shape: Schema -> Shape, n: nat): nat
    requires s.Tagged? && n <= |s.alts|
    decreases s, 0, n
  {
    if n == 0 then 0
    else
      var most, last := MostRoom(s, shape, n - 1), Room(s.alts[n - 1], shape);
      if last > most then last else most
  }

  /** The most elements of a list of the record. */
  function Most(fields: seq<Schema>, count: nat): nat {
    if count < |fields| && fields[count].Number? then fields[count].hi else 0
  }

  /** What the first `k` fields' values, or the elements of their lists, take. */
  function InnerRoom(s: Schema, shape: Schema -> Shape, k: nat): nat
    requires s.Record? && k <= |s.fields|
    decreases s, 0, k
  {
    if k == 0 then 0
    else
      InnerRoom(s, shape, k - 1)
      + if s.fields[k - 1].Repeat? then Most(s.fields, s.fields[k - 1].count) * Room(s.fields[k - 1].elem, shape)
        else Room(s.fields[k - 1], shape)
  }

  /** What the lists among the first `k` fields take themselves. */
  function OwnRoom(fields: seq<Schema>, shape: Schema -> Shape, k: nat): nat
    requires k <= |fields|
  {
    if k == 0 then 0
    else OwnRoom(fields, shape, k - 1) + if fields[k - 1].Repeat? then ListRoom(fields, shape, k - 1) else 0
  }

  function ListRoom(fields: seq<Schema>, shape: Schema -> Shape, j: nat): nat
    requires j < |fields| && fields[j].Repeat?
  {
    Most(fields, fields[j].count) * shape(fields[j].elem).width + shape(fields[j].elem).align - 1
  }

  /** What those of them take that were carved so far. */
  function CarvedRoom(fields: seq<Schema>, shape: Schema -> Shape, k: nat, m: nat, upto: nat): nat
    requires k <= |fields|
  {
    if k == 0 then 0
    else CarvedRoom(fields, shape, k - 1, m, upto) + if Due(fields, k - 1, m, upto) then ListRoom(fields, shape, k - 1) else 0
  }

  function Carved(fields: seq<Schema>, shape: Schema -> Shape, m: nat, upto: nat): nat {
    CarvedRoom(fields, shape, |fields|, m, upto)
  }

  lemma {:induction false} CarvedNothing(fields: seq<Schema>, shape: Schema -> Shape, k: nat)
    requires k <= |fields|
    ensures CarvedRoom(fields, shape, k, 0, 0) == 0
  {
    hide Moment;
    if k > 0 {
      CarvedNothing(fields, shape, k - 1);
    }
  }

  lemma {:induction false} CarvedOne(fields: seq<Schema>, shape: Schema -> Shape, k: nat, m: nat, j: nat)
    requires k <= |fields| && j < |fields|
    ensures CarvedRoom(fields, shape, k, m, j + 1) == CarvedRoom(fields, shape, k, m, j)
            + if j < k && fields[j].Repeat? && Moment(fields, j) == m then ListRoom(fields, shape, j) else 0
  {
    hide Moment, ListRoom;
    if k > 0 {
      CarvedOne(fields, shape, k - 1, m, j);
    }
  }

  lemma {:induction false} CarvedMore(fields: seq<Schema>, shape: Schema -> Shape, k: nat, m: nat, a: nat, b: nat)
    requires k <= |fields| && a <= b
    ensures CarvedRoom(fields, shape, k, m, a) <= CarvedRoom(fields, shape, k, m, b)
  {
    hide Moment, ListRoom;
    if k > 0 {
      CarvedMore(fields, shape, k - 1, m, a, b);
    }
  }

  lemma {:induction false} CarvedNext(fields: seq<Schema>, shape: Schema -> Shape, k: nat, m: nat)
    requires k <= |fields| && forall i :: 0 <= i < |fields| ==> InPlace(fields, i)
    ensures CarvedRoom(fields, shape, k, m + 1, m + 1) == CarvedRoom(fields, shape, k, m, |fields|)
  {
    hide Moment, ListRoom, InPlace;
    if k > 0 {
      CarvedNext(fields, shape, k - 1, m);
      if fields[k - 1].Repeat? {
        MomentAfterCount(fields, k - 1);
      }
    }
  }

  lemma {:induction false} CarvedAtMost(fields: seq<Schema>, shape: Schema -> Shape, k: nat, m: nat, upto: nat)
    requires k <= |fields|
    ensures CarvedRoom(fields, shape, k, m, upto) <= OwnRoom(fields, shape, k)
  {
    hide Moment, ListRoom;
    if k > 0 {
      CarvedAtMost(fields, shape, k - 1, m, upto);
    }
  }

  lemma {:induction false} InnerAtMost(s: Schema, shape: Schema -> Shape, i: nat, k: nat)
    requires s.Record? && i <= k <= |s.fields|
    ensures InnerRoom(s, shape, i) <= InnerRoom(s, shape, k)
    decreases k
  {
    hide Room, Most;
    if i < k {
      InnerAtMost(s, shape, i, k - 1);
    }
  }

  lemma {:induction false} MostIsMost(s: Schema, shape: Schema -> Shape, n: nat, i: nat)
    requires s.Tagged? && i < n <= |s.alts|
    ensures Room(s.alts[i], shape) <= MostRoom(s, shape, n)
    decreases n
  {
    hide Room;
    if i < n - 1 {
      MostIsMost(s, shape, n - 1, i);
    }
  }

  // ---- carving and filling one list

  /** The memory behind the storage; what was not carved is free. */
  ghost predicate Backed(storage: DecodeStorage, memory: array<Cell>)
    reads storage, memory
  {
    storage.Valid() && memory.Length == storage.limit && FreeFrom(memory[..], storage.at)
  }

  predicate BlankIn(memory: seq<Cell>, from: nat, to: nat) {
    to <= |memory| && forall p :: from <= p < to ==> memory[p].Blank?
  }

  /** What a step delivered is what decoding on values gives. */
  predicate Delivered(s: Schema, r: Option<Stored>, d: Option<(Value, seq<byte>)>, rest: seq<byte>, memory: seq<Cell>) {
    match d
    case None => r.None?
    case Some((v, end)) => r.Some? && rest == end && Shows(s, r.value, v, memory)
  }

  /** Carves a list and makes its elements default. */
  method Carve(n: nat, shape: Shape, storage: DecodeStorage, memory: array<Cell>) returns (place: Option<Extent>)
    requires Backed(storage, memory)
    modifies storage, memory
    ensures Backed(storage, memory) && old(storage.at) <= storage.at
    ensures SameBelow(old(memory[..]), memory[..], old(storage.at))
    ensures storage.refusals == if place.None? then old(storage.refusals) + 1 else old(storage.refusals)
    ensures place.None? ==> old(storage.at) + n * shape.width + shape.align - 1 > storage.limit
    ensures storage.at <= old(storage.at) + n * shape.width + shape.align - 1
    ensures place.Some? ==>
      old(storage.at) <= place.value.at && place.value.at + place.value.bytes <= storage.at
      && place.value.bytes == n * shape.width && BlankIn(memory[..], place.value.at, place.value.at + place.value.bytes)
  {
    PaddingAligns(storage.at, shape.align);
    place := storage.Allocate(n, shape.width, shape.align);
    if place.None? {
      return;
    }
    var from, to := place.value.at, place.value.at + place.value.bytes;
    for p := from to to
      modifies memory
      invariant forall q :: 0 <= q < from || p <= q < memory.Length ==> memory[q] == old(memory[q])
      invariant BlankIn(memory[..], from, p)
    {
      memory[p] := Blank;
    }
  }

  /** Copies an object into its place, byte by byte. */
  method Put(obj: Stored, a: nat, width: nat, memory: array<Cell>)
    requires 0 < width && BlankIn(memory[..], a, a + width)
    modifies memory
    ensures Lives(memory[..], a, width, obj) && Grows(old(memory[..]), memory[..])
    ensures forall p :: 0 <= p < memory.Length && !(a <= p < a + width) ==> memory[p] == old(memory[p])
  {
    ghost var before := memory[..];
    for p := a to a + width
      invariant forall q :: 0 <= q < memory.Length && !(a <= q < p) ==> memory[q] == old(memory[q])
      invariant forall q :: a <= q < p ==> memory[q] == Piece(obj, q - a)
    {
      memory[p] := Piece(obj, p - a);
    }
    forall p | 0 <= p < |before| && before[p].Piece? ensures memory[..][p] == before[p] {
      assert p < a || a + width <= p;
    }
  }

  // ---- lists held for later fields

  /** List `j` is carved before field `m`, or before it among the lists carved there. */
  predicate Due(fields: seq<Schema>, j: nat, m: nat, upto: nat)
    requires j < |fields|
  {
    fields[j].Repeat? && (Moment(fields, j) < m || (Moment(fields, j) == m && j < upto))
  }

  predicate Held(list: Schema, known: Context, place: Extent, shape: Schema -> Shape, start: nat, top: nat, memory: seq<Cell>)
    requires list.Repeat?
  {
    list.count < |known| && known[list.count].Num? && place.bytes == known[list.count].n * shape(list.elem).width
    && start <= place.at && place.at + place.bytes <= top && BlankIn(memory, place.at, place.at + place.bytes)
  }

  /** The lists from field `from` on that were carved are default and apart. */
  predicate AllHeld(fields: seq<Schema>, known: Context, places: seq<Extent>, from: nat, m: nat, upto: nat,
                    shape: Schema -> Shape, start: nat, top: nat, memory: seq<Cell>)
    requires |places| == |fields|
  {
    (forall j :: from <= j < |fields| && Due(fields, j, m, upto) ==> Held(fields[j], known, places[j], shape, start, top, memory))
    && (forall j, k :: from <= j < k < |fields| && Due(fields, j, m, upto) && Due(fields, k, m, upto) ==> Apart(places[j], places[k]))
  }

  /** A count that was read is at hand. */
  predicate CountsKnown(fields: seq<Schema>, known: Context) {
    |known| <= |fields| && forall c :: 0 <= c < |known| && fields[c].Number? ==> known[c].Num? && known[c].n <= fields[c].hi
  }

  /** Carves the lists due before field `i`. */
  method CarveLists(fields: seq<Schema>, i: nat, known: Context, places: seq<Extent>, shape: Schema -> Shape, ghost start: nat,
                    storage: DecodeStorage, memory: array<Cell>) returns (r: Option<seq<Extent>>)
    requires |places| == |fields| && i == |known| < |fields| && CountsKnown(fields, known)
    requires forall j :: 0 <= j < |fields| ==> InPlace(fields, j)
    requires Backed(storage, memory) && start <= storage.at
    requires AllHeld(fields, known, places, i, i, 0, shape, start, storage.at, memory[..])
    modifies storage, memory
    ensures Backed(storage, memory) && old(storage.at) <= storage.at
    ensures SameBelow(old(memory[..]), memory[..], old(storage.at))
    ensures if r.None? then storage.refusals > old(storage.refusals) else storage.refusals == old(storage.refusals)
    ensures storage.at + Carved(fields, shape, i, i) <= old(storage.at) + Carved(fields, shape, i, |fields|)
    ensures r.None? ==> old(storage.at) + Carved(fields, shape, i, |fields|) > storage.limit + Carved(fields, shape, i, i)
    ensures r.Some? ==>
      |r.value| == |fields| && AllHeld(fields, known, r.value, i, i, |fields|, shape, start, storage.at, memory[..])
  {
    hide InPlace, Moment;
    var next := places;
    for j := i to |fields|
      invariant |next| == |fields|
      invariant Backed(storage, memory) && old(storage.at) <= storage.at && storage.refusals == old(storage.refusals)
      invariant SameBelow(old(memory[..]), memory[..], old(storage.at))
      invariant AllHeld(fields, known, next, i, i, j, shape, start, storage.at, memory[..])
      invariant storage.at + Carved(fields, shape, i, i) <= old(storage.at) + Carved(fields, shape, i, j)
    {
      CarvedOne(fields, shape, |fields|, i, j);
      CarvedMore(fields, shape, |fields|, i, j + 1, |fields|);
      if fields[j].Repeat? && Moment(fields, j) == i {
        MomentAfterCount(fields, j);
        CountIsNumber(fields, j);
        Multiply(known[fields[j].count].n, Most(fields, fields[j].count), shape(fields[j].elem).width);
        ghost var before, top := memory[..], storage.at;
        var place := Carve(known[fields[j].count].n, shape(fields[j].elem), storage, memory);
        if place.None? {
          return None;
        }
        StillHeld(fields, known, next, i, i, j, shape, start, top, before, storage.at, memory[..]);
        next := next[j := place.value];
      }
    }
    r := Some(next);
  }

  lemma CountIsNumber(fields: seq<Schema>, j: nat)
    requires j < |fields| && InPlace(fields, j) && fields[j].Repeat?
    ensures fields[j].count < |fields| && fields[fields[j].count].Number?
  {}

  lemma StillHeld(fields: seq<Schema>, known: Context, places: seq<Extent>, from: nat, m: nat, upto: nat,
                  shape: Schema -> Shape, start: nat, top: nat, before: seq<Cell>, newTop: nat, after: seq<Cell>)
    requires |places| == |fields| && AllHeld(fields, known, places, from, m, upto, shape, start, top, before)
    requires top <= newTop && SameBelow(before, after, top)
    ensures AllHeld(fields, known, places, from, m, upto, shape, start, newTop, after)
  {
    hide Due;
    forall j | from <= j < |fields| && Due(fields, j, m, upto)
      ensures fields[j].Repeat? && Held(fields[j], known, places[j], shape, start, newTop, after)
    {
      DueIsList(fields, j, m, upto);
      assert Held(fields[j], known, places[j], shape, start, top, before);
    }
  }

  lemma DueIsList(fields: seq<Schema>, j: nat, m: nat, upto: nat)
    requires j < |fields| && Due(fields, j, m, upto)
    ensures fields[j].Repeat?
  {}

  /** The lists still to be filled after field `i` was decoded: only its own list was written. */
  lemma HeldForNext(fields: seq<Schema>, known: Context, x: Value, places: seq<Extent>, i: nat,
                    shape: Schema -> Shape, start: nat, top: nat, before: seq<Cell>, newTop: nat, after: seq<Cell>)
    requires |places| == |fields| && i < |fields| && forall j :: 0 <= j < |fields| ==> InPlace(fields, j)
    requires AllHeld(fields, known, places, i, i, |fields|, shape, start, top, before)
    requires top <= newTop && top <= |before| == |after|
    requires forall p :: 0 <= p < top && !(fields[i].Repeat? && places[i].at <= p < places[i].at + places[i].bytes) ==> after[p] == before[p]
    ensures AllHeld(fields, known + [x], places, i + 1, i + 1, 0, shape, start, newTop, after)
  {
    hide InPlace, Moment;
    forall j | i + 1 <= j < |fields| && Due(fields, j, i + 1, 0)
      ensures Held(fields[j], known + [x], places[j], shape, start, newTop, after)
    {
      assert Due(fields, j, i, |fields|);
      assert Held(fields[j], known, places[j], shape, start, top, before);
      if fields[i].Repeat? {
        MomentAfterCount(fields, i);
        assert Due(fields, i, i, |fields|);
        assert Apart(places[i], places[j]);
      }
    }
    forall j, k | i + 1 <= j < k < |fields| && Due(fields, j, i + 1, 0) && Due(fields, k, i + 1, 0)
      ensures Apart(places[j], places[k])
    {
      assert Due(fields, j, i, |fields|) && Due(fields, k, i, |fields|);
    }
  }

  // ---- the decoder

  predicate ListSoFar(s: Schema, at: nat, width: nat, values: seq<Value>, memory: seq<Cell>) {
    forall i :: 0 <= i < |values| ==> ShowsAt(s, Place(at, i, width), width, values[i], memory)
  }

  lemma ListStill(s: Schema, at: nat, width: nat, values: seq<Value>, before: seq<Cell>, after: seq<Cell>)
    requires ListSoFar(s, at, width, values, before) && Grows(before, after)
    ensures ListSoFar(s, at, width, values, after)
  {
    forall i | 0 <= i < |values| ensures ShowsAt(s, Place(at, i, width), width, values[i], after) {
      StillShowsAt(s, Place(at, i, width), width, values[i], before, after);
    }
  }

  lemma PlaceInside(at: nat, i: nat, n: nat, width: nat)
    requires i < n
    ensures Place(at, i + 1, width) == Place(at, i, width) + width <= at + n * width
    ensures at <= Place(at, i, width)
  {
    Multiply(i + 1, n, width);
    Multiply(0, i, width);
  }

  lemma PlaceEnds(at: nat, n: nat, width: nat)
    ensures Place(at, 0, width) == at && Place(at, n, width) == at + n * width
  {}

  /** Fills a list carved before. Nothing below the storage's mark changes but the list. */
  method FillList(list: Schema, place: Extent, n: nat, shape: Schema -> Shape,
                  input: InputSpan, storage: DecodeStorage, memory: array<Cell>) returns (ok: bool)
    requires list.Repeat? && WellFormed(list) && Backed(storage, memory)
    requires place.bytes == n * shape(list.elem).width && place.at + place.bytes <= storage.at
    requires BlankIn(memory[..], place.at, place.at + place.bytes)
    modifies input, storage, memory
    ensures Backed(storage, memory) && old(storage.at) <= storage.at && old(storage.refusals) <= storage.refusals
    ensures forall p :: 0 <= p < old(storage.at) && !(place.at <= p < place.at + place.bytes) ==> memory[p] == old(memory[p])
    ensures storage.at <= old(storage.at) + n * Room(list.elem, shape)
    ensures old(storage.at) + n * Room(list.elem, shape) <= storage.limit ==> storage.refusals == old(storage.refusals)
    ensures storage.refusals > old(storage.refusals) ==> !ok
    ensures storage.refusals == old(storage.refusals) ==>
      match DecodeMany(list, n, old(input.rest))
      case None => !ok
      case Some((items, rest)) =>
        ok && input.rest == rest && Shows(list, SList(place.at, n, shape(list.elem).width), Many(items), memory[..])
    decreases list, 0
  {
    hide Shows, Place, ShowsAt, Lives, Decode, Standalone, Room;
    var width: nat := shape(list.elem).width;
    ghost var room := Room(list.elem, shape);
    PlaceEnds(place.at, n, width);
    PlaceEnds(storage.at, n, room);
    ghost var whole, values: seq<Value> := DecodeMany(list, n, input.rest), [];
    assert whole.Some? ==> values + whole.value.0 == whole.value.0;
    for i := 0 to n
      invariant Backed(storage, memory) && old(storage.at) <= storage.at && storage.refusals == old(storage.refusals)
      invariant forall p :: 0 <= p < old(storage.at) && !(place.at <= p < place.at + place.bytes) ==> memory[p] == old(memory[p])
      invariant BlankIn(memory[..], Place(place.at, i, width), place.at + place.bytes)
      invariant storage.at <= Place(old(storage.at), i, room)
      invariant |values| == i && ListSoFar(list.elem, place.at, width, values, memory[..])
      invariant match DecodeMany(list, n - i, input.rest)
                case None => whole == None
                case Some((items, rest)) => whole == Some((values + items, rest))
    {
      PlaceInside(place.at, i, n, width);
      PlaceInside(old(storage.at), i, n, room);
      ghost var before, v := memory[..], Decode(list.elem, [], input.rest);
      var obj := DecodeStored(list.elem, shape, input, storage, memory);
      if obj.None? {
        return false;
      }
      ghost var middle := memory[..];
      Put(obj.value, Place(place.at, i, width), width, memory);
      ListStill(list.elem, place.at, width, values, before, middle);
      ListStill(list.elem, place.at, width, values, middle, memory[..]);
      PutShows(list.elem, Place(place.at, i, width), width, obj.value, v.value.0, middle, memory[..]);
      assert forall items: seq<Value> :: values + ([v.value.0] + items) == (values + [v.value.0]) + items;
      values := values + [v.value.0];
    }
    ok := true;
    assert values + [] == values;
    ListShows(list, place.at, width, values, memory[..]);
  }

  lemma PutShows(s: Schema, a: nat, width: nat, o: Stored, v: Value, before: seq<Cell>, after: seq<Cell>)
    requires Shows(s, o, v, before) && Grows(before, after) && Lives(after, a, width, o)
    ensures ShowsAt(s, a, width, v, after)
  {
    StillShows(s, o, v, before, after);
    assert after[a] == Piece(o, 0);
  }

  lemma ListShows(list: Schema, at: nat, width: nat, values: seq<Value>, memory: seq<Cell>)
    requires list.Repeat? && ListSoFar(list.elem, at, width, values, memory)
    ensures Shows(list, SList(at, |values|, width), Many(values), memory)
  {}

  /** What the program knows of the fields read so far agrees with their values. */
  predicate SameNumbers(known: Context, values: Context) {
    |known| == |values|
    && forall c :: 0 <= c < |known| ==> (known[c].Num? <==> values[c].Num?) && (known[c].Num? ==> known[c] == values[c])
  }

  function Known(o: Stored): Value {
    if o.SNum? then Num(o.n) else Unit
  }

  lemma {:induction false} SameDemand(known: Context, values: Context, terms: seq<(nat, nat)>)
    requires SameNumbers(known, values)
    ensures Demand(known, terms) == Demand(values, terms)
    decreases |terms|
  {
    if terms != [] {
      SameDemand(known, values, terms[1..]);
    }
  }

  lemma KnownShown(s: Schema, o: Stored, v: Value, memory: seq<Cell>)
    requires Shows(s, o, v, memory)
    ensures Known(o).Num? <==> v.Num?
    ensures v.Num? ==> Known(o) == v
    ensures s.Number? ==> v.Num?
  {}

  function FieldRoom(f: Schema, known: Context, shape: Schema -> Shape): nat {
    if !f.Repeat? then Room(f, shape)
    else if f.count < |known| && known[f.count].Num? then known[f.count].n * Room(f.elem, shape)
    else 0
  }

  /** One field of a record; `place` is where its list was carved, when it is one. */
  method DecodeField(f: Schema, known: Context, ghost values: Context, place: Extent, shape: Schema -> Shape,
                     input: InputSpan, storage: DecodeStorage, memory: array<Cell>) returns (r: Option<Stored>)
    requires WellFormed(f) && Backed(storage, memory) && SameNumbers(known, values)
    requires f.Repeat? ==> Held(f, known, place, shape, 0, storage.at, memory[..])
    modifies input, storage, memory
    ensures Backed(storage, memory) && old(storage.at) <= storage.at && old(storage.refusals) <= storage.refusals
    ensures forall p :: 0 <= p < old(storage.at) && !(f.Repeat? && place.at <= p < place.at + place.bytes) ==>
      memory[p] == old(memory[p])
    ensures storage.at <= old(storage.at) + FieldRoom(f, known, shape)
    ensures old(storage.at) + FieldRoom(f, known, shape) <= storage.limit ==> storage.refusals == old(storage.refusals)
    ensures storage.refusals > old(storage.refusals) ==> r.None?
    ensures storage.refusals == old(storage.refusals) ==>
      Delivered(f, r, Decode(f, values, old(input.rest)), input.rest, memory[..])
    decreases f, 4
  {
    if f.Ahead? {
      SameDemand(known, values, f.terms);
      r := if Demand(known, f.terms) > |input.rest| then None else Some(SUnit);
    } else if f.Blob? {
      if f.count >= |known| || !known[f.count].Num? {
        return None;
      }
      var bytes := input.TakeBytes(known[f.count].n);
      r := if bytes.Some? then Some(SRaw(bytes.value)) else None;
    } else if f.Repeat? {
      var ok := FillList(f, place, known[f.count].n, shape, input, storage, memory);
      r := if ok then Some(SList(place.at, known[f.count].n, shape(f.elem).width)) else None;
    } else {
      r := DecodeStored(f, shape, input, storage, memory);
      AnyContext(f, values, old(input.rest));
    }
  }

  lemma AnyContext(s: Schema, context: Context, input: seq<byte>)
    requires Standalone(s)
    ensures Decode(s, context, input) == Decode(s, [], input)
  {}

  predicate FieldsShow(fields: seq<Schema>, items: seq<Stored>, values: seq<Value>, memory: seq<Cell>) {
    |items| == |values| <= |fields| && forall i :: 0 <= i < |items| ==> Shows(fields[i], items[i], values[i], memory)
  }

  lemma FieldsStill(fields: seq<Schema>, items: seq<Stored>, values: seq<Value>, before: seq<Cell>, after: seq<Cell>)
    requires FieldsShow(fields, items, values, before) && Grows(before, after)
    ensures FieldsShow(fields, items, values, after)
  {
    forall i | 0 <= i < |items| ensures Shows(fields[i], items[i], values[i], after) {
      StillShows(fields[i], items[i], values[i], before, after);
    }
  }

  /** The fields of a record in order, each list carved when it is due. */
  method DecodeFieldsStored(s: Schema, shape: Schema -> Shape, input: InputSpan, storage: DecodeStorage, memory: array<Cell>)
    returns (r: Option<seq<Stored>>)
    requires s.Record? && WellFormed(s) && Backed(storage, memory)
    modifies input, storage, memory
    ensures Backed(storage, memory) && old(storage.at) <= storage.at && old(storage.refusals) <= storage.refusals
    ensures SameBelow(old(memory[..]), memory[..], old(storage.at))
    ensures storage.at <= old(storage.at) + Room(s, shape)
    ensures old(storage.at) + Room(s, shape) <= storage.limit ==> storage.refusals == old(storage.refusals)
    ensures storage.refusals > old(storage.refusals) ==> r.None?
    ensures storage.refusals == old(storage.refusals) ==>
      match DecodeFields(s, [], old(input.rest))
      case None => r.None?
      case Some((values, rest)) => r.Some? && input.rest == rest && FieldsShow(s.fields, r.value, values, memory[..])
    decreases s, 2
  {
    hide InPlace, AllHeld, Decode, Shows, Standalone, Known, SameNumbers, CountsKnown, FieldsShow, InnerRoom, Carved, FieldRoom, Room;
    RoomStarts(s, shape);
    var items: seq<Stored>, known: Context := [], [];
    var places := seq(|s.fields|, _ => Extent(0, 0, 1));
    ghost var values, start: nat := [], storage.at;
    NothingRead(s.fields, memory[..]);
    NothingDue(s.fields, known, places, shape, start, memory[..]);
    while |items| < |s.fields|
      invariant |items| == |known| == |values| <= |s.fields| == |places|
      invariant Backed(storage, memory) && start <= storage.at && storage.refusals == old(storage.refusals)
      invariant SameBelow(old(memory[..]), memory[..], start)
      invariant FieldsShow(s.fields, items, values, memory[..])
      invariant SameNumbers(known, values) && CountsKnown(s.fields, known)
      invariant DecodeFields(s, values, input.rest) == DecodeFields(s, [], old(input.rest))
      invariant AllHeld(s.fields, known, places, |items|, |items|, 0, shape, start, storage.at, memory[..])
      invariant storage.at <= start + InnerRoom(s, shape, |items|) + Carved(s.fields, shape, |items|, |items|)
    {
      ghost var first := memory[..];
      RoomNext(s, shape, |items|, known);
      var carved := CarveLists(s.fields, |items|, known, places, shape, start, storage, memory);
      if carved.None? {
        return None;
      }
      places := carved.value;
      ghost var input0 := input.rest;
      ghost var before, top, v := memory[..], storage.at, Decode(s.fields[|items|], values, input0);
      FieldHeld(s.fields, known, places, |items|, shape, start, top, before);
      var o := DecodeField(s.fields[|items|], known, values, places[|items|], shape, input, storage, memory);
      if o.None? {
        return None;
      }
      FieldsStill(s.fields, items, values, first, before);
      DecodedNumber(s.fields[|items|], values, input0);
      FieldsNext(s.fields, items, values, known, o.value, v.value.0, before, memory[..]);
      HeldForNext(s.fields, known, Known(o.value), places, |items|, shape, start, top, before, storage.at, memory[..]);
      items, known, values := items + [o.value], known + [Known(o.value)], values + [v.value.0];
    }
    RoomEnds(s, shape);
    r := Some(items);
  }

  lemma RoomEnds(s: Schema, shape: Schema -> Shape)
    requires s.Record?
    ensures InnerRoom(s, shape, |s.fields|) + Carved(s.fields, shape, |s.fields|, |s.fields|) <= Room(s, shape)
  {
    CarvedAtMost(s.fields, shape, |s.fields|, |s.fields|, |s.fields|);
  }

  lemma RoomStarts(s: Schema, shape: Schema -> Shape)
    requires s.Record?
    ensures InnerRoom(s, shape, 0) == Carved(s.fields, shape, 0, 0) == 0
  {
    CarvedNothing(s.fields, shape, |s.fields|);
  }

  /** What one more field may take, its turn's lists included, stays within the room. */
  lemma RoomNext(s: Schema, shape: Schema -> Shape, i: nat, known: Context)
    requires s.Record? && WellFormed(s) && i < |s.fields| && i == |known| && CountsKnown(s.fields, known)
    ensures InnerRoom(s, shape, i) + FieldRoom(s.fields[i], known, shape) <= InnerRoom(s, shape, i + 1)
    ensures Carved(s.fields, shape, i + 1, i + 1) == Carved(s.fields, shape, i, |s.fields|)
    ensures InnerRoom(s, shape, i + 1) + Carved(s.fields, shape, i, |s.fields|) <= Room(s, shape)
    ensures Carved(s.fields, shape, i, i) <= Carved(s.fields, shape, i, |s.fields|)
  {
    var f := s.fields[i];
    assert InPlace(s.fields, i);
    if f.Repeat? {
      Multiply(known[f.count].n, Most(s.fields, f.count), Room(f.elem, shape));
    }
    hide InPlace, CarvedRoom;
    CarvedNext(s.fields, shape, |s.fields|, i);
    CarvedAtMost(s.fields, shape, |s.fields|, i, |s.fields|);
    CarvedMore(s.fields, shape, |s.fields|, i, i, |s.fields|);
    InnerAtMost(s, shape, i + 1, |s.fields|);
  }

  lemma DecodedNumber(f: Schema, context: Context, input: seq<byte>)
    ensures f.Number? && Decode(f, context, input).Some? ==>
      Decode(f, context, input).value.0.Num? && Decode(f, context, input).value.0.n <= f.hi
  {}

  lemma NothingRead(fields: seq<Schema>, memory: seq<Cell>)
    ensures FieldsShow(fields, [], [], memory) && SameNumbers([], []) && CountsKnown(fields, [])
  {}

  lemma FieldsNext(fields: seq<Schema>, items: seq<Stored>, values: seq<Value>, known: Context, o: Stored, v: Value,
                   before: seq<Cell>, after: seq<Cell>)
    requires FieldsShow(fields, items, values, before) && SameNumbers(known, values) && CountsKnown(fields, known)
    requires |items| < |fields| && Shows(fields[|items|], o, v, after) && Grows(before, after)
    requires fields[|items|].Number? ==> v.Num? && v.n <= fields[|items|].hi
    ensures FieldsShow(fields, items + [o], values + [v], after)
    ensures SameNumbers(known + [Known(o)], values + [v]) && CountsKnown(fields, known + [Known(o)])
  {
    hide Known, Shows;
    FieldsStill(fields, items, values, before, after);
    KnownShown(fields[|items|], o, v, after);
  }

  lemma NothingDue(fields: seq<Schema>, known: Context, places: seq<Extent>, shape: Schema -> Shape, top: nat, memory: seq<Cell>)
    requires |places| == |fields| && forall i :: 0 <= i < |fields| ==> InPlace(fields, i)
    ensures AllHeld(fields, known, places, 0, 0, 0, shape, top, top, memory)
  {}

  lemma FieldHeld(fields: seq<Schema>, known: Context, places: seq<Extent>, i: nat,
                  shape: Schema -> Shape, start: nat, top: nat, memory: seq<Cell>)
    requires i < |fields| == |places| && forall j :: 0 <= j < |fields| ==> InPlace(fields, j)
    requires AllHeld(fields, known, places, i, i, |fields|, shape, start, top, memory)
    ensures fields[i].Repeat? ==> Held(fields[i], known, places[i], shape, start, top, memory)
  {
    hide InPlace, Moment;
    if fields[i].Repeat? {
      MomentAfterCount(fields, i);
      assert Due(fields, i, i, |fields|);
    }
  }

  /** Decodes one object. Unless the storage refused a list, the outcome is that of
      decoding on values, and the object in memory is the value decoded. Everything that
      was in the storage before is left as it was. */
  method DecodeStored(s: Schema, shape: Schema -> Shape, input: InputSpan, storage: DecodeStorage, memory: array<Cell>)
    returns (r: Option<Stored>)
    requires WellFormed(s) && Standalone(s) && Backed(storage, memory)
    modifies input, storage, memory
    ensures Backed(storage, memory) && old(storage.at) <= storage.at && old(storage.refusals) <= storage.refusals
    ensures SameBelow(old(memory[..]), memory[..], old(storage.at))
    ensures storage.at <= old(storage.at) + Room(s, shape)
    ensures old(storage.at) + Room(s, shape) <= storage.limit ==> storage.refusals == old(storage.refusals)
    ensures storage.refusals > old(storage.refusals) ==> r.None?
    ensures storage.refusals == old(storage.refusals) ==>
      Delivered(s, r, Decode(s, [], old(input.rest)), input.rest, memory[..])
    decreases s, 3
  {
    if s.Number? {
      var n := input.TakeNumber(s.width);
      r := if n.Some? && s.lo <= n.value <= s.hi then Some(SNum(n.value)) else None;
    } else if s.Record? {
      var items := DecodeFieldsStored(s, shape, input, storage, memory);
      if items.None? {
        return None;
      }
      ghost var values := DecodeFields(s, [], old(input.rest)).value.0;
      r := Some(SRecord(items.value));
      ShownIsLoaded(s, r.value, Many(values), memory[..]);
      if !s.rule(Load(s, r.value, memory[..])) {
        r := None;
      }
    } else if s.Tagged? {
      ghost var start := input.rest;
      var tag := input.TakeNumber(1);
      if tag.Some? {
        assert start[..1][1..] == [] && FromLittleEndian(start[..1]) == start[0];
      }
      if tag.None? || tag.value >= |s.alts| {
        return None;
      }
      MostIsMost(s, shape, |s.alts|, tag.value);
      var body := DecodeStored(s.alts[tag.value], shape, input, storage, memory);
      r := if body.Some? then Some(SPick(tag.value, body.value)) else None;
    } else {
      r := DecodeFramed(s, shape, input, storage, memory);
    }
  }

  method DecodeFramed(s: Schema, shape: Schema -> Shape, input: InputSpan, storage: DecodeStorage, memory: array<Cell>)
    returns (r: Option<Stored>)
    requires s.Framed? && WellFormed(s) && Backed(storage, memory)
    modifies input, storage, memory
    ensures Backed(storage, memory) && old(storage.at) <= storage.at && old(storage.refusals) <= storage.refusals
    ensures SameBelow(old(memory[..]), memory[..], old(storage.at))
    ensures storage.at <= old(storage.at) + Room(s, shape)
    ensures old(storage.at) + Room(s, shape) <= storage.limit ==> storage.refusals == old(storage.refusals)
    ensures storage.refusals > old(storage.refusals) ==> r.None?
    ensures storage.refusals == old(storage.refusals) ==>
      Delivered(s, r, Decode(s, [], old(input.rest)), input.rest, memory[..])
    decreases s, 2
  {
    var length := input.TakeNumber(4);
    if length.None? {
      return None;
    }
    if length.value == 0 {
      return Some(SAbsent);
    }
    if length.value > s.limit {
      return None;
    }
    var bytes := input.TakeBytes(length.value);
    if bytes.None? {
      return None;
    }
    var part := new InputSpan(bytes.value);
    var inner := DecodeStored(s.payload, shape, part, storage, memory);
    r := if inner.Some? && part.rest == [] then Some(SPresent(inner.value)) else None;
  }
}
