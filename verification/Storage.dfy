/** The caller's buffer that decoded lists are carved from
    (codecs/telar_wire.hpp). Addresses are numbers. */
module Storage {
  import opened Wire

  /** A carved list: where it lies and how its elements must be aligned. */
  datatype Extent = Extent(at: nat, bytes: nat, align: nat)

  predicate Apart(a: Extent, b: Extent) {
    a.at + a.bytes <= b.at || b.at + b.bytes <= a.at
  }

  /** An address is aligned when it is a multiple of the alignment. */
  predicate Aligned(address: nat, align: nat) {
    exists k: nat | k <= address :: Steps(k, align) == address
  }

  function Steps(k: nat, align: nat): nat { k * align }

  function Padding(at: nat, align: nat): nat
    requires align > 0
  {
    if at % align == 0 then 0 else align - at % align
  }

  /** What std::align answers: the first aligned address with room, or none. */
  function Align(align: nat, bytes: nat, at: nat, room: nat): (r: Option<nat>)
    requires align > 0
    ensures r.Some? ==> at <= r.value < at + align && Aligned(r.value, align) && r.value + bytes <= at + room
  {
    PaddingAligns(at, align);
    if Padding(at, align) + bytes <= room then Some(at + Padding(at, align)) else None
  }

  lemma PaddingAligns(at: nat, align: nat)
    requires align > 0
    ensures Aligned(at + Padding(at, align), align) && Padding(at, align) < align
  {
    var q, r := at / align, at % align;
    assert at == align * q + r;
    var k := if r == 0 then q else q + 1;
    assert k * align == at + Padding(at, align);
    Multiply(1, align, k);
    assert Steps(k, align) == at + Padding(at, align);
  }

  /** No aligned address before the answer would do: alignment wastes nothing. */
  lemma AlignIsLeast(align: nat, bytes: nat, at: nat, room: nat, other: nat)
    requires align > 0 && at <= other && Aligned(other, align) && other + bytes <= at + room
    ensures Align(align, bytes, at, room).Some? && Align(align, bytes, at, room).value <= other
  {
    PaddingAligns(at, align);
    if other < at + Padding(at, align) {
      NoneBetween(align, at + Padding(at, align), other);
    }
  }

  lemma NoneBetween(align: nat, top: nat, other: nat)
    requires align > 0 && Aligned(top, align) && Aligned(other, align) && other < top
    ensures other + align <= top
  {
    var k: nat :| k <= top && Steps(k, align) == top;
    var j: nat :| j <= other && Steps(j, align) == other;
    if k <= j {
      Multiply(k, j, align);
    } else {
      Multiply(j + 1, k, align);
      assert Steps(j + 1, align) == other + align;
    }
  }

  class DecodeStorage {
    const base: nat
    const limit: nat
    /** What is left: `size` bytes from `at`. */
    var at: nat
    var size: nat
    ghost var carved: seq<Extent>
    /** How often it refused. */
    ghost var refusals: nat

    ghost predicate Valid()
      reads this
    {
      && base <= at && at + size == limit
      && (forall i :: 0 <= i < |carved| ==>
            base <= carved[i].at && carved[i].at + carved[i].bytes <= at && carved[i].align > 0 && Aligned(carved[i].at, carved[i].align))
      && (forall i, j :: 0 <= i < j < |carved| ==> Apart(carved[i], carved[j]))
    }

    constructor (base: nat, size: nat)
      ensures Valid() && carved == [] && refusals == 0 && at == base && limit == base + size
    {
      this.base, limit, at, this.size, carved, refusals := base, base + size, base, size, [], 0;
    }

    /** Carves `count` elements, or refuses and leaves the storage as it was. It
        refuses exactly when no aligned place for them is left. */
    method Allocate(count: nat, width: nat, align: nat) returns (list: Option<Extent>)
      requires Valid() && width > 0 && align > 0
      modifies this
      ensures Valid()
      ensures list.None? ==> at == old(at) && size == old(size) && carved == old(carved)
      ensures refusals == if list.None? then old(refusals) + 1 else old(refusals)
      ensures list.None? <==> count > 0 && forall p :: old(at) <= p && Aligned(p, align) ==> p + count * width > limit
      ensures list.Some? && count == 0 ==> list.value == Extent(at, 0, align) && at == old(at) && carved == old(carved)
      ensures list.Some? && count > 0 ==>
        list.value.bytes == count * width && Aligned(list.value.at, align) && carved == old(carved) + [list.value]
        && old(at) <= list.value.at < old(at) + align && at == list.value.at + list.value.bytes
    {
      if count == 0 {
        return Some(Extent(at, 0, align));
      }
      var bytes := count * width;
      CountFits(count, width, size);
      if count > size / width {
        refusals := refusals + 1;
        return None;
      }
      var place := Align(align, bytes, at, size);
      if place.None? {
        forall p: nat | at <= p && Aligned(p, align) ensures p + bytes > limit {
          if p + bytes <= limit {
            AlignIsLeast(align, bytes, at, size, p);
          }
        }
        refusals := refusals + 1;
        return None;
      }
      var extent := Extent(place.value, bytes, align);
      at, size := place.value + bytes, limit - (place.value + bytes);
      carved := carved + [extent];
      list := Some(extent);
    }
  }

  lemma CountFits(count: nat, width: nat, size: nat)
    requires width > 0
    ensures count > size / width <==> count * width > size
  {
    var q := size / width;
    assert size == width * q + size % width;
    if count <= q {
      Multiply(count, q, width);
    } else {
      Multiply(q + 1, count, width);
    }
  }
}
