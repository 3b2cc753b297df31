/**
 binary_to_list (binary.c).  A binary that starts at any bit of a byte is turned into
 a list from its end, in chunks whose size depends on the reductions that are left.
 */
module BinaryToList {
  import opened Options

  type Byte = x: int | 0 <= x < 256
  type Bit = x: int | 0 <= x < 2

  const BYTES_PER_REDUCTION: nat := 256
  const MIN_EXEC_REDS: nat := 1000

  // ----- the bits of a binary

  function Pow2(n: nat): (p: nat)
    ensures p > 0
  {
    if n == 0 then 1 else 2 * Pow2(n - 1)
  }

  function Value(bits: seq<Bit>): nat {
    if bits == [] then 0 else 2 * Value(bits[..|bits| - 1]) + bits[|bits| - 1]
  }

  /** The last n bits of b, the most significant first. */
  function BitsOf(b: nat, n: nat): (bits: seq<Bit>)
    ensures |bits| == n
    decreases n
  {
    if n == 0 then [] else BitsOf(b / 2, n - 1) + [b % 2]
  }

  function AllBits(bytes: seq<Byte>): (bits: seq<Bit>)
    ensures |bits| == 8 * |bytes|
  {
    if bytes == [] then [] else BitsOf(bytes[0], 8) + AllBits(bytes[1..])
  }

  /** The eight bits from position k on, as a number. */
  function Group(bytes: seq<Byte>, k: nat): nat
    requires k + 8 <= 8 * |bytes|
  {
    Value(AllBits(bytes)[k..k + 8])
  }

  /** The bytes of a binary that starts at bit offs, from byte i up to byte n. */
  function Elements(bytes: seq<Byte>, offs: nat, i: nat, n: nat): seq<int>
    requires i <= n && offs + 8 * n <= 8 * |bytes|
  {
    seq(n - i, j requires 0 <= j < n - i => Group(bytes, offs + 8 * (i + j)))
  }

  lemma {:induction false} ValueConcat(a: seq<Bit>, b: seq<Bit>)
    ensures Value(a + b) == Value(a) * Pow2(|b|) + Value(b)
  {
    if b == [] {
      assert a + b == a;
    } else {
      var n := |b| - 1;
      ValueConcat(a, b[..n]);
      assert (a + b)[..|a| + n] == a + b[..n];
      assert 2 * (Value(a) * Pow2(n)) == Value(a) * (2 * Pow2(n));
    }
  }

  lemma {:induction false} ValueBound(bits: seq<Bit>)
    ensures Value(bits) < Pow2(|bits|)
  {
    if bits != [] {
      ValueBound(bits[..|bits| - 1]);
    }
  }

  lemma {:induction false} BitsValue(b: nat, n: nat)
    requires b < Pow2(n)
    ensures Value(BitsOf(b, n)) == b
    decreases n
  {
    if n > 0 {
      BitsValue(b / 2, n - 1);
      assert BitsOf(b, n)[..n - 1] == BitsOf(b / 2, n - 1);
    }
  }

  lemma SliceAfter(h: seq<Bit>, rest: seq<Bit>, k: nat)
    requires |h| == 8 && k + 8 <= |rest|
    ensures (h + rest)[k + 8..k + 16] == rest[k..k + 8]
  {
  }

  lemma {:induction false} BitsAt(bytes: seq<Byte>, i: nat)
    requires i < |bytes|
    ensures AllBits(bytes)[8 * i..8 * i + 8] == BitsOf(bytes[i], 8)
  {
    var h, rest := BitsOf(bytes[0], 8), AllBits(bytes[1..]);
    if i > 0 {
      BitsAt(bytes[1..], i - 1);
      SliceAfter(h, rest, 8 * (i - 1));
    } else {
      assert (h + rest)[..8] == h;
    }
  }

  // ----- two neighbouring bytes

  /** Or of bits that do not overlap is addition. */
  function Straddle(next: Byte, present: Byte, offs: nat): int
    requires 0 < offs < 8
  {
    next * Pow2(offs) % 256 + present / Pow2(8 - offs)
  }

  lemma Twice(x: nat, y: nat)
    ensures 2 * (x * y) == 2 * x * y
  {
  }

  lemma {:induction false} Pow2Sum(a: nat, b: nat)
    ensures Pow2(a + b) == Pow2(a) * Pow2(b)
  {
    if a > 0 {
      Pow2Sum(a - 1, b);
      Twice(Pow2(a - 1), Pow2(b));
    }
  }

  lemma DivMod(q: nat, p: nat, r: nat)
    requires p > 0 && r < p
    ensures (q * p + r) / p == q && (q * p + r) % p == r
  {
    var x := q * p + r;
    var d := x / p - q;
    assert x == p * (x / p) + x % p;
    assert p * d == r - x % p;
    Multiple(p, d);
  }

  lemma Multiple(p: nat, z: int)
    ensures z >= 1 ==> p * z >= p
    ensures z <= -1 ==> p * z + p <= 0
  {
  }

  /** A byte is its k high bits and the others. */
  lemma SplitByte(b: Byte, k: nat)
    requires k <= 8
    ensures var bits := BitsOf(b, 8);
      b == Value(bits[..k]) * Pow2(8 - k) + Value(bits[k..]) && Value(bits[k..]) < Pow2(8 - k)
  {
    var bits := BitsOf(b, 8);
    BitsValue8(b);
    ValueConcat(bits[..k], bits[k..]);
    assert bits == bits[..k] + bits[k..];
    ValueBound(bits[k..]);
  }

  /** The high bits of a byte. */
  lemma HighBits(b: Byte, k: nat)
    requires k <= 8
    ensures b / Pow2(8 - k) == Value(BitsOf(b, 8)[..k])
  {
    SplitByte(b, k);
    var bits := BitsOf(b, 8);
    DivMod(Value(bits[..k]), Pow2(8 - k), Value(bits[k..]));
  }

  /** The low bits of a byte, moved to the top of one. */
  lemma LowBits(b: Byte, k: nat)
    requires k <= 8
    ensures b * Pow2(k) % 256 == Value(BitsOf(b, 8)[k..]) * Pow2(k)
  {
    SplitByte(b, k);
    Pow2Sum(8 - k, k);
    BitsValue8(b);
    var bits := BitsOf(b, 8);
    Scale(b, Value(bits[..k]), Value(bits[k..]), Pow2(8 - k), Pow2(k));
  }

  lemma BitsValue8(b: Byte)
    ensures Value(BitsOf(b, 8)) == b && Pow2(8) == 256
  {
    assert Pow2(8) == 256;
    BitsValue(b, 8);
  }

  lemma Scale(b: nat, hi: nat, lo: nat, p: nat, q: nat)
    requires b == hi * p + lo && p * q == 256 && lo < p
    ensures b * q % 256 == lo * q
  {
    assert b * q == hi * (p * q) + lo * q;
    Smaller(lo, p, q);
    DivMod(hi, 256, lo * q);
  }

  lemma Smaller(lo: nat, p: nat, q: nat)
    requires lo < p && p * q == 256
    ensures lo * q < 256
  {
    assert q > 0;
    assert (p - lo) * q >= q;
  }

  lemma SliceAcross(all: seq<Bit>, i: nat, offs: nat)
    requires 8 * i + 16 <= |all| && offs <= 8
    ensures all[8 * i + offs..8 * i + offs + 8] == all[8 * i..8 * i + 8][offs..] + all[8 * i + 8..8 * i + 16][..offs]
  {
  }

  lemma StraddleIsGroup(bytes: seq<Byte>, offs: nat, i: nat)
    requires 0 < offs < 8 && i + 1 < |bytes|
    ensures Straddle(bytes[i], bytes[i + 1], offs) == Group(bytes, offs + 8 * i)
  {
    BitsAt(bytes, i);
    BitsAt(bytes, i + 1);
    SliceAcross(AllBits(bytes), i, offs);
    StraddleValue(bytes[i], bytes[i + 1], offs);
  }

  lemma StraddleValue(next: Byte, present: Byte, offs: nat)
    requires 0 < offs < 8
    ensures Straddle(next, present, offs) == Value(BitsOf(next, 8)[offs..] + BitsOf(present, 8)[..offs])
  {
    ValueConcat(BitsOf(next, 8)[offs..], BitsOf(present, 8)[..offs]);
    LowBits(next, offs);
    HighBits(present, offs);
  }

  lemma ByteIsGroup(bytes: seq<Byte>, i: nat)
    requires i < |bytes|
    ensures bytes[i] == Group(bytes, 8 * i)
  {
    BitsAt(bytes, i);
    BitsValue8(bytes[i]);
  }

  // ----- erts_bin_bytes_to_list

  lemma ElementsCons(bytes: seq<Byte>, offs: nat, i: nat, n: nat)
    requires i < n && offs + 8 * n <= 8 * |bytes|
    ensures Elements(bytes, offs, i, n) == [Group(bytes, offs + 8 * i)] + Elements(bytes, offs, i + 1, n)
  {
  }

  lemma ElementsSplit(bytes: seq<Byte>, offs: nat, i: nat, k: nat, n: nat)
    requires i <= k <= n && offs + 8 * n <= 8 * |bytes|
    ensures Elements(bytes, offs, i, n) == Elements(bytes, offs, i, k) + Elements(bytes, offs, k, n)
  {
  }

  lemma Assoc(a: seq<int>, b: seq<int>, c: seq<int>)
    ensures a + b + c == a + (b + c)
  {
  }

  lemma ChunkJoins(bytes: seq<Byte>, offs: nat, i: nat, k: nat, n: nat, tail: seq<int>)
    requires i <= k <= n && offs + 8 * n <= 8 * |bytes|
    ensures Elements(bytes, offs, i, k) + (Elements(bytes, offs, k, n) + tail) == Elements(bytes, offs, i, n) + tail
  {
    ElementsSplit(bytes, offs, i, k, n);
    Assoc(Elements(bytes, offs, i, k), Elements(bytes, offs, k, n), tail);
  }

  /** The list grows by one element in front. */
  lemma GrowsBy(bytes: seq<Byte>, offs: nat, i: nat, n: nat, previous: seq<int>)
    requires i < n && offs + 8 * n <= 8 * |bytes|
    ensures Elements(bytes, offs, i, n) + previous == [Group(bytes, offs + 8 * i)] + (Elements(bytes, offs, i + 1, n) + previous)
  {
    ElementsCons(bytes, offs, i, n);
    Assoc([Group(bytes, offs + 8 * i)], Elements(bytes, offs, i + 1, n), previous);
  }

  /** One more byte in front of the list. */
  method PutAligned(bytes: seq<Byte>, i: nat, res: seq<int>, ghost offs: nat, ghost hi: nat, ghost previous: seq<int>) returns (res': seq<int>)
    requires offs == 0 && i < hi <= |bytes| && res == Elements(bytes, offs, i + 1, hi) + previous
    ensures res' == Elements(bytes, offs, i, hi) + previous
  {
    ByteIsGroup(bytes, i);
    GrowsBy(bytes, offs, i, hi, previous);
    res' := [bytes[i]] + res;
  }

  method PutStraddling(bytes: seq<Byte>, i: nat, res: seq<int>, next: Byte, present: Byte, offs: nat, ghost hi: nat, ghost previous: seq<int>) returns (res': seq<int>)
    requires 0 < offs < 8 && i < hi < |bytes| && next == bytes[i] && present == bytes[i + 1]
    requires res == Elements(bytes, offs, i + 1, hi) + previous
    ensures res' == Elements(bytes, offs, i, hi) + previous
  {
    StraddleIsGroup(bytes, offs, i);
    GrowsBy(bytes, offs, i, hi, previous);
    res' := [Straddle(next, present, offs)] + res;
  }

  method AlignedToList(previous: seq<int>, bytes: seq<Byte>, lo: nat, hi: nat, ghost offs: nat) returns (res: seq<int>)
    requires offs == 0 && lo <= hi <= |bytes|
    ensures res == Elements(bytes, offs, lo, hi) + previous
  {
    res := previous;
    var i: nat := hi;
    while i > lo
      invariant lo <= i <= hi && res == Elements(bytes, offs, i, hi) + previous
    {
      i := i - 1;
      res := PutAligned(bytes, i, res, offs, hi, previous);
    }
  }

  method StraddlingToList(previous: seq<int>, bytes: seq<Byte>, lo: nat, hi: nat, offs: nat) returns (res: seq<int>)
    requires 0 < offs < 8 && lo <= hi < |bytes|
    ensures res == Elements(bytes, offs, lo, hi) + previous
  {
    res := previous;
    var i: nat := hi;
    var next := bytes[i];
    while i > lo
      invariant lo <= i <= hi && next == bytes[i] && res == Elements(bytes, offs, i, hi) + previous
    {
      var present := next;
      i := i - 1;
      next := bytes[i];
      res := PutStraddling(bytes, i, res, next, present, offs, hi, previous);
    }
  }

  /** Puts the bytes from at on, size of them, before previous. */
  method BytesToList(previous: seq<int>, bytes: seq<Byte>, at: nat, size: nat, offs: nat) returns (res: seq<int>)
    requires offs < 8 && offs + 8 * (at + size) <= 8 * |bytes|
    ensures res == Elements(bytes, offs, at, at + size) + previous
  {
    if offs == 0 {
      res := AlignedToList(previous, bytes, at, at + size, offs);
    } else {
      res := StraddlingToList(previous, bytes, at, at + size, offs);
    }
  }

  // ----- in chunks

  class B2LState {
    const bytes: seq<Byte>
    const offs: nat
    var res: seq<int>
    var size: nat
    ghost const total: nat
    ghost const tail: seq<int>

    ghost predicate Valid()
      reads this
    {
      && offs < 8 && size <= total && offs + 8 * total <= 8 * |bytes|
      && res == Elements(bytes, offs, size, total) + tail
    }

    constructor (tail: seq<int>, bytes: seq<Byte>, size: nat, offs: nat)
      requires offs < 8 && offs + 8 * size <= 8 * |bytes|
      ensures Valid() && this.bytes == bytes && this.offs == offs && this.size == total == size && this.tail == tail
    {
      this.bytes, this.offs, this.res, this.size, this.total, this.tail := bytes, offs, tail, size, size, tail;
    }

    /** binary_to_list_chunk: some of the bytes that are left, at least one reduction's
        worth; done if none are left after. */
    method Chunk(reds: nat) returns (done: bool)
      requires Valid() && size > 0
      modifies this
      ensures Valid() && size == (if (reds + 1) * BYTES_PER_REDUCTION > old(size) then 0 else old(size) - (reds + 1) * BYTES_PER_REDUCTION)
      ensures done <==> size == 0
    {
      var n := (reds + 1) * BYTES_PER_REDUCTION;
      if n > size {
        n := size;
      }
      var at := size - n;
      ChunkJoins(bytes, offs, at, size, total, tail);
      res := BytesToList(res, bytes, at, n, offs);
      size := at;
      done := size == 0;
    }
  }

  /** Whatever reductions are left whenever it runs, the conversion ends and gives the
      8-bit groups of the binary, after at most one chunk for each 256 bytes. */
  method ToListInChunks(tail: seq<int>, bytes: seq<Byte>, size: nat, offs: nat, reds: nat -> nat) returns (res: seq<int>, chunks: nat)
    requires offs < 8 && 0 < size && offs + 8 * size <= 8 * |bytes|
    ensures res == Elements(bytes, offs, 0, size) + tail
    ensures BYTES_PER_REDUCTION * (chunks - 1) < size
  {
    var sp := new B2LState(tail, bytes, size, offs);
    chunks := 1;
    var done := sp.Chunk(reds(0));
    while !done
      invariant fresh(sp) && sp.Valid() && sp.bytes == bytes && sp.offs == offs && sp.total == size && sp.tail == tail
      invariant (done <==> sp.size == 0) && chunks >= 1 && (chunks == 1 || BYTES_PER_REDUCTION * (chunks - 1) < size)
      invariant !done ==> BYTES_PER_REDUCTION * chunks + sp.size <= size
      decreases sp.size
    {
      ghost var left := sp.size;
      done := sp.Chunk(reds(chunks));
      chunks := chunks + 1;
    }
    res := sp.res;
  }

  /** binary_to_list/1 of size bits, which start at bit offs: at once or in chunks. */
  method BinaryToList(bytes: seq<Byte>, bits: nat, offs: nat, reds: nat -> nat) returns (res: Option<seq<int>>)
    requires offs < 8 && offs + bits <= 8 * |bytes|
    ensures res == if bits % 8 != 0 then None else Some(Elements(bytes, offs, 0, bits / 8))
  {
    if bits == 0 {
      return Some([]);
    } else if bits % 8 != 0 {
      return None;
    }
    var size := bits / 8;
    var list;
    if size < reds(0) * BYTES_PER_REDUCTION || size < MIN_EXEC_REDS * BYTES_PER_REDUCTION {
      list := BytesToList([], bytes, 0, size, offs);
    } else {
      var chunks;
      list, chunks := ToListInChunks([], bytes, size, offs, reds);
    }
    assert list == Elements(bytes, offs, 0, size);
    res := Some(list);
  }
}
