module IntegerDecode {
  // The compact numbers of a BEAM file: how the compiler writes them (beam_asm.erl)
  // and how the loader reads them back (beam_file.c).  Numbers that do not fit a
  // few bits follow as big-endian two's complement bytes of any length.

  import opened Options

  type Byte = x: int | 0 <= x < 256

  const TAG_U: nat := 0
  const TAG_I: nat := 1

  const WORD: nat := 8
  const SINT32_MAX: nat := 0x7fff_ffff
  const BIG_ARITY_MAX: nat := 0xffff

  predicate IsSmall(v: int) {
    -0x800_0000_0000_0000 <= v < 0x800_0000_0000_0000
  }

  // ----- numbers as bytes

  function Pow(n: nat): (p: nat)
    ensures p > 0
  {
    if n == 0 then 1 else 256 * Pow(n - 1)
  }

  /** Big-endian. */
  function Be(d: seq<Byte>): nat {
    if d == [] then 0 else d[0] * Pow(|d| - 1) + Be(d[1..])
  }

  /** Little-endian. */
  function Le(d: seq<Byte>): nat {
    var n := |d|;
    if n == 0 then 0 else Le(d[..n - 1]) + d[n - 1] * Pow(n - 1)
  }

  predicate TopBit(d: seq<Byte>)
    requires d != []
  {
    d[0] >= 128
  }

  /** Big-endian two's complement. */
  function Signed(d: seq<Byte>): int
    requires d != []
  {
    if TopBit(d) then Be(d) - Pow(|d|) else Be(d)
  }

  function Abs(v: int): nat {
    if v < 0 then -v else v
  }

  lemma MulBound(x: nat, p: nat, lo: nat, hi: nat)
    requires lo <= x <= hi
    ensures lo * p <= x * p <= hi * p
  {
  }

  lemma {:induction false} BeBound(d: seq<Byte>)
    ensures Be(d) < Pow(|d|)
  {
    if d != [] {
      BeBound(d[1..]);
      MulBound(d[0], Pow(|d| - 1), 0, 255);
    }
  }

  lemma SignBound(d: seq<Byte>)
    requires d != []
    ensures TopBit(d) ==> Pow(|d|) <= 2 * Be(d)
    ensures !TopBit(d) ==> 2 * Be(d) < Pow(|d|)
  {
    BeBound(d[1..]);
    var p := Pow(|d| - 1);
    if TopBit(d) {
      MulBound(d[0], p, 128, 255);
    } else {
      MulBound(d[0], p, 0, 127);
    }
  }

  function Rev(d: seq<Byte>): (r: seq<Byte>)
    ensures |r| == |d| && forall i :: 0 <= i < |d| ==> r[i] == d[|d| - 1 - i]
  {
    if d == [] then [] else Rev(d[1..]) + [d[0]]
  }

  lemma {:induction false} RevValue(d: seq<Byte>)
    ensures Le(Rev(d)) == Be(d)
  {
    if d != [] {
      RevValue(d[1..]);
      assert Rev(d)[..|d| - 1] == Rev(d[1..]);
    }
  }

  lemma LeSnoc(d: seq<Byte>, b: Byte)
    ensures Le(d + [b]) == Le(d) + b * Pow(|d|)
  {
    assert (d + [b])[..|d|] == d;
  }

  // ----- unpack_varint

  /** A byte shifted left by k bytes. */
  function Shifted(b: Byte, k: nat): nat {
    b * Pow(k)
  }

  lemma BeStep(d: seq<Byte>, i: nat)
    requires i < |d|
    ensures Be(d[i..]) == Shifted(d[i], |d| - i - 1) + Be(d[i + 1..])
  {
    assert d[i..][1..] == d[i + 1..];
  }

  /** The bits that are or-ed in do not overlap, so that or is addition. */
  method UnpackVarint(d: seq<Byte>) returns (val: Option<nat>)
    ensures val == if |d| <= WORD then Some(Be(d)) else None
  {
    if |d| > WORD {
      return None;
    }
    var res: nat := 0;
    var i := 0;
    assert d[0..] == d;
    while i < |d|
      invariant i <= |d| && res + Be(d[i..]) == Be(d)
    {
      BeStep(d, i);
      res := Shifted(d[i], |d| - i - 1) + res;
      i := i + 1;
    }
    val := Some(res);
  }

  // ----- sign extension

  /** A word as a signed word. */
  function AsSigned(u: nat): int {
    if u >= 0x8000_0000_0000_0000 then u - 0x1_0000_0000_0000_0000 else u
  }

  /** Shifts left by k bytes, dropping what leaves the word, and back arithmetically. */
  function ShiftBack(u: nat, k: nat): int {
    AsSigned(u * Pow(k) % Pow(WORD)) / Pow(k)
  }

  lemma PowWord()
    ensures Pow(1) == 0x100 && Pow(2) == 0x1_0000 && Pow(3) == 0x100_0000 && Pow(4) == 0x1_0000_0000
    ensures Pow(5) == 0x100_0000_0000 && Pow(6) == 0x1_0000_0000_0000 && Pow(7) == 0x100_0000_0000_0000
    ensures Pow(8) == 0x1_0000_0000_0000_0000
  {
  }

  lemma DivExact(p: nat, x: int)
    requires p > 0
    ensures p * x / p == x
  {
    var y := p * x;
    var q, r := y / p, y % p;
    assert y == p * q + r;
    assert p * (x - q) == r;
    BigMultiple(p, x - q);
  }

  lemma BigMultiple(p: nat, z: int)
    ensures z >= 1 ==> p * z >= p
    ensures z <= -1 ==> p * z + p <= 0
  {
  }

  lemma ShiftHigh(u: nat, p: nat, q: nat, w: nat)
    requires p > 0 && p * q == w && u < q
    ensures u * p < w && (2 * u >= q ==> 2 * (u * p) >= w) && (2 * u < q ==> 2 * (u * p) < w)
  {
    MulBound(u, p, 0, q - 1);
    assert (q - 1) * p == w - p;
    if 2 * u >= q {
      MulBound(2 * u, p, q, 2 * u);
    } else {
      MulBound(2 * u, p, 0, q - 1);
    }
  }

  lemma ShiftValue(u: nat, p: nat, q: nat)
    requires p > 0 && p * q == Pow(WORD) && u < q
    ensures AsSigned(u * p % Pow(WORD)) / p == if 2 * u >= q then u - q else u
  {
    PowWord();
    ShiftHigh(u, p, q, Pow(WORD));
    assert u * p == p * u;
    if 2 * u >= q {
      assert p * u - p * q == p * (u - q);
      DivExact(p, u - q);
    } else {
      DivExact(p, u);
    }
  }

  lemma MulAssoc(x: nat, y: nat)
    ensures 256 * (x * y) == 256 * x * y
  {
  }

  lemma {:induction false} PowSum(a: nat, b: nat)
    ensures Pow(a + b) == Pow(a) * Pow(b)
  {
    if a > 0 {
      PowSum(a - 1, b);
      MulAssoc(Pow(a - 1), Pow(b));
    }
  }

  lemma SignExtends(d: seq<Byte>)
    requires 0 < |d| <= WORD
    ensures ShiftBack(Be(d), WORD - |d|) == Signed(d)
  {
    BeBound(d);
    SignBound(d);
    PowSum(WORD - |d|, |d|);
    ShiftValue(Be(d), Pow(WORD - |d|), Pow(|d|));
  }

  // ----- marshal_integer

  /** The size of the conversion buffer. */
  function BufferSize(size: nat): nat {
    if size < 128 - WORD then 128 else size + WORD
  }

  /** The bytes of d in little-endian order. */
  method CopyReversed(d: seq<Byte>, buf: array<Byte>)
    requires |d| <= buf.Length
    modifies buf
    ensures buf[..|d|] == Rev(d)
  {
    var i := 0;
    while i < |d|
      invariant i <= |d| && forall j :: |d| - i <= j < |d| ==> buf[j] == d[|d| - 1 - j]
    {
      buf[|d| - i - 1] := d[i];
      i := i + 1;
    }
  }

  function NegByte(b: Byte, carry: nat): Byte
    requires carry <= 1
  {
    (255 - b + carry) % 256
  }

  lemma NegStep(x: nat, y: nat, p: nat, b: Byte, carry: nat)
    requires carry <= 1 && x + y + carry * p == p
    ensures var c, carry' := NegByte(b, carry), if NegByte(b, carry) == 0 && carry == 1 then 1 else 0;
      (x + c * p) + (y + b * p) + carry' * (256 * p) == 256 * p
  {
    var c := NegByte(b, carry);
    if carry == 1 && b == 0 {
      assert c == 0;
    } else if carry == 1 {
      assert c == 256 - b;
      assert c * p + b * p == 256 * p;
    } else {
      assert c == 255 - b;
      assert c * p + b * p == 255 * p;
    }
  }

  lemma PrefixSnoc(s: seq<Byte>, i: nat)
    requires i < |s|
    ensures Le(s[..i + 1]) == Le(s[..i]) + s[i] * Pow(i)
  {
    assert s[..i + 1] == s[..i] + [s[i]];
    LeSnoc(s[..i], s[i]);
  }

  /** Negates the first size bytes in place. */
  method Negate(buf: array<Byte>, size: nat) returns (carry: nat)
    requires size <= buf.Length
    modifies buf
    ensures carry <= 1 && Le(buf[..size]) + Le(old(buf[..size])) + carry * Pow(size) == Pow(size)
  {
    carry := 1;
    var i := 0;
    ghost var was := buf[..];
    while i < size
      invariant i <= size && carry <= 1 && buf[i..] == was[i..]
      invariant Le(buf[..i]) + Le(was[..i]) + carry * Pow(i) == Pow(i)
    {
      NegStep(Le(buf[..i]), Le(was[..i]), Pow(i), buf[i], carry);
      PrefixSnoc(was, i);
      ghost var done := buf[..i];
      assert buf[i] == was[i..][0];
      buf[i] := NegByte(buf[i], carry);
      carry := if buf[i] == 0 && carry == 1 then 1 else 0;
      assert buf[..i] == done;
      PrefixSnoc(buf[..], i);
      assert buf[..][..i] == buf[..i] && buf[..][..i + 1] == buf[..i + 1];
      i := i + 1;
    }
    assert was[..size] == old(buf[..size]);
  }

  lemma {:induction false} LeBound(d: seq<Byte>)
    ensures Le(d) < Pow(|d|)
  {
    var n := |d|;
    if n > 0 {
      LeBound(d[..n - 1]);
      MulBound(d[n - 1], Pow(n - 1), 0, 255);
    }
  }

  /** The last byte is zero exactly if the number fits without it. */
  lemma LastByte(s: seq<Byte>)
    requires s != []
    ensures s[|s| - 1] == 0 <==> Le(s) < Pow(|s| - 1)
    ensures s[|s| - 1] == 0 ==> Le(s) == Le(s[..|s| - 1])
  {
    var n := |s| - 1;
    LeBound(s[..n]);
    if s[n] != 0 {
      MulBound(s[n], Pow(n), 1, 255);
    }
  }

  lemma NoCarry(x: nat, y: nat, carry: nat, p: nat)
    requires x + y + carry * p == p && carry <= 1 && y > 0
    ensures carry == 0 && x + y == p
  {
    assert carry * p == (if carry == 1 then p else 0);
  }

  /** What negation leaves of a negative number's bytes is its absolute value. */
  lemma NegatedValue(d: seq<Byte>, v: nat, carry: nat)
    requires d != [] && TopBit(d) && carry <= 1 && v + Be(d) + carry * Pow(|d|) == Pow(|d|)
    ensures Signed(d) < 0 && v == Abs(Signed(d))
  {
    BeBound(d);
    SignBound(d);
    NoCarry(v, Be(d), carry, Pow(|d|));
  }

  /** The magnitude of d in the first bytes of the buffer. */
  method Magnitude(d: seq<Byte>, buf: array<Byte>) returns (negative: bool)
    requires d != [] && |d| <= buf.Length
    modifies buf
    ensures Le(buf[..|d|]) == Abs(Signed(d)) && negative == (Signed(d) < 0)
  {
    CopyReversed(d, buf);
    RevValue(d);
    negative := buf[|d| - 1] >= 128;
    assert buf[|d| - 1] == Rev(d)[|d| - 1];
    if negative {
      var carry := Negate(buf, |d|);
      NegatedValue(d, Le(buf[..|d|]), carry);
    }
  }

  lemma RoundUp(n: nat) returns (up: nat)
    ensures up % WORD == 0 && n <= up < n + WORD
  {
    up := (n + WORD - 1) / WORD * WORD;
  }

  /** Pads with zeros to whole words. */
  method Align(buf: array<Byte>, size: nat) returns (size': nat)
    requires size + WORD <= buf.Length
    modifies buf
    ensures size <= size' < size + WORD && size' % WORD == 0
    ensures Le(buf[..size']) == Le(old(buf[..size]))
  {
    size' := size;
    ghost var v := Le(buf[..size]);
    ghost var up := RoundUp(size);
    while size' % WORD != 0
      invariant size <= size' <= up && Le(buf[..size']) == v
      decreases up - size'
    {
      ghost var done := buf[..size'];
      buf[size'] := 0;
      assert buf[..size' + 1] == done + [0];
      LeSnoc(done, 0);
      size' := size' + 1;
    }
  }

  datatype Marshalled = Corrupt | Big(negative: bool, mag: seq<Byte>) | TooBig

  function ValueOf(m: Marshalled): int
    requires m.Big?
  {
    (if m.negative then -1 else 1) * Le(m.mag)
  }

  lemma {:induction false} PowMono(a: nat, b: nat)
    requires a <= b
    ensures Pow(a) <= Pow(b)
    decreases b - a
  {
    if a < b {
      PowMono(a, b - 1);
    }
  }

  /** Cuts one leading zero away; a second one means that the file is corrupt. */
  method Strip(buf: array<Byte>, size: nat) returns (size': Option<nat>)
    requires 2 <= size <= buf.Length
    ensures size'.None? <==> Le(buf[..size]) < Pow(size - 2)
    ensures size'.Some? ==> 0 < size'.value <= size && Le(buf[..size'.value]) == Le(buf[..size]) >= Pow(size'.value - 1)
  {
    LastByte(buf[..size]);
    PowMono(size - 2, size - 1);
    if buf[size - 1] != 0 {
      return Some(size);
    }
    assert buf[..size][..size - 1] == buf[..size - 1];
    LastByte(buf[..size - 1]);
    size' := if buf[size - 2] == 0 then None else Some(size - 1);
  }

  /** How many words a number takes. */
  lemma WordsNeeded(v: nat, size: nat, n: nat)
    requires 0 < size <= n < size + WORD && n % WORD == 0 && Pow(size - 1) <= v < Pow(n)
    ensures n >= WORD && Pow(n - WORD) <= v
    ensures n / WORD > BIG_ARITY_MAX <==> v >= Pow(WORD * BIG_ARITY_MAX)
  {
    PowMono(n - WORD, size - 1);
    if n / WORD > BIG_ARITY_MAX {
      PowMono(WORD * BIG_ARITY_MAX, n - WORD);
    } else {
      PowMono(n, WORD * BIG_ARITY_MAX);
    }
  }

  /** A number of two bytes or more becomes whole words that stand for the same number,
      the last of them not zero. */
  method MarshalInteger(d: seq<Byte>) returns (r: Marshalled)
    requires |d| >= 2
    ensures r.Corrupt? <==> Abs(Signed(d)) < Pow(|d| - 2)
    ensures r.Big? ==> ValueOf(r) == Signed(d) && |r.mag| % WORD == 0 && WORD <= |r.mag| <= WORD * BIG_ARITY_MAX
    ensures r.Big? ==> Pow(|r.mag| - WORD) <= Abs(Signed(d)) && r.negative == (Signed(d) < 0)
    ensures r.TooBig? <==> Abs(Signed(d)) >= Pow(|d| - 2) && Abs(Signed(d)) >= Pow(WORD * BIG_ARITY_MAX)
  {
    var buf := new Byte[BufferSize(|d|)];
    var negative := Magnitude(d, buf);
    var size := Strip(buf, |d|);
    if size.None? {
      return Corrupt;
    }
    var n := Align(buf, size.value);
    LeBound(buf[..n]);
    WordsNeeded(Abs(Signed(d)), size.value, n);
    if n / WORD > BIG_ARITY_MAX {
      r := TooBig;
    } else {
      r := Big(negative, buf[..n]);
    }
  }

  // ----- beamreader_read_tagged

  /** A number in a word, the bytes of a larger integer, or bytes that overflow. */
  datatype Tagged = Word(tag: nat, v: int) | Large(data: seq<Byte>) | Overflow(data: seq<Byte>)

  datatype Read = Read(val: Tagged, used: nat)

  /** What the multi-byte form stands for. */
  function Classify(tag: nat, data: seq<Byte>): Tagged
    requires data != []
  {
    if tag == TAG_I then
      if |data| <= WORD && IsSmall(Signed(data)) then Word(tag, Signed(data)) else Large(data)
    else if |data| <= WORD && Be(data) < 0x8000_0000_0000_0000 then Word(tag, Be(data))
    else Overflow(data)
  }

  /** The number of bytes that follow, and how many bytes say so. */
  function Count(s: seq<Byte>): (r: Option<(nat, nat)>)
    requires s != []
    ensures r.Some? ==> r.value.0 >= 2 && 1 <= r.value.1 <= |s|
    decreases |s|, 0
  {
    if s[0] / 32 < 7 then Some((s[0] / 32 + 2, 1))
    else
      var prefix := Decode(s[1..]);
      if prefix.Some? && prefix.value.val.Word? && prefix.value.val.tag == TAG_U && 0 <= prefix.value.val.v < SINT32_MAX - 9
      then Some((prefix.value.val.v + 9, 1 + prefix.value.used)) else None
  }

  function TwoByte(b: int, extra: int): int {
    b / 32 * 256 + extra
  }

  function Decode(s: seq<Byte>): (r: Option<Read>)
    ensures r.Some? ==> 1 <= r.value.used <= |s|
    ensures r.Some? && r.value.val.Word? && r.value.val.tag != TAG_I ==> r.value.val.v >= 0
    decreases |s|, 1
  {
    if s == [] then None
    else
      var b, tag := s[0], s[0] % 8;
      if b / 8 % 2 == 0 then Some(Read(Word(tag, b / 16), 1))
      else if b / 16 % 2 == 0 then
        if |s| < 2 then None else Some(Read(Word(tag, TwoByte(b, s[1])), 2))
      else
        var c := Count(s);
        if c.None? || c.value.1 + c.value.0 > |s| then None
        else Some(Read(Classify(tag, s[c.value.1..c.value.1 + c.value.0]), c.value.1 + c.value.0))
  }

  method ClassifyBytes(tag: nat, data: seq<Byte>) returns (val: Tagged)
    requires data != []
    ensures val == Classify(tag, data)
  {
    var u := UnpackVarint(data);
    if u.Some? {
      if tag == TAG_I {
        SignExtends(data);
        var v := ShiftBack(u.value, WORD - |data|);
        if IsSmall(v) {
          return Word(tag, v);
        }
      } else if AsSigned(u.value) >= 0 {
        WordBound(data);
        return Word(tag, AsSigned(u.value));
      }
    }
    val := if tag != TAG_I then Overflow(data) else Large(data);
  }

  lemma WordBound(data: seq<Byte>)
    requires |data| <= WORD
    ensures Be(data) < 0x1_0000_0000_0000_0000
  {
    BeBound(data);
    PowMono(|data|, WORD);
    PowWord();
  }

  class BeamReader {
    const data: seq<Byte>
    var head: nat

    constructor (bytes: seq<Byte>)
      ensures data == bytes && head == 0
    {
      data, head := bytes, 0;
    }

    method ReadU8() returns (b: Option<Byte>)
      requires head <= |data|
      modifies this
      ensures b == if old(head) < |data| then Some(data[old(head)]) else None
      ensures head == old(head) + if b.Some? then 1 else 0
    {
      if head == |data| {
        return None;
      }
      b := Some(data[head]);
      head := head + 1;
    }

    method ReadBytes(n: nat) returns (bs: Option<seq<Byte>>)
      requires head <= |data|
      modifies this
      ensures bs == if old(head) + n <= |data| then Some(data[old(head)..old(head) + n]) else None
      ensures head == old(head) + if bs.Some? then n else 0
    {
      if |data| - head < n {
        return None;
      }
      bs := Some(data[head..head + n]);
      head := head + n;
    }

    method ReadCount(b: Byte) returns (n: Option<nat>)
      requires 0 < head <= |data| && data[head - 1] == b
      modifies this
      ensures var c := Count(data[old(head) - 1..]);
        n.Some? == c.Some? && (n.Some? ==> n.value == c.value.0 && head == old(head) - 1 + c.value.1)
      decreases |data| - head, 2
    {
      if b / 32 < 7 {
        return Some(b / 32 + 2);
      }
      assert data[head - 1..][1..] == data[head..];
      var prefix := ReadTagged();
      if prefix.None? || !prefix.value.Word? || prefix.value.tag != TAG_U {
        return None;
      }
      var size := prefix.value.v;
      if !(size < SINT32_MAX - 9) {
        return None;
      }
      n := Some(size + 9);
    }

    /** What the rest of the reader's bytes say, from where it was. */
    ghost predicate IsRead(from: nat, val: Option<Tagged>)
      requires from <= |data|
      reads this
    {
      var r := Decode(data[from..]);
      val.Some? == r.Some? && (val.Some? ==> val.value == r.value.val && head == from + r.value.used)
    }

    /** The multi-byte form, after its first byte b. */
    method ReadMulti(b: Byte) returns (val: Option<Tagged>)
      requires 0 < head <= |data| && data[head - 1] == b && b / 8 % 2 == 1 && b / 16 % 2 == 1
      modifies this
      ensures IsRead(old(head) - 1, val)
      decreases |data| - head, 3
    {
      ghost var from := head - 1;
      var n := ReadCount(b);
      if n.None? {
        return None;
      }
      ghost var at := head - from;
      var bytes := ReadBytes(n.value);
      if bytes.None? {
        return None;
      }
      assert bytes.value == data[from..][at..at + n.value];
      var v := ClassifyBytes(b % 8, bytes.value);
      val := Some(v);
    }

    method ReadTagged() returns (val: Option<Tagged>)
      requires head <= |data|
      modifies this
      ensures IsRead(old(head), val)
      decreases |data| - head, 1
    {
      var b := ReadU8();
      if b.None? {
        return None;
      }
      var tag := b.value % 8;
      if b.value / 8 % 2 == 0 {
        val := Some(Word(tag, b.value / 16));
      } else if b.value / 16 % 2 == 0 {
        var extra := ReadU8();
        if extra.None? {
          return None;
        }
        val := Some(Word(tag, TwoByte(b.value, extra.value)));
      } else {
        val := ReadMulti(b.value);
      }
    }
  }

  // ----- the compiler's encoding

  /** The shortest big-endian bytes of a number. */
  function Unsigned(n: nat): (d: seq<Byte>)
    ensures d != [] && (n > 0 ==> |d| <= n) && (n >= 256 ==> |d| >= 2)
  {
    if n < 256 then [n] else Unsigned(n / 256) + [n % 256]
  }

  /** The last k bytes of n, big-endian; the two's complement of a negative n. */
  function Truncated(n: int, k: nat): (d: seq<Byte>)
    ensures |d| == k
    decreases k
  {
    if k == 0 then [] else Truncated(n / 256, k - 1) + [n % 256]
  }

  function ToBytes(n: nat): (d: seq<Byte>)
    ensures d != [] && (n > 0 ==> |d| <= n + 1) && (n >= 256 ==> |d| >= 2)
  {
    var d := Unsigned(n);
    if TopBit(d) then [0] + d else d
  }

  function NegativeToBytes(n: int): (d: seq<Byte>)
    requires n < 0
    ensures |d| >= 2
  {
    if n >= -0x8000 then Truncated(n, 2)
    else
      var d := Truncated(n, |Unsigned(-n)|);
      if TopBit(d) then d else [255] + d
  }

  function Bytes(n: int): seq<Byte> {
    if n < 0 then NegativeToBytes(n) else ToBytes(n)
  }

  predicate MultiByte(n: int) {
    n < 0 || n >= 0x800
  }

  function Encode(tag: nat, n: int): (s: seq<Byte>)
    requires tag < 8
    ensures s != []
    decreases if MultiByte(n) then |Bytes(n)| else 0, 1
  {
    if n < 0 then EncodeBytes(tag, NegativeToBytes(n))
    else if n < 16 then [n * 16 + tag]
    else if n < 0x800 then [n / 256 * 32 + 8 + tag, n % 256]
    else EncodeBytes(tag, ToBytes(n))
  }

  function EncodeBytes(tag: nat, d: seq<Byte>): (s: seq<Byte>)
    requires tag < 8 && 2 <= |d|
    ensures s != []
    decreases |d|, 0
  {
    if |d| <= 8 then [(|d| - 2) * 32 + 24 + tag] + d
    else [248 + tag] + Encode(TAG_U, |d| - 9) + d
  }

  // ----- the bytes stand for the number

  lemma {:induction false} BeSnoc(d: seq<Byte>, b: Byte)
    ensures Be(d + [b]) == 256 * Be(d) + b
  {
    if d == [] {
      assert d + [b] == [b] && [b][1..] == [];
      assert Pow(0) == 1;
    } else {
      BeSnoc(d[1..], b);
      assert (d + [b])[1..] == d[1..] + [b];
      var x, p := d[0], Pow(|d| - 1);
      assert x * (256 * p) == 256 * (x * p);
    }
  }

  lemma {:induction false} UnsignedValue(n: nat)
    ensures Be(Unsigned(n)) == n
    ensures n > 0 ==> Pow(|Unsigned(n)| - 1) <= n < Pow(|Unsigned(n)|)
  {
    if n < 256 {
      assert [n][1..] == [];
      assert Pow(0) == 1 && Pow(1) == 256;
    } else {
      UnsignedValue(n / 256);
      BeSnoc(Unsigned(n / 256), n % 256);
    }
  }

  lemma {:induction false} TruncatedValue(n: int, k: nat)
    requires -(Pow(k) as int) <= n < 0
    ensures Be(Truncated(n, k)) == n + Pow(k)
    decreases k
  {
    if k == 0 {
    } else {
      assert n / 256 < 0 && -(Pow(k - 1) as int) <= n / 256;
      TruncatedValue(n / 256, k - 1);
      BeSnoc(Truncated(n / 256, k - 1), n % 256);
    }
  }

  lemma ConsValue(b: Byte, d: seq<Byte>)
    ensures Be([b] + d) == b * Pow(|d|) + Be(d)
  {
    assert ([b] + d)[1..] == d;
  }

  lemma ToBytesValue(n: nat)
    requires n > 0
    ensures Signed(ToBytes(n)) == n && (|ToBytes(n)| >= 2 ==> Pow(|ToBytes(n)| - 2) <= n)
  {
    var d := Unsigned(n);
    UnsignedValue(n);
    ConsValue(0, d);
    if !TopBit(d) && |d| >= 2 {
      PowMono(|d| - 2, |d| - 1);
    }
  }

  lemma NegativeValue(n: int)
    requires n < 0
    ensures var d := NegativeToBytes(n); Signed(d) == n && Pow(|d| - 2) <= -n
  {
    PowWord();
    if n >= -0x8000 {
      TruncatedValue(n, 2);
      SignBound(Truncated(n, 2));
      assert Pow(0) == 1;
    } else {
      var k := |Unsigned(-n)|;
      UnsignedValue(-n);
      TruncatedValue(n, k);
      var d := Truncated(n, k);
      ConsValue(255, d);
      PowMono(k - 2, k - 1);
    }
  }

  lemma BytesValue(n: int)
    requires MultiByte(n)
    ensures |Bytes(n)| >= 2 && Signed(Bytes(n)) == n && Pow(|Bytes(n)| - 2) <= Abs(n)
  {
    if n < 0 {
      NegativeValue(n);
    } else {
      ToBytesValue(n);
    }
  }

  // ----- the loader reads what the compiler wrote

  /** No more than one byte more than needed. */
  lemma BytesShort(n: int)
    requires MultiByte(n) && |Bytes(n)| > WORD
    ensures Pow(|Bytes(n)| - 1) <= 2 * Abs(n)
  {
    PowWord();
    UnsignedValue(Abs(n));
    var u := Unsigned(Abs(n));
    if n >= 0 {
      if TopBit(u) {
        SignBound(u);
      }
    } else {
      TruncatedValue(n, |u|);
      var d := Truncated(n, |u|);
      if !TopBit(d) {
        SignBound(d);
      }
    }
  }

  function Expected(tag: nat, n: int): Tagged {
    if tag == TAG_I then if IsSmall(n) then Word(tag, n) else Large(Bytes(n))
    else if n < 0x8000_0000_0000_0000 then Word(tag, n)
    else Overflow(Bytes(n))
  }

  lemma ClassifyEncoded(tag: nat, n: int)
    requires MultiByte(n) && (n >= 0 || tag == TAG_I)
    ensures Bytes(n) != [] && Classify(tag, Bytes(n)) == Expected(tag, n)
  {
    var d := Bytes(n);
    BytesValue(n);
    BeBound(d);
    SignBound(d);
    PowWord();
    if |d| > WORD {
      BytesShort(n);
      PowMono(WORD, |d| - 1);
    } else {
      PowMono(|d|, WORD);
    }
  }

  /** The first byte says what follows. */
  lemma FirstByte(tag: nat, b: Byte, k: nat)
    requires tag < 8 && k < 8 && b == k * 32 + 24 + tag
    ensures b % 8 == tag && b / 8 % 2 == 1 && b / 16 % 2 == 1 && b / 32 == k
  {
  }

  lemma DecodeShort(tag: nat, d: seq<Byte>, rest: seq<Byte>)
    requires tag < 8 && 2 <= |d| <= 8
    ensures Decode(EncodeBytes(tag, d) + rest) == Some(Read(Classify(tag, d), 1 + |d|))
  {
    var s := EncodeBytes(tag, d) + rest;
    FirstByte(tag, s[0], |d| - 2);
    assert s[1..1 + |d|] == d;
  }

  lemma LongSlices(b: Byte, prefix: seq<Byte>, d: seq<Byte>, rest: seq<Byte>)
    ensures var s := [b] + prefix + d + rest;
      && |s| >= 1 + |prefix| + |d| && s[0] == b && s[1..] == prefix + (d + rest)
      && s[1 + |prefix|..1 + |prefix| + |d|] == d
  {
  }

  lemma CountLong(s: seq<Byte>, k: nat, u: nat)
    requires s != [] && s[0] / 32 == 7 && k < SINT32_MAX - 9
    requires Decode(s[1..]) == Some(Read(Word(TAG_U, k), u))
    ensures Count(s) == Some((k + 9, 1 + u))
  {
  }

  lemma DecodeCounted(s: seq<Byte>, tag: nat, n: nat, u: nat)
    requires s != [] && s[0] % 8 == tag && s[0] / 8 % 2 == 1 && s[0] / 16 % 2 == 1 && Count(s) == Some((n, u)) && u + n <= |s|
    ensures n >= 2 && Decode(s) == Some(Read(Classify(tag, s[u..u + n]), u + n))
  {
  }

  lemma DecodeLong(tag: nat, d: seq<Byte>, rest: seq<Byte>)
    requires tag < 8 && 8 < |d| < SINT32_MAX
    requires Decode(Encode(TAG_U, |d| - 9) + (d + rest)) == Some(Read(Word(TAG_U, |d| - 9), |Encode(TAG_U, |d| - 9)|))
    ensures Decode(EncodeBytes(tag, d) + rest) == Some(Read(Classify(tag, d), |EncodeBytes(tag, d)|))
  {
    var prefix := Encode(TAG_U, |d| - 9);
    var s := [248 + tag] + prefix + d + rest;
    assert s == EncodeBytes(tag, d) + rest;
    LongSlices(248 + tag, prefix, d, rest);
    FirstByte(tag, s[0], 7);
    CountLong(s, |d| - 9, |prefix|);
    DecodeCounted(s, tag, |d|, 1 + |prefix|);
  }

  /** For every integer and whatever follows it. */
  lemma {:induction false} RoundTrip(tag: nat, n: int, rest: seq<Byte>)
    requires tag < 8 && (n >= 0 || tag == TAG_I) && (MultiByte(n) ==> |Bytes(n)| < SINT32_MAX)
    ensures Decode(Encode(tag, n) + rest) == Some(Read(Expected(tag, n), |Encode(tag, n)|))
    decreases if MultiByte(n) then |Bytes(n)| else 0
  {
    if MultiByte(n) {
      var d := Bytes(n);
      BytesValue(n);
      ClassifyEncoded(tag, n);
      if |d| <= 8 {
        DecodeShort(tag, d, rest);
      } else {
        RoundTrip(TAG_U, |d| - 9, d + rest);
        DecodeLong(tag, d, rest);
      }
    } else {
      RoundTripSmall(tag, n, rest);
    }
  }

  lemma OneByte(tag: nat, n: nat, b: int)
    requires tag < 8 && n < 16 && b == n * 16 + tag
    ensures b % 8 == tag && b / 8 % 2 == 0 && b / 16 == n
  {
    assert b / 8 == 2 * n;
  }

  lemma TwoBytes(tag: nat, h: nat, b: int)
    requires tag < 8 && h < 8 && b == h * 32 + 8 + tag
    ensures b % 8 == tag && b / 8 % 2 == 1 && b / 16 % 2 == 0 && b / 32 == h
  {
    assert b / 8 == 4 * h + 1 && b / 16 == 2 * h;
  }

  lemma RoundTripSmall(tag: nat, n: nat, rest: seq<Byte>)
    requires tag < 8 && n < 0x800
    ensures Decode(Encode(tag, n) + rest) == Some(Read(Word(tag, n), |Encode(tag, n)|))
  {
    var s := Encode(tag, n) + rest;
    assert s[0] == Encode(tag, n)[0];
    if n < 16 {
      OneByte(tag, n, s[0]);
    } else {
      TwoBytes(tag, n / 256, s[0]);
      assert s[1] == Encode(tag, n)[1] == n % 256;
    }
  }

  datatype Loaded = Small(v: int) | Bignum(m: Marshalled)

  /** marshal_integer of what was read. */
  method LoadTagged(val: Tagged, ghost n: int) returns (r: Loaded)
    requires val == Expected(TAG_I, n)
    ensures r.Small? <==> IsSmall(n)
    ensures r.Small? ==> r.v == n
    ensures r.Bignum? ==> !r.m.Corrupt? && (r.m.Big? ==> ValueOf(r.m) == n)
    ensures r.Bignum? ==> (r.m.TooBig? <==> Abs(n) >= Pow(WORD * BIG_ARITY_MAX))
  {
    if val.Word? {
      r := Small(val.v);
    } else {
      BytesValue(n);
      var m := MarshalInteger(val.data);
      r := Bignum(m);
    }
  }

  /** The compiler writes an integer and the loader reads it: the same integer, as a small
      or as a bignum, unless it is larger than the largest bignum; and what follows it is
      left alone. */
  method LoadEncoded(n: int, rest: seq<Byte>) returns (r: Loaded, used: nat)
    requires MultiByte(n) ==> |Bytes(n)| < SINT32_MAX
    ensures used == |Encode(TAG_I, n)|
    ensures r.Small? <==> IsSmall(n)
    ensures r.Small? ==> r.v == n
    ensures r.Bignum? ==> !r.m.Corrupt? && (r.m.Big? ==> ValueOf(r.m) == n)
    ensures r.Bignum? ==> (r.m.TooBig? <==> Abs(n) >= Pow(WORD * BIG_ARITY_MAX))
  {
    var reader := new BeamReader(Encode(TAG_I, n) + rest);
    RoundTrip(TAG_I, n, rest);
    assert reader.data[0..] == reader.data;
    var val := reader.ReadTagged();
    used := reader.head;
    r := LoadTagged(val.value, n);
  }
}
