/**
 Byte orders and register decoding. Bytes are integers below 256; arithmetic
 is over reals; the meaning of IEEE 754 bit patterns is a parameter.
 */
module Decoder {
  import opened Wrappers

  type Byte = b: int | 0 <= b < 256

  datatype Order = Big | Little | MidBig | MidLittle | Unknown

  function OrderOf(name: string): Order {
    match name
    case "big" => Big
    case "" => Big
    case "little" => Little
    case "mid-big" => MidBig
    case "mid-little" => MidLittle
    case _ => Unknown
  }

  /** Where byte i of the ordered value comes from. */
  function Source(order: Order, size: nat, i: nat): (j: nat)
    requires i < size
    ensures j < size
  {
    match order
    case Little => size - 1 - i
    case MidBig => if size == 4 || size == 8 then (if i % 2 == 0 then size - 2 - i else size - i) else i
    case MidLittle => if i % 2 == 1 then i - 1 else if i + 1 < size then i + 1 else i
    case _ => i
  }

  function Permuted(order: Order, data: seq<Byte>): seq<Byte> {
    seq(|data|, i requires 0 <= i < |data| => data[Source(order, |data|, i)])
  }

  datatype DecodeError = TooShort | UnsupportedOrder | UnsupportedType

  function Ordered(raw: seq<Byte>, size: nat, order: string): Result<seq<Byte>, DecodeError> {
    if |raw| < size then Failure(TooShort)
    else if OrderOf(order) == Unknown then Failure(UnsupportedOrder)
    else Success(Permuted(OrderOf(order), raw[..size]))
  }

  method Reverse(data: array<Byte>)
    modifies data
    ensures data[..] == Permuted(Little, old(data[..]))
  {
    ghost var was := data[..];
    var i, j := 0, data.Length - 1;
    while i < j
      invariant 0 <= i <= j + 1 && i + j == data.Length - 1
      invariant forall k | 0 <= k < data.Length :: data[k] == was[if k < i || k > j then data.Length - 1 - k else k]
    {
      data[i], data[j] := data[j], data[i];
      i, j := i + 1, j - 1;
    }
  }

  lemma PairSource(size: nat, i: nat)
    requires i + 1 < size && i % 2 == 0
    ensures Source(MidLittle, size, i) == i + 1 && Source(MidLittle, size, i + 1) == i
  {
  }

  method SwapPairs(data: array<Byte>)
    modifies data
    ensures data[..] == Permuted(MidLittle, old(data[..]))
  {
    ghost var was := data[..];
    var i := 0;
    while i + 1 < data.Length
      invariant 0 <= i <= data.Length && i % 2 == 0
      invariant forall k | 0 <= k < i :: data[k] == was[Source(MidLittle, data.Length, k)]
      invariant forall k | i <= k < data.Length :: data[k] == was[k]
    {
      PairSource(data.Length, i);
      data[i], data[i + 1] := data[i + 1], data[i];
      i := i + 2;
    }
  }

  /** Reorders a copy of the first size bytes by swapping in place; the input is untouched. */
  method ApplyByteOrder(raw: array<Byte>, size: nat, order: string) returns (r: Result<seq<Byte>, DecodeError>)
    ensures r == Ordered(raw[..], size, order)
  {
    if raw.Length < size { return Failure(TooShort); }
    var data := new Byte[size](i requires 0 <= i < raw.Length reads raw => raw[i]);
    assert data[..] == raw[..][..size];
    if order == "big" || order == "" {
      assert Permuted(Big, data[..]) == data[..];
      return Success(data[..]);
    }
    if order == "little" {
      Reverse(data);
      return Success(data[..]);
    }
    if order == "mid-big" {
      var s := SwapWords(data);
      return Success(s);
    }
    if order == "mid-little" {
      SwapPairs(data);
      return Success(data[..]);
    }
    return Failure(UnsupportedOrder);
  }

  method SwapWords(data: array<Byte>) returns (s: seq<Byte>)
    ensures s == Permuted(MidBig, data[..])
  {
    if data.Length == 4 {
      return [data[2], data[3], data[0], data[1]];
    }
    if data.Length == 8 {
      return [data[6], data[7], data[4], data[5], data[2], data[3], data[0], data[1]];
    }
    return data[..];
  }

  /** On 4 and 8 bytes every order is its own inverse. */
  lemma OrdersInvert(order: Order, data: seq<Byte>)
    requires |data| == 4 || |data| == 8
    ensures Permuted(order, Permuted(order, data)) == data
  {
    forall i | 0 <= i < |data| ensures Source(order, |data|, Source(order, |data|, i)) == i {
      SourceInverts(order, |data|, i);
    }
  }

  lemma SourceInverts(order: Order, size: nat, i: nat)
    requires (size == 4 || size == 8) && i < size
    ensures Source(order, size, Source(order, size, i)) == i
  {
  }

  predicate Composes(p: Order, q: Order, r: Order, size: nat) {
    forall i | 0 <= i < size :: Source(q, size, Source(p, size, i)) == Source(r, size, i)
  }

  lemma PermutedCompose(p: Order, q: Order, r: Order, data: seq<Byte>)
    requires Composes(p, q, r, |data|)
    ensures Permuted(p, Permuted(q, data)) == Permuted(r, data)
  {
  }

  predicate Swaps(order: Order) {
    order == Little || order == MidBig || order == MidLittle
  }

  lemma SwapsCompose(p: Order, q: Order, r: Order, size: nat, i: nat)
    requires size == 4 || size == 8
    requires i < size && Swaps(p) && Swaps(q) && Swaps(r) && p != q && q != r && p != r
    ensures Source(q, size, Source(p, size, i)) == Source(r, size, i)
  {
  }

  /** On 4 and 8 bytes the orders form a group: any two different swaps make the third. */
  lemma OrdersCompose(p: Order, q: Order, r: Order, data: seq<Byte>)
    requires |data| == 4 || |data| == 8
    requires Swaps(p) && Swaps(q) && Swaps(r) && p != q && q != r && p != r
    ensures Permuted(p, Permuted(q, data)) == Permuted(r, data)
  {
    forall i | 0 <= i < |data| ensures Source(q, |data|, Source(p, |data|, i)) == Source(r, |data|, i) {
      SwapsCompose(p, q, r, |data|, i);
    }
    PermutedCompose(p, q, r, data);
  }

  // ---- integers ----

  function BigEndian(data: seq<Byte>): nat {
    if data == [] then 0 else 256 * BigEndian(data[..|data| - 1]) + data[|data| - 1]
  }

  function Power256(k: nat): nat {
    if k == 0 then 1 else 256 * Power256(k - 1)
  }

  /** Section 4.2 of the MODBUS Application Protocol Specification V1.1b3: most significant byte first. */
  function Encoding(n: nat, size: nat): (data: seq<Byte>)
    ensures |data| == size
  {
    if size == 0 then [] else Encoding(n / 256, size - 1) + [n % 256]
  }

  lemma {:induction false} EncodingDecodes(n: nat, size: nat)
    requires n < Power256(size)
    ensures BigEndian(Encoding(n, size)) == n
  {
    if size == 0 {
    } else {
      EncodingDecodes(n / 256, size - 1);
      assert Encoding(n, size)[..size - 1] == Encoding(n / 256, size - 1);
    }
  }

  /** Two's complement reading of an unsigned value of the given width in bytes. */
  function Signed(u: nat, size: nat): int {
    if size > 0 && u >= Power256(size) / 2 then u - Power256(size) else u
  }

  /** Two's complement of n in the given width. */
  function Unsigned(n: int, size: nat): int {
    if n < 0 then n + Power256(size) else n
  }

  datatype RegisterFormat = RegisterFormat(dataType: string, byteOrder: string, scale: real, offset: real)

  function Scaled(v: real, cfg: RegisterFormat): real {
    v * (if cfg.scale == 0.0 then 1.0 else cfg.scale) + cfg.offset
  }

  /** Meaning of 32 and 64 bit floating point patterns. */
  datatype Ieee = Ieee(single: nat -> real, double: nat -> real)

  function DecodeInt(raw: seq<Byte>, size: nat, signed: bool, cfg: RegisterFormat): Result<real, DecodeError> {
    match Ordered(raw, size, cfg.byteOrder)
    case Failure(e) => Failure(e)
    case Success(data) =>
      var u := BigEndian(data);
      Success(Scaled((if signed then Signed(u, size) else u) as real, cfg))
  }

  function DecodeRegister(raw: seq<Byte>, cfg: RegisterFormat, ieee: Ieee): Result<real, DecodeError> {
    match cfg.dataType
    case "bool" =>
      if |raw| < 1 then Failure(TooShort) else Success(Scaled(if raw[0] != 0 then 1.0 else 0.0, cfg))
    case "uint16" =>
      if |raw| < 2 then Failure(TooShort) else Success(Scaled(BigEndian(raw[..2]) as real, cfg))
    case "int16" =>
      if |raw| < 2 then Failure(TooShort) else Success(Scaled(Signed(BigEndian(raw[..2]), 2) as real, cfg))
    case "uint32" => DecodeInt(raw, 4, false, cfg)
    case "int32" => DecodeInt(raw, 4, true, cfg)
    case "timestamp_unix" => DecodeInt(raw, 4, false, cfg)
    case "float32" =>
      (match Ordered(raw, 4, cfg.byteOrder)
       case Failure(e) => Failure(e)
       case Success(data) => Success(Scaled(ieee.single(BigEndian(data)), cfg)))
    case "float64" =>
      (match Ordered(raw, 8, cfg.byteOrder)
       case Failure(e) => Failure(e)
       case Success(data) => Success(Scaled(ieee.double(BigEndian(data)), cfg)))
    case _ => Failure(UnsupportedType)
  }

  /** Bytes that a device using the given order sends for n. */
  function Sent(n: int, size: nat, order: Order): seq<Byte>
    requires Unsigned(n, size) >= 0
  {
    Permuted(order, Encoding(Unsigned(n, size), size))
  }

  /** The integer types, with their width and whether they are signed. */
  predicate InRange(n: int, dataType: string) {
    match dataType
    case "uint16" => 0 <= n < 0x1_0000
    case "int16" => -0x8000 <= n < 0x8000
    case "uint32" => 0 <= n < 0x1_0000_0000
    case "int32" => -0x8000_0000 <= n < 0x8000_0000
    case "timestamp_unix" => 0 <= n < 0x1_0000_0000
    case _ => false
  }

  lemma Powers()
    ensures Power256(1) == 256 && Power256(2) == 0x1_0000 && Power256(3) == 0x100_0000 && Power256(4) == 0x1_0000_0000
  {
    assert Power256(0) == 1;
  }

  /** v * k + offset, where k is the scale, or 1 when the scale is zero. */
  lemma ScaledMeans(v: real, cfg: RegisterFormat, k: real)
    requires k == if cfg.scale == 0.0 then 1.0 else cfg.scale
    ensures Scaled(v, cfg) == v * k + cfg.offset
  {
  }

  lemma ValueIs(r: Result<real, DecodeError>, v: real, cfg: RegisterFormat, k: real)
    requires k == if cfg.scale == 0.0 then 1.0 else cfg.scale
    ensures r == Success(Scaled(v, cfg)) <==> r.Success? && r.value == v * k + cfg.offset
  {
    ScaledMeans(v, cfg, k);
  }

  lemma Reads32(n: int, cfg: RegisterFormat, more: seq<Byte>, ieee: Ieee)
    requires cfg.dataType in ["uint32", "int32", "timestamp_unix"] && InRange(n, cfg.dataType)
    requires OrderOf(cfg.byteOrder) != Unknown
    ensures Unsigned(n, 4) == if n < 0 then n + 0x1_0000_0000 else n
    ensures DecodeRegister(Sent(n, 4, OrderOf(cfg.byteOrder)) + more, cfg, ieee) == Success(Scaled(n as real, cfg))
  {
    Powers();
    var u, order := Unsigned(n, 4), OrderOf(cfg.byteOrder);
    var sent := Sent(n, 4, order);
    assert (sent + more)[..4] == sent;
    OrdersInvert(order, Encoding(u, 4));
    EncodingDecodes(u, 4);
  }

  /** 32-bit integers sent in any supported order decode to n * scale + offset; trailing bytes are ignored. */
  lemma Decode32(n: int, cfg: RegisterFormat, more: seq<Byte>, ieee: Ieee, k: real)
    requires cfg.dataType in ["uint32", "int32", "timestamp_unix"] && InRange(n, cfg.dataType)
    requires OrderOf(cfg.byteOrder) != Unknown
    requires k == if cfg.scale == 0.0 then 1.0 else cfg.scale
    ensures Unsigned(n, 4) == if n < 0 then n + 0x1_0000_0000 else n
    ensures var r := DecodeRegister(Sent(n, 4, OrderOf(cfg.byteOrder)) + more, cfg, ieee);
      r.Success? && r.value == (n as real) * k + cfg.offset
  {
    Reads32(n, cfg, more, ieee);
    ValueIs(DecodeRegister(Sent(n, 4, OrderOf(cfg.byteOrder)) + more, cfg, ieee), n as real, cfg, k);
  }

  lemma ScaledInjective(a: int, b: int, cfg: RegisterFormat)
    ensures Scaled(a as real, cfg) == Scaled(b as real, cfg) <==> a == b
  {
    var k := if cfg.scale == 0.0 then 1.0 else cfg.scale;
    if Scaled(a as real, cfg) == Scaled(b as real, cfg) {
      assert (a as real - b as real) * k == 0.0;
      assert a as real == b as real;
    }
  }

  lemma TwoBytes(data: seq<Byte>)
    requires |data| == 2
    ensures BigEndian(data) == 256 * (data[0] as int) + data[1]
  {
    assert data[..1] == [data[0]];
    assert BigEndian([data[0]]) == data[0] by { assert [data[0]][..0] == []; }
  }

  lemma EncodeTwo(u: nat)
    requires u < 0x1_0000
    ensures Encoding(u, 2) == [u / 256, u % 256]
  {
    assert Encoding(u / 256, 1) == Encoding(u / 256 / 256, 0) + [u / 256 % 256];
  }

  predicate KeepsPairs(order: Order) {
    order == Big || order == MidBig
  }

  /** What two bytes sent in some order are read as. */
  lemma SentTwo(u: nat, order: Order)
    requires u < 0x1_0000
    ensures BigEndian(Permuted(order, Encoding(u, 2))) ==
      if KeepsPairs(order) || order == Unknown then u else 256 * (u % 256) + u / 256
  {
    EncodeTwo(u);
    var sent := Permuted(order, Encoding(u, 2));
    TwoBytes(sent);
  }

  lemma SwapFixes(u: nat)
    requires u < 0x1_0000
    ensures 256 * (u % 256) + u / 256 == u <==> u / 256 == u % 256
  {
  }

  lemma Reads16(n: int, cfg: RegisterFormat, more: seq<Byte>, ieee: Ieee)
    requires cfg.dataType in ["uint16", "int16"] && InRange(n, cfg.dataType)
    requires OrderOf(cfg.byteOrder) != Unknown
    ensures Unsigned(n, 2) == if n < 0 then n + 0x1_0000 else n
    ensures DecodeRegister(Sent(n, 2, OrderOf(cfg.byteOrder)) + more, cfg, ieee) == Success(Scaled(n as real, cfg))
      <==> KeepsPairs(OrderOf(cfg.byteOrder)) || Unsigned(n, 2) / 256 == Unsigned(n, 2) % 256
  {
    Powers();
    var u, order := Unsigned(n, 2), OrderOf(cfg.byteOrder);
    var sent := Sent(n, 2, order);
    assert (sent + more)[..2] == sent;
    SentTwo(u, order);
    SwapFixes(u);
    var v := BigEndian(sent);
    ScaledInjective(if cfg.dataType == "int16" then Signed(v, 2) else v, n, cfg);
  }

  /** 16-bit registers ignore the configured order. The bytes a device sends in that order decode to
      n * scale + offset exactly when the order does not swap them or the two bytes are equal. */
  lemma Decode16(n: int, cfg: RegisterFormat, more: seq<Byte>, ieee: Ieee, k: real)
    requires cfg.dataType in ["uint16", "int16"] && InRange(n, cfg.dataType)
    requires OrderOf(cfg.byteOrder) != Unknown
    requires k == if cfg.scale == 0.0 then 1.0 else cfg.scale
    ensures Unsigned(n, 2) == if n < 0 then n + 0x1_0000 else n
    ensures var r := DecodeRegister(Sent(n, 2, OrderOf(cfg.byteOrder)) + more, cfg, ieee);
      r.Success? && r.value == (n as real) * k + cfg.offset
      <==> KeepsPairs(OrderOf(cfg.byteOrder)) || Unsigned(n, 2) / 256 == Unsigned(n, 2) % 256
  {
    Reads16(n, cfg, more, ieee);
    var r := DecodeRegister(Sent(n, 2, OrderOf(cfg.byteOrder)) + more, cfg, ieee);
    ValueIs(r, n as real, cfg, k);
  }

  /** A bool is true when its first byte is not zero. On a 16-bit register, sent as section 4.2 has it,
      that is the high byte, so the value is read as non-zero exactly when it is at least 256. */
  lemma DecodeBool(n: nat, cfg: RegisterFormat, ieee: Ieee, k: real)
    requires cfg.dataType == "bool" && n < 0x1_0000
    requires k == if cfg.scale == 0.0 then 1.0 else cfg.scale
    ensures var r := DecodeRegister(Encoding(n, 2), cfg, ieee);
      r.Success? && r.value == (if n != 0 then k + cfg.offset else cfg.offset)
      <==> n == 0 || n >= 256
  {
    ScaledMeans(0.0, cfg, k);
    ScaledMeans(1.0, cfg, k);
    EncodeTwo(n);
    ScaledInjective(0, 1, cfg);
  }

  lemma SentIsReordered(bits: nat, size: nat, order: Order, more: seq<Byte>)
    requires bits < Power256(size) && (size == 4 || size == 8)
    ensures BigEndian(Permuted(order, (Permuted(order, Encoding(bits, size)) + more)[..size])) == bits
  {
    var sent := Permuted(order, Encoding(bits, size));
    assert (sent + more)[..size] == sent;
    OrdersInvert(order, Encoding(bits, size));
    EncodingDecodes(bits, size);
  }

  lemma ReadsFloat32(bits: nat, cfg: RegisterFormat, more: seq<Byte>, ieee: Ieee)
    requires cfg.dataType == "float32" && bits < Power256(4) && OrderOf(cfg.byteOrder) != Unknown
    ensures DecodeRegister(Permuted(OrderOf(cfg.byteOrder), Encoding(bits, 4)) + more, cfg, ieee)
      == Success(Scaled(ieee.single(bits), cfg))
  {
    SentIsReordered(bits, 4, OrderOf(cfg.byteOrder), more);
  }

  /** 4-byte floating point patterns sent in any supported order decode to the value that the pattern
      means, times the scale, plus the offset. */
  lemma DecodeFloat32(bits: nat, cfg: RegisterFormat, more: seq<Byte>, ieee: Ieee, k: real)
    requires cfg.dataType == "float32" && bits < Power256(4) && OrderOf(cfg.byteOrder) != Unknown
    requires k == if cfg.scale == 0.0 then 1.0 else cfg.scale
    ensures var r := DecodeRegister(Permuted(OrderOf(cfg.byteOrder), Encoding(bits, 4)) + more, cfg, ieee);
      r.Success? && r.value == ieee.single(bits) * k + cfg.offset
  {
    ReadsFloat32(bits, cfg, more, ieee);
    ValueIs(DecodeRegister(Permuted(OrderOf(cfg.byteOrder), Encoding(bits, 4)) + more, cfg, ieee),
            ieee.single(bits), cfg, k);
  }

  lemma ReadsFloat64(bits: nat, cfg: RegisterFormat, more: seq<Byte>, ieee: Ieee)
    requires cfg.dataType == "float64" && bits < Power256(8) && OrderOf(cfg.byteOrder) != Unknown
    ensures DecodeRegister(Permuted(OrderOf(cfg.byteOrder), Encoding(bits, 8)) + more, cfg, ieee)
      == Success(Scaled(ieee.double(bits), cfg))
  {
    SentIsReordered(bits, 8, OrderOf(cfg.byteOrder), more);
  }

  /** 8-byte floating point patterns sent in any supported order decode to the value that the pattern
      means, times the scale, plus the offset. */
  lemma DecodeFloat64(bits: nat, cfg: RegisterFormat, more: seq<Byte>, ieee: Ieee, k: real)
    requires cfg.dataType == "float64" && bits < Power256(8) && OrderOf(cfg.byteOrder) != Unknown
    requires k == if cfg.scale == 0.0 then 1.0 else cfg.scale
    ensures var r := DecodeRegister(Permuted(OrderOf(cfg.byteOrder), Encoding(bits, 8)) + more, cfg, ieee);
      r.Success? && r.value == ieee.double(bits) * k + cfg.offset
  {
    ReadsFloat64(bits, cfg, more, ieee);
    ValueIs(DecodeRegister(Permuted(OrderOf(cfg.byteOrder), Encoding(bits, 8)) + more, cfg, ieee),
            ieee.double(bits), cfg, k);
  }

  // ---- byte by byte ----

  lemma PermutedFour(a: Byte, b: Byte, c: Byte, d: Byte)
    ensures Permuted(Big, [a, b, c, d]) == [a, b, c, d]
    ensures Permuted(Little, [a, b, c, d]) == [d, c, b, a]
    ensures Permuted(MidBig, [a, b, c, d]) == [c, d, a, b]
    ensures Permuted(MidLittle, [a, b, c, d]) == [b, a, d, c]
  {
    assert Source(MidBig, 4, 0) == 2 && Source(MidBig, 4, 1) == 3;
    assert Source(MidBig, 4, 2) == 0 && Source(MidBig, 4, 3) == 1;
  }

  /** The four orders of four bytes, by name; bytes that follow are ignored. */
  lemma OrdersOfFour(a: Byte, b: Byte, c: Byte, d: Byte, more: seq<Byte>, order: string)
    ensures order == "big" || order == "" ==> Ordered([a, b, c, d] + more, 4, order) == Success([a, b, c, d])
    ensures order == "little" ==> Ordered([a, b, c, d] + more, 4, order) == Success([d, c, b, a])
    ensures order == "mid-big" ==> Ordered([a, b, c, d] + more, 4, order) == Success([c, d, a, b])
    ensures order == "mid-little" ==> Ordered([a, b, c, d] + more, 4, order) == Success([b, a, d, c])
  {
    assert ([a, b, c, d] + more)[..4] == [a, b, c, d];
    PermutedFour(a, b, c, d);
  }

  lemma PermutedEight(a: seq<Byte>)
    requires |a| == 8
    ensures Permuted(Big, a) == a
    ensures Permuted(Little, a) == [a[7], a[6], a[5], a[4], a[3], a[2], a[1], a[0]]
    ensures Permuted(MidBig, a) == [a[6], a[7], a[4], a[5], a[2], a[3], a[0], a[1]]
    ensures Permuted(MidLittle, a) == [a[1], a[0], a[3], a[2], a[5], a[4], a[7], a[6]]
  {
    assert Permuted(MidBig, a)[0] == a[6] && Permuted(MidBig, a)[1] == a[7];
    assert Permuted(MidBig, a)[2] == a[4] && Permuted(MidBig, a)[3] == a[5];
    assert Permuted(MidBig, a)[4] == a[2] && Permuted(MidBig, a)[5] == a[3];
    assert Permuted(MidBig, a)[6] == a[0] && Permuted(MidBig, a)[7] == a[1];
  }

  /** The four orders of eight bytes, by name. */
  lemma OrdersOfEight(a: seq<Byte>, more: seq<Byte>, order: string)
    requires |a| == 8
    ensures order == "big" || order == "" ==> Ordered(a + more, 8, order) == Success(a)
    ensures order == "little" ==>
      Ordered(a + more, 8, order) == Success([a[7], a[6], a[5], a[4], a[3], a[2], a[1], a[0]])
    ensures order == "mid-big" ==>
      Ordered(a + more, 8, order) == Success([a[6], a[7], a[4], a[5], a[2], a[3], a[0], a[1]])
    ensures order == "mid-little" ==>
      Ordered(a + more, 8, order) == Success([a[1], a[0], a[3], a[2], a[5], a[4], a[7], a[6]])
  {
    assert (a + more)[..8] == a;
    PermutedEight(a);
  }

  /** An order is refused, or the input found too short, exactly then. */
  lemma OrderedFails(raw: seq<Byte>, size: nat, order: string)
    ensures Ordered(raw, size, order) == Failure(TooShort) <==> |raw| < size
    ensures Ordered(raw, size, order) == Failure(UnsupportedOrder) <==>
      |raw| >= size && order !in {"", "big", "little", "mid-big", "mid-little"}
  {
  }

  lemma FourBytes(a: Byte, b: Byte, c: Byte, d: Byte)
    ensures BigEndian([a, b, c, d]) == 0x100_0000 * (a as int) + 0x1_0000 * (b as int) + 0x100 * (c as int) + d
  {
    assert [a, b, c, d][..3] == [a, b, c];
    assert [a, b, c][..2] == [a, b];
    TwoBytes([a, b]);
  }

  /** Four bytes as one number, by the name of their order. */
  lemma ReadsFour(a: Byte, b: Byte, c: Byte, d: Byte, more: seq<Byte>, order: string) returns (data: seq<Byte>)
    requires order in {"", "big", "little", "mid-big", "mid-little"}
    ensures Ordered([a, b, c, d] + more, 4, order) == Success(data)
    ensures BigEndian(data) ==
      if order == "little" then 0x100_0000 * (d as int) + 0x1_0000 * (c as int) + 0x100 * (b as int) + a
      else if order == "mid-big" then 0x100_0000 * (c as int) + 0x1_0000 * (d as int) + 0x100 * (a as int) + b
      else if order == "mid-little" then 0x100_0000 * (b as int) + 0x1_0000 * (a as int) + 0x100 * (d as int) + c
      else 0x100_0000 * (a as int) + 0x1_0000 * (b as int) + 0x100 * (c as int) + d
  {
    OrdersOfFour(a, b, c, d, more, order);
    data := Ordered([a, b, c, d] + more, 4, order).value;
    FourBytes(a, b, c, d);
    FourBytes(d, c, b, a);
    FourBytes(c, d, a, b);
    FourBytes(b, a, d, c);
  }

  /** What four bytes are read as: with u their value most significant byte first after reordering, two's
      complement for int32, then times the scale, plus the offset. */
  lemma DecodeFourBytes(raw: seq<Byte>, u: nat, cfg: RegisterFormat, ieee: Ieee, k: real)
    requires k == if cfg.scale == 0.0 then 1.0 else cfg.scale
    requires cfg.dataType in {"uint32", "int32", "timestamp_unix", "float32"}
    requires Ordered(raw, 4, cfg.byteOrder).Success? && BigEndian(Ordered(raw, 4, cfg.byteOrder).value) == u
    ensures var r := DecodeRegister(raw, cfg, ieee);
      r.Success? && r.value ==
        (if cfg.dataType == "float32" then ieee.single(u)
         else if cfg.dataType == "int32" && u >= 0x8000_0000 then (u - 0x1_0000_0000) as real
         else u as real) * k + cfg.offset
  {
    Powers();
    var v := if cfg.dataType == "float32" then ieee.single(u)
             else if cfg.dataType == "int32" && u >= 0x8000_0000 then (u - 0x1_0000_0000) as real else u as real;
    assert DecodeRegister(raw, cfg, ieee) == Success(Scaled(v, cfg));
    ScaledMeans(v, cfg, k);
  }

  /** What two bytes are read as, whatever the configured order. */
  lemma DecodeTwoBytes(a: Byte, b: Byte, more: seq<Byte>, cfg: RegisterFormat, ieee: Ieee, k: real)
    requires k == if cfg.scale == 0.0 then 1.0 else cfg.scale
    requires cfg.dataType in {"uint16", "int16", "bool"}
    ensures var u, r := 256 * (a as int) + b, DecodeRegister([a, b] + more, cfg, ieee);
      r.Success? && r.value ==
        (if cfg.dataType == "bool" then if a != 0 then 1.0 else 0.0
         else if cfg.dataType == "int16" && u >= 0x8000 then (u - 0x1_0000) as real
         else u as real) * k + cfg.offset
  {
    Powers();
    var u := 256 * (a as int) + b;
    assert ([a, b] + more)[..2] == [a, b];
    TwoBytes([a, b]);
    var v := if cfg.dataType == "bool" then if a != 0 then 1.0 else 0.0
             else if cfg.dataType == "int16" && u >= 0x8000 then (u - 0x1_0000) as real else u as real;
    assert DecodeRegister([a, b] + more, cfg, ieee) == Success(Scaled(v, cfg));
    ScaledMeans(v, cfg, k);
  }

  /** Decoding fails exactly on an unknown type, on fewer bytes than the type needs, and on an unknown
      order where the type uses one. */
  lemma DecodeFails(raw: seq<Byte>, cfg: RegisterFormat, ieee: Ieee)
    ensures var t := cfg.dataType;
      var uses := t in {"uint32", "int32", "timestamp_unix", "float32", "float64"};
      DecodeRegister(raw, cfg, ieee).Failure? <==>
        || t !in {"bool", "uint16", "int16", "uint32", "int32", "timestamp_unix", "float32", "float64"}
        || |raw| < (if t == "bool" then 1 else if t == "float64" then 8 else if uses then 4 else 2)
        || (uses && cfg.byteOrder !in {"", "big", "little", "mid-big", "mid-little"})
  {
  }
}
