/**
 * Go's fixed-width integer types on a 64-bit platform, and the truncating
 * conversions Go performs when an `int` is converted to a narrower type
 * (`int8(i)`, `uint16(i)`, ...): the low bits are kept and re-read in two's
 * complement.
 */
module Integers {

  /** The bit widths Go's `strconv` functions are asked for here. */
  datatype Width = W8 | W16 | W32 | W64 {

    /** 2^bits */
    function Modulus(): nat {
      match this
      case W8 => 0x100
      case W16 => 0x1_0000
      case W32 => 0x1_0000_0000
      case W64 => 0x1_0000_0000_0000_0000
    }

    /** 2^(bits - 1): the first value a signed integer of this width cannot hold. */
    function Half(): nat {
      match this
      case W8 => 0x80
      case W16 => 0x8000
      case W32 => 0x8000_0000
      case W64 => 0x8000_0000_0000_0000
    }
  }

  predicate InSigned(x: int, w: Width) {
    -(w.Half() as int) <= x < w.Half()
  }

  predicate InUnsigned(x: int, w: Width) {
    0 <= x < w.Modulus()
  }

  type Byte = x: int | 0 <= x < 0x100

  /** A Go `uint32`, the type of an event's status code. */
  type Uint32 = x: int | 0 <= x < 0x1_0000_0000

  /** The ten integer types that the configuration getters return. `Int` and `Uint` are 64 bits wide. */
  datatype IntKind = Int | Int8 | Int16 | Int32 | Int64 | Uint | Uint8 | Uint16 | Uint32 | Uint64 {

    predicate Signed() {
      Int? || Int8? || Int16? || Int32? || Int64?
    }

    function Width(): Width {
      match this
      case Int8 | Uint8 => W8
      case Int16 | Uint16 => W16
      case Int32 | Uint32 => W32
      case Int | Int64 | Uint | Uint64 => W64
    }

    /** x is a value of this Go type. */
    predicate Holds(x: int) {
      if Signed() then InSigned(x, Width()) else InUnsigned(x, Width())
    }
  }

  /** Taking the remainder modulo 2^bits changes a number by a multiple of 2^bits. */
  lemma RemainderDifference(a: int, w: Width)
    ensures (a - a % w.Modulus()) % w.Modulus() == 0
  {
    match w
    case W8 => assert a - a % 0x100 == 0x100 * (a / 0x100);
    case W16 => assert a - a % 0x1_0000 == 0x1_0000 * (a / 0x1_0000);
    case W32 => assert a - a % 0x1_0000_0000 == 0x1_0000_0000 * (a / 0x1_0000_0000);
    case W64 =>
      assert a - a % 0x1_0000_0000_0000_0000 == 0x1_0000_0000_0000_0000 * (a / 0x1_0000_0000_0000_0000);
  }

  /** Go's conversion T(x) of an integer x to a signed type of width w. */
  function WrapSigned(x: int, w: Width): (r: int)
    ensures InSigned(r, w)
    ensures (x - r) % w.Modulus() == 0
    ensures InSigned(x, w) ==> r == x
    ensures InSigned(x + w.Modulus(), w) ==> r == x + w.Modulus()
    ensures InSigned(x - w.Modulus(), w) ==> r == x - w.Modulus()
  {
    var m, h := w.Modulus(), w.Half();
    RemainderDifference(x + h, w);
    (x + h) % m - h
  }

  /** Go's conversion T(x) of an integer x to an unsigned type of width w. */
  function WrapUnsigned(x: int, w: Width): (r: int)
    ensures InUnsigned(r, w)
    ensures (x - r) % w.Modulus() == 0
    ensures InUnsigned(x, w) ==> r == x
    ensures InUnsigned(x + w.Modulus(), w) ==> r == x + w.Modulus()
  {
    RemainderDifference(x, w);
    x % w.Modulus()
  }

  /** Go's conversion of an `int` to the type `k`. */
  function Convert(x: int, k: IntKind): (r: int)
    ensures k.Holds(r)
    ensures (x - r) % k.Width().Modulus() == 0
    ensures k.Holds(x) ==> r == x
  {
    if k.Signed() then WrapSigned(x, k.Width()) else WrapUnsigned(x, k.Width())
  }
}
