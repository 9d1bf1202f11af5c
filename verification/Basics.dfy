/** Bytes, 64-bit unsigned arithmetic, errors and results shared by every module. */
module Basics {

  type byte = x: nat | x < 256

  const U64_LIMIT: nat := 0x1_0000_0000_0000_0000

  /** An unsigned 64-bit integer, as the on-disk fields and file offsets use it. */
  type u64 = x: nat | x < U64_LIMIT

  datatype Error =
    | Io
    | AeadDecryptFailed
    | IndexChainBroken
    | IndexMacMismatch
    | NoValidLocator
    | InvalidConfig
    | InvalidChunkSize
    | FileNotFound
    | IncompleteFile
    | FileAlreadyExists
    | FileHashMismatch
    | BlobNotFound
    | NoWritableBlob
    | FileExceedsBlobCapacity
    | IntegerOverflow
    | RetryBudgetExceeded

  datatype Option<+T> = None | Some(value: T)

  datatype Result<+T> = Ok(value: T) | Err(error: Error) {
    predicate IsFailure() { Err? }

    function PropagateFailure<U>(): Result<U>
      requires Err?
    {
      Err(error)
    }

    function Extract(): T
      requires Ok?
    {
      value
    }
  }

  function CheckedAdd(a: nat, b: nat): Result<u64> {
    if a + b < U64_LIMIT then Ok(a + b) else Err(IntegerOverflow)
  }

  function CheckedMul(a: nat, b: nat): Result<u64> {
    if a * b < U64_LIMIT then Ok(a * b) else Err(IntegerOverflow)
  }

  function SaturatingSub(a: nat, b: nat): nat {
    if a < b then 0 else a - b
  }

  function Min(a: int, b: int): int {
    if a < b then a else b
  }

  function Max(a: int, b: int): int {
    if a < b then b else a
  }

  lemma Product(d: nat, a: nat, b: nat)
    requires a <= b
    ensures d * a <= d * b
  {
  }

  function Range(lo: nat, m: nat): (range: set<nat>)
    ensures forall k :: k in range <==> lo <= k < lo + m
    ensures |range| == m
  {
    if m == 0 then {} else Range(lo, m - 1) + {lo + m - 1}
  }

  lemma {:induction false} SubsetSize(a: set<nat>, b: set<nat>)
    requires a <= b
    ensures |a| <= |b|
  {
    if a != {} {
      var x :| x in a;
      SubsetSize(a - {x}, b - {x});
    }
  }

  /** Little-endian encoding of the low `width` bytes of `n`. */
  function LittleEndian(n: nat, width: nat): (bytes: seq<byte>)
    ensures |bytes| == width
    decreases width, n
  {
    if width == 0 then [] else [n % 256] + LittleEndian(n / 256, width - 1)
  }

  function FromLittleEndian(bytes: seq<byte>): nat {
    if bytes == [] then 0 else bytes[0] + 256 * FromLittleEndian(bytes[1..])
  }

  function Pow(base: nat, exponent: nat): nat {
    if exponent == 0 then 1 else base * Pow(base, exponent - 1)
  }

  lemma {:induction false} LittleEndianRoundTrip(n: nat, width: nat)
    requires n < Pow(256, width)
    ensures FromLittleEndian(LittleEndian(n, width)) == n
  {
    if width == 0 {
    } else {
      var bytes := LittleEndian(n, width);
      LittleEndianRoundTrip(n / 256, width - 1);
      assert bytes[1..] == LittleEndian(n / 256, width - 1);
    }
  }

  lemma {:induction false} FromLittleEndianRoundTrip(bytes: seq<byte>)
    ensures FromLittleEndian(bytes) < Pow(256, |bytes|)
    ensures LittleEndian(FromLittleEndian(bytes), |bytes|) == bytes
  {
    if bytes == [] {
    } else {
      FromLittleEndianRoundTrip(bytes[1..]);
      var n := bytes[0] + 256 * FromLittleEndian(bytes[1..]);
      assert n % 256 == bytes[0] && n / 256 == FromLittleEndian(bytes[1..]);
    }
  }

  /** The byte at position `i` weighs 256^i. */
  lemma {:induction false} ByteWeighs(bytes: seq<byte>, i: nat, b: byte)
    requires i < |bytes|
    ensures FromLittleEndian(bytes[i := b]) == FromLittleEndian(bytes) + (b - bytes[i]) * Pow(256, i)
  {
    var now := bytes[i := b];
    if i == 0 {
      assert now[1..] == bytes[1..];
    } else {
      assert now[1..] == bytes[1..][i - 1 := b];
      ByteWeighs(bytes[1..], i - 1, b);
      var d, p := b - bytes[i], Pow(256, i - 1);
      assert 256 * (d * p) == d * (256 * p);
    }
  }

  lemma U64Width()
    ensures Pow(256, 8) == U64_LIMIT
  {
    assert Pow(256, 4) == 0x1_0000_0000;
    assert Pow(256, 8) == 256 * (256 * (256 * (256 * Pow(256, 4))));
  }

  /** Exclusive or of the low `width` bits of `a` and `b`. */
  function XorBits(a: nat, b: nat, width: nat): (x: nat)
    ensures x < Pow(2, width)
  {
    if width == 0 then 0 else (a + b) % 2 + 2 * XorBits(a / 2, b / 2, width - 1)
  }

  function Xor(a: byte, b: byte): byte {
    assert Pow(2, 8) == 256;
    XorBits(a, b, 8)
  }

  lemma Halves(bit: nat, rest: nat)
    requires bit < 2
    ensures (bit + 2 * rest) % 2 == bit && (bit + 2 * rest) / 2 == rest
  {
  }

  lemma BitTwice(a: nat, b: nat, rest: nat)
    ensures ((a + b) % 2 + 2 * rest + b) % 2 == a % 2
  {
    var q := (a + b) / 2;
    assert (a + b) % 2 == a + b - 2 * q;
    Halves(a % 2, a / 2 + b - q + rest);
  }

  lemma {:induction false} XorBitsInvolutive(a: nat, b: nat, width: nat)
    requires a < Pow(2, width)
    ensures XorBits(XorBits(a, b, width), b, width) == a
  {
    if width == 0 {
    } else {
      var bit, rest := (a + b) % 2, XorBits(a / 2, b / 2, width - 1);
      Halves(bit, rest);
      XorBitsInvolutive(a / 2, b / 2, width - 1);
      calc {
        XorBits(XorBits(a, b, width), b, width);
        XorBits(bit + 2 * rest, b, width);
        (bit + 2 * rest + b) % 2 + 2 * XorBits(rest, b / 2, width - 1);
        { BitTwice(a, b, rest); }
        a % 2 + 2 * (a / 2);
        a;
      }
    }
  }

  lemma XorInvolutive(a: byte, b: byte)
    ensures Xor(Xor(a, b), b) == a
  {
    assert Pow(2, 8) == 256;
    XorBitsInvolutive(a, b, 8);
  }

  function Bit(n: nat, i: nat): nat {
    if i == 0 then n % 2 else Bit(n / 2, i - 1)
  }

  lemma {:induction false} XorBitsAt(a: nat, b: nat, width: nat, i: nat)
    requires i < width
    ensures Bit(XorBits(a, b, width), i) == (Bit(a, i) + Bit(b, i)) % 2
  {
    var rest := XorBits(a / 2, b / 2, width - 1);
    Halves((a + b) % 2, rest);
    if i == 0 {
      ParityOfSum(a, b);
    } else {
      assert Bit((a + b) % 2 + 2 * rest, i) == Bit(rest, i - 1);
      XorBitsAt(a / 2, b / 2, width - 1, i - 1);
    }
  }

  lemma ParityOfSum(a: nat, b: nat)
    ensures (a % 2 + b % 2) % 2 == (a + b) % 2
  {
  }

  /** Exclusive or, bit by bit. */
  lemma XorAt(a: byte, b: byte, i: nat)
    requires i < 8
    ensures Bit(Xor(a, b), i) == (Bit(a, i) + Bit(b, i)) % 2
  {
    XorBitsAt(a, b, 8, i);
  }

  lemma {:induction false} XorBitsCommutes(a: nat, b: nat, width: nat)
    ensures XorBits(a, b, width) == XorBits(b, a, width)
  {
    if width == 0 {
    } else {
      XorBitsCommutes(a / 2, b / 2, width - 1);
    }
  }

  lemma {:induction false} XorBitsZero(a: nat, width: nat)
    requires a < Pow(2, width)
    ensures XorBits(a, 0, width) == a
  {
    if width == 0 {
    } else {
      XorBitsZero(a / 2, width - 1);
    }
  }

  lemma XorCommutes(a: byte, b: byte)
    ensures Xor(a, b) == Xor(b, a)
  {
    XorBitsCommutes(a, b, 8);
  }

  /** What combines with a byte is determined by the result, any result can be reached, and only zero
      leaves the byte as it is. */
  lemma XorSolves(a: byte, b: byte, c: byte)
    ensures Xor(a, b) == c <==> b == Xor(a, c)
    ensures Xor(a, b) == Xor(a, c) ==> b == c
    ensures Xor(a, b) == a <==> b == 0
  {
    assert Pow(2, 8) == 256;
    XorCommutes(a, b);
    XorCommutes(a, c);
    XorCommutes(a, a);
    XorInvolutive(b, a);
    XorInvolutive(c, a);
    XorBitsZero(a, 8);
    XorCommutes(a, 0);
    XorInvolutive(0, a);
  }
}
