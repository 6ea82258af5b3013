/** Bytes, byte strings and the result type shared by the other modules. */
module Bytes {

  newtype Byte = b: int | 0 <= b < 256

  /** The bit pattern of a byte. */
  function Pattern(b: Byte): bv8 { b as int as bv8 }

  lemma PatternSuccessor(v: bv8)
    requires v != 255
    ensures (v + 1) as int == v as int + 1
  {
  }

  lemma PatternOfValue(v: bv8)
    ensures (v as int) as bv8 == v
  {
  }

  lemma PatternLimits()
    ensures (0 as bv8) as int == 0 && (255 as bv8) as int == 255
  {
  }

  lemma {:induction false} PatternExists(k: int) returns (v: bv8)
    requires 0 <= k < 256
    ensures v as int == k
  {
    if k == 0 {
      v := 0;
    } else {
      var u := PatternExists(k - 1);
      PatternLimits();
      PatternSuccessor(u);
      v := u + 1;
    }
  }

  lemma PatternValue(b: Byte)
    ensures Pattern(b) as int == b as int
  {
    var v := PatternExists(b as int);
    PatternOfValue(v);
  }

  lemma PatternInjective(a: Byte, b: Byte)
    requires Pattern(a) == Pattern(b)
    ensures a == b
  {
    hide Pattern;
    PatternValue(a);
    PatternValue(b);
  }

  /** Outcome of a call that the program reports as a value or an error code. */
  datatype Result<+T> = Ok(value: T) | Err(error: ErrorCode)

  /** The error codes that the modelled operations return. */
  datatype ErrorCode =
    | AlreadyInitialized
    | NotInitialized
    | InvalidChunkSize
    | InvalidChunkIndex
    | ChunkChecksumError
    | MissingChunks
    | FileReadError
    | FileWriteError
    | FileAccessDenied
    | FileNotFound
    | FileHashMismatch
    | InvalidFilePath
    | InvalidStateTransition
    | TransferAlreadyCompleted
    | TransferNotFound
    | InternalError

  datatype Option<+T> = Some(value: T) | None

  function Min(a: nat, b: nat): nat { if a <= b then a else b }

  lemma MultiplyMonotone(d: nat, x: int, y: int)
    ensures x <= y ==> d * x <= d * y
  {
  }

  /** Division with remainder is unique. */
  lemma Remainder(n: int, d: nat, q: int, r: int)
    requires d > 0 && n == d * q + r && 0 <= r < d
    ensures n % d == r && n / d == q
  {
    assert n == d * (n / d) + n % d;
    MultiplyMonotone(d, q + 1, n / d);
    MultiplyMonotone(d, n / d, q - 1);
  }

  function Zeros(n: nat): (z: seq<Byte>)
    ensures |z| == n && forall i :: 0 <= i < n ==> z[i] == 0
  {
    seq(n, _ => 0)
  }

  /** The concatenation of a list of byte strings. */
  function Concat(parts: seq<seq<Byte>>): (all: seq<Byte>) {
    if parts == [] then [] else parts[0] + Concat(parts[1..])
  }

  lemma ConcatEmpty()
    ensures Concat([]) == []
  {
  }

  lemma {:induction false} ConcatAppend(parts: seq<seq<Byte>>, last: seq<Byte>)
    ensures Concat(parts + [last]) == Concat(parts) + last
  {
    if parts == [] {
      assert parts + [last] == [last];
      assert Concat([last]) == last + Concat([]);
    } else {
      assert (parts + [last])[1..] == parts[1..] + [last];
      ConcatAppend(parts[1..], last);
    }
  }
}
