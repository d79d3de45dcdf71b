/**
 * Identity of one allocation of a persistent task on a node (the private class
 * PersistentTaskId of PersistentTasksNodeService): the task id together with the
 * allocation id. A new allocation of the same task is a different key.
 */
module TaskIdentity {

  /** Java's `long`. */
  newtype int64 = x: int | -0x8000_0000_0000_0000 <= x < 0x8000_0000_0000_0000

  datatype TaskKey = TaskKey(id: int64, allocationId: int64)

  /** PersistentTaskId.equals: both the id and the allocation id must agree. */
  function KeyEquals(a: TaskKey, b: TaskKey): (r: bool)
    ensures r <==> a == b
  {
    a.id == b.id && a.allocationId == b.allocationId
  }

  /** 2 to the power `n`. */
  function Pow2(n: nat): (r: nat)
    ensures r >= 1
  {
    if n == 0 then 1 else 2 * Pow2(n - 1)
  }

  /** Bitwise exclusive or of two non-negative integers, bit by bit from the lowest. */
  function Xor(a: nat, b: nat): nat
    decreases a + b
  {
    if a == 0 then b
    else if b == 0 then a
    else 2 * Xor(a / 2, b / 2) + (if a % 2 == b % 2 then 0 else 1)
  }

  /** Java's narrowing to `int`: the low 32 bits, read as two's complement. */
  function Int32(x: int): (r: int)
    ensures -0x8000_0000 <= r < 0x8000_0000
    ensures (r - x) % 0x1_0000_0000 == 0
  {
    var m := x % 0x1_0000_0000;
    if m < 0x8000_0000 then m else m - 0x1_0000_0000
  }

  /** Narrowing keeps a value that already fits in an `int`. */
  lemma Int32OfInt(x: int)
    requires -0x8000_0000 <= x < 0x8000_0000
    ensures Int32(x) == x
  {
    if x < 0 {
      assert x % 0x1_0000_0000 == x + 0x1_0000_0000;
    } else {
      assert x % 0x1_0000_0000 == x;
    }
  }

  /**
   * Long.hashCode, `(int) (v ^ (v >>> 32))`: the low 32 bits of the result are the
   * low word of `v` xor its high word, both taken from the 64-bit two's-complement pattern.
   */
  function LongHash(v: int64): int
  {
    var u := v as int % 0x1_0000_0000_0000_0000;
    Int32(Xor(u % 0x1_0000_0000, u / 0x1_0000_0000))
  }

  /**
   * PersistentTaskId.hashCode, `Objects.hash(id, allocationId)`: starting from 1,
   * each field's hash is added to 31 times the running value, wrapping at 32 bits.
   */
  function HashCode(k: TaskKey): int
  {
    Int32(31 * Int32(31 * 1 + LongHash(k.id)) + LongHash(k.allocationId))
  }

  lemma {:induction false} Pow2Add(a: nat, b: nat)
    ensures Pow2(a + b) == Pow2(a) * Pow2(b)
    decreases a
  {
    if a > 0 {
      Pow2Add(a - 1, b);
    }
  }

  /** A 32-bit word has 2^32 values. */
  lemma Pow2Word()
    ensures Pow2(32) == 0x1_0000_0000
  {
    assert Pow2(2) == 4;
    Pow2Add(2, 2);
    Pow2Add(4, 4);
    Pow2Add(8, 8);
    Pow2Add(16, 16);
  }

  /** Xor with a word of `n` one bits complements the low `n` bits. */
  lemma {:induction false} XorOnes(a: nat, n: nat)
    requires a < Pow2(n)
    ensures Xor(a, Pow2(n) - 1) == Pow2(n) - 1 - a
  {
    if n > 0 && a > 0 && Pow2(n) - 1 > 0 {
      assert (Pow2(n) - 1) / 2 == Pow2(n - 1) - 1 && (Pow2(n) - 1) % 2 == 1;
      XorOnes(a / 2, n - 1);
    } else if n > 0 && a == 0 {
    }
  }

  /** Long.hashCode of a `long` that fits in a non-negative `int` is the value itself. */
  lemma LongHashOfSmall(v: int64)
    requires 0 <= v < 0x8000_0000
    ensures LongHash(v) == v as int
  {
    var u := v as int % 0x1_0000_0000_0000_0000;
    assert u == v as int && u / 0x1_0000_0000 == 0;
  }

  /** Long.hashCode of a `long` that fits in a negative `int` is its complement, -1 - v. */
  lemma LongHashOfSmallNegative(v: int64)
    requires -0x8000_0000 <= v < 0
    ensures LongHash(v) == -1 - v as int
  {
    var u := v as int % 0x1_0000_0000_0000_0000;
    assert u == v as int + 0x1_0000_0000_0000_0000;
    assert u / 0x1_0000_0000 == 0xFFFF_FFFF && u % 0x1_0000_0000 == v as int + 0x1_0000_0000;
    Pow2Word();
    XorOnes(u % 0x1_0000_0000, 32);
  }

  /**
   * For ids small enough that nothing wraps around, the hash code is the plain
   * polynomial 31 * (31 + id) + allocationId.
   */
  lemma HashCodeOfSmallKey(k: TaskKey)
    requires 0 <= k.id && 0 <= k.allocationId && 961 + 31 * k.id as int + k.allocationId as int < 0x8000_0000
    ensures HashCode(k) == 961 + 31 * k.id as int + k.allocationId as int
  {
    var h1, h2 := LongHash(k.id), LongHash(k.allocationId);
    LongHashOfSmall(k.id);
    LongHashOfSmall(k.allocationId);
    assert HashCode(k) == Int32(31 * Int32(31 * 1 + h1) + h2);
    Int32OfInt(31 * 1 + h1);
    Int32OfInt(31 * (31 * 1 + h1) + h2);
  }
}
