/** The disassembler's address space (src/Memory.java): a zero-initialised
    byte array, filled once by `Load` and read little-endian by `Fetch`. */
module Memory {

  type Byte = b: int | 0 <= b < 256

  /** 2^32: a Java int is kept as its unsigned 32-bit pattern. */
  const WORD_MOD: int := 0x1_0000_0000

  type Word = w: int | 0 <= w < 0x1_0000_0000

  /** The unbounded value of bytes stored least significant first. */
  function LittleEndian(s: seq<Byte>): nat {
    if s == [] then 0 else s[0] + 256 * LittleEndian(s[1..])
  }

  function Pow256(k: nat): (p: nat)
    ensures p >= 1
  {
    if k == 0 then 1 else 256 * Pow256(k - 1)
  }

  /** What Memory.fetch(addr, size) returns: the `size` bytes at `addr`,
      least significant first, reduced to the 32 bits of a Java int. */
  function FetchValue(m: seq<Byte>, addr: nat, size: nat): Word
    requires addr + size <= |m|
  {
    LittleEndian(m[addr..addr + size]) % WORD_MOD
  }

  lemma ModAddMultiple(a: int, k: nat)
    ensures (a + WORD_MOD * k) % WORD_MOD == a % WORD_MOD
  {
    if k > 0 {
      ModAddMultiple(a, k - 1);
      assert a + WORD_MOD * k == (a + WORD_MOD * (k - 1)) + WORD_MOD;
    }
  }

  /** One step of fetch's loop: `(val << 8) + b` on a Java int. */
  lemma ShiftInByte(x: nat, b: Byte)
    ensures ((x % WORD_MOD) * 256 + b) % WORD_MOD == (b + 256 * x) % WORD_MOD
  {
    var q, r := x / WORD_MOD, x % WORD_MOD;
    assert b + 256 * x == (r * 256 + b) + WORD_MOD * (256 * q);
    ModAddMultiple(r * 256 + b, 256 * q);
  }

  lemma {:induction false} LittleEndianAppend(a: seq<Byte>, b: seq<Byte>)
    ensures LittleEndian(a + b) == LittleEndian(a) + Pow256(|a|) * LittleEndian(b)
    decreases |a|
  {
    if a == [] {
      assert a + b == b;
    } else {
      assert (a + b)[1..] == a[1..] + b;
      LittleEndianAppend(a[1..], b);
      var x, p := LittleEndian(b), Pow256(|a| - 1);
      calc {
        LittleEndian(a + b);
        a[0] + 256 * LittleEndian(a[1..] + b);
        a[0] + 256 * (LittleEndian(a[1..]) + p * x);
        { Distribute(a[0], LittleEndian(a[1..]), p, x); }
        (a[0] + 256 * LittleEndian(a[1..])) + (256 * p) * x;
      }
    }
  }

  lemma Distribute(d: int, l: int, p: int, x: int)
    ensures d + 256 * (l + p * x) == (d + 256 * l) + (256 * p) * x
  {
  }

  lemma {:induction false} LittleEndianBound(s: seq<Byte>)
    ensures LittleEndian(s) < Pow256(|s|)
    decreases |s|
  {
    if s != [] {
      LittleEndianBound(s[1..]);
    }
  }

  /** A fetch of at most four bytes loses nothing to the 32-bit int. */
  lemma FetchExact(m: seq<Byte>, addr: nat, size: nat)
    requires addr + size <= |m| && size <= 4
    ensures FetchValue(m, addr, size) == LittleEndian(m[addr..addr + size]) < Pow256(size)
  {
    var v := LittleEndian(m[addr..addr + size]);
    LittleEndianBound(m[addr..addr + size]);
    Pow256Grows(size, 4);
    Pow256Word();
    ModSmall(v);
  }

  lemma ModSmall(x: nat)
    requires x < WORD_MOD
    ensures x % WORD_MOD == x
  {
  }

  lemma Pow256Word()
    ensures Pow256(4) == WORD_MOD
  {
  }

  lemma {:induction false} Pow256Grows(j: nat, k: nat)
    requires j <= k
    ensures Pow256(j) <= Pow256(k)
    decreases k - j
  {
    if j < k {
      Pow256Grows(j, k - 1);
    }
  }

  /** A one-byte fetch is the byte itself, hence in 0..255: the decoder's
      sign-extension test `< 0x80` relies on it. */
  lemma FetchByte(m: seq<Byte>, addr: nat)
    requires addr + 1 <= |m|
    ensures FetchValue(m, addr, 1) == m[addr]
  {
    var s := m[addr..addr + 1];
    assert s[1..] == [];
    assert LittleEndian(s) == m[addr];
  }

  /** A two-byte fetch is little-endian and lies in 0..0xffff: the test
      `< 0x8000` relies on it. */
  lemma FetchHalf(m: seq<Byte>, addr: nat)
    requires addr + 2 <= |m|
    ensures FetchValue(m, addr, 2) == m[addr] as int + 256 * m[addr + 1] as int
    ensures FetchValue(m, addr, 2) < 0x1_0000
  {
    var s := m[addr..addr + 2];
    assert s[1..][1..] == [];
    FetchExact(m, addr, 2);
  }

  /** Fetches of 8 and 16 bytes equal the 4-byte fetch at the same address:
      the higher bytes are shifted out of the int. */
  lemma FetchWide(m: seq<Byte>, addr: nat, size: nat)
    requires addr + size <= |m| && size >= 4
    ensures FetchValue(m, addr, size) == FetchValue(m, addr, 4)
  {
    var s := m[addr..addr + size];
    assert s == m[addr..addr + 4] + m[addr + 4..addr + size];
    LittleEndianAppend(m[addr..addr + 4], m[addr + 4..addr + size]);
    Pow256Word();
    ModAddMultiple(LittleEndian(m[addr..addr + 4]), LittleEndian(m[addr + 4..addr + size]));
  }

  class Memory {
    /** Java's `private final byte[] mem`, each byte read as `b & 0xff`. */
    const bytes: array<Byte>

    /** `new Memory(size)`: size zero bytes. */
    constructor (size: nat)
      ensures fresh(bytes) && bytes.Length == size
      ensures forall i | 0 <= i < size :: bytes[i] == 0
    {
      bytes := new Byte[size](_ => 0);
    }

    /** `load(raw, addr)`: System.arraycopy of raw to addr, which throws when
        the copy does not fit. */
    method Load(raw: seq<Byte>, addr: nat)
      requires addr + |raw| <= bytes.Length
      modifies bytes
      ensures forall i | 0 <= i < |raw| :: bytes[addr + i] == raw[i]
      ensures forall j | 0 <= j < bytes.Length && !(addr <= j < addr + |raw|) :: bytes[j] == old(bytes[j])
    {
      var i := 0;
      while i < |raw|
        invariant 0 <= i <= |raw|
        invariant forall k | 0 <= k < i :: bytes[addr + k] == raw[k]
        invariant forall j | 0 <= j < bytes.Length && !(addr <= j < addr + i) :: bytes[j] == old(bytes[j])
      {
        bytes[addr + i] := raw[i];
        i := i + 1;
      }
    }

    /** `fetch(addr, size)`: accumulates from the highest byte down, as
        `val = (val << 8) + (mem[addr+i] & 0xff)` with int wrap-around. */
    method Fetch(addr: nat, size: nat) returns (v: Word)
      requires addr + size <= bytes.Length
      ensures v == FetchValue(bytes[..], addr, size)
    {
      v := 0;
      var i: int := size - 1;
      while i >= 0
        invariant -1 <= i < size
        invariant v == LittleEndian(bytes[addr + i + 1..addr + size]) % WORD_MOD
        decreases i + 1
      {
        var s := bytes[addr + i..addr + size];
        assert s[1..] == bytes[addr + i + 1..addr + size];
        ShiftInByte(LittleEndian(s[1..]), bytes[addr + i]);
        v := (v * 256 + bytes[addr + i]) % WORD_MOD;
        i := i - 1;
      }
      assert bytes[..][addr..addr + size] == bytes[addr..addr + size];
    }
  }
}
