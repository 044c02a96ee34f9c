/** The simulated memory: zeroed blocks, allocated when first written, that together look like one
    flat map of bytes. */
module Memory {
  import opened Words
  import opened Arithmetic
  import opened FlatMemory

  /** What an access answers; Refused is the out_of_range exception. */
  datatype Answer = Value(value: bv64) | Refused

  predicate IsWidth(n: nat) { n == 1 || n == 2 || n == 4 || n == 8 }

  predicate IsAddress(a: int) { 0 <= a < TWO64 }

  /** The test a sized access makes first, in unsigned 64-bit arithmetic. */
  predicate PassesCheck(size: nat, a: int, n: nat) {
    a < (size - (n - 1)) % TWO64
  }

  /** How many bytes a refused store of n bytes has changed: in a memory smaller than n - 1 bytes
      the test wraps around, and the bytes up to the end are written before the refusal. */
  function Torn(size: nat, a: int, n: nat): nat {
    if size < n - 1 && a < size then size - a else 0
  }

  class Memory {
    var blocks: map<int, seq<bv8>>
    const blockSize: nat
    const memorySize: nat
    ghost var contents: Flat

    /** The byte at address a, whether its block exists or not. */
    ghost function Byte(a: int): bv8
      requires blockSize > 0 && forall k :: k in blocks ==> |blocks[k]| == blockSize
      reads this
    {
      if a / blockSize in blocks then blocks[a / blockSize][a % blockSize] else 0
    }

    ghost predicate Valid()
      reads this
    {
      && blockSize > 0 && memorySize < TWO64
      && (forall k :: k in blocks ==> |blocks[k]| == blockSize)
      && (forall a :: Byte(a) == ByteAt(contents, a))
    }

    constructor (blockSize: nat, memorySize: nat)
      requires blockSize > 0 && memorySize < TWO64
      ensures Valid() && this.blockSize == blockSize && this.memorySize == memorySize && contents == map[]
    {
      this.blockSize := blockSize;
      this.memorySize := memorySize;
      blocks := map[];
      contents := map[];
    }

    method Reset()
      requires Valid()
      modifies this
      ensures Valid() && contents == map[]
    {
      blocks := map[];
      contents := map[];
    }

    method Read(a: int) returns (ok: bool, b: bv8)
      requires Valid()
      ensures ok == (a < memorySize) && (ok ==> b == ByteAt(contents, a))
    {
      if a >= memorySize { return false, 0; }
      assert Byte(a) == ByteAt(contents, a);
      var index, offset := a / blockSize, a % blockSize;
      if index !in blocks { return true, 0; }
      return true, blocks[index][offset];
    }

    method EnsureBlockExists(index: int)
      requires Valid()
      modifies this`blocks
      ensures Valid() && index in blocks
    {
      if index !in blocks {
        label before:
        blocks := blocks[index := seq(blockSize, _ => 0)];
        assert forall a :: Byte(a) == old@before(Byte(a));
      }
    }

    method Write(a: int, v: bv8) returns (ok: bool)
      requires Valid()
      modifies this
      ensures Valid() && ok == (a < memorySize)
      ensures contents == if ok then old(contents)[a := v] else old(contents)
    {
      if a >= memorySize { return false; }
      var index, offset := a / blockSize, a % blockSize;
      EnsureBlockExists(index);
      label before:
      blocks := blocks[index := blocks[index][offset := v]];
      contents := contents[a := v];
      forall b
        ensures Byte(b) == ByteAt(contents, b)
      {
        DivMod(a, blockSize);
        DivMod(b, blockSize);
        assert old@before(Byte(b)) == ByteAt(old(contents), b);
      }
      return true;
    }

    method ReadGeneric(a: int, n: nat) returns (r: Answer)
      requires Valid() && IsAddress(a) && n <= 8
      ensures r == if a + n <= memorySize || n == 0 then Value(Loaded(contents, a, n)) else Refused
    {
      var value: bv64 := 0;
      for i := 0 to n
        invariant a + i <= memorySize || i == 0
        invariant value == Loaded(contents, a, i)
      {
        var ok, b := Read((a + i) % TWO64);
        if !ok { return Refused; }
        value := Put(value, b, i);
      }
      return Value(value);
    }

    method WriteGeneric(a: int, v: bv64, n: nat) returns (ok: bool)
      requires Valid() && IsAddress(a) && n <= 8
      modifies this
      ensures Valid() && ok == (a + n <= memorySize || n == 0)
      ensures contents == Stored(old(contents), a, v, if ok then n else if a < memorySize then memorySize - a else 0)
    {
      for i := 0 to n
        invariant Valid()
        invariant a + i <= memorySize || i == 0
        invariant contents == Stored(old(contents), a, v, i)
      {
        ok := Write((a + i) % TWO64, Slice(v, i));
        if !ok { return; }
      }
      ok := true;
    }

    /** ReadByte, ReadHalfWord, ReadWord and ReadDoubleWord. */
    method ReadSized(a: int, n: nat) returns (r: Answer)
      requires Valid() && IsAddress(a) && IsWidth(n)
      ensures r == if a + n <= memorySize then Value(Loaded(contents, a, n)) else Refused
    {
      if !PassesCheck(memorySize, a, n) { return Refused; }
      r := ReadGeneric(a, n);
    }

    /** WriteByte, WriteHalfWord, WriteWord and WriteDoubleWord. */
    method WriteSized(a: int, v: bv64, n: nat) returns (ok: bool)
      requires Valid() && IsAddress(a) && IsWidth(n)
      modifies this
      ensures Valid() && ok == (a + n <= memorySize)
      ensures contents == Stored(old(contents), a, v, if ok then n else Torn(memorySize, a, n))
    {
      if !PassesCheck(memorySize, a, n) { return false; }
      ok := WriteGeneric(a, v, n);
    }
  }

  /** A refused store changes nothing, whatever its address, exactly when the memory is empty or at
      least one byte short of the access at most. */
  lemma AllOrNothing(size: nat, n: nat)
    requires IsWidth(n) && size < TWO64
    ensures (forall a :: IsAddress(a) && a + n > size ==> Torn(size, a, n) == 0) <==> size == 0 || size >= n - 1
  {
    if 0 < size < n - 1 {
      assert IsAddress(0) && 0 + n > size && Torn(size, 0, n) == size;
    }
  }

  // ----- sequences of accesses -----

  datatype Access = Load(a: int, n: nat) | Store(a: int, v: bv64, n: nat)

  predicate IsAccess(x: Access) { IsAddress(x.a) && IsWidth(x.n) }

  /** One access to a flat memory of the given size. */
  function Effect(f: Flat, size: nat, x: Access): Flat
    requires IsAccess(x)
  {
    if x.Store? && x.a + x.n <= size then Stored(f, x.a, x.v, x.n) else f
  }

  function Reply(f: Flat, size: nat, x: Access): Answer
    requires IsAccess(x)
  {
    if x.a + x.n > size then Refused
    else if x.Load? then Value(Loaded(f, x.a, x.n))
    else Value(0)
  }

  predicate AreAccesses(xs: seq<Access>) {
    forall i :: 0 <= i < |xs| ==> IsAccess(xs[i])
  }

  /** The flat memory after the first i accesses. */
  function After(f: Flat, size: nat, xs: seq<Access>, i: nat): Flat
    requires AreAccesses(xs) && i <= |xs|
  {
    if i == 0 then f else Effect(After(f, size, xs, i - 1), size, xs[i - 1])
  }

  method Perform(m: Memory, x: Access) returns (reply: Answer)
    requires m.Valid() && m.memorySize >= 7 && IsAccess(x)
    modifies m
    ensures m.Valid() && m.contents == Effect(old(m.contents), m.memorySize, x)
    ensures reply == Reply(old(m.contents), m.memorySize, x)
  {
    match x {
      case Load(a, n) =>
        reply := m.ReadSized(a, n);
      case Store(a, v, n) =>
        var ok := m.WriteSized(a, v, n);
        reply := if ok then Value(0) else Refused;
    }
  }

  /** Any sequence of sized loads and stores, of any widths, overlapping or straddling blocks, gets
      the answers and leaves the contents of the flat memory. */
  method Replay(m: Memory, xs: seq<Access>) returns (replies: seq<Answer>)
    requires m.Valid() && m.memorySize >= 7 && AreAccesses(xs)
    modifies m
    ensures m.Valid() && m.contents == After(old(m.contents), m.memorySize, xs, |xs|)
    ensures |replies| == |xs|
    ensures forall i :: 0 <= i < |xs| ==>
      replies[i] == Reply(After(old(m.contents), m.memorySize, xs, i), m.memorySize, xs[i])
  {
    hide Effect, Reply, m.Valid;
    replies := [];
    for i := 0 to |xs|
      invariant m.Valid() && m.contents == After(old(m.contents), m.memorySize, xs, i)
      invariant |replies| == i
      invariant forall k :: 0 <= k < i ==>
        replies[k] == Reply(After(old(m.contents), m.memorySize, xs, k), m.memorySize, xs[k])
    {
      var r := Perform(m, xs[i]);
      replies := replies + [r];
    }
  }
}
