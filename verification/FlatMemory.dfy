/** Memory as a flat, zero-initialised map of bytes, accessed in little-endian order. */
module FlatMemory {
  /** A byte that was never stored is zero. */
  type Flat = map<int, bv8>

  function ByteAt(f: Flat, a: int): bv8 { if a in f then f[a] else 0 }

  // ----- splitting a value into bytes -----

  /** The i-th byte of v. */
  function Slice(v: bv64, i: nat): bv8
    requires i < 8
  {
    if i == 0 then (v & 0xFF) as bv8
    else if i == 1 then ((v >> 8) & 0xFF) as bv8
    else if i == 2 then ((v >> 16) & 0xFF) as bv8
    else if i == 3 then ((v >> 24) & 0xFF) as bv8
    else if i == 4 then ((v >> 32) & 0xFF) as bv8
    else if i == 5 then ((v >> 40) & 0xFF) as bv8
    else if i == 6 then ((v >> 48) & 0xFF) as bv8
    else (v >> 56) as bv8
  }

  /** w with byte b merged into the i-th place. */
  function Put(w: bv64, b: bv8, i: nat): bv64
    requires i < 8
  {
    var v := b as bv64;
    if i == 0 then w | v
    else if i == 1 then w | (v << 8)
    else if i == 2 then w | (v << 16)
    else if i == 3 then w | (v << 24)
    else if i == 4 then w | (v << 32)
    else if i == 5 then w | (v << 40)
    else if i == 6 then w | (v << 48)
    else w | (v << 56)
  }

  /** The low i bytes of v. */
  function Trim(v: bv64, i: nat): bv64
    requires i <= 8
  {
    if i == 0 then 0
    else if i == 1 then v & 0xFF
    else if i == 2 then v & 0xFFFF
    else if i == 3 then v & 0xFFFFFF
    else if i == 4 then v & 0xFFFFFFFF
    else if i == 5 then v & 0xFFFFFFFFFF
    else if i == 6 then v & 0xFFFFFFFFFFFF
    else if i == 7 then v & 0xFFFFFFFFFFFFFF
    else v
  }

  // Merging the next byte lengthens the prefix by one.

  lemma PutSlice0(v: bv64)
    ensures Put(Trim(v, 0), Slice(v, 0), 0) == Trim(v, 1)
  {
  }

  lemma PutSlice1(v: bv64)
    ensures Put(Trim(v, 1), Slice(v, 1), 1) == Trim(v, 2)
  {
  }

  lemma PutSlice2(v: bv64)
    ensures Put(Trim(v, 2), Slice(v, 2), 2) == Trim(v, 3)
  {
  }

  lemma PutSlice3(v: bv64)
    ensures Put(Trim(v, 3), Slice(v, 3), 3) == Trim(v, 4)
  {
  }

  lemma PutSlice4(v: bv64)
    ensures Put(Trim(v, 4), Slice(v, 4), 4) == Trim(v, 5)
  {
  }

  lemma PutSlice5(v: bv64)
    ensures Put(Trim(v, 5), Slice(v, 5), 5) == Trim(v, 6)
  {
  }

  lemma PutSlice6(v: bv64)
    ensures Put(Trim(v, 6), Slice(v, 6), 6) == Trim(v, 7)
  {
  }

  lemma PutSlice7(v: bv64)
    ensures Put(Trim(v, 7), Slice(v, 7), 7) == Trim(v, 8)
  {
  }

  lemma PutSlice(v: bv64, i: nat)
    requires i < 8
    ensures Put(Trim(v, i), Slice(v, i), i) == Trim(v, i + 1)
  {
    hide *;
    if i == 0 { PutSlice0(v); } else if i == 1 { PutSlice1(v); } else if i == 2 { PutSlice2(v); }
    else if i == 3 { PutSlice3(v); } else if i == 4 { PutSlice4(v); } else if i == 5 { PutSlice5(v); }
    else if i == 6 { PutSlice6(v); } else { PutSlice7(v); }
  }

  // ----- accesses -----

  function Stored(f: Flat, a: int, v: bv64, n: nat): Flat
    requires n <= 8
  {
    if n == 0 then f else Stored(f, a, v, n - 1)[a + n - 1 := Slice(v, n - 1)]
  }

  function Loaded(f: Flat, a: int, n: nat): bv64
    requires n <= 8
  {
    if n == 0 then 0 else Put(Loaded(f, a, n - 1), ByteAt(f, a + n - 1), n - 1)
  }

  /** A store changes exactly its own bytes. */
  lemma {:induction false} StoredBytes(f: Flat, a: int, v: bv64, n: nat, b: int)
    requires n <= 8
    ensures ByteAt(Stored(f, a, v, n), b) == if a <= b < a + n then Slice(v, b - a) else ByteAt(f, b)
  {
    hide Slice;
    if n > 0 { StoredBytes(f, a, v, n - 1, b); }
  }

  lemma {:induction false} LoadedDepends(f: Flat, g: Flat, a: int, n: nat)
    requires n <= 8 && forall b :: a <= b < a + n ==> ByteAt(f, b) == ByteAt(g, b)
    ensures Loaded(f, a, n) == Loaded(g, a, n)
  {
    hide Put, ByteAt;
    if n > 0 { LoadedDepends(f, g, a, n - 1); }
  }

  lemma {:induction false} LoadedPrefix(f: Flat, a: int, v: bv64, n: nat, k: nat)
    requires k <= n <= 8
    ensures Loaded(Stored(f, a, v, n), a, k) == Trim(v, k)
  {
    hide Slice, Put, Trim, Stored, ByteAt;
    if k == 0 {
      NoBytes(v);
    } else {
      LoadedPrefix(f, a, v, n, k - 1);
      StoredBytes(f, a, v, n, a + k - 1);
      PutSlice(v, k - 1);
    }
  }

  lemma NoBytes(v: bv64)
    ensures Trim(v, 0) == 0
  {
  }

  /** A load returns the low bytes of the store of the same place. */
  lemma LoadAfterStore(f: Flat, a: int, v: bv64, n: nat)
    requires n <= 8
    ensures Loaded(Stored(f, a, v, n), a, n) == Trim(v, n)
  {
    LoadedPrefix(f, a, v, n, n);
  }

  /** A store leaves loads of other bytes alone. */
  lemma LoadElsewhere(f: Flat, a: int, v: bv64, n: nat, b: int, k: nat)
    requires n <= 8 && k <= 8 && (b + k <= a || a + n <= b)
    ensures Loaded(Stored(f, a, v, n), b, k) == Loaded(f, b, k)
  {
    forall c | b <= c < b + k
      ensures ByteAt(Stored(f, a, v, n), c) == ByteAt(f, c)
    {
      StoredBytes(f, a, v, n, c);
    }
    LoadedDepends(Stored(f, a, v, n), f, b, k);
  }
}
