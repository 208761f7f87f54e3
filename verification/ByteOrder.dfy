/** Fixed-width unsigned integers as bytes, in either byte order, and records of fixed width. */
module ByteOrder {
  import opened Common

  datatype Endian = Little | Big

  function Pow256(k: nat): nat {
    if k == 0 then 1 else 256 * Pow256(k - 1)
  }

  function LittleBytes(n: nat, k: nat): (s: seq<byte>)
    ensures |s| == k
  {
    if k == 0 then [] else [n % 256] + LittleBytes(n / 256, k - 1)
  }

  function LittleValue(s: seq<byte>): nat {
    if s == [] then 0 else s[0] + 256 * LittleValue(s[1..])
  }

  /** `n` in `k` bytes. */
  function ToBytes(e: Endian, n: nat, k: nat): (s: seq<byte>)
    ensures |s| == k
  {
    if e.Little? then LittleBytes(n, k) else Reversed(LittleBytes(n, k))
  }

  function Value(e: Endian, s: seq<byte>): nat {
    if e.Little? then LittleValue(s) else LittleValue(Reversed(s))
  }

  lemma {:induction false} LittleRoundTrip(n: nat, k: nat)
    requires n < Pow256(k)
    ensures LittleValue(LittleBytes(n, k)) == n
  {
    if k > 0 {
      LittleRoundTrip(n / 256, k - 1);
      assert LittleBytes(n, k)[1..] == LittleBytes(n / 256, k - 1);
    }
  }

  lemma {:induction false} LittleInverse(s: seq<byte>)
    ensures LittleValue(s) < Pow256(|s|)
    ensures LittleBytes(LittleValue(s), |s|) == s
  {
    if s != [] {
      LittleInverse(s[1..]);
      DigitAndRest(s[0], LittleValue(s[1..]));
      assert s == [s[0]] + s[1..];
    }
  }

  lemma DigitAndRest(digit: byte, rest: nat)
    ensures (digit + 256 * rest) % 256 == digit && (digit + 256 * rest) / 256 == rest
  {
  }

  /** Reading what was written gives the number back. */
  lemma ValueOfBytes(e: Endian, n: nat, k: nat)
    requires n < Pow256(k)
    ensures Value(e, ToBytes(e, n, k)) == n
  {
    LittleRoundTrip(n, k);
    assert Reversed(Reversed(LittleBytes(n, k))) == LittleBytes(n, k);
  }

  /** Writing what was read gives the bytes back. */
  lemma BytesOfValue(e: Endian, s: seq<byte>)
    ensures Value(e, s) < Pow256(|s|)
    ensures ToBytes(e, Value(e, s), |s|) == s
  {
    LittleInverse(if e.Little? then s else Reversed(s));
    assert Reversed(Reversed(s)) == s;
  }

  lemma Pow256Values()
    ensures Pow256(4) == U32_LIMIT && Pow256(8) == U64_LIMIT
  {
    assert Pow256(2) == 0x1_0000;
    assert Pow256(4) == 256 * (256 * Pow256(2));
    assert Pow256(6) == 256 * (256 * Pow256(4));
    assert Pow256(8) == 256 * (256 * Pow256(6));
  }

  function ReadU32(e: Endian, s: seq<byte>, at: nat): u32
    requires at + 4 <= |s|
  {
    Pow256Values();
    BytesOfValue(e, s[at..at + 4]);
    Value(e, s[at..at + 4])
  }

  function ReadU64(e: Endian, s: seq<byte>, at: nat): u64
    requires at + 8 <= |s|
  {
    Pow256Values();
    BytesOfValue(e, s[at..at + 8]);
    Value(e, s[at..at + 8])
  }

  lemma ReadU32OfBytes(e: Endian, s: seq<byte>, at: nat, n: u32)
    requires at + 4 <= |s| && s[at..at + 4] == ToBytes(e, n, 4)
    ensures ReadU32(e, s, at) == n
  {
    Pow256Values();
    ValueOfBytes(e, n, 4);
  }

  lemma ReadU64OfBytes(e: Endian, s: seq<byte>, at: nat, n: u64)
    requires at + 8 <= |s| && s[at..at + 8] == ToBytes(e, n, 8)
    ensures ReadU64(e, s, at) == n
  {
    Pow256Values();
    ValueOfBytes(e, n, 8);
  }

  lemma BytesOfU32(e: Endian, s: seq<byte>, at: nat)
    requires at + 4 <= |s|
    ensures ToBytes(e, ReadU32(e, s, at), 4) == s[at..at + 4]
  {
    BytesOfValue(e, s[at..at + 4]);
  }

  lemma BytesOfU64(e: Endian, s: seq<byte>, at: nat)
    requires at + 8 <= |s|
    ensures ToBytes(e, ReadU64(e, s, at), 8) == s[at..at + 8]
  {
    BytesOfValue(e, s[at..at + 8]);
  }

  lemma CutInThree<T>(s: seq<T>, i: nat, j: nat)
    requires i <= j <= |s|
    ensures s == s[0..i] + s[i..j] + s[j..|s|]
  {
  }

  lemma Associate<T>(a: seq<T>, b: seq<T>, c: seq<T>, d: seq<T>, e: seq<T>)
    ensures a + b + c + d + e == a + (b + c + d + e)
    ensures a + b + c + d + e == (a + b) + c + (d + e)
  {
  }

  // ---------------------------------------------------------------------------------------------
  // Arrays of records

  function Flatten(records: seq<seq<byte>>): seq<byte> {
    if records == [] then [] else records[0] + Flatten(records[1..])
  }

  /** `s` cut into records of width `w`. */
  function Chunks(s: seq<byte>, w: nat): (records: seq<seq<byte>>)
    requires w > 0
    ensures AllOfWidth(records, w)
  {
    if |s| < w then [] else [s[..w]] + Chunks(s[w..], w)
  }

  predicate AllOfWidth(records: seq<seq<byte>>, w: nat) {
    forall i :: 0 <= i < |records| ==> |records[i]| == w
  }

  lemma {:induction false} ChunksOfFlatten(records: seq<seq<byte>>, w: nat)
    requires w > 0 && AllOfWidth(records, w)
    ensures Chunks(Flatten(records), w) == records
    ensures |Flatten(records)| == w * |records|
  {
    if records != [] {
      ChunksOfFlatten(records[1..], w);
      assert Flatten(records)[w..] == Flatten(records[1..]);
    }
  }

  lemma {:induction false} ChunkAt(s: seq<byte>, w: nat, i: nat)
    requires w > 0 && w * i + w <= |s|
    ensures i < |Chunks(s, w)| && Chunks(s, w)[i] == s[w * i..w * i + w]
  {
    if i > 0 {
      assert w * (i - 1) + w == w * i;
      ChunkAt(s[w..], w, i - 1);
      SliceOfRest(s, w, w * (i - 1), w * i);
    }
  }

  lemma SliceOfRest<T>(s: seq<T>, w: nat, from: nat, to: nat)
    requires from <= to && w + to <= |s|
    ensures s[w..][from..to] == s[w + from..w + to]
  {
  }

  lemma PartOfSlice<T>(s: seq<T>, from: nat, to: nat, i: nat, j: nat)
    requires from <= to <= |s| && i <= j && from + j <= to
    ensures s[from..to][i..j] == s[from + i..from + j]
  {
    SliceOfRest(s[..to], from, i, j);
    assert s[..to][from..] == s[from..to];
    assert s[..to][from + i..from + j] == s[from + i..from + j];
  }

  /** A number is read from a slice as from the place where the slice was taken. */
  lemma ReadOfSlice(e: Endian, s: seq<byte>, from: nat, to: nat, at: nat)
    requires from <= to <= |s|
    ensures from + at + 4 <= to ==> ReadU32(e, s[from..to], at) == ReadU32(e, s, from + at)
    ensures from + at + 8 <= to ==> ReadU64(e, s[from..to], at) == ReadU64(e, s, from + at)
  {
    if from + at + 4 <= to {
      PartOfSlice(s, from, to, at, at + 4);
    }
    if from + at + 8 <= to {
      PartOfSlice(s, from, to, at, at + 8);
    }
  }

  lemma {:induction false} FlattenOfChunks(s: seq<byte>, w: nat, n: nat)
    requires w > 0 && |s| == w * n
    ensures Flatten(Chunks(s, w)) == s
    ensures |Chunks(s, w)| == n
  {
    if n > 0 {
      assert w * (n - 1) + w == w * n;
      FlattenOfChunks(s[w..], w, n - 1);
      assert Chunks(s, w)[1..] == Chunks(s[w..], w);
    }
  }
}
