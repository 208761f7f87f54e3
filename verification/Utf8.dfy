/** Well-formed UTF-8 byte sequences, after the grammar in section 4 of RFC 3629. */
module Utf8 {
  import opened Common

  predicate IsTail(b: byte) {
    0x80 <= b <= 0xBF
  }

  predicate TailsFrom(s: seq<byte>, from: nat, to: nat) {
    to <= |s| && forall i :: from <= i < to ==> IsTail(s[i])
  }

  /** The length of the character at the start of `s`, or 0 if there is no well-formed one. */
  function CharLen(s: seq<byte>): (n: nat)
    ensures n <= 4 && n <= |s|
  {
    if s == [] then 0
    else if s[0] <= 0x7F then 1
    else if 0xC2 <= s[0] <= 0xDF then (if TailsFrom(s, 1, 2) then 2 else 0)
    else if 0xE0 <= s[0] <= 0xEF then
      (if TailsFrom(s, 1, 3) && (s[0] == 0xE0 ==> 0xA0 <= s[1]) && (s[0] == 0xED ==> s[1] <= 0x9F) then 3 else 0)
    else if 0xF0 <= s[0] <= 0xF4 then
      (if TailsFrom(s, 1, 4) && (s[0] == 0xF0 ==> 0x90 <= s[1]) && (s[0] == 0xF4 ==> s[1] <= 0x8F) then 4 else 0)
    else 0
  }

  predicate WellFormed(s: seq<byte>) {
    s == [] || (CharLen(s) > 0 && WellFormed(s[CharLen(s)..]))
  }

  /** The bytes of a Rust string slice. */
  type Str = s: seq<byte> | WellFormed(s)

  /** A lossy decoder replaces what is not well-formed, and keeps text that is. */
  ghost predicate KeepsWellFormed(decode: seq<byte> -> Str) {
    forall s: Str :: decode(s) == s
  }

  /** A position at which a Rust string may be cut. */
  predicate IsCharBoundary(s: seq<byte>, i: nat) {
    i <= |s| && (i == 0 || i == |s| || !IsTail(s[i]))
  }

  /** A character only depends on its own bytes. */
  lemma CharLenOfPrefix(s: seq<byte>, i: nat)
    requires 0 < CharLen(s) <= i <= |s|
    ensures CharLen(s[..i]) == CharLen(s)
  {
  }

  /** Cutting a well-formed string in two leaves two well-formed strings exactly at boundaries. */
  lemma {:induction false} BoundaryIffCut(s: seq<byte>, i: nat)
    requires WellFormed(s) && i <= |s|
    ensures IsCharBoundary(s, i) <==> WellFormed(s[..i]) && WellFormed(s[i..])
  {
    if i == 0 {
      assert s[0..] == s;
    } else {
      var n := CharLen(s);
      if i < n {
        assert IsTail(s[i]);
        assert CharLen(s[i..]) == 0;
      } else {
        BoundaryIffCut(s[n..], i - n);
        CharLenOfPrefix(s, i);
        assert s[..i][n..] == s[n..][..i - n];
        assert s[n..][i - n..] == s[i..];
        if i < |s| && IsTail(s[i]) {
          assert CharLen(s[i..]) == 0;
        }
      }
    }
  }

  /** Every position has a character start within the three bytes before it. */
  lemma {:induction false} StartNearby(s: seq<byte>, i: nat) returns (j: nat)
    requires WellFormed(s) && i < |s|
    ensures i < j + 4 && j <= i && !IsTail(s[j])
  {
    var n := CharLen(s);
    if i < n {
      j := 0;
    } else {
      var k := StartNearby(s[n..], i - n);
      j := n + k;
    }
  }

  lemma {:induction false} ConcatWellFormed(a: seq<byte>, b: seq<byte>)
    requires WellFormed(a) && WellFormed(b)
    ensures WellFormed(a + b)
  {
    if a == [] {
      assert a + b == b;
    } else {
      var n := CharLen(a);
      assert CharLen(a + b) == n;
      assert (a + b)[n..] == a[n..] + b;
      ConcatWellFormed(a[n..], b);
    }
  }
}
