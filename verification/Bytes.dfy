/** Fixed-width integers as bytes, and buffers as consecutive pieces (the `array_refs!` macros). */
module Bytes {
  import opened FixedPoint

  function Pow256(k: nat): nat { if k == 0 then 1 else 256 * Pow256(k - 1) }

  lemma Widths()
    ensures Pow256(1) == 256 && Pow256(8) == U64 && Pow256(16) == U128
    ensures Pow256(32) == 0x1_0000000000000000_0000000000000000_0000000000000000_0000000000000000
  {
    PowAdds(1, 1);
    PowAdds(2, 2);
    PowAdds(4, 4);
    PowAdds(8, 8);
    PowAdds(16, 16);
  }

  lemma {:induction false} PowAdds(a: nat, b: nat)
    ensures Pow256(a + b) == Pow256(a) * Pow256(b)
    decreases a
  {
    if a > 0 {
      PowAdds(a - 1, b);
      FloorMath.Assoc(256, Pow256(a - 1), Pow256(b));
    }
  }

  /** `to_le_bytes` at a width of `k` bytes. */
  function LittleEndian(n: nat, k: nat): (s: seq<u8>)
    ensures |s| == k
  {
    if k == 0 then [] else [n % 256] + LittleEndian(n / 256, k - 1)
  }

  /** `from_le_bytes` */
  function FromLittleEndian(s: seq<u8>): (n: nat)
    ensures n < Pow256(|s|)
  {
    if s == [] then 0 else s[0] + 256 * FromLittleEndian(s[1..])
  }

  lemma {:induction false} LittleEndianInverse(n: nat, k: nat)
    requires n < Pow256(k)
    ensures FromLittleEndian(LittleEndian(n, k)) == n
  {
    if k > 0 {
      LittleEndianInverse(n / 256, k - 1);
      assert LittleEndian(n, k)[1..] == LittleEndian(n / 256, k - 1);
    }
  }

  lemma {:induction false} FromLittleEndianInverse(s: seq<u8>)
    ensures LittleEndian(FromLittleEndian(s), |s|) == s
  {
    if s != [] {
      FromLittleEndianInverse(s[1..]);
      Digits(s[0], FromLittleEndian(s[1..]));
      assert s == [s[0]] + s[1..];
    }
  }

  lemma Digits(low: u8, rest: nat)
    ensures (low + 256 * rest) % 256 == low && (low + 256 * rest) / 256 == rest
  {
  }

  /** An address's bytes, most significant first. */
  function BigEndian(n: nat, k: nat): (s: seq<u8>)
    ensures |s| == k
  {
    if k == 0 then [] else BigEndian(n / 256, k - 1) + [n % 256]
  }

  function FromBigEndian(s: seq<u8>): (n: nat)
    ensures n < Pow256(|s|)
  {
    if s == [] then 0 else 256 * FromBigEndian(s[..|s| - 1]) + s[|s| - 1]
  }

  lemma {:induction false} BigEndianInverse(n: nat, k: nat)
    requires n < Pow256(k)
    ensures FromBigEndian(BigEndian(n, k)) == n
  {
    if k > 0 {
      BigEndianInverse(n / 256, k - 1);
      assert BigEndian(n, k)[..k - 1] == BigEndian(n / 256, k - 1);
    }
  }

  lemma {:induction false} FromBigEndianInverse(s: seq<u8>)
    ensures BigEndian(FromBigEndian(s), |s|) == s
  {
    if s != [] {
      FromBigEndianInverse(s[..|s| - 1]);
      Digits(s[|s| - 1], FromBigEndian(s[..|s| - 1]));
      assert s == s[..|s| - 1] + [s[|s| - 1]];
    }
  }

  // ----- pieces

  function Sum(lens: seq<nat>): nat { if lens == [] then 0 else lens[0] + Sum(lens[1..]) }

  lemma SumOfOne(a: nat)
    ensures Sum([a]) == a
  {
    assert [a][1..] == [];
  }

  lemma SumOfFour(a: nat, b: nat, c: nat, d: nat)
    ensures Sum([a, b, c, d]) == a + b + c + d
  {
    assert [a, b, c, d][1..] == [b, c, d];
    assert [b, c, d][1..] == [c, d];
    assert [c, d][1..] == [d];
    SumOfOne(d);
    assert Sum([c, d]) == c + d;
    assert Sum([b, c, d]) == b + c + d;
  }

  lemma {:induction false} SumJoin(a: seq<nat>, b: seq<nat>)
    ensures Sum(a + b) == Sum(a) + Sum(b)
  {
    if a == [] {
      assert a + b == b;
    } else {
      SumJoin(a[1..], b);
      assert (a + b)[1..] == a[1..] + b;
    }
  }

  function Flatten(pieces: seq<seq<u8>>): seq<u8> {
    if pieces == [] then [] else pieces[0] + Flatten(pieces[1..])
  }

  /** Cut a buffer into pieces of the given lengths. */
  function Split(buf: seq<u8>, lens: seq<nat>): (pieces: seq<seq<u8>>)
    requires |buf| == Sum(lens)
    ensures |pieces| == |lens| && forall i :: 0 <= i < |lens| ==> |pieces[i]| == lens[i]
  {
    if lens == [] then [] else [buf[..lens[0]]] + Split(buf[lens[0]..], lens[1..])
  }

  predicate HasLengths(pieces: seq<seq<u8>>, lens: seq<nat>) {
    |pieces| == |lens| && forall i :: 0 <= i < |lens| ==> |pieces[i]| == lens[i]
  }

  lemma {:induction false} FlattenLength(pieces: seq<seq<u8>>, lens: seq<nat>)
    requires HasLengths(pieces, lens)
    ensures |Flatten(pieces)| == Sum(lens)
  {
    if lens != [] { FlattenLength(pieces[1..], lens[1..]); }
  }

  lemma {:induction false} FlattenSplit(buf: seq<u8>, lens: seq<nat>)
    requires |buf| == Sum(lens)
    ensures Flatten(Split(buf, lens)) == buf
  {
    if lens != [] {
      FlattenSplit(buf[lens[0]..], lens[1..]);
      assert Split(buf, lens)[1..] == Split(buf[lens[0]..], lens[1..]);
    }
  }

  lemma {:induction false} SplitFlatten(pieces: seq<seq<u8>>, lens: seq<nat>)
    requires HasLengths(pieces, lens)
    ensures |Flatten(pieces)| == Sum(lens) && Split(Flatten(pieces), lens) == pieces
  {
    FlattenLength(pieces, lens);
    if lens != [] {
      SplitFlatten(pieces[1..], lens[1..]);
      assert Flatten(pieces)[..lens[0]] == pieces[0];
      assert Flatten(pieces)[lens[0]..] == Flatten(pieces[1..]);
      assert [pieces[0]] + pieces[1..] == pieces;
    }
  }

  /** `buf` with `bytes` written at `at`. */
  function Splice(buf: seq<u8>, at: nat, bytes: seq<u8>): (r: seq<u8>)
    requires at + |bytes| <= |buf|
    ensures |r| == |buf|
  {
    buf[..at] + bytes + buf[at + |bytes|..]
  }

  /** Writing one piece in place. */
  lemma {:induction false} SplicePiece(pieces: seq<seq<u8>>, lens: seq<nat>, k: nat, bytes: seq<u8>)
    requires HasLengths(pieces, lens) && k < |lens| && |bytes| == lens[k]
    ensures Sum(lens[..k]) + |bytes| <= |Flatten(pieces)|
    ensures Splice(Flatten(pieces), Sum(lens[..k]), bytes) == Flatten(pieces[k := bytes])
  {
    FlattenLength(pieces, lens);
    FlattenLength(pieces[1..], lens[1..]);
    if k == 0 {
      assert pieces[0 := bytes][1..] == pieces[1..];
    } else {
      SplicePiece(pieces[1..], lens[1..], k - 1, bytes);
      assert lens[..k][1..] == lens[1..][..k - 1];
      assert pieces[k := bytes][1..] == pieces[1..][k - 1 := bytes];
      SpliceAfter(pieces[0], Flatten(pieces[1..]), Sum(lens[1..][..k - 1]), bytes);
    }
  }

  lemma SpliceAfter(head: seq<u8>, buf: seq<u8>, at: nat, bytes: seq<u8>)
    requires at + |bytes| <= |buf|
    ensures Splice(head + buf, |head| + at, bytes) == head + Splice(buf, at, bytes)
  {
  }

  /** What a write leaves alone, and what it puts there. */
  lemma SpliceRead(buf: seq<u8>, at: nat, bytes: seq<u8>, from: nat, to: nat)
    requires at + |bytes| <= |buf| && from <= to <= |buf|
    ensures to <= at || at + |bytes| <= from ==> Splice(buf, at, bytes)[from..to] == buf[from..to]
    ensures Splice(buf, at, bytes)[at..at + |bytes|] == bytes
  {
  }

  lemma SpliceSame(buf: seq<u8>, at: nat, bytes: seq<u8>)
    requires at + |bytes| <= |buf| && buf[at..at + |bytes|] == bytes
    ensures Splice(buf, at, bytes) == buf
  {
  }
}
