// How the values that live on the disk look as raw bytes: C ints and unsigned words are
// four bytes, least significant first (the order of the machines Nachos targets).
module Bytes {
  type byte = n: nat | n < 0x100
  type word = n: nat | n < 0x1_0000_0000
  type int32 = x: int | -0x8000_0000 <= x < 0x8000_0000

  // The unsigned word with the same bits as an int, and back.
  function Unsigned(x: int32): word {
    if x < 0 then x + 0x1_0000_0000 else x
  }

  function Signed(w: word): int32 {
    if w < 0x8000_0000 then w else w - 0x1_0000_0000
  }

  function WordBytes(w: word): (b: seq<byte>)
    ensures |b| == 4
  {
    [w % 0x100, w / 0x100 % 0x100, w / 0x1_0000 % 0x100, w / 0x100_0000]
  }

  function BytesWord(b: seq<byte>): word
    requires |b| == 4
  {
    var lo, mid, hi, top: int := b[0], b[1], b[2], b[3];
    lo + 0x100 * mid + 0x1_0000 * hi + 0x100_0000 * top
  }

  lemma WordRoundTrip(w: word)
    ensures BytesWord(WordBytes(w)) == w
  {
    var a, b := w / 0x100, w / 0x1_0000;
    assert a / 0x100 == b && b / 0x100 == w / 0x100_0000;
  }

  // An array of words as the bytes of its memory, and back.
  function WordsBytes(ws: seq<word>): (b: seq<byte>)
    ensures |b| == 4 * |ws|
  {
    seq(4 * |ws|, k requires 0 <= k < 4 * |ws| => WordBytes(ws[k / 4])[k % 4])
  }

  function BytesWords(b: seq<byte>, n: nat): (ws: seq<word>)
    requires 4 * n <= |b|
    ensures |ws| == n
  {
    seq(n, i requires 0 <= i < n => BytesWord(b[4 * i..4 * i + 4]))
  }

  lemma WordsBytesAt(ws: seq<word>, i: nat)
    requires i < |ws|
    ensures WordsBytes(ws)[4 * i..4 * i + 4] == WordBytes(ws[i])
  {
    forall j | 0 <= j < 4
      ensures WordsBytes(ws)[4 * i..4 * i + 4][j] == WordBytes(ws[i])[j]
    {
      assert (4 * i + j) / 4 == i && (4 * i + j) % 4 == j;
    }
  }

  lemma WordsRoundTrip(ws: seq<word>)
    ensures BytesWords(WordsBytes(ws), |ws|) == ws
  {
    forall i | 0 <= i < |ws|
      ensures BytesWords(WordsBytes(ws), |ws|)[i] == ws[i]
    {
      WordsBytesAt(ws, i);
      WordRoundTrip(ws[i]);
    }
  }

  function IntsBytes(xs: seq<int32>): (b: seq<byte>)
    ensures |b| == 4 * |xs|
  {
    WordsBytes(seq(|xs|, i requires 0 <= i < |xs| => Unsigned(xs[i])))
  }

  function BytesInts(b: seq<byte>, n: nat): (xs: seq<int32>)
    requires 4 * n <= |b|
    ensures |xs| == n
  {
    var ws := BytesWords(b, n);
    seq(n, i requires 0 <= i < n => Signed(ws[i]))
  }

  lemma IntsRoundTrip(xs: seq<int32>)
    ensures BytesInts(IntsBytes(xs), |xs|) == xs
  {
    WordsRoundTrip(seq(|xs|, i requires 0 <= i < |xs| => Unsigned(xs[i])));
  }

  // divRoundUp of utility.h, for the non-negative sizes it is given.
  function DivRoundUp(n: nat, s: nat): nat
    requires s > 0
  {
    n / s + if n % s > 0 then 1 else 0
  }

  // What results from overwriting the bytes from position on.
  function Splice(content: seq<byte>, position: nat, bytes: seq<byte>): (r: seq<byte>)
    requires position + |bytes| <= |content|
    ensures |r| == |content|
  {
    seq(|content|, k requires 0 <= k < |content| =>
      if position <= k < position + |bytes| then bytes[k - position] else content[k])
  }

  lemma SpliceWhole(content: seq<byte>, bytes: seq<byte>)
    requires |bytes| == |content|
    ensures Splice(content, 0, bytes) == bytes
  {
  }

  lemma SpliceParts(content: seq<byte>, position: nat, bytes: seq<byte>)
    requires position + |bytes| <= |content|
    ensures Splice(content, position, bytes) == content[..position] + bytes + content[position + |bytes|..]
  {
  }
}
