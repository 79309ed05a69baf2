/** Bytes and 32-bit integers in network order, as htonl/ntohl and Java's
    DataInputStream and DataOutputStream lay them out. */
module Bytes {

  type Byte = b: int | 0 <= b < 256
  type Word = w: int | 0 <= w < 0x1_0000_0000
  // A two's complement 32-bit integer.
  type Int32 = i: int | -0x8000_0000 <= i < 0x8000_0000

  function BigEndian(w: Word): seq<Byte> {
    [w / 0x100_0000, w / 0x1_0000 % 256, w / 256 % 256, w % 256]
  }

  function WordAt(s: seq<Byte>, at: nat): Word
    requires at + 4 <= |s|
  {
    var (a: int, b: int, c: int, d: int) := (s[at], s[at + 1], s[at + 2], s[at + 3]);
    a * 0x100_0000 + b * 0x1_0000 + c * 256 + d
  }

  function ToWord(i: Int32): Word {
    if i < 0 then i + 0x1_0000_0000 else i
  }

  function ToInt(w: Word): Int32 {
    if w < 0x8000_0000 then w else w - 0x1_0000_0000
  }

  // Network order: the bytes of words compare as the words do, from the first byte on.
  lemma NetworkOrder(v: Word, w: Word)
    ensures var a, b := BigEndian(v), BigEndian(w);
            v < w <==> exists k :: 0 <= k < 4 && a[k] < b[k] && a[..k] == b[..k]
  {
    var a, b := BigEndian(v), BigEndian(w);
    WordRoundTrip(v);
    WordRoundTrip(w);
    if v < w {
      var k := if a[0] != b[0] then 0 else if a[1] != b[1] then 1 else if a[2] != b[2] then 2 else 3;
      assert a[k] < b[k] && a[..k] == b[..k];
    }
  }

  lemma Digits(w: nat)
    ensures w / 256 / 256 == w / 0x1_0000 && w / 0x1_0000 / 256 == w / 0x100_0000
    ensures w == w / 256 * 256 + w % 256
  {
  }

  lemma WordRoundTrip(w: Word)
    ensures WordAt(BigEndian(w), 0) == w
  {
    var c, b, a := w / 256, w / 0x1_0000, w / 0x100_0000;
    Digits(w);
    Digits(c);
    Digits(b);
    var d: int, c': int, b': int := w % 256, c % 256, b % 256;
    assert w == c * 256 + d && c == b * 256 + c' && b == a * 256 + b';
    assert BigEndian(w) == [a, b', c', d];
  }

  // The other direction: a word read is written back as the same bytes.
  lemma BytesRoundTrip(s: seq<Byte>, at: nat)
    requires at + 4 <= |s|
    ensures BigEndian(WordAt(s, at)) == s[at..at + 4]
  {
    var w := WordAt(s, at);
    var (a: int, b: int, c: int) := (s[at], s[at + 1], s[at + 2]);
    assert w / 0x100_0000 == a;
    assert w / 0x1_0000 == a * 256 + b;
    assert w / 256 == a * 0x1_0000 + b * 256 + c;
  }

  // A word laid out somewhere inside a longer run of bytes.
  lemma WordInside(pre: seq<Byte>, w: Word, post: seq<Byte>)
    ensures WordAt(pre + BigEndian(w) + post, |pre|) == w
  {
    var s := pre + BigEndian(w) + post;
    assert forall k :: 0 <= k < 4 ==> s[|pre| + k] == BigEndian(w)[k];
    WordRoundTrip(w);
  }
}
