/**
 * The string and memory helpers of types.h over byte buffers. A C string is a buffer
 * holding a NUL byte; its text is everything before the first NUL. Pointers into a
 * buffer are modelled as whole arrays starting at index 0.
 */
module CStr {

  newtype byte = x: int | 0 <= x < 256

  /** Index of the first NUL byte. */
  function NulAt(s: seq<byte>): (r: nat)
    requires 0 in s
    ensures r < |s| && s[r] == 0
    ensures forall k :: 0 <= k < r ==> s[k] != 0
  {
    if s[0] == 0 then 0
    else
      assert 0 in s[1..];
      NulAt(s[1..]) + 1
  }

  /** The text of a NUL-terminated buffer. */
  function Text(s: seq<byte>): (t: seq<byte>)
    requires 0 in s
    ensures |t| < |s| && 0 !in t
    ensures t == s[..|t|] && s[|t|] == 0
  {
    s[..NulAt(s)]
  }

  /** Length of the longest common prefix. */
  function CommonPrefix(x: seq<byte>, y: seq<byte>): (n: nat)
    ensures n <= |x| && n <= |y| && x[..n] == y[..n]
    ensures n < |x| && n < |y| ==> x[n] != y[n]
  {
    if x == [] || y == [] || x[0] != y[0] then 0
    else
      var n := CommonPrefix(x[1..], y[1..]);
      assert x[..n + 1] == [x[0]] + x[1..][..n];
      assert y[..n + 1] == [y[0]] + y[1..][..n];
      n + 1
  }

  /** The byte strcmp reads at index i of a text: the text's byte, or the terminator past its end. */
  function ByteAt(t: seq<byte>, i: nat): byte
  {
    if i < |t| then t[i] else 0
  }

  /** What strcmp returns for two texts: the difference of the bytes where they first differ. */
  function Compare(x: seq<byte>, y: seq<byte>): (r: int)
    ensures -255 <= r <= 255
  {
    var n := CommonPrefix(x, y);
    ByteAt(x, n) as int - ByteAt(y, n) as int
  }

  lemma {:induction false} CommonPrefixIs(x: seq<byte>, y: seq<byte>, n: nat)
    requires n <= |x| && n <= |y| && x[..n] == y[..n]
    requires n < |x| && n < |y| ==> x[n] != y[n]
    ensures CommonPrefix(x, y) == n
  {
    if x != [] && y != [] && x[0] == y[0] && n > 0 {
      assert x[1..][..n - 1] == x[1..n] && y[1..][..n - 1] == y[1..n];
      assert x[1..n] == x[..n][1..] && y[1..n] == y[..n][1..];
      CommonPrefixIs(x[1..], y[1..], n - 1);
    }
  }

  /** strcmp is 0 exactly when the texts are equal. */
  lemma CompareZeroIff(x: seq<byte>, y: seq<byte>)
    requires 0 !in x && 0 !in y
    ensures Compare(x, y) == 0 <==> x == y
  {
    if x == y {
      CommonPrefixIs(x, y, |x|);
    }
  }

  /** The sign of strcmp: negative exactly when, at the first index where the texts differ,
      the first text's byte (NUL past its end) is the smaller one, compared as unsigned. */
  lemma CompareSign(x: seq<byte>, y: seq<byte>, i: nat)
    requires i <= |x| && i <= |y| && x[..i] == y[..i] && ByteAt(x, i) != ByteAt(y, i)
    ensures Compare(x, y) < 0 <==> ByteAt(x, i) < ByteAt(y, i)
    ensures Compare(x, y) > 0 <==> ByteAt(x, i) > ByteAt(y, i)
  {
    CommonPrefixIs(x, y, i);
  }

  /** strlen: the index of the first NUL; every byte before it is non-zero. */
  method Strlen(s: array<byte>) returns (len: nat)
    requires 0 in s[..]
    ensures len < s.Length && s[len] == 0
    ensures forall k :: 0 <= k < len ==> s[k] != 0
    ensures len == |Text(s[..])|
  {
    len := 0;
    while s[len] != 0
      invariant len <= NulAt(s[..])
      invariant forall k :: 0 <= k < len ==> s[k] != 0
      decreases NulAt(s[..]) - len
    {
      len := len + 1;
    }
  }

  /** strcmp: walk while the first string goes on and both agree, then subtract the bytes. */
  method Strcmp(a: array<byte>, b: array<byte>) returns (r: int)
    requires 0 in a[..] && 0 in b[..]
    ensures r == Compare(Text(a[..]), Text(b[..]))
    ensures r == 0 <==> Text(a[..]) == Text(b[..])
  {
    var i := 0;
    while a[i] != 0 && a[i] == b[i]
      invariant i <= NulAt(a[..]) && i <= NulAt(b[..])
      invariant forall k :: 0 <= k < i ==> a[k] == b[k]
      decreases NulAt(a[..]) - i
    {
      i := i + 1;
    }
    r := a[i] as int - b[i] as int;
    ghost var x, y := Text(a[..]), Text(b[..]);
    assert x[..i] == y[..i] by {
      assert forall k :: 0 <= k < i ==> x[k] == a[k] && y[k] == b[k];
    }
    CommonPrefixIs(x, y, i);
    CompareZeroIff(x, y);
  }

  /** strcpy: copies the text and its terminator to dest, which it returns. */
  method Strcpy(dest: array<byte>, src: array<byte>) returns (r: array<byte>)
    requires 0 in src[..] && NulAt(src[..]) < dest.Length && dest != src
    modifies dest
    ensures r == dest && 0 in dest[..] && Text(dest[..]) == Text(src[..])
    ensures dest[..NulAt(src[..]) + 1] == src[..NulAt(src[..]) + 1]
    ensures dest[NulAt(src[..]) + 1..] == old(dest[NulAt(src[..]) + 1..])
  {
    var n := NulAt(src[..]);
    var i := 0;
    while true
      invariant i <= n
      invariant dest[..i] == src[..i]
      invariant dest[n + 1..] == old(dest[n + 1..])
      decreases n - i
    {
      dest[i] := src[i];
      if src[i] == 0 {
        break;
      }
      i := i + 1;
    }
    assert i == n;
    assert dest[..n + 1] == src[..n + 1];
    assert Text(dest[..]) == dest[..n] by {
      assert dest[..][..n + 1] == dest[..n + 1];
      assert dest[n] == 0;
    }
    r := dest;
  }

  /** memcpy: the first n bytes of src, copied forward into dest, which it returns. */
  method Memcpy(dest: array<byte>, src: array<byte>, n: nat) returns (r: array<byte>)
    requires n <= dest.Length && n <= src.Length && dest != src
    modifies dest
    ensures r == dest
    ensures dest[..n] == src[..n] && dest[n..] == old(dest[n..])
  {
    var i := 0;
    while i < n
      invariant i <= n
      invariant dest[..i] == src[..i] && dest[n..] == old(dest[n..])
    {
      dest[i] := src[i];
      i := i + 1;
    }
    r := dest;
  }

  /** The byte (unsigned char)c: c reduced modulo 256. */
  function ToByte(c: int): (b: byte)
    ensures 0 <= c < 256 ==> b as int == c
    ensures (b as int - c) % 256 == 0
  {
    (c % 256) as byte
  }

  /** memset: the first n bytes of s become (unsigned char)c; s is returned. */
  method Memset(s: array<byte>, c: int, n: nat) returns (r: array<byte>)
    requires n <= s.Length
    modifies s
    ensures r == s
    ensures forall k :: 0 <= k < n ==> s[k] == ToByte(c)
    ensures s[n..] == old(s[n..])
  {
    var i := 0;
    while i < n
      invariant i <= n
      invariant forall k :: 0 <= k < i ==> s[k] == ToByte(c)
      invariant s[n..] == old(s[n..])
    {
      s[i] := ToByte(c);
      i := i + 1;
    }
    r := s;
  }
}
