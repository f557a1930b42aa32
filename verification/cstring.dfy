/**
 * NUL-terminated C strings and their copy into a binary
 * (esqlite_binary_string in c_src/sqlite_utils.c).
 */
module CString {
  import opened Terms

  /** A buffer strlen may read: it holds a terminator. */
  predicate Terminated(s: seq<byte>) {
    0 in s
  }

  /** strlen: the number of bytes before the first NUL. */
  function StrLen(s: seq<byte>): (n: nat)
    requires Terminated(s)
    ensures n < |s| && s[n] == 0
    ensures forall i :: 0 <= i < n ==> s[i] != 0
  {
    if s[0] == 0 then 0
    else
      assert 0 in s[1..] by {
        var k :| 0 <= k < |s| && s[k] == 0;
        assert s[1..][k - 1] == 0;
      }
      1 + StrLen(s[1..])
  }

  /**
   * esqlite_binary_string: strlen, then a memcpy of that many bytes into a
   * freshly allocated binary. The input is a value and is only read.
   */
  method BinaryString(s: seq<byte>) returns (b: seq<byte>)
    requires Terminated(s)
    ensures |b| < |s| && s[|b|] == 0
    ensures b == s[..|b|]
    ensures 0 !in b
    ensures s[0] == 0 ==> b == []
    ensures b == ToBinary(s)
  {
    var len := 0;
    while s[len] != 0
      invariant len < |s|
      invariant forall i :: 0 <= i < len ==> s[i] != 0
      decreases StrLen(s) - len
    {
      len := len + 1;
    }
    var buf: seq<byte> := [];
    while |buf| < len
      invariant |buf| <= len
      invariant buf == s[..|buf|]
    {
      buf := buf + [s[|buf|]];
    }
    b := buf;
    BinaryStringIsToBinary(s, b);
  }

  /** The functional reading of esqlite_binary_string. */
  function ToBinary(s: seq<byte>): (b: seq<byte>)
    requires Terminated(s)
    ensures |b| == StrLen(s)
    ensures b == s[..StrLen(s)] && 0 !in b
  {
    s[..StrLen(s)]
  }

  /** The first NUL is unique: any index with a NUL and none before it is the string's length. */
  lemma StrLenIsFirstNul(s: seq<byte>, k: nat)
    requires k < |s| && s[k] == 0
    requires forall i :: 0 <= i < k ==> s[i] != 0
    ensures Terminated(s) && StrLen(s) == k
  {
    assert s[k] in s;
  }

  /** The method and the functional reading compute the same binary. */
  lemma BinaryStringIsToBinary(s: seq<byte>, b: seq<byte>)
    requires Terminated(s)
    requires |b| < |s| && s[|b|] == 0 && b == s[..|b|] && 0 !in b
    ensures b == ToBinary(s)
  {
    forall i | 0 <= i < |b|
      ensures s[i] != 0
    {
      assert s[i] == b[i];
    }
    StrLenIsFirstNul(s, |b|);
  }

  /**
   * Round trip: writing a NUL-free byte string into a buffer followed by a
   * terminator (and any garbage after it) and copying it back out gives the
   * string back.
   */
  lemma ToBinaryOfTerminated(b: seq<byte>, rest: seq<byte>)
    requires 0 !in b
    ensures Terminated(b + [0] + rest)
    ensures ToBinary(b + [0] + rest) == b
  {
    var s := b + [0] + rest;
    forall i | 0 <= i < |b|
      ensures s[i] != 0
    {
      assert s[i] == b[i];
    }
    StrLenIsFirstNul(s, |b|);
    assert s[..|b|] == b;
  }

  /**
   * Copying from an offset inside a C string gives exactly the bytes from
   * that offset up to the terminator of the whole string.
   */
  lemma SuffixToBinary(s: seq<byte>, off: nat)
    requires Terminated(s) && off <= StrLen(s)
    ensures Terminated(s[off..])
    ensures ToBinary(s[off..]) == s[off..StrLen(s)]
  {
    var n := StrLen(s);
    var t := s[off..];
    forall i | 0 <= i < n - off
      ensures t[i] != 0
    {
      assert t[i] == s[off + i];
    }
    assert t[n - off] == s[n];
    StrLenIsFirstNul(t, n - off);
    assert t[..n - off] == s[off..n];
  }
}
