/** NUL-terminated character buffers: strlen, snprintf, memset and memcpy over fixed-size arrays. */
module CStrings {

  const NUL: char := '\0'

  function Zeros(n: nat): (z: seq<char>)
    ensures |z| == n
    ensures forall k :: 0 <= k < n ==> z[k] == NUL
  {
    seq(n, _ => NUL)
  }

  predicate NoNul(s: seq<char>)
  {
    forall k :: 0 <= k < |s| ==> s[k] != NUL
  }

  /** `strlen`: the index of the first NUL, or the whole buffer when it holds none. */
  function CStrLen(b: seq<char>): (n: nat)
    ensures n <= |b|
    ensures forall k :: 0 <= k < n ==> b[k] != NUL
    ensures n < |b| ==> b[n] == NUL
  {
    if b == [] || b[0] == NUL then 0 else CStrLen(b[1..]) + 1
  }

  /** The string a C function sees when it is handed the buffer `b`. */
  function CString(b: seq<char>): (s: seq<char>)
    ensures |s| <= |b|
  {
    b[..CStrLen(b)]
  }

  /** A buffer without a NUL is read whole: the C string of a string literal is the literal. */
  lemma CStringOfNoNul(s: seq<char>)
    requires NoNul(s)
    ensures CString(s) == s
  {
    assert CStrLen(s) == |s|;
  }

  /** `strlen` is determined by the first NUL wherever it is. */
  lemma CStrLenUnique(b: seq<char>, n: nat)
    requires n <= |b| && (forall k :: 0 <= k < n ==> b[k] != NUL) && (n < |b| ==> b[n] == NUL)
    ensures CStrLen(b) == n
  {
  }

  /** A buffer holding a NUL-free string followed by a NUL reads back as exactly that string. */
  lemma CStringOfTerminated(s: seq<char>, rest: seq<char>)
    requires NoNul(s) && |rest| > 0 && rest[0] == NUL
    ensures CStrLen(s + rest) == |s| && CString(s + rest) == s
  {
    CStrLenUnique(s + rest, |s|);
  }

  /** Padding a buffer with zero bytes does not change the string it holds. */
  lemma CStringPadded(s: seq<char>, z: seq<char>)
    requires |z| > 0 && forall k :: 0 <= k < |z| ==> z[k] == NUL
    ensures CString(s + z) == CString(s)
  {
    var n := CStrLen(s);
    if n < |s| {
      assert (s + z)[n] == s[n];
    } else {
      assert (s + z)[n] == z[0];
    }
    CStrLenUnique(s + z, n);
  }

  lemma NoNulConcat(a: seq<char>, b: seq<char>)
    requires NoNul(a) && NoNul(b)
    ensures NoNul(a + b)
  {
    forall k | 0 <= k < |a + b| ensures (a + b)[k] != NUL {
      if k < |a| { assert (a + b)[k] == a[k]; } else { assert (a + b)[k] == b[k - |a|]; }
    }
  }

  /** The number of characters `snprintf(buf + at, |buf| - at, "%s", s)` writes before its NUL. */
  function SnprintfCount(size: nat, at: nat, s: seq<char>): (n: nat)
    requires at < size
    ensures n <= |s| && at + n < size
    ensures n == |s| || at + n + 1 == size
  {
    if |s| < size - at then |s| else size - at - 1
  }

  /** The buffer after `snprintf(buf + at, |buf| - at, "%s", s)`: as much of `s` as fits, then a NUL;
      the bytes after that NUL are left as they were. */
  function SnprintfAt(buf: seq<char>, at: nat, s: seq<char>): (r: seq<char>)
    requires at < |buf|
    ensures |r| == |buf|
  {
    var n := SnprintfCount(|buf|, at, s);
    buf[..at] + s[..n] + [NUL] + buf[at + n + 1..]
  }

  /** Writing a NUL-free string after a NUL-free prefix: the buffer then reads back as the prefix,
      followed by as much of the string as fits, and it stays NUL-terminated. */
  lemma SnprintfAtReadsBack(buf: seq<char>, at: nat, s: seq<char>)
    requires at < |buf| && NoNul(buf[..at]) && NoNul(s)
    ensures CStrLen(SnprintfAt(buf, at, s)) < |buf|
    ensures CString(SnprintfAt(buf, at, s)) == buf[..at] + s[..SnprintfCount(|buf|, at, s)]
  {
    var n := SnprintfCount(|buf|, at, s);
    var written := buf[..at] + s[..n];
    assert NoNul(s[..n]) by {
      forall k | 0 <= k < n ensures s[..n][k] != NUL { assert s[..n][k] == s[k]; }
    }
    NoNulConcat(buf[..at], s[..n]);
    assert SnprintfAt(buf, at, s) == written + ([NUL] + buf[at + n + 1..]);
    CStringOfTerminated(written, [NUL] + buf[at + n + 1..]);
  }

  /** `MEMSET(buf, 0, len(buf))` and every other whole-buffer write. */
  method Fill(buf: array<char>, content: seq<char>)
    requires |content| == buf.Length
    modifies buf
    ensures buf[..] == content
  {
    forall k | 0 <= k < buf.Length {
      buf[k] := content[k];
    }
  }

  method MemZero(buf: array<char>)
    modifies buf
    ensures buf[..] == Zeros(buf.Length)
  {
    Fill(buf, Zeros(buf.Length));
  }

  /** `MEMCPY(buf + at, s, |s|)`. */
  method MemCpy(buf: array<char>, at: nat, s: seq<char>)
    requires at + |s| <= buf.Length
    modifies buf
    ensures buf[..] == old(buf[..])[..at] + s + old(buf[..])[at + |s|..]
  {
    forall k | 0 <= k < |s| {
      buf[at + k] := s[k];
    }
  }

  /** `snprintf(buf + at, buf.Length - at, "%s", s)`. */
  method Snprintf(buf: array<char>, at: nat, s: seq<char>)
    requires at < buf.Length
    modifies buf
    ensures buf[..] == SnprintfAt(old(buf[..]), at, s)
  {
    var n := SnprintfCount(buf.Length, at, s);
    MemCpy(buf, at, s[..n] + [NUL]);
  }

  /** `%d` rendering of a natural number. */
  function Decimal(n: nat): (s: string)
    ensures |s| >= 1
    ensures forall k :: 0 <= k < |s| ==> '0' <= s[k] <= '9'
  {
    var digit := [(48 + n % 10) as char];
    if n < 10 then digit else Decimal(n / 10) + digit
  }
}
