/** The initialisation vectors of AES-GCM: a big-endian counter, one per thread, whose values
    a thread does not use twice before it wraps. */
module GcmIv {
  import opened ModArith
  import opened Octets

  const IV_SIZE := 12

  function Value(s: Bytes): nat { if s == [] then 0 else 256 * Value(s[..|s| - 1]) + s[|s| - 1] }

  function Span(n: nat): (p: nat)
    ensures p > 0
  {
    if n == 0 then 1 else 256 * Span(n - 1)
  }

  /** Most significant byte first. */
  lemma {:induction false} ValueIs(x: Byte, s: Bytes)
    ensures Value([]) == 0 && Span(0) == 1 && Span(|s| + 1) == 256 * Span(|s|)
    ensures Value([x] + s) == x * Span(|s|) + Value(s)
    decreases |s|
  {
    if s != [] {
      var n := |s| - 1;
      ValueIs(x, s[..n]);
      assert ([x] + s)[..n + 1] == [x] + s[..n];
      assert 256 * (x * Span(n)) == x * (256 * Span(n));
    } else {
      assert [x] + s == [x] && [x][..0] == [];
    }
  }

  lemma {:induction false} ValueBelow(s: Bytes)
    ensures Value(s) < Span(|s|)
    decreases s
  {
    if s != [] { ValueBelow(s[..|s| - 1]); }
  }

  /** The next counter: a trailing 0xFF becomes zero and carries. */
  function Next(s: Bytes): Bytes
    decreases |s|
  {
    if s == [] then []
    else
      var n := |s| - 1;
      if s[n] == 255 then Next(s[..n]) + [0] else s[n := s[n] + 1]
  }

  lemma {:induction false} NextCounts(s: Bytes)
    ensures |Next(s)| == |s| && Value(Next(s)) == if Value(s) + 1 == Span(|s|) then 0 else Value(s) + 1
    decreases |s|
  {
    if s != [] {
      var n := |s| - 1;
      ValueBelow(s[..n]);
      if s[n] == 255 {
        NextCounts(s[..n]);
        assert Next(s)[..n] == Next(s[..n]);
      } else {
        assert Next(s)[..n] == s[..n];
      }
    }
  }

  lemma {:induction false} NextValue(s: Bytes)
    ensures |Next(s)| == |s| && Value(Next(s)) == (Value(s) + 1) % Span(|s|)
  {
    hide Value, Span, Next;
    NextCounts(s);
    ValueBelow(s);
    if Value(s) + 1 == Span(|s|) {
      RemainderUnique(Value(s) + 1, 1, 0, Span(|s|));
    } else {
      RemainderUnique(Value(s) + 1, 0, Value(s) + 1, Span(|s|));
    }
  }

  function Zeros(n: nat): Bytes { seq(n, _ => 0) }

  lemma {:induction false} CarryOn(s: Bytes, i: nat)
    requires i < |s| && s[i] == 255
    ensures Next(s[..i + 1]) + Zeros(|s| - i - 1) == Next(s[..i]) + Zeros(|s| - i)
  {
    assert s[..i + 1][..i] == s[..i];
  }

  lemma {:induction false} NoCarry(s: Bytes, i: nat)
    requires i < |s|
    ensures s[i] != 255 ==> Next(s[..i + 1]) == s[..i] + [s[i] + 1]
  {
    assert s[..i + 1][..i] == s[..i];
  }

  lemma {:induction false} NextNothing()
    ensures Next([]) == []
  {
  }

  /** `increment`, in place. */
  method Increment(iv: array<Byte>)
    modifies iv
    ensures iv[..] == Next(old(iv[..]))
  {
    hide Next;
    ghost var s := iv[..];
    var i := iv.Length - 1;
    assert s[..iv.Length] == s;
    while i >= 0
      invariant -1 <= i < iv.Length && iv[..i + 1] == s[..i + 1] && iv[i + 1..] == Zeros(iv.Length - i - 1)
      invariant Next(s) == Next(s[..i + 1]) + Zeros(iv.Length - i - 1)
    {
      NoCarry(s, i);
      if iv[i] == 0xFF {
        CarryOn(s, i);
        iv[i] := 0;
      } else {
        iv[i] := iv[i] + 1;
        assert iv[..] == iv[..i] + [iv[i]] + iv[i + 1..];
        return;
      }
      i := i - 1;
    }
    NextNothing();
    assert iv[..] == iv[0..] && s[..0] == [];
  }

  /** The counter `n` steps on. */
  function After(s: Bytes, n: nat): Bytes { if n == 0 then s else Next(After(s, n - 1)) }

  lemma {:induction false} AfterValue(s: Bytes, n: nat)
    ensures |After(s, n)| == |s| && Value(After(s, n)) == (Value(s) + n) % Span(|s|)
    decreases n
  {
    hide Value, Span, Next;
    if n == 0 {
      ValueBelow(s);
      RemainderUnique(Value(s), 0, Value(s), Span(|s|));
    } else {
      AfterValue(s, n - 1);
      NextValue(After(s, n - 1));
      AddMod(Value(s) + n - 1, 1, Span(|s|));
    }
  }

  class Cipher {
    const iv: array<Byte>

    /** `gcm_init` draws the first counter at random. */
    constructor (random: Bytes)
      requires |random| == IV_SIZE
      ensures fresh(iv) && iv[..] == random
    {
      iv := new Byte[IV_SIZE](i requires 0 <= i < IV_SIZE => random[i]);
      new;
      assert iv[..] == random;
    }

    /** `gcm_encrypt` up to the cipher call: the vector written to the output. */
    method Encrypt() returns (used: Bytes)
      modifies iv
      ensures used == iv[..] == Next(old(iv[..]))
    {
      Increment(iv);
      used := iv[..];
    }
  }

  /** Two to the power of 96. */
  const IV_SPAN := 0x1_0000_0000_0000_0000_0000_0000

  lemma {:induction false} SpanIs96Bits()
    ensures Span(IV_SIZE) == IV_SPAN
  {
    assert Span(4) == 0x1_0000_0000;
    assert Span(8) == 0x1_0000_0000_0000_0000;
  }

  /** The vectors of a thread's first `n` encryptions: the counter's successors in order, and
      all different as long as the counter has not gone round. */
  method EncryptMany(random: Bytes, n: nat) returns (used: seq<Bytes>)
    requires |random| == 12
    ensures |used| == n
    ensures forall k :: 0 <= k < n ==>
              |used[k]| == 12 && Value(used[k]) == (Value(random) + k + 1) % 0x1_0000_0000_0000_0000_0000_0000
    ensures n <= 0x1_0000_0000_0000_0000_0000_0000 ==> forall j, k :: 0 <= j < k < n ==> used[j] != used[k]
  {
    hide Value, Span, Next;
    SpanIs96Bits();
    var c := new Cipher(random);
    used := [];
    for i := 0 to n
      invariant fresh(c.iv) && c.iv[..] == After(random, i) && |used| == i
      invariant forall k :: 0 <= k < i ==> used[k] == After(random, k + 1)
    {
      var v := c.Encrypt();
      used := used + [v];
    }
    forall k | 0 <= k < n ensures |used[k]| == IV_SIZE && Value(used[k]) == (Value(random) + k + 1) % IV_SPAN {
      AfterValue(random, k + 1);
    }
    if n <= IV_SPAN {
      forall j, k | 0 <= j < k < n ensures used[j] != used[k] {
        CloseRemaindersDiffer(Value(random) + j + 1, k - j, IV_SPAN);
      }
    }
  }
}
