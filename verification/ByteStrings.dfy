/** Byte strings: big-endian numbers of fixed width and the lexicographic order. */
module ByteStrings {
  type byte = n: nat | n < 256
  type Bytes = seq<byte>

  function Pow256(w: nat): (p: nat)
    ensures p >= 1
  {
    if w == 0 then 1 else 256 * Pow256(w - 1)
  }

  lemma {:induction false} Pow256Monotone(v: nat, w: nat)
    requires v <= w
    ensures Pow256(v) <= Pow256(w)
  {
    if v < w { Pow256Monotone(v, w - 1); }
  }

  lemma {:induction false} Pow256Sum(v: nat, w: nat)
    ensures Pow256(v + w) == Pow256(v) * Pow256(w)
  {
    if v > 0 {
      Pow256Sum(v - 1, w);
      var a, b := Pow256(v - 1), Pow256(w);
      assert 256 * (a * b) == (256 * a) * b;
    }
  }

  /** The `w` lowest bytes of `n`, most significant first. */
  function BigEndian(n: nat, w: nat): (b: Bytes)
    ensures |b| == w
  {
    if w == 0 then [] else BigEndian(n / 256, w - 1) + [n % 256]
  }

  function FromBigEndian(b: Bytes): (n: nat)
    ensures n < Pow256(|b|)
  {
    if b == [] then 0 else FromBigEndian(b[..|b| - 1]) * 256 + b[|b| - 1]
  }

  lemma {:induction false} BigEndianRoundTrip(n: nat, w: nat)
    requires n < Pow256(w)
    ensures FromBigEndian(BigEndian(n, w)) == n
  {
    if w > 0 {
      BigEndianRoundTrip(n / 256, w - 1);
      var b := BigEndian(n, w);
      assert b[..w - 1] == BigEndian(n / 256, w - 1);
    }
  }

  lemma {:induction false} FromBigEndianRoundTrip(b: Bytes)
    ensures BigEndian(FromBigEndian(b), |b|) == b
  {
    if b != [] {
      var init := b[..|b| - 1];
      FromBigEndianRoundTrip(init);
      assert b == init + [b[|b| - 1]];
    }
  }

  /** The first byte weighs most. */
  lemma {:induction false} MostSignificantFirst(c: byte, rest: Bytes)
    ensures FromBigEndian([c] + rest) == c * Pow256(|rest|) + FromBigEndian(rest)
  {
    var b := [c] + rest;
    if rest == [] {
      assert b[..0] == [];
    } else {
      var init := rest[..|rest| - 1];
      MostSignificantFirst(c, init);
      assert b[..|b| - 1] == [c] + init && b[|b| - 1] == rest[|rest| - 1];
      assert c * (256 * Pow256(|init|)) == c * Pow256(|init|) * 256;
    }
  }

  lemma BigEndianInjective(m: nat, n: nat, w: nat)
    requires m < Pow256(w) && n < Pow256(w)
    requires BigEndian(m, w) == BigEndian(n, w)
    ensures m == n
  {
    BigEndianRoundTrip(m, w);
    BigEndianRoundTrip(n, w);
  }

  /** The lexicographic order of byte arrays. */
  predicate LexLe(a: Bytes, b: Bytes) {
    if a == [] then true
    else if b == [] then false
    else a[0] < b[0] || (a[0] == b[0] && LexLe(a[1..], b[1..]))
  }

  /** The bytes agree up to i, and there the first string is smaller. */
  predicate SmallerAt(a: Bytes, b: Bytes, i: nat) {
    i < |a| && i < |b| && a[..i] == b[..i] && a[i] < b[i]
  }

  /** A string comes before another one exactly when it is a prefix of it or smaller at the first difference. */
  lemma {:induction false} LexIff(a: Bytes, b: Bytes)
    ensures LexLe(a, b) <==> a <= b || exists i :: SmallerAt(a, b, i)
  {
    if a != [] && b != [] {
      var x, y := a[1..], b[1..];
      if a[0] == b[0] {
        LexIff(x, y);
        assert a == [a[0]] + x && b == [b[0]] + y;
        if i: nat :| SmallerAt(x, y, i) { assert SmallerAt(a, b, i + 1); }
        if i: nat :| SmallerAt(a, b, i) {
          assert i > 0 && a[..i][1..] == x[..i - 1] && b[..i][1..] == y[..i - 1];
          assert SmallerAt(x, y, i - 1);
        }
      } else if a[0] < b[0] {
        assert SmallerAt(a, b, 0);
      } else {
        assert !(a <= b);
        forall i: nat ensures !SmallerAt(a, b, i) {
          if 0 < i < |a| && i < |b| { assert a[..i][0] == a[0] && b[..i][0] == b[0]; }
        }
      }
    }
  }

  lemma {:induction false} LexTotal(a: Bytes, b: Bytes)
    ensures LexLe(a, b) || LexLe(b, a)
  {
    if a != [] && b != [] { LexTotal(a[1..], b[1..]); }
  }

  lemma {:induction false} LexTransitive(a: Bytes, b: Bytes, c: Bytes)
    requires LexLe(a, b) && LexLe(b, c)
    ensures LexLe(a, c)
  {
    if a != [] && a[0] == b[0] == c[0] { LexTransitive(a[1..], b[1..], c[1..]); }
  }

  lemma {:induction false} LexAntisymmetric(a: Bytes, b: Bytes)
    requires LexLe(a, b) && LexLe(b, a)
    ensures a == b
  {
    if a != [] {
      LexAntisymmetric(a[1..], b[1..]);
      assert a == [a[0]] + a[1..] && b == [b[0]] + b[1..];
    }
  }

  /** A concatenation splits in one way once the length of its head is known. */
  lemma SplitEqual(a: Bytes, x: Bytes, b: Bytes, y: Bytes)
    requires a + x == b + y && |a| == |b|
    ensures a == b && x == y
  {
    assert a == (a + x)[..|a|] && b == (b + y)[..|b|];
    assert x == (a + x)[|a|..] && y == (b + y)[|b|..];
  }
}
