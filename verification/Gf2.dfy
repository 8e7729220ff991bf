/**
 Polynomials over GF(2) as bit sequences, highest power first, and division by a generator of
 degree 32.  A generator is given by its 32 coefficients below the leading one.  Nothing here
 mentions tables, machine words or a particular generator.
 */
module Gf2 {

  type Bits = seq<bool>

  type Word = w: Bits | |w| == 32 witness seq(32, _ => false)

  function Zeros(n: nat): (z: Bits)
    ensures |z| == n
    ensures forall i :: 0 <= i < n ==> !z[i]
  {
    seq(n, _ => false)
  }

  /** Addition of polynomials of the same length. */
  function Xor(a: Bits, b: Bits): (r: Bits)
    requires |a| == |b|
    ensures |r| == |a|
    ensures forall i :: 0 <= i < |a| ==> r[i] == (a[i] != b[i])
  {
    seq(|a|, i requires 0 <= i < |a| => a[i] != b[i])
  }

  /** `x^n` times the generator `x^32 + low` when `t`, else zero; `n + 33` coefficients. */
  function Multiple(low: Word, t: bool, n: nat): (r: Bits)
    ensures |r| == n + 33
    ensures r[0] == t
    ensures forall i :: 0 <= i < 32 ==> r[i + 1] == (t && low[i])
    ensures forall i :: 33 <= i < n + 33 ==> !r[i]
  {
    if t then [true] + low + Zeros(n) else Zeros(n + 33)
  }

  /** The product of `q` and the generator. */
  function Times(low: Word, q: Bits): (p: Bits)
    ensures |p| == |q| + 32
  {
    if q == [] then Zeros(32) else Xor(Multiple(low, q[0], |q| - 1), [false] + Times(low, q[1..]))
  }

  /** `r` is what is left of `m * x^32` after division by the generator. */
  ghost predicate IsRemainder(low: Word, m: Bits, r: Word) {
    exists q: Bits :: |q| == |m| && m + Zeros(32) == Xor(Times(low, q), Zeros(|m|) + r)
  }

  // ---- the shift register ---------------------------------------------------------------

  /** Multiply a residue by x and reduce. */
  function Step(low: Word, s: Word): Word {
    if s[0] then Xor(s[1..] + [false], low) else s[1..] + [false]
  }

  /** The register after the message bits `m`, each added in at the top. */
  function Feed(low: Word, s: Word, m: Bits): Word
    decreases m
  {
    if m == [] then s else Feed(low, Step(low, s[0 := s[0] != m[0]]), m[1..])
  }

  function Steps(low: Word, s: Word, n: nat): Word
    decreases n
  {
    if n == 0 then s else Steps(low, Step(low, s), n - 1)
  }

  // ---- the register computes the remainder ----------------------------------------------

  /** One step of long division: what the register drops is the quotient's next bit. */
  lemma DivideStep(low: Word, s: Word, b: bool, m: Bits)
    ensures var t := s[0] != b;
      Xor(s + Zeros(|m| + 1), [b] + m + Zeros(32)) ==
      Xor(Multiple(low, t, |m|), [false] + Xor(Step(low, s[0 := t]) + Zeros(|m|), m + Zeros(32)))
  {
    var t := s[0] != b;
    var lhs := Xor(s + Zeros(|m| + 1), [b] + m + Zeros(32));
    var next := Step(low, s[0 := t]);
    var inner := Xor(next + Zeros(|m|), m + Zeros(32));
    forall i | 0 <= i < |lhs| ensures lhs[i] == Xor(Multiple(low, t, |m|), [false] + inner)[i] {
      if 0 < i {
        assert ([b] + m + Zeros(32))[i] == (m + Zeros(32))[i - 1];
        if i <= 32 {
          assert Multiple(low, t, |m|)[i - 1 + 1] == (t && low[i - 1]);
        }
      }
    }
  }

  lemma XorRegroup(g: Bits, p: Bits, r: Bits)
    requires |g| == |p| + 1 && |p| == |r|
    ensures Xor(g, [false] + Xor(p, r)) == Xor(Xor(g, [false] + p), [false] + r)
  {
  }

  lemma TimesCons(low: Word, t: bool, q: Bits)
    ensures Times(low, [t] + q) == Xor(Multiple(low, t, |q|), [false] + Times(low, q))
  {
    assert ([t] + q)[1..] == q;
  }

  lemma {:induction false} FeedDivides(low: Word, s: Word, m: Bits) returns (q: Bits)
    ensures |q| == |m|
    ensures Xor(s + Zeros(|m|), m + Zeros(32)) == Xor(Times(low, q), Zeros(|m|) + Feed(low, s, m))
    decreases m
  {
    hide Xor, Zeros, Multiple, Step;
    if m == [] {
      q := [];
      assert Xor(s + Zeros(0), [] + Zeros(32)) == Xor(Zeros(32), Zeros(0) + s);
    } else {
      var t := s[0] != m[0];
      var next := Step(low, s[0 := t]);
      var rest := m[1..];
      var n := |rest|;
      var q' := FeedDivides(low, next, rest);
      q := [t] + q';
      var tail := Zeros(n) + Feed(low, next, rest);
      calc {
        Xor(s + Zeros(|m|), m + Zeros(32));
        { assert m + Zeros(32) == [m[0]] + rest + Zeros(32); }
        Xor(s + Zeros(n + 1), [m[0]] + rest + Zeros(32));
        { DivideStep(low, s, m[0], rest); }
        Xor(Multiple(low, t, n), [false] + Xor(Times(low, q'), tail));
        { XorRegroup(Multiple(low, t, n), Times(low, q'), tail); }
        Xor(Xor(Multiple(low, t, n), [false] + Times(low, q')), [false] + tail);
        { TimesCons(low, t, q'); assert [false] + tail == Zeros(|m|) + Feed(low, s, m); }
        Xor(Times(low, q), Zeros(|m|) + Feed(low, s, m));
      }
    }
  }

  /** A multiple of the generator below x^32 comes only from the zero quotient. */
  lemma {:induction false} SmallMultiple(low: Word, q: Bits)
    requires forall i :: 0 <= i < |q| ==> !Times(low, q)[i]
    ensures Times(low, q) == Zeros(|q| + 32)
  {
    if q != [] {
      var p := Times(low, q[1..]);
      assert !Times(low, q)[0];
      assert !q[0];
      forall i | 0 <= i < |q| - 1 ensures !p[i] {
        assert !Times(low, q)[i + 1];
        assert ([false] + p)[i + 1] == p[i];
      }
      SmallMultiple(low, q[1..]);
    }
  }

  lemma MultipleLinear(low: Word, s: bool, t: bool, n: nat)
    ensures Multiple(low, s != t, n) == Xor(Multiple(low, s, n), Multiple(low, t, n))
  {
    var l, r := Multiple(low, s != t, n), Xor(Multiple(low, s, n), Multiple(low, t, n));
    forall i | 0 <= i < |l| ensures l[i] == r[i] {
      if 0 < i <= 32 {
        assert l[i - 1 + 1] == ((s != t) && low[i - 1]);
      }
    }
  }

  lemma XorPairs(a: Bits, p: Bits, b: Bits, q: Bits)
    requires |a| == |b| == |p| + 1 && |p| == |q|
    ensures Xor(Xor(a, b), [false] + Xor(p, q)) == Xor(Xor(a, [false] + p), Xor(b, [false] + q))
  {
  }

  lemma {:induction false} TimesLinear(low: Word, a: Bits, b: Bits)
    requires |a| == |b|
    ensures Times(low, Xor(a, b)) == Xor(Times(low, a), Times(low, b))
  {
    if a != [] {
      assert Xor(a, b)[1..] == Xor(a[1..], b[1..]);
      TimesLinear(low, a[1..], b[1..]);
      var n := |a| - 1;
      MultipleLinear(low, a[0], b[0], n);
      XorPairs(Multiple(low, a[0], n), Times(low, a[1..]), Multiple(low, b[0], n), Times(low, b[1..]));
    }
  }

  lemma XorSwap(t: Bits, t': Bits, f: Bits, r: Bits)
    requires |t| == |t'| == |f| == |r|
    requires Xor(t, f) == Xor(t', r)
    ensures Xor(t, t') == Xor(f, r)
  {
    forall i | 0 <= i < |t| ensures Xor(t, t')[i] == Xor(f, r)[i] {
      assert Xor(t, f)[i] == Xor(t', r)[i];
    }
  }

  /** Remainders exist and are unique: the register is the only word that passes as one. */
  lemma RemainderUnique(low: Word, m: Bits, r: Word)
    ensures IsRemainder(low, m, r) <==> r == Feed(low, Zeros(32), m)
  {
    var q := FeedDivides(low, Zeros(32), m);
    var f := Feed(low, Zeros(32), m);
    assert Xor(Zeros(32) + Zeros(|m|), m + Zeros(32)) == m + Zeros(32);
    if IsRemainder(low, m, r) {
      var q': Bits :| |q'| == |m| && m + Zeros(32) == Xor(Times(low, q'), Zeros(|m|) + r);
      QuotientUnique(low, q, f, q', r);
    }
  }

  lemma QuotientUnique(low: Word, q: Bits, f: Word, q': Bits, r: Word)
    requires |q| == |q'|
    requires Xor(Times(low, q), Zeros(|q|) + f) == Xor(Times(low, q'), Zeros(|q|) + r)
    ensures f == r
  {
    hide *;
    var n := |q|;
    TimesLinear(low, q, q');
    XorSwap(Times(low, q), Times(low, q'), Zeros(n) + f, Zeros(n) + r);
    var d := Xor(Zeros(n) + f, Zeros(n) + r);
    assert Times(low, Xor(q, q')) == d;
    LowPart(n, f, r);
    SmallMultiple(low, Xor(q, q'));
    forall i | 0 <= i < 32 ensures f[i] == r[i] {
      assert d[n + i] == (f[i] != r[i]);
    }
  }

  lemma LowPart(n: nat, f: Word, r: Word)
    ensures forall i :: 0 <= i < n ==> !Xor(Zeros(n) + f, Zeros(n) + r)[i]
    ensures forall i :: 0 <= i < 32 ==> Xor(Zeros(n) + f, Zeros(n) + r)[n + i] == (f[i] != r[i])
  {
  }

  // ---- the register is linear, and invertible when the generator's constant term is 1 ----

  lemma StepLinear(low: Word, s: Word, t: Word)
    ensures Step(low, Xor(s, t)) == Xor(Step(low, s), Step(low, t))
  {
  }

  lemma {:induction false} FeedLinear(low: Word, s: Word, a: Bits, t: Word, b: Bits)
    requires |a| == |b|
    ensures Feed(low, Xor(s, t), Xor(a, b)) == Xor(Feed(low, s, a), Feed(low, t, b))
    decreases a
  {
    if a != [] {
      var s', t' := s[0 := s[0] != a[0]], t[0 := t[0] != b[0]];
      assert Xor(s, t)[0 := Xor(s, t)[0] != Xor(a, b)[0]] == Xor(s', t');
      assert Xor(a, b)[1..] == Xor(a[1..], b[1..]);
      StepLinear(low, s', t');
      FeedLinear(low, Step(low, s'), a[1..], Step(low, t'), b[1..]);
    }
  }

  lemma {:induction false} FeedAppend(low: Word, s: Word, a: Bits, b: Bits)
    ensures Feed(low, s, a + b) == Feed(low, Feed(low, s, a), b)
    decreases a
  {
    if a == [] {
      assert a + b == b;
    } else {
      assert (a + b)[1..] == a[1..] + b;
      FeedAppend(low, Step(low, s[0 := s[0] != a[0]]), a[1..], b);
    }
  }

  /** Up to 32 bits may be added in at once, above the bits that follow them. */
  function Align(m: Bits): Word
    requires |m| <= 32
  {
    m + Zeros(32 - |m|)
  }

  lemma AlignStep(low: Word, s: Word, m: Bits)
    requires 0 < |m| <= 32
    ensures Step(low, Xor(s, Align(m))) == Xor(Step(low, s[0 := s[0] != m[0]]), Align(m[1..]))
  {
    var u, v := Xor(s, Align(m)), s[0 := s[0] != m[0]];
    assert u[0] == v[0];
    forall i | 0 <= i < 32
      ensures (u[1..] + [false])[i] == ((v[1..] + [false])[i] != Align(m[1..])[i])
    {
      if i < 31 {
        assert Align(m)[i + 1] == Align(m[1..])[i];
      }
    }
  }

  lemma {:induction false} FeedAligned(low: Word, s: Word, m: Bits)
    requires |m| <= 32
    ensures Feed(low, s, m) == Steps(low, Xor(s, Align(m)), |m|)
    decreases m
  {
    if m == [] {
      assert Xor(s, Align(m)) == s;
    } else {
      AlignStep(low, s, m);
      FeedAligned(low, Step(low, s[0 := s[0] != m[0]]), m[1..]);
    }
  }

  /** With a constant term the register never loses information: only zero goes to zero. */
  lemma StepNonzero(low: Word, s: Word)
    requires low[31]
    requires s != Zeros(32)
    ensures Step(low, s) != Zeros(32)
  {
    if s[0] {
      assert Step(low, s)[31];
    } else {
      var i :| 0 <= i < 32 && s[i];
      assert Step(low, s)[i - 1];
    }
  }

  lemma {:induction false} StepsNonzero(low: Word, s: Word, n: nat)
    requires low[31]
    ensures Steps(low, s, n) == Zeros(32) <==> s == Zeros(32)
    decreases n
  {
    if n > 0 {
      if s == Zeros(32) {
        assert Step(low, s) == Zeros(32);
      } else {
        StepNonzero(low, s);
      }
      StepsNonzero(low, Step(low, s), n - 1);
    }
  }

  /** Feeding zeros is stepping. */
  lemma {:induction false} FeedZeros(low: Word, s: Word, n: nat)
    ensures Feed(low, s, Zeros(n)) == Steps(low, s, n)
    decreases n
  {
    if n > 0 {
      assert s[0 := s[0] != Zeros(n)[0]] == s;
      assert Zeros(n)[1..] == Zeros(n - 1);
      FeedZeros(low, Step(low, s), n - 1);
    }
  }

  /** All ones of `d` lie among 32 consecutive positions from `p` on. */
  ghost predicate WithinWindow(d: Bits, p: nat) {
    forall i :: 0 <= i < |d| && d[i] ==> p <= i < p + 32
  }

  lemma ShortNonzero(low: Word, w: Bits)
    requires low[31]
    requires |w| <= 32 && exists i :: 0 <= i < |w| && w[i]
    ensures Feed(low, Zeros(32), w) != Zeros(32)
  {
    hide Xor, Step, Steps, Feed;
    var i :| 0 <= i < |w| && w[i];
    assert Align(w)[i];
    FeedAligned(low, Zeros(32), w);
    assert Xor(Zeros(32), Align(w)) == Align(w);
    StepsNonzero(low, Align(w), |w|);
  }

  lemma PaddedNonzero(low: Word, p: nat, w: Bits, r: nat)
    requires low[31]
    requires |w| <= 32 && exists i :: 0 <= i < |w| && w[i]
    ensures Feed(low, Zeros(32), Zeros(p) + w + Zeros(r)) != Zeros(32)
  {
    hide *;
    FeedAppend(low, Zeros(32), Zeros(p) + w, Zeros(r));
    FeedAppend(low, Zeros(32), Zeros(p), w);
    FeedZeros(low, Zeros(32), p);
    StepsNonzero(low, Zeros(32), p);
    ShortNonzero(low, w);
    FeedZeros(low, Feed(low, Zeros(32), w), r);
    StepsNonzero(low, Feed(low, Zeros(32), w), r);
  }

  /** A burst of at most 32 bits never divides out: it leaves a non-zero register. */
  lemma BurstNonzero(low: Word, d: Bits, p: nat)
    requires low[31]
    requires WithinWindow(d, p) && exists i :: 0 <= i < |d| && d[i]
    ensures Feed(low, Zeros(32), d) != Zeros(32)
  {
    hide Zeros, Xor, Step, Feed;
    var i :| 0 <= i < |d| && d[i];
    var e := if p + 32 <= |d| then p + 32 else |d|;
    var w := d[p..e];
    assert w[i - p];
    assert d == Zeros(p) + w + Zeros(|d| - e);
    PaddedNonzero(low, p, w, |d| - e);
  }
}
