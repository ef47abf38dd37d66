/**
 * The draws behind every payout (worker/amounts.ts): rejection sampling is exactly
 * uniform, whatever range an operator configures.
 */
module Amounts {
  import opened Wrappers

  type Byte = b: nat | b < 256

  const RANDOM_INT_MAX_SPAN: nat := 0x1_0000_0000_0000

  function Pow2(k: nat): (p: nat)
    ensures p >= 1
  {
    if k == 0 then 1 else 2 * Pow2(k - 1)
  }

  lemma {:induction false} Pow2Add(a: nat, b: nat)
    ensures Pow2(a + b) == Pow2(a) * Pow2(b)
  {
    if a > 0 {
      Pow2Add(a - 1, b);
      assert 2 * (Pow2(a - 1) * Pow2(b)) == (2 * Pow2(a - 1)) * Pow2(b);
    }
  }

  /** How many binary digits a number has; zero is written with one. */
  function Bits(n: nat): (k: nat)
    ensures k >= 1
  {
    if n < 2 then 1 else 1 + Bits(n / 2)
  }

  /** The mask of that many ones covers the span, by less than a factor of two. */
  lemma {:induction false} MaskFits(span: nat)
    requires span >= 1
    ensures span <= Pow2(Bits(span)) - 1 < 2 * span
  {
    if span >= 2 { MaskFits(span / 2); }
  }

  function BytesFor(bits: nat): (n: nat)
    ensures 8 * (n - 1) < bits <= 8 * n
  {
    (bits + 7) / 8
  }

  /** Bitwise and of two naturals. */
  function And(a: nat, b: nat): nat {
    if a == 0 || b == 0 then 0 else 2 * And(a / 2, b / 2) + (a % 2) * (b % 2)
  }

  function Masked(n: nat, bits: nat): nat {
    And(n, Pow2(bits) - 1)
  }

  lemma Halves(y: nat, r: nat)
    ensures (2 * y + r) / 2 == y + r / 2 && (2 * y + r) % 2 == r % 2
  {
  }

  /** Masking with k ones forgets how many whole rounds of 2^k came before. */
  lemma {:induction false} MaskedRound(k: nat, q: nat, r: nat)
    requires r < Pow2(k)
    ensures Masked(Pow2(k) * q + r, k) == r
  {
    if k > 0 {
      var p := Pow2(k - 1);
      Halves(p * q, r);
      Halves(p - 1, 1);
      TimesAssociates(2, p, q);
      MaskedRound(k - 1, q, r / 2);
    }
  }

  /** A byte string read as a big-endian number. */
  function ValueOf(bytes: seq<Byte>): nat {
    if bytes == [] then 0 else 256 * ValueOf(bytes[..|bytes| - 1]) + bytes[|bytes| - 1]
  }

  function BytesOf(n: nat, length: nat): (s: seq<Byte>)
    ensures |s| == length
  {
    if length == 0 then [] else BytesOf(n / 256, length - 1) + [n % 256]
  }

  /** Byte strings of a length and the numbers below 2^(8·length) are the same thing. */
  lemma {:induction false} BytesAreNumbers(bytes: seq<Byte>, n: nat)
    requires n < Pow2(8 * |bytes|)
    ensures ValueOf(bytes) < Pow2(8 * |bytes|)
    ensures BytesOf(n, |bytes|) == bytes <==> n == ValueOf(bytes)
    decreases |bytes|
  {
    if bytes != [] {
      var front, last := bytes[..|bytes| - 1], bytes[|bytes| - 1];
      assert 8 * |bytes| == 8 * |front| + 8;
      Pow2Add(8 * |front|, 8);
      assert Pow2(8) == 256;
      assert n / 256 < Pow2(8 * |front|);
      BytesAreNumbers(front, n / 256);
      assert BytesOf(n, |bytes|) == BytesOf(n / 256, |front|) + [n % 256];
      assert bytes == front + [last];
    }
  }

  /** One draw: that many random bytes, masked. */
  function Draw(span: nat, bytes: seq<Byte>): nat
    requires span >= 1
  {
    Masked(ValueOf(bytes), Bits(span))
  }

  /** The drawn numbers below `limit` that mask to v. */
  function Hits(limit: nat, bits: nat, v: nat): set<nat> {
    set n: nat | n < limit && Masked(n, bits) == v
  }

  /** Random bits per draw, the least number of whole bytes, and how many of them the mask drops. */
  function DrawBits(span: nat): (n: nat)
    ensures Bits(span) <= n < Bits(span) + 8 && n % 8 == 0
  {
    8 * BytesFor(Bits(span))
  }

  function SpareBits(span: nat): nat {
    DrawBits(span) - Bits(span)
  }

  /**
   * Exactly uniform: every value in [0, span) is the outcome of the same number,
   * 2^spare, of the equally likely byte strings.
   */
  lemma SamplingIsUniform(span: nat, v: nat)
    requires span >= 1 && v < span
    ensures |Hits(Pow2(DrawBits(span)), Bits(span), v)| == Pow2(SpareBits(span))
  {
    hide Pow2, DrawBits;
    MaskFits(span);
    Pow2Add(Bits(span), SpareBits(span));
    HitsPerRound(Pow2(SpareBits(span)), Bits(span), v);
  }

  /** In q rounds of 2^bits consecutive numbers, v is hit once per round. */
  lemma {:induction false} HitsPerRound(q: nat, bits: nat, v: nat)
    requires v < Pow2(bits)
    ensures |Hits(Pow2(bits) * q, bits, v)| == q
  {
    hide Pow2, Masked;
    var p := Pow2(bits);
    if q == 0 {
      assert Hits(p * q, bits, v) == {};
    } else {
      HitsPerRound(q - 1, bits, v);
      assert p * q == p * (q - 1) + p;
      HitsOfRound(p * (q - 1), q - 1, bits, v);
    }
  }

  lemma HitsOfRound(start: nat, q: nat, bits: nat, v: nat)
    requires v < Pow2(bits) && start == Pow2(bits) * q
    ensures Hits(start + Pow2(bits), bits, v) == Hits(start, bits, v) + {start + v}
  {
    hide Pow2, Masked;
    forall n: nat | start <= n < start + Pow2(bits) ensures Masked(n, bits) == n - start {
      MaskedRound(bits, q, n - start);
    }
  }

  /** Each round accepts with probability at least one half. */
  lemma HalfAreAccepted(span: nat)
    requires span >= 1
    ensures 2 * (span * Pow2(SpareBits(span))) >= Pow2(DrawBits(span))
  {
    hide Pow2, DrawBits;
    MaskFits(span);
    Pow2Add(Bits(span), SpareBits(span));
    HalfOf(span, Pow2(Bits(span)), Pow2(SpareBits(span)));
  }

  lemma HalfOf(span: nat, a: nat, b: nat)
    requires a <= 2 * span
    ensures 2 * (span * b) >= a * b
  {
    TimesMonotone(a, 2 * span, b);
  }

  lemma TimesMonotone(a: nat, b: nat, x: nat)
    requires a <= b
    ensures a * x <= b * x
  {
  }

  /* ------------------------------------------------------- the whole loop */

  /** What the loop has come to after these draws: the first in the span, or nothing yet. */
  function FirstAccepted(span: nat, draws: seq<seq<Byte>>): (r: Option<nat>)
    requires span >= 1
    ensures r.Some? ==> r.value < span
    ensures r.None? <==> forall i :: 0 <= i < |draws| ==> Draw(span, draws[i]) >= span
  {
    if draws == [] then None
    else if Draw(span, draws[0]) < span then Some(Draw(span, draws[0]))
    else FirstAccepted(span, draws[1..])
  }

  method RandomBelow(span: nat, draws: seq<seq<Byte>>) returns (r: Option<nat>)
    requires span >= 1
    ensures r == FirstAccepted(span, draws)
  {
    for i := 0 to |draws|
      invariant FirstAccepted(span, draws) == FirstAccepted(span, draws[i..])
    {
      var draw := Draw(span, draws[i]);
      if draw < span { return Some(draw); }
      assert draws[i..][1..] == draws[i + 1..];
    }
    r := None;
  }

  /** Numbers a draw may be and the mask leaves outside the span. */
  function Rejected(span: nat): set<nat>
    requires span >= 1
  {
    set n: nat | n < Pow2(DrawBits(span)) && Masked(n, Bits(span)) >= span
  }

  function OneDraw(ns: set<nat>): set<seq<nat>> {
    set n | n in ns :: [n]
  }

  function After(n: nat, tails: set<seq<nat>>): set<seq<nat>> {
    set rest | rest in tails :: [n] + rest
  }

  function Pairs(ns: set<nat>, tails: set<seq<nat>>): set<seq<nat>> {
    set n, rest | n in ns && rest in tails :: [n] + rest
  }

  /** Every way the loop can end with v at its k-th draw. */
  function EndingAt(span: nat, k: nat, v: nat): set<seq<nat>>
    requires span >= 1 && k >= 1
  {
    if k == 1 then OneDraw(Hits(Pow2(DrawBits(span)), Bits(span), v))
    else Pairs(Rejected(span), EndingAt(span, k - 1, v))
  }

  ghost predicate DrawsFor(span: nat, draws: seq<seq<Byte>>)
    requires span >= 1
  {
    forall i :: 0 <= i < |draws| ==> 8 * |draws[i]| == DrawBits(span)
  }

  function Numbers(draws: seq<seq<Byte>>): seq<nat> {
    if draws == [] then [] else [ValueOf(draws[0])] + Numbers(draws[1..])
  }

  /** That set is right: a sequence of draws is in it exactly when the loop ends with v on its last. */
  lemma {:induction false} EndingAtIsTheLoop(span: nat, draws: seq<seq<Byte>>, v: nat)
    requires span >= 1 && v < span && draws != [] && DrawsFor(span, draws)
    ensures Numbers(draws) in EndingAt(span, |draws|, v)
       <==> FirstAccepted(span, draws) == Some(v) && FirstAccepted(span, draws[..|draws| - 1]) == None
    decreases |draws|
  {
    hide Pow2, Masked, ValueOf;
    var n, front := ValueOf(draws[0]), draws[..|draws| - 1];
    BytesAreNumbers(draws[0], 0);
    assert n < Pow2(DrawBits(span));
    if |draws| == 1 {
      assert Numbers(draws) == [n];
      var hits := Hits(Pow2(DrawBits(span)), Bits(span), v);
      assert [n] in OneDraw(hits) <==> n in hits;
    } else {
      var rest := draws[1..];
      EndingAtIsTheLoop(span, rest, v);
      HeadAndRest(Rejected(span), EndingAt(span, |draws| - 1, v), n, Numbers(rest));
      assert front[1..] == rest[..|rest| - 1];
    }
  }

  lemma HeadAndRest(ns: set<nat>, tails: set<seq<nat>>, n: nat, rest: seq<nat>)
    ensures [n] + rest in Pairs(ns, tails) <==> n in ns && rest in tails
  {
    if [n] + rest in Pairs(ns, tails) {
      var m, tail :| m in ns && tail in tails && [m] + tail == [n] + rest;
      assert m == ([n] + rest)[0] && tail == ([n] + rest)[1..];
      assert rest == ([n] + rest)[1..];
    }
  }

  function Power(b: nat, e: nat): nat {
    if e == 0 then 1 else b * Power(b, e - 1)
  }

  /**
   * The loop is exactly uniform, however often it rejects: it ends with v at the k-th
   * draw in |rejected|^(k−1) · 2^spare ways, the same number for every v.
   */
  lemma {:induction false} RejectionIsUniform(span: nat, k: nat, v: nat)
    requires span >= 1 && k >= 1 && v < span
    ensures |EndingAt(span, k, v)| == Power(|Rejected(span)|, k - 1) * Pow2(SpareBits(span))
  {
    hide Hits, Rejected, SpareBits, DrawBits, Pow2;
    if k == 1 {
      SamplingIsUniform(span, v);
      OneDrawCount(Hits(Pow2(DrawBits(span)), Bits(span), v));
    } else {
      RejectionIsUniform(span, k - 1, v);
      PairsCount(Rejected(span), EndingAt(span, k - 1, v));
      TimesAssociates(|Rejected(span)|, Power(|Rejected(span)|, k - 2), Pow2(SpareBits(span)));
    }
  }

  lemma TimesAssociates(a: nat, b: nat, c: nat)
    ensures a * (b * c) == (a * b) * c
  {
  }

  lemma {:induction false} OneDrawCount(ns: set<nat>)
    ensures |OneDraw(ns)| == |ns|
    decreases |ns|
  {
    if ns != {} {
      var m :| m in ns;
      OneDrawCount(ns - {m});
      assert OneDraw(ns) == OneDraw(ns - {m}) + {[m]} && [m] !in OneDraw(ns - {m});
    }
  }

  lemma {:induction false} AfterCount(n: nat, tails: set<seq<nat>>)
    ensures |After(n, tails)| == |tails|
    decreases |tails|
  {
    if tails != {} {
      var t :| t in tails;
      AfterCount(n, tails - {t});
      forall rest | rest in tails - {t} ensures [n] + rest != [n] + t {
        assert ([n] + rest)[1..] == rest && ([n] + t)[1..] == t;
      }
      assert After(n, tails) == After(n, tails - {t}) + {[n] + t} && [n] + t !in After(n, tails - {t});
    }
  }

  lemma {:induction false} PairsCount(ns: set<nat>, tails: set<seq<nat>>)
    ensures |Pairs(ns, tails)| == |ns| * |tails|
    decreases |ns|
  {
    hide Pairs, After;
    if ns == {} {
      NoPairs(tails);
    } else {
      var m :| m in ns;
      PairsCount(ns - {m}, tails);
      AfterCount(m, tails);
      PairsSplit(ns, m, tails);
      SizesAdd(Pairs(ns - {m}, tails), After(m, tails), |ns - {m}|, |tails|);
    }
  }

  lemma NoPairs(tails: set<seq<nat>>)
    ensures Pairs({}, tails) == {}
  {
  }

  lemma SizesAdd(a: set<seq<nat>>, b: set<seq<nat>>, k: nat, t: nat)
    requires a !! b && |a| == k * t && |b| == t
    ensures |a + b| == (k + 1) * t
  {
    assert |a + b| == |a| + |b|;
  }

  lemma PairsSplit(ns: set<nat>, m: nat, tails: set<seq<nat>>)
    requires m in ns
    ensures Pairs(ns, tails) == Pairs(ns - {m}, tails) + After(m, tails) && Pairs(ns - {m}, tails) !! After(m, tails)
  {
    forall x | x in Pairs(ns - {m}, tails) ensures x !in After(m, tails) { assert x[0] != m; }
    forall x | x in Pairs(ns, tails) ensures x in Pairs(ns - {m}, tails) || x in After(m, tails) {
      var n, rest :| n in ns && rest in tails && [n] + rest == x;
      if n != m { assert n in ns - {m}; }
    }
    forall x | x in After(m, tails) ensures x in Pairs(ns, tails) {
      var rest :| rest in tails && [m] + rest == x;
    }
  }

  /* ------------------------------------------------------------ the draws */

  /** The platform's uniform integer of [lo, hi); `raw` stands for its randomness. */
  function RandomInt(lo: int, hi: int, raw: nat): (r: int)
    requires lo < hi
    ensures lo <= r < hi
  {
    lo + raw % (hi - lo)
  }

  datatype Drawn = Amount(wei: nat) | MaxBelowMin | StillDrawing

  /** A configured amount: narrow ranges from the platform, wide ones by rejection. */
  function WeiDrawn(min: nat, max: nat, raw: nat, draws: seq<seq<Byte>>): (r: Drawn)
    ensures r.MaxBelowMin? <==> max < min
    ensures r.Amount? ==> min <= r.wei <= max
    ensures r.StillDrawing? ==> max - min + 1 > RANDOM_INT_MAX_SPAN && FirstAccepted(max - min + 1, draws) == None
  {
    if max < min then MaxBelowMin
    else if max == min then Amount(min)
    else if max - min + 1 <= RANDOM_INT_MAX_SPAN then Amount(min + RandomInt(0, max - min + 1, raw))
    else
      var below := FirstAccepted(max - min + 1, draws);
      if below.Some? then Amount(min + below.value) else StillDrawing
  }

  method RandomWei(min: nat, max: nat, raw: nat, draws: seq<seq<Byte>>) returns (r: Drawn)
    ensures r == WeiDrawn(min, max, raw, draws)
  {
    if max < min { return MaxBelowMin; }
    var span := max - min + 1;
    if span == 1 { return Amount(min); }
    if span <= RANDOM_INT_MAX_SPAN { return Amount(min + RandomInt(0, span, raw)); }
    var below := RandomBelow(span, draws);
    if below.None? { return StillDrawing; }
    r := Amount(min + below.value);
  }

  /** A wide range is uniform on [min, max]: each amount is reached at the k-th draw in the same number of ways. */
  lemma WideWeiIsUniform(min: nat, max: nat, wei: nat, raw: nat, draws: seq<seq<Byte>>)
    requires min <= wei <= max && max - min + 1 > RANDOM_INT_MAX_SPAN && draws != [] && DrawsFor(max - min + 1, draws)
    ensures var span := max - min + 1;
            && (WeiDrawn(min, max, raw, draws) == Amount(wei) &&
                WeiDrawn(min, max, raw, draws[..|draws| - 1]) == StillDrawing
                <==> Numbers(draws) in EndingAt(span, |draws|, wei - min))
            && |EndingAt(span, |draws|, wei - min)| == Power(|Rejected(span)|, |draws| - 1) * Pow2(SpareBits(span))
  {
    hide EndingAt, Rejected, Pow2, SpareBits, Numbers, FirstAccepted, DrawsFor, Power;
    EndingAtIsTheLoop(max - min + 1, draws, wei - min);
    RejectionIsUniform(max - min + 1, |draws|, wei - min);
  }

  /** Whole seconds in [min, max]; never below min, even when the range is empty. */
  function RandomDelaySec(min: int, max: int, raw: nat): (d: int)
    ensures min <= d && (min <= max ==> d <= max)
  {
    if max <= min then min else RandomInt(min, max + 1, raw)
  }

  /** The raw values below n that come out as v. */
  function Landing(lo: int, hi: int, v: int, n: nat): set<nat>
    requires lo < hi
  {
    set raw: nat | raw < n && RandomInt(lo, hi, raw) == v
  }

  /** In q rounds of raw values every integer of the range comes up q times. */
  lemma {:induction false} RandomIntIsUniform(lo: int, hi: int, v: int, q: nat)
    requires lo <= v < hi
    ensures |Landing(lo, hi, v, (hi - lo) * q)| == q
  {
    var span := hi - lo;
    if q == 0 {
      assert Landing(lo, hi, v, span * q) == {};
    } else {
      RandomIntIsUniform(lo, hi, v, q - 1);
      assert span * q == span * (q - 1) + span;
      OneRound(lo, hi, v, span * (q - 1), q - 1);
    }
  }

  lemma OneRound(lo: int, hi: int, v: int, start: nat, q: nat)
    requires lo <= v < hi && start == (hi - lo) * q
    ensures Landing(lo, hi, v, start + (hi - lo)) == Landing(lo, hi, v, start) + {start + (v - lo)}
  {
    forall raw: nat | start <= raw < start + (hi - lo) ensures RandomInt(lo, hi, raw) == lo + (raw - start) {
      Remainder(raw, hi - lo, q);
    }
  }

  lemma Remainder(n: nat, d: nat, q: nat)
    requires d > 0 && d * q <= n < d * q + d
    ensures n % d == n - d * q
  {
    var rest, k := n - d * q, n / d;
    assert n == d * k + n % d;
    if k < q { TimesMonotone(k + 1, q, d); }
    if k > q { TimesMonotone(q + 1, k, d); }
  }

  /** A narrow range is as uniform as the platform's integer: every amount of it comes up equally often. */
  lemma NarrowWeiIsUniform(min: nat, max: nat, wei: nat, draws: seq<seq<Byte>>, q: nat)
    requires min <= wei <= max && max - min + 1 <= RANDOM_INT_MAX_SPAN
    ensures |set raw: nat | raw < (max - min + 1) * q && WeiDrawn(min, max, raw, draws) == Amount(wei)| == q
  {
    var span := max - min + 1;
    RandomIntIsUniform(0, span, wei - min, q);
    assert (set raw: nat | raw < span * q && WeiDrawn(min, max, raw, draws) == Amount(wei)) == Landing(0, span,
        wei - min, span * q);
  }

  /** And so is every delay of the range, both ends included. */
  lemma DelayIsUniform(min: int, max: int, d: int, q: nat)
    requires min <= d <= max
    ensures |set raw: nat | raw < (max - min + 1) * q && RandomDelaySec(min, max, raw) == d| == q
  {
    RandomIntIsUniform(min, max + 1, d, q);
    assert (set raw: nat | raw < (max - min + 1) * q && RandomDelaySec(min, max, raw) == d) == Landing(min, max + 1,
        d, (max + 1 - min) * q);
  }
}
