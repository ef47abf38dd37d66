/** Wei as decimal text and back (lib/format.ts, and weiToEthString of lib/csv.ts). */
module Format {
  import opened Wrappers

  predicate IsDigit(c: char) {
    '0' <= c <= '9'
  }

  predicate AllDigits(s: string) {
    forall c :: c in s ==> IsDigit(c)
  }

  /** The decimal digits of a number, without leading zeros. */
  function Decimal(n: nat): (s: string)
    ensures s != [] && AllDigits(s)
  {
    if n < 10 then [('0' as int + n) as char] else Decimal(n / 10) + [('0' as int + n % 10) as char]
  }

  /** A digit string as a number; the empty one is zero. */
  function ValueOf(s: string): nat
    requires AllDigits(s)
  {
    if s == [] then 0 else
    assert s[|s| - 1] in s;
    10 * ValueOf(s[..|s| - 1]) + (s[|s| - 1] as int - '0' as int)
  }

  function Pow10(k: nat): (p: nat)
    ensures p >= 1
  {
    if k == 0 then 1 else 10 * Pow10(k - 1)
  }

  const WEI_PER_ETH: nat := 1_000_000_000_000_000_000

  lemma EthIsTenToThe18()
    ensures Pow10(18) == WEI_PER_ETH
  {
    assert Pow10(6) == 1_000_000;
    assert Pow10(12) == 1_000_000_000_000;
  }

  lemma {:induction false} DecimalReadsBack(n: nat)
    ensures ValueOf(Decimal(n)) == n
  {
    if n >= 10 { DecimalReadsBack(n / 10); }
  }

  lemma {:induction false} DecimalIsShort(n: nat, k: nat)
    requires k >= 1 && n < Pow10(k)
    ensures |Decimal(n)| <= k
  {
    if n >= 10 { DecimalIsShort(n / 10, k - 1); }
  }

  function Zeros(k: nat): (s: string)
    ensures |s| == k && AllDigits(s)
  {
    if k == 0 then [] else Zeros(k - 1) + ['0']
  }

  function PadStart(s: string, k: nat): string {
    Zeros(Max(0, k - |s|)) + s
  }

  function PadEnd(s: string, k: nat): string {
    s + Zeros(Max(0, k - |s|))
  }

  lemma LastDigit(s: string)
    requires s != [] && AllDigits(s)
    ensures AllDigits(s[..|s| - 1]) && ValueOf(s) == 10 * ValueOf(s[..|s| - 1]) + (s[|s| - 1] as int - '0' as int)
    ensures '0' <= s[|s| - 1] <= '9'
  {
    assert s[|s| - 1] in s;
  }

  lemma {:induction false} ValueSplits(a: string, b: string)
    requires AllDigits(a) && AllDigits(b)
    ensures AllDigits(a + b) && ValueOf(a + b) == ValueOf(a) * Pow10(|b|) + ValueOf(b)
    ensures ValueOf(b) < Pow10(|b|)
    decreases |b|
  {
    assert AllDigits(a + b);
    if b == [] {
      assert a + b == a;
    } else {
      var front, p := b[..|b| - 1], Pow10(|b| - 1);
      LastDigit(b);
      LastDigit(a + b);
      assert (a + b)[..|a + b| - 1] == a + front && (a + b)[|a + b| - 1] == b[|b| - 1];
      assert Pow10(|b|) == 10 * p;
      hide AllDigits, ValueOf, Pow10;
      ValueSplits(a, front);
      TenTimes(ValueOf(a), p);
    }
  }

  lemma TenTimes(v: nat, p: nat)
    ensures v * (10 * p) == 10 * (v * p)
  {
  }

  lemma {:induction false} ZerosAreWorthless(k: nat)
    ensures ValueOf(Zeros(k)) == 0
  {
    if k > 0 { ZerosAreWorthless(k - 1); }
  }

  /** The 18 decimals of a fraction of one ETH. */
  function Decimals(frac: nat): (s: string)
    requires frac < WEI_PER_ETH
    ensures |s| == 18 && AllDigits(s) && ValueOf(s) == frac
  {
    EthIsTenToThe18();
    DecimalIsShort(frac, 18);
    DecimalReadsBack(frac);
    ValueSplits(Zeros(18 - |Decimal(frac)|), Decimal(frac));
    ZerosAreWorthless(18 - |Decimal(frac)|);
    PadStart(Decimal(frac), 18)
  }

  /** The unsigned part, cut rather than rounded. */
  function FormatAbs(abs: nat, decimals: nat): (s: string)
    ensures s != [] && IsDigit(s[|s| - 1])
  {
    var whole, all := Decimal(abs / WEI_PER_ETH), Decimals(abs % WEI_PER_ETH);
    assert whole[|whole| - 1] in whole;
    if decimals > 0 then
      assert all[Min(decimals, 18) - 1] in all;
      whole + "." + all[..Min(decimals, 18)]
    else whole
  }

  function FormatEth(wei: int, decimals: nat): string {
    if wei < 0 then "-" + FormatAbs(-wei, decimals) else FormatAbs(wei, decimals)
  }

  /* ---------------------------------------------------------------- parsing */

  /** What String.trim removes. */
  predicate IsSpace(c: char) {
    || '\U{9}' <= c <= '\U{D}' || c == ' ' || c == '\U{A0}' || c == '\U{1680}' || '\U{2000}' <= c <= '\U{200A}'
    || c == '\U{2028}' || c == '\U{2029}' || c == '\U{202F}' || c == '\U{205F}' || c == '\U{3000}' || c == '\U{FEFF}'
  }

  function TrimStart(s: string): string {
    if s != [] && IsSpace(s[0]) then TrimStart(s[1..]) else s
  }

  function TrimEnd(s: string): string {
    if s != [] && IsSpace(s[|s| - 1]) then TrimEnd(s[..|s| - 1]) else s
  }

  /** Position of the first dot, or the length. */
  function DotAt(s: string): (i: nat)
    ensures i <= |s| && (i < |s| ==> s[i] == '.') && forall k :: 0 <= k < i ==> s[k] != '.'
  {
    if s == [] || s[0] == '.' then 0 else 1 + DotAt(s[1..])
  }

  /** Wei of a decimal ETH string; None is the thrown error. Digits past the 18th are dropped. */
  function ParseEth(input: string): Option<nat> {
    var trimmed := TrimEnd(TrimStart(input));
    var dot := DotAt(trimmed);
    var whole, frac := trimmed[..dot], if dot < |trimmed| then trimmed[dot + 1..] else "";
    if !AllDigits(whole) || !AllDigits(frac) || trimmed == "" || trimmed == "." then None
    else Some(ValueOf(whole) * WEI_PER_ETH + ValueOf(FirstDecimals(frac)))
  }

  function FirstDecimals(frac: string): (s: string)
    requires AllDigits(frac)
    ensures AllDigits(s)
  {
    PadEnd(frac, 18)[..18]
  }

  /** Text that neither begins nor ends with a space is left alone. */
  lemma TrimKeeps(s: string)
    requires s != [] && !IsSpace(s[0]) && !IsSpace(s[|s| - 1])
    ensures TrimEnd(TrimStart(s)) == s
  {
  }

  lemma DigitIsNoSpace(c: char)
    requires IsDigit(c)
    ensures !IsSpace(c) && c != '.' && c != '-'
  {
  }

  lemma DotFound(whole: string, rest: string)
    requires AllDigits(whole) && (rest == [] || rest[0] == '.')
    ensures DotAt(whole + rest) == |whole|
  {
    forall k | 0 <= k < |whole| ensures (whole + rest)[k] != '.' {
      assert whole[k] in whole;
    }
    if rest != [] { assert (whole + rest)[|whole|] == '.'; }
  }

  /** What ParseEth makes of a well-formed amount. */
  lemma ParsesAmount(whole: string, frac: string)
    requires AllDigits(whole) && AllDigits(frac) && (whole != [] || frac != [])
    ensures ParseEth(whole + "." + frac) == Some(ValueOf(whole) * WEI_PER_ETH + ValueOf(FirstDecimals(frac)))
  {
    hide IsSpace, IsDigit, AllDigits, TrimStart, TrimEnd, DotAt, ValueOf, FirstDecimals, Pow10;
    var s := whole + "." + frac;
    AmountStands(whole, frac);
    TrimKeeps(s);
    assert s == whole + ("." + frac);
    DotFound(whole, "." + frac);
    assert s[..|whole|] == whole && s[|whole| + 1..] == frac;
  }

  lemma AmountStands(whole: string, frac: string)
    requires AllDigits(whole) && AllDigits(frac)
    ensures var s := whole + "." + frac; !IsSpace(s[0]) && !IsSpace(s[|s| - 1])
  {
    hide IsSpace, IsDigit;
    DotIsNoSpace();
    if whole != [] {
      assert whole[0] in whole;
      DigitIsNoSpace(whole[0]);
    }
    if frac != [] {
      assert frac[|frac| - 1] in frac;
      DigitIsNoSpace(frac[|frac| - 1]);
    }
  }

  lemma DotIsNoSpace()
    ensures !IsSpace('.') && !IsSpace('-')
  {
  }

  /** Digits begin and end with no space, and are no bare dot. */
  lemma DigitsStand(s: string)
    requires s != [] && AllDigits(s)
    ensures !IsSpace(s[0]) && !IsSpace(s[|s| - 1]) && s != "." && AllDigits("")
  {
    assert s[0] in s && s[|s| - 1] in s;
    DigitIsNoSpace(s[0]);
    DigitIsNoSpace(s[|s| - 1]);
  }

  lemma ParsesWhole(whole: string)
    requires whole != [] && AllDigits(whole)
    ensures ParseEth(whole) == Some(ValueOf(whole) * WEI_PER_ETH)
  {
    hide IsSpace, IsDigit, TrimStart, TrimEnd, DotAt, ValueOf, Pow10, Zeros, PadEnd, AllDigits, FirstDecimals;
    DigitsStand(whole);
    TrimKeeps(whole);
    assert whole + [] == whole;
    DotFound(whole, []);
    assert whole[..|whole|] == whole;
    NoDecimals();
  }

  ghost predicate AllSpaces(s: string) {
    forall c :: c in s ==> IsSpace(c)
  }

  lemma {:induction false} TrimStartCuts(s: string) returns (pre: string)
    ensures AllSpaces(pre) && s == pre + TrimStart(s) && (TrimStart(s) != [] ==> !IsSpace(TrimStart(s)[0]))
  {
    hide IsSpace;
    pre := [];
    if s != [] && IsSpace(s[0]) {
      var rest := TrimStartCuts(s[1..]);
      pre := [s[0]] + rest;
      assert s == [s[0]] + s[1..];
    }
  }

  lemma {:induction false} TrimEndCuts(s: string) returns (post: string)
    ensures AllSpaces(post) && s == TrimEnd(s) + post && (TrimEnd(s) != [] ==> !IsSpace(TrimEnd(s)[|TrimEnd(s)| - 1]))
    ensures TrimEnd(s) <= s
  {
    hide IsSpace;
    post := [];
    if s != [] && IsSpace(s[|s| - 1]) {
      var rest := TrimEndCuts(s[..|s| - 1]);
      post := rest + [s[|s| - 1]];
      assert s == s[..|s| - 1] + [s[|s| - 1]];
    }
  }

  lemma {:induction false} SpacesAreTrimmed(pre: string, body: string, post: string)
    requires AllSpaces(pre) && AllSpaces(post) && body != [] && !IsSpace(body[0]) && !IsSpace(body[|body| - 1])
    ensures TrimEnd(TrimStart(pre + body + post)) == body
    decreases |pre| + |post|
  {
    hide IsSpace;
    var s := pre + body + post;
    if pre != [] {
      assert pre[0] in pre && s[0] == pre[0] && s[1..] == pre[1..] + body + post;
      assert forall c :: c in pre[1..] ==> c in pre;
      SpacesAreTrimmed(pre[1..], body, post);
    } else {
      assert s == body + post && s[0] == body[0];
      SpacesAfter(body, post);
    }
  }

  lemma {:induction false} SpacesAfter(body: string, post: string)
    requires AllSpaces(post) && body != [] && !IsSpace(body[|body| - 1])
    ensures TrimEnd(body + post) == body
    decreases |post|
  {
    hide IsSpace;
    if post == [] {
      assert body + post == body;
    } else {
      var front := post[..|post| - 1];
      assert post[|post| - 1] in post && forall c :: c in front ==> c in post;
      assert (body + post)[..|body + post| - 1] == body + front;
      SpacesAfter(body, front);
    }
  }

  /** The grammar: digits, perhaps a dot and more digits, not nothing and not a dot alone. */
  ghost predicate IsAmount(body: string, whole: string, frac: string) {
    && AllDigits(whole) && AllDigits(frac) && body != "" && body != "."
    && (body == whole + "." + frac || (body == whole && frac == ""))
  }

  /** Spaces around it are forgiven. */
  ghost predicate Written(input: string, whole: string, frac: string) {
    exists pre, body, post ::
      AllSpaces(pre) && AllSpaces(post) && input == pre + body + post && IsAmount(body, whole, frac)
  }

  /** Every text of the grammar is accepted, for the amount it writes down, cut after the 18th decimal. */
  lemma GrammarParses(pre: string, body: string, post: string, whole: string, frac: string)
    requires AllSpaces(pre) && AllSpaces(post) && IsAmount(body, whole, frac)
    ensures ParseEth(pre + body + post) == Some(ValueOf(whole) * WEI_PER_ETH + ValueOf(FirstDecimals(frac)))
  {
    BodyStands(body, whole, frac);
    SpacesAreTrimmed(pre, body, post);
    TrimKeeps(body);
    OnlyTrimmedCounts(pre + body + post, body);
    hide IsSpace, IsDigit, ParseEth, ValueOf, FirstDecimals;
    if body == whole + "." + frac { ParsesAmount(whole, frac); } else { WholeParses(whole, frac); }
  }

  lemma OnlyTrimmedCounts(a: string, b: string)
    requires TrimEnd(TrimStart(a)) == TrimEnd(TrimStart(b))
    ensures ParseEth(a) == ParseEth(b)
  {
    hide TrimStart, TrimEnd, AllDigits, ValueOf, FirstDecimals, DotAt;
  }

  lemma WholeParses(whole: string, frac: string)
    requires whole != [] && frac == "" && AllDigits(whole) && AllDigits(frac)
    ensures ParseEth(whole) == Some(ValueOf(whole) * WEI_PER_ETH + ValueOf(FirstDecimals(frac)))
  {
    hide ParseEth, AllDigits;
    ParsesWhole(whole);
    NoDecimals();
  }

  lemma BodyStands(body: string, whole: string, frac: string)
    requires IsAmount(body, whole, frac)
    ensures !IsSpace(body[0]) && !IsSpace(body[|body| - 1])
  {
    DotIsNoSpace();
    forall c | c in body ensures !IsSpace(c) {
      if c in whole || c in frac { DigitIsNoSpace(c); } else { assert c == '.'; }
    }
    assert body[0] in body && body[|body| - 1] in body;
  }

  /** And nothing else is. */
  lemma OnlyGrammarParses(input: string)
    ensures ParseEth(input).Some? ==> exists whole, frac :: Written(input, whole, frac)
  {
    if ParseEth(input).Some? {
      var pre := TrimStartCuts(input);
      var post := TrimEndCuts(TrimStart(input));
      var body := TrimEnd(TrimStart(input));
      assert input == pre + body + post;
      var whole, frac := BodyIsAmount(input, body);
      hide IsAmount, AllSpaces, TrimStart, TrimEnd;
      assert Written(input, whole, frac);
    }
  }

  lemma BodyIsAmount(input: string, body: string) returns (whole: string, frac: string)
    requires ParseEth(input).Some? && body == TrimEnd(TrimStart(input))
    ensures IsAmount(body, whole, frac)
  {
    hide IsSpace, IsDigit, AllDigits, TrimStart, TrimEnd, ValueOf, FirstDecimals, Pow10;
    var dot := DotAt(body);
    whole, frac := body[..dot], if dot < |body| then body[dot + 1..] else "";
    if dot < |body| { assert body == whole + "." + frac; } else { assert body == whole; }
  }

  /** The first eighteen decimals, in wei: exact up to eighteen, cut and never rounded up beyond. */
  lemma DecimalsInWei(frac: string)
    requires AllDigits(frac)
    ensures |frac| <= 18 ==> ValueOf(FirstDecimals(frac)) == ValueOf(frac) * Pow10(18 - |frac|)
    ensures |frac| > 18 ==>
              var wei, unit := ValueOf(FirstDecimals(frac)), Pow10(|frac| - 18);
              wei * unit <= ValueOf(frac) < wei * unit + unit
  {
    hide IsDigit, ValueOf, Pow10, Zeros, FirstDecimals;
    if |frac| <= 18 {
      ValueSplits(frac, Zeros(18 - |frac|));
      ZerosAreWorthless(18 - |frac|);
      PadsOrCuts(frac);
    } else {
      var a, b := frac[..18], frac[18..];
      assert frac == a + b;
      forall c | c in a || c in b ensures c in frac { }
      ValueSplits(a, b);
      PadsOrCuts(frac);
    }
  }

  lemma PadsOrCuts(frac: string)
    requires AllDigits(frac)
    ensures FirstDecimals(frac) == if |frac| <= 18 then frac + Zeros(18 - |frac|) else frac[..18]
  {
    NoZeros();
  }

  lemma NoZeros()
    ensures Zeros(0) == []
  {
  }

  /** Cutting decimals off loses less than one unit of the last place kept. */
  lemma CutLosesLessThanAUnit(s: string, d: nat)
    requires AllDigits(s) && |s| == 18 && d <= 18
    ensures AllDigits(s[..d])
    ensures ValueOf(FirstDecimals(s[..d])) <= ValueOf(s) < ValueOf(FirstDecimals(s[..d])) + Pow10(18 - d)
    ensures d == 18 ==> ValueOf(FirstDecimals(s[..d])) == ValueOf(s)
  {
    hide IsDigit, ValueOf, Pow10, Zeros;
    var a, b := s[..d], s[d..];
    assert s == a + b;
    forall c | c in a || c in b ensures c in s { }
    ValueSplits(a, b);
    ValueSplits(a, Zeros(18 - d));
    ZerosAreWorthless(18 - d);
    assert FirstDecimals(a) == a + Zeros(18 - d);
    if d == 18 { NoDigitsNoValue(b); }
  }

  lemma NoDigitsNoValue(s: string)
    requires s == []
    ensures ValueOf(s) == 0
  {
  }

  /**
   * Printing and parsing undo each other for every amount that is not negative. With
   * fewer decimals the printed amount is rounded down, by less than one unit of its
   * last place; a negative amount prints as text that does not parse.
   */
  lemma FormatThenParse(wei: int, decimals: nat)
    ensures wei < 0 ==> ParseEth(FormatEth(wei, decimals)) == None
    ensures wei >= 0 ==>
              var back := ParseEth(FormatEth(wei, decimals));
              back.Some? && back.value <= wei < back.value + Pow10(18 - Min(decimals, 18))
    ensures wei >= 0 && decimals >= 18 ==> ParseEth(FormatEth(wei, decimals)) == Some(wei)
  {
    if wei < 0 {
      NegativeDoesNotParse(FormatAbs(-wei, decimals));
    } else {
      AbsParses(wei, decimals);
    }
  }

  /** How a printed amount looks: no leading zeros, and as many decimals as asked for, eighteen at most. */
  lemma FormatShape(abs: nat, decimals: nat)
    ensures var s := FormatAbs(abs, decimals);
            var dot := DotAt(s);
            && dot >= 1 && (s[0] == '0' ==> dot == 1)
            && |s| == if decimals == 0 then dot else dot + 1 + Min(decimals, 18)
  {
    hide IsDigit, Decimal, ValueOf, Pow10, Zeros, PadStart, DotAt;
    var whole, all := Decimal(abs / WEI_PER_ETH), Decimals(abs % WEI_PER_ETH);
    DecimalIsPlain(abs / WEI_PER_ETH);
    if decimals > 0 {
      assert FormatAbs(abs, decimals) == whole + ("." + all[..Min(decimals, 18)]);
      DotFound(whole, "." + all[..Min(decimals, 18)]);
    } else {
      assert whole + [] == whole;
      DotFound(whole, []);
    }
  }

  lemma {:induction false} DecimalIsPlain(n: nat)
    ensures Decimal(n)[0] == '0' ==> n == 0 && |Decimal(n)| == 1
  {
    if n >= 10 { DecimalIsPlain(n / 10); }
  }

  lemma AbsParses(abs: nat, decimals: nat)
    ensures var back := ParseEth(FormatAbs(abs, decimals));
            && back.Some? && back.value <= abs < back.value + Pow10(18 - Min(decimals, 18))
            && (decimals >= 18 ==> back.value == abs)
  {
    hide IsDigit, ValueOf, Zeros, Decimal, ParseEth, FirstDecimals, Pow10;
    var whole, all := Decimal(abs / WEI_PER_ETH), Decimals(abs % WEI_PER_ETH);
    DecimalReadsBack(abs / WEI_PER_ETH);
    CutLosesLessThanAUnit(all, Min(decimals, 18));
    if decimals > 0 {
      ParsesAmount(whole, all[..Min(decimals, 18)]);
    } else {
      ParsesWhole(whole);
      NoDecimals();
      assert all[..0] == [];
    }
  }

  lemma NoDecimals()
    ensures ValueOf(FirstDecimals([])) == 0
  {
    ZerosAreWorthless(18);
    assert FirstDecimals([]) == Zeros(18);
  }

  /** A leading minus is not part of the grammar. */
  lemma NegativeDoesNotParse(body: string)
    requires body != [] && IsDigit(body[|body| - 1])
    ensures ParseEth("-" + body) == None
  {
    var s := "-" + body;
    hide IsSpace, TrimStart, TrimEnd;
    DotIsNoSpace();
    DigitIsNoSpace(body[|body| - 1]);
    TrimKeeps(s);
    assert s[..DotAt(s)][0] == '-' && '-' in s[..DotAt(s)];
  }

  /* --------------------------------------------------- the export's spelling */

  function StripZeros(s: string): string {
    if s != [] && s[|s| - 1] == '0' then StripZeros(s[..|s| - 1]) else s
  }

  function ExportAbs(abs: nat): string {
    var whole, fraction := Decimal(abs / WEI_PER_ETH), StripZeros(Decimals(abs % WEI_PER_ETH));
    if fraction == "" then whole else whole + "." + fraction
  }

  function WeiToEthString(wei: int): string {
    if wei < 0 then "-" + ExportAbs(-wei) else ExportAbs(wei)
  }

  lemma {:induction false} PaddingRestoresZeros(s: string, k: nat)
    requires |s| <= k
    ensures |StripZeros(s)| <= |s| && PadEnd(StripZeros(s), k) == PadEnd(s, k)
    ensures forall c :: c in StripZeros(s) ==> c in s
  {
    if s != [] && s[|s| - 1] == '0' {
      var front := s[..|s| - 1];
      PaddingRestoresZeros(front, k);
      ZeroFirst(k - |s|);
      assert s + Zeros(k - |s|) == front + (['0'] + Zeros(k - |s|));
    }
  }

  lemma {:induction false} ZeroFirst(k: nat)
    ensures ['0'] + Zeros(k) == Zeros(k + 1)
  {
    if k > 0 { ZeroFirst(k - 1); }
  }

  /** The CSV spelling carries every digit: it parses back to the same wei exactly when it is not negative. */
  lemma ExportThenParse(wei: int)
    ensures ParseEth(WeiToEthString(wei)) == if wei >= 0 then Some(wei) else None
  {
    hide ParseEth, ExportAbs, IsDigit;
    if wei < 0 {
      ExportAbsParses(-wei);
      NegativeDoesNotParse(ExportAbs(-wei));
    } else {
      ExportAbsParses(wei);
    }
  }

  /** How an exported amount looks: no leading zeros, no trailing ones after a dot, and no dot without decimals. */
  lemma ExportShape(abs: nat)
    ensures var s := ExportAbs(abs);
            var dot := DotAt(s);
            dot >= 1 && (s[0] == '0' ==> dot == 1) && (dot < |s| ==> dot + 1 < |s| <= dot + 19 && s[|s| - 1] != '0')
  {
    hide IsDigit, Decimal, ValueOf, Pow10, Zeros, PadStart, PadEnd, DotAt;
    var whole, fraction := Decimal(abs / WEI_PER_ETH), StripZeros(Decimals(abs % WEI_PER_ETH));
    DecimalIsPlain(abs / WEI_PER_ETH);
    NoTrailingZero(Decimals(abs % WEI_PER_ETH));
    PaddingRestoresZeros(Decimals(abs % WEI_PER_ETH), 18);
    hide StripZeros;
    if fraction == "" {
      assert whole + [] == whole;
      DotFound(whole, []);
    } else {
      assert ExportAbs(abs) == whole + ("." + fraction);
      DotFound(whole, "." + fraction);
    }
  }

  lemma {:induction false} NoTrailingZero(s: string)
    ensures StripZeros(s) != [] ==> StripZeros(s)[|StripZeros(s)| - 1] != '0'
  {
    if s != [] && s[|s| - 1] == '0' { NoTrailingZero(s[..|s| - 1]); }
  }

  lemma ExportAbsParses(abs: nat)
    ensures ParseEth(ExportAbs(abs)) == Some(abs)
    ensures ExportAbs(abs) != [] && IsDigit(ExportAbs(abs)[|ExportAbs(abs)| - 1])
  {
    hide IsDigit, ValueOf, Zeros, Decimal, ParseEth, StripZeros, Pow10;
    var whole, all := Decimal(abs / WEI_PER_ETH), Decimals(abs % WEI_PER_ETH);
    var fraction := StripZeros(all);
    DecimalReadsBack(abs / WEI_PER_ETH);
    PaddingRestoresZeros(all, 18);
    assert PadEnd(all, 18) == all;
    assert FirstDecimals(fraction) == all;
    if fraction == "" {
      ParsesWhole(whole);
      NoDecimals();
      assert whole[|whole| - 1] in whole;
    } else {
      ParsesAmount(whole, fraction);
      assert fraction[|fraction| - 1] in fraction;
    }
  }
}
