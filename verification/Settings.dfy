/** Distribution settings: the environment, with stored overrides on top (lib/settings.ts). */
module Settings {
  import opened Wrappers

  datatype Config = Config(
    enabled: bool, swaps: bool,
    minDelaySec: int, maxDelaySec: int,
    minAmountWei: nat, maxAmountWei: nat,
    dailyCapWei: nat)

  /** The environment's validation, and the admin API's before it writes anything. */
  predicate ValidConfig(cfg: Config) {
    1 <= cfg.minDelaySec <= cfg.maxDelaySec && 0 < cfg.minAmountWei <= cfg.maxAmountWei && 0 < cfg.dailyCapWei
  }

  /**
   * A range as merged stays if it is one; an impossible lower end alone gives way to the
   * environment's, and both ends do if the range is still inverted then.
   */
  predicate RangeKept(low: int, high: int, envLow: int, envHigh: int, least: int, keptLow: int, keptHigh: int) {
    && (least <= low <= high ==> keptLow == low && keptHigh == high)
    && (low < least && envLow <= high ==> keptLow == envLow && keptHigh == high)
    && (high < (if low < least then envLow else low) ==> keptLow == envLow && keptHigh == envHigh)
  }

  predicate DelaysKept(merged: Config, fromEnv: Config, config: Config) {
    RangeKept(merged.minDelaySec, merged.maxDelaySec, fromEnv.minDelaySec, fromEnv.maxDelaySec, 1,
              config.minDelaySec, config.maxDelaySec)
  }

  predicate AmountsKept(merged: Config, fromEnv: Config, config: Config) {
    RangeKept(merged.minAmountWei, merged.maxAmountWei, fromEnv.minAmountWei, fromEnv.maxAmountWei, 1,
              config.minAmountWei, config.maxAmountWei)
  }

  lemma RangeIsKept(low: int, high: int, envLow: int, envHigh: int, least: int, keptLow: int, keptHigh: int)
    requires least <= envLow <= envHigh
    requires var lowest := if low < least then envLow else low;
             if high < lowest then keptLow == envLow && keptHigh == envHigh else keptLow == lowest && keptHigh == high
    ensures RangeKept(low, high, envLow, envHigh, least, keptLow, keptHigh)
  {
  }

  /**
   * A merged configuration may be invalid though each half was fine. Whatever is
   * merged, the result is valid; and it is touched exactly when it was not.
   */
  method Reconcile(merged: Config, fromEnv: Config) returns (config: Config, problems: nat)
    requires ValidConfig(fromEnv)
    ensures ValidConfig(config)
    ensures problems == 0 <==> ValidConfig(merged)
    ensures config == merged <==> ValidConfig(merged)
    ensures config.enabled == merged.enabled && config.swaps == merged.swaps
    ensures DelaysKept(merged, fromEnv, config) && AmountsKept(merged, fromEnv, config)
    ensures config.dailyCapWei == if merged.dailyCapWei > 0 then merged.dailyCapWei else fromEnv.dailyCapWei
  {
    config, problems := merged, 0;
    if config.minDelaySec < 1 {
      config, problems := config.(minDelaySec := fromEnv.minDelaySec), problems + 1;
    }
    if config.maxDelaySec < config.minDelaySec {
      config, problems := config.(minDelaySec := fromEnv.minDelaySec, maxDelaySec := fromEnv.maxDelaySec), problems + 1;
    }
    if config.minAmountWei == 0 {
      config, problems := config.(minAmountWei := fromEnv.minAmountWei), problems + 1;
    }
    if config.maxAmountWei < config.minAmountWei {
      config := config.(minAmountWei := fromEnv.minAmountWei, maxAmountWei := fromEnv.maxAmountWei);
      problems := problems + 1;
    }
    if config.dailyCapWei == 0 {
      config, problems := config.(dailyCapWei := fromEnv.dailyCapWei), problems + 1;
    }
    hide RangeKept;
    RangeIsKept(merged.minDelaySec, merged.maxDelaySec, fromEnv.minDelaySec, fromEnv.maxDelaySec, 1,
                config.minDelaySec, config.maxDelaySec);
    RangeIsKept(merged.minAmountWei, merged.maxAmountWei, fromEnv.minAmountWei, fromEnv.maxAmountWei, 1,
                config.minAmountWei, config.maxAmountWei);
  }

  datatype Field = Enabled | Mode | MinDelaySec | MaxDelaySec | MinAmountWei | MaxAmountWei | DailyCapWei

  const FIELDS: seq<Field> := [Enabled, Mode, MinDelaySec, MaxDelaySec, MinAmountWei, MaxAmountWei, DailyCapWei]

  /** A stored text after decoding; Garbage is a decoder that threw. */
  datatype Decoded = Garbage | Flag(on: bool) | Number(n: nat)

  /** None when the text was no value for the field. */
  function Override(cfg: Config, field: Field, d: Decoded): Option<Config> {
    match (field, d)
    case (Enabled, Flag(on)) => Some(cfg.(enabled := on))
    case (Mode, Flag(swaps)) => Some(cfg.(swaps := swaps))
    case (MinDelaySec, Number(n)) => Some(cfg.(minDelaySec := n))
    case (MaxDelaySec, Number(n)) => Some(cfg.(maxDelaySec := n))
    case (MinAmountWei, Number(n)) => Some(cfg.(minAmountWei := n))
    case (MaxAmountWei, Number(n)) => Some(cfg.(maxAmountWei := n))
    case (DailyCapWei, Number(n)) => Some(cfg.(dailyCapWei := n))
    case _ => None
  }

  function Merged(cfg: Config, stored: map<Field, Decoded>, n: nat): Config
    requires n <= |FIELDS|
  {
    if n == 0 then cfg else
    var before, field := Merged(cfg, stored, n - 1), FIELDS[n - 1];
    if field in stored && Override(before, field, stored[field]).Some?
    then Override(before, field, stored[field]).value else before
  }

  predicate Usable(cfg: Config, stored: map<Field, Decoded>, field: Field) {
    field in stored ==> Override(cfg, field, stored[field]).Some?
  }

  /** The text is a value of the field's kind. */
  predicate Decodes(field: Field, d: Decoded) {
    if field == Enabled || field == Mode then d.Flag? else d.Number?
  }

  /** What a configuration says in one field. */
  predicate Says(cfg: Config, field: Field, d: Decoded) {
    match field
    case Enabled => d == Flag(cfg.enabled)
    case Mode => d == Flag(cfg.swaps)
    case MinDelaySec => d.Number? && cfg.minDelaySec == d.n
    case MaxDelaySec => d.Number? && cfg.maxDelaySec == d.n
    case MinAmountWei => d == Number(cfg.minAmountWei)
    case MaxAmountWei => d == Number(cfg.maxAmountWei)
    case DailyCapWei => d == Number(cfg.dailyCapWei)
  }

  ghost predicate SaysTheSame(a: Config, b: Config, field: Field) {
    forall d :: Says(a, field, d) <==> Says(b, field, d)
  }

  /** Field by field: the stored value where there is a usable one, the environment's otherwise. */
  ghost predicate Layered(config: Config, fromEnv: Config, stored: map<Field, Decoded>, fields: seq<Field>) {
    forall f :: if f in fields && f in stored && Decodes(f, stored[f]) then Says(config, f, stored[f])
                else SaysTheSame(config, fromEnv, f)
  }

  lemma OverrideWrites(cfg: Config, field: Field, d: Decoded)
    ensures Override(cfg, field, d).Some? <==> Decodes(field, d)
    ensures Decodes(field, d) ==>
              Says(Override(cfg, field, d).value, field, d) &&
              forall f :: f != field ==> SaysTheSame(Override(cfg, field, d).value, cfg, f)
  {
  }

  lemma OneMoreLayer(before: Config, after: Config, fromEnv: Config, stored: map<Field, Decoded>, fields: seq<Field>,
                     field: Field)
    requires Layered(before, fromEnv, stored, fields) && field !in fields
    requires if field in stored && Decodes(field, stored[field])
             then Says(after, field, stored[field]) && forall f :: f != field ==> SaysTheSame(after, before, f)
             else after == before
    ensures Layered(after, fromEnv, stored, fields + [field])
  {
    hide Decodes, Says;
    forall f
      ensures if f in fields + [field] && f in stored && Decodes(f, stored[f]) then Says(after, f, stored[f])
              else SaysTheSame(after, fromEnv, f)
    {
      if f != field {
        assert f in fields + [field] <==> f in fields;
        assert SaysTheSame(after, before, f);
      }
    }
  }

  lemma {:induction false} MergedIsLayered(fromEnv: Config, stored: map<Field, Decoded>, n: nat)
    requires n <= |FIELDS|
    ensures Layered(Merged(fromEnv, stored, n), fromEnv, stored, FIELDS[..n])
  {
    if n > 0 {
      var before, field := Merged(fromEnv, stored, n - 1), FIELDS[n - 1];
      assert FIELDS[..n] == FIELDS[..n - 1] + [field];
      assert field !in FIELDS[..n - 1];
      hide Override, Decodes, Says, SaysTheSame, Layered;
      MergedIsLayered(fromEnv, stored, n - 1);
      if field in stored { OverrideWrites(before, field, stored[field]); }
      OneMoreLayer(before, Merged(fromEnv, stored, n), fromEnv, stored, FIELDS[..n - 1], field);
    } else {
      NothingLayered(fromEnv, stored);
    }
  }

  lemma NothingLayered(fromEnv: Config, stored: map<Field, Decoded>)
    ensures Layered(fromEnv, fromEnv, stored, FIELDS[..0])
  {
  }

  lemma AllFields()
    ensures forall f: Field :: f in FIELDS
  {
    forall f: Field ensures f in FIELDS {
      var i := match f
               case Enabled => 0
               case Mode => 1
               case MinDelaySec => 2
               case MaxDelaySec => 3
               case MinAmountWei => 4
               case MaxAmountWei => 5
               case DailyCapWei => 6;
      assert FIELDS[i] == f;
    }
  }

  /** Every field of a configuration that needed no repair, in the operator's own terms. */
  lemma MergedSays(fromEnv: Config, stored: map<Field, Decoded>)
    ensures Layered(Merged(fromEnv, stored, |FIELDS|), fromEnv, stored, FIELDS)
  {
    MergedIsLayered(fromEnv, stored, |FIELDS|);
    assert FIELDS[..|FIELDS|] == FIELDS;
  }

  /**
   * Whatever is stored, the pass runs on a valid configuration, and on exactly the merged one when
   * nothing was reported.
   */
  method LoadSettings(fromEnv: Config, stored: map<Field, Decoded>) returns (config: Config, problems: nat)
    requires ValidConfig(fromEnv)
    ensures ValidConfig(config)
    ensures problems == 0
       <==> ValidConfig(Merged(fromEnv, stored, |FIELDS|))
            && forall k :: 0 <= k < |FIELDS| ==> Usable(fromEnv, stored, FIELDS[k])
    ensures problems == 0 ==> config == Merged(fromEnv, stored, |FIELDS|)
    ensures ValidConfig(Merged(fromEnv, stored, |FIELDS|)) ==>
              forall f :: if f in stored && Decodes(f, stored[f]) then Says(config, f, stored[f])
                          else SaysTheSame(config, fromEnv, f)
  {
    var merged, unusable := fromEnv, 0;
    for i := 0 to |FIELDS|
      invariant merged == Merged(fromEnv, stored, i)
      invariant unusable == 0 <==> forall k :: 0 <= k < i ==> Usable(fromEnv, stored, FIELDS[k])
    {
      var field := FIELDS[i];
      if field in stored {
        var next := Override(merged, field, stored[field]);
        if next.Some? { merged := next.value; } else { unusable := unusable + 1; }
      }
    }
    config, problems := Reconcile(merged, fromEnv);
    problems := problems + unusable;
    MergedSays(fromEnv, stored);
    AllFields();
  }
}
