/**
 The fit score of a tender: four weighted signals, each rounded on its own, and the recommendation.
 Numbers are exact reals. The controller passes the request body through unchecked, so where a number is due
 any JSON value may stand, which JavaScript converts, and a name is looked up in a table that inherits
 JavaScript's object members.
 */
module FitScoring {
  import opened Outcomes
  import opened Text

  /**
   A value where a number is due. Missing is JavaScript's undefined; Other is a text, a truth value, a list or
   an object, with the number it converts to, if any: "0.5" to 0.5, "" to 0, true to 1, "abc" and {} to none.
   */
  datatype Number = Missing | Null | NaN | Real(value: real) | Other(number: Option<real>)

  /** The number arithmetic and comparisons see; None is NaN, which compares with nothing. */
  function Converted(v: Number): Option<real> {
    match v
    case Missing => None
    case Null => Some(0.0)
    case NaN => None
    case Real(x) => Some(x)
    case Other(number) => number
  }

  predicate AtLeast(v: Number, limit: real) {
    Converted(v).Some? && Converted(v).value >= limit
  }

  predicate Below(v: Number, limit: real) {
    Converted(v).Some? && Converted(v).value < limit
  }

  predicate Above(v: Number, limit: real) {
    Converted(v).Some? && Converted(v).value > limit
  }

  /** `riskLevel` is the name it is looked up by; `sector` is a text, or None for null and missing. */
  datatype Signals = Signals(
    capability: Number, daysToDeadline: Number, evidenceReadiness: Number, riskLevel: string, sector: Option<string>)

  datatype Weights = Weights(capability: Number, timeline: Number, evidence: Number, risk: Number)

  datatype Factor = Factor(name: string, weight: Number, raw: Number, contribution: Number)

  datatype Recommendation = NoBid | Review | Bid

  datatype FitScore = FitScore(
    computedScore: Number, factors: seq<Factor>, recommendation: Recommendation, overridden: bool,
    finalScore: Number, overrideReason: Option<string>, sector: string)

  datatype OverrideError = ReasonRequired | ScoreOutOfRange

  // ----- Tables -----

  /** What indexing an object literal finds: its own entry, a member every object has, or nothing. */
  datatype Entry<T> = Own(value: T) | Inherited | Absent

  const OBJECT_MEMBERS := {
    "constructor", "__proto__", "hasOwnProperty", "isPrototypeOf", "propertyIsEnumerable", "toLocaleString",
    "toString", "valueOf", "__defineGetter__", "__defineSetter__", "__lookupGetter__", "__lookupSetter__" }

  function DefaultPack(): Weights {
    Weights(Real(0.35), Real(0.2), Real(0.3), Real(0.15))
  }

  function SectorPack(sector: string): Entry<Weights> {
    if sector == "default" then Own(DefaultPack())
    else if sector == "construction" then Own(Weights(Real(0.3), Real(0.15), Real(0.35), Real(0.2)))
    else if sector == "technology" then Own(Weights(Real(0.45), Real(0.2), Real(0.2), Real(0.15)))
    else if sector == "medical_supply" then Own(Weights(Real(0.3), Real(0.15), Real(0.4), Real(0.15)))
    else if sector in OBJECT_MEMBERS then Inherited
    else Absent
  }

  function RiskRaw(level: string): Entry<real> {
    if level == "low" then Own(1.0)
    else if level == "medium" then Own(0.6)
    else if level == "high" then Own(0.25)
    else if level in OBJECT_MEMBERS then Inherited
    else Absent
  }

  /** An inherited member is found, so it is not replaced by the default; it has none of the four weights. */
  function WeightsOf(sector: string): Weights {
    match SectorPack(sector)
    case Own(w) => w
    case Inherited => Weights(Missing, Missing, Missing, Missing)
    case Absent => DefaultPack()
  }

  function RiskOf(level: string): Number {
    match RiskRaw(level)
    case Own(r) => Real(r)
    case Inherited => NaN
    case Absent => Real(0.25)
  }

  // ----- Scoring -----

  /** Only NaN itself is replaced by 0; what converts to NaN stays NaN. */
  function Clamp01(v: Number): Number {
    if v.NaN? then Real(0.0)
    else if Converted(v).None? then NaN
    else
      var x := Converted(v).value;
      Real(if x < 0.0 then 0.0 else if x > 1.0 then 1.0 else x)
  }

  /** JavaScript's Math.round. */
  function Round(x: real): real {
    (x + 0.5).Floor as real
  }

  /** Rounding to four decimals, halves up. */
  function ToFixed4(x: real): real {
    Round(x * 10000.0) / 10000.0
  }

  function TimelineRaw(days: Number): Number {
    if AtLeast(days, 21.0) then Real(1.0)
    else if Converted(days).Some? && Converted(days).value <= 3.0 then Real(0.1)
    else if Converted(days).None? then NaN
    else Real(ToFixed4(0.1 + (Converted(days).value - 3.0) / 18.0 * 0.9))
  }

  /** Points out of 100 before rounding. */
  function Points(weight: real, raw: real): real {
    weight * raw * 100.0
  }

  function Contribution(weight: Number, raw: Number): Number {
    if weight.Real? && raw.Real? then Real(Round(Points(weight.value, raw.value))) else NaN
  }

  function MakeFactor(name: string, weight: Number, raw: Number): Factor {
    Factor(name, weight, raw, Contribution(weight, raw))
  }

  function Plus(a: Number, b: Number): Number {
    if a.Real? && b.Real? then Real(a.value + b.value) else NaN
  }

  function Total(factors: seq<Factor>): Number {
    if factors == [] then Real(0.0)
    else Plus(Total(factors[..|factors| - 1]), factors[|factors| - 1].contribution)
  }

  function Recommend(score: Number): Recommendation {
    if AtLeast(score, 70.0) then Bid
    else if AtLeast(score, 40.0) then Review
    else NoBid
  }

  function SectorKey(s: Signals, lower: string -> string): string {
    lower(if s.sector.Some? then s.sector.value else "default")
  }

  function Factors(w: Weights, s: Signals): seq<Factor> {
    [ MakeFactor("capability", w.capability, Clamp01(s.capability)),
      MakeFactor("timeline", w.timeline, TimelineRaw(s.daysToDeadline)),
      MakeFactor("evidence", w.evidence, Clamp01(s.evidenceReadiness)),
      MakeFactor("risk", w.risk, RiskOf(s.riskLevel)) ]
  }

  function Score(s: Signals, lower: string -> string): FitScore {
    var sector := SectorKey(s, lower);
    var factors := Factors(WeightsOf(sector), s);
    var computed := Total(factors);
    FitScore(computed, factors, Recommend(computed), false, computed, None,
             if SectorPack(sector).Absent? then "default" else sector)
  }

  function Override(s: Signals, overrideScore: Number, reason: Option<string>, lower: string -> string)
    : Result<FitScore, OverrideError>
  {
    if reason.None? || Trim(reason.value, IsJsSpace) == "" then Err(ReasonRequired)
    else if Below(overrideScore, 0.0) || Above(overrideScore, 100.0) then Err(ScoreOutOfRange)
    else
      Ok(Score(s, lower).(overridden := true, finalScore := overrideScore,
                          overrideReason := Some(Trim(reason.value, IsJsSpace)),
                          recommendation := Recommend(overrideScore)))
  }

  // ----- The score against the unrounded one -----

  /** Signals whose numbers convert to numbers, and that name neither a sector nor a risk after an inherited member. */
  predicate Scorable(s: Signals, lower: string -> string) {
    && (s.capability.NaN? || Converted(s.capability).Some?)
    && (s.evidenceReadiness.NaN? || Converted(s.evidenceReadiness).Some?)
    && Converted(s.daysToDeadline).Some?
    && !RiskRaw(s.riskLevel).Inherited? && !SectorPack(SectorKey(s, lower)).Inherited?
  }

  /** The straight line from 0.1 at three days to 1 at twenty-one, flat outside. */
  function Ramp(days: real): real {
    var d := if days < 3.0 then 3.0 else if days > 21.0 then 21.0 else days;
    0.1 + (d - 3.0) * 0.05
  }

  /** The weighted sum out of 100 with nothing rounded. */
  function Ideal(s: Signals, lower: string -> string): real
    requires Scorable(s, lower)
  {
    var w := WeightsOf(SectorKey(s, lower));
    Points(w.capability.value, Clamp01(s.capability).value)
    + Points(w.timeline.value, Ramp(Converted(s.daysToDeadline).value))
    + Points(w.evidence.value, Clamp01(s.evidenceReadiness).value)
    + Points(w.risk.value, RiskOf(s.riskLevel).value)
  }

  lemma RoundIsNear(x: real)
    ensures x - 0.5 < Round(x) <= x + 0.5
  {}

  lemma RoundMonotone(x: real, y: real)
    requires x <= y
    ensures Round(x) <= Round(y)
  {
    var m, n := (x + 0.5).Floor, (y + 0.5).Floor;
    assert m as real <= x + 0.5 && y + 0.5 < (n + 1) as real;
    assert m < n + 1;
  }

  /** The four-decimal timeline stays within half a ten-thousandth of the line. */
  lemma TimelineFollowsRamp(days: Number)
    requires Converted(days).Some?
    ensures TimelineRaw(days).Real?
    ensures -0.00005 < TimelineRaw(days).value - Ramp(Converted(days).value) <= 0.00005
    ensures 0.1 <= TimelineRaw(days).value <= 1.0
  {
    var d := Converted(days).value;
    if 3.0 < d < 21.0 {
      var x := Ramp(d);
      RoundIsNear(x * 10000.0);
      RoundMonotone(1000.0, x * 10000.0);
      RoundMonotone(x * 10000.0, 10000.0);
    }
  }

  lemma TimelineMonotone(a: Number, b: Number)
    requires Converted(a).Some? && Converted(b).Some? && Converted(a).value <= Converted(b).value
    ensures TimelineRaw(a).Real? && TimelineRaw(b).Real? && TimelineRaw(a).value <= TimelineRaw(b).value
  {
    TimelineFollowsRamp(a);
    TimelineFollowsRamp(b);
    var c, d := Converted(a).value, Converted(b).value;
    if 3.0 < c && d < 21.0 {
      RoundMonotone(Ramp(c) * 10000.0, Ramp(d) * 10000.0);
    }
  }

  lemma PointsMonotone(w: real, a: real, b: real)
    requires 0.0 <= w && a <= b
    ensures Points(w, a) <= Points(w, b)
  {
    assert w * (b - a) >= 0.0;
  }

  predicate Percent(x: real) {
    Round(Points(x, 1.0)) == Points(x, 1.0)
  }

  /** Weights the tables hold: whole percentages that make a hundred, none under 15. */
  predicate IsPack(w: Weights) {
    && w.capability.Real? && w.timeline.Real? && w.evidence.Real? && w.risk.Real?
    && w.capability.value + w.timeline.value + w.evidence.value + w.risk.value == 1.0
    && 0.15 <= w.timeline.value <= 0.2 && 0.15 <= w.risk.value <= 0.2
    && 0.0 <= w.capability.value && 0.0 <= w.evidence.value
    && Percent(w.capability.value) && Percent(w.timeline.value) && Percent(w.evidence.value) && Percent(w.risk.value)
  }

  lemma PacksArePacks(sector: string)
    requires !SectorPack(sector).Inherited?
    ensures IsPack(WeightsOf(sector))
  {}

  lemma ContributionBounds(w: real, least: real, raw: real)
    requires 0.0 <= w && 0.0 <= least <= raw <= 1.0 && Percent(w)
    ensures Round(Points(w, least)) <= Round(Points(w, raw)) <= Points(w, 1.0)
  {
    PointsMonotone(w, least, raw);
    PointsMonotone(w, raw, 1.0);
    RoundMonotone(Points(w, least), Points(w, raw));
    RoundMonotone(Points(w, raw), Points(w, 1.0));
  }

  lemma TotalOfFour(f: seq<Factor>)
    requires |f| == 4
    ensures Total(f) == Plus(Plus(Plus(Plus(Real(0.0), f[0].contribution), f[1].contribution), f[2].contribution),
                             f[3].contribution)
  {
    assert f[..3][..2] == f[..2];
    assert Total(f[..0]) == Real(0.0);
    assert Total(f[..1]) == Plus(Total(f[..0]), f[0].contribution) by {
      assert f[..1][..0] == f[..0];
    }
    assert Total(f[..2]) == Plus(Total(f[..1]), f[1].contribution) by {
      assert f[..2][..1] == f[..1];
    }
    assert Total(f[..3]) == Plus(Total(f[..2]), f[2].contribution);
  }

  /** The four unrounded contributions of scorable signals. */
  ghost function Shares(s: Signals, lower: string -> string): (p: (real, real, real, real))
    requires Scorable(s, lower)
  {
    var w := WeightsOf(SectorKey(s, lower));
    (Points(w.capability.value, Clamp01(s.capability).value),
     Points(w.timeline.value, TimelineRaw(s.daysToDeadline).value),
     Points(w.evidence.value, Clamp01(s.evidenceReadiness).value),
     Points(w.risk.value, RiskOf(s.riskLevel).value))
  }

  lemma ScoreAddsUp(s: Signals, lower: string -> string)
    requires Scorable(s, lower)
    ensures var p := Shares(s, lower);
            Score(s, lower).computedScore == Real(Round(p.0) + Round(p.1) + Round(p.2) + Round(p.3))
  {
    TotalOfFour(Factors(WeightsOf(SectorKey(s, lower)), s));
  }

  lemma NotScorable(s: Signals, lower: string -> string)
    requires !Scorable(s, lower)
    ensures Score(s, lower).computedScore == NaN
  {
    var f := Factors(WeightsOf(SectorKey(s, lower)), s);
    TotalOfFour(f);
    assert f[0].contribution.NaN? || f[1].contribution.NaN? || f[2].contribution.NaN? || f[3].contribution.NaN?;
  }

  lemma WholeShares(c: real, t: real, e: real, r: real)
    requires c + t + e + r == 1.0
    ensures Points(c, 1.0) + Points(t, 1.0) + Points(e, 1.0) + Points(r, 1.0) == 100.0
  {}

  lemma SharesInRange(s: Signals, lower: string -> string)
    requires Scorable(s, lower)
    ensures var p := Shares(s, lower);
            && 0.0 <= Round(p.0) && 2.0 <= Round(p.1) && 0.0 <= Round(p.2) && 4.0 <= Round(p.3)
            && Round(p.0) + Round(p.1) + Round(p.2) + Round(p.3) <= 100.0
  {
    var w := WeightsOf(SectorKey(s, lower));
    PacksArePacks(SectorKey(s, lower));
    TimelineFollowsRamp(s.daysToDeadline);
    ContributionBounds(w.capability.value, 0.0, Clamp01(s.capability).value);
    ContributionBounds(w.timeline.value, 0.1, TimelineRaw(s.daysToDeadline).value);
    ContributionBounds(w.evidence.value, 0.0, Clamp01(s.evidenceReadiness).value);
    ContributionBounds(w.risk.value, 0.25, RiskOf(s.riskLevel).value);
    RoundMonotone(1.5, Points(w.timeline.value, 0.1));
    RoundMonotone(3.75, Points(w.risk.value, 0.25));
    WholeShares(w.capability.value, w.timeline.value, w.evidence.value, w.risk.value);
  }

  predicate IsWhole(x: real) {
    x.Floor as real == x
  }

  lemma WholesAddUp(i: int, j: int, k: int, l: int)
    ensures IsWhole(i as real + j as real + k as real + l as real)
  {
    assert (i + j + k + l) as real == i as real + j as real + k as real + l as real;
  }

  lemma RoundsAreWhole(a: real, b: real, c: real, d: real)
    ensures IsWhole(Round(a) + Round(b) + Round(c) + Round(d))
  {
    var i, j, k, l := (a + 0.5).Floor, (b + 0.5).Floor, (c + 0.5).Floor, (d + 0.5).Floor;
    WholesAddUp(i, j, k, l);
  }

  /**
   The score is a number exactly when the signals are scorable, and then a whole one from 6 to 100;
   otherwise it is NaN, with the recommendation not to bid.
   */
  lemma ScoreInRange(s: Signals, lower: string -> string)
    ensures var r := Score(s, lower);
            && (Scorable(s, lower) ==> r.computedScore.Real? && 6.0 <= r.computedScore.value <= 100.0
                                       && IsWhole(r.computedScore.value))
            && (!Scorable(s, lower) ==> r.computedScore == NaN && r.recommendation == NoBid)
  {
    if Scorable(s, lower) {
      ScoreAddsUp(s, lower);
      SharesInRange(s, lower);
      var p := Shares(s, lower);
      RoundsAreWhole(p.0, p.1, p.2, p.3);
    } else {
      NotScorable(s, lower);
    }
  }

  /** Perfect signals for a sector named "constructor" score NaN: the name is found on every object. */
  lemma ConstructorSector(lower: string -> string)
    requires lower("constructor") == "constructor"
    ensures var r := Score(Signals(Real(1.0), Real(21.0), Real(1.0), "low", Some("constructor")), lower);
            r.computedScore == NaN && r.recommendation == NoBid && r.sector == "constructor"
  {
    var s := Signals(Real(1.0), Real(21.0), Real(1.0), "low", Some("constructor"));
    assert !Scorable(s, lower);
    ScoreInRange(s, lower);
  }

  lemma ScoreFromShares(s: Signals, lower: string -> string, a: real, b: real, c: real, d: real)
    requires Scorable(s, lower) && Shares(s, lower) == (a, b, c, d)
    ensures Score(s, lower).computedScore == Real(Round(a) + Round(b) + Round(c) + Round(d))
  {
    ScoreAddsUp(s, lower);
  }

  /** Both ends of the range are reached. */
  lemma RangeIsTight(lower: string -> string)
    requires lower("default") == "default"
    ensures Score(Signals(Real(1.0), Real(21.0), Real(1.0), "low", None), lower).computedScore == Real(100.0)
    ensures Score(Signals(Real(0.0), Real(3.0), Real(0.0), "high", None), lower).computedScore == Real(6.0)
  {
    ScoreFromShares(Signals(Real(1.0), Real(21.0), Real(1.0), "low", None), lower, 35.0, 20.0, 30.0, 15.0);
    ScoreFromShares(Signals(Real(0.0), Real(3.0), Real(0.0), "high", None), lower, 0.0, 2.0, 0.0, 3.75);
  }

  lemma ScaledGap(w: real, a: real, b: real)
    requires 0.0 <= w <= 0.2 && -0.00005 <= a - b <= 0.00005
    ensures -0.001 <= Points(w, a) - Points(w, b) <= 0.001
  {
    PointsMonotone(w, a - b, 0.00005);
    PointsMonotone(w, -0.00005, a - b);
  }

  /** Four roundings and the four-decimal timeline move the score by little over two points. */
  lemma ScoreNearIdeal(s: Signals, lower: string -> string)
    requires Scorable(s, lower)
    ensures Score(s, lower).computedScore.Real?
    ensures var p := Shares(s, lower);
            -2.0 < Score(s, lower).computedScore.value - (p.0 + p.1 + p.2 + p.3) <= 2.0
    ensures -2.001 < Score(s, lower).computedScore.value - Ideal(s, lower) <= 2.001
  {
    var p := Shares(s, lower);
    var w := WeightsOf(SectorKey(s, lower));
    ScoreAddsUp(s, lower);
    PacksArePacks(SectorKey(s, lower));
    TimelineFollowsRamp(s.daysToDeadline);
    RoundIsNear(p.0);
    RoundIsNear(p.1);
    RoundIsNear(p.2);
    RoundIsNear(p.3);
    ScaledGap(w.timeline.value, TimelineRaw(s.daysToDeadline).value, Ramp(Converted(s.daysToDeadline).value));
  }

  // ----- The tables, by what they make of a score -----

  /** What a signal from 0 to 1 counts for: itself, the nearer end outside, nothing when it is NaN itself. */
  lemma ClampMeaning(v: Number)
    ensures v.NaN? ==> Clamp01(v) == Real(0.0)
    ensures !v.NaN? && Converted(v).None? ==> Clamp01(v) == NaN
    ensures !v.NaN? && Converted(v).Some? ==>
      var x := Converted(v).value;
      && (0.0 <= x <= 1.0 ==> Clamp01(v) == Real(x))
      && (x < 0.0 ==> Clamp01(v) == Real(0.0)) && (x > 1.0 ==> Clamp01(v) == Real(1.0))
  {}

  /** In place of a number, null counts as 0, a convertible value as its number, and what is missing as none. */
  lemma ConversionMeaning(x: real)
    ensures Clamp01(Null) == Real(0.0) && TimelineRaw(Null) == Real(0.1) && Recommend(Null) == NoBid
    ensures Clamp01(Other(Some(x))) == Clamp01(Real(x)) && TimelineRaw(Other(Some(x))) == TimelineRaw(Real(x))
    ensures Recommend(Other(Some(x))) == Recommend(Real(x))
    ensures forall v :: v in {Missing, Other(None)} ==> Clamp01(v) == TimelineRaw(v) == NaN && Recommend(v) == NoBid
  {}

  /** A low risk counts in full, a medium one for six tenths, and a high or unknown one for a quarter. */
  lemma RiskMeaning(level: string)
    ensures RiskOf("low") == Real(1.0) && RiskOf("medium") == Real(0.6) && RiskOf("high") == Real(0.25)
    ensures level in OBJECT_MEMBERS <==> RiskOf(level) == NaN
    ensures level !in OBJECT_MEMBERS + {"low", "medium"} ==> RiskOf(level) == Real(0.25)
  {}

  /** The points each sector gives for capability, timeline, evidence and risk; unknown sectors count as default. */
  lemma IdealByPack(s: Signals, lower: string -> string)
    requires Scorable(s, lower)
    ensures var c, t := Clamp01(s.capability).value, Ramp(Converted(s.daysToDeadline).value);
            var e, r := Clamp01(s.evidenceReadiness).value, RiskOf(s.riskLevel).value;
            Ideal(s, lower) ==
              match SectorKey(s, lower)
              case "construction" => 30.0 * c + 15.0 * t + 35.0 * e + 20.0 * r
              case "technology" => 45.0 * c + 20.0 * t + 20.0 * e + 15.0 * r
              case "medical_supply" => 30.0 * c + 15.0 * t + 40.0 * e + 15.0 * r
              case _ => 35.0 * c + 20.0 * t + 30.0 * e + 15.0 * r
  {}

  /** The four contributions, in order, are the rounded shares and add up to the score, which decides. */
  lemma ScoreExplained(s: Signals, lower: string -> string)
    requires Scorable(s, lower)
    ensures var r, p := Score(s, lower), Shares(s, lower);
            && |r.factors| == 4
            && r.factors[0].name == "capability" && r.factors[0].contribution == Real(Round(p.0))
            && r.factors[1].name == "timeline" && r.factors[1].contribution == Real(Round(p.1))
            && r.factors[2].name == "evidence" && r.factors[2].contribution == Real(Round(p.2))
            && r.factors[3].name == "risk" && r.factors[3].contribution == Real(Round(p.3))
            && r.computedScore == Real(Round(p.0) + Round(p.1) + Round(p.2) + Round(p.3))
            && (r.recommendation == Bid <==> Round(p.0) + Round(p.1) + Round(p.2) + Round(p.3) >= 70.0)
            && (r.recommendation == NoBid <==> Round(p.0) + Round(p.1) + Round(p.2) + Round(p.3) < 40.0)
            && !r.overridden && r.finalScore == r.computedScore && r.overrideReason == None
            && r.sector == (if SectorKey(s, lower) in {"construction", "technology", "medical_supply"}
                            then SectorKey(s, lower) else "default")
  {
    ScoreAddsUp(s, lower);
  }

  // ----- Better signals -----

  /** NaN, which scores as 0, is no more than anything. */
  predicate NoMore(a: Number, b: Number) {
    a.NaN? || (Converted(a).Some? && Converted(b).Some? && Converted(a).value <= Converted(b).value)
  }

  /** Each signal of a is no better than that of b; a risk is no better when it weighs no more. */
  predicate NoBetter(a: Signals, b: Signals) {
    && NoMore(a.capability, b.capability) && NoMore(a.daysToDeadline, b.daysToDeadline)
    && NoMore(a.evidenceReadiness, b.evidenceReadiness)
    && NoMore(RiskOf(a.riskLevel), RiskOf(b.riskLevel))
    && a.sector == b.sector
  }

  lemma ContributionMonotone(w: real, a: real, b: real)
    requires 0.0 <= w && a <= b
    ensures Round(Points(w, a)) <= Round(Points(w, b))
  {
    PointsMonotone(w, a, b);
    RoundMonotone(Points(w, a), Points(w, b));
  }

  /** Improving any signals of a tender, the sector kept, never lowers its score or its recommendation. */
  lemma ScoreMonotone(a: Signals, b: Signals, lower: string -> string)
    requires Scorable(a, lower) && Scorable(b, lower) && NoBetter(a, b)
    ensures Score(a, lower).computedScore.Real? && Score(b, lower).computedScore.Real?
    ensures Score(a, lower).computedScore.value <= Score(b, lower).computedScore.value
    ensures Score(a, lower).recommendation.Bid? ==> Score(b, lower).recommendation.Bid?
    ensures Score(b, lower).recommendation.NoBid? ==> Score(a, lower).recommendation.NoBid?
  {
    var w := WeightsOf(SectorKey(a, lower));
    ScoreAddsUp(a, lower);
    ScoreAddsUp(b, lower);
    PacksArePacks(SectorKey(a, lower));
    TimelineMonotone(a.daysToDeadline, b.daysToDeadline);
    ContributionMonotone(w.capability.value, Clamp01(a.capability).value, Clamp01(b.capability).value);
    ContributionMonotone(w.timeline.value, TimelineRaw(a.daysToDeadline).value, TimelineRaw(b.daysToDeadline).value);
    ContributionMonotone(w.evidence.value, Clamp01(a.evidenceReadiness).value, Clamp01(b.evidenceReadiness).value);
    ContributionMonotone(w.risk.value, RiskOf(a.riskLevel).value, RiskOf(b.riskLevel).value);
  }

  // ----- Recommendations -----

  /** Away from the thresholds by the rounding error, the recommendation is that of the unrounded score. */
  lemma RecommendationSafe(s: Signals, lower: string -> string)
    requires Scorable(s, lower)
    ensures var ideal := Ideal(s, lower);
            var r := Score(s, lower).recommendation;
            && (ideal >= 72.001 ==> r.Bid?) && (ideal <= 67.0 ==> !r.Bid?)
            && (ideal >= 42.001 ==> !r.NoBid?) && (ideal <= 37.0 ==> r.NoBid?)
  {
    ScoreNearIdeal(s, lower);
  }

  /** Near a threshold it need not be: 69.04 becomes a bid, and no share is close to a rounding tie. */
  lemma RoundingWinsABid(lower: string -> string) returns (s: Signals)
    requires lower("default") == "default"
    ensures Scorable(s, lower) && Ideal(s, lower) == 69.04
    ensures Score(s, lower).computedScore == Real(70.0) && Score(s, lower).recommendation == Bid
  {
    s := Signals(Real(0.472), Real(21.0), Real(0.584), "low", None);
    ScoreFromShares(s, lower, 16.52, 20.0, 17.52, 15.0);
  }

  // ----- Overrides -----

  /**
   An override needs a reason that is not blank and a score that does not convert to one outside 0..100. It
   replaces the final score and the recommendation and keeps the computed score and its factors. What converts
   to NaN passes the range test, and what is accepted is kept as it came, so the final score is a number in
   range exactly when a number was given.
   */
  lemma OverrideMeaning(s: Signals, overrideScore: Number, reason: Option<string>, lower: string -> string)
    ensures var r := Override(s, overrideScore, reason, lower);
            var x := Converted(overrideScore);
            && (r.Ok? <==> reason.Some? && !IsBlank(reason.value, IsJsSpace) && (x.Some? ==> 0.0 <= x.value <= 100.0))
            && (r == Err(ReasonRequired) <==> reason.None? || IsBlank(reason.value, IsJsSpace))
            && (r.Ok? ==>
                  && r.value.computedScore == Score(s, lower).computedScore
                  && r.value.factors == Score(s, lower).factors && r.value.sector == Score(s, lower).sector
                  && r.value.overridden && r.value.finalScore == overrideScore
                  && r.value.overrideReason == Some(Trim(reason.value, IsJsSpace))
                  && (r.value.finalScore.Real? && 0.0 <= r.value.finalScore.value <= 100.0 <==> overrideScore.Real?)
                  && (r.value.recommendation.Bid? <==> x.Some? && x.value >= 70.0)
                  && (r.value.recommendation.NoBid? <==> x.Some? ==> x.value < 40.0))
  {
    if reason.Some? {
      TrimBlank(reason.value, IsJsSpace);
    }
  }
}
