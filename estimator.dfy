/**
 * The probability model of the bet analyser (noel.py, run_analysis, lines 246-298):
 * strength adjustment for unavailable players and recent form, one formula per bet
 * family, and the final clamp to a percentage. Arithmetic is over exact reals.
 */
module Estimator {
  import opened Wrappers
  import opened SoccerData

  /** Attack lost per unavailable player. */
  const UnavailablePenalty: real := 0.1
  /** The least draw chance the 3-way rule lets stand. */
  const DrawFloor: real := 0.15
  /** The largest "both teams to score" chance. */
  const BttsCap: real := 0.95

  // ---------------------------------------------------------------------------
  // Substring tests on the bet label (Python's `in` on strings)
  // ---------------------------------------------------------------------------

  predicate OccursAt(s: string, sub: string, i: nat)
  {
    i + |sub| <= |s| && s[i..i + |sub|] == sub
  }

  /** `sub in s` for Python strings. */
  predicate Contains(s: string, sub: string)
  {
    exists i: nat | i <= |s| :: OccursAt(s, sub, i)
  }

  /** A label lacks a phrase when one character of the phrase occurs nowhere in it. */
  lemma AbsentChar(s: string, sub: string, k: nat)
    requires k < |sub| && sub[k] !in s
    ensures !Contains(s, sub)
  {
  }

  /**
   * A label lacks a phrase when one character of the phrase is missing from every
   * position where that character would have to stand.
   */
  lemma AbsentCharInWindow(s: string, sub: string, k: nat)
    requires k < |sub| <= |s| && sub[k] !in s[k..|s| - |sub| + k + 1]
    ensures !Contains(s, sub)
  {
    var window := s[k..|s| - |sub| + k + 1];
    forall i: nat | i + |sub| <= |s| ensures s[i..i + |sub|][k] == window[i] {
    }
  }

  // ---------------------------------------------------------------------------
  // Strength adjustment (lines 248-259)
  // ---------------------------------------------------------------------------

  /** Adjusted strengths of both sides; defence is taken over unchanged. */
  datatype Strength = Strength(homeAttack: real, awayAttack: real, homeDefence: real, awayDefence: real)

  /**
   * Attack after the unavailability penalty. There is no floor: ten or more absentees
   * drive a non-negative rating to zero or below, and without absentees nothing changes.
   */
  function PenalisedAttack(attack: real, unavailable: nat): (r: real)
    ensures unavailable == 0 ==> r == attack
    ensures attack >= 0.0 && unavailable >= 10 ==> r <= 0.0
    ensures attack >= 0.0 && unavailable <= 10 ==> 0.0 <= r <= attack
    ensures attack > 0.0 && unavailable > 10 ==> r < 0.0
  {
    attack * (1.0 - unavailable as real * UnavailablePenalty)
  }

  /** The weight of one form symbol: W, D and L, and 1.0 for anything else. */
  function FormWeight(symbol: string): (w: real)
    ensures 0.9 <= w <= 1.1
    ensures symbol != "W" && symbol != "L" ==> w == 1.0
  {
    if symbol == "W" then 1.1
    else if symbol == "D" then 1.0
    else if symbol == "L" then 0.9
    else 1.0
  }

  /** The sum of the weights of a form sequence. */
  function FormSum(form: seq<string>): (r: real)
    ensures 0.9 * |form| as real <= r <= 1.1 * |form| as real
  {
    if form == [] then 0.0 else FormWeight(form[0]) + FormSum(form[1..])
  }

  /**
   * The form multiplier: the weight sum divided by four whatever the length of the
   * sequence, which for a four-symbol form lies between 0.9 and 1.1.
   */
  function FormModifier(form: seq<string>): (r: real)
    ensures 0.9 * |form| as real / 4.0 <= r <= 1.1 * |form| as real / 4.0
    ensures |form| == 4 ==> 0.9 <= r <= 1.1
  {
    FormSum(form) / 4.0
  }

  /** A form of neutral symbols only weighs its length over four, not one. */
  lemma {:induction false} NeutralFormDividesByFour(form: seq<string>)
    requires forall k :: 0 <= k < |form| ==> form[k] == "D"
    ensures FormModifier(form) == |form| as real / 4.0
  {
    NeutralFormSum(form);
  }

  lemma {:induction false} NeutralFormSum(form: seq<string>)
    requires forall k :: 0 <= k < |form| ==> form[k] == "D"
    ensures FormSum(form) == |form| as real
  {
    if form != [] {
      NeutralFormSum(form[1..]);
    }
  }

  /** A team's attack after the penalty and the form multiplier. */
  function AdjustedAttack(team: TeamRecord): real
  {
    PenalisedAttack(team.attack, |team.unavailable|) * FormModifier(team.lastFour)
  }

  /** The adjusted strengths: attack penalised and form-weighted, defence passed through. */
  function Adjust(home: TeamRecord, away: TeamRecord): (s: Strength)
    ensures s.homeDefence == home.defence && s.awayDefence == away.defence
    ensures s.homeAttack == AdjustedAttack(home) && s.awayAttack == AdjustedAttack(away)
  {
    Strength(AdjustedAttack(home), AdjustedAttack(away), home.defence, away.defence)
  }

  lemma ScaledBetween(p: real, m: real, r: real)
    requires 0.0 <= p && 0.9 <= m <= 1.1 && r == p * m
    ensures 0.9 * p <= r <= 1.1 * p
  {
    assert r - 0.9 * p == p * (m - 0.9);
    assert 1.1 * p - r == p * (1.1 - m);
  }

  /**
   * With a four-symbol form the adjusted attack stays between 0.9 and 1.1 times the
   * penalised attack; ten or more absentees leave a non-negative rating at zero or below.
   */
  lemma AdjustedAttackBounds(team: TeamRecord)
    requires |team.lastFour| == 4 && team.attack >= 0.0
    ensures |team.unavailable| <= 10 ==>
      0.9 * PenalisedAttack(team.attack, |team.unavailable|) <= AdjustedAttack(team)
                                   <= 1.1 * PenalisedAttack(team.attack, |team.unavailable|)
    ensures |team.unavailable| >= 10 ==> AdjustedAttack(team) <= 0.0
  {
    var p := PenalisedAttack(team.attack, |team.unavailable|);
    var m := FormModifier(team.lastFour);
    assert 0.9 <= m <= 1.1;
    if |team.unavailable| <= 10 {
      ScaledBetween(p, m, AdjustedAttack(team));
    }
    if |team.unavailable| >= 10 {
      assert p <= 0.0;
      assert m * p <= 0.0;
    }
  }

  // ---------------------------------------------------------------------------
  // 3-way result (lines 263-278)
  // ---------------------------------------------------------------------------

  datatype ThreeWay = ThreeWay(home: real, draw: real, away: real)

  function HomeShare(s: Strength): real
    requires s.awayDefence != 0.0
  {
    s.homeAttack / s.awayDefence
  }

  function AwayShare(s: Strength): real
    requires s.homeDefence != 0.0
  {
    s.awayAttack / s.homeDefence
  }

  /** The 3-way formula divides by both defences and by the sum of the two shares. */
  predicate ThreeWayDefined(s: Strength)
  {
    s.awayDefence != 0.0 && s.homeDefence != 0.0 && HomeShare(s) + AwayShare(s) != 0.0
  }

  /**
   * The normalised chances before the floor: home and away chances sum to one by
   * construction, so the draw chance is always exactly zero, and the chances stand
   * in the ratio of the shares.
   */
  function PreFloor(s: Strength): (c: ThreeWay)
    requires ThreeWayDefined(s)
    ensures c.home + c.away == 1.0
    ensures c.draw == 0.0
    ensures c.home * AwayShare(s) == c.away * HomeShare(s)
  {
    var total := HomeShare(s) + AwayShare(s);
    var home := HomeShare(s) / total;
    var away := AwayShare(s) / total;
    ThreeWay(home, 1.0 - home - away, away)
  }

  /**
   * The draw floor: a draw chance under 0.15 is raised to 0.15 and the other two are
   * rescaled in proportion so that the three sum to one; otherwise nothing changes.
   */
  function ApplyDrawFloor(c: ThreeWay): (r: ThreeWay)
    requires c.draw < DrawFloor ==> c.home + c.away != 0.0
    ensures c.draw >= DrawFloor ==> r == c
    ensures c.draw < DrawFloor ==> r.draw == DrawFloor
    ensures c.draw < DrawFloor ==> r.home + r.draw + r.away == 1.0
    ensures r.home * c.away == r.away * c.home
  {
    if c.draw < DrawFloor then
      var scale := (1.0 - DrawFloor) / (c.home + c.away);
      ThreeWay(c.home * scale, DrawFloor, c.away * scale)
    else
      c
  }

  /** The 3-way chances the analyser reports, after the floor. */
  function ThreeWayChances(s: Strength): ThreeWay
    requires ThreeWayDefined(s)
  {
    ApplyDrawFloor(PreFloor(s))
  }

  /**
   * Because the pre-floor draw is zero, the floor always fires: the draw is exactly
   * 0.15, the three chances sum to one, home and away keep the ratio of their shares
   * and split the remaining 0.85 between them.
   */
  lemma DrawFloorAlwaysFires(s: Strength)
    requires ThreeWayDefined(s)
    ensures PreFloor(s).draw < DrawFloor
    ensures ThreeWayChances(s).draw == DrawFloor
    ensures ThreeWayChances(s).home + ThreeWayChances(s).draw + ThreeWayChances(s).away == 1.0
    ensures ThreeWayChances(s).home + ThreeWayChances(s).away == 1.0 - DrawFloor
    ensures ThreeWayChances(s).home * AwayShare(s) == ThreeWayChances(s).away * HomeShare(s)
  {
    var c := PreFloor(s);
    var r := ThreeWayChances(s);
    assert r.home * c.away == r.away * c.home;
    assert c.home * AwayShare(s) == c.away * HomeShare(s);
    var t := HomeShare(s) + AwayShare(s);
    assert c.home == HomeShare(s) / t && c.away == AwayShare(s) / t;
    assert r.home == c.home * 0.85 && r.away == c.away * 0.85;
  }

  /** With positive shares the home and away chances lie strictly between 0 and 0.85. */
  lemma ThreeWayInUnitRange(s: Strength)
    requires s.awayDefence != 0.0 && s.homeDefence != 0.0
    requires HomeShare(s) > 0.0 && AwayShare(s) > 0.0
    ensures 0.0 < ThreeWayChances(s).home < 1.0 - DrawFloor
    ensures 0.0 < ThreeWayChances(s).away < 1.0 - DrawFloor
  {
    var t := HomeShare(s) + AwayShare(s);
    var c := PreFloor(s);
    assert c.home == HomeShare(s) / t && c.away == AwayShare(s) / t;
    assert 0.0 < c.home && 0.0 < c.away;
    DrawFloorAlwaysFires(s);
    assert ThreeWayChances(s).home == c.home * 0.85 && ThreeWayChances(s).away == c.away * 0.85;
  }

  /** The outcome a 3-way label asks for; a later test overrides an earlier one. */
  function PickThreeWay(bet: string, c: ThreeWay): real
  {
    if Contains(bet, "Draw") then c.draw
    else if Contains(bet, "Away Win") then c.away
    else if Contains(bet, "Home Win") then c.home
    else 0.0
  }

  // ---------------------------------------------------------------------------
  // First to score (lines 280-283)
  // ---------------------------------------------------------------------------

  /** Does the first-to-score branch divide by the attack sum for this label? */
  predicate FirstToScoreDivides(bet: string)
  {
    Contains(bet, "Home") || Contains(bet, "Away")
  }

  function FirstToScore(bet: string, s: Strength): real
    requires FirstToScoreDivides(bet) ==> s.homeAttack + s.awayAttack != 0.0
  {
    if Contains(bet, "Away") then s.awayAttack / (s.homeAttack + s.awayAttack)
    else if Contains(bet, "Home") then s.homeAttack / (s.homeAttack + s.awayAttack)
    else 0.0
  }

  // ---------------------------------------------------------------------------
  // Both teams to score (lines 285-290)
  // ---------------------------------------------------------------------------

  /** The "Yes" chance: a product of half-attacks capped at 0.95. */
  function BttsYes(s: Strength): (r: real)
    ensures r <= BttsCap
    ensures r == BttsCap || r == (s.homeAttack / 2.0) * (s.awayAttack / 2.0)
    ensures (s.homeAttack / 2.0) * (s.awayAttack / 2.0) <= BttsCap ==> r == (s.homeAttack / 2.0) * (s.awayAttack / 2.0)
  {
    var chance := (s.homeAttack / 2.0) * (s.awayAttack / 2.0);
    if chance > BttsCap then BttsCap else chance
  }

  function BothTeamsToScore(bet: string, s: Strength): real
  {
    if Contains(bet, "No") then 1.0 - BttsYes(s)
    else if Contains(bet, "Yes") then BttsYes(s)
    else 0.0
  }

  // ---------------------------------------------------------------------------
  // Over/under 3.0 goals (lines 292-296)
  // ---------------------------------------------------------------------------

  function ExpectedGoals(s: Strength): real
  {
    (s.homeAttack + s.awayAttack) * ((s.homeDefence + s.awayDefence) / 2.0)
  }

  /** The over/under branch as written: it tests the bare words "Over" and "Under". */
  function OverUnderAsWritten(bet: string, goals: real): real
  {
    if Contains(bet, "Under") then 1.0 - goals / 5.0
    else if Contains(bet, "Over") then goals / 5.0
    else 0.0
  }

  /**
   * Both over/under labels contain "Over" and "Under" (in "Over/Under"), so as written
   * the Over bet is given the Under chance: for one expected goal, 80% instead of 20%.
   */
  lemma OverBetGetsUnderChance(goals: real)
    ensures OverUnderAsWritten(OverBet, goals) == 1.0 - goals / 5.0
    ensures OverUnderAsWritten(OverBet, 1.0) == 0.8 != 1.0 / 5.0
  {
    assert OccursAt(OverBet, "Under", 5);
  }

  /** The over/under branch as evidently intended: the option in parentheses decides. */
  function OverUnder(bet: string, goals: real): real
  {
    if Contains(bet, "(Under)") then 1.0 - goals / 5.0
    else if Contains(bet, "(Over)") then goals / 5.0
    else 0.0
  }

  /** With the corrected test, Over is expected goals over five and Over + Under is one. */
  lemma OverUnderComplement(goals: real)
    ensures OverUnder(OverBet, goals) == goals / 5.0
    ensures OverUnder(UnderBet, goals) == 1.0 - goals / 5.0
    ensures OverUnder(OverBet, goals) + OverUnder(UnderBet, goals) == 1.0
  {
    OverLacksUnderOption();
    assert OccursAt(OverBet, "(Over)", 15);
    assert OccursAt(UnderBet, "(Under)", 15);
  }

  // ---------------------------------------------------------------------------
  // Dispatch on the bet label and the final clamp (lines 262-298)
  // ---------------------------------------------------------------------------

  datatype Fault = DivisionByZero

  /** Would the formula chosen for this label divide by zero (a ZeroDivisionError)? */
  predicate DividesByZero(bet: string, s: Strength)
  {
    if Contains(bet, "3-Way Result") then !ThreeWayDefined(s)
    else if Contains(bet, "First Team to Score") then
      FirstToScoreDivides(bet) && s.homeAttack + s.awayAttack == 0.0
    else false
  }

  /**
   * The raw probability for a bet label, before the clamp: the first bet family whose
   * name the label contains decides the formula, and a label naming none gives 0.
   */
  function Probability(bet: string, s: Strength): (r: Result<real, Fault>)
    ensures r.Failure? <==> DividesByZero(bet, s)
  {
    if Contains(bet, "3-Way Result") then
      if ThreeWayDefined(s) then Success(PickThreeWay(bet, ThreeWayChances(s)))
      else Failure(DivisionByZero)
    else if Contains(bet, "First Team to Score") then
      if FirstToScoreDivides(bet) && s.homeAttack + s.awayAttack == 0.0 then Failure(DivisionByZero)
      else Success(FirstToScore(bet, s))
    else if Contains(bet, "Both Teams to Score") then
      Success(BothTeamsToScore(bet, s))
    else if Contains(bet, "Over/Under 3.0") then
      Success(OverUnderAsWritten(bet, ExpectedGoals(s)))
    else
      Success(0.0)
  }

  /**
   * The reported percentage: 100 times the probability inside [0, 1], 0 below that
   * range and 100 above it, so always within [0, 100].
   */
  function FinalPercent(prob: real): (r: real)
    ensures 0.0 <= r <= 100.0
    ensures 0.0 <= prob <= 1.0 ==> r == 100.0 * prob
    ensures prob < 0.0 ==> r == 0.0
    ensures prob > 1.0 ==> r == 100.0
  {
    var atLeastZero := if prob > 0.0 then prob else 0.0;
    (if atLeastZero < 1.0 then atLeastZero else 1.0) * 100.0
  }

  /** Strength adjustment, formula and clamp for two team records and a bet label. */
  function Percent(home: TeamRecord, away: TeamRecord, bet: string): (r: Result<real, Fault>)
    ensures r.Failure? <==> DividesByZero(bet, Adjust(home, away))
    ensures r.Success? ==> 0.0 <= r.value <= 100.0
    ensures r.Success? ==> r.value == FinalPercent(Probability(bet, Adjust(home, away)).value)
  {
    match Probability(bet, Adjust(home, away))
    case Success(p) => Success(FinalPercent(p))
    case Failure(e) => Failure(e)
  }

  // ---------------------------------------------------------------------------
  // Properties of the catalog labels (noel.py:84-89)
  // ---------------------------------------------------------------------------

  const HomeWinBet := "3-Way Result (Home Win)"
  const DrawBet := "3-Way Result (Draw)"
  const AwayWinBet := "3-Way Result (Away Win)"
  const FirstHomeBet := "First Team to Score (Home)"
  const FirstAwayBet := "First Team to Score (Away)"
  const BttsYesBet := "Both Teams to Score (Yes)"
  const BttsNoBet := "Both Teams to Score (No)"
  const OverBet := "Over/Under 3.0 (Over)"
  const UnderBet := "Over/Under 3.0 (Under)"

  /** The nine bet labels offered for selection. */
  const BetTypes := [HomeWinBet, DrawBet, AwayWinBet, FirstHomeBet, FirstAwayBet,
                     BttsYesBet, BttsNoBet, OverBet, UnderBet]

  /** The label names one of the four bet families the analysis dispatches on. */
  predicate NamesFamily(bet: string)
  {
    || Contains(bet, "3-Way Result") || Contains(bet, "First Team to Score")
    || Contains(bet, "Both Teams to Score") || Contains(bet, "Over/Under 3.0")
  }

  /** Every offered label names a bet family, so none falls to the 0% default. */
  lemma OfferedBetsNameAFamily()
    ensures forall k :: 0 <= k < |BetTypes| ==> NamesFamily(BetTypes[k])
  {
    assert OccursAt(HomeWinBet, "3-Way Result", 0);
    assert OccursAt(DrawBet, "3-Way Result", 0);
    assert OccursAt(AwayWinBet, "3-Way Result", 0);
    assert OccursAt(FirstHomeBet, "First Team to Score", 0);
    assert OccursAt(FirstAwayBet, "First Team to Score", 0);
    assert OccursAt(BttsYesBet, "Both Teams to Score", 0);
    assert OccursAt(BttsNoBet, "Both Teams to Score", 0);
    assert OccursAt(OverBet, "Over/Under 3.0", 0);
    assert OccursAt(UnderBet, "Over/Under 3.0", 0);
  }

  /** A label that names no bet family yields 0%. */
  lemma UnknownBetYieldsZero(home: TeamRecord, away: TeamRecord, bet: string)
    requires !Contains(bet, "3-Way Result") && !Contains(bet, "First Team to Score")
    requires !Contains(bet, "Both Teams to Score") && !Contains(bet, "Over/Under 3.0")
    ensures Percent(home, away, bet) == Success(0.0)
  {
  }

  // Each label fact is its own small lemma: the solver handles them cheaply one by one.

  lemma HomeWinLacksDraw() ensures !Contains(HomeWinBet, "Draw") { AbsentChar(HomeWinBet, "Draw", 0); }
  lemma HomeWinLacksAwayWin() ensures !Contains(HomeWinBet, "Away Win") { AbsentChar(HomeWinBet, "Away Win", 0); }
  lemma AwayWinLacksDraw() ensures !Contains(AwayWinBet, "Draw") { AbsentChar(AwayWinBet, "Draw", 0); }
  lemma FirstHomeLacksThreeWay() ensures !Contains(FirstHomeBet, "3-Way Result") { AbsentChar(FirstHomeBet, "3-Way Result", 0); }
  lemma FirstHomeLacksAway() ensures !Contains(FirstHomeBet, "Away") { AbsentChar(FirstHomeBet, "Away", 0); }
  lemma FirstAwayLacksThreeWay() ensures !Contains(FirstAwayBet, "3-Way Result") { AbsentChar(FirstAwayBet, "3-Way Result", 0); }
  lemma BttsYesLacksThreeWay() ensures !Contains(BttsYesBet, "3-Way Result") { AbsentChar(BttsYesBet, "3-Way Result", 0); }
  lemma BttsYesLacksFirstToScore() ensures !Contains(BttsYesBet, "First Team to Score") { AbsentChar(BttsYesBet, "First Team to Score", 0); }
  lemma BttsYesLacksNo() ensures !Contains(BttsYesBet, "No") { AbsentChar(BttsYesBet, "No", 0); }
  lemma BttsNoLacksThreeWay() ensures !Contains(BttsNoBet, "3-Way Result") { AbsentChar(BttsNoBet, "3-Way Result", 0); }
  lemma BttsNoLacksFirstToScore() ensures !Contains(BttsNoBet, "First Team to Score") { AbsentChar(BttsNoBet, "First Team to Score", 0); }
  lemma OverLacksThreeWay() ensures !Contains(OverBet, "3-Way Result") { AbsentChar(OverBet, "3-Way Result", 2); }
  lemma OverLacksFirstToScore() ensures !Contains(OverBet, "First Team to Score") { AbsentChar(OverBet, "First Team to Score", 0); }
  lemma OverLacksBtts() ensures !Contains(OverBet, "Both Teams to Score") { AbsentChar(OverBet, "Both Teams to Score", 0); }
  lemma OverLacksUnderOption() ensures !Contains(OverBet, "(Under)") { AbsentCharInWindow(OverBet, "(Under)", 0); }
  lemma UnderLacksThreeWay() ensures !Contains(UnderBet, "3-Way Result") { AbsentChar(UnderBet, "3-Way Result", 2); }
  lemma UnderLacksFirstToScore() ensures !Contains(UnderBet, "First Team to Score") { AbsentChar(UnderBet, "First Team to Score", 0); }
  lemma UnderLacksBtts() ensures !Contains(UnderBet, "Both Teams to Score") { AbsentChar(UnderBet, "Both Teams to Score", 0); }

  /** The three 3-way labels pick home, draw and away of one floored distribution. */
  lemma ThreeWayLabels(s: Strength)
    requires ThreeWayDefined(s)
    ensures Probability(HomeWinBet, s) == Success(ThreeWayChances(s).home)
    ensures Probability(DrawBet, s) == Success(DrawFloor)
    ensures Probability(AwayWinBet, s) == Success(ThreeWayChances(s).away)
  {
    assert OccursAt(HomeWinBet, "3-Way Result", 0) && OccursAt(HomeWinBet, "Home Win", 14);
    assert OccursAt(DrawBet, "3-Way Result", 0) && OccursAt(DrawBet, "Draw", 14);
    assert OccursAt(AwayWinBet, "3-Way Result", 0) && OccursAt(AwayWinBet, "Away Win", 14);
    HomeWinLacksDraw();
    HomeWinLacksAwayWin();
    AwayWinLacksDraw();
    DrawFloorAlwaysFires(s);
  }

  /** The two first-to-score chances sum to one whenever the attack sum is not zero. */
  lemma FirstToScoreComplement(s: Strength)
    requires s.homeAttack + s.awayAttack != 0.0
    ensures Probability(FirstHomeBet, s).Success? && Probability(FirstAwayBet, s).Success?
    ensures Probability(FirstHomeBet, s).value == s.homeAttack / (s.homeAttack + s.awayAttack)
    ensures Probability(FirstHomeBet, s).value + Probability(FirstAwayBet, s).value == 1.0
  {
    FirstHomeLacksThreeWay();
    FirstAwayLacksThreeWay();
    FirstHomeLacksAway();
    assert OccursAt(FirstHomeBet, "First Team to Score", 0) && OccursAt(FirstHomeBet, "Home", 21);
    assert OccursAt(FirstAwayBet, "First Team to Score", 0) && OccursAt(FirstAwayBet, "Away", 21);
    var t := s.homeAttack + s.awayAttack;
    assert s.homeAttack / t + s.awayAttack / t == 1.0;
  }

  /** "Yes" never exceeds 0.95 and the two both-teams-to-score chances sum to one. */
  lemma BttsComplement(s: Strength)
    ensures Probability(BttsYesBet, s) == Success(BttsYes(s))
    ensures Probability(BttsNoBet, s) == Success(1.0 - BttsYes(s))
    ensures Probability(BttsYesBet, s).value <= BttsCap
    ensures Probability(BttsYesBet, s).value + Probability(BttsNoBet, s).value == 1.0
  {
    BttsYesLacksThreeWay();
    BttsNoLacksThreeWay();
    BttsYesLacksFirstToScore();
    BttsNoLacksFirstToScore();
    BttsYesLacksNo();
    assert OccursAt(BttsYesBet, "Both Teams to Score", 0) && OccursAt(BttsYesBet, "Yes", 21);
    assert OccursAt(BttsNoBet, "Both Teams to Score", 0) && OccursAt(BttsNoBet, "No", 21);
  }

  /**
   * As written, both over/under labels reach the Under formula: the Over bet is given
   * one minus expected goals over five, the same as the Under bet.
   */
  lemma OverUnderLabels(s: Strength)
    ensures Probability(OverBet, s) == Success(1.0 - ExpectedGoals(s) / 5.0)
    ensures Probability(UnderBet, s) == Success(1.0 - ExpectedGoals(s) / 5.0)
  {
    OverLacksThreeWay();
    UnderLacksThreeWay();
    OverLacksFirstToScore();
    UnderLacksFirstToScore();
    OverLacksBtts();
    UnderLacksBtts();
    assert OccursAt(OverBet, "Over/Under 3.0", 0);
    assert OccursAt(UnderBet, "Over/Under 3.0", 0);
    OverBetGetsUnderChance(ExpectedGoals(s));
    assert OccursAt(UnderBet, "Under", 5);
  }
}
