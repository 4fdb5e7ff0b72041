/**
 * The dashboard's health-score widget (src/components/HealthScoreWidget.tsx):
 * the status band a score falls in and the badge shown before it. The score
 * is a real number; colours and layout are not modelled.
 */
module HealthScore {

  datatype Status = Excellent | Good | NeedsAttention | Critical

  /** The label the widget prints. */
  function Label(s: Status): string {
    match s
    case Excellent => "Excellent"
    case Good => "Good"
    case NeedsAttention => "Needs Attention"
    case Critical => "Critical"
  }

  /** The order of the bands, best first. */
  function Band(s: Status): nat {
    match s
    case Excellent => 0
    case Good => 1
    case NeedsAttention => 2
    case Critical => 3
  }

  /** `getHealthStatus`: thresholds 90, 70 and 50, each inclusive. */
  function StatusOf(score: real): (s: Status)
    ensures s == Excellent <==> score >= 90.0
    ensures s == Good <==> 70.0 <= score < 90.0
    ensures s == NeedsAttention <==> 50.0 <= score < 70.0
    ensures s == Critical <==> score < 50.0
  {
    if score >= 90.0 then Excellent
    else if score >= 70.0 then Good
    else if score >= 50.0 then NeedsAttention
    else Critical
  }

  /** The badges the three conditional fragments can render; an empty string renders nothing. */
  const Check := "✅ "
  const Warning := "⚠️ "
  const Siren := "\U{1F6A8} "

  /** The badge fragments in order: each is shown only when its condition holds. */
  function Badge(score: real): (b: string)
    ensures b in {Check, Warning, Siren}
    ensures b == Check <==> score >= 90.0
    ensures b == Warning <==> 70.0 <= score < 90.0
    ensures b == Siren <==> score < 70.0
  {
    var b := (if score >= 90.0 then Check else "")
      + (if score >= 70.0 && score < 90.0 then Warning else "")
      + (if score < 70.0 then Siren else "");
    assert score >= 90.0 ==> b == Check + "" + "";
    assert 70.0 <= score < 90.0 ==> b == "" + Warning + "";
    assert score < 70.0 ==> b == "" + "" + Siren;
    assert Check[0] != Warning[0] && Check[0] != Siren[0] && Warning[0] != Siren[0];
    assert b == Check || b == Warning || b == Siren;
    b
  }

  /** A higher score never lands in a worse band. */
  lemma StatusMonotone(a: real, b: real)
    requires a <= b
    ensures Band(StatusOf(b)) <= Band(StatusOf(a))
  {
  }

  /** The badge follows the status, except that the two lowest bands share the siren. */
  lemma BadgeAgreesWithStatus(score: real)
    ensures Badge(score) == Check <==> StatusOf(score) == Excellent
    ensures Badge(score) == Warning <==> StatusOf(score) == Good
    ensures Badge(score) == Siren <==> StatusOf(score) in {NeedsAttention, Critical}
  {
  }
}
