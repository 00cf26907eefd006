/** The price-change rule of processData: how the change is computed from the
    new and the previous price, when it raises an alert, and the alert text. */
module AlertRule {

  /** An alert fires when the absolute change exceeds this many percent. */
  const AlertThreshold: real := 5.0

  /** The divisor used when there is no previous price: decimal.New(1, 1),
      which is 1 x 10^1, that is ten (not one). */
  const ZeroBaseDivisor: real := 10.0

  const SubjectPrefix: string := "Stock Alert: "

  function Abs(x: real): real
  {
    if x < 0.0 then -x else x
  }

  /** The change processData computes for a new price against the previous one:
      a percentage of the previous price when that is non-zero, and otherwise
      the difference divided by ZeroBaseDivisor and scaled by 100. */
  function Change(price: real, previous: real): (change: real)
    ensures change == 0.0 <==> price == previous
  {
    if previous != 0.0 then (price - previous) / previous * 100.0
    else (price - previous) / ZeroBaseDivisor * 100.0
  }

  /** Whether a change raises an alert: strictly above the threshold in absolute
      value, so a rise and a fall of the same size are treated alike. */
  predicate Alerts(change: real): (alert: bool)
    ensures alert <==> change > AlertThreshold || change < -AlertThreshold
  {
    Abs(change) > AlertThreshold
  }

  /** The alert subject: the fixed prefix followed by exactly the ticker, so the
      ticker can be read back from it. */
  function Subject(ticker: string): (subject: string)
    ensures |subject| == |SubjectPrefix| + |ticker|
    ensures subject[..|SubjectPrefix|] == "Stock Alert: "
    ensures subject[|SubjectPrefix|..] == ticker
  {
    SubjectPrefix + ticker
  }

  /** The alert body; `changeText` is the decimal text of the change. The
      ticker and the change text sit at fixed places between the fixed words. */
  function Body(ticker: string, changeText: string): (body: string)
    ensures |body| == 62 + |ticker| + |changeText|
    ensures body[..13] == "The price of "
    ensures body[13..13 + |ticker|] == ticker
    ensures body[13 + |ticker|..29 + |ticker|] == " has changed by "
    ensures body[29 + |ticker|..29 + |ticker| + |changeText|] == changeText
    ensures body[29 + |ticker| + |changeText|..] == "% compared to the previous price."
  {
    "The price of " + ticker + " has changed by " + changeText + "% compared to the previous price."
  }

  /** Against a non-zero previous price the change is the percentage that,
      applied to the previous price, gives the new one. */
  lemma ChangeIsPercentage(price: real, previous: real)
    requires previous != 0.0
    ensures previous + previous * Change(price, previous) / 100.0 == price
  {
  }

  /** Against a zero previous price the change is ten times the new price, so a
      first price of zero gives no change and no alert. */
  lemma FirstObservationChange(price: real)
    ensures Change(price, 0.0) == price * 10.0
    ensures price == 0.0 ==> Change(price, 0.0) == 0.0 && !Alerts(Change(price, 0.0))
    ensures Alerts(Change(price, 0.0)) <==> Abs(price) > 0.5
  {
  }

  /** The threshold is strict: a change of exactly plus or minus five percent
      sends nothing, and any change beyond it on either side alerts. */
  lemma ThresholdIsStrict(excess: real)
    requires excess > 0.0
    ensures !Alerts(5.0) && !Alerts(-5.0)
    ensures Alerts(5.0 + excess) && Alerts(-5.0 - excess)
  {
  }

  /** The alert decision without the division: against a non-zero previous price,
      an alert fires exactly when the price moved by more than five hundredths
      of the previous price's magnitude. */
  lemma AlertCriterion(price: real, previous: real)
    requires previous != 0.0
    ensures Alerts(Change(price, previous)) <==> Abs(price - previous) * 100.0 > 5.0 * Abs(previous)
  {
    var c := Change(price, previous);
    assert c * previous == (price - previous) * 100.0;
    AbsOfProduct(c, previous);
    AbsOfProduct(price - previous, 100.0);
    ComparedAfterScaling(c, previous, price - previous);
  }

  lemma ComparedAfterScaling(c: real, previous: real, d: real)
    requires previous != 0.0
    requires Abs(c) * Abs(previous) == Abs(d) * 100.0
    ensures Abs(c) > 5.0 <==> Abs(d) * 100.0 > 5.0 * Abs(previous)
  {
    ScaleIff(Abs(c), 5.0, Abs(previous), Abs(d) * 100.0, 5.0 * Abs(previous));
  }

  /** Multiplying both sides by a positive factor keeps a strict comparison;
      `ak` and `bk` are the two products. */
  lemma ScaleIff(a: real, b: real, k: real, ak: real, bk: real)
    requires k > 0.0 && ak == a * k && bk == b * k
    ensures a > b <==> ak > bk
  {
  }

  lemma AbsOfProduct(x: real, y: real)
    ensures Abs(x) * Abs(y) == Abs(x * y)
  {
  }

  /** Worked cases: 100 to 106 is six percent and alerts, 100 to 103 is three
      percent and does not, and a first price of 50 reads as a change of 500
      (ten times the price) and alerts. */
  lemma WorkedChanges()
    ensures Change(106.0, 100.0) == 6.0 && Alerts(Change(106.0, 100.0))
    ensures Change(103.0, 100.0) == 3.0 && !Alerts(Change(103.0, 100.0))
    ensures Change(50.0, 0.0) == 500.0 && Alerts(Change(50.0, 0.0))
  {
  }
}
