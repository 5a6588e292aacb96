/**
 The subscription price table of the student subscription view and the
 input domain of the subscription form: a duration of 7, 14 or 30 days and a
 meal kind of breakfast, lunch or both.
 */
module Pricing {
  import IdList

  /** Prices keyed by (`str(duration)`, meal kind). */
  const PRICES: map<(string, string), nat> := map[
    ("7", "breakfast") := 700,
    ("7", "lunch") := 1000,
    ("7", "both") := 1500,
    ("14", "breakfast") := 1300,
    ("14", "lunch") := 1900,
    ("14", "both") := 2800,
    ("30", "breakfast") := 2500,
    ("30", "lunch") := 3800,
    ("30", "both") := 5500]

  /** The duration choices the form accepts, as submitted text. */
  predicate ValidDurationText(t: string) {
    t == "7" || t == "14" || t == "30"
  }

  /** The meal kinds the form accepts. */
  predicate ValidMealKind(m: string) {
    m == "breakfast" || m == "lunch" || m == "both"
  }

  /** Python's `str` on an integer. */
  function IntString(n: int): string {
    if n < 0 then "-" + IdList.DecimalString(-n) else IdList.DecimalString(n)
  }

  /** `PRICES.get((str(duration), mealKind), 0)`: positive exactly on the form's nine choices. */
  function PriceFor(duration: int, mealKind: string): (price: nat)
    ensures price > 0 <==> (duration == 7 || duration == 14 || duration == 30) && ValidMealKind(mealKind)
  {
    var key := (IntString(duration), mealKind);
    SmallDecimals();
    IntStringKey(duration);
    if key in PRICES then PRICES[key] else 0
  }

  lemma SmallDecimals()
    ensures IdList.DecimalString(7) == "7"
    ensures IdList.DecimalString(14) == "14"
    ensures IdList.DecimalString(30) == "30"
  {
    assert IdList.DecimalString(1) == "1";
    assert IdList.DecimalString(3) == "3";
  }

  /** Only 7, 14 and 30 print as a duration key of the table. */
  lemma IntStringKey(n: int)
    ensures IntString(n) in {"7", "14", "30"} ==> n == 7 || n == 14 || n == 30
  {
    if n < 0 {
      assert IntString(n)[0] == '-';
    } else {
      var s := IdList.DecimalString(n);
      IdList.DecimalRoundTrip(n);
      if s == "14" {
        assert IdList.DecimalValue("14") == 14 by {
          assert "14"[..1] == "1";
          assert "1"[..0] == "";
        }
      } else if s == "30" {
        assert IdList.DecimalValue("30") == 30 by {
          assert "30"[..1] == "3";
          assert "3"[..0] == "";
        }
      } else if s == "7" {
        assert IdList.DecimalValue("7") == 7 by {
          assert "7"[..0] == "";
        }
      }
    }
  }

  /** The form's text choice converted with `int`. */
  function DurationDays(t: string): (days: int)
    requires ValidDurationText(t)
    ensures days == 7 || days == 14 || days == 30
    ensures IntString(days) == t
  {
    SmallDecimals();
    if t == "7" then 7 else if t == "14" then 14 else 30
  }

  /** Every pair the form accepts has a positive price. */
  lemma FormChoicesArePriced(t: string, m: string)
    requires ValidDurationText(t) && ValidMealKind(m)
    ensures PriceFor(DurationDays(t), m) > 0
  {
  }

  /** The table as published. */
  lemma PriceTable()
    ensures PriceFor(7, "breakfast") == 700 && PriceFor(7, "lunch") == 1000 && PriceFor(7, "both") == 1500
    ensures PriceFor(14, "breakfast") == 1300 && PriceFor(14, "lunch") == 1900 && PriceFor(14, "both") == 2800
    ensures PriceFor(30, "breakfast") == 2500 && PriceFor(30, "lunch") == 3800 && PriceFor(30, "both") == 5500
  {
    SmallDecimals();
  }
}
