/** Currency amounts. A C# `decimal` is an exact base-10 number, modelled as an
    exact `real`; the gateway counts in cents (the smallest unit of the rand). */
module Money {

  /** `Math.Round(decimal)`: the nearest integer, and the even one of the two
      nearest when `x` lies exactly half-way between them. */
  function RoundHalfEven(x: real): (r: int)
    ensures x - 0.5 <= r as real <= x + 0.5
    ensures r as real == x + 0.5 || r as real == x - 0.5 ==> r % 2 == 0
  {
    var f := x.Floor;
    var frac := x - f as real;
    if frac < 0.5 then f
    else if frac > 0.5 then f + 1
    else if f % 2 == 0 then f
    else f + 1
  }

  /** The two contract clauses of `RoundHalfEven` leave no choice: any integer
      meeting them is the rounded value. */
  lemma {:induction false} RoundHalfEvenIsUnique(x: real, r: int)
    requires x - 0.5 <= r as real <= x + 0.5
    requires r as real == x + 0.5 || r as real == x - 0.5 ==> r % 2 == 0
    ensures r == RoundHalfEven(x)
  {
  }

  /** `Convert.ToInt64(Math.Round(amount * 100M))`: an amount in rand as a whole
      number of cents. */
  function ToCents(amount: real): (cents: int)
    ensures amount * 100.0 - 0.5 <= cents as real <= amount * 100.0 + 0.5
  {
    RoundHalfEven(amount * 100.0)
  }

  /** `cents / 100m`: a whole number of cents as an amount in rand. */
  function FromCents(cents: int): (amount: real)
    ensures amount * 100.0 == cents as real
  {
    cents as real / 100.0
  }

  /** Converting cents to rand and back returns the same cents. */
  lemma CentsRoundTrip(cents: int)
    ensures ToCents(FromCents(cents)) == cents
  {
    RoundHalfEvenIsUnique(FromCents(cents) * 100.0, cents);
  }

  /** An amount that is a whole number of cents survives the round trip through
      cents unchanged; no other amount does. */
  lemma WholeCentsRoundTrip(amount: real)
    ensures FromCents(ToCents(amount)) == amount <==> (amount * 100.0).Floor as real == amount * 100.0
  {
    var c := ToCents(amount);
    if (amount * 100.0).Floor as real == amount * 100.0 {
      RoundHalfEvenIsUnique(amount * 100.0, (amount * 100.0).Floor);
    }
  }
}
