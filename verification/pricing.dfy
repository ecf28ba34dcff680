/**
 * Seat pricing: a seat costs the movie's base price times the show's
 * multiplier for its seat type, rounded to the nearest integer with ties
 * rounded up (JavaScript Math.round). Prices are fixed when a hold is made.
 * JavaScript numbers are modelled as exact reals.
 */
module Pricing {
  import opened Catalog

  /** A seat as stored in a booking: its id, its type and its locked price. */
  datatype PricedSeat = PricedSeat(seatId: string, seatType: SeatType, price: int)

  /** A seat as named in a hold request. */
  datatype SeatRequest = SeatRequest(seatId: string, seatType: SeatType)

  /** Math.round: the nearest integer, and the upper one of two equally near. */
  function RoundHalfUp(x: real): (r: int)
    ensures x - 0.5 < r as real <= x + 0.5
  {
    (x + 0.5).Floor
  }

  /** No other integer satisfies the rounding contract. */
  lemma RoundHalfUpUnique(x: real, n: int)
    requires x - 0.5 < n as real <= x + 0.5
    ensures n == RoundHalfUp(x)
  {
  }

  /** The multiplier of a seat type, 1 when the table has no entry for it. */
  function Multiplier(multipliers: map<SeatType, real>, seatType: SeatType): (m: real)
    ensures seatType in multipliers ==> m == multipliers[seatType]
    ensures seatType !in multipliers ==> m == 1.0
  {
    if seatType in multipliers then multipliers[seatType] else 1.0
  }

  /** `baseSeatPrice || 1`: a zero base price counts as 1. */
  function EffectiveBase(baseSeatPrice: real): (b: real)
    ensures b != 0.0
    ensures baseSeatPrice == 0.0 ==> b == 1.0
    ensures baseSeatPrice != 0.0 ==> b == baseSeatPrice
  {
    if baseSeatPrice == 0.0 then 1.0 else baseSeatPrice
  }

  /** The price of one seat of the given type: base times multiplier, rounded half up. */
  function ComputeSeatPrice(base: real, multipliers: map<SeatType, real>, seatType: SeatType): (p: int)
    ensures base * Multiplier(multipliers, seatType) - 0.5 < p as real
    ensures p as real <= base * Multiplier(multipliers, seatType) + 0.5
  {
    RoundHalfUp(base * Multiplier(multipliers, seatType))
  }

  /** A seat type missing from the table is priced at the rounded base price. */
  lemma MissingTypeCostsBase(base: int, multipliers: map<SeatType, real>, seatType: SeatType)
    requires seatType !in multipliers
    ensures ComputeSeatPrice(base as real, multipliers, seatType) == base
  {
  }

  /** Non-negative base and multiplier give a non-negative price. */
  lemma NonNegativePrice(base: real, multipliers: map<SeatType, real>, seatType: SeatType)
    requires base >= 0.0 && Multiplier(multipliers, seatType) >= 0.0
    ensures ComputeSeatPrice(base, multipliers, seatType) >= 0
  {
  }

  /**
   * The requested seats, in request order, each with its price: the same ids
   * and types, one priced seat per requested seat.
   */
  function PriceSeats(base: real, multipliers: map<SeatType, real>, seats: seq<SeatRequest>): (r: seq<PricedSeat>)
    ensures |r| == |seats|
    ensures forall i :: 0 <= i < |seats| ==>
              r[i].seatId == seats[i].seatId && r[i].seatType == seats[i].seatType
              && r[i].price == ComputeSeatPrice(base, multipliers, seats[i].seatType)
  {
    seq(|seats|, i requires 0 <= i < |seats| =>
      PricedSeat(seats[i].seatId, seats[i].seatType, ComputeSeatPrice(base, multipliers, seats[i].seatType)))
  }

  /**
   * The sum of the prices, added from left to right starting at 0: nothing
   * costs 0, one seat costs its price, and no negative price gives no
   * negative total.
   */
  function Total(seats: seq<PricedSeat>): (t: int)
    ensures seats == [] ==> t == 0
    ensures |seats| == 1 ==> t == seats[0].price
    ensures (forall k :: 0 <= k < |seats| ==> seats[k].price >= 0) ==> t >= 0
    decreases |seats|
  {
    if seats == [] then 0 else Total(seats[..|seats| - 1]) + seats[|seats| - 1].price
  }

  /** Splitting the seats splits the total. */
  lemma {:induction false} TotalAppend(a: seq<PricedSeat>, b: seq<PricedSeat>)
    ensures Total(a + b) == Total(a) + Total(b)
    decreases |b|
  {
    if b == [] {
      assert a + b == a;
    } else {
      var n := |b| - 1;
      assert (a + b)[..|a + b| - 1] == a + b[..n];
      assert (a + b)[|a + b| - 1] == b[n];
      TotalAppend(a, b[..n]);
    }
  }

  /** The total is at least as large as every single price when no price is negative. */
  lemma {:induction false} TotalBounds(seats: seq<PricedSeat>, i: int)
    requires forall k :: 0 <= k < |seats| ==> seats[k].price >= 0
    requires 0 <= i < |seats|
    ensures seats[i].price <= Total(seats)
    decreases |seats|
  {
    var n := |seats| - 1;
    if i < n {
      TotalBounds(seats[..n], i);
    }
  }

  /** With the default table and base 150 the four types cost 150, 188, 225 and 300. */
  lemma DefaultPricesAtBase150()
    ensures ComputeSeatPrice(150.0, DefaultMultipliers, Normal) == 150
    ensures ComputeSeatPrice(150.0, DefaultMultipliers, Premium) == 188
    ensures ComputeSeatPrice(150.0, DefaultMultipliers, Luxury) == 225
    ensures ComputeSeatPrice(150.0, DefaultMultipliers, Recliner) == 300
  {
  }

  /** Two PREMIUM seats at base 150 cost 188 each, 376 in all. */
  lemma {:induction false} TwoPremiumSeatsCost376()
    ensures Total(PriceSeats(150.0, DefaultMultipliers,
                             [SeatRequest("A1", Premium), SeatRequest("A2", Premium)])) == 376
  {
    DefaultPricesAtBase150();
    var p := PriceSeats(150.0, DefaultMultipliers, [SeatRequest("A1", Premium), SeatRequest("A2", Premium)]);
    assert p[..1][..0] == [];
    assert Total(p[..1]) == 188;
    assert p[..|p| - 1] == p[..1];
  }
}
