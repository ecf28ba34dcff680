/**
 * Booking flows based on the repository's booking test script, stated over
 * the model: one theatre screen with five seats, a show with the default
 * multipliers and a movie at base price 150.
 */
module Scenarios {
  import opened Wrappers
  import opened Catalog
  import opened Pricing
  import opened Reservations
  import opened Store

  const Screen1: Screen := Screen("s1", [Seat("A1", Premium), Seat("A2", Premium), Seat("A3", Normal),
                                         Seat("A4", Recliner), Seat("A5", Luxury)])

  const Venues: Catalog := Catalog(map["t1" := Theatre([Screen1])],
                                   map["show1" := Show("t1", "s1", "m1", DefaultMultipliers)],
                                   map["m1" := Movie(150.0)])

  function HoldRequestFor(seats: seq<SeatRequest>): HoldRequest
  {
    HoldRequest("t1", "s1", "show1", "m1", seats, "")
  }

  /** Seat ids A1 and A2 are both PREMIUM in the seat map of the screen. */
  lemma PremiumPairIsValid()
    ensures ValidateHold(Venues, HoldRequestFor([SeatRequest("A1", Premium), SeatRequest("A2", Premium)]))
            == Success(Venue(Screen1, Venues.shows["show1"], Movie(150.0)))
  {
    var index := SeatTypeIndex(Screen1.seatMap);
    SeatTypeIndexLast(Screen1.seatMap, 0);
    SeatTypeIndexLast(Screen1.seatMap, 1);
    assert SeatOk(index, SeatRequest("A1", Premium)) && SeatOk(index, SeatRequest("A2", Premium));
    assert FindScreen([Screen1], "s1") == Some(Screen1);
  }

  /**
   * Hold A1 and A2 on an empty store: booking 0, HELD for five minutes, total
   * 376. Holding A1 again fails with a conflict; confirming booking 0 succeeds;
   * fetching it shows CONFIRMED with the same seats and total.
   */
  method BookingFlow(now: int)
  {
    var store := new BookingStore([]);
    var pair := HoldRequestFor([SeatRequest("A1", Premium), SeatRequest("A2", Premium)]);
    PremiumPairIsValid();
    TwoPremiumSeatsCost376();
    var held := store.Hold(Venues, pair, now);
    assert held == Success(HoldReceipt(0, now + 300000, 376));

    var again := store.Hold(Venues, HoldRequestFor([SeatRequest("A1", Premium)]), now + 1);
    assert again == Failure(SeatsUnavailable) by {
      var single := HoldRequestFor([SeatRequest("A1", Premium)]);
      SeatTypeIndexLast(Screen1.seatMap, 0);
      assert SeatOk(SeatTypeIndex(Screen1.seatMap), SeatRequest("A1", Premium));
      assert FindScreen([Screen1], "s1") == Some(Screen1);
      assert ValidateHold(Venues, single).Success?;
      assert store.bookings[0].seats[0].seatId == "A1";
      assert BlocksHold(store.bookings[0], "show1", RequestedIds(single.seats), now + 1);
    }

    var paid := store.Confirm(Some(0), now + 2);
    assert paid == Success(Confirmation(0, false));
    var fetched := store.Get(0);
    assert fetched.Success? && fetched.value.status == Confirmed && fetched.value.totalAmount == 376;
    var repaid := store.Confirm(Some(0), now + 3);
    assert repaid == Success(Confirmation(0, true));
  }

  /**
   * Hold A4, let the hold run out: confirming it then fails with HoldExpired,
   * and another hold of A4 succeeds.
   */
  method ExpiryFlow(now: int)
  {
    var store := new BookingStore([]);
    var recliner := HoldRequestFor([SeatRequest("A4", Recliner)]);
    assert ValidateHold(Venues, recliner).Success? by {
      SeatTypeIndexLast(Screen1.seatMap, 3);
      assert SeatOk(SeatTypeIndex(Screen1.seatMap), SeatRequest("A4", Recliner));
      assert FindScreen([Screen1], "s1") == Some(Screen1);
    }
    var first := store.Hold(Venues, recliner, now);
    assert first.Success? && first.value.bookingId == 0;

    var later := now + HoldWindowMs;
    var late := store.Confirm(Some(0), later);
    assert late == Failure(HoldExpired);
    var second := store.Hold(Venues, recliner, later);
    assert second.Success? && second.value.bookingId == 1;
  }

  /** A request naming A1 twice is not refused: the booking lists A1 twice and charges it twice. */
  method DuplicateSeatFlow(now: int)
  {
    var store := new BookingStore([]);
    var twice := HoldRequestFor([SeatRequest("A1", Premium), SeatRequest("A1", Premium)]);
    assert ValidateHold(Venues, twice).Success? by {
      SeatTypeIndexLast(Screen1.seatMap, 0);
      assert SeatOk(SeatTypeIndex(Screen1.seatMap), SeatRequest("A1", Premium));
      assert FindScreen([Screen1], "s1") == Some(Screen1);
    }
    DefaultPricesAtBase150();
    var held := store.Hold(Venues, twice, now);
    assert held.Success?;
    var seats := store.bookings[0].seats;
    assert |seats| == 2 && seats[0].price == 188 && seats[1].price == 188;
    assert seats[..1][..0] == [];
    assert Total(seats[..1]) == 188;
    assert seats[..|seats| - 1] == seats[..1];
    assert held.value.totalAmount == Total(seats) == 376;
  }
}
