/**
 * The booking store and the three controller operations that use it: hold
 * seats, confirm a booking, fetch a booking. The store is the collection of
 * booking records; holds append a record, confirms change one record's status
 * in place. Each operation is proved to agree with its function in module
 * Reservations. The clock is a parameter, in milliseconds.
 */
module Store {
  import opened Wrappers
  import opened Catalog
  import opened Pricing
  import opened Reservations

  /**
   * Checks the requested seats in order against the seat-type index and
   * reports the first one that is missing or has another type.
   */
  method CheckSeats(index: map<string, SeatType>, seats: seq<SeatRequest>) returns (bad: Option<Failure>)
    ensures bad == SeatCheck(index, seats)
  {
    var i := 0;
    while i < |seats|
      invariant 0 <= i <= |seats|
      invariant SeatCheck(index, seats) == SeatCheck(index, seats[i..])
    {
      var seat := seats[i];
      if seat.seatId !in index {
        return Some(SeatNotFound(seat.seatId));
      }
      if index[seat.seatId] != seat.seatType {
        return Some(SeatTypeMismatch(seat.seatId));
      }
      assert seats[i..][1..] == seats[i + 1..];
      i := i + 1;
    }
    assert seats[i..] == [];
    bad := None;
  }

  class BookingStore {
    /** The booking records, in creation order. */
    var bookings: seq<Booking>

    ghost predicate Valid()
      reads this
    {
      IdsArePositions(bookings)
    }

    /** A store holding the given records (an empty store in a fresh database). */
    constructor (existing: seq<Booking>)
      requires IdsArePositions(existing)
      ensures Valid() && bookings == existing
    {
      bookings := existing;
    }

    /** Looks for a booking that blocks a hold of `ids` on `showId` at `now`. */
    method FindHoldConflict(showId: string, ids: seq<string>, now: int) returns (found: bool)
      ensures found <==> HoldBlocked(bookings, showId, ids, now)
    {
      var i := 0;
      while i < |bookings|
        invariant 0 <= i <= |bookings|
        invariant forall k :: 0 <= k < i ==> !BlocksHold(bookings[k], showId, ids, now)
      {
        var b := bookings[i];
        if b.showId == showId && Active(b, now) && SharesSeat(b, ids) {
          return true;
        }
        i := i + 1;
      }
      found := false;
    }

    /** Looks for another CONFIRMED booking of the same show sharing a seat with booking `id`. */
    method FindConfirmedOverlap(id: BookingId) returns (found: bool)
      requires id < |bookings|
      ensures found <==> ConfirmBlocked(bookings, id)
    {
      var ids := RequestedIds(Unpriced(bookings[id].seats));
      var j := 0;
      while j < |bookings|
        invariant 0 <= j <= |bookings|
        invariant forall k :: 0 <= k < j ==> !BlocksConfirm(bookings, id, k)
      {
        var b := bookings[j];
        if j != id && b.showId == bookings[id].showId && b.status == Confirmed && SharesSeat(b, ids) {
          assert BlocksConfirm(bookings, id, j);
          return true;
        }
        j := j + 1;
      }
      found := false;
    }

    /**
     * Holds the requested seats for five minutes: validates the request
     * against the catalog, refuses seats another active booking of the show
     * claims, and otherwise stores one HELD booking with priced seats.
     */
    method Hold(cat: Catalog, req: HoldRequest, now: int) returns (r: Result<HoldReceipt, Failure>)
      requires Valid()
      modifies this
      ensures Valid()
      ensures r == HoldStep(cat, old(bookings), req, now).result
      ensures bookings == HoldStep(cat, old(bookings), req, now).store
    {
      if !Complete(req) {
        return Failure(MissingFields);
      }
      if req.theatreId !in cat.theatres {
        return Failure(TheatreNotFound);
      }
      var found := FindScreen(cat.theatres[req.theatreId].screens, req.screenId);
      if found.None? {
        return Failure(ScreenNotFound);
      }
      var screen := found.value;
      if req.showId !in cat.shows {
        return Failure(ShowNotFound);
      }
      var show := cat.shows[req.showId];
      if show.theatreId != req.theatreId || show.screenId != req.screenId || show.movieId != req.movieId {
        return Failure(ShowMismatch);
      }
      if req.movieId !in cat.movies {
        return Failure(MovieNotFound);
      }
      var movie := cat.movies[req.movieId];

      var bad := CheckSeats(SeatTypeIndex(screen.seatMap), req.seats);
      if bad.Some? {
        return Failure(bad.value);
      }

      var blocked := FindHoldConflict(req.showId, RequestedIds(req.seats), now);
      if blocked {
        return Failure(SeatsUnavailable);
      }

      var priced := PriceSeats(EffectiveBase(movie.baseSeatPrice), show.seatTypeMultipliers, req.seats);
      var total := Total(priced);
      var booking := Booking(|bookings|, req.theatreId, req.screenId, req.showId, req.movieId,
                             if req.userId == "" then None else Some(req.userId),
                             priced, Held, now + HoldWindowMs, total);
      assert booking == NewHold(|bookings|, Venue(screen, show, movie), req, now);
      bookings := bookings + [booking];
      r := Success(HoldReceipt(booking.id, booking.holdExpiresAt, booking.totalAmount));
    }

    /**
     * Confirms a held booking (payment success): succeeds at once for a
     * booking already CONFIRMED, refuses other non-HELD bookings and expired
     * holds, re-checks the other CONFIRMED bookings of the show, and only then
     * marks this booking CONFIRMED.
     */
    method Confirm(bookingId: Option<BookingId>, now: int) returns (r: Result<Confirmation, Failure>)
      requires Valid()
      modifies this
      ensures Valid()
      ensures r == ConfirmStep(old(bookings), bookingId, now).result
      ensures bookings == ConfirmStep(old(bookings), bookingId, now).store
    {
      if bookingId.None? {
        return Failure(BookingIdRequired);
      }
      var id := bookingId.value;
      if id >= |bookings| {
        return Failure(BookingNotFound);
      }
      var booking := bookings[id];
      if booking.status == Confirmed {
        return Success(Confirmation(id, true));
      }
      if booking.status != Held {
        return Failure(NotHeld);
      }
      if booking.holdExpiresAt <= now {
        return Failure(HoldExpired);
      }
      var clash := FindConfirmedOverlap(id);
      if clash {
        return Failure(SeatsAlreadyBooked);
      }
      bookings := bookings[id := booking.(status := Confirmed)];
      r := Success(Confirmation(id, false));
    }

    /** Fetches a booking by id; reads the store and changes nothing. */
    method Get(id: BookingId) returns (r: Result<Booking, Failure>)
      requires Valid()
      ensures r.Success? <==> id < |bookings|
      ensures r.Success? ==> r.value == bookings[id] && r.value.id == id
      ensures r.Failure? ==> r.error == BookingNotFound
    {
      if id < |bookings| {
        r := Success(bookings[id]);
      } else {
        r := Failure(BookingNotFound);
      }
    }
  }
}
