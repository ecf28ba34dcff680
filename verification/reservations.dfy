/**
 * The reservation engine as functions of (catalog, bookings, request, clock):
 * the booking record, the failures the engine reports, the active-booking and
 * conflict predicates, and the outcome of the hold and confirm operations.
 * The store class in module Store runs these operations step by step and is
 * proved to agree with the functions here.
 */
module Reservations {
  import opened Wrappers
  import opened Catalog
  import opened Pricing

  /** Booking ids are handed out in creation order, starting at 0. */
  type BookingId = nat

  datatype Status = Held | Confirmed | Cancelled | Expired

  /** A stored booking. Timestamps are milliseconds since the epoch. */
  datatype Booking = Booking(id: BookingId,
                             theatreId: string, screenId: string, showId: string, movieId: string,
                             userId: Option<string>,
                             seats: seq<PricedSeat>,
                             status: Status,
                             holdExpiresAt: int,
                             totalAmount: int)

  /** A hold request; an empty string stands for a missing or falsy field. */
  datatype HoldRequest = HoldRequest(theatreId: string, screenId: string, showId: string, movieId: string,
                                     seats: seq<SeatRequest>, userId: string)

  /** What a successful hold returns to the client. */
  datatype HoldReceipt = HoldReceipt(bookingId: BookingId, holdExpiresAt: int, totalAmount: int)

  /** What a successful confirm returns; `alreadyConfirmed` marks the idempotent answer. */
  datatype Confirmation = Confirmation(bookingId: BookingId, alreadyConfirmed: bool)

  /** Every way the engine can refuse a request, one per response of the controller. */
  datatype Failure =
    | MissingFields | TheatreNotFound | ScreenNotFound | ShowNotFound | ShowMismatch | MovieNotFound
    | SeatNotFound(seatId: string) | SeatTypeMismatch(seatId: string) | SeatsUnavailable
    | BookingIdRequired | BookingNotFound | NotHeld | HoldExpired | SeatsAlreadyBooked

  /** The error taxonomy a client reacts to. */
  datatype ErrorKind = InvalidRequest | NotFound | Conflict | InvalidState | Gone

  function KindOf(f: Failure): ErrorKind
  {
    match f
    case MissingFields | ShowMismatch | SeatNotFound(_) | SeatTypeMismatch(_) | BookingIdRequired => InvalidRequest
    case TheatreNotFound | ScreenNotFound | ShowNotFound | MovieNotFound | BookingNotFound => NotFound
    case SeatsUnavailable | SeatsAlreadyBooked => Conflict
    case NotHeld => InvalidState
    case HoldExpired => Gone
  }

  /** The HTTP status the controller answers with; a booking not in HELD state is a 400. */
  function HttpStatus(f: Failure): (code: int)
    ensures code == 400 <==> KindOf(f) == InvalidRequest || KindOf(f) == InvalidState
    ensures code == 404 <==> KindOf(f) == NotFound
    ensures code == 409 <==> KindOf(f) == Conflict
    ensures code == 410 <==> KindOf(f) == Gone
  {
    match f
    case MissingFields | ShowMismatch | SeatNotFound(_) | SeatTypeMismatch(_) | BookingIdRequired | NotHeld => 400
    case TheatreNotFound | ScreenNotFound | ShowNotFound | MovieNotFound | BookingNotFound => 404
    case SeatsUnavailable | SeatsAlreadyBooked => 409
    case HoldExpired => 410
  }

  /** The hold window: 5 minutes, in milliseconds. */
  const HoldWindowMs: int := 5 * 60 * 1000

  // ---------------------------------------------------------------------------
  // Seats, activity and conflicts
  // ---------------------------------------------------------------------------

  /** The ids of the requested seats, in request order. */
  function RequestedIds(seats: seq<SeatRequest>): (ids: seq<string>)
    ensures |ids| == |seats| && forall i :: 0 <= i < |seats| ==> ids[i] == seats[i].seatId
  {
    seq(|seats|, i requires 0 <= i < |seats| => seats[i].seatId)
  }

  /** The seats a booking was requested with: its priced seats without their prices. */
  function Unpriced(seats: seq<PricedSeat>): (r: seq<SeatRequest>)
    ensures |r| == |seats|
    ensures forall i :: 0 <= i < |seats| ==> r[i] == SeatRequest(seats[i].seatId, seats[i].seatType)
  {
    seq(|seats|, i requires 0 <= i < |seats| => SeatRequest(seats[i].seatId, seats[i].seatType))
  }

  /** The booking names the seat. */
  predicate HasSeat(b: Booking, seatId: string)
  {
    exists k :: 0 <= k < |b.seats| && b.seats[k].seatId == seatId
  }

  /** The booking names at least one of the ids. */
  predicate SharesSeat(b: Booking, ids: seq<string>)
  {
    exists k :: 0 <= k < |b.seats| && b.seats[k].seatId in ids
  }

  /** A booking claims its seats when it is CONFIRMED, or HELD and not yet expired at `now`. */
  predicate Active(b: Booking, now: int)
  {
    b.status == Confirmed || (b.status == Held && b.holdExpiresAt > now)
  }

  /** The booking stands in the way of a hold of `ids` on `showId` at `now`. */
  predicate BlocksHold(b: Booking, showId: string, ids: seq<string>, now: int)
  {
    b.showId == showId && SharesSeat(b, ids) && Active(b, now)
  }

  /**
   * Some stored booking stands in the way of the hold. The store query reads
   * it as: same show, status HELD or CONFIRMED, a seat among the ids, and
   * either CONFIRMED or HELD with an expiry after `now`.
   */
  predicate HoldBlocked(bs: seq<Booking>, showId: string, ids: seq<string>, now: int)
    ensures HoldBlocked(bs, showId, ids, now) <==>
              exists i :: 0 <= i < |bs| && bs[i].showId == showId
                          && (bs[i].status == Held || bs[i].status == Confirmed)
                          && SharesSeat(bs[i], ids)
                          && (bs[i].status == Confirmed || (bs[i].status == Held && bs[i].holdExpiresAt > now))
  {
    exists i :: 0 <= i < |bs| && BlocksHold(bs[i], showId, ids, now)
  }

  /** Booking j is another CONFIRMED booking of the same show sharing a seat with booking id. */
  predicate BlocksConfirm(bs: seq<Booking>, id: int, j: int)
    requires 0 <= id < |bs| && 0 <= j < |bs|
  {
    j != id && bs[j].showId == bs[id].showId && bs[j].status == Confirmed
    && SharesSeat(bs[j], RequestedIds(Unpriced(bs[id].seats)))
  }

  /**
   * The re-check confirm runs before it moves a hold to CONFIRMED: some other
   * CONFIRMED booking of the same show names a seat this booking names.
   */
  predicate ConfirmBlocked(bs: seq<Booking>, id: int)
    requires 0 <= id < |bs|
    ensures ConfirmBlocked(bs, id) <==>
              exists j, seatId :: 0 <= j < |bs| && j != id && bs[j].showId == bs[id].showId
                                  && bs[j].status == Confirmed && HasSeat(bs[j], seatId) && HasSeat(bs[id], seatId)
  {
    ConfirmBlockedBySharedSeat(bs, id);
    exists j :: 0 <= j < |bs| && BlocksConfirm(bs, id, j)
  }

  /** Blocking a confirm means sharing a named seat with another CONFIRMED booking of the show. */
  lemma ConfirmBlockedBySharedSeat(bs: seq<Booking>, id: int)
    requires 0 <= id < |bs|
    ensures (exists j :: 0 <= j < |bs| && BlocksConfirm(bs, id, j)) <==>
            exists j, seatId :: 0 <= j < |bs| && j != id && bs[j].showId == bs[id].showId
                                && bs[j].status == Confirmed && HasSeat(bs[j], seatId) && HasSeat(bs[id], seatId)
  {
    SeatIdsOfBooking(bs[id]);
    var ids := RequestedIds(Unpriced(bs[id].seats));
    if j :| 0 <= j < |bs| && BlocksConfirm(bs, id, j) {
      var k :| 0 <= k < |bs[j].seats| && bs[j].seats[k].seatId in ids;
      var seatId := bs[j].seats[k].seatId;
      assert HasSeat(bs[j], seatId) && HasSeat(bs[id], seatId);
    }
    if j, seatId :| 0 <= j < |bs| && j != id && bs[j].showId == bs[id].showId
                    && bs[j].status == Confirmed && HasSeat(bs[j], seatId) && HasSeat(bs[id], seatId) {
      var k :| 0 <= k < |bs[j].seats| && bs[j].seats[k].seatId == seatId;
      assert BlocksConfirm(bs, id, j);
    }
  }

  /** The ids of a booking's unpriced seats are exactly the seats it names. */
  lemma SeatIdsOfBooking(b: Booking)
    ensures forall seatId :: seatId in RequestedIds(Unpriced(b.seats)) <==> HasSeat(b, seatId)
  {
    var ids := RequestedIds(Unpriced(b.seats));
    forall seatId | seatId in ids ensures HasSeat(b, seatId) {
      var m :| 0 <= m < |ids| && ids[m] == seatId;
      assert b.seats[m].seatId == seatId;
    }
    forall seatId | HasSeat(b, seatId) ensures seatId in ids {
      var k :| 0 <= k < |b.seats| && b.seats[k].seatId == seatId;
      assert ids[k] == seatId;
    }
  }

  /** Booking ids are positions in the store. */
  predicate IdsArePositions(bs: seq<Booking>)
  {
    forall i :: 0 <= i < |bs| ==> bs[i].id == i
  }

  /** The safety invariant: at most one active booking per (show, seat) at `now`. */
  ghost predicate OneActivePerSeat(bs: seq<Booking>, now: int)
  {
    forall i, j, seatId ::
      (0 <= i < j < |bs| && Active(bs[i], now) && Active(bs[j], now)
       && bs[i].showId == bs[j].showId && HasSeat(bs[i], seatId)) ==> !HasSeat(bs[j], seatId)
  }

  /** Every booking has seats and its total is the sum of its seat prices. */
  ghost predicate WellFormed(bs: seq<Booking>)
  {
    forall i :: 0 <= i < |bs| ==> |bs[i].seats| > 0 && bs[i].totalAmount == Total(bs[i].seats)
  }

  // ---------------------------------------------------------------------------
  // Hold
  // ---------------------------------------------------------------------------

  /** Every required field is present and at least one seat is requested. */
  predicate Complete(req: HoldRequest)
  {
    req.theatreId != "" && req.screenId != "" && req.showId != "" && req.movieId != "" && |req.seats| > 0
  }

  /** The seat exists in the index with the requested type. */
  predicate SeatOk(index: map<string, SeatType>, s: SeatRequest)
  {
    s.seatId in index && index[s.seatId] == s.seatType
  }

  /** The failure reported for a seat that is not SeatOk. */
  function SeatFailure(index: map<string, SeatType>, s: SeatRequest): Failure
  {
    if s.seatId !in index then SeatNotFound(s.seatId) else SeatTypeMismatch(s.seatId)
  }

  /** The failure of the first offending seat in request order, if there is one. */
  function SeatCheck(index: map<string, SeatType>, seats: seq<SeatRequest>): (r: Option<Failure>)
    ensures r.None? <==> forall i :: 0 <= i < |seats| ==> SeatOk(index, seats[i])
    ensures r.Some? ==> exists i :: 0 <= i < |seats| && !SeatOk(index, seats[i])
                                    && (forall k :: 0 <= k < i ==> SeatOk(index, seats[k]))
                                    && r.value == SeatFailure(index, seats[i])
  {
    if seats == [] then None
    else if !SeatOk(index, seats[0]) then Some(SeatFailure(index, seats[0]))
    else
      var r := SeatCheck(index, seats[1..]);
      assert forall i :: 1 <= i < |seats| ==> seats[i] == seats[1..][i - 1];
      if r.Some? then
        var i :| 0 <= i < |seats[1..]| && !SeatOk(index, seats[1..][i])
                 && (forall k :: 0 <= k < i ==> SeatOk(index, seats[1..][k]))
                 && r.value == SeatFailure(index, seats[1..][i]);
        assert !SeatOk(index, seats[i + 1]) && r.value == SeatFailure(index, seats[i + 1]);
        r
      else
        r
  }

  /** The request names an existing theatre that has a screen with the requested id. */
  predicate ScreenExists(cat: Catalog, req: HoldRequest)
  {
    req.theatreId in cat.theatres && FindScreen(cat.theatres[req.theatreId].screens, req.screenId).Some?
  }

  /** The show belongs to the requested theatre, screen and movie. */
  predicate ShowMatches(show: Show, req: HoldRequest)
  {
    show.theatreId == req.theatreId && show.screenId == req.screenId && show.movieId == req.movieId
  }

  /** Every check before the seat check passes: fields, theatre, screen, show, match, movie. */
  predicate Resolved(cat: Catalog, req: HoldRequest)
  {
    Complete(req) && ScreenExists(cat, req) && req.showId in cat.shows
    && ShowMatches(cat.shows[req.showId], req) && req.movieId in cat.movies
  }

  /** The screen, show and movie a valid request resolves to. */
  datatype Venue = Venue(screen: Screen, show: Show, movie: Movie)

  /**
   * The validation ladder of a hold, in the controller's order: required
   * fields, theatre, screen of that theatre, show, show matching the
   * theatre/screen/movie of the request, movie, then every seat in order.
   */
  function ValidateHold(cat: Catalog, req: HoldRequest): (r: Result<Venue, Failure>)
    ensures r.Success? ==>
              && Complete(req)
              && req.theatreId in cat.theatres
              && r.value.screen in cat.theatres[req.theatreId].screens && r.value.screen.id == req.screenId
              && req.showId in cat.shows && r.value.show == cat.shows[req.showId]
              && r.value.show.theatreId == req.theatreId && r.value.show.screenId == req.screenId
              && r.value.show.movieId == req.movieId
              && req.movieId in cat.movies && r.value.movie == cat.movies[req.movieId]
              && forall i :: 0 <= i < |req.seats| ==> SeatOk(SeatTypeIndex(r.value.screen.seatMap), req.seats[i])
    ensures r.Failure? ==> KindOf(r.error) == InvalidRequest || KindOf(r.error) == NotFound
    // Each step of the ladder, in order, and the failure it reports.
    ensures !Complete(req) ==> r == Failure(MissingFields)
    ensures Complete(req) && req.theatreId !in cat.theatres ==> r == Failure(TheatreNotFound)
    ensures Complete(req) && req.theatreId in cat.theatres && !ScreenExists(cat, req) ==> r == Failure(ScreenNotFound)
    ensures Complete(req) && ScreenExists(cat, req) && req.showId !in cat.shows ==> r == Failure(ShowNotFound)
    ensures (Complete(req) && ScreenExists(cat, req) && req.showId in cat.shows
             && !ShowMatches(cat.shows[req.showId], req)) ==> r == Failure(ShowMismatch)
    ensures (Complete(req) && ScreenExists(cat, req) && req.showId in cat.shows
             && ShowMatches(cat.shows[req.showId], req) && req.movieId !in cat.movies) ==> r == Failure(MovieNotFound)
    ensures Resolved(cat, req) ==>
              var screen := FindScreen(cat.theatres[req.theatreId].screens, req.screenId).value;
              match SeatCheck(SeatTypeIndex(screen.seatMap), req.seats)
              case Some(f) => r == Failure(f)
              case None => r == Success(Venue(screen, cat.shows[req.showId], cat.movies[req.movieId]))
  {
    if !Complete(req) then Failure(MissingFields)
    else if req.theatreId !in cat.theatres then Failure(TheatreNotFound)
    else match FindScreen(cat.theatres[req.theatreId].screens, req.screenId)
      case None => Failure(ScreenNotFound)
      case Some(screen) =>
        if req.showId !in cat.shows then Failure(ShowNotFound)
        else
          var show := cat.shows[req.showId];
          if show.theatreId != req.theatreId || show.screenId != req.screenId || show.movieId != req.movieId then
            Failure(ShowMismatch)
          else if req.movieId !in cat.movies then Failure(MovieNotFound)
          else match SeatCheck(SeatTypeIndex(screen.seatMap), req.seats)
            case Some(f) => Failure(f)
            case None => Success(Venue(screen, show, cat.movies[req.movieId]))
  }

  /** The booking a successful hold stores. */
  function NewHold(id: BookingId, venue: Venue, req: HoldRequest, now: int): (b: Booking)
    ensures b.status == Held && b.holdExpiresAt == now + HoldWindowMs && b.id == id
    ensures b.showId == req.showId && b.theatreId == req.theatreId
    ensures b.screenId == req.screenId && b.movieId == req.movieId
    ensures b.userId == if req.userId == "" then None else Some(req.userId)
    ensures b.seats == PriceSeats(EffectiveBase(venue.movie.baseSeatPrice), venue.show.seatTypeMultipliers, req.seats)
    ensures b.totalAmount == Total(b.seats)
  {
    var priced := PriceSeats(EffectiveBase(venue.movie.baseSeatPrice), venue.show.seatTypeMultipliers, req.seats);
    Booking(id, req.theatreId, req.screenId, req.showId, req.movieId,
            if req.userId == "" then None else Some(req.userId),
            priced, Held, now + HoldWindowMs, Total(priced))
  }

  /** The result of an operation and the bookings after it. */
  datatype Step<T> = Step(result: Result<T, Failure>, store: seq<Booking>)

  /** The outcome of a hold: validation, then the conflict check, then one new HELD booking. */
  function HoldStep(cat: Catalog, bs: seq<Booking>, req: HoldRequest, now: int): (r: Step<HoldReceipt>)
    ensures r.result.Failure? ==> r.store == bs
    ensures r.result.Success? <==> ValidateHold(cat, req).Success? && !HoldBlocked(bs, req.showId, RequestedIds(req.seats), now)
    ensures r.result == Failure(SeatsUnavailable) <==>
              ValidateHold(cat, req).Success? && HoldBlocked(bs, req.showId, RequestedIds(req.seats), now)
    ensures r.result.Success? ==> |r.store| == |bs| + 1 && r.store[..|bs|] == bs
                                  && r.result.value.bookingId == |bs|
                                  && r.result.value.holdExpiresAt == now + HoldWindowMs
                                  && r.result.value.totalAmount == Total(r.store[|bs|].seats)
  {
    match ValidateHold(cat, req)
    case Failure(f) => Step(Failure(f), bs)
    case Success(venue) =>
      if HoldBlocked(bs, req.showId, RequestedIds(req.seats), now) then Step(Failure(SeatsUnavailable), bs)
      else
        var b := NewHold(|bs|, venue, req, now);
        assert (bs + [b])[..|bs|] == bs;
        Step(Success(HoldReceipt(b.id, b.holdExpiresAt, b.totalAmount)), bs + [b])
  }

  // ---------------------------------------------------------------------------
  // Confirm and fetch
  // ---------------------------------------------------------------------------

  /**
   * The outcome of a confirm: id present, booking found, already CONFIRMED
   * (idempotent success), not HELD, hold expired, re-check against the other
   * CONFIRMED bookings of the show, and only then the status change.
   */
  function ConfirmStep(bs: seq<Booking>, bookingId: Option<BookingId>, now: int): (r: Step<Confirmation>)
    // Each check of the ladder, in order, and its answer.
    ensures bookingId.None? ==> r == Step(Failure(BookingIdRequired), bs)
    ensures bookingId.Some? && bookingId.value >= |bs| ==> r == Step(Failure(BookingNotFound), bs)
    ensures bookingId.Some? && bookingId.value < |bs| && bs[bookingId.value].status == Confirmed ==>
              r == Step(Success(Confirmation(bookingId.value, true)), bs)
    ensures bookingId.Some? && bookingId.value < |bs|
            && (bs[bookingId.value].status == Cancelled || bs[bookingId.value].status == Expired) ==>
              r == Step(Failure(NotHeld), bs)
    ensures (bookingId.Some? && bookingId.value < |bs| && bs[bookingId.value].status == Held
             && bs[bookingId.value].holdExpiresAt <= now) ==> r == Step(Failure(HoldExpired), bs)
    ensures bookingId.Some? && bookingId.value < |bs| && bs[bookingId.value].status == Held
            && bs[bookingId.value].holdExpiresAt > now && !ConfirmBlocked(bs, bookingId.value) ==>
              r == Step(Success(Confirmation(bookingId.value, false)),
                        bs[bookingId.value := bs[bookingId.value].(status := Confirmed)])
    ensures r.store == bs || (bookingId.Some? && bookingId.value < |bs| &&
                              r.store == bs[bookingId.value := bs[bookingId.value].(status := Confirmed)])
    ensures r.store != bs ==> r.result == Success(Confirmation(bookingId.value, false))
                              && bs[bookingId.value].status == Held
    ensures r.result.Success? ==> bookingId.Some? && bookingId.value < |bs|
                                  && r.result.value.bookingId == bookingId.value
                                  && r.store[bookingId.value].status == Confirmed
    ensures r.result == Failure(SeatsAlreadyBooked) <==>
              bookingId.Some? && bookingId.value < |bs| && bs[bookingId.value].status == Held
              && bs[bookingId.value].holdExpiresAt > now && ConfirmBlocked(bs, bookingId.value)
  {
    if bookingId.None? then Step(Failure(BookingIdRequired), bs)
    else
      var id := bookingId.value;
      if id >= |bs| then Step(Failure(BookingNotFound), bs)
      else
        var b := bs[id];
        if b.status == Confirmed then Step(Success(Confirmation(id, true)), bs)
        else if b.status != Held then Step(Failure(NotHeld), bs)
        else if b.holdExpiresAt <= now then Step(Failure(HoldExpired), bs)
        else if ConfirmBlocked(bs, id) then Step(Failure(SeatsAlreadyBooked), bs)
        else
          var bs' := bs[id := b.(status := Confirmed)];
          assert bs' != bs by { assert bs'[id] != bs[id]; }
          Step(Success(Confirmation(id, false)), bs')
  }
}
