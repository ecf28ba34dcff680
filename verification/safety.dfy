/**
 * What the reservation engine guarantees across operations: no seat of a show
 * is ever claimed by two active bookings, bookings stay well formed, confirm
 * is idempotent, and the validation ladder is checked in the controller's
 * order before any booking is created.
 */
module Safety {
  import opened Wrappers
  import opened Catalog
  import opened Pricing
  import opened Reservations

  // ---------------------------------------------------------------------------
  // At most one active booking per (show, seat)
  // ---------------------------------------------------------------------------

  /** The invariant read in both directions: two different active bookings of a show share no seat. */
  lemma Exclusive(bs: seq<Booking>, now: int, i: int, j: int, seatId: string)
    requires OneActivePerSeat(bs, now)
    requires 0 <= i < |bs| && 0 <= j < |bs| && i != j
    requires Active(bs[i], now) && Active(bs[j], now) && bs[i].showId == bs[j].showId
    requires HasSeat(bs[i], seatId)
    ensures !HasSeat(bs[j], seatId)
  {
  }

  /** A successful hold adds an active booking whose seats no active booking of the show claims. */
  lemma {:induction false} HoldPreservesOneActive(cat: Catalog, bs: seq<Booking>, req: HoldRequest, now: int)
    requires OneActivePerSeat(bs, now)
    ensures OneActivePerSeat(HoldStep(cat, bs, req, now).store, now)
  {
    var v := ValidateHold(cat, req);
    var ids := RequestedIds(req.seats);
    if v.Success? && !HoldBlocked(bs, req.showId, ids, now) {
      var b := NewHold(|bs|, v.value, req, now);
      var bs' := bs + [b];
      assert HoldStep(cat, bs, req, now).store == bs';
      forall i, j, seatId | 0 <= i < j < |bs'| && Active(bs'[i], now) && Active(bs'[j], now)
                             && bs'[i].showId == bs'[j].showId && HasSeat(bs'[i], seatId)
        ensures !HasSeat(bs'[j], seatId)
      {
        if j == |bs| {
          assert bs'[i] == bs[i] && bs'[j] == b;
          assert !BlocksHold(bs[i], req.showId, ids, now);
          var m :| 0 <= m < |bs[i].seats| && bs[i].seats[m].seatId == seatId;
          assert seatId !in ids;
          forall k | 0 <= k < |b.seats| ensures b.seats[k].seatId != seatId {
            assert b.seats[k].seatId == ids[k];
          }
        } else {
          assert bs'[i] == bs[i] && bs'[j] == bs[j];
        }
      }
    }
  }

  /** Confirming turns an unexpired hold into a confirmation: the set of active claims does not change. */
  lemma {:induction false} ConfirmPreservesOneActive(bs: seq<Booking>, bookingId: Option<BookingId>, now: int)
    requires OneActivePerSeat(bs, now)
    ensures OneActivePerSeat(ConfirmStep(bs, bookingId, now).store, now)
  {
    var bs' := ConfirmStep(bs, bookingId, now).store;
    if bs' != bs {
      var id := bookingId.value;
      assert bs[id].holdExpiresAt > now by {
        assert ConfirmStep(bs, bookingId, now).store == bs[id := bs[id].(status := Confirmed)];
      }
      forall i | 0 <= i < |bs|
        ensures Active(bs'[i], now) == Active(bs[i], now)
        ensures bs'[i].showId == bs[i].showId && bs'[i].seats == bs[i].seats
      {
      }
      forall i, j, seatId | 0 <= i < j < |bs'| && Active(bs'[i], now) && Active(bs'[j], now)
                             && bs'[i].showId == bs'[j].showId && HasSeat(bs'[i], seatId)
        ensures !HasSeat(bs'[j], seatId)
      {
        assert HasSeat(bs[i], seatId);
        assert HasSeat(bs'[j], seatId) == HasSeat(bs[j], seatId);
      }
    }
  }

  /** Time passing only lets holds expire, so the invariant survives a later clock. */
  lemma ClockPreservesOneActive(bs: seq<Booking>, now: int, later: int)
    requires now <= later
    requires OneActivePerSeat(bs, now)
    ensures OneActivePerSeat(bs, later)
  {
  }

  /** From a state with the invariant, the confirm re-check can never find a clash for a live hold. */
  lemma {:induction false} RecheckNeverFires(bs: seq<Booking>, id: BookingId, now: int)
    requires OneActivePerSeat(bs, now)
    requires id < |bs| && bs[id].status == Held && bs[id].holdExpiresAt > now
    ensures !ConfirmBlocked(bs, id)
  {
    var ids := RequestedIds(Unpriced(bs[id].seats));
    forall j | 0 <= j < |bs| ensures !BlocksConfirm(bs, id, j) {
      if j != id && bs[j].showId == bs[id].showId && bs[j].status == Confirmed {
        forall k | 0 <= k < |bs[j].seats| ensures bs[j].seats[k].seatId !in ids {
          var seatId := bs[j].seats[k].seatId;
          assert HasSeat(bs[j], seatId);
          Exclusive(bs, now, j, id, seatId);
          forall m | 0 <= m < |ids| ensures ids[m] != seatId {
            assert ids[m] == bs[id].seats[m].seatId;
          }
        }
      }
    }
  }

  /** Hence, from a state with the invariant, confirming a live hold always succeeds and changes only its status. */
  lemma ConfirmLiveHoldSucceeds(bs: seq<Booking>, id: BookingId, now: int)
    requires OneActivePerSeat(bs, now)
    requires id < |bs| && bs[id].status == Held && bs[id].holdExpiresAt > now
    ensures ConfirmStep(bs, Some(id), now)
            == Step(Success(Confirmation(id, false)), bs[id := bs[id].(status := Confirmed)])
  {
    RecheckNeverFires(bs, id, now);
  }

  // ---------------------------------------------------------------------------
  // Other guarantees of hold and confirm
  // ---------------------------------------------------------------------------

  /** Holds and confirms keep every booking non-empty with the sum of its prices as its total. */
  lemma HoldPreservesWellFormed(cat: Catalog, bs: seq<Booking>, req: HoldRequest, now: int)
    requires WellFormed(bs)
    ensures WellFormed(HoldStep(cat, bs, req, now).store)
  {
  }

  lemma ConfirmPreservesWellFormed(bs: seq<Booking>, bookingId: Option<BookingId>, now: int)
    requires WellFormed(bs)
    ensures WellFormed(ConfirmStep(bs, bookingId, now).store)
  {
  }

  /** Holds keep ids equal to positions: the new booking gets the next id. */
  lemma HoldKeepsIds(cat: Catalog, bs: seq<Booking>, req: HoldRequest, now: int)
    requires IdsArePositions(bs)
    ensures IdsArePositions(HoldStep(cat, bs, req, now).store)
  {
  }

  /**
   * A successful hold stores exactly one new booking, HELD for five minutes,
   * whose seats are the requested ones in request order with their prices,
   * whose total is their sum and is the returned total; older bookings are untouched.
   */
  lemma HoldSuccess(cat: Catalog, bs: seq<Booking>, req: HoldRequest, now: int)
    requires HoldStep(cat, bs, req, now).result.Success?
    ensures var s := HoldStep(cat, bs, req, now);
            var b := s.store[|bs|];
            var venue := ValidateHold(cat, req).value;
            && s.store == bs + [b]
            && b.status == Held && b.holdExpiresAt == now + HoldWindowMs
            && b.showId == req.showId && b.theatreId == req.theatreId
            && b.screenId == req.screenId && b.movieId == req.movieId
            && |b.seats| == |req.seats|
            && (forall k :: 0 <= k < |req.seats| ==>
                  b.seats[k].seatId == req.seats[k].seatId && b.seats[k].seatType == req.seats[k].seatType
                  && b.seats[k].price == ComputeSeatPrice(EffectiveBase(venue.movie.baseSeatPrice),
                                                          venue.show.seatTypeMultipliers, req.seats[k].seatType))
            && b.totalAmount == Total(b.seats) && s.result.value.totalAmount == b.totalAmount
            && s.result.value.bookingId == b.id
  {
  }

  /** Every seat of a successful hold exists in the screen's seat map with the requested type. */
  lemma {:induction false} ValidatedSeatsInSeatMap(cat: Catalog, req: HoldRequest, k: int)
    requires ValidateHold(cat, req).Success?
    requires 0 <= k < |req.seats|
    ensures var seatMap := ValidateHold(cat, req).value.screen.seatMap;
            exists i :: 0 <= i < |seatMap| && seatMap[i].seatId == req.seats[k].seatId
                        && seatMap[i].seatType == req.seats[k].seatType
  {
    var seatMap := ValidateHold(cat, req).value.screen.seatMap;
    assert SeatOk(SeatTypeIndex(seatMap), req.seats[k]);
    IndexedTypeInSeatMap(seatMap, req.seats[k].seatId);
  }

  /** A show that does not match the request is reported before the movie is even looked up. */
  lemma MismatchBeforeMovie(cat: Catalog, req: HoldRequest)
    requires Complete(req) && req.theatreId in cat.theatres
    requires FindScreen(cat.theatres[req.theatreId].screens, req.screenId).Some?
    requires req.showId in cat.shows
    requires var show := cat.shows[req.showId];
             show.theatreId != req.theatreId || show.screenId != req.screenId || show.movieId != req.movieId
    ensures forall bs: seq<Booking>, now: int :: HoldStep(cat, bs, req, now) == Step(Failure(ShowMismatch), bs)
  {
  }

  /** A bad seat is reported whatever the bookings are: seats are checked before the conflict query. */
  lemma SeatsCheckedBeforeConflicts(cat: Catalog, bs: seq<Booking>, req: HoldRequest, now: int)
    requires ValidateHold(cat, req).Failure?
    ensures HoldStep(cat, bs, req, now) == Step(Failure(ValidateHold(cat, req).error), bs)
  {
  }

  /** Bookings of other shows never block a hold: availability is per show. */
  lemma OtherShowsNeverBlock(bs: seq<Booking>, showId: string, ids: seq<string>, now: int)
    requires forall i :: 0 <= i < |bs| ==> bs[i].showId != showId
    ensures !HoldBlocked(bs, showId, ids, now)
  {
  }

  /** CANCELLED, EXPIRED and expired HELD bookings never block a hold. */
  lemma InactiveNeverBlocks(b: Booking, showId: string, ids: seq<string>, now: int)
    requires b.status == Cancelled || b.status == Expired || (b.status == Held && b.holdExpiresAt <= now)
    ensures !BlocksHold(b, showId, ids, now)
  {
  }

  /** A second confirm of a confirmed booking answers "already confirmed" and changes nothing. */
  lemma ConfirmIdempotent(bs: seq<Booking>, id: BookingId, now: int, later: int)
    requires ConfirmStep(bs, Some(id), now).result.Success?
    ensures var s := ConfirmStep(bs, Some(id), now).store;
            ConfirmStep(s, Some(id), later) == Step(Success(Confirmation(id, true)), s)
  {
  }

  /** Confirming an expired hold fails with HoldExpired, and the hold no longer blocks its seats. */
  lemma ExpiredHoldReleasesSeats(bs: seq<Booking>, id: BookingId, now: int, ids: seq<string>)
    requires id < |bs| && bs[id].status == Held && bs[id].holdExpiresAt <= now
    ensures ConfirmStep(bs, Some(id), now) == Step(Failure(HoldExpired), bs)
    ensures !BlocksHold(bs[id], bs[id].showId, ids, now)
  {
  }
}
