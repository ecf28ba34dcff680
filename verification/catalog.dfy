/**
 * The venue catalog the reservation engine reads: theatres with their screens
 * and seat maps, shows with their seat-type multiplier tables, and movies with
 * their base seat price. The engine never changes it.
 */
module Catalog {
  import opened Wrappers

  /** The four seat categories a seat map or a booked seat may carry. */
  datatype SeatType = Normal | Premium | Luxury | Recliner

  /** A seat of a screen's seat map (row and column are not used by the engine). */
  datatype Seat = Seat(seatId: string, seatType: SeatType)

  /** A screen is a sub-document of its theatre, found by its own id. */
  datatype Screen = Screen(id: string, seatMap: seq<Seat>)

  datatype Theatre = Theatre(screens: seq<Screen>)

  /** A scheduled show; a seat type missing from the table is priced at multiplier 1. */
  datatype Show = Show(theatreId: string, screenId: string, movieId: string,
                       seatTypeMultipliers: map<SeatType, real>)

  /** baseSeatPrice is a JavaScript number; 0 is falsy and is replaced by 1 when pricing. */
  datatype Movie = Movie(baseSeatPrice: real)

  /** The three collections, each keyed by document id. */
  datatype Catalog = Catalog(theatres: map<string, Theatre>,
                             shows: map<string, Show>,
                             movies: map<string, Movie>)

  /** The schema defaults of a show's multiplier table. */
  const DefaultMultipliers: map<SeatType, real> :=
    map[Normal := 1.0, Premium := 1.25, Luxury := 1.5, Recliner := 2.0]

  /** The first screen of the theatre whose id is `id` (Mongoose `screens.id(id)`). */
  function FindScreen(screens: seq<Screen>, id: string): (r: Option<Screen>)
    ensures r.None? <==> forall i :: 0 <= i < |screens| ==> screens[i].id != id
    ensures r.Some? ==> exists i :: 0 <= i < |screens| && screens[i] == r.value && r.value.id == id
                                    && forall k :: 0 <= k < i ==> screens[k].id != id
  {
    if screens == [] then None
    else if screens[0].id == id then Some(screens[0])
    else
      var r := FindScreen(screens[1..], id);
      assert r.Some? ==> exists i :: 1 <= i < |screens| && screens[i] == r.value && r.value.id == id
                                     && forall k :: 0 <= k < i ==> screens[k].id != id by {
        if r.Some? {
          var j :| 0 <= j < |screens[1..]| && screens[1..][j] == r.value && r.value.id == id
                   && forall k :: 0 <= k < j ==> screens[1..][k].id != id;
          assert forall k :: 0 <= k < j + 1 ==> screens[k].id != id by {
            forall k | 0 <= k < j + 1 ensures screens[k].id != id {
              if k > 0 { assert screens[k] == screens[1..][k - 1]; }
            }
          }
        }
      }
      r
  }

  /** True when some seat of the seat map is called `seatId`. */
  predicate InSeatMap(seatMap: seq<Seat>, seatId: string)
  {
    exists i :: 0 <= i < |seatMap| && seatMap[i].seatId == seatId
  }

  /** True when the seat at position i is the last one in the map with its id. */
  predicate LastWithId(seatMap: seq<Seat>, i: int)
    requires 0 <= i < |seatMap|
  {
    forall j :: i < j < |seatMap| ==> seatMap[j].seatId != seatMap[i].seatId
  }

  /**
   * The seat id to seat type lookup built from the seat map, entry by entry,
   * as a JavaScript Map is built from a list of pairs: a later entry with the
   * same id replaces an earlier one. Its keys double as the set of valid ids.
   */
  function SeatTypeIndex(seatMap: seq<Seat>): (index: map<string, SeatType>)
    ensures |seatMap| > 0 ==> seatMap[|seatMap| - 1].seatId in index
                              && index[seatMap[|seatMap| - 1].seatId] == seatMap[|seatMap| - 1].seatType
    decreases |seatMap|
  {
    if seatMap == [] then map[]
    else
      var n := |seatMap| - 1;
      SeatTypeIndex(seatMap[..n])[seatMap[n].seatId := seatMap[n].seatType]
  }

  /** The index knows exactly the seat ids of the seat map. */
  lemma {:induction false} SeatTypeIndexKeys(seatMap: seq<Seat>, id: string)
    ensures id in SeatTypeIndex(seatMap) <==> InSeatMap(seatMap, id)
    decreases |seatMap|
  {
    if seatMap != [] {
      var n := |seatMap| - 1;
      var front := seatMap[..n];
      SeatTypeIndexKeys(front, id);
      if InSeatMap(front, id) {
        var i :| 0 <= i < |front| && front[i].seatId == id;
        assert seatMap[i].seatId == id;
      }
      if InSeatMap(seatMap, id) && id != seatMap[n].seatId {
        var i :| 0 <= i < |seatMap| && seatMap[i].seatId == id;
        assert front[i].seatId == id;
      }
    }
  }

  /** For a duplicated id the index holds the type of its last occurrence. */
  lemma {:induction false} SeatTypeIndexLast(seatMap: seq<Seat>, i: int)
    requires 0 <= i < |seatMap| && LastWithId(seatMap, i)
    ensures seatMap[i].seatId in SeatTypeIndex(seatMap)
    ensures SeatTypeIndex(seatMap)[seatMap[i].seatId] == seatMap[i].seatType
    decreases |seatMap|
  {
    var n := |seatMap| - 1;
    if i < n {
      var front := seatMap[..n];
      assert seatMap[n].seatId != seatMap[i].seatId;
      assert LastWithId(front, i) by {
        forall j | i < j < n ensures front[j].seatId != front[i].seatId {
          assert seatMap[j].seatId != seatMap[i].seatId;
        }
      }
      SeatTypeIndexLast(front, i);
    }
  }

  /** Lookup of a seat id in the index agrees with the seat map: a seat with that id and type exists. */
  lemma {:induction false} IndexedTypeInSeatMap(seatMap: seq<Seat>, id: string)
    requires id in SeatTypeIndex(seatMap)
    ensures exists i :: 0 <= i < |seatMap| && seatMap[i].seatId == id
                        && seatMap[i].seatType == SeatTypeIndex(seatMap)[id]
  {
    SeatTypeIndexKeys(seatMap, id);
    var i :| 0 <= i < |seatMap| && seatMap[i].seatId == id;
    // Walk forward to the last seat with this id.
    while !LastWithId(seatMap, i)
      invariant 0 <= i < |seatMap| && seatMap[i].seatId == id
      decreases |seatMap| - i
    {
      var j :| i < j < |seatMap| && seatMap[j].seatId == seatMap[i].seatId;
      i := j;
    }
    SeatTypeIndexLast(seatMap, i);
  }
}
