/** Reservations (`Prenotazione`) and the date-overlap availability test.
    Days are integer day numbers. */
module Bookings {
  import opened Wrappers

  /** Reservation states. Only `CANCELLATA`, `RIFIUTATA` and `PENDENTE`
      are spelled out by the serializers and the booking form; the others
      complete the life cycle. */
  datatype State = Pendente | Confermata | Pagata | Completata | Cancellata | Rifiutata

  datatype Booking = Booking(
    id: int,
    alloggio: int,
    checkIn: int,
    checkOut: int,
    numeroOspiti: int,
    state: State)

  /** Every state except `CANCELLATA` and `RIFIUTATA` holds the dates. */
  predicate HoldsDates(s: State) {
    s != Cancellata && s != Rifiutata
  }

  /** Half-open overlap of `[b.checkIn, b.checkOut)` with `[checkIn, checkOut)`:
      `check_in__lt=check_out, check_out__gt=check_in`. */
  predicate Overlaps(b: Booking, checkIn: int, checkOut: int) {
    b.checkIn < checkOut && b.checkOut > checkIn
  }

  /** `b` makes listing `alloggio` unavailable for `[checkIn, checkOut)`,
      unless it is the booking excluded from the test. */
  predicate Blocks(b: Booking, alloggio: int, checkIn: int, checkOut: int, exclude: Option<int>) {
    && b.alloggio == alloggio
    && Overlaps(b, checkIn, checkOut)
    && HoldsDates(b.state)
    && exclude != Some(b.id)
  }

  /** `Prenotazione.check_disponibilita(alloggio, check_in, check_out, exclude_id)`,
      and with no excluded id the query of `get_disponibilita`: true when no
      booking blocks the stay. */
  function IsFree(db: seq<Booking>, alloggio: int, checkIn: int, checkOut: int,
                  exclude: Option<int>): (free: bool)
    ensures free <==> forall i :: 0 <= i < |db| ==> !Blocks(db[i], alloggio, checkIn, checkOut, exclude)
  {
    if db == [] then true
    else !Blocks(db[0], alloggio, checkIn, checkOut, exclude)
         && IsFree(db[1..], alloggio, checkIn, checkOut, exclude)
  }

  // ---------------------------------------------------------------------------
  // Properties of the availability test

  /** The overlap test is symmetric: it does not matter which stay is the
      stored one. */
  lemma OverlapSymmetric(a: Booking, b: Booking)
    ensures Overlaps(a, b.checkIn, b.checkOut) <==> Overlaps(b, a.checkIn, a.checkOut)
  {
  }

  /** A stay that ends on the arrival day, or starts on the departure day,
      never blocks. */
  lemma BackToBackNeverBlocks(b: Booking, alloggio: int, checkIn: int, checkOut: int,
                              exclude: Option<int>)
    requires b.checkOut == checkIn || b.checkIn == checkOut
    requires checkIn < checkOut && b.checkIn < b.checkOut
    ensures !Blocks(b, alloggio, checkIn, checkOut, exclude)
  {
  }

  /** Cancelled and refused bookings never block. */
  lemma ReleasedNeverBlocks(b: Booking, alloggio: int, checkIn: int, checkOut: int,
                            exclude: Option<int>)
    requires b.state == Cancellata || b.state == Rifiutata
    ensures !Blocks(b, alloggio, checkIn, checkOut, exclude)
  {
  }

  function OfListing(db: seq<Booking>, alloggio: int): (r: seq<Booking>)
    ensures forall i :: 0 <= i < |r| ==> r[i].alloggio == alloggio && r[i] in db
    ensures forall i :: 0 <= i < |db| && db[i].alloggio == alloggio ==> db[i] in r
  {
    if db == [] then []
    else if db[0].alloggio == alloggio then [db[0]] + OfListing(db[1..], alloggio)
    else OfListing(db[1..], alloggio)
  }

  /** Bookings of other listings play no part in the answer. */
  lemma OtherListingsIrrelevant(db: seq<Booking>, alloggio: int, checkIn: int, checkOut: int,
                                exclude: Option<int>)
    ensures IsFree(db, alloggio, checkIn, checkOut, exclude)
            == IsFree(OfListing(db, alloggio), alloggio, checkIn, checkOut, exclude)
  {
    var r := OfListing(db, alloggio);
    if !IsFree(db, alloggio, checkIn, checkOut, exclude) {
      var i :| 0 <= i < |db| && Blocks(db[i], alloggio, checkIn, checkOut, exclude);
      var j :| 0 <= j < |r| && r[j] == db[i];
    }
  }

  /** Storing a booking that cannot block the stay leaves the answer as it was. */
  lemma NonBlockingAdditionIrrelevant(db: seq<Booking>, b: Booking, alloggio: int,
                                      checkIn: int, checkOut: int, exclude: Option<int>)
    requires !Blocks(b, alloggio, checkIn, checkOut, exclude)
    ensures IsFree(db + [b], alloggio, checkIn, checkOut, exclude)
            == IsFree(db, alloggio, checkIn, checkOut, exclude)
  {
    var db' := db + [b];
    assert forall i :: 0 <= i < |db| ==> db'[i] == db[i];
  }

  /** Worked example: a confirmed stay on days 100..104 refuses 103..107
      and admits the back-to-back stay 104..107. */
  lemma ExampleOverlap()
    ensures !IsFree([Booking(1, 7, 100, 104, 2, Confermata)], 7, 103, 107, None)
    ensures IsFree([Booking(1, 7, 100, 104, 2, Confermata)], 7, 104, 107, None)
  {
    var db := [Booking(1, 7, 100, 104, 2, Confermata)];
    assert Blocks(db[0], 7, 103, 107, None);
  }

  // ---------------------------------------------------------------------------
  // The overlap invariant

  /** No two date-holding bookings of one listing overlap. */
  predicate NoDoubleBooking(db: seq<Booking>) {
    forall i, j ::
      0 <= i < |db| && 0 <= j < |db| && i != j
      && db[i].alloggio == db[j].alloggio && HoldsDates(db[i].state) && HoldsDates(db[j].state)
      ==> !Overlaps(db[i], db[j].checkIn, db[j].checkOut)
  }

  predicate UniqueIds(db: seq<Booking>) {
    forall i, j :: 0 <= i < |db| && 0 <= j < |db| && i != j ==> db[i].id != db[j].id
  }

  /** Storing a booking whose dates passed the availability test keeps the
      invariant. */
  lemma AddKeepsNoDoubleBooking(db: seq<Booking>, b: Booking)
    requires NoDoubleBooking(db)
    requires IsFree(db, b.alloggio, b.checkIn, b.checkOut, None)
    ensures NoDoubleBooking(db + [b])
  {
    var db' := db + [b];
    forall i, j |
      && 0 <= i < |db'| && 0 <= j < |db'| && i != j
      && db'[i].alloggio == db'[j].alloggio && HoldsDates(db'[i].state) && HoldsDates(db'[j].state)
      ensures !Overlaps(db'[i], db'[j].checkIn, db'[j].checkOut)
    {
      if i == |db| {
        assert !Blocks(db[j], b.alloggio, b.checkIn, b.checkOut, None);
      } else if j == |db| {
        assert !Blocks(db[i], b.alloggio, b.checkIn, b.checkOut, None);
      } else {
        assert db'[i] == db[i] && db'[j] == db[j];
      }
    }
  }

  /** Replacing a booking by one of the same id and listing whose dates
      passed the availability test (with that id excluded) keeps the
      invariant, whatever state the new one is in. */
  lemma MoveKeepsNoDoubleBooking(db: seq<Booking>, k: nat, moved: Booking)
    requires NoDoubleBooking(db) && UniqueIds(db) && k < |db|
    requires moved.id == db[k].id && moved.alloggio == db[k].alloggio
    requires IsFree(db, moved.alloggio, moved.checkIn, moved.checkOut, Some(db[k].id))
    ensures NoDoubleBooking(db[k := moved])
  {
    var db' := db[k := moved];
    forall i, j |
      && 0 <= i < |db'| && 0 <= j < |db'| && i != j
      && db'[i].alloggio == db'[j].alloggio && HoldsDates(db'[i].state) && HoldsDates(db'[j].state)
      ensures !Overlaps(db'[i], db'[j].checkIn, db'[j].checkOut)
    {
      if i == k {
        assert db[j].id != db[k].id;
        assert !Blocks(db[j], moved.alloggio, moved.checkIn, moved.checkOut, Some(db[k].id));
      } else if j == k {
        assert db[i].id != db[k].id;
        assert !Blocks(db[i], moved.alloggio, moved.checkIn, moved.checkOut, Some(db[k].id));
      } else {
        assert db'[i] == db[i] && db'[j] == db[j];
      }
    }
  }
}
