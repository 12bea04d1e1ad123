/** The reservation serializers: the availability query, creation and
    update checks, and the guest-name, e-mail and phone normalisers. */
module BookingValidation {
  import opened Wrappers
  import opened Text
  import opened Listings
  import opened Bookings

  datatype BookingError =
    | CheckOutNotAfterCheckIn
    | CheckInInPast
    | ListingNotFound
    | StayTooShort
    | StayTooLong
    | TooManyGuests
    | ListingUnavailable
    | DatesTaken
    | NotModifiable
    | GuestNameTooShort
    | EmailInvalid
    | PhoneTooShort

  const MinNights: int := 1
  const MaxNights: int := 30
  const GuestNameMinLength: nat := 2
  const PhoneMinLength: nat := 10

  // ---------------------------------------------------------------------------
  // Availability query (`DisponibilitaSerializer`)

  /** The query as received; `None` marks a missing or unreadable field. */
  datatype AvailabilityQuery = AvailabilityQuery(alloggioId: Option<int>, checkIn: Option<int>, checkOut: Option<int>)

  datatype ValidQuery = ValidQuery(alloggio: Listing, checkIn: int, checkOut: int)

  /** Field errors are reported together, by field name; the cross-field
      checks run only when every field is present. */
  datatype QueryError = MissingFields(names: seq<string>) | Rejected(reason: BookingError)

  function MissingNames(q: AvailabilityQuery): (names: seq<string>)
    ensures names == [] <==> q.alloggioId.Some? && q.checkIn.Some? && q.checkOut.Some?
    ensures "alloggio_id" in names <==> q.alloggioId.None?
    ensures "check_in" in names <==> q.checkIn.None?
    ensures "check_out" in names <==> q.checkOut.None?
    ensures forall n :: n in names ==> n == "alloggio_id" || n == "check_in" || n == "check_out"
  {
    (if q.alloggioId.None? then ["alloggio_id"] else [])
    + (if q.checkIn.None? then ["check_in"] else [])
    + (if q.checkOut.None? then ["check_out"] else [])
  }

  /** `Alloggio.objects.get(id=id)`. */
  function FindListing(listings: seq<Listing>, id: int): (r: Option<Listing>)
    ensures r.Some? ==> r.value in listings && r.value.id == id
    ensures r.None? ==> forall l :: l in listings ==> l.id != id
  {
    if listings == [] then None
    else if listings[0].id == id then Some(listings[0])
    else FindListing(listings[1..], id)
  }

  /** `DisponibilitaSerializer` field checks followed by its `validate`. */
  function ValidateAvailabilityQuery(listings: seq<Listing>, q: AvailabilityQuery, today: int)
    : (r: Result<ValidQuery, QueryError>)
    ensures r.Ok? <==>
              && q.alloggioId.Some? && q.checkIn.Some? && q.checkOut.Some?
              && q.checkIn.value < q.checkOut.value
              && q.checkIn.value >= today
              && (exists i :: 0 <= i < |listings| && listings[i].id == q.alloggioId.value)
    ensures r.Ok? ==> && r.value.alloggio in listings
                      && r.value.alloggio.id == q.alloggioId.value
                      && r.value.checkIn == q.checkIn.value && r.value.checkOut == q.checkOut.value
    ensures r.Err? && r.error.MissingFields? <==> !(q.alloggioId.Some? && q.checkIn.Some? && q.checkOut.Some?)
    ensures r.Err? && r.error.MissingFields? ==> r.error.names == MissingNames(q)
    ensures r == Err(Rejected(CheckOutNotAfterCheckIn)) <==>
              q.alloggioId.Some? && q.checkIn.Some? && q.checkOut.Some? && q.checkOut.value <= q.checkIn.value
    ensures r == Err(Rejected(CheckInInPast)) <==>
              && q.alloggioId.Some? && q.checkIn.Some? && q.checkOut.Some?
              && q.checkIn.value < q.checkOut.value && q.checkIn.value < today
    ensures r == Err(Rejected(ListingNotFound)) <==>
              && q.alloggioId.Some? && q.checkIn.Some? && q.checkOut.Some?
              && q.checkIn.value < q.checkOut.value && q.checkIn.value >= today
              && forall i :: 0 <= i < |listings| ==> listings[i].id != q.alloggioId.value
  {
    var missing := MissingNames(q);
    if missing != [] then Err(MissingFields(missing))
    else
      var checkIn := q.checkIn.value;
      var checkOut := q.checkOut.value;
      if checkOut <= checkIn then Err(Rejected(CheckOutNotAfterCheckIn))
      else if checkIn < today then Err(Rejected(CheckInInPast))
      else
        match FindListing(listings, q.alloggioId.value)
        case None => Err(Rejected(ListingNotFound))
        case Some(l) => Ok(ValidQuery(l, checkIn, checkOut))
  }

  /** `DisponibilitaSerializer.get_disponibilita`. */
  function GetDisponibilita(db: seq<Booking>, v: ValidQuery): (available: bool)
    ensures available <==>
              forall i :: 0 <= i < |db| ==>
                !(&& db[i].alloggio == v.alloggio.id
                  && db[i].checkIn < v.checkOut && db[i].checkOut > v.checkIn
                  && db[i].state != Cancellata && db[i].state != Rifiutata)
  {
    IsFree(db, v.alloggio.id, v.checkIn, v.checkOut, None)
  }

  // ---------------------------------------------------------------------------
  // Creation (`PrenotazioneCreateSerializer.validate`)

  datatype CreateRequest = CreateRequest(
    alloggio: Listing,
    checkIn: int,
    checkOut: int,
    numeroOspiti: int,
    stato: State)

  /** Everything `validate` demands of a new reservation. */
  predicate CreateAcceptable(db: seq<Booking>, req: CreateRequest, today: int) {
    && req.checkIn < req.checkOut
    && req.checkIn >= today
    && req.checkOut - req.checkIn <= MaxNights
    && req.numeroOspiti <= req.alloggio.ospitiMax
    && IsAvailable(req.alloggio)
    && IsFree(db, req.alloggio.id, req.checkIn, req.checkOut, None)
  }

  /** The date checks of `validate` pass: ordered, not past, at most 30 nights. */
  predicate DatesAcceptable(req: CreateRequest, today: int) {
    req.checkIn < req.checkOut && req.checkIn >= today && req.checkOut - req.checkIn <= MaxNights
  }

  /** The checks run in the source's order and the first failing one decides
      the error. */
  function ValidateCreate(db: seq<Booking>, req: CreateRequest, today: int)
    : (r: Result<CreateRequest, BookingError>)
    ensures r.Ok? <==> CreateAcceptable(db, req, today)
    ensures r.Ok? ==> r.value == req
    ensures req.checkOut <= req.checkIn ==> r == Err(CheckOutNotAfterCheckIn)
    ensures req.checkIn < req.checkOut && req.checkIn < today ==> r == Err(CheckInInPast)
    ensures req.checkIn < req.checkOut && req.checkIn >= today && req.checkOut - req.checkIn > MaxNights ==>
              r == Err(StayTooLong)
    ensures DatesAcceptable(req, today) && req.numeroOspiti > req.alloggio.ospitiMax ==>
              r == Err(TooManyGuests)
    ensures (DatesAcceptable(req, today) && req.numeroOspiti <= req.alloggio.ospitiMax
             && !IsAvailable(req.alloggio)) ==> r == Err(ListingUnavailable)
    ensures (DatesAcceptable(req, today) && req.numeroOspiti <= req.alloggio.ospitiMax
             && IsAvailable(req.alloggio) && !IsFree(db, req.alloggio.id, req.checkIn, req.checkOut, None)) ==>
              r == Err(DatesTaken)
    ensures r != Err(StayTooShort)
    ensures r == Err(TooManyGuests) ==> req.numeroOspiti > req.alloggio.ospitiMax
    ensures r == Err(DatesTaken) ==>
              !IsFree(db, req.alloggio.id, req.checkIn, req.checkOut, None) && IsAvailable(req.alloggio)
  {
    var nights := req.checkOut - req.checkIn;
    if req.checkOut <= req.checkIn then Err(CheckOutNotAfterCheckIn)
    else if req.checkIn < today then Err(CheckInInPast)
    else if nights < MinNights then Err(StayTooShort)
    else if nights > MaxNights then Err(StayTooLong)
    else if req.numeroOspiti > req.alloggio.ospitiMax then Err(TooManyGuests)
    else if !IsAvailable(req.alloggio) then Err(ListingUnavailable)
    else if !IsFree(db, req.alloggio.id, req.checkIn, req.checkOut, None) then Err(DatesTaken)
    else Ok(req)
  }

  /** The row stored for an accepted request. */
  function NewBooking(id: int, req: CreateRequest): Booking {
    Booking(id, req.alloggio.id, req.checkIn, req.checkOut, req.numeroOspiti, req.stato)
  }

  /** An accepted reservation has 1 to 30 nights, fits the listing, and
      storing it keeps the no-double-booking invariant. */
  lemma CreateKeepsNoDoubleBooking(db: seq<Booking>, req: CreateRequest, today: int, id: int)
    requires NoDoubleBooking(db)
    requires ValidateCreate(db, req, today).Ok?
    ensures NoDoubleBooking(db + [NewBooking(id, req)])
    ensures MinNights <= NewBooking(id, req).checkOut - NewBooking(id, req).checkIn <= MaxNights
    ensures NewBooking(id, req).numeroOspiti <= req.alloggio.ospitiMax
  {
    AddKeepsNoDoubleBooking(db, NewBooking(id, req));
  }

  // ---------------------------------------------------------------------------
  // Update (`PrenotazioneUpdateSerializer.validate`)

  /** The fields an update carries; `None` keeps the stored value. The guest
      contact fields and the note are not part of `Booking`. */
  datatype UpdateRequest = UpdateRequest(checkIn: Option<int>, checkOut: Option<int>,
                                         numeroOspiti: Option<int>, stato: Option<State>)

  function NewCheckIn(instance: Booking, upd: UpdateRequest): int {
    upd.checkIn.GetOr(instance.checkIn)
  }

  function NewCheckOut(instance: Booking, upd: UpdateRequest): int {
    upd.checkOut.GetOr(instance.checkOut)
  }

  predicate DatesChange(instance: Booking, upd: UpdateRequest) {
    NewCheckIn(instance, upd) != instance.checkIn || NewCheckOut(instance, upd) != instance.checkOut
  }

  /** The stored booking with every field the update carries written over it. */
  function Updated(instance: Booking, upd: UpdateRequest): Booking {
    instance.(checkIn := NewCheckIn(instance, upd), checkOut := NewCheckOut(instance, upd),
              numeroOspiti := upd.numeroOspiti.GetOr(instance.numeroOspiti),
              state := upd.stato.GetOr(instance.state))
  }

  /** `isModificabile` stands for `Prenotazione.is_modificabile`, whose
      definition is not part of this model. Only the dates are checked: the
      guest count and the state are written as given. */
  function ValidateUpdate(db: seq<Booking>, instance: Booking, isModificabile: Booking -> bool,
                          upd: UpdateRequest): (r: Result<Booking, BookingError>)
    ensures !isModificabile(instance) ==> r == Err(NotModifiable)
    ensures isModificabile(instance) && !DatesChange(instance, upd) ==> r.Ok?
    ensures isModificabile(instance) && DatesChange(instance, upd) ==>
              (r.Ok? <==> IsFree(db, instance.alloggio, NewCheckIn(instance, upd),
                                 NewCheckOut(instance, upd), Some(instance.id)))
    ensures (isModificabile(instance) && DatesChange(instance, upd)
             && !IsFree(db, instance.alloggio, NewCheckIn(instance, upd),
                        NewCheckOut(instance, upd), Some(instance.id))) ==> r == Err(DatesTaken)
    ensures r.Ok? ==> && r.value.id == instance.id && r.value.alloggio == instance.alloggio
                      && r.value.checkIn == upd.checkIn.GetOr(instance.checkIn)
                      && r.value.checkOut == upd.checkOut.GetOr(instance.checkOut)
                      && r.value.numeroOspiti == upd.numeroOspiti.GetOr(instance.numeroOspiti)
                      && r.value.state == upd.stato.GetOr(instance.state)
  {
    if !isModificabile(instance) then Err(NotModifiable)
    else
      var checkIn := NewCheckIn(instance, upd);
      var checkOut := NewCheckOut(instance, upd);
      if (checkIn != instance.checkIn || checkOut != instance.checkOut)
         && !IsFree(db, instance.alloggio, checkIn, checkOut, Some(instance.id))
      then Err(DatesTaken)
      else Ok(Updated(instance, upd))
  }

  /** Replacing a booking by one on the same listing and dates that holds
      them only if the old one did keeps the invariant. */
  lemma ReplaceKeepsNoDoubleBooking(db: seq<Booking>, k: nat, b: Booking)
    requires NoDoubleBooking(db) && k < |db|
    requires b.alloggio == db[k].alloggio && b.checkIn == db[k].checkIn && b.checkOut == db[k].checkOut
    requires HoldsDates(b.state) ==> HoldsDates(db[k].state)
    ensures NoDoubleBooking(db[k := b])
  {
    var db' := db[k := b];
    forall i, j |
      && 0 <= i < |db'| && 0 <= j < |db'| && i != j
      && db'[i].alloggio == db'[j].alloggio && HoldsDates(db'[i].state) && HoldsDates(db'[j].state)
      ensures !Overlaps(db'[i], db'[j].checkIn, db'[j].checkOut)
    {
      assert !Overlaps(db[i], db[j].checkIn, db[j].checkOut);
    }
  }

  /** A booking changed by an accepted update never collides with another
      one, provided the update does not turn a booking that released its
      dates back into one that holds them without moving it. */
  lemma UpdateKeepsNoDoubleBooking(db: seq<Booking>, k: nat, isModificabile: Booking -> bool,
                                   upd: UpdateRequest)
    requires NoDoubleBooking(db) && UniqueIds(db) && k < |db|
    requires ValidateUpdate(db, db[k], isModificabile, upd).Ok?
    requires HoldsDates(db[k].state) || upd.stato.None? || !HoldsDates(upd.stato.value)
    ensures NoDoubleBooking(db[k := ValidateUpdate(db, db[k], isModificabile, upd).value])
  {
    var b := ValidateUpdate(db, db[k], isModificabile, upd).value;
    if DatesChange(db[k], upd) {
      MoveKeepsNoDoubleBooking(db, k, b);
    } else {
      ReplaceKeepsNoDoubleBooking(db, k, b);
    }
  }

  /** The update check never compares the new dates with each other: with
      no other booking, swapping check-in and check-out is accepted. */
  lemma UpdateAcceptsInvertedDates(isModificabile: Booking -> bool)
    requires isModificabile(Booking(1, 7, 100, 104, 2, Pendente))
    ensures ValidateUpdate([Booking(1, 7, 100, 104, 2, Pendente)], Booking(1, 7, 100, 104, 2, Pendente),
                           isModificabile, UpdateRequest(Some(104), Some(100), None, None)).Ok?
  {
  }

  /** The update check never compares the guest count with the listing's
      capacity: any count is written, even one no listing admits. */
  lemma UpdateExceedsGuestCap(isModificabile: Booking -> bool, numeroOspiti: int)
    requires isModificabile(Booking(1, 7, 100, 104, 2, Pendente))
    ensures var r := ValidateUpdate([Booking(1, 7, 100, 104, 2, Pendente)], Booking(1, 7, 100, 104, 2, Pendente),
                                    isModificabile, UpdateRequest(None, None, Some(numeroOspiti), None));
            r.Ok? && r.value.numeroOspiti == numeroOspiti
  {
  }

  /** A cancelled booking, if `is_modificabile` admits it, can be set back
      to pending on dates another booking has taken meanwhile. */
  lemma UpdateCanReactivateIntoOverlap(isModificabile: Booking -> bool)
    requires isModificabile(Booking(1, 7, 100, 104, 2, Cancellata))
    ensures var db := [Booking(1, 7, 100, 104, 2, Cancellata), Booking(2, 7, 101, 103, 2, Confermata)];
            && NoDoubleBooking(db)
            && ValidateUpdate(db, db[0], isModificabile, UpdateRequest(None, None, None, Some(Pendente))).Ok?
            && !NoDoubleBooking(db[0 := ValidateUpdate(db, db[0], isModificabile,
                                                       UpdateRequest(None, None, None, Some(Pendente))).value])
  {
    var db := [Booking(1, 7, 100, 104, 2, Cancellata), Booking(2, 7, 101, 103, 2, Confermata)];
    var db' := db[0 := Booking(1, 7, 100, 104, 2, Pendente)];
    assert HoldsDates(db'[0].state) && HoldsDates(db'[1].state) && Overlaps(db'[0], db'[1].checkIn, db'[1].checkOut);
  }

  /** The update check with the rules of the creation check applied to what
      the update writes: dates in order, the guest count within the
      listing's capacity (`ospitiMax`), and the availability test whenever
      the booking will hold dates it did not hold before. */
  function ValidateUpdateCorrected(db: seq<Booking>, instance: Booking, ospitiMax: int,
                                   isModificabile: Booking -> bool, upd: UpdateRequest)
    : (r: Result<Booking, BookingError>)
    ensures r.Ok? && instance.checkIn < instance.checkOut ==> r.value.checkIn < r.value.checkOut
    ensures r.Ok? && instance.numeroOspiti <= ospitiMax ==> r.value.numeroOspiti <= ospitiMax
    ensures r.Ok? ==> ValidateUpdate(db, instance, isModificabile, upd) == r
    ensures ValidateUpdate(db, instance, isModificabile, upd).Ok? && r.Err? ==>
              || (DatesChange(instance, upd) && NewCheckOut(instance, upd) <= NewCheckIn(instance, upd))
              || (upd.numeroOspiti.Some? && upd.numeroOspiti.value > ospitiMax)
              || (!HoldsDates(instance.state) && HoldsDates(upd.stato.GetOr(instance.state)))
  {
    if !isModificabile(instance) then Err(NotModifiable)
    else
      var b := Updated(instance, upd);
      if DatesChange(instance, upd) && b.checkOut <= b.checkIn then Err(CheckOutNotAfterCheckIn)
      else if upd.numeroOspiti.Some? && b.numeroOspiti > ospitiMax then Err(TooManyGuests)
      else if (DatesChange(instance, upd) || (HoldsDates(b.state) && !HoldsDates(instance.state)))
              && !IsFree(db, instance.alloggio, b.checkIn, b.checkOut, Some(instance.id))
      then Err(DatesTaken)
      else Ok(b)
  }

  /** Every update the corrected check accepts keeps the invariant, whatever
      states `is_modificabile` admits. */
  lemma UpdateCorrectedKeepsNoDoubleBooking(db: seq<Booking>, k: nat, ospitiMax: int,
                                            isModificabile: Booking -> bool, upd: UpdateRequest)
    requires NoDoubleBooking(db) && UniqueIds(db) && k < |db|
    requires ValidateUpdateCorrected(db, db[k], ospitiMax, isModificabile, upd).Ok?
    ensures NoDoubleBooking(db[k := ValidateUpdateCorrected(db, db[k], ospitiMax, isModificabile, upd).value])
  {
    var b := ValidateUpdateCorrected(db, db[k], ospitiMax, isModificabile, upd).value;
    if DatesChange(db[k], upd) || (HoldsDates(b.state) && !HoldsDates(db[k].state)) {
      MoveKeepsNoDoubleBooking(db, k, b);
    } else {
      ReplaceKeepsNoDoubleBooking(db, k, b);
    }
  }

  // ---------------------------------------------------------------------------
  // Guest fields

  /** `validate_ospite_nome`: at least two characters once stripped; the
      words, each capitalised, joined by single spaces. */
  function ValidateGuestName(v: string): (r: Result<string, BookingError>)
    ensures r.Ok? <==> |PyStrip(v)| >= GuestNameMinLength
    ensures r.Err? ==> r.error == GuestNameTooShort
    ensures r.Ok? ==> PyWords(r.value) == MapCapitalize(PyWords(v))
    ensures r.Ok? ==> r.value == Collapse(r.value)
  {
    StripKeepsWords(v);
    var words := PyWords(PyStrip(v));
    PyWordsAreWords(PyStrip(v));
    MapCapitalizeKeepsWords(words);
    PyWordsOfJoin(MapCapitalize(words));
    if |PyStrip(v)| < GuestNameMinLength then Err(GuestNameTooShort)
    else Ok(JoinSpace(MapCapitalize(words)))
  }

  lemma MapCapitalizeIdempotent(ws: seq<string>)
    ensures MapCapitalize(MapCapitalize(ws)) == MapCapitalize(ws)
  {
    forall k | 0 <= k < |ws|
      ensures MapCapitalize(MapCapitalize(ws))[k] == MapCapitalize(ws)[k]
    {
      CapitalizeIdempotent(ws[k]);
    }
  }

  /** The capitalised words of a name that is at least two characters long
      once stripped join into a string that is just as long and has no blank
      ends. */
  lemma CapitalizedJoinIsClean(v: string)
    requires |PyStrip(v)| >= GuestNameMinLength
    ensures var n := JoinSpace(MapCapitalize(PyWords(PyStrip(v))));
            |n| >= GuestNameMinLength && PyStrip(n) == n
  {
    var stripped := PyStrip(v);
    var ws := PyWords(stripped);
    CapitalizedJoinLength(stripped);
    PyWordsAreWords(stripped);
    MapCapitalizeKeepsWords(ws);
    JoinOfWordsIsClean(MapCapitalize(ws));
  }

  lemma JoinOfWordsIsClean(ws: seq<string>)
    requires AllWords(ws) && |JoinSpace(ws)| > 0
    ensures PyStrip(JoinSpace(ws)) == JoinSpace(ws)
  {
    JoinSpaceEnds(ws);
    PyStripOfClean(JoinSpace(ws));
  }

  lemma CapitalizedJoinLength(stripped: string)
    requires |stripped| >= 2 && !IsPySpace(stripped[0]) && !IsPySpace(stripped[|stripped| - 1])
    ensures |JoinSpace(MapCapitalize(PyWords(stripped)))| >= 2
  {
    var ws := PyWords(stripped);
    FlattenPyWords(stripped);
    RemovePySpacesLength(stripped);
    FlattenLengthOfCapitalized(ws);
    JoinSpaceLength(MapCapitalize(ws));
  }

  /** A name the check produced passes the check again unchanged. */
  lemma GuestNameIdempotent(v: string)
    requires ValidateGuestName(v).Ok?
    ensures ValidateGuestName(ValidateGuestName(v).value) == ValidateGuestName(v)
  {
    var n := ValidateGuestName(v).value;
    CapitalizedJoinIsClean(v);
    assert |PyStrip(n)| >= GuestNameMinLength;
    assert PyWords(PyStrip(n)) == MapCapitalize(PyWords(v)) by {
      StripKeepsWords(n);
    }
    StripKeepsWords(v);
    MapCapitalizeIdempotent(PyWords(v));
    assert ValidateGuestName(n).value == JoinSpace(MapCapitalize(PyWords(PyStrip(n))));
  }

  /** `validate_ospite_email`: the address, lower-cased, when Django's
      `validate_email` accepts it (`emailValid`). */
  function ValidateEmail(v: string, emailValid: bool): (r: Result<string, BookingError>)
    ensures r.Ok? <==> emailValid
    ensures r.Err? ==> r.error == EmailInvalid
    ensures r.Ok? ==> |r.value| == |v| && Lower(r.value) == r.value
    ensures r.Ok? ==> forall i :: 0 <= i < |v| ==> AsciiLower(v[i]) == r.value[i]
  {
    LowerIdempotent(v);
    if emailValid then Ok(Lower(v)) else Err(EmailInvalid)
  }

  predicate IsPhoneChar(c: char) {
    IsAsciiDigit(c) || c == '+'
  }

  /** The digits and `+` signs of `s`, in order. */
  function KeepPhoneChars(s: string): string {
    if s == [] then []
    else if IsPhoneChar(s[0]) then [s[0]] + KeepPhoneChars(s[1..])
    else KeepPhoneChars(s[1..])
  }

  /** `validate_ospite_telefono`: an empty or null value passes unchanged;
      otherwise only digits and `+` are kept, and at least ten must remain. */
  function ValidatePhone(v: Option<string>): (r: Result<Option<string>, BookingError>)
    ensures v == None || v == Some([]) ==> r == Ok(v)
    ensures v.Some? && v.value != [] ==> (r.Ok? <==> |KeepPhoneChars(v.value)| >= PhoneMinLength)
    ensures r.Err? ==> r.error == PhoneTooShort
    ensures r.Ok? && v.Some? && v.value != [] ==>
              && r.value.Some?
              && (forall i :: 0 <= i < |r.value.value| ==> IsPhoneChar(r.value.value[i]))
              && (forall c :: IsPhoneChar(c) ==> multiset(r.value.value)[c] == multiset(v.value)[c])
    ensures r.Ok? && v.Some? && v.value != [] ==> r.value == Some(KeepPhoneChars(v.value))
  {
    match v
    case None => Ok(v)
    case Some(s) =>
      if s == [] then Ok(v)
      else
        KeepPhoneCharsSpec(s);
        var cleaned := KeepPhoneChars(s);
        if |cleaned| < PhoneMinLength then Err(PhoneTooShort) else Ok(Some(cleaned))
  }

  lemma {:induction false} KeepPhoneCharsSpec(s: string)
    ensures forall i :: 0 <= i < |KeepPhoneChars(s)| ==> IsPhoneChar(KeepPhoneChars(s)[i])
    ensures forall c :: IsPhoneChar(c) ==> multiset(KeepPhoneChars(s))[c] == multiset(s)[c]
    ensures forall c :: !IsPhoneChar(c) ==> multiset(KeepPhoneChars(s))[c] == 0
  {
    if s != [] {
      KeepPhoneCharsSpec(s[1..]);
      assert s == [s[0]] + s[1..];
    }
  }

  /** Filtering distributes over concatenation, so the kept characters stay
      in their original order. */
  lemma KeepPhoneCharsAppend(a: string, b: string)
    ensures KeepPhoneChars(a + b) == KeepPhoneChars(a) + KeepPhoneChars(b)
  {
    if a == [] {
      assert a + b == b;
    } else {
      assert (a + b)[1..] == a[1..] + b;
      KeepPhoneCharsAppend(a[1..], b);
    }
  }

  lemma KeepPhoneCharsOfClean(s: string)
    requires forall i :: 0 <= i < |s| ==> IsPhoneChar(s[i])
    ensures KeepPhoneChars(s) == s
  {
    if s != [] {
      KeepPhoneCharsOfClean(s[1..]);
    }
  }

  /** A cleaned number passes the check again unchanged. */
  lemma PhoneIdempotent(v: Option<string>)
    requires ValidatePhone(v).Ok?
    ensures ValidatePhone(ValidatePhone(v).value) == ValidatePhone(v)
  {
    if v.Some? && v.value != [] {
      var cleaned := KeepPhoneChars(v.value);
      KeepPhoneCharsSpec(v.value);
      KeepPhoneCharsOfClean(cleaned);
    }
  }
}
