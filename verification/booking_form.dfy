/** The booking page as a state machine: form edits, the availability check
    and the submit guard with the payload it sends. Dates are day numbers,
    `None` standing for an empty date input; amounts are cents. */
module BookingForm {
  import opened Wrappers
  import opened Text
  import opened Money

  // ---------------------------------------------------------------------------
  // `parseInt(value)` without a radix, for decimal input

  /** The longest prefix of `s` made of decimal digits. */
  function LeadingDigits(s: string): (r: string)
    ensures AllDigits(r) && |r| <= |s| && r == s[..|r|]
    ensures |r| == |s| || !IsAsciiDigit(s[|r|])
  {
    if s != [] && IsAsciiDigit(s[0]) then [s[0]] + LeadingDigits(s[1..]) else []
  }

  /** Leading whitespace is skipped, one sign is read, then as many digits as
      follow; no digit at all gives `NaN`, here `None`. */
  function ParseInt(s: string): (r: Option<int>)
    ensures r.None? <==>
              var t := DropJsSpaces(s);
              var body := if |t| > 0 && (t[0] == '-' || t[0] == '+') then t[1..] else t;
              body == [] || !IsAsciiDigit(body[0])
    ensures r.Some? ==>
              var t := DropJsSpaces(s);
              var body := if |t| > 0 && (t[0] == '-' || t[0] == '+') then t[1..] else t;
              var v: int := DigitsValue(LeadingDigits(body));
              r.value == if t[0] == '-' then -v else v
  {
    var t := DropJsSpaces(s);
    var negative := |t| > 0 && t[0] == '-';
    var body := if |t| > 0 && (t[0] == '-' || t[0] == '+') then t[1..] else t;
    var digits := LeadingDigits(body);
    if digits == [] then None
    else
      var v: int := DigitsValue(digits);
      Some(if negative then -v else v)
  }

  lemma DigitIsNotJsSpace(c: char)
    requires IsAsciiDigit(c)
    ensures !IsJsSpace(c)
  {
  }

  lemma {:induction false} LeadingDigitsOfDigits(s: string, rest: string)
    requires AllDigits(s)
    requires rest == [] || !IsAsciiDigit(rest[0])
    ensures LeadingDigits(s + rest) == s
  {
    if s == [] {
      assert s + rest == rest;
    } else {
      assert (s + rest)[1..] == s[1..] + rest;
      LeadingDigitsOfDigits(s[1..], rest);
    }
  }

  /** A number written in decimal reads back as itself, whatever non-digit
      text follows it. */
  lemma ParseIntOfNatDigits(n: nat, rest: string)
    requires rest == [] || !IsAsciiDigit(rest[0])
    ensures ParseInt(NatDigits(n) + rest) == Some(n)
  {
    var s := NatDigits(n) + rest;
    DigitIsNotJsSpace(s[0]);
    assert DropJsSpaces(s) == s;
    LeadingDigitsOfDigits(NatDigits(n), rest);
    DigitsValueOfNatDigits(n);
  }

  /** The same with a minus sign in front reads back as the negation. */
  lemma ParseIntOfNegatedDigits(n: nat, rest: string)
    requires rest == [] || !IsAsciiDigit(rest[0])
    ensures ParseInt("-" + (NatDigits(n) + rest)).Some?
    ensures ParseInt("-" + (NatDigits(n) + rest)).value == -(n as int)
  {
    var s := "-" + (NatDigits(n) + rest);
    assert DropJsSpaces(s) == s;
    assert s[1..] == NatDigits(n) + rest;
    LeadingDigitsOfDigits(NatDigits(n), rest);
    DigitsValueOfNatDigits(n);
  }

  // ---------------------------------------------------------------------------
  // State

  /** The part of the loaded listing the page uses. */
  datatype ListingInfo = ListingInfo(id: int, nome: string, prezzoNotte: int)

  datatype Form = Form(
    checkIn: Option<int>,
    checkOut: Option<int>,
    numeroOspiti: Option<int>,
    ospiteNome: string,
    ospiteEmail: string,
    ospiteTelefono: Option<string>,
    noteCliente: Option<string>)

  datatype SubmitError = VerifyFirst | LoadFailed

  datatype Page = Page(
    alloggio: Option<ListingInfo>,
    form: Form,
    disponibile: Option<bool>,
    prezzoTotale: int,
    numeroNotti: int,
    error: Option<SubmitError>,
    submitError: Option<SubmitError>)

  /** The page as first rendered, from the state passed by the detail page;
      a missing or zero guest count starts at one. */
  function InitialPage(alloggio: Option<ListingInfo>, checkIn: Option<int>, checkOut: Option<int>,
                       numeroOspiti: Option<int>): (p: Page)
    ensures p.disponibile.None? && p.prezzoTotale == 0 && p.numeroNotti == 0
    ensures p.form.numeroOspiti.Some? && p.form.numeroOspiti.value != 0
    ensures numeroOspiti.Some? && numeroOspiti.value != 0 ==> p.form.numeroOspiti == numeroOspiti
    ensures numeroOspiti.None? || numeroOspiti.value == 0 ==> p.form.numeroOspiti == Some(1)
    ensures p.alloggio == alloggio && p.form.checkIn == checkIn && p.form.checkOut == checkOut
    ensures p.form.ospiteNome == [] && p.form.ospiteEmail == []
    ensures p.form.ospiteTelefono.None? && p.form.noteCliente.None?
    ensures p.error.None? && p.submitError.None?
  {
    var guests := if numeroOspiti.None? || numeroOspiti.value == 0 then 1 else numeroOspiti.value;
    Page(alloggio, Form(checkIn, checkOut, Some(guests), [], [], None, None), None, 0, 0, None, None)
  }

  /** What the page believes once the availability answer is in: a positive
      answer is about the listing and the dates now in the form, and the
      nights and total shown were computed from them. */
  predicate Consistent(p: Page) {
    p.disponibile == Some(true) ==>
      && p.alloggio.Some? && p.form.checkIn.Some? && p.form.checkOut.Some?
      && p.numeroNotti == p.form.checkOut.value - p.form.checkIn.value
      && p.prezzoTotale == p.numeroNotti * p.alloggio.value.prezzoNotte
  }

  lemma InitialPageConsistent(alloggio: Option<ListingInfo>, checkIn: Option<int>, checkOut: Option<int>,
                              numeroOspiti: Option<int>)
    ensures Consistent(InitialPage(alloggio, checkIn, checkOut, numeroOspiti))
  {
  }

  // ---------------------------------------------------------------------------
  // `loadAlloggio`

  /** Runs only while no listing is held; `fetched` is the API's answer,
      `None` when the request failed. */
  function LoadListing(p: Page, fetched: Option<ListingInfo>): (r: Page)
    ensures p.alloggio.Some? ==> r == p
    ensures p.alloggio.None? && fetched.Some? ==> r == p.(alloggio := fetched)
    ensures p.alloggio.None? && fetched.None? ==> r == p.(error := Some(LoadFailed))
    ensures Consistent(p) ==> Consistent(r)
  {
    if p.alloggio.Some? then p
    else if fetched.Some? then p.(alloggio := fetched)
    else p.(error := Some(LoadFailed))
  }

  // ---------------------------------------------------------------------------
  // `handleInputChange`

  /** One change event: the input's name and its raw value. Date inputs
      deliver a date or nothing. */
  datatype Edit =
    | EditCheckIn(date: Option<int>)
    | EditCheckOut(date: Option<int>)
    | EditNumeroOspiti(raw: string)
    | EditOspiteNome(value: string)
    | EditOspiteEmail(value: string)
    | EditOspiteTelefono(value: string)
    | EditNoteCliente(value: string)

  predicate ResetsAvailability(e: Edit) {
    e.EditCheckIn? || e.EditCheckOut? || e.EditNumeroOspiti?
  }

  /** Blank phone and notes are stored as null, other text as typed. */
  function Nullable(value: string): (r: Option<string>)
    ensures r.None? <==> IsJsBlank(value)
    ensures r.Some? ==> r.value == value
  {
    if IsJsBlank(value) then None else Some(value)
  }

  /** Each edit writes its own field and leaves the others alone. */
  function ApplyEdit(f: Form, e: Edit): (r: Form)
    ensures e.EditCheckIn? ==> r == f.(checkIn := e.date)
    ensures e.EditCheckOut? ==> r == f.(checkOut := e.date)
    ensures e.EditNumeroOspiti? ==> r == f.(numeroOspiti := ParseInt(e.raw))
    ensures e.EditOspiteNome? ==> r == f.(ospiteNome := e.value)
    ensures e.EditOspiteEmail? ==> r == f.(ospiteEmail := e.value)
    ensures e.EditOspiteTelefono? ==> r == f.(ospiteTelefono := Nullable(e.value))
    ensures e.EditNoteCliente? ==> r == f.(noteCliente := Nullable(e.value))
    ensures !e.EditCheckIn? ==> r.checkIn == f.checkIn
    ensures !e.EditCheckOut? ==> r.checkOut == f.checkOut
  {
    match e
    case EditCheckIn(d) => f.(checkIn := d)
    case EditCheckOut(d) => f.(checkOut := d)
    case EditNumeroOspiti(raw) => f.(numeroOspiti := ParseInt(raw))
    case EditOspiteNome(v) => f.(ospiteNome := v)
    case EditOspiteEmail(v) => f.(ospiteEmail := v)
    case EditOspiteTelefono(v) => f.(ospiteTelefono := Nullable(v))
    case EditNoteCliente(v) => f.(noteCliente := Nullable(v))
  }

  function HandleInputChange(p: Page, e: Edit): (r: Page)
    ensures r.form == ApplyEdit(p.form, e)
    ensures ResetsAvailability(e) ==> r.disponibile.None?
    ensures !ResetsAvailability(e) ==> r.disponibile == p.disponibile
    ensures r.alloggio == p.alloggio && r.prezzoTotale == p.prezzoTotale && r.numeroNotti == p.numeroNotti
    ensures Consistent(p) ==> Consistent(r)
  {
    var form := ApplyEdit(p.form, e);
    if ResetsAvailability(e) then p.(form := form, disponibile := None)
    else p.(form := form)
  }

  // ---------------------------------------------------------------------------
  // `verificaDisponibilita`

  /** How the availability request ended: the `disponibile` field of the
      answer, or a failure (an error status or a network error). */
  datatype ApiAnswer = Answered(available: bool) | Failed

  /** The listing and dates a request was sent for: the values the page held
      when the check started. */
  datatype AvailabilityRequest = AvailabilityRequest(alloggio: ListingInfo, checkIn: int, checkOut: int)

  /** The answer is about what the page shows now. */
  predicate Matches(p: Page, req: AvailabilityRequest) {
    p.alloggio == Some(req.alloggio) && p.form.checkIn == Some(req.checkIn)
    && p.form.checkOut == Some(req.checkOut)
  }

  /** The start of the check: without a listing or with a date missing
      nothing is asked and the availability becomes unknown; otherwise a
      request for the current listing and dates goes out. */
  function StartVerifica(p: Page): (r: (Page, Option<AvailabilityRequest>))
    ensures r.1.None? <==> p.alloggio.None? || p.form.checkIn.None? || p.form.checkOut.None?
    ensures r.1.None? ==> r.0 == p.(disponibile := None)
    ensures r.1.Some? ==> r.0 == p && Matches(p, r.1.value)
  {
    if p.alloggio.None? || p.form.checkIn.None? || p.form.checkOut.None? then
      (p.(disponibile := None), None)
    else
      (p, Some(AvailabilityRequest(p.alloggio.value, p.form.checkIn.value, p.form.checkOut.value)))
  }

  /** The end of the check, once the request has been answered: the nights
      and total come from the request, whatever the form holds by then. */
  function ReceiveAnswer(p: Page, req: AvailabilityRequest, answer: ApiAnswer): (r: Page)
    ensures answer == Answered(true) ==>
              && r.disponibile == Some(true)
              && r.numeroNotti == req.checkOut - req.checkIn
              && r.prezzoTotale == r.numeroNotti * req.alloggio.prezzoNotte
    ensures answer != Answered(true) ==>
              r.disponibile == Some(false) && r.numeroNotti == 0 && r.prezzoTotale == 0
    ensures r.form == p.form && r.alloggio == p.alloggio
    ensures r.error == p.error && r.submitError == p.submitError
    ensures Matches(p, req) ==> Consistent(r)
  {
    match answer
    case Answered(true) =>
      var notti := req.checkOut - req.checkIn;
      p.(disponibile := Some(true), numeroNotti := notti, prezzoTotale := notti * req.alloggio.prezzoNotte)
    case _ =>
      p.(disponibile := Some(false), numeroNotti := 0, prezzoTotale := 0)
  }

  /** The check with nothing happening while the request is out, and whether
      it reached the API. */
  function VerificaDisponibilita(p: Page, answer: ApiAnswer): (r: (Page, bool))
    ensures !r.1 <==> p.alloggio.None? || p.form.checkIn.None? || p.form.checkOut.None?
    ensures !r.1 ==> r.0 == p.(disponibile := None)
    ensures r.1 && answer == Answered(true) ==>
              && r.0.disponibile == Some(true)
              && r.0.numeroNotti == p.form.checkOut.value - p.form.checkIn.value
              && r.0.prezzoTotale == r.0.numeroNotti * p.alloggio.value.prezzoNotte
    ensures r.1 && answer != Answered(true) ==>
              r.0.disponibile == Some(false) && r.0.numeroNotti == 0 && r.0.prezzoTotale == 0
    ensures r.0.form == p.form && r.0.alloggio == p.alloggio
    ensures Consistent(r.0)
  {
    var (q, req) := StartVerifica(p);
    match req
    case None => (q, false)
    case Some(rq) => (ReceiveAnswer(q, rq, answer), true)
  }

  /** Two requests out at once: the check-out is moved from day 104 to day
      110 while the first request is out, which starts a second one; the
      negative answer for the new dates lands first and the positive answer
      for the old dates last. Submit then sends the new dates, with a ten-night
      total, while the page shows four nights. */
  lemma StaleAnswerAdmitsUncheckedDates()
    ensures var info := ListingInfo(7, "Casa", 100_00);
            var p := InitialPage(Some(info), Some(100), Some(104), Some(2));
            var first := StartVerifica(p).1.value;
            var edited := HandleInputChange(p, EditCheckOut(Some(110)));
            var second := StartVerifica(edited).1.value;
            var refused := ReceiveAnswer(StartVerifica(edited).0, second, Answered(false));
            var stale := ReceiveAnswer(refused, first, Answered(true));
            && second == AvailabilityRequest(info, 100, 110)
            && !Consistent(stale)
            && stale.numeroNotti == 4
            && HandleSubmit(stale).1.Some?
            && HandleSubmit(stale).1.value.checkIn == Some(100)
            && HandleSubmit(stale).1.value.checkOut == Some(110)
            && ParseCents(HandleSubmit(stale).1.value.prezzoTotale) == Some(10 * 100_00)
  {
  }

  /** Receiving an answer that is dropped unless it is about the listing and
      dates the page shows now. */
  function ReceiveAnswerCorrected(p: Page, req: AvailabilityRequest, answer: ApiAnswer): (r: Page)
    ensures Matches(p, req) ==> r == ReceiveAnswer(p, req, answer)
    ensures !Matches(p, req) ==> r == p
    ensures Consistent(p) ==> Consistent(r)
  {
    if Matches(p, req) then ReceiveAnswer(p, req, answer) else p
  }

  // ---------------------------------------------------------------------------
  // `handleSubmit`

  datatype Payload = Payload(
    alloggio: int,
    ospiteNome: string,
    ospiteEmail: string,
    ospiteTelefono: Option<string>,
    checkIn: Option<int>,
    checkOut: Option<int>,
    numeroOspiti: Option<int>,
    prezzoTotale: string,
    stato: string,
    noteCliente: Option<string>)

  const PendingState: string := "PENDENTE"

  /** What `Number.prototype.toFixed(2)` prints for a total that could not be
      computed because a date is missing. */
  const NotANumber: string := "NaN"

  function Abs(x: int): (r: nat)
    ensures r == x || r == -x
  {
    if x < 0 then -x else x
  }

  /** The total sent: the distance between the dates, in whichever order they
      are, times the nightly price. */
  function PayloadPrice(f: Form, info: ListingInfo): (s: string)
    ensures f.checkIn.None? || f.checkOut.None? ==> s == NotANumber
    ensures f.checkIn.Some? && f.checkOut.Some? ==>
              ParseCents(s) == Some(Abs(f.checkOut.value - f.checkIn.value) * info.prezzoNotte)
  {
    if f.checkIn.None? || f.checkOut.None? then NotANumber
    else
      var total := Abs(f.checkOut.value - f.checkIn.value) * info.prezzoNotte;
      RenderCentsRoundTrip(total);
      RenderCents(total)
  }

  /** The submit guard and the payload; `None` means no request is made. */
  function HandleSubmit(p: Page): (r: (Page, Option<Payload>))
    ensures r.1.None? <==> p.alloggio.None? || p.disponibile != Some(true)
    ensures r.1.None? ==> r.0 == p.(submitError := Some(VerifyFirst))
    ensures r.1.Some? ==>
              && r.0 == p.(submitError := None)
              && r.1.value.alloggio == p.alloggio.value.id
              && r.1.value.stato == PendingState
              && r.1.value.ospiteNome == p.form.ospiteNome && r.1.value.ospiteEmail == p.form.ospiteEmail
              && r.1.value.checkIn == p.form.checkIn && r.1.value.checkOut == p.form.checkOut
              && r.1.value.numeroOspiti == p.form.numeroOspiti
              && r.1.value.ospiteTelefono == p.form.ospiteTelefono
              && r.1.value.noteCliente == p.form.noteCliente
              && r.1.value.prezzoTotale == PayloadPrice(p.form, p.alloggio.value)
  {
    if p.alloggio.None? || p.disponibile != Some(true) then
      (p.(submitError := Some(VerifyFirst)), None)
    else
      var f := p.form;
      var info := p.alloggio.value;
      (p.(submitError := None),
       Some(Payload(info.id, f.ospiteNome, f.ospiteEmail, f.ospiteTelefono, f.checkIn, f.checkOut,
                    f.numeroOspiti, PayloadPrice(f, info), PendingState, f.noteCliente)))
  }

  /** On a consistent page a submitted payload always carries both dates and
      a total that agrees with the one shown, up to its sign. */
  lemma SubmittedTotalMatchesShown(p: Page)
    requires Consistent(p)
    requires HandleSubmit(p).1.Some?
    ensures var pay := HandleSubmit(p).1.value;
            && pay.checkIn.Some? && pay.checkOut.Some?
            && pay.prezzoTotale != NotANumber
            && ParseCents(pay.prezzoTotale) == Some(Abs(p.numeroNotti) * p.alloggio.value.prezzoNotte)
  {
    var pay := HandleSubmit(p).1.value;
    assert ParseCents(pay.prezzoTotale).Some?;
    assert ParseCents(NotANumber) == None by {
      assert NotANumber[0] != '-';
      assert NotANumber[|NotANumber| - 3] != '.';
    }
  }

  /** Changing the guest count clears the availability, and the check does
      not run again on its own (it follows only the listing and the dates),
      so submit stays refused until a date is edited. */
  lemma GuestEditBlocksSubmit(p: Page, raw: string)
    ensures HandleSubmit(HandleInputChange(p, EditNumeroOspiti(raw))).1.None?
  {
  }

  /** `getMinCheckOut`: the day after check-in, or today when it is empty. */
  function GetMinCheckOut(checkIn: Option<int>, today: int): (d: int)
    ensures checkIn.None? ==> d == today
    ensures checkIn.Some? ==> d > checkIn.value && d - checkIn.value == MinStay
  {
    match checkIn
    case None => today
    case Some(ci) => ci + MinStay
  }

  const MinStay: int := 1
}
