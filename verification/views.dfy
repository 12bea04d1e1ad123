/** The listing view set: the `disponibile` filter on the listing query and
    the per-listing availability action with its price and night count. */
module ListingViews {
  import opened Wrappers
  import opened Text
  import opened Money
  import opened Ordering
  import opened Listings
  import opened BookingValidation

  // ---------------------------------------------------------------------------
  // `get_queryset`: the optional `disponibile` filter

  /** The flag a present parameter asks for: only a case-insensitive `true`
      selects the available listings; every other value selects the rest. */
  function WantedFlag(param: string): bool {
    Lower(param) == "true"
  }

  function KeepFlag(listings: seq<Listing>, want: bool): (r: seq<Listing>)
    ensures |r| <= |listings|
    ensures forall l :: l in r <==> l in listings && l.disponibile == want
  {
    if listings == [] then []
    else if listings[0].disponibile == want then [listings[0]] + KeepFlag(listings[1..], want)
    else KeepFlag(listings[1..], want)
  }

  function FilterByDisponibile(listings: seq<Listing>, param: Option<string>): (r: seq<Listing>)
    ensures param.None? ==> r == listings
    ensures param.Some? ==>
              forall l :: l in r <==> l in listings && l.disponibile == WantedFlag(param.value)
  {
    match param
    case None => listings
    case Some(p) => KeepFlag(listings, WantedFlag(p))
  }

  /** The two filters split the listings: every listing lands in exactly one
      of them, with its multiplicity. */
  lemma {:induction false} KeepFlagPartitions(listings: seq<Listing>)
    ensures multiset(KeepFlag(listings, true)) + multiset(KeepFlag(listings, false)) == multiset(listings)
  {
    if listings != [] {
      KeepFlagPartitions(listings[1..]);
      assert listings == [listings[0]] + listings[1..];
    }
  }

  /** Filtering keeps the table's name order. */
  lemma {:induction false} KeepFlagKeepsOrder(listings: seq<Listing>, want: bool)
    requires IsListingTable(listings)
    ensures IsListingTable(KeepFlag(listings, want))
  {
    if listings != [] {
      var rest := listings[1..];
      SortedTail(listings, ListingName, StrLt);
      KeepFlagKeepsOrder(rest, want);
      if listings[0].disponibile == want {
        var r := KeepFlag(rest, want);
        forall j | 0 <= j < |r|
          ensures StrLt(ListingName(listings[0]), ListingName(r[j]))
        {
          assert r[j] in rest;
          var i :| 0 <= i < |rest| && rest[i] == r[j];
          assert listings[i + 1] == rest[i];
        }
        SortedCons(listings[0], r, ListingName, StrLt);
      }
    }
  }

  /** The filtered listing query is still in name order. */
  lemma FilterKeepsOrder(listings: seq<Listing>, param: Option<string>)
    requires IsListingTable(listings)
    ensures IsListingTable(FilterByDisponibile(listings, param))
  {
    if param.Some? {
      KeepFlagKeepsOrder(listings, WantedFlag(param.value));
    }
  }

  /** Filtering again with the same parameter changes nothing. */
  lemma {:induction false} KeepFlagIdempotent(listings: seq<Listing>, want: bool)
    ensures KeepFlag(KeepFlag(listings, want), want) == KeepFlag(listings, want)
  {
    if listings != [] {
      KeepFlagIdempotent(listings[1..], want);
    }
  }

  /** The parameter is compared without regard to case, and any value other
      than `true` selects the listings that are not available. */
  lemma FilterParameterReading(listings: seq<Listing>)
    ensures FilterByDisponibile(listings, Some("TRUE")) == FilterByDisponibile(listings, Some("true"))
    ensures FilterByDisponibile(listings, Some("yes")) == KeepFlag(listings, false)
    ensures FilterByDisponibile(listings, Some("1")) == KeepFlag(listings, false)
  {
    assert Lower("TRUE") == "true";
    assert Lower("yes") != "true" by { assert |Lower("yes")| == 3; }
    assert Lower("1") != "true" by { assert |Lower("1")| == 1; }
  }

  // ---------------------------------------------------------------------------
  // The `disponibilita` action

  /** The query string of `GET /api/alloggi/<pk>/disponibilita/`. */
  datatype ActionQuery = ActionQuery(
    alloggioId: Option<int>,
    checkIn: Option<int>,
    checkOut: Option<int>,
    disponibile: Option<string>)

  function SerializerInput(q: ActionQuery): AvailabilityQuery {
    AvailabilityQuery(q.alloggioId, q.checkIn, q.checkOut)
  }

  datatype ActionResponse =
    | NotFound
    | BadRequest(errors: QueryError)
    | Success(
        alloggioId: int,
        alloggioNome: string,
        checkIn: int,
        checkOut: int,
        disponibile: bool,
        prezzoTotale: string,
        numeroNotti: int)

  /** `get_object` looks the primary key up in the filtered query set. */
  function GetObject(listings: seq<Listing>, pk: int, q: ActionQuery): (r: Option<Listing>)
    ensures r.Some? ==> r.value in listings && r.value.id == pk
    ensures r.Some? && q.disponibile.Some? ==> r.value.disponibile == WantedFlag(q.disponibile.value)
    ensures r.None? <==>
              forall l :: l in listings && l.id == pk ==>
                q.disponibile.Some? && l.disponibile != WantedFlag(q.disponibile.value)
  {
    FindListing(FilterByDisponibile(listings, q.disponibile), pk)
  }

  /** The action as written: the listing of the URL answers, the query is
      validated on its own (including an `alloggio_id` of its own), bookings
      are not consulted, and the night count is check-in minus check-out. */
  function AvailabilityAction(listings: seq<Listing>, pk: int, q: ActionQuery, today: int)
    : (r: ActionResponse)
    ensures r == NotFound <==> GetObject(listings, pk, q).None?
    ensures r.BadRequest? <==>
              GetObject(listings, pk, q).Some? && ValidateAvailabilityQuery(listings, SerializerInput(q), today).Err?
    ensures r.BadRequest? ==> r.errors == ValidateAvailabilityQuery(listings, SerializerInput(q), today).error
    ensures r.Success? ==>
              && q.alloggioId.Some? && q.checkIn == Some(r.checkIn) && q.checkOut == Some(r.checkOut)
              && today <= r.checkIn < r.checkOut
              && r.alloggioId == pk
              && r.numeroNotti == r.checkIn - r.checkOut < 0
              && GetObject(listings, pk, q).Some?
              && (var l := GetObject(listings, pk, q).value;
                  && l.nome == r.alloggioNome && l.disponibile == r.disponibile
                  && ParseCents(r.prezzoTotale) == Some((r.checkOut - r.checkIn) * l.prezzoNotte))
  {
    match GetObject(listings, pk, q)
    case None => NotFound
    case Some(alloggio) =>
      match ValidateAvailabilityQuery(listings, SerializerInput(q), today)
      case Err(e) => BadRequest(e)
      case Ok(v) =>
        var total := (v.checkOut - v.checkIn) * alloggio.prezzoNotte;
        RenderCentsRoundTrip(total);
        Success(alloggio.id, alloggio.nome, v.checkIn, v.checkOut, alloggio.disponibile,
                RenderCents(total), v.checkIn - v.checkOut)
  }

  /** The reported night count is the negation of the nights the price is
      computed from: a two-night stay is reported as -2 nights. */
  lemma NumeroNottiIsNegated()
    ensures var l := NewListing(1, "Casa Iperione", "Roma", 150_00);
            AvailabilityAction([l], 1, ActionQuery(Some(1), Some(10), Some(12), None), 0)
              == Success(1, "Casa Iperione", 10, 12, true, RenderCents(300_00), -2)
  {
  }

  /** The booking page queries with check-in and check-out only. The action
      then never succeeds: a listing that exists answers 400 because the
      query lacks `alloggio_id`. */
  lemma FrontendQueryAlwaysRejected(listings: seq<Listing>, pk: int, checkIn: int, checkOut: int, today: int)
    requires exists l :: l in listings && l.id == pk
    ensures AvailabilityAction(listings, pk, ActionQuery(None, Some(checkIn), Some(checkOut), None), today)
              == BadRequest(MissingFields(["alloggio_id"]))
  {
  }

  /** The action with the listing of the URL standing in for a missing
      `alloggio_id` and the night count taken the right way round. */
  function AvailabilityActionCorrected(listings: seq<Listing>, pk: int, q: ActionQuery, today: int)
    : (r: ActionResponse)
    ensures r == NotFound <==> GetObject(listings, pk, q).None?
    ensures r.Success? ==>
              && q.checkIn == Some(r.checkIn) && q.checkOut == Some(r.checkOut)
              && today <= r.checkIn < r.checkOut
              && r.numeroNotti == r.checkOut - r.checkIn >= MinNights
              && GetObject(listings, pk, q).Some?
              && (var l := GetObject(listings, pk, q).value;
                  l.disponibile == r.disponibile && ParseCents(r.prezzoTotale) == Some(r.numeroNotti * l.prezzoNotte))
    ensures GetObject(listings, pk, q).Some? && q.alloggioId.None? ==>
              (r.Success? <==> (q.checkIn.Some? && q.checkOut.Some?
                                && today <= q.checkIn.value < q.checkOut.value))
  {
    match GetObject(listings, pk, q)
    case None => NotFound
    case Some(alloggio) =>
      var input := SerializerInput(q).(alloggioId := Some(q.alloggioId.GetOr(pk)));
      match ValidateAvailabilityQuery(listings, input, today)
      case Err(e) => BadRequest(e)
      case Ok(v) =>
        var nights := v.checkOut - v.checkIn;
        var total := nights * alloggio.prezzoNotte;
        RenderCentsRoundTrip(total);
        Success(alloggio.id, alloggio.nome, v.checkIn, v.checkOut, alloggio.disponibile,
                RenderCents(total), nights)
  }

  /** With the correction, the booking page's query for future dates of a
      listing that exists is answered, for as many nights as the stay has. */
  lemma FrontendQueryAnswered(listings: seq<Listing>, pk: int, checkIn: int, checkOut: int, today: int)
    requires exists l :: l in listings && l.id == pk
    requires today <= checkIn < checkOut
    ensures var r := AvailabilityActionCorrected(listings, pk, ActionQuery(None, Some(checkIn), Some(checkOut), None), today);
            r.Success? && r.numeroNotti == checkOut - checkIn
  {
  }
}
