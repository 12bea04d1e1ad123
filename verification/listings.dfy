/** The listing (`Alloggio`) and photo (`FotoAlloggio`) tables: field bounds,
    defaults, uniqueness of names and the order the database returns rows in. */
module Listings {
  import opened Wrappers
  import opened Ordering

  /** A JSON value, as stored in the `servizi` column. */
  datatype Json =
    | JNull
    | JBool(b: bool)
    | JNum(n: int)
    | JStr(s: string)
    | JArr(items: seq<Json>)
    | JObj(fields: map<string, Json>)

  const NameMaxLength: nat := 255
  const PositionMaxLength: nat := 500
  /** `max_digits=10, decimal_places=2`: at most 99999999.99 euros. */
  const PriceMaxCents: nat := 99_999_999_99
  const GuestsMin: int := 1
  const GuestsMax: int := 20
  const DefaultGuests: int := 2
  const RoomsMin: int := 1
  const RoomsMax: int := 10
  const DefaultRooms: int := 1
  const DefaultOrdine: int := 0

  /** An `Alloggio` row. `prezzoNotte` is in cents. */
  datatype Listing = Listing(
    id: int,
    nome: string,
    descrizione: string,
    posizione: string,
    prezzoNotte: int,
    ospitiMax: int,
    camere: int,
    bagni: int,
    servizi: Json,
    disponibile: bool)

  /** The column validators and `blank=False` rules of the listing fields. */
  predicate FieldsValid(l: Listing) {
    && 0 < |l.nome| <= NameMaxLength
    && 0 < |l.posizione| <= PositionMaxLength
    && 0 <= l.prezzoNotte <= PriceMaxCents
    && GuestsMin <= l.ospitiMax <= GuestsMax
    && RoomsMin <= l.camere <= RoomsMax
    && RoomsMin <= l.bagni <= RoomsMax
  }

  /** `Alloggio.is_available()`. */
  predicate IsAvailable(l: Listing) {
    l.disponibile
  }

  /** A listing created with only its required fields; every other column
      takes its declared default. */
  function NewListing(id: int, nome: string, posizione: string, prezzoNotte: int): (l: Listing)
    ensures IsAvailable(l)
    ensures l.servizi == JArr([]) && l.descrizione == []
    ensures FieldsValid(l) <==>
              && 0 < |nome| <= NameMaxLength
              && 0 < |posizione| <= PositionMaxLength
              && 0 <= prezzoNotte <= PriceMaxCents
    ensures l.nome == nome && l.posizione == posizione && l.prezzoNotte == prezzoNotte
    ensures l.ospitiMax == DefaultGuests && l.camere == DefaultRooms && l.bagni == DefaultRooms
  {
    Listing(id, nome, [], posizione, prezzoNotte, DefaultGuests, DefaultRooms, DefaultRooms,
            JArr([]), true)
  }

  // ---------------------------------------------------------------------------
  // Names: unique, and the table is ordered by them

  /** Code-point lexicographic order on strings. */
  predicate StrLt(a: string, b: string) {
    if a == [] then b != []
    else if b == [] then false
    else if a[0] != b[0] then a[0] < b[0]
    else StrLt(a[1..], b[1..])
  }

  lemma {:induction false} StrLtIrreflexive(a: string)
    ensures !StrLt(a, a)
  {
    if a != [] {
      StrLtIrreflexive(a[1..]);
    }
  }

  lemma {:induction false} StrLtTransitive(a: string, b: string, c: string)
    requires StrLt(a, b) && StrLt(b, c)
    ensures StrLt(a, c)
  {
    if a != [] && b != [] && c != [] && a[0] == b[0] && b[0] == c[0] {
      StrLtTransitive(a[1..], b[1..], c[1..]);
    }
  }

  lemma {:induction false} StrLtTotal(a: string, b: string)
    requires a != b
    ensures StrLt(a, b) || StrLt(b, a)
  {
    if a != [] && b != [] && a[0] == b[0] {
      assert a == [a[0]] + a[1..] && b == [b[0]] + b[1..];
      StrLtTotal(a[1..], b[1..]);
    }
  }

  lemma StrLtIsStrictTotalOrder()
    ensures IsStrictTotalOrder(StrLt)
  {
    forall a | true
      ensures !StrLt(a, a)
    {
      StrLtIrreflexive(a);
    }
    forall a, b, c | StrLt(a, b) && StrLt(b, c)
      ensures StrLt(a, c)
    {
      StrLtTransitive(a, b, c);
    }
    forall a, b | a != b
      ensures StrLt(a, b) || StrLt(b, a)
    {
      StrLtTotal(a, b);
    }
  }

  function ListingName(l: Listing): string {
    l.nome
  }

  /** The listing table as the database returns it: strictly increasing
      names, hence unique names. */
  predicate IsListingTable(t: seq<Listing>) {
    SortedBy(t, ListingName, StrLt)
  }

  datatype TableError = DuplicateKey

  /** Inserting a listing: the unique constraint on `nome` refuses a taken
      name; otherwise the new row appears at its place in name order. */
  function CreateListing(t: seq<Listing>, l: Listing): (r: Result<seq<Listing>, TableError>)
    requires IsListingTable(t)
    ensures r.Err? <==> exists i :: 0 <= i < |t| && t[i].nome == l.nome
    ensures r.Ok? ==> IsListingTable(r.value) && multiset(r.value) == multiset(t) + multiset{l}
  {
    StrLtIsStrictTotalOrder();
    InsertBySpec(t, l, ListingName, StrLt);
    assert HasKey(t, ListingName, l.nome) <==> exists i :: 0 <= i < |t| && t[i].nome == l.nome by {
      if HasKey(t, ListingName, l.nome) {
        var i :| 0 <= i < |t| && ListingName(t[i]) == l.nome;
        assert t[i].nome == l.nome;
      }
    }
    match InsertBy(t, l, ListingName, StrLt)
    case None => Err(DuplicateKey)
    case Some(t') => Ok(t')
  }

  // ---------------------------------------------------------------------------
  // Photos: ordered by (ordine, id)

  /** A `FotoAlloggio` row. */
  datatype Photo = Photo(id: int, alloggio: int, url: string, descrizione: string, ordine: int)

  function NewPhoto(id: int, alloggio: int, url: string): (p: Photo)
    ensures p.ordine == DefaultOrdine && p.descrizione == []
  {
    Photo(id, alloggio, url, [], DefaultOrdine)
  }

  function PhotoKey(p: Photo): (int, int) {
    (p.ordine, p.id)
  }

  predicate PairLt(a: (int, int), b: (int, int)) {
    a.0 < b.0 || (a.0 == b.0 && a.1 < b.1)
  }

  /** A listing's photos as the database returns them. */
  predicate IsPhotoList(ps: seq<Photo>) {
    SortedBy(ps, PhotoKey, PairLt)
  }

  /** Adding a photo: the primary key `id` refuses a taken id; otherwise the
      photo appears at its place in `(ordine, id)` order. */
  function AddPhoto(ps: seq<Photo>, p: Photo): (r: Result<seq<Photo>, TableError>)
    requires IsPhotoList(ps)
    ensures r.Err? <==> exists i :: 0 <= i < |ps| && ps[i].id == p.id
    ensures r.Ok? ==> IsPhotoList(r.value) && multiset(r.value) == multiset(ps) + multiset{p}
  {
    if exists i :: 0 <= i < |ps| && ps[i].id == p.id then Err(DuplicateKey)
    else
      assert IsStrictTotalOrder(PairLt);
      InsertBySpec(ps, p, PhotoKey, PairLt);
      assert !HasKey(ps, PhotoKey, PhotoKey(p));
      match InsertBy(ps, p, PhotoKey, PairLt)
      case Some(ps') => Ok(ps')
  }

  /** `foto.filter(ordine=0).first()`: the first photo with `ordine` 0. */
  function FirstWithOrdineZero(ps: seq<Photo>): (r: Option<nat>)
    ensures r.Some? ==> r.value < |ps| && ps[r.value].ordine == 0
                        && forall j :: 0 <= j < r.value ==> ps[j].ordine != 0
    ensures r.None? ==> forall j :: 0 <= j < |ps| ==> ps[j].ordine != 0
  {
    if ps == [] then None
    else if ps[0].ordine == 0 then Some(0)
    else
      match FirstWithOrdineZero(ps[1..])
      case None => None
      case Some(k) => Some(k + 1)
  }

  /** The photo shown as a listing's main image:
      `foto.filter(ordine=0).first() or foto.first()`. */
  function PrimaryPhoto(ps: seq<Photo>): (r: Option<Photo>)
    ensures r.None? <==> ps == []
    ensures r.Some? ==> r.value in ps
    ensures (exists i :: 0 <= i < |ps| && ps[i].ordine == 0) ==>
              r.Some? && r.value.ordine == 0
    ensures FirstWithOrdineZero(ps).Some? ==> r == Some(ps[FirstWithOrdineZero(ps).value])
    ensures FirstWithOrdineZero(ps).None? && ps != [] ==> r == Some(ps[0])
  {
    match FirstWithOrdineZero(ps)
    case Some(k) => Some(ps[k])
    case None => if ps == [] then None else Some(ps[0])
  }

  /** With no negative `ordine`, the main image is simply the first photo in
      query order. */
  lemma PrimaryPhotoIsFirst(ps: seq<Photo>)
    requires IsPhotoList(ps) && |ps| > 0
    requires forall i :: 0 <= i < |ps| ==> ps[i].ordine >= 0
    ensures PrimaryPhoto(ps) == Some(ps[0])
  {
  }
}
