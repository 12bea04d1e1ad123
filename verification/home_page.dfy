/** The home page's listing cards: unwrapping the list response, mapping each
    listing to a card with its image fallbacks and name slug, and the two
    hard-coded listings shown when nothing usable arrives. */
module HomePage {
  import opened Wrappers
  import opened Text

  datatype ApiPhoto = ApiPhoto(imageUrl: Option<string>)

  /** A listing as the list endpoint returns it. `None` and the empty string
      both stand for a falsy JavaScript value. */
  datatype ApiListing = ApiListing(
    id: int,
    nome: string,
    immaginePrincipale: Option<string>,
    foto: Option<seq<ApiPhoto>>,
    posizione: string,
    prezzoNotte: int,
    ospitiMax: int,
    disponibile: bool)

  /** The shapes the response can take: an array, an object whose `results`
      property may hold another response, or any other value, truthy or not. */
  datatype Response =
    | RArray(items: seq<ApiListing>)
    | RObject(results: Option<Response>)
    | RScalar(truthy: bool)

  datatype Card = Card(
    id: int,
    nome: string,
    immagine: string,
    posizione: string,
    prezzoNotte: int,
    ospitiMax: int,
    disponibile: bool)

  predicate Truthy(r: Response) {
    r.RScalar? ==> r.truthy
  }

  /** The `results` property, when present and truthy. */
  function TruthyResults(r: Response): (x: Option<Response>)
    ensures x.Some? ==> Truthy(x.value) && r == RObject(x)
    ensures x.None? && r.RObject? ==> r.results.None? || !Truthy(r.results.value)
  {
    match r
    case RObject(Some(inner)) => if Truthy(inner) then Some(inner) else None
    case _ => None
  }

  /** The array to map over: `results.results`, else `results`, else the
      response itself when it is an array, else nothing. `None` stands for
      the `TypeError` of calling `map` on something that is not an array. */
  function Unwrap(resp: Response): (r: Option<seq<ApiListing>>)
    // a bare array
    ensures resp.RArray? ==> r == Some(resp.items)
    // nothing usable: a value that is neither array nor object, or an
    // object whose `results` is missing or falsy
    ensures resp.RScalar? ==> r == Some([])
    ensures resp.RObject? && (resp.results.None? || !Truthy(resp.results.value)) ==> r == Some([])
    // a flat page
    ensures resp.RObject? && resp.results.Some? && resp.results.value.RArray? ==>
              r == Some(resp.results.value.items)
    // a truthy `results` that is neither array nor object
    ensures resp.RObject? && resp.results == Some(RScalar(true)) ==> r == None
    // a page nested under `results`: its own `results` if that is an array
    ensures resp.RObject? && resp.results.Some? && resp.results.value.RObject? ==>
              var inner := resp.results.value.results;
              r == if inner.Some? && inner.value.RArray? then Some(inner.value.items) else None
  {
    match TruthyResults(resp)
    case Some(results) =>
      var data := TruthyResults(results).GetOr(results);
      if data.RArray? then Some(data.items) else None
    case None =>
      if resp.RArray? then Some(resp.items) else Some([])
  }

  /** A paginated page nested under `results` and a bare array give the same
      listings. */
  lemma UnwrapShapesAgree(items: seq<ApiListing>)
    ensures Unwrap(RObject(Some(RObject(Some(RArray(items)))))) == Some(items)
    ensures Unwrap(RObject(Some(RArray(items)))) == Some(items)
    ensures Unwrap(RArray(items)) == Some(items)
    ensures Unwrap(RScalar(false)) == Some([])
    ensures Unwrap(RObject(Some(RScalar(true)))) == None
  {
  }

  // ---------------------------------------------------------------------------
  // Cards

  /** `nome.toLowerCase().replace(/\s+/g, '-')`. */
  function Slug(nome: string): (s: string)
    ensures forall i :: 0 <= i < |s| ==> !IsJsSpace(s[i])
    ensures |s| <= |nome|
    ensures nome != [] ==> s != []
    ensures (forall i :: 0 <= i < |nome| ==> !IsJsSpace(nome[i])) ==> s == Lower(nome)
  {
    DashJsSpaceRunsOfClean(Lower(nome));
    DashJsSpaceRuns(Lower(nome))
  }

  /** A word followed by a run of whitespace gives the word in lower case and
      one dash, then the slug of the rest: with the clean case above this
      fixes the slug of every name. */
  lemma SlugOfWordThenRun(w: string, sp: string, rest: string)
    requires forall i :: 0 <= i < |w| ==> !IsJsSpace(w[i])
    requires sp != [] && forall i :: 0 <= i < |sp| ==> IsJsSpace(sp[i])
    requires rest == [] || !IsJsSpace(rest[0])
    ensures Slug(w + (sp + rest)) == Lower(w) + ("-" + Slug(rest))
  {
    LowerAppend(w, sp + rest);
    LowerAppend(sp, rest);
    DashJsSpaceRunsOfWordThenRun(Lower(w), Lower(sp), Lower(rest));
  }

  /** A slug is its own slug: it is already lower case and has no
      whitespace. */
  lemma SlugIdempotent(nome: string)
    ensures Slug(Slug(nome)) == Slug(nome)
  {
    var s := Slug(nome);
    var low := Lower(nome);
    forall i | 0 <= i < |s|
      ensures Lower(s)[i] == s[i]
    {
      if s[i] != '-' {
        assert s[i] in low;
        var j :| 0 <= j < |low| && low[j] == s[i];
        assert AsciiLower(AsciiLower(nome[j])) == AsciiLower(nome[j]);
      }
    }
    assert Lower(s) == s;
    DashJsSpaceRunsOfClean(s);
  }

  lemma LetterIsNotJsSpace(c: char)
    requires 'a' <= c <= 'z'
    ensures !IsJsSpace(c)
  {
  }

  predicate IsLowerWord(s: string) {
    forall i :: 0 <= i < |s| ==> 'a' <= s[i] <= 'z'
  }

  lemma LowerWordIsClean(w: string)
    requires IsLowerWord(w)
    ensures forall i :: 0 <= i < |w| ==> !IsJsSpace(w[i])
  {
    forall i | 0 <= i < |w| ensures !IsJsSpace(w[i]) {
      LetterIsNotJsSpace(w[i]);
    }
  }

  lemma LowerIs(s: string, t: string)
    requires |s| == |t|
    requires forall i :: 0 <= i < |s| ==> AsciiLower(s[i]) == t[i]
    ensures Lower(s) == t
  {
  }

  lemma LowerAppend(a: string, b: string)
    ensures Lower(a + b) == Lower(a) + Lower(b)
  {
    assert |Lower(a + b)| == |Lower(a) + Lower(b)|;
  }

  /** A text whose lower-case form is a lower-case word has no whitespace. */
  lemma CleanIfLowerIsWord(x: string, a: string)
    requires Lower(x) == a && IsLowerWord(a)
    ensures forall i :: 0 <= i < |x| ==> !IsJsSpace(x[i])
  {
    LowerWordIsClean(a);
    forall i | 0 <= i < |x|
      ensures !IsJsSpace(x[i])
    {
      assert AsciiLower(x[i]) == a[i];
    }
  }

  /** The slug of a two-word name is the lower-cased words joined by a
      dash. */
  lemma SlugOfCapitalizedPair(x: string, y: string, a: string, b: string)
    requires Lower(x) == a && Lower(y) == b
    requires IsLowerWord(a) && IsLowerWord(b)
    ensures Slug(x + (" " + y)) == a + ("-" + b)
  {
    CleanIfLowerIsWord(x, a);
    CleanIfLowerIsWord(y, b);
    SlugOfWordThenRun(x, " ", y);
  }

  lemma CasaIperioneParts()
    ensures "Casa Iperione" == "Casa" + (" " + "Iperione")
    ensures "casa" + ("-" + "iperione") == "casa-iperione"
    ensures Lower("Casa") == "casa" && IsLowerWord("casa")
    ensures Lower("Iperione") == "iperione" && IsLowerWord("iperione")
  {
    LowerIs("Casa", "casa");
    LowerIs("Iperione", "iperione");
  }

  lemma SlugOfCasaIperione()
    ensures Slug("Casa Iperione") == "casa-iperione"
  {
    CasaIperioneParts();
    SlugOfCapitalizedPair("Casa", "Iperione", "casa", "iperione");
  }

  lemma VillaAuroraParts()
    ensures "Villa Aurora" == "Villa" + (" " + "Aurora")
    ensures "villa" + ("-" + "aurora") == "villa-aurora"
    ensures Lower("Villa") == "villa" && IsLowerWord("villa")
    ensures Lower("Aurora") == "aurora" && IsLowerWord("aurora")
  {
    LowerIs("Villa", "villa");
    LowerIs("Aurora", "aurora");
  }

  lemma SlugOfVillaAurora()
    ensures Slug("Villa Aurora") == "villa-aurora"
  {
    VillaAuroraParts();
    SlugOfCapitalizedPair("Villa", "Aurora", "villa", "aurora");
  }

  const ImageDir: string := "/images/alloggi/"
  const ImageExt: string := ".jpg"

  function LocalImage(nome: string): string {
    ImageDir + Slug(nome) + ImageExt
  }

  function NonEmpty(s: Option<string>): Option<string> {
    if s.Some? && s.value != [] then s else None
  }

  /** The card image: the main image, else the first photo's URL, else the
      local file named after the slug. */
  function CardImage(a: ApiListing): (img: string)
    ensures NonEmpty(a.immaginePrincipale).Some? ==> img == a.immaginePrincipale.value
    ensures (&& NonEmpty(a.immaginePrincipale).None? && a.foto.Some? && |a.foto.value| > 0
             && NonEmpty(a.foto.value[0].imageUrl).Some?) ==> img == a.foto.value[0].imageUrl.value
    ensures (&& NonEmpty(a.immaginePrincipale).None?
             && !(a.foto.Some? && |a.foto.value| > 0 && NonEmpty(a.foto.value[0].imageUrl).Some?))
            ==> img == LocalImage(a.nome)
    ensures img != []
  {
    if NonEmpty(a.immaginePrincipale).Some? then a.immaginePrincipale.value
    else if a.foto.Some? && |a.foto.value| > 0 && NonEmpty(a.foto.value[0].imageUrl).Some? then
      a.foto.value[0].imageUrl.value
    else LocalImage(a.nome)
  }

  function ToCard(a: ApiListing): Card {
    Card(a.id, a.nome, CardImage(a), a.posizione, a.prezzoNotte, a.ospitiMax, a.disponibile)
  }

  function MapCards(items: seq<ApiListing>): (cards: seq<Card>)
    ensures |cards| == |items|
    ensures forall i :: 0 <= i < |items| ==>
              && cards[i].id == items[i].id && cards[i].nome == items[i].nome
              && cards[i].posizione == items[i].posizione
              && cards[i].prezzoNotte == items[i].prezzoNotte
              && cards[i].ospitiMax == items[i].ospitiMax
              && cards[i].disponibile == items[i].disponibile
              && cards[i].immagine == CardImage(items[i])
  {
    seq(|items|, i requires 0 <= i < |items| => ToCard(items[i]))
  }

  /** A backend listing with no image of its own gets the same local image
      as the hard-coded listing of the same name. */
  lemma LocalImageMatchesFallback(a: ApiListing)
    requires a.nome == FallbackCards[0].nome || a.nome == FallbackCards[1].nome
    requires NonEmpty(a.immaginePrincipale).None? && (a.foto.None? || a.foto.value == [])
    ensures a.nome == FallbackCards[0].nome ==> CardImage(a) == FallbackCards[0].immagine
    ensures a.nome == FallbackCards[1].nome ==> CardImage(a) == FallbackCards[1].immagine
  {
    SlugOfCasaIperione();
    SlugOfVillaAurora();
  }

  // ---------------------------------------------------------------------------
  // `loadAlloggi`

  const FallbackCards: seq<Card> := [
    Card(1, "Casa Iperione", ImageDir + "casa-iperione" + ImageExt, "Lucca, Toscana - Colline lucchesi",
         150_00, 6, true),
    Card(2, "Villa Aurora", ImageDir + "villa-aurora" + ImageExt, "Lucca, Toscana - Zona San Concordio",
         200_00, 8, true)
  ]

  datatype HomeState = HomeState(alloggi: seq<Card>, error: bool)

  // ---------------------------------------------------------------------------
  // `apiService.getAlloggi`

  /** What the list endpoint sends: DRF's paginated page, whose `results` is
      the array, wrapped once more under `results` by the view's `list`. */
  function ServerListResponse(items: seq<ApiListing>): Response {
    RObject(Some(RObject(Some(RArray(items)))))
  }

  /** `getAlloggi` maps over `data.results`, so it resolves only when that is
      an array and throws otherwise; `server` is the parsed body, `None` when
      the request itself failed. The price normalisation is the identity on
      cents. */
  function GetAlloggi(server: Option<Response>): (r: Option<Response>)
    ensures r.Some? <==> server.Some? && server.value.RObject? && server.value.results.Some?
                         && server.value.results.value.RArray?
    ensures r.Some? ==> r == server
  {
    match server
    case Some(RObject(Some(RArray(items)))) => server
    case _ => None
  }

  /** `fetched` is what `getAlloggi` resolves to, `None` when it threw. */
  function LoadAlloggi(fetched: Option<Response>): (st: HomeState)
    ensures |st.alloggi| > 0
    ensures st.error <==> fetched.None? || Unwrap(fetched.value).None?
    ensures st.error ==> st.alloggi == FallbackCards
    ensures !st.error ==>
              var items := Unwrap(fetched.value).value;
              st.alloggi == (if |items| > 0 then MapCards(items) else FallbackCards)
  {
    if fetched.None? then HomeState(FallbackCards, true)
    else
      match Unwrap(fetched.value)
      case None => HomeState(FallbackCards, true)
      case Some(items) =>
        var cards := MapCards(items);
        HomeState(if |cards| > 0 then cards else FallbackCards, false)
  }

  /** Every response that yields at least one listing is shown card for
      card; nothing else ever reaches the page except the fallback. */
  lemma ShownCardsComeFromResponse(fetched: Option<Response>)
    ensures var st := LoadAlloggi(fetched);
            st.alloggi == FallbackCards
            || (fetched.Some? && Unwrap(fetched.value).Some?
                && st.alloggi == MapCards(Unwrap(fetched.value).value)
                && |st.alloggi| == |Unwrap(fetched.value).value|)
  {
  }

  /** Against the list endpoint as written, `getAlloggi` always throws on the
      nested page, so the home page shows the hard-coded listings and the
      error, whatever the database holds. */
  lemma ServerPageAlwaysFallsBack(items: seq<ApiListing>)
    ensures LoadAlloggi(GetAlloggi(Some(ServerListResponse(items)))) == HomeState(FallbackCards, true)
  {
  }

  /** `getAlloggi` unwrapping the page the way the home page tries to:
      `results.results`, else `results`, else the body itself. */
  function GetAlloggiCorrected(server: Option<Response>): (r: Option<Response>)
    ensures GetAlloggi(server).Some? ==> r == GetAlloggi(server)
    ensures r.Some? ==> server.Some? && r.value.RObject? && r.value.results.Some?
                        && r.value.results.value.RArray?
                        && Unwrap(r.value) == Unwrap(server.value)
    ensures server.Some? && Unwrap(server.value).Some? ==> r.Some?
  {
    match server
    case None => None
    case Some(resp) =>
      match Unwrap(resp)
      case None => None
      case Some(items) => Some(RObject(Some(RArray(items))))
  }

  /** With the corrected call the home page shows the database's listings,
      one card each, without error. */
  lemma CorrectedLoadShowsServerPage(items: seq<ApiListing>)
    requires items != []
    ensures LoadAlloggi(GetAlloggiCorrected(Some(ServerListResponse(items))))
            == HomeState(MapCards(items), false)
  {
  }
}
