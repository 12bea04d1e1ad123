/** Field validators of the listing and photo serializers. */
module ListingValidation {
  import opened Wrappers
  import opened Text
  import opened Listings

  datatype FieldError =
    | NameTooShort
    | NameForbiddenChar
    | PriceNotPositive
    | PriceTooHigh
    | ServiziNotList
    | ServizioNotString
    | ServizioTooLong
    | PhotoNoSource
    | PhotoBothSources
    | PhotoUrlInvalid
    | PhotoUrlNotImage

  const NameMinLength: nat := 3
  /** The characters the name check refuses: `<`, `>`, `"`, `'` and `&`. */
  const ForbiddenNameChars: set<char> := {'<', '>', '"', '\'', '&'}
  /** Ten thousand euros a night, in cents. */
  const MaxNightlyPriceCents: int := 10_000 * 100
  const ServizioMaxLength: nat := 100

  predicate HasForbiddenChar(s: string) {
    exists i :: 0 <= i < |s| && s[i] in ForbiddenNameChars
  }

  lemma ForbiddenIsNotSpace(c: char)
    requires c in ForbiddenNameChars
    ensures !IsPySpace(c)
  {
  }

  lemma HasForbiddenCharVia(s: string, t: string)
    requires forall c :: c in ForbiddenNameChars ==> (c in s ==> c in t)
    requires HasForbiddenChar(s)
    ensures HasForbiddenChar(t)
  {
    var i :| 0 <= i < |s| && s[i] in ForbiddenNameChars;
    assert s[i] in t;
    var j :| 0 <= j < |t| && t[j] == s[i];
  }

  lemma ForbiddenSurvivesCollapse(v: string)
    ensures HasForbiddenChar(Collapse(v)) <==> HasForbiddenChar(v)
  {
    var c := Collapse(v);
    forall x | x in ForbiddenNameChars
      ensures x in v <==> x in c
    {
      ForbiddenIsNotSpace(x);
      CollapseKeepsNonSpace(v, x);
    }
    if HasForbiddenChar(v) {
      HasForbiddenCharVia(v, c);
    }
    if HasForbiddenChar(c) {
      HasForbiddenCharVia(c, v);
    }
  }

  /** `AlloggioCreateUpdateSerializer.validate_nome`: whitespace collapsed,
      then at least three characters and none of `< > " ' &`. */
  function ValidateNome(v: string): (r: Result<string, FieldError>)
    ensures r.Ok? <==> |Collapse(v)| >= NameMinLength && !HasForbiddenChar(v)
    ensures r == Err(NameTooShort) <==> |Collapse(v)| < NameMinLength
    ensures r == Err(NameForbiddenChar) <==> |Collapse(v)| >= NameMinLength && HasForbiddenChar(v)
    ensures r.Ok? ==> PyWords(r.value) == PyWords(v) && Collapse(r.value) == r.value
  {
    ForbiddenSurvivesCollapse(v);
    PyWordsAreWords(v);
    PyWordsOfJoin(PyWords(v));
    var value := Collapse(v);
    if |value| < NameMinLength then Err(NameTooShort)
    else if HasForbiddenChar(value) then Err(NameForbiddenChar)
    else Ok(value)
  }

  /** `AlloggioDetailSerializer.validate_prezzo_notte`, on cents. */
  function ValidatePrezzoNotte(p: int): (r: Result<int, FieldError>)
    ensures r.Ok? <==> 0 < p <= MaxNightlyPriceCents
    ensures r.Ok? ==> r.value == p
    ensures p <= 0 ==> r == Err(PriceNotPositive)
    ensures p > MaxNightlyPriceCents ==> r == Err(PriceTooHigh)
  {
    if p <= 0 then Err(PriceNotPositive)
    else if p > MaxNightlyPriceCents then Err(PriceTooHigh)
    else Ok(p)
  }

  /** What is wrong with one amenity, if anything. */
  function ServizioError(x: Json): Option<FieldError> {
    if !x.JStr? then Some(ServizioNotString)
    else if |x.s| > ServizioMaxLength then Some(ServizioTooLong)
    else None
  }

  /** `AlloggioDetailSerializer.validate_servizi`: a list whose elements are
      strings of at most 100 characters; the first offending element
      decides the error. */
  method ValidateServizi(v: Json) returns (r: Result<Json, FieldError>)
    ensures !v.JArr? ==> r == Err(ServiziNotList)
    ensures v.JArr? ==>
              (r.Ok? <==> forall i :: 0 <= i < |v.items| ==>
                            v.items[i].JStr? && |v.items[i].s| <= ServizioMaxLength)
    ensures r.Ok? ==> r.value == v
    ensures r.Err? && v.JArr? ==>
              exists k :: && 0 <= k < |v.items|
                          && ServizioError(v.items[k]) == Some(r.error)
                          && forall j :: 0 <= j < k ==> ServizioError(v.items[j]).None?
  {
    if !v.JArr? {
      return Err(ServiziNotList);
    }
    var i := 0;
    while i < |v.items|
      invariant 0 <= i <= |v.items|
      invariant forall j :: 0 <= j < i ==> ServizioError(v.items[j]).None?
    {
      var e := ServizioError(v.items[i]);
      if e.Some? {
        return Err(e.value);
      }
      i := i + 1;
    }
    return Ok(v);
  }

  // ---------------------------------------------------------------------------
  // Photo source

  /** The two possible sources of a photo; the empty string stands for a
      missing or null value, both of which Python treats as false. */
  datatype PhotoSources = PhotoSources(immagine: string, url: string)

  /** `data.get(field, instance.field)` on update, `data.get(field)` on create. */
  function Effective(given: Option<string>, stored: Option<string>): string {
    match given
    case Some(v) => v
    case None => stored.GetOr([])
  }

  predicate ExactlyOneSource(immagine: string, url: string) {
    (immagine != []) != (url != [])
  }

  function Stored(instance: Option<PhotoSources>, url: bool): Option<string> {
    match instance
    case None => None
    case Some(p) => Some(if url then p.url else p.immagine)
  }

  /** `FotoAlloggioSerializer.validate`, source part: after merging the
      request with the stored photo, exactly one of image and URL must be
      present. */
  function ValidatePhotoSources(instance: Option<PhotoSources>, dataImmagine: Option<string>,
                                dataUrl: Option<string>): (r: Result<PhotoSources, FieldError>)
    ensures r.Ok? <==> ExactlyOneSource(Effective(dataImmagine, Stored(instance, false)),
                                        Effective(dataUrl, Stored(instance, true)))
    ensures r.Ok? ==> r.value.immagine == Effective(dataImmagine, Stored(instance, false))
                      && r.value.url == Effective(dataUrl, Stored(instance, true))
    ensures r == Err(PhotoNoSource) <==>
              Effective(dataImmagine, Stored(instance, false)) == [] && Effective(dataUrl, Stored(instance, true)) == []
    ensures r == Err(PhotoBothSources) <==>
              Effective(dataImmagine, Stored(instance, false)) != [] && Effective(dataUrl, Stored(instance, true)) != []
  {
    var immagine := Effective(dataImmagine, Stored(instance, false));
    var url := Effective(dataUrl, Stored(instance, true));
    if immagine == [] && url == [] then Err(PhotoNoSource)
    else if immagine != [] && url != [] then Err(PhotoBothSources)
    else Ok(PhotoSources(immagine, url))
  }

  /** An update that touches neither field keeps a valid stored photo valid. */
  lemma UntouchedPhotoStaysValid(stored: PhotoSources)
    requires ExactlyOneSource(stored.immagine, stored.url)
    ensures ValidatePhotoSources(Some(stored), None, None) == Ok(stored)
  {
  }

  /** Replacing the URL of an uploaded-image photo is refused: the stored
      image still counts. */
  lemma UrlOnImagePhotoRefused(stored: PhotoSources, url: string)
    requires stored.immagine != [] && url != []
    ensures ValidatePhotoSources(Some(stored), None, Some(url)) == Err(PhotoBothSources)
  {
  }

  // ---------------------------------------------------------------------------
  // Photo URL

  const ImageExtensions: seq<string> := ["jpg", "jpeg", "png", "gif", "webp"]
  const ImageContentTypePrefix: string := "image/"

  /** The text after a `.` completes `(jpg|jpeg|png|gif|webp)(\?.*)?$`. */
  predicate ExtensionTail(t: string) {
    exists e :: e in ImageExtensions && (t == e || (|t| > |e| && t[..|e|] == e && t[|e|] == '?'))
  }

  /** `re.match(r'.*\.(jpg|jpeg|png|gif|webp)(\?.*)?$', u)` for a URL without
      line breaks (a URL the validator accepted has none). */
  predicate HasImageExtension(u: string) {
    exists k :: 0 <= k < |u| && u[k] == '.' && ExtensionTail(u[k + 1..])
  }

  predicate StartsWith(s: string, prefix: string) {
    |prefix| <= |s| && s[..|prefix|] == prefix
  }

  /** The URL part of `FotoAlloggioSerializer.validate` as written.
      `urlValid` is the verdict of Django's `URLValidator`; `head` is the
      content type reported by the HEAD request, `None` when the request
      fails. The refusal raised for a non-image content type sits inside
      `try: ... except: pass` and is discarded, so `head` never matters. */
  function ValidatePhotoUrl(url: string, urlValid: bool, head: Option<string>): (r: Result<(), FieldError>)
    ensures r.Err? <==> url != [] && !urlValid
    ensures r.Err? ==> r.error == PhotoUrlInvalid
  {
    if url == [] then Ok(())
    else if !urlValid then Err(PhotoUrlInvalid)
    else if HasImageExtension(Lower(url)) then Ok(())
    else Ok(())
  }

  /** The check as its messages describe it: a URL without an image
      extension whose server reports a non-image content type is refused;
      a failed HEAD request is still tolerated. */
  function ValidatePhotoUrlCorrected(url: string, urlValid: bool, head: Option<string>): (r: Result<(), FieldError>)
    ensures r.Err? <==>
              && url != []
              && (|| !urlValid
                  || (!HasImageExtension(Lower(url)) && head.Some?
                      && !StartsWith(head.value, ImageContentTypePrefix)))
    ensures r == Err(PhotoUrlInvalid) <==> url != [] && !urlValid
    ensures r == Err(PhotoUrlNotImage) ==> urlValid && head.Some?
  {
    if url == [] then Ok(())
    else if !urlValid then Err(PhotoUrlInvalid)
    else if HasImageExtension(Lower(url)) then Ok(())
    else
      match head
      case None => Ok(())
      case Some(ct) => if StartsWith(ct, ImageContentTypePrefix) then Ok(()) else Err(PhotoUrlNotImage)
  }

  /** A page URL whose server answers `text/html` is accepted as a photo as
      written, and refused by the corrected check. */
  lemma NonImageUrlAccepted()
    ensures ValidatePhotoUrl("http://localhost/foto", true, Some("text/html")).Ok?
    ensures ValidatePhotoUrlCorrected("http://localhost/foto", true, Some("text/html"))
            == Err(PhotoUrlNotImage)
  {
    var u := Lower("http://localhost/foto");
    assert forall k :: 0 <= k < |u| ==> u[k] != '.';
    assert !StartsWith("text/html", ImageContentTypePrefix) by {
      assert "text/html"[..6] != ImageContentTypePrefix by {
        assert "text/html"[0] != ImageContentTypePrefix[0];
      }
    }
  }
}
