/** The photo gallery of the listing detail page: loading a listing with its
    photo fallbacks, the wrap-around previous/next buttons, thumbnail clicks
    and the choice of the main image. */
module Gallery {
  import opened Wrappers

  const NoImagePlaceholder: string := "https://via.placeholder.com/800x600?text=Nessuna+Immagine"
  const UnavailablePlaceholder: string := "https://via.placeholder.com/800x600?text=Immagine+Non+Disponibile"

  datatype PhotoTipo = Principale | Altro

  datatype GalleryPhoto = GalleryPhoto(id: int, imageUrl: string, descrizione: string, tipo: PhotoTipo, ordine: int)

  /** A listing as the detail endpoint returns it. `immaginePrincipale` is
      `None` for a missing, null or empty value; `foto` is `None` when the
      field is absent. */
  datatype Detail = Detail(id: int, nome: string, immaginePrincipale: Option<string>, foto: Option<seq<GalleryPhoto>>)

  /** The page state the gallery depends on. */
  datatype View = View(alloggio: Option<Detail>, index: int, failed: bool)

  /** The listing shown when the page has no id or the request fails. */
  const FallbackDetail: Detail := Detail(0, "Alloggio Non Disponibile", Some(UnavailablePlaceholder), Some([]))

  function Photos(v: View): seq<GalleryPhoto> {
    if v.alloggio.Some? && v.alloggio.value.foto.Some? then v.alloggio.value.foto.value else []
  }

  /** The index names a photo whenever there is one to name. */
  predicate IndexInRange(v: View) {
    |Photos(v)| > 0 ==> 0 <= v.index < |Photos(v)|
  }

  // ---------------------------------------------------------------------------
  // `loadAlloggioData`

  /** The listing kept after a successful load: its own photos when it has
      some, else one photo made from its main image, else one placeholder. */
  function WithGallery(d: Detail): (r: Detail)
    ensures r.id == d.id && r.nome == d.nome && r.immaginePrincipale == d.immaginePrincipale
    ensures r.foto.Some? && |r.foto.value| > 0
    ensures d.foto.Some? && |d.foto.value| > 0 ==> r == d
    ensures !(d.foto.Some? && |d.foto.value| > 0) && d.immaginePrincipale.Some? ==>
              r.foto == Some([GalleryPhoto(0, d.immaginePrincipale.value, "Immagine principale", Principale, 0)])
    ensures !(d.foto.Some? && |d.foto.value| > 0) && d.immaginePrincipale.None? ==>
              r.foto == Some([GalleryPhoto(0, NoImagePlaceholder, "Nessuna immagine disponibile", Altro, 0)])
  {
    if d.foto.Some? && |d.foto.value| > 0 then d
    else if d.immaginePrincipale.Some? then
      d.(foto := Some([GalleryPhoto(0, d.immaginePrincipale.value, "Immagine principale", Principale, 0)]))
    else
      d.(foto := Some([GalleryPhoto(0, NoImagePlaceholder, "Nessuna immagine disponibile", Altro, 0)]))
  }

  /** `id` is the route parameter and `fetched` the API's answer, `None`
      when the request failed. A failure keeps the previous index. */
  function LoadDetail(v: View, id: Option<string>, fetched: Option<Detail>): (r: View)
    ensures id.None? || fetched.None? ==> r == View(Some(FallbackDetail), v.index, true)
    ensures id.Some? && fetched.Some? ==>
              && r.alloggio == Some(WithGallery(fetched.value))
              && !r.failed && r.index == 0
              && |Photos(r)| > 0 && Photos(r)[r.index] == WithGallery(fetched.value).foto.value[0]
    ensures IndexInRange(r)
  {
    if id.None? || fetched.None? then View(Some(FallbackDetail), v.index, true)
    else View(Some(WithGallery(fetched.value)), 0, false)
  }

  // ---------------------------------------------------------------------------
  // Navigation

  function HandlePrevImage(v: View): (r: View)
    ensures |Photos(v)| == 0 ==> r == v
    ensures |Photos(v)| > 0 && v.index == 0 ==> r == v.(index := |Photos(v)| - 1)
    ensures |Photos(v)| > 0 && v.index != 0 ==> r == v.(index := v.index - 1)
  {
    var n := |Photos(v)|;
    if n > 0 then v.(index := if v.index == 0 then n - 1 else v.index - 1) else v
  }

  function HandleNextImage(v: View): (r: View)
    ensures |Photos(v)| == 0 ==> r == v
    ensures |Photos(v)| > 0 && v.index == |Photos(v)| - 1 ==> r == v.(index := 0)
    ensures |Photos(v)| > 0 && v.index != |Photos(v)| - 1 ==> r == v.(index := v.index + 1)
  {
    var n := |Photos(v)|;
    if n > 0 then v.(index := if v.index == n - 1 then 0 else v.index + 1) else v
  }

  function HandleThumbnailClick(v: View, i: int): (r: View)
    ensures r.index == i && r.alloggio == v.alloggio && r.failed == v.failed
  {
    v.(index := i)
  }

  /** Every button keeps the index on a photo; a thumbnail does when its
      position is one of those rendered. */
  lemma NavigationKeepsIndexInRange(v: View, i: int)
    requires IndexInRange(v)
    ensures IndexInRange(HandlePrevImage(v))
    ensures IndexInRange(HandleNextImage(v))
    ensures 0 <= i < |Photos(v)| ==> IndexInRange(HandleThumbnailClick(v, i))
  {
  }

  /** Previous undoes next and next undoes previous. */
  lemma PrevNextInverse(v: View)
    requires IndexInRange(v)
    ensures HandlePrevImage(HandleNextImage(v)) == v
    ensures HandleNextImage(HandlePrevImage(v)) == v
  {
  }

  function NextTimes(v: View, k: nat): View {
    if k == 0 then v else HandleNextImage(NextTimes(v, k - 1))
  }

  /** Up to a full turn, `k` presses of next move the index `k` places
      round the photo list. */
  lemma {:induction false} NextTimesWraps(v: View, k: nat)
    requires IndexInRange(v) && |Photos(v)| > 0 && k <= |Photos(v)|
    ensures NextTimes(v, k) == v.(index := if v.index + k < |Photos(v)| then v.index + k
                                          else v.index + k - |Photos(v)|)
  {
    if k > 0 {
      NextTimesWraps(v, k - 1);
      assert Photos(NextTimes(v, k - 1)) == Photos(v);
    }
  }

  /** As many presses of next as there are photos come back to the start. */
  lemma FullTurnReturns(v: View)
    requires IndexInRange(v) && |Photos(v)| > 0
    ensures NextTimes(v, |Photos(v)|) == v
  {
    NextTimesWraps(v, |Photos(v)|);
  }

  // ---------------------------------------------------------------------------
  // `mainImageSrc`

  /** The main image of a rendered listing; `None` when reading the photo at
      the index would fail because nothing is there. */
  function MainImageSrc(d: Detail, index: int): (r: Option<string>)
    ensures d.foto.Some? && |d.foto.value| > 0 ==>
              (r.Some? <==> 0 <= index < |d.foto.value|)
    ensures d.foto.Some? && |d.foto.value| > 0 && 0 <= index < |d.foto.value| ==>
              r == Some(d.foto.value[index].imageUrl)
    ensures !(d.foto.Some? && |d.foto.value| > 0) ==>
              r == Some(d.immaginePrincipale.GetOr(NoImagePlaceholder))
  {
    if d.foto.Some? && |d.foto.value| > 0 then
      if 0 <= index < |d.foto.value| then Some(d.foto.value[index].imageUrl) else None
    else Some(d.immaginePrincipale.GetOr(NoImagePlaceholder))
  }

  /** While the index is kept in range the main image always exists. */
  lemma MainImageAlwaysDefined(v: View)
    requires IndexInRange(v) && v.alloggio.Some?
    ensures MainImageSrc(v.alloggio.value, v.index).Some?
  {
  }

  /** Right after a successful load the main image is the first photo of the
      gallery: the listing's own first photo, its main image, or the
      placeholder. */
  lemma LoadedMainImage(v: View, id: string, d: Detail)
    ensures var r := LoadDetail(v, Some(id), Some(d));
            MainImageSrc(r.alloggio.value, r.index)
              == Some(if d.foto.Some? && |d.foto.value| > 0 then d.foto.value[0].imageUrl
                      else d.immaginePrincipale.GetOr(NoImagePlaceholder))
  {
  }
}
