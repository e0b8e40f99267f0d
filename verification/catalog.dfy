/**
 * Catalogue entries as the Jikan v4 service returns them, the list-response
 * envelope `{data, pagination}`, and the entry sanitiser `filterValidAnime`
 * (src/api.js), which drops region-locked and placeholder entries.
 */
module Catalog {
  import opened Results
  import opened Text
  import opened Seqs

  /** One `images.jpg` or `images.webp` record. */
  datatype ImageUrls = ImageUrls(imageUrl: Option<string>, largeImageUrl: Option<string>)

  datatype Images = Images(jpg: Option<ImageUrls>, webp: Option<ImageUrls>)

  /**
   * An anime entry. Every field the service may omit is an Option: `score`
   * is None for the service's `null` (an unscored entry), `members` is None
   * when the field is absent. `badge` is the `badge_label` the home
   * sections attach to unwrapped entries.
   */
  datatype Anime = Anime(
    malId: Option<int>,
    title: Option<string>,
    images: Option<Images>,
    score: Option<int>,
    members: Option<int>,
    badge: Option<string>)

  /** The object `{...undefined}` evaluates to: no field at all. */
  const NoFields: Anime := Anime(None, None, None, None, None, None)

  /** `item.images?.webp?.large_image_url`. */
  function WebpLarge(a: Anime): Option<string>
  {
    if a.images.Some? && a.images.value.webp.Some? then a.images.value.webp.value.largeImageUrl
    else None
  }

  /** A title fit for display: present, non-empty, not the "not available" sentinel in any case. */
  predicate TitleOk(title: Option<string>)
  {
    title.Some? && title.value != "" && !Contains(Lower(title.value), "not available")
  }

  /** No placeholder artwork: the webp large image, when there is one, is not the question mark. */
  predicate ImageOk(a: Anime)
  {
    !(WebpLarge(a).Some? && Contains(WebpLarge(a).value, "questionmark"))
  }

  /** The predicate `filterValidAnime` applies to each entry. */
  predicate IsValid(a: Anime)
  {
    TitleOk(a.title) && ImageOk(a)
  }

  /** `filterValidAnime(list)`. */
  function FilterValid(xs: seq<Anime>): (r: seq<Anime>)
    ensures |r| <= |xs|
    ensures forall i :: 0 <= i < |r| ==> IsValid(r[i])
  {
    Filter(IsValid, xs)
  }

  /**
   * The sanitiser keeps exactly the valid entries, in their input order, and
   * never lengthens its input.
   */
  lemma FilterValidSelects(xs: seq<Anime>)
    ensures IsSubsequence(FilterValid(xs), xs)
    ensures forall a :: a in FilterValid(xs) <==> a in xs && IsValid(a)
  {
    FilterIsSubsequence(IsValid, xs);
  }

  /** Sanitising twice is sanitising once. */
  lemma FilterValidIdempotent(xs: seq<Anime>)
    ensures FilterValid(FilterValid(xs)) == FilterValid(xs)
  {
    FilterIdempotent(IsValid, xs);
  }

  /** Sanitising distributes over concatenation, so a page appended after sanitising equals sanitising the whole. */
  lemma FilterValidConcat(a: seq<Anime>, b: seq<Anime>)
    ensures FilterValid(a + b) == FilterValid(a) + FilterValid(b)
  {
    FilterConcat(IsValid, a, b);
  }

  /** An entry without `images`, `images.webp` or `webp.large_image_url` passes the image test. */
  lemma MissingImagePasses(a: Anime)
    requires a.images.None? || a.images.value.webp.None? || a.images.value.webp.value.largeImageUrl.None?
    ensures IsValid(a) <==> TitleOk(a.title)
  {
  }

  /** Only the webp large URL is inspected: the jpg variants and the small webp URL never matter. */
  lemma OnlyWebpLargeInspected(a: Anime, jpg: Option<ImageUrls>, webpSmall: Option<string>)
    requires a.images.Some? && a.images.value.webp.Some?
    ensures var w := a.images.value.webp.value;
            IsValid(a.(images := Some(Images(jpg, Some(w.(imageUrl := webpSmall)))))) <==> IsValid(a)
  {
  }

  /** A placeholder webp image rejects the entry whatever its title. */
  lemma PlaceholderRejected(a: Anime, url: string)
    requires WebpLarge(a) == Some(url) && Contains(url, "questionmark")
    ensures !IsValid(a)
  {
  }

  lemma NotAvailableTitle()
    ensures !TitleOk(Some("Not Available"))
  {
    var l := Lower("Not Available");
    assert l == "not available";
    assert OccursAt(l, "not available", 0);
  }

  /** Sanitising a list with exactly one invalid entry removes that entry and keeps the rest in order. */
  lemma {:induction false} DropsTheOneInvalid(xs: seq<Anime>, j: int)
    requires 0 <= j < |xs| && !IsValid(xs[j])
    requires forall i :: 0 <= i < |xs| && i != j ==> IsValid(xs[i])
    ensures FilterValid(xs) == xs[..j] + xs[j + 1..]
    decreases j
  {
    var rest := xs[1..];
    forall i | 0 <= i < |rest| && i != j - 1 ensures IsValid(rest[i]) {
      assert rest[i] == xs[i + 1];
    }
    if j == 0 {
      FilterAllPass(IsValid, rest);
      assert FilterValid(xs) == FilterValid(rest);
    } else {
      DropsTheOneInvalid(rest, j - 1);
      assert FilterValid(xs) == [xs[0]] + FilterValid(rest);
      SpliceTail(xs, j);
    }
  }

  /** Cutting out position `j > 0` commutes with taking the head off. */
  lemma SpliceTail(xs: seq<Anime>, j: int)
    requires 0 < j < |xs|
    ensures xs[..j] + xs[j + 1..] == [xs[0]] + (xs[1..][..j - 1] + xs[1..][j..])
  {
  }

  /**
   * A ranked page of twelve entries, one of them titled "Not Available" and
   * the rest valid, sanitises to the eleven valid ones.
   */
  lemma OneUnavailableOfTwelve(xs: seq<Anime>, j: int)
    requires |xs| == 12 && 0 <= j < 12
    requires xs[j].title == Some("Not Available")
    requires forall i :: 0 <= i < 12 && i != j ==> IsValid(xs[i])
    ensures FilterValid(xs) == xs[..j] + xs[j + 1..]
    ensures |FilterValid(xs)| == 11
  {
    NotAvailableTitle();
    DropsTheOneInvalid(xs, j);
  }

  // ---------------------------------------------------------------------------
  // Response envelope
  // ---------------------------------------------------------------------------

  /** The `pagination` object of a list response. */
  datatype Pagination = Pagination(hasNextPage: Option<bool>, itemsTotal: Option<int>, lastVisiblePage: Option<int>)

  /** A list response `{data, pagination}`; either field may be missing. */
  datatype Page<T> = Page(data: Option<seq<T>>, pagination: Option<Pagination>)

  /** `data.data || []`. */
  function Items<T>(p: Page<T>): seq<T>
  {
    p.data.GetOr([])
  }

  /** `data.pagination?.has_next_page || false`. */
  function HasNext<T>(p: Page<T>): bool
  {
    p.pagination.Some? && p.pagination.value.hasNextPage == Some(true)
  }
}
