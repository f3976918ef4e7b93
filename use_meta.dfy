/** `useMeta`: the current page's slug picks an entry of the route table (upper-cased slug if it
    is a key, `TOP` otherwise) and the entry's meta data is completed with `||` fallbacks. */
module UseMeta {
  import opened Wrappers
  import opened JsStrings

  /** A meta entry as read from the route table; any field may be missing (`None`). */
  datatype RawMeta = RawMeta(
    title: Option<string>,
    description: Option<string>,
    canonicalUrl: Option<string>,
    ogType: Option<string>,
    ogTitle: Option<string>,
    ogSiteName: Option<string>,
    ogDescription: Option<string>,
    ogImage: Option<string>,
    twitterCard: Option<string>,
    customMeta: Option<seq<(string, string)>>)

  /** The completed meta data; `ogImage` is `None` for `null`. */
  datatype Meta = Meta(
    title: string,
    description: string,
    canonicalUrl: string,
    ogType: string,
    ogTitle: string,
    ogSiteName: string,
    ogDescription: string,
    ogImage: Option<string>,
    twitterCard: string,
    customMeta: seq<(string, string)>)

  /** A table entry whose every string field is given and `customMeta` is absent. */
  function Entry(title: string, description: string, canonicalUrl: string, ogTitle: string,
                 ogSiteName: string, ogDescription: string): RawMeta {
    RawMeta(Some(title), Some(description), Some(canonicalUrl), Some("website"), Some(ogTitle),
            Some(ogSiteName), Some(ogDescription), Some("/"), Some("summary_large_image"), None)
  }

  /** The keys of `ROUTES_META`. */
  predicate IsRouteKey(k: string) {
    k == "TOP" || k == "MORI_CORP_TEST_05" || k == "FIGMA_COMPONENTS"
  }

  /** `ROUTES_META[key].meta` */
  function RoutesMeta(key: string): RawMeta
    requires IsRouteKey(key)
  {
    if key == "TOP" then
      Entry("meta title", "meta description", "meta canonicalUrl", "meta title", "meta title",
            "meta ogDescription")
    else if key == "MORI_CORP_TEST_05" then
      Entry("森ビル コンテンツライブラリ - Test 05",
            "ムービー、グラフィック広告、ラジオ、出版物など森ビルの多様なコンテンツを紹介するページ",
            "/mori-corp-test-05",
            "森ビル コンテンツライブラリ - Test 05",
            "森ビル",
            "ムービー、グラフィック広告、ラジオ、出版物など森ビルの多様なコンテンツを紹介するページ")
    else
      Entry("Figma Components - 確認ページ",
            "Figmaから実装したコンポーネントの確認ページ",
            "/figma-components",
            "Figma Components - 確認ページ",
            "Figma Components",
            "Figmaから実装したコンポーネントの確認ページ")
  }

  /** `getRouteKeyFromSlug(slug)`, with `None` for an undefined slug. No property inherited from
      `Object.prototype` is spelt in upper case, so `in` tests exactly the table's own keys. */
  function RouteKeyFromSlug(slug: Option<string>): (k: string)
    ensures IsRouteKey(k)
    ensures k == "TOP" || (slug.Some? && k == ToUpper(slug.value))
  {
    if slug == None || slug.value == "" then "TOP"
    else if IsRouteKey(ToUpper(slug.value)) then ToUpper(slug.value)
    else "TOP"
  }

  /** The upper-cased slug is taken exactly when it is a key; a missing or empty slug and
      every other slug give `TOP`. */
  lemma RouteKeyChoice(slug: string)
    ensures RouteKeyFromSlug(None) == "TOP" && RouteKeyFromSlug(Some("")) == "TOP"
    ensures IsRouteKey(ToUpper(slug)) ==> RouteKeyFromSlug(Some(slug)) == ToUpper(slug)
    ensures !IsRouteKey(ToUpper(slug)) ==> RouteKeyFromSlug(Some(slug)) == "TOP"
  {
    if slug == "" {
      assert ToUpper(slug) == "";
    }
  }

  lemma ToUpperOfUpper(s: string)
    requires forall i :: 0 <= i < |s| ==> !('a' <= s[i] <= 'z')
    ensures ToUpper(s) == s
  {
  }

  /** Resolving a route key again gives the same key: every key is already upper case. */
  lemma RouteKeyIdempotent(slug: Option<string>)
    ensures RouteKeyFromSlug(Some(RouteKeyFromSlug(slug))) == RouteKeyFromSlug(slug)
  {
    var k := RouteKeyFromSlug(slug);
    var keys := ["TOP", "MORI_CORP_TEST_05", "FIGMA_COMPONENTS"];
    assert k in keys;
    assert forall j, i :: 0 <= j < |keys| && 0 <= i < |keys[j]| ==> !('a' <= keys[j][i] <= 'z');
    ToUpperOfUpper(k);
  }

  /** `_` is the only character that upper-cases to `_`. */
  lemma UpperUnderscore(s: string, i: nat)
    requires i < |s| && ToUpper(s)[i] == '_'
    ensures s[i] == '_'
  {
  }

  /** The two keys other than `TOP` contain `_`, so a slug without `_` (such as the hyphenated
      `figma-components` of the slug table) always resolves to `TOP`. */
  lemma SlugWithoutUnderscoreIsTop(slug: string)
    requires '_' !in slug
    ensures RouteKeyFromSlug(Some(slug)) == "TOP"
  {
    var k := RouteKeyFromSlug(Some(slug));
    if k != "TOP" {
      assert k == ToUpper(slug);
      if k == "MORI_CORP_TEST_05" {
        assert k[4] == '_';
      } else {
        assert k == "FIGMA_COMPONENTS" && k[5] == '_';
        UpperUnderscore(slug, 5);
      }
      UpperUnderscore(slug, if k == "MORI_CORP_TEST_05" then 4 else 5);
    }
  }

  lemma SlugExamples()
    ensures RouteKeyFromSlug(Some("figma-components")) == "TOP"
    ensures RouteKeyFromSlug(Some("top")) == "TOP"
  {
    SlugWithoutUnderscoreIsTop("figma-components");
    SlugWithoutUnderscoreIsTop("top");
  }

  /** `s || fallback` on a string that may be missing. */
  function OrString(s: Option<string>, fallback: string): (r: string)
    ensures r == fallback || (s.Some? && r == s.value && r != "")
    ensures s.Some? && s.value != "" ==> r == s.value
  {
    if s.Some? && s.value != "" then s.value else fallback
  }

  /** `completeMetaData` */
  function CompleteMetaData(meta: RawMeta): Meta {
    var title := OrString(meta.title, "");
    var description := OrString(meta.description, "");
    Meta(
      title,
      description,
      OrString(meta.canonicalUrl, ""),
      OrString(meta.ogType, "website"),
      OrString(meta.ogTitle, title),
      OrString(meta.ogSiteName, title),
      OrString(meta.ogDescription, description),
      if meta.ogImage.Some? && meta.ogImage.value != "" then meta.ogImage else None,
      OrString(meta.twitterCard, "summary_large_image"),
      meta.customMeta.GetOr([]))
  }

  /** What each completed field is: a given non-empty value wins; otherwise the Open Graph
      title and site name fall back to the title, the Open Graph description to the
      description, and the rest to their defaults. */
  lemma CompleteMetaDataFields(meta: RawMeta)
    ensures var m := CompleteMetaData(meta);
      (m.title == "" <==> meta.title.None? || meta.title.value == "") &&
      (m.ogTitle == "" <==> m.title == "" && (meta.ogTitle.None? || meta.ogTitle.value == "")) &&
      (meta.ogTitle.None? ==> m.ogTitle == m.title) &&
      (meta.ogSiteName.None? ==> m.ogSiteName == m.title) &&
      (meta.ogDescription.None? ==> m.ogDescription == m.description) &&
      m.ogType != "" && m.twitterCard != "" &&
      (meta.ogType.None? ==> m.ogType == "website") &&
      (meta.twitterCard.None? ==> m.twitterCard == "summary_large_image") &&
      (m.ogImage.None? <==> meta.ogImage.None? || meta.ogImage.value == "") &&
      (meta.customMeta.None? ==> m.customMeta == []) &&
      (meta.customMeta.Some? ==> m.customMeta == meta.customMeta.value)
  {
  }

  /** The completed data as a raw entry with every field given (`null` as missing). */
  function AsRaw(m: Meta): RawMeta {
    RawMeta(Some(m.title), Some(m.description), Some(m.canonicalUrl), Some(m.ogType), Some(m.ogTitle),
            Some(m.ogSiteName), Some(m.ogDescription), m.ogImage, Some(m.twitterCard), Some(m.customMeta))
  }

  /** Completing is idempotent: completed data has nothing left to fill in. */
  lemma CompleteMetaDataIdempotent(meta: RawMeta)
    ensures CompleteMetaData(AsRaw(CompleteMetaData(meta))) == CompleteMetaData(meta)
  {
  }

  /** `useMeta()` for the slug of the current location. */
  function UseMeta(slug: Option<string>): Meta {
    CompleteMetaData(RoutesMeta(RouteKeyFromSlug(slug)))
  }

  /** Every table entry gives all its fields as they are, with no custom meta. */
  lemma UseMetaOfTable(slug: Option<string>)
    ensures var e := RoutesMeta(RouteKeyFromSlug(slug));
      var m := UseMeta(slug);
      Some(m.title) == e.title && Some(m.ogTitle) == e.ogTitle && Some(m.ogSiteName) == e.ogSiteName &&
      Some(m.ogDescription) == e.ogDescription && Some(m.canonicalUrl) == e.canonicalUrl &&
      m.ogImage == Some("/") && m.customMeta == []
  {
  }
}
