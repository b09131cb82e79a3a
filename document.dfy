/**
  The site-configuration document and the helpers of config.js that build,
  merge, copy and validate it.

  A document is a value: every snapshot, copy or merge yields a new value, which
  is what the JSON round trips of the editor amount to.
 */
module Document {

  datatype Option<+T> = None | Some(value: T)

  /** One gallery entry. Older documents store a bare URL string (`LegacyUrl`);
      every edit writes the structured form (`Image`). */
  datatype ImageRef = LegacyUrl(src: string) | Image(url: string, title: string)

  /** The URL an entry shows: the string itself for the legacy form. */
  function UrlOf(img: ImageRef): string
  {
    match img
    case LegacyUrl(s) => s
    case Image(u, _) => u
  }

  /** The title an entry shows: always empty for the legacy form. */
  function TitleOf(img: ImageRef): string
  {
    match img
    case LegacyUrl(_) => ""
    case Image(_, t) => t
  }

  /** A page of the site. `galleryTitle` is absent until the first image is
      added to the page. */
  datatype Page = Page(
    id: int,
    title: string,
    content: string,
    images: seq<ImageRef>,
    galleryTitle: Option<string>)

  /** The root document. `mainGalleryTitle` is absent until it is first set. */
  datatype SiteConfig = SiteConfig(
    name: string,
    theme: string,
    mainTitle: string,
    mainContent: string,
    mainImages: seq<ImageRef>,
    mainGalleryTitle: Option<string>,
    pages: seq<Page>)

  const DefaultTheme: string := "modern"

  /** `createSiteConfig`: the empty document with the default theme. */
  function CreateSiteConfig(): (c: SiteConfig)
    ensures c.name == "" && c.theme == "modern" && c.mainTitle == "" && c.mainContent == ""
    ensures c.mainImages == [] && c.pages == [] && c.mainGalleryTitle == None
  {
    SiteConfig("", DefaultTheme, "", "", [], None, [])
  }

  /** The partial object given to `updateSiteConfig`: `Some` marks a field
      that is present in it. */
  datatype ConfigUpdate = ConfigUpdate(
    name: Option<string>,
    theme: Option<string>,
    mainTitle: Option<string>,
    mainContent: Option<string>,
    mainImages: Option<seq<ImageRef>>,
    mainGalleryTitle: Option<string>,
    pages: Option<seq<Page>>)

  /** The empty partial object `{}`. */
  const NoUpdates: ConfigUpdate := ConfigUpdate(None, None, None, None, None, None, None)

  /** The update holding exactly the four form fields the editor commits. */
  function FormUpdate(name: string, theme: string, mainTitle: string, mainContent: string): ConfigUpdate
  {
    ConfigUpdate(Some(name), Some(theme), Some(mainTitle), Some(mainContent), None, None, None)
  }

  function Override<T>(present: Option<T>, current: T): T
  {
    if present.Some? then present.value else current
  }

  /** `updateSiteConfig`: the shallow merge `{ ...config, ...updates }`. */
  function UpdateSiteConfig(c: SiteConfig, u: ConfigUpdate): (r: SiteConfig)
    ensures u.name.Some? ==> r.name == u.name.value
    ensures u.name.None? ==> r.name == c.name
    ensures u.theme.Some? ==> r.theme == u.theme.value
    ensures u.theme.None? ==> r.theme == c.theme
    ensures u.mainTitle.Some? ==> r.mainTitle == u.mainTitle.value
    ensures u.mainTitle.None? ==> r.mainTitle == c.mainTitle
    ensures u.mainContent.Some? ==> r.mainContent == u.mainContent.value
    ensures u.mainContent.None? ==> r.mainContent == c.mainContent
    ensures u.mainImages.Some? ==> r.mainImages == u.mainImages.value
    ensures u.mainImages.None? ==> r.mainImages == c.mainImages
    ensures u.mainGalleryTitle.Some? ==> r.mainGalleryTitle == u.mainGalleryTitle
    ensures u.mainGalleryTitle.None? ==> r.mainGalleryTitle == c.mainGalleryTitle
    ensures u.pages.Some? ==> r.pages == u.pages.value
    ensures u.pages.None? ==> r.pages == c.pages
  {
    SiteConfig(
      Override(u.name, c.name),
      Override(u.theme, c.theme),
      Override(u.mainTitle, c.mainTitle),
      Override(u.mainContent, c.mainContent),
      Override(u.mainImages, c.mainImages),
      if u.mainGalleryTitle.Some? then u.mainGalleryTitle else c.mainGalleryTitle,
      Override(u.pages, c.pages))
  }

  /** Merging the empty object changes nothing. */
  lemma UpdateWithNothing(c: SiteConfig)
    ensures UpdateSiteConfig(c, NoUpdates) == c
  {
  }

  /** Merging the same object twice is merging it once. */
  lemma UpdateIdempotent(c: SiteConfig, u: ConfigUpdate)
    ensures UpdateSiteConfig(UpdateSiteConfig(c, u), u) == UpdateSiteConfig(c, u)
  {
  }

  /** `{ ...u1, ...u2 }`: the fields of `u2` win over those of `u1`. */
  function CombineUpdates(u1: ConfigUpdate, u2: ConfigUpdate): ConfigUpdate
  {
    ConfigUpdate(
      if u2.name.Some? then u2.name else u1.name,
      if u2.theme.Some? then u2.theme else u1.theme,
      if u2.mainTitle.Some? then u2.mainTitle else u1.mainTitle,
      if u2.mainContent.Some? then u2.mainContent else u1.mainContent,
      if u2.mainImages.Some? then u2.mainImages else u1.mainImages,
      if u2.mainGalleryTitle.Some? then u2.mainGalleryTitle else u1.mainGalleryTitle,
      if u2.pages.Some? then u2.pages else u1.pages)
  }

  /** Two successive merges are one merge of the combined object. */
  lemma UpdateComposes(c: SiteConfig, u1: ConfigUpdate, u2: ConfigUpdate)
    ensures UpdateSiteConfig(UpdateSiteConfig(c, u1), u2) == UpdateSiteConfig(c, CombineUpdates(u1, u2))
  {
  }

  /** `getSiteConfig`: a copy, equal to the document it copies. */
  function GetSiteConfig(c: SiteConfig): (r: SiteConfig)
    ensures r == c
  {
    c
  }

  /** The result object of `validateConfig`. */
  datatype Validation = Validation(isValid: bool, missingFields: seq<string>)

  /** The fields `validateConfig` insists on, in the order it checks them. */
  const RequiredFields: seq<string> := ["name", "theme", "mainTitle"]

  predicate IsRequiredField(field: string)
  {
    field in RequiredFields
  }

  /** `config[field]` for one of the required fields. */
  function RequiredValue(c: SiteConfig, field: string): string
    requires IsRequiredField(field)
  {
    if field == "name" then c.name
    else if field == "theme" then c.theme
    else c.mainTitle
  }

  /** `fields.filter(field => !config[field])`: a string is falsy exactly when
      it is empty. */
  function MissingAmong(c: SiteConfig, fields: seq<string>): (r: seq<string>)
    requires forall k | 0 <= k < |fields| :: IsRequiredField(fields[k])
    ensures |r| <= |fields|
    ensures forall f :: f in r <==> f in fields && RequiredValue(c, f) == ""
    decreases |fields|
  {
    if |fields| == 0 then []
    else
      var rest := MissingAmong(c, fields[1..]);
      if RequiredValue(c, fields[0]) == "" then [fields[0]] + rest else rest
  }

  /** `validateConfig`: the empty required fields, in the order
      name, theme, mainTitle; the document is valid when there are none. */
  function ValidateConfig(c: SiteConfig): (r: Validation)
    ensures r.isValid <==> r.missingFields == []
    ensures r.isValid <==> c.name != "" && c.theme != "" && c.mainTitle != ""
    ensures r.missingFields ==
              (if c.name == "" then ["name"] else [])
              + (if c.theme == "" then ["theme"] else [])
              + (if c.mainTitle == "" then ["mainTitle"] else [])
  {
    var missing := MissingAmong(c, RequiredFields);
    assert RequiredFields[1..][1..][1..] == [];
    Validation(|missing| == 0, missing)
  }

  /** The default document is not valid: it has no name and no main title. */
  lemma DefaultIsInvalid()
    ensures ValidateConfig(CreateSiteConfig()) == Validation(false, ["name", "mainTitle"])
  {
  }
}
