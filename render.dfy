/**
  The render helpers of app.js: the image gallery, the theme stylesheet, the
  navigation links, the preview document and the exported page documents (as
  structure, not as template text), and the exported file set.

  The theme table of themes.js is a parameter `themes` mapping a theme id to
  its stylesheet; the editor ships the ids "modern", "minimal" and "classic".
  The URL fragment of the editor window is a parameter `hash`.
 */
module Render {
  import opened Document
  import opened Decimal
  import Mutations

  // ---------------------------------------------------------------------------
  // Gallery (`generateGallery`)
  // ---------------------------------------------------------------------------

  /** One `<figure>`: image source, alt text, optional `<figcaption>`. */
  datatype Figure = Figure(src: string, alt: string, caption: Option<string>)

  /** A rendered gallery: the optional `<h3>` heading and its figures. */
  datatype GalleryView = GalleryView(heading: Option<string>, figures: seq<Figure>)

  /** The figure an entry with a URL renders to. */
  function FigureFor(img: ImageRef): Figure
  {
    var title := TitleOf(img);
    Figure(UrlOf(img), if title == "" then "Gallery image" else title, if title == "" then None else Some(title))
  }

  /** What every rendered figure satisfies: a non-empty source, and a caption
      only for a non-empty title, which is then also the alt text. */
  predicate WellFormedFigure(f: Figure)
  {
    && f.src != ""
    && (f.caption.None? ==> f.alt == "Gallery image")
    && (f.caption.Some? ==> f.caption.value != "" && f.alt == f.caption.value)
  }

  /** The figures of a list of entries: one per entry with a non-empty URL;
      entries without one render to nothing. */
  function Figures(images: seq<ImageRef>): (r: seq<Figure>)
    ensures |r| <= |images|
    ensures forall k | 0 <= k < |r| :: WellFormedFigure(r[k])
    ensures |r| == 0 <==> forall i | 0 <= i < |images| :: UrlOf(images[i]) == ""
    decreases |images|
  {
    if |images| == 0 then []
    else FigureOf(images[0]) + Figures(images[1..])
  }

  /** What one entry contributes: its figure when it has a URL, else nothing. */
  function FigureOf(img: ImageRef): seq<Figure>
  {
    if UrlOf(img) != "" then [FigureFor(img)] else []
  }

  /** Figures are produced piecewise, so in the order of the entries. */
  lemma {:induction false} FiguresAppend(a: seq<ImageRef>, b: seq<ImageRef>)
    ensures Figures(a + b) == Figures(a) + Figures(b)
    decreases |a|
  {
    if |a| == 0 {
      assert a + b == b;
    } else {
      assert (a + b)[0] == a[0] && (a + b)[1..] == a[1..] + b;
      FiguresAppend(a[1..], b);
    }
  }

  /** The entry at `i`, when it has a URL, renders to the figure that follows
      the figures of the entries before it. */
  lemma FigureInOrder(images: seq<ImageRef>, i: nat)
    requires i < |images| && UrlOf(images[i]) != ""
    ensures var k := |Figures(images[..i])|;
            k < |Figures(images)| && Figures(images)[k] == FigureFor(images[i])
  {
    assert images == images[..i] + images[i..];
    FiguresAppend(images[..i], images[i..]);
  }

  /** `generateGallery(images, galleryTitle)`: nothing for an empty list;
      otherwise a heading for a non-empty gallery title, and the figures. */
  function Gallery(images: seq<ImageRef>, galleryTitle: Option<string>): (r: Option<GalleryView>)
    ensures r.None? <==> |images| == 0
    ensures r.Some? ==> r.value.figures == Figures(images)
    ensures r.Some? ==> (r.value.heading.Some? <==> galleryTitle.Some? && galleryTitle.value != "")
    ensures r.Some? && r.value.heading.Some? ==> r.value.heading == galleryTitle
  {
    if |images| == 0 then None
    else
      var title := if galleryTitle.Some? then galleryTitle.value else "";
      Some(GalleryView(if title != "" then Some(title) else None, Figures(images)))
  }

  /** An empty list renders to nothing whatever the title; one untitled
      image renders to one figure without caption or heading. */
  lemma GalleryExamples(title: Option<string>)
    ensures Gallery([], title) == None
    ensures Gallery([Image("a", "")], Some("")) == Some(GalleryView(None, [Figure("a", "Gallery image", None)]))
  {
    var images := [Image("a", "")];
    assert images[1..] == [];
    assert FigureFor(images[0]) == Figure("a", "Gallery image", None);
    assert Figures(images) == [FigureFor(images[0])];
  }

  function CaptionHtml(caption: Option<string>): string
  {
    if caption.Some? then "<figcaption>" + caption.value + "</figcaption>" else ""
  }

  function FigureHtml(f: Figure): string
  {
    "\n                    <figure>\n                        <img src=\"" + f.src + "\" alt=\"" + f.alt
    + "\">\n                        " + CaptionHtml(f.caption) + "\n                    </figure>"
  }

  function FiguresHtml(figures: seq<Figure>): string
    decreases |figures|
  {
    if |figures| == 0 then "" else FigureHtml(figures[0]) + FiguresHtml(figures[1..])
  }

  function HeadingHtml(heading: Option<string>): string
  {
    if heading.Some? then "<h3 class=\"gallery-title\">" + heading.value + "</h3>" else ""
  }

  function GalleryViewHtml(g: GalleryView): string
  {
    "\n        " + HeadingHtml(g.heading) + "\n        <div class=\"gallery\">\n            "
    + FiguresHtml(g.figures) + "\n        </div>\n    "
  }

  /** The text `generateGallery` returns: empty exactly for an empty list. */
  function GalleryHtml(images: seq<ImageRef>, galleryTitle: Option<string>): (r: string)
    ensures r == "" <==> |images| == 0
  {
    match Gallery(images, galleryTitle)
    case None => ""
    case Some(g) => GalleryViewHtml(g)
  }

  // ---------------------------------------------------------------------------
  // Theme styles (`getThemeStyles`)
  // ---------------------------------------------------------------------------

  /** The structural stylesheet every theme starts with. */
  const BaseStyles: string :=
    "\n        * { margin: 0; padding: 0; box-sizing: border-box; }"
    + "\n        body { font-family: system-ui, sans-serif; line-height: 1.6; }"
    + "\n        nav { padding: 1rem; }"
    + "\n        nav a { margin-right: 1rem; }"
    + "\n        main { padding: 2rem; }"
    + "\n        .gallery { display: grid; grid-template-columns: repeat(auto-fill, minmax(200px, 1fr)); gap: 1rem; }"
    + "\n        .gallery img { width: 100%; height: auto; border-radius: 4px; }"
    + "\n    "

  /** `getThemeStyles(theme)`: the base styles followed by the theme's own;
      an unknown theme gets the base styles alone. */
  function ThemeStyles(theme: string, themes: map<string, string>): (r: string)
    ensures theme in themes ==> r == BaseStyles + themes[theme]
    ensures theme !in themes ==> r == BaseStyles
    ensures r[..|BaseStyles|] == BaseStyles
  {
    BaseStyles + (if theme in themes then themes[theme] else "")
  }

  // ---------------------------------------------------------------------------
  // Navigation (`generateNavigation`)
  // ---------------------------------------------------------------------------

  /** The value `generateNavigation` compares page ids with: a string, unless
      the fragment is empty and the first page has a non-zero id, in which case
      it is that id as a number. */
  datatype HashKey = HashText(text: string) | HashNumber(n: int)

  /** `hash.slice(1)`. */
  function HashSlice(hash: string): string
  {
    if |hash| == 0 then "" else hash[1..]
  }

  /** `hash.slice(1) || (pages[0]?.id || '')`. */
  function CurrentHash(hash: string, pages: seq<Page>): (r: HashKey)
    ensures HashSlice(hash) != "" ==> r == HashText(HashSlice(hash))
    ensures r.HashNumber? <==> HashSlice(hash) == "" && |pages| > 0 && pages[0].id != 0
    ensures r.HashNumber? ==> r.n == pages[0].id
    ensures r.HashText? && HashSlice(hash) == "" ==> r.text == ""
  {
    var slice := HashSlice(hash);
    if slice != "" then HashText(slice)
    else if |pages| > 0 && pages[0].id != 0 then HashNumber(pages[0].id)
    else HashText("")
  }

  /** One `<a>` of the navigation bar; `active` puts the class `active` on it. */
  datatype NavLink = NavLink(href: string, text: string, active: bool)

  /** The link of a page; `page.id === currentHash` holds only when the key
      is a number equal to the id. */
  function PageLink(p: Page, key: HashKey): NavLink
  {
    NavLink("#" + IntToString(p.id), p.title, key == HashNumber(p.id))
  }

  /** `generateNavigation`: one link per page, in page order. Because a
      number is never `===` to a string, a link is active only when the
      fragment is empty, and then exactly for the pages sharing the first
      page's (non-zero) id. */
  function Navigation(pages: seq<Page>, hash: string): (r: seq<NavLink>)
    ensures |r| == |pages|
    ensures forall i | 0 <= i < |pages| ::
              r[i].href == "#" + IntToString(pages[i].id) && r[i].text == pages[i].title
    ensures forall i | 0 <= i < |pages| ::
              r[i].active <==> HashSlice(hash) == "" && pages[0].id != 0 && pages[i].id == pages[0].id
  {
    var key := CurrentHash(hash, pages);
    seq(|pages|, i requires 0 <= i < |pages| => PageLink(pages[i], key))
  }

  /** With unique ids at most the first link is active, and a fragment that
      names a page never makes its link active. */
  lemma ActiveLinkIsFirst(pages: seq<Page>, hash: string, i: nat)
    requires Mutations.UniqueIds(pages) && i < |pages|
    ensures Navigation(pages, hash)[i].active <==> i == 0 && HashSlice(hash) == "" && pages[0].id != 0
  {
  }

  /** One `<a href="..." class="...">title</a>`. */
  function LinkHtml(l: NavLink): (r: string)
    ensures |r| > 0 && r[0] == '<'
  {
    "<a href=\"" + l.href + "\" class=\"" + (if l.active then "active" else "") + "\">" + l.text + "</a>"
  }

  /** `.join('')` of the links' texts. */
  function LinksHtml(links: seq<NavLink>): (r: string)
    ensures r == "" <==> |links| == 0
    decreases |links|
  {
    if |links| == 0 then "" else LinkHtml(links[0]) + LinksHtml(links[1..])
  }

  /** The joined text of a list is the joined texts of its parts, so the
      links appear in page order. */
  lemma {:induction false} LinksHtmlAppend(a: seq<NavLink>, b: seq<NavLink>)
    ensures LinksHtml(a + b) == LinksHtml(a) + LinksHtml(b)
    decreases |a|
  {
    if |a| == 0 {
      assert a + b == b;
    } else {
      assert (a + b)[0] == a[0] && (a + b)[1..] == a[1..] + b;
      LinksHtmlAppend(a[1..], b);
    }
  }

  /** The text `generateNavigation` returns. */
  function NavigationHtml(pages: seq<Page>, hash: string): (r: string)
    ensures r == "" <==> |pages| == 0
    ensures |pages| > 0 ==> LinkHtml(Navigation(pages, hash)[0]) <= r
  {
    LinksHtml(Navigation(pages, hash))
  }

  // ---------------------------------------------------------------------------
  // Documents (`generateContent`, `generateHTML`, `generatePageHTML`)
  // ---------------------------------------------------------------------------

  /** A heading, the Markdown source (kept in `data-markdown` and as the raw
      text of the content block) and the gallery. */
  datatype Block = Block(heading: string, markdown: string, gallery: Option<GalleryView>)

  /** A `<section id=...>` of the preview. */
  datatype Section = Section(id: string, block: Block)

  /** The preview document and `index.html`. */
  datatype SiteDocument = SiteDocument(
    title: string,
    styles: string,
    bodyClass: string,
    home: NavLink,
    nav: seq<NavLink>,
    main: Section,
    sections: seq<Section>)

  /** An exported page document `<id>.html`. */
  datatype PageDocument = PageDocument(
    title: string,
    styles: string,
    bodyClass: string,
    home: NavLink,
    nav: seq<NavLink>,
    body: Block)

  function PageSection(p: Page): Section
  {
    Section(IntToString(p.id), Block(p.title, p.content, Gallery(p.images, p.galleryTitle)))
  }

  /** `generateContent`: one section per page, in page order, with the page's
      title, content and gallery. */
  function Content(pages: seq<Page>): (r: seq<Section>)
    ensures |r| == |pages|
    ensures forall i | 0 <= i < |pages| ::
              && r[i].id == IntToString(pages[i].id)
              && r[i].block == Block(pages[i].title, pages[i].content, Gallery(pages[i].images, pages[i].galleryTitle))
  {
    seq(|pages|, i requires 0 <= i < |pages| => PageSection(pages[i]))
  }

  /** `generateHTML`: the theme's styles, a Home link and one link per page,
      the main section (titled "Main Page" when the main title is empty) and
      one section per page. */
  function SiteHtml(c: SiteConfig, hash: string, themes: map<string, string>): (d: SiteDocument)
    ensures d.title == c.mainTitle && d.bodyClass == "theme-" + c.theme
    ensures |d.nav| == |d.sections| == |c.pages|
  {
    SiteDocument(
      c.mainTitle,
      ThemeStyles(c.theme, themes),
      "theme-" + c.theme,
      NavLink("#main", "Home", false),
      Navigation(c.pages, hash),
      Section("main", Block(if c.mainTitle == "" then "Main Page" else c.mainTitle, c.mainContent,
                            Gallery(c.mainImages, c.mainGalleryTitle))),
      Content(c.pages))
  }

  /** Every page has a link and a section in the preview, both with its title. */
  lemma PreviewShowsEveryPage(c: SiteConfig, hash: string, themes: map<string, string>, i: nat)
    requires i < |c.pages|
    ensures var d := SiteHtml(c, hash, themes);
            && |d.nav| == |d.sections| == |c.pages|
            && d.nav[i].href == "#" + d.sections[i].id
            && d.nav[i].text == c.pages[i].title
            && d.sections[i].block.heading == c.pages[i].title
            && d.sections[i].id == IntToString(c.pages[i].id)
  {
  }

  /** The preview's main section: titled "Main Page" when the main title is
      empty, holding the main content and the main gallery with its title, and
      reached by a Home link that is never active. */
  lemma PreviewMainSection(c: SiteConfig, hash: string, themes: map<string, string>)
    ensures var d := SiteHtml(c, hash, themes);
            && d.main.id == "main" && d.home.href == "#" + d.main.id && !d.home.active
            && (d.main.block.heading == "Main Page" <==> c.mainTitle == "" || c.mainTitle == "Main Page")
            && d.main.block.markdown == c.mainContent
            && d.main.block.gallery == Gallery(c.mainImages, c.mainGalleryTitle)
            && d.styles == ThemeStyles(c.theme, themes)
  {
  }

  /** `generatePageHTML(page)`: the page alone, titled "<page> - <site>", with
      a link back to `index.html#main`. Its gallery is rendered without the
      page's gallery title, as `generateGallery(page.images)` is called with
      one argument. */
  function PageHtml(c: SiteConfig, p: Page, hash: string, themes: map<string, string>): (d: PageDocument)
    ensures d.title == p.title + " - " + c.name && d.bodyClass == "theme-" + c.theme
    ensures d.body.gallery.Some? ==> d.body.gallery.value.heading.None?
  {
    PageDocument(
      p.title + " - " + c.name,
      ThemeStyles(c.theme, themes),
      "theme-" + c.theme,
      NavLink("index.html#main", "Main", false),
      Navigation(c.pages, hash),
      Block(p.title, p.content, Gallery(p.images, None)))
  }

  /** An exported page file shows the page's title, content and figures, and
      its navigation; it has a gallery exactly when the page has images, and
      that gallery never has a heading, whatever the page's gallery title. */
  lemma PageFileShowsPage(c: SiteConfig, p: Page, hash: string, themes: map<string, string>)
    ensures var d := PageHtml(c, p, hash, themes);
            && d.title == p.title + " - " + c.name
            && d.styles == ThemeStyles(c.theme, themes)
            && d.home.href == "index.html#main" && !d.home.active
            && d.nav == Navigation(c.pages, hash)
            && d.body.heading == p.title && d.body.markdown == p.content
            && (d.body.gallery.None? <==> |p.images| == 0)
            && (d.body.gallery.Some? ==> d.body.gallery.value == GalleryView(None, Figures(p.images)))
  {
  }

  // ---------------------------------------------------------------------------
  // Exported file set (`generateSite`)
  // ---------------------------------------------------------------------------

  /** The content of an exported file; `ConfigJson` stands for the
      pretty-printed JSON text of the document. */
  datatype SiteFile =
    | IndexFile(site: SiteDocument)
    | PageFile(page: PageDocument)
    | ReadmeFile(text: string)
    | ConfigJson(config: SiteConfig)

  const ReadmeText: string :=
    "Visit **your link here** to see this site in action!\n\n"
    + "Made with [Brian's Simple Site Generator](https://bgag2783.github.io/Generator/)"

  const FixedNames: set<string> := {"index.html", "README.md", "site-config.json"}

  /** `${page.id}.html`. */
  function PageFileName(id: int): (r: string)
    ensures |r| >= 6 && r[|r| - 5..] == ".html"
    ensures r[0] == '-' <==> id < 0
  {
    IntToString(id) + ".html"
  }

  /** The stem of a page file is the id's text, which `parseInt(..., 10)`
      reads back as the id. */
  lemma PageFileNameReadsBack(id: int)
    ensures var r := PageFileName(id);
            && r[..|r| - 5] == IntToString(id)
            && SignedValue(r[..|r| - 5]) == id
  {
    var r := PageFileName(id);
    assert r[..|r| - 5] == IntToString(id);
  }

  /** No page file can take the name of one of the fixed files. */
  lemma PageFileNameIsNotFixed(id: int)
    ensures PageFileName(id) !in FixedNames
  {
    var s := IntToString(id);
    var name := PageFileName(id);
    assert name[0] == s[0] && name[|name| - 1] == 'l';
  }

  /** Different ids give different page files. */
  lemma PageFileNameInjective(a: int, b: int)
    requires PageFileName(a) == PageFileName(b)
    ensures a == b
  {
    var sa, sb := IntToString(a), IntToString(b);
    assert |sa| == |sb|;
    assert sa == PageFileName(a)[..|sa|] == sb;
    IntToStringInjective(a, b);
  }

  function PageFileNames(pages: seq<Page>): set<string>
  {
    set p | p in pages :: PageFileName(p.id)
  }

  /** `pages.forEach(page => zip.file(...))`: one write per page, in order,
      a later page with the same id replacing an earlier one's file; `render`
      gives a page's document. */
  function WithPageFiles(files: map<string, SiteFile>, pages: seq<Page>, render: Page -> PageDocument)
    : (r: map<string, SiteFile>)
    ensures r.Keys == files.Keys + PageFileNames(pages)
    ensures forall name | name in files && name !in PageFileNames(pages) :: r[name] == files[name]
    decreases |pages|
  {
    if |pages| == 0 then files
    else
      var next := files[PageFileName(pages[0].id) := PageFile(render(pages[0]))];
      assert PageFileNames(pages) == {PageFileName(pages[0].id)} + PageFileNames(pages[1..]) by {
        assert pages == [pages[0]] + pages[1..];
      }
      WithPageFiles(next, pages[1..], render)
  }

  /** An id no page has names none of the page files. */
  lemma PageFileNameAbsent(pages: seq<Page>, id: int)
    requires forall p | p in pages :: p.id != id
    ensures PageFileName(id) !in PageFileNames(pages)
  {
    forall p | p in pages ensures PageFileName(p.id) != PageFileName(id) {
      if PageFileName(p.id) == PageFileName(id) {
        PageFileNameInjective(p.id, id);
      }
    }
  }

  /** With unique ids, every page's file holds that page's document. */
  lemma {:induction false} PageFilesHoldPages(files: map<string, SiteFile>, pages: seq<Page>,
                                              render: Page -> PageDocument, i: nat)
    requires Mutations.UniqueIds(pages) && i < |pages|
    ensures WithPageFiles(files, pages, render)[PageFileName(pages[i].id)] == PageFile(render(pages[i]))
    decreases |pages|
  {
    var next := files[PageFileName(pages[0].id) := PageFile(render(pages[0]))];
    var tail := pages[1..];
    forall j | 0 <= j < |tail| ensures tail[j] == pages[j + 1] { }
    if i == 0 {
      forall p | p in tail ensures p.id != pages[0].id {
        var j :| 0 <= j < |tail| && tail[j] == p;
      }
      PageFileNameAbsent(tail, pages[0].id);
    } else {
      PageFilesHoldPages(next, tail, render, i - 1);
    }
  }

  /** The document of one exported page. */
  function PageRenderer(c: SiteConfig, hash: string, themes: map<string, string>): Page -> PageDocument
  {
    (p: Page) => PageHtml(c, p, hash, themes)
  }

  /** The files `generateSite` puts in the archive, by name. */
  function SiteFiles(c: SiteConfig, hash: string, themes: map<string, string>): (files: map<string, SiteFile>)
    ensures files.Keys == FixedNames + PageFileNames(c.pages)
    ensures files["index.html"] == IndexFile(SiteHtml(c, hash, themes))
    ensures files["README.md"] == ReadmeFile(ReadmeText)
    ensures files["site-config.json"] == ConfigJson(c)
  {
    var index := map["index.html" := IndexFile(SiteHtml(c, hash, themes))];
    assert "index.html" !in PageFileNames(c.pages) by {
      forall p | p in c.pages ensures PageFileName(p.id) != "index.html" {
        PageFileNameIsNotFixed(p.id);
      }
    }
    var withPages := WithPageFiles(index, c.pages, PageRenderer(c, hash, themes));
    assert withPages["index.html"] == IndexFile(SiteHtml(c, hash, themes));
    withPages["README.md" := ReadmeFile(ReadmeText)]["site-config.json" := ConfigJson(c)]
  }

  /** With unique ids, the archive holds each page's own document under
      `<id>.html`. */
  lemma SiteFilesHoldPages(c: SiteConfig, hash: string, themes: map<string, string>, i: nat)
    requires Mutations.UniqueIds(c.pages) && i < |c.pages|
    ensures SiteFiles(c, hash, themes)[PageFileName(c.pages[i].id)] == PageFile(PageHtml(c, c.pages[i], hash, themes))
  {
    var index := map["index.html" := IndexFile(SiteHtml(c, hash, themes))];
    PageFilesHoldPages(index, c.pages, PageRenderer(c, hash, themes), i);
    PageFileNameIsNotFixed(c.pages[i].id);
  }

  /** `${name || 'site'}.zip`. */
  function ArchiveName(name: string): (r: string)
    ensures name != "" ==> r == name + ".zip"
    ensures name == "" ==> r == "site.zip"
  {
    (if name == "" then "site" else name) + ".zip"
  }
}
