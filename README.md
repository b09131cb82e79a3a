# Site builder core, modelled in Dafny

The site builder is a browser tool: the user edits a site document with a site
name, a theme, a main page with a gallery, and a list of pages with their own
galleries. Every edit can be undone and redone. The tool renders a preview
and exports a set of files. This project models the core of that tool:

- `document.dfy` (module `Document`, from config.js): the document value and
  its helpers. `createSiteConfig` builds the default document.
  `updateSiteConfig` is a shallow field merge. `getSiteConfig` copies.
  `validateConfig` lists the empty required fields.
- `mutations.dfy` (module `Mutations`, from app.js): the page and image edits,
  as functions on the lists they change. A page is located as `find` locates
  it: the first page with the id. An image stored as a bare URL string
  (`LegacyUrl`) is normalised to `{url, title}` when it is edited.
- `history.dfy` (module `UndoHistory`, from app.js): the undo and redo stacks
  as a value. It also gives a timeline view: undo and redo only move a cursor
  along a fixed list of states.
- `builder.dfy` (module `Builder`, from app.js): the editor's global state.
  Class `SiteBuilder` holds the document and the two stacks, and its methods
  are the editor's handlers. Each method changes the fields in place, and its
  contract gives the new state as a function of the old one. A handler takes
  a snapshot exactly where the source calls `saveState`. Some handlers
  snapshot before looking the page up, so they snapshot even when the page is
  missing. `addImageInput`, `removeImage`, `updatePageTitle`, the drop
  reorder and the main-gallery handlers take no snapshot.
- `render.dfy` (module `Render`, from app.js) and `decimal.dfy` (module
  `Decimal`): the theme stylesheet and the gallery (as structure and as the
  exact template text). Also the navigation links, the preview and per-page
  documents (as structure), the exported file map and the archive name.

Behaviours of the code kept exactly as written:

- `generateNavigation` compares a numeric page id with a string using `===`.
  So a link is marked active only when the URL fragment is empty. It then
  marks the pages that share the first page's id, and only if that id is
  non-zero. A fragment that names a page never marks its link.
- `generatePageHTML` calls `generateGallery(page.images)` with no gallery
  title. An exported page file therefore never shows its gallery heading,
  although the preview does.
- `generateGallery` emits the gallery block for any non-empty list, even when
  no entry has a URL. That block then holds no figures.

The theme table of themes.js is a parameter: a map from theme id to
stylesheet. The editor ships the ids `modern`, `minimal` and `classic`.
`Date.now()` and `window.location.hash` are parameters too.

## Model

| member | source | states |
|---|---|---|
| Document.CreateSiteConfig | config.js:4-16 | the default document has empty name, title and content, theme `modern`, no images, no pages and no main gallery title |
| Document.UpdateSiteConfig | config.js:19-21 | every field present in the update takes its value; every absent field keeps the old one |
| Document.UpdateWithNothing | config.js:19-21 | merging `{}` returns the document unchanged |
| Document.UpdateIdempotent | config.js:19-21 | merging the same update twice equals merging it once |
| Document.UpdateComposes | config.js:19-21 | two merges in a row equal one merge of the combined update, where later fields win |
| Document.GetSiteConfig | config.js:24-26 | the copy equals the document |
| Document.MissingAmong | config.js:31 | the filter keeps exactly the listed fields whose value is the empty (falsy) string |
| Document.ValidateConfig | config.js:29-37 | `missingFields` lists exactly the empty ones of name, theme, mainTitle, in that order; `isValid` holds iff the list is empty, iff all three are non-empty |
| Document.DefaultIsInvalid | config.js:4-11 | the default document is invalid, missing `name` and `mainTitle` |
| Mutations.FindPage | app.js:197 | `find` gives the first page with the id, or none exactly when no page has it |
| Mutations.FindUnique | app.js:197 | with unique ids, `find` by the id of page k finds page k |
| Mutations.ModifyPage | app.js:212-215 | a find-and-modify edit changes only the first page with the id and leaves all other pages alone; with no match nothing changes |
| Mutations.AppendPage | app.js:73-86 | adding a page appends exactly one page with the given id, title `New Page`, empty content, no images and no gallery title; earlier pages are unchanged; a fresh id keeps ids unique |
| Mutations.RemovePages | app.js:276-281 | after a delete no page has the id; every page with another id survives; no new page appears; with no match the list is unchanged |
| Mutations.RemovePagesSplit | app.js:278 | the filter works piecewise on a split list, so the remaining pages keep their relative order |
| Mutations.RemoveUniquePage | app.js:278 | with unique ids, deleting page k's id gives the pages before k followed by the pages after it |
| Mutations.RemovePagesKeepsUnique | app.js:278 | deleting pages keeps page ids unique |
| Mutations.SetPageTitle | app.js:257-263 | only the first page with the id gets the new title; ids and all other pages are unchanged; an unknown id changes nothing |
| Mutations.SetPageContent | app.js:266-273 | only the first page with the id gets the new content; an unknown id changes nothing |
| Mutations.Reorder | app.js:168-177 | the new list has one page per id in the DOM order, each being the first page with that id, and its ids are exactly that order; unlisted pages are dropped |
| Mutations.ReorderKeepsListedPages | app.js:171-175 | with unique ids every listed page survives, and distinct listed ids give unique ids |
| Mutations.ReorderPermutes | app.js:171-175 | an order that lists every page once yields a permutation (same multiset) of the pages |
| Mutations.ReorderIdempotent | app.js:168-177 | for any DOM order whose ids all name pages, even with repeated ids, running the drop handler again with the same order changes nothing, so the handler being registered on every re-render is harmless |
| Mutations.AppendBlankImage | app.js:199 | adding an image keeps the old entries and appends one `{url:'', title:''}` |
| Mutations.ImageWithUrl | app.js:226-228 | a URL edit gives the structured form with the new URL and the title the entry showed: empty for a legacy string, kept for a struct |
| Mutations.ImageWithTitle | app.js:239-241 | a title edit gives the structured form with the new title and the URL the entry showed: the string itself for a legacy entry |
| Mutations.SetImageUrl | app.js:436-448 | only entry `index` changes, to `{url: new, title: as shown}`; an index out of range changes nothing |
| Mutations.SetImageTitle | app.js:450-462 | only entry `index` changes, to `{url: as shown, title: new}`; an index out of range changes nothing |
| Mutations.LegacyEntryGetsTitle | app.js:453-456 | giving a title to a stored bare URL yields the structured entry with that URL and title |
| Mutations.RemoveImageAt | app.js:464-474 | removing at a valid index shortens the list by one, keeps the earlier entries and shifts the later ones down; an index out of range changes nothing |
| Mutations.AddThenRemove | app.js:199 | adding an image and then removing it at the last index restores the list |
| Mutations.PageWithNewImage | app.js:199-203 | the page gains a blank image; its gallery title becomes `''` only if it had none and is kept otherwise |
| Mutations.AddPageImage | app.js:196-207 | only the first page with the id gains one image and gets a gallery title; an unknown id changes nothing |
| Mutations.SetPageGalleryTitle | app.js:210-217 | only the first page with the id gets the gallery title; an unknown id changes nothing |
| Mutations.SetPageImageUrl | app.js:221-231 | only one entry of the first page with the id changes, normalised; an unknown page or an index out of range changes nothing |
| Mutations.SetPageImageTitle | app.js:234-244 | only one entry of the first page with the id changes, normalised; an unknown page or an index out of range changes nothing |
| Mutations.RemovePageImage | app.js:247-254 | the entry is spliced out of the first page with the id only; an unknown page or an index out of range changes nothing |
| Mutations.EditTouchesOnlyOneEntry | app.js:224-228 | editing one entry leaves every other entry, legacy or not, in its stored form |
| UndoHistory.SaveState | app.js:732-735 | a snapshot pushes the current document onto undo and empties redo |
| UndoHistory.Undo | app.js:738-744 | with an empty undo stack nothing changes; otherwise the current document goes onto redo and the top of undo becomes current; the state count is preserved |
| UndoHistory.Redo | app.js:747-753 | the mirror image of undo, preserving the state count |
| UndoHistory.RedoUndoes | app.js:738-753 | undo followed by redo restores the document and both stacks |
| UndoHistory.UndoRedoes | app.js:738-753 | redo followed by undo restores the document and both stacks |
| UndoHistory.UndoAfterCommit | app.js:732-744 | after a snapshot and a change, undo restores the earlier document and undo stack; redo then restores the change |
| UndoHistory.RedoAfterSaveDoesNothing | app.js:732-735 | after a new snapshot, and after a snapshot followed by any change, redo is a no-op |
| UndoHistory.TimelineDetermines | app.js:727-729 | the stacks and the document are determined by the timeline (undo, current, redo reversed) and the cursor |
| UndoHistory.UndoMovesCursor | app.js:738-744 | undo keeps the timeline and moves the cursor back by one when it can |
| UndoHistory.RedoMovesCursor | app.js:747-753 | redo keeps the timeline and moves the cursor forward by one when it can |
| UndoHistory.SaveTruncatesTimeline | app.js:732-735 | a snapshot drops the states ahead of the cursor and repeats the current one |
| UndoHistory.UndoTimesThenRedoTimes | app.js:738-753 | n undos, with n at most the undo stack's size, are taken back by n redos |
| Builder.SiteBuilder.constructor | app.js:9 | the editor starts with the default document and two empty stacks |
| Builder.SiteBuilder.SaveState | app.js:732-735 | the new state is the snapshot of the old one |
| Builder.SiteBuilder.Undo | app.js:738-744 | the new state is the undo of the old one |
| Builder.SiteBuilder.Redo | app.js:747-753 | the new state is the redo of the old one |
| Builder.SiteBuilder.HandleInputChange | app.js:59-66 | snapshot, then the four form fields merged into the document |
| Builder.SiteBuilder.AddNewPage | app.js:73-86 | snapshot, then one new page appended with the clock value as id |
| Builder.SiteBuilder.DeletePage | app.js:276-281 | snapshot, then every page with the id removed |
| Builder.SiteBuilder.UpdatePageTitle | app.js:257-263 | no snapshot; the first page with the id is retitled |
| Builder.SiteBuilder.UpdatePageContent | app.js:266-273 | snapshot, then the first page with the id gets the content |
| Builder.SiteBuilder.DropReorder | app.js:168-177 | no snapshot; pages re-read in DOM order |
| Builder.SiteBuilder.AddImageInput | app.js:196-207 | no snapshot; one image added to the first page with the id |
| Builder.SiteBuilder.UpdateGalleryTitle | app.js:210-217 | snapshot even if the page is missing, then the gallery title is set |
| Builder.SiteBuilder.UpdateImageUrl | app.js:221-231 | snapshot even if page or index is missing, then the URL edit |
| Builder.SiteBuilder.UpdateImageTitle | app.js:234-244 | snapshot even if page or index is missing, then the title edit |
| Builder.SiteBuilder.RemoveImage | app.js:247-254 | no snapshot; the entry is spliced out |
| Builder.SiteBuilder.AddMainImage | app.js:383-391 | no snapshot; one blank image appended to the main gallery |
| Builder.SiteBuilder.UpdateMainGalleryTitle | app.js:427-434 | no snapshot; the main gallery title is set |
| Builder.SiteBuilder.UpdateMainImageUrl | app.js:436-448 | no snapshot; the URL edit on the main gallery |
| Builder.SiteBuilder.UpdateMainImageTitle | app.js:450-462 | no snapshot; the title edit on the main gallery |
| Builder.SiteBuilder.RemoveMainImage | app.js:464-474 | no snapshot; the entry is spliced out of the main gallery |
| Decimal.IntToString | app.js:553 | an id's text is non-empty, all digits after an optional leading minus sign, starts with `-` exactly for a negative id, and reads back as the id under decimal parsing, as `parseInt(..., 10)` at app.js:172 reads the `data-page-id` text |
| Decimal.NatToString | app.js:172 | the text of a natural number is a non-empty digit string without a leading zero whose decimal value is the number |
| Decimal.IntToStringInjective | app.js:618 | different ids have different texts, since each text reads back as its id |
| Decimal.NatToStringInjective | app.js:618 | different natural numbers have different digit strings |
| Render.Figures | app.js:575-583 | there is at most one figure per entry, and none exactly when no entry has a URL; every figure has a non-empty source and a caption only for a non-empty title, which then is also the alt text (`Gallery image` otherwise) |
| Render.FiguresAppend | app.js:575-583 | figures are produced piecewise over the list (map then join) |
| Render.FigureInOrder | app.js:575-583 | each entry with a URL yields its figure right after the figures of the entries before it, so figures appear in entry order |
| Render.Gallery | app.js:569-586 | nothing exactly for an empty list; otherwise the figures, plus a heading exactly when the gallery title is present and non-empty |
| Render.GalleryExamples | app.js:569-586 | an empty list gives nothing for any title; one untitled image with an empty title gives one figure with no caption and no heading |
| Render.GalleryHtml | app.js:569-586 | the gallery text is empty exactly when the list is empty |
| Render.ThemeStyles | app.js:589-607 | a known theme gives the base styles followed by its stylesheet; an unknown theme gives exactly the base styles |
| Render.CurrentHash | app.js:550 | the key is the fragment after `#` when that is non-empty; it is the number of the first page's id exactly when the fragment is empty and the first page has a non-zero id; otherwise it is the empty string |
| Render.Navigation | app.js:550-555 | one link per page in page order, with `#id` and the page title; a link is active iff the fragment is empty, the first id is non-zero and the page has the first page's id |
| Render.ActiveLinkIsFirst | app.js:551-553 | with unique ids only the first link can be active, and only without a fragment |
| Render.LinksHtmlAppend | app.js:551-553 | the joined text of a list of links is the joined texts of its parts, so links appear in page order |
| Render.NavigationHtml | app.js:551-553 | the navigation text is empty exactly when there are no pages, and otherwise begins with the first page's link |
| Render.Content | app.js:558-566 | one section per page in page order, with the page's id, title, content and gallery |
| Render.SiteHtml | app.js:484-547 | the preview is titled with the main title, its body class is `theme-<theme>`, and it has one navigation link and one section per page |
| Render.PreviewMainSection | app.js:484-547 | the preview has the theme's styles, a Home link to `#main` that is never active, and a main section with the main content and gallery, headed `Main Page` exactly when the main title is empty or is that text |
| Render.PreviewShowsEveryPage | app.js:499-509 | there are as many links and sections as pages; page i has a link to its own section, and both carry its title |
| Render.PageHtml | app.js:644-675 | a page file is titled `<page> - <site>`, its body class is `theme-<theme>`, and its gallery, when present, has no heading |
| Render.PageFileShowsPage | app.js:644-675 | a page file has the title `<page> - <site>`, the theme's styles, an inactive link back to `index.html#main`, the navigation, and the page's heading and content; it has a gallery exactly when the page has images, and that gallery never has a heading |
| Render.PageFileName | app.js:618 | a page file name ends in `.html`, has at least one character before it, and starts with `-` exactly for a negative id |
| Render.PageFileNameReadsBack | app.js:618 | the name's stem is the id's text and reads back as the id |
| Render.PageFileNameIsNotFixed | app.js:618 | no page file name is `index.html`, `README.md` or `site-config.json` |
| Render.PageFileNameInjective | app.js:618 | different page ids give different file names |
| Render.WithPageFiles | app.js:617-619 | writing the page files adds exactly one name per page id and leaves other names alone |
| Render.PageFileNameAbsent | app.js:617-619 | an id that no page has names no page file |
| Render.PageFilesHoldPages | app.js:617-619 | with unique ids, each page's file holds that page's document |
| Render.SiteFiles | app.js:613-626 | the file set is exactly `index.html`, `README.md`, `site-config.json` and one `<id>.html` per page; `index.html` holds the preview, `site-config.json` the document |
| Render.SiteFilesHoldPages | app.js:617-619 | with unique ids the archive holds each page's document under `<id>.html` |
| Render.ArchiveName | app.js:634 | the archive is named after the site, or `site.zip` when the name is empty |
| Mutations.SinglePageEdit | app.js:196-273 | on a one-page list, an edit of that page's id gives the one edited page |
| Mutations.OnePageSession | app.js:73-263 | a new page that is retitled `About`, given two images and then has its first image removed is one page `About` with one blank image and gallery title `''` |
| Builder.ExportOfOnePage | app.js:610-634 | exporting that document gives `index.html`, whose navigation and first section show `About`, and `<id>.html` holding the page's document with heading `About`; the archive is `site.zip` |
| Builder.EditPage | app.js:73-263 | the same edits through the handlers: only `addNewPage` took a snapshot, so the undo stack holds the default document alone and redo is empty |
| Builder.EditSession | app.js:738-753 | after that session, undo leaves the default document with an empty undo stack and the edited document on redo; redo then restores the edited document with the default one on undo |

## Left out

- DOM rendering and event wiring (`loadThemes`, `renderPages`, `generateImageInputs`, `renderMainImages`, `updateUI`, listeners, `window` exports): user interface, no document logic.
- Drag gesture handling (app.js:142-166): pointer geometry. Only the resulting reordering is modelled.
- The preview iframe write, its retry timer, loading the Markdown library and the in-page navigation script (app.js:284-379, and the scripts inside the templates): browser I/O, timers and a foreign library.
- The debounce timer of `handleInputChange`: only the commit it schedules is modelled.
- JSZip packaging, Blob download and the redirect (app.js:628-640): a foreign library and I/O. Only the map from file names to contents is modelled.
- Import, localStorage save, load and clear, and JSON text itself: I/O. A snapshot is a value copy, and `site-config.json` holds the document value instead of its JSON text.
- Render.SiteHtml: the HTML of `generateHTML` and `generatePageHTML` is modelled as structure, not as template text. User text is carried verbatim, with no escaping, as in the source.
- Builder.SiteBuilder.DropReorder: requires every DOM id to name a page, which holds because the list is rebuilt from the pages on every change. The source would put `undefined` entries in the list for an unknown id; that case is not modelled.
- Decimal.IntToString: page ids are integers written in plain decimal. JavaScript's exponent notation from 1e21 up and its loss of precision above 2^53 are not modelled.
- Document.ImageRef: an entry that is `null` or a struct missing `url` or `title` (possible only in imported JSON) is not modelled; entries are legacy strings or complete structs.
- Document.UpdateSiteConfig: an update that sets a field explicitly to `undefined` is not modelled; a field is either present with a value or absent.
- Aliasing of the default document's arrays (config.js:15): with value semantics every new document has its own empty lists.
- Mutations.ModifyPage: pages are values, so object sharing between list positions is not modelled. The drop handler (app.js:171-175) resolves each DOM id with `find`. With repeated page ids (two pages created in the same millisecond, or an imported file) it puts one page object at several positions. A later edit (app.js:258-260 and the other handlers that `find` a page) then shows at all of them, until undo or redo re-parses a snapshot into separate objects. The model edits only the first position. The same holds for SetPageTitle, SetPageContent, AddPageImage, SetPageGalleryTitle, SetPageImageUrl, SetPageImageTitle and RemovePageImage.
