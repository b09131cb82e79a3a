/**
  The editor's global state (app.js): the document being edited and the two
  history stacks, changed in place by the editor's handlers. Each handler
  snapshots first exactly where app.js calls `saveState`, and then applies the
  operation of module Mutations; a handler whose page or index is missing
  still takes its snapshot when the source takes it before the check.
 */
module Builder {
  import opened Document
  import opened Mutations
  import UndoHistory
  import Render

  class SiteBuilder {
    var config: SiteConfig
    var undoStack: seq<SiteConfig>
    var redoStack: seq<SiteConfig>

    /** The whole state as a history value. */
    function State(): UndoHistory.History
      reads this
    {
      UndoHistory.History(config, undoStack, redoStack)
    }

    /** The state at start-up: `let siteConfig = createSiteConfig()` and two
        empty stacks. */
    constructor ()
      ensures config == CreateSiteConfig() && undoStack == [] && redoStack == []
    {
      config := CreateSiteConfig();
      undoStack := [];
      redoStack := [];
    }

    // -------------------------------------------------------------------------
    // History
    // -------------------------------------------------------------------------

    method SaveState()
      modifies this
      ensures State() == UndoHistory.SaveState(old(State()))
    {
      undoStack := undoStack + [config];
      redoStack := [];
    }

    method Undo()
      modifies this
      ensures State() == UndoHistory.Undo(old(State()))
    {
      if |undoStack| > 0 {
        redoStack := redoStack + [config];
        config := undoStack[|undoStack| - 1];
        undoStack := undoStack[..|undoStack| - 1];
      }
    }

    method Redo()
      modifies this
      ensures State() == UndoHistory.Redo(old(State()))
    {
      if |redoStack| > 0 {
        undoStack := undoStack + [config];
        config := redoStack[|redoStack| - 1];
        redoStack := redoStack[..|redoStack| - 1];
      }
    }

    // -------------------------------------------------------------------------
    // Site fields
    // -------------------------------------------------------------------------

    /** The debounced commit of `handleInputChange`: a snapshot, then the
        merge of the four form fields. */
    method HandleInputChange(name: string, theme: string, mainTitle: string, mainContent: string)
      modifies this
      ensures State() == UndoHistory.Commit(old(State()),
                           UpdateSiteConfig(old(config), FormUpdate(name, theme, mainTitle, mainContent)))
    {
      SaveState();
      config := UpdateSiteConfig(config, FormUpdate(name, theme, mainTitle, mainContent));
    }

    // -------------------------------------------------------------------------
    // Pages
    // -------------------------------------------------------------------------

    /** `addNewPage`; `now` is the value of `Date.now()`. */
    method AddNewPage(now: int)
      modifies this
      ensures State() == UndoHistory.Commit(old(State()), old(config).(pages := AppendPage(old(config).pages, now)))
    {
      SaveState();
      config := config.(pages := AppendPage(config.pages, now));
    }

    method DeletePage(id: int)
      modifies this
      ensures State() == UndoHistory.Commit(old(State()), old(config).(pages := RemovePages(old(config).pages, id)))
    {
      SaveState();
      config := config.(pages := RemovePages(config.pages, id));
    }

    /** `updatePageTitle` takes no snapshot. */
    method UpdatePageTitle(id: int, title: string)
      modifies this
      ensures undoStack == old(undoStack) && redoStack == old(redoStack)
      ensures config == old(config).(pages := SetPageTitle(old(config).pages, id, title))
    {
      config := config.(pages := SetPageTitle(config.pages, id, title));
    }

    method UpdatePageContent(id: int, content: string)
      modifies this
      ensures State() == UndoHistory.Commit(old(State()), old(config).(pages := SetPageContent(old(config).pages, id, content)))
    {
      SaveState();
      config := config.(pages := SetPageContent(config.pages, id, content));
    }

    /** The drop handler, given the page ids in the order the list shows
        them; it takes no snapshot. */
    method DropReorder(order: seq<int>)
      requires AllIdsKnown(config.pages, order)
      modifies this
      ensures undoStack == old(undoStack) && redoStack == old(redoStack)
      ensures config == old(config).(pages := Reorder(old(config).pages, order))
    {
      config := config.(pages := Reorder(config.pages, order));
    }

    // -------------------------------------------------------------------------
    // Images of a page
    // -------------------------------------------------------------------------

    /** `addImageInput` takes no snapshot. */
    method AddImageInput(id: int)
      modifies this
      ensures undoStack == old(undoStack) && redoStack == old(redoStack)
      ensures config == old(config).(pages := AddPageImage(old(config).pages, id))
    {
      config := config.(pages := AddPageImage(config.pages, id));
    }

    method UpdateGalleryTitle(id: int, title: string)
      modifies this
      ensures State() == UndoHistory.Commit(old(State()), old(config).(pages := SetPageGalleryTitle(old(config).pages, id, title)))
    {
      SaveState();
      config := config.(pages := SetPageGalleryTitle(config.pages, id, title));
    }

    method UpdateImageUrl(id: int, index: int, url: string)
      modifies this
      ensures State() == UndoHistory.Commit(old(State()), old(config).(pages := SetPageImageUrl(old(config).pages, id, index, url)))
    {
      SaveState();
      config := config.(pages := SetPageImageUrl(config.pages, id, index, url));
    }

    method UpdateImageTitle(id: int, index: int, title: string)
      modifies this
      ensures State() == UndoHistory.Commit(old(State()), old(config).(pages := SetPageImageTitle(old(config).pages, id, index, title)))
    {
      SaveState();
      config := config.(pages := SetPageImageTitle(config.pages, id, index, title));
    }

    /** `removeImage` takes no snapshot. */
    method RemoveImage(id: int, index: int)
      modifies this
      ensures undoStack == old(undoStack) && redoStack == old(redoStack)
      ensures config == old(config).(pages := RemovePageImage(old(config).pages, id, index))
    {
      config := config.(pages := RemovePageImage(config.pages, id, index));
    }

    // -------------------------------------------------------------------------
    // Images of the main page (`imageManager`); none of these snapshots
    // -------------------------------------------------------------------------

    method AddMainImage()
      modifies this
      ensures undoStack == old(undoStack) && redoStack == old(redoStack)
      ensures config == old(config).(mainImages := AppendBlankImage(old(config).mainImages))
    {
      config := config.(mainImages := AppendBlankImage(config.mainImages));
    }

    method UpdateMainGalleryTitle(title: string)
      modifies this
      ensures undoStack == old(undoStack) && redoStack == old(redoStack)
      ensures config == old(config).(mainGalleryTitle := Some(title))
    {
      config := config.(mainGalleryTitle := Some(title));
    }

    method UpdateMainImageUrl(index: int, url: string)
      modifies this
      ensures undoStack == old(undoStack) && redoStack == old(redoStack)
      ensures config == old(config).(mainImages := SetImageUrl(old(config).mainImages, index, url))
    {
      config := config.(mainImages := SetImageUrl(config.mainImages, index, url));
    }

    method UpdateMainImageTitle(index: int, title: string)
      modifies this
      ensures undoStack == old(undoStack) && redoStack == old(redoStack)
      ensures config == old(config).(mainImages := SetImageTitle(old(config).mainImages, index, title))
    {
      config := config.(mainImages := SetImageTitle(config.mainImages, index, title));
    }

    method RemoveMainImage(index: int)
      modifies this
      ensures undoStack == old(undoStack) && redoStack == old(redoStack)
      ensures config == old(config).(mainImages := RemoveImageAt(old(config).mainImages, index))
    {
      config := config.(mainImages := RemoveImageAt(config.mainImages, index));
    }
  }

  /** The document the session of `EditPage` leaves. */
  function OnePageSite(now: int): SiteConfig
  {
    CreateSiteConfig().(pages := [Page(now, "About", "", [Image("", "")], Some(""))])
  }

  /** The export of a site with one page `About` holding one blank image. */
  lemma ExportOfOnePage(now: int, hash: string, themes: map<string, string>)
    ensures var c := OnePageSite(now);
            var files := Render.SiteFiles(c, hash, themes);
            && "index.html" in files && Render.PageFileName(now) in files
            && files["index.html"].site.nav[0].text == "About"
            && files["index.html"].site.sections[0].block.heading == "About"
            && files[Render.PageFileName(now)] == Render.PageFile(Render.PageHtml(c, c.pages[0], hash, themes))
            && Render.PageHtml(c, c.pages[0], hash, themes).body.heading == "About"
            && Render.ArchiveName(c.name) == "site.zip"
  {
    var c := OnePageSite(now);
    Render.SiteFilesHoldPages(c, hash, themes, 0);
  }

  /** A new page, retitled, given two images of which the first is removed:
      one page `About` with one blank image and an empty gallery title. Only
      the new page took a snapshot. */
  method EditPage(now: int) returns (b: SiteBuilder)
    ensures fresh(b)
    ensures b.config == OnePageSite(now)
    ensures b.undoStack == [CreateSiteConfig()] && b.redoStack == []
  {
    b := new SiteBuilder();
    b.AddNewPage(now);
    b.UpdatePageTitle(now, "About");
    b.AddImageInput(now);
    b.AddImageInput(now);
    b.RemoveImage(now, 0);
    OnePageSession(now);
  }

  /** The session of `EditPage`, then undo and redo: undo takes the whole
      session back to the default document, because the only snapshot is the
      one `addNewPage` took; redo brings the edited document back. */
  method EditSession(now: int) returns (undone: UndoHistory.History, redone: UndoHistory.History)
    ensures undone == UndoHistory.History(CreateSiteConfig(), [], [OnePageSite(now)])
    ensures redone == UndoHistory.History(OnePageSite(now), [CreateSiteConfig()], [])
  {
    var b := EditPage(now);
    b.Undo();
    undone := b.State();
    b.Redo();
    redone := b.State();
  }
}
