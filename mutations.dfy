/**
  The page and image operations of the editor (app.js), as functions from the
  old lists to the new ones. The editor's handlers (module Builder) apply them
  to the document they hold.
 */
module Mutations {
  import opened Document

  // ---------------------------------------------------------------------------
  // Page identity and lookup
  // ---------------------------------------------------------------------------

  /** The ids of `pages`, in order. */
  function Ids(pages: seq<Page>): (r: seq<int>)
    ensures |r| == |pages|
    ensures forall i | 0 <= i < |pages| :: r[i] == pages[i].id
  {
    seq(|pages|, i requires 0 <= i < |pages| => pages[i].id)
  }

  predicate HasPage(pages: seq<Page>, id: int)
  {
    exists i | 0 <= i < |pages| :: pages[i].id == id
  }

  /** No two pages share an id. */
  predicate UniqueIds(pages: seq<Page>)
  {
    forall i, j | 0 <= i < j < |pages| :: pages[i].id != pages[j].id
  }

  /** `pages.find(p => p.id === id)`, as the index of the first page with
      that id. */
  function FindPage(pages: seq<Page>, id: int): (r: Option<nat>)
    ensures r.None? <==> !HasPage(pages, id)
    ensures r.Some? ==> r.value < |pages| && pages[r.value].id == id
    ensures r.Some? ==> forall j | 0 <= j < r.value :: pages[j].id != id
    decreases |pages|
  {
    if |pages| == 0 then None
    else if pages[0].id == id then Some(0)
    else
      match FindPage(pages[1..], id)
      case None => None
      case Some(k) => Some(k + 1)
  }

  /** With unique ids the page found is the only page with that id. */
  lemma FindUnique(pages: seq<Page>, k: nat)
    requires UniqueIds(pages) && k < |pages|
    ensures FindPage(pages, pages[k].id) == Some(k)
  {
    assert HasPage(pages, pages[k].id);
  }

  /** `pages` with page `k` replaced by `newPage` and nothing else changed. */
  ghost predicate OnlyPageChanged(pages: seq<Page>, r: seq<Page>, k: nat, newPage: Page)
  {
    && k < |pages|
    && |r| == |pages|
    && r[k] == newPage
    && forall j | 0 <= j < |pages| && j != k :: r[j] == pages[j]
  }

  /** The common shape of the handlers that `find` a page and change it in
      place: the first page with the id becomes `f` of itself; when there is
      none, nothing changes. */
  function ModifyPage(pages: seq<Page>, id: int, f: Page -> Page): (r: seq<Page>)
    ensures !HasPage(pages, id) ==> r == pages
    ensures HasPage(pages, id) ==>
              var k := FindPage(pages, id).value;
              OnlyPageChanged(pages, r, k, f(pages[k]))
  {
    match FindPage(pages, id)
    case None => pages
    case Some(k) => pages[k := f(pages[k])]
  }

  // ---------------------------------------------------------------------------
  // Page operations
  // ---------------------------------------------------------------------------

  /** The page `addNewPage` creates. */
  function NewPage(id: int): Page
  {
    Page(id, "New Page", "", [], None)
  }

  /** `addNewPage`: `pages.push(page)`. */
  function AppendPage(pages: seq<Page>, id: int): (r: seq<Page>)
    ensures |r| == |pages| + 1 && r[..|pages|] == pages
    ensures r[|pages|] == Page(id, "New Page", "", [], None)
    ensures HasPage(r, id)
    ensures UniqueIds(pages) && !HasPage(pages, id) ==> UniqueIds(r)
  {
    pages + [NewPage(id)]
  }

  /** `deletePage`: `pages.filter(p => p.id !== id)`. */
  function RemovePages(pages: seq<Page>, id: int): (r: seq<Page>)
    ensures |r| <= |pages|
    ensures !HasPage(r, id)
    ensures forall p :: p in r <==> p in pages && p.id != id
    ensures !HasPage(pages, id) ==> r == pages
    decreases |pages|
  {
    if |pages| == 0 then []
    else
      var rest := RemovePages(pages[1..], id);
      if pages[0].id == id then rest else [pages[0]] + rest
  }

  /** Filtering keeps the relative order: it works piecewise on a split list. */
  lemma {:induction false} RemovePagesSplit(a: seq<Page>, b: seq<Page>, id: int)
    ensures RemovePages(a + b, id) == RemovePages(a, id) + RemovePages(b, id)
    decreases |a|
  {
    if |a| == 0 {
      assert a + b == b;
    } else {
      assert (a + b)[1..] == a[1..] + b;
      RemovePagesSplit(a[1..], b, id);
    }
  }

  /** With unique ids, deleting the id of page `k` splices out exactly that
      page: earlier pages stay, later pages move down by one. */
  lemma RemoveUniquePage(pages: seq<Page>, k: nat)
    requires UniqueIds(pages) && k < |pages|
    ensures RemovePages(pages, pages[k].id) == pages[..k] + pages[k + 1..]
  {
    var id, a, b := pages[k].id, pages[..k], pages[k + 1..];
    assert !HasPage(a, id) by {
      forall j | 0 <= j < |a| ensures a[j].id != id { }
    }
    assert !HasPage(b, id) by {
      forall j | 0 <= j < |b| ensures b[j].id != id {
        assert b[j] == pages[k + 1 + j];
      }
    }
    var x := [pages[k]];
    assert RemovePages(x, id) == [] by {
      assert x[1..] == [];
    }
    assert pages == (a + x) + b;
    RemovePagesSplit(a + x, b, id);
    RemovePagesSplit(a, x, id);
    assert RemovePages(a + x, id) == a;
  }

  /** Deleting pages keeps ids unique. */
  lemma {:induction false} RemovePagesKeepsUnique(pages: seq<Page>, id: int)
    requires UniqueIds(pages)
    ensures UniqueIds(RemovePages(pages, id))
    decreases |pages|
  {
    if |pages| > 0 {
      var rest := RemovePages(pages[1..], id);
      RemovePagesKeepsUnique(pages[1..], id);
      if pages[0].id != id {
        forall j | 0 <= j < |rest| ensures rest[j].id != pages[0].id {
          assert rest[j] in pages[1..];
        }
      }
    }
  }

  /** `updatePageTitle`: the first page with the id gets the new title. */
  function SetPageTitle(pages: seq<Page>, id: int, title: string): (r: seq<Page>)
    ensures Ids(r) == Ids(pages)
    ensures !HasPage(pages, id) ==> r == pages
    ensures HasPage(pages, id) ==>
              var k := FindPage(pages, id).value;
              OnlyPageChanged(pages, r, k, pages[k].(title := title))
  {
    ModifyPage(pages, id, (p: Page) => p.(title := title))
  }

  /** `updatePageContent`: the first page with the id gets the new content. */
  function SetPageContent(pages: seq<Page>, id: int, content: string): (r: seq<Page>)
    ensures Ids(r) == Ids(pages)
    ensures !HasPage(pages, id) ==> r == pages
    ensures HasPage(pages, id) ==>
              var k := FindPage(pages, id).value;
              OnlyPageChanged(pages, r, k, pages[k].(content := content))
  {
    ModifyPage(pages, id, (p: Page) => p.(content := content))
  }

  /** Every id of `order` names a page, as the drop handler's DOM list does:
      it is rebuilt from the pages on every change of the list. */
  predicate AllIdsKnown(pages: seq<Page>, order: seq<int>)
  {
    forall i | 0 <= i < |order| :: HasPage(pages, order[i])
  }

  /** The drop handler: the pages, re-read in the order of `order`, each id
      resolved with `find`. */
  function Reorder(pages: seq<Page>, order: seq<int>): (r: seq<Page>)
    requires AllIdsKnown(pages, order)
    ensures |r| == |order| && Ids(r) == order
    ensures forall i | 0 <= i < |order| :: r[i] == pages[FindPage(pages, order[i]).value]
    ensures forall p :: p in r ==> p in pages && p.id in order
  {
    seq(|order|, i requires 0 <= i < |order| => pages[FindPage(pages, order[i]).value])
  }

  predicate Distinct(order: seq<int>)
  {
    forall i, j | 0 <= i < j < |order| :: order[i] != order[j]
  }

  /** With unique ids, every page whose id is listed survives the reorder;
      pages whose id is not listed are dropped, and the result again has unique
      ids when the list has no repeats. */
  lemma ReorderKeepsListedPages(pages: seq<Page>, order: seq<int>)
    requires UniqueIds(pages) && AllIdsKnown(pages, order)
    ensures forall p :: p in pages && p.id in order ==> p in Reorder(pages, order)
    ensures Distinct(order) ==> UniqueIds(Reorder(pages, order))
  {
    var r := Reorder(pages, order);
    forall p | p in pages && p.id in order ensures p in r {
      var k :| 0 <= k < |pages| && pages[k] == p;
      var i :| 0 <= i < |order| && order[i] == p.id;
      FindUnique(pages, k);
      assert r[i] == p;
    }
  }

  /** A reorder by a list of distinct ids that covers every page is a
      permutation of the pages. */
  lemma ReorderPermutes(pages: seq<Page>, order: seq<int>)
    requires UniqueIds(pages) && AllIdsKnown(pages, order) && Distinct(order)
    requires |order| == |pages| && forall p | p in pages :: p.id in order
    ensures multiset(Reorder(pages, order)) == multiset(pages)
  {
    var r := Reorder(pages, order);
    ReorderKeepsListedPages(pages, order);
    UniqueImpliesSet(pages);
    UniqueImpliesSet(r);
    assert forall p :: p in r <==> p in pages;
    assert (set p | p in r) == (set p | p in pages);
  }

  /** A list with unique ids has no repeated page, so its multiset is the set
      of its elements. */
  lemma UniqueImpliesSet(pages: seq<Page>)
    requires UniqueIds(pages)
    ensures multiset(pages) == multiset(set p | p in pages)
  {
    if |pages| > 0 {
      var tail := pages[1..];
      UniqueImpliesSet(tail);
      forall j | 0 <= j < |tail| ensures tail[j] != pages[0] {
        assert tail[j] == pages[j + 1];
      }
      assert pages[0] !in tail;
      assert pages == [pages[0]] + tail;
      assert (set p | p in pages) == {pages[0]} + (set p | p in tail);
    }
  }

  /** Dropping twice with the same DOM order is dropping once: the handler,
      registered again on every re-render of the list, may run several times
      per drop without changing the outcome. */
  lemma ReorderIdempotent(pages: seq<Page>, order: seq<int>)
    requires AllIdsKnown(pages, order)
    ensures AllIdsKnown(Reorder(pages, order), order)
    ensures Reorder(Reorder(pages, order), order) == Reorder(pages, order)
  {
    var r := Reorder(pages, order);
    forall i | 0 <= i < |order| ensures HasPage(r, order[i]) {
      assert r[i].id == order[i];
    }
    forall i | 0 <= i < |order| ensures r[FindPage(r, order[i]).value] == r[i] {
      var j := FindPage(r, order[i]).value;
      assert r[j].id == order[i] && order[j] == order[i];
    }
  }

  // ---------------------------------------------------------------------------
  // Image lists (a page's gallery and the main gallery alike)
  // ---------------------------------------------------------------------------

  /** The entry `addImageInput` and `addMainImage` push. */
  const BlankImage: ImageRef := Image("", "")

  /** `images.push({ url: '', title: '' })`. */
  function AppendBlankImage(images: seq<ImageRef>): (r: seq<ImageRef>)
    ensures |r| == |images| + 1 && r[..|images|] == images
    ensures UrlOf(r[|images|]) == "" && TitleOf(r[|images|]) == "" && r[|images|].Image?
  {
    images + [BlankImage]
  }

  /** The entry after its URL is edited: normalised to the structured form,
      with the title it showed before. */
  function ImageWithUrl(img: ImageRef, url: string): (r: ImageRef)
    ensures r == Image(url, TitleOf(img))
    ensures UrlOf(r) == url && TitleOf(r) == TitleOf(img)
  {
    match img
    case LegacyUrl(_) => Image(url, "")
    case Image(_, t) => Image(url, t)
  }

  /** The entry after its title is edited: normalised to the structured form,
      with the URL it showed before. */
  function ImageWithTitle(img: ImageRef, title: string): (r: ImageRef)
    ensures r == Image(UrlOf(img), title)
    ensures UrlOf(r) == UrlOf(img) && TitleOf(r) == title
  {
    match img
    case LegacyUrl(s) => Image(s, title)
    case Image(u, _) => Image(u, title)
  }

  /** `images[index] !== undefined`: the index names an entry. */
  predicate ValidIndex(images: seq<ImageRef>, index: int)
  {
    0 <= index < |images|
  }

  /** `updateImageUrl` / `updateMainImageUrl` on one list. */
  function SetImageUrl(images: seq<ImageRef>, index: int, url: string): (r: seq<ImageRef>)
    ensures |r| == |images|
    ensures forall j | 0 <= j < |images| && j != index :: r[j] == images[j]
    ensures ValidIndex(images, index) ==> r[index] == Image(url, TitleOf(images[index]))
    ensures !ValidIndex(images, index) ==> r == images
  {
    if ValidIndex(images, index) then images[index := ImageWithUrl(images[index], url)] else images
  }

  /** `updateImageTitle` / `updateMainImageTitle` on one list. */
  function SetImageTitle(images: seq<ImageRef>, index: int, title: string): (r: seq<ImageRef>)
    ensures |r| == |images|
    ensures forall j | 0 <= j < |images| && j != index :: r[j] == images[j]
    ensures ValidIndex(images, index) ==> r[index] == Image(UrlOf(images[index]), title)
    ensures !ValidIndex(images, index) ==> r == images
  {
    if ValidIndex(images, index) then images[index := ImageWithTitle(images[index], title)] else images
  }

  /** `images.splice(index, 1)` behind the `!== undefined` guard. */
  function RemoveImageAt(images: seq<ImageRef>, index: int): (r: seq<ImageRef>)
    ensures ValidIndex(images, index) ==> |r| == |images| - 1
    ensures ValidIndex(images, index) ==> forall j | 0 <= j < index :: r[j] == images[j]
    ensures ValidIndex(images, index) ==> forall j | index <= j < |r| :: r[j] == images[j + 1]
    ensures !ValidIndex(images, index) ==> r == images
  {
    if ValidIndex(images, index) then images[..index] + images[index + 1..] else images
  }

  /** A stored bare URL gets its caption and becomes a structured entry. */
  lemma LegacyEntryGetsTitle()
    ensures SetImageTitle([LegacyUrl("http://x/a.png")], 0, "Caption") == [Image("http://x/a.png", "Caption")]
  {
  }

  /** Adding an image and then removing the last one restores the list. */
  lemma AddThenRemove(images: seq<ImageRef>)
    ensures RemoveImageAt(AppendBlankImage(images), |images|) == images
  {
    var r := RemoveImageAt(AppendBlankImage(images), |images|);
    assert |r| == |images|;
    assert forall j | 0 <= j < |images| :: r[j] == images[j];
  }

  // ---------------------------------------------------------------------------
  // Image operations on the page with a given id
  // ---------------------------------------------------------------------------

  /** `addImageInput` on the page found: one blank image more, and a gallery
      title `''` if the page had none; an existing one is kept. */
  function PageWithNewImage(p: Page): (r: Page)
    ensures r.images == AppendBlankImage(p.images)
    ensures r.galleryTitle == (if p.galleryTitle.None? then Some("") else p.galleryTitle)
    ensures r.id == p.id && r.title == p.title && r.content == p.content
  {
    var withImage := p.(images := AppendBlankImage(p.images));
    if withImage.galleryTitle.None? then withImage.(galleryTitle := Some("")) else withImage
  }

  /** `addImageInput`. */
  function AddPageImage(pages: seq<Page>, id: int): (r: seq<Page>)
    ensures Ids(r) == Ids(pages)
    ensures !HasPage(pages, id) ==> r == pages
    ensures HasPage(pages, id) ==>
              var k := FindPage(pages, id).value;
              && OnlyPageChanged(pages, r, k, PageWithNewImage(pages[k]))
              && |r[k].images| == |pages[k].images| + 1
              && r[k].galleryTitle.Some?
  {
    ModifyPage(pages, id, PageWithNewImage)
  }

  /** `updateGalleryTitle`. */
  function SetPageGalleryTitle(pages: seq<Page>, id: int, title: string): (r: seq<Page>)
    ensures Ids(r) == Ids(pages)
    ensures !HasPage(pages, id) ==> r == pages
    ensures HasPage(pages, id) ==>
              var k := FindPage(pages, id).value;
              OnlyPageChanged(pages, r, k, pages[k].(galleryTitle := Some(title)))
  {
    ModifyPage(pages, id, (p: Page) => p.(galleryTitle := Some(title)))
  }

  /** `updateImageUrl`. */
  function SetPageImageUrl(pages: seq<Page>, id: int, index: int, url: string): (r: seq<Page>)
    ensures Ids(r) == Ids(pages)
    ensures !HasPage(pages, id) ==> r == pages
    ensures HasPage(pages, id) ==>
              var k := FindPage(pages, id).value;
              OnlyPageChanged(pages, r, k, pages[k].(images := SetImageUrl(pages[k].images, index, url)))
    ensures HasPage(pages, id) && !ValidIndex(pages[FindPage(pages, id).value].images, index) ==> r == pages
  {
    ModifyPage(pages, id, (p: Page) => p.(images := SetImageUrl(p.images, index, url)))
  }

  /** `updateImageTitle`. */
  function SetPageImageTitle(pages: seq<Page>, id: int, index: int, title: string): (r: seq<Page>)
    ensures Ids(r) == Ids(pages)
    ensures !HasPage(pages, id) ==> r == pages
    ensures HasPage(pages, id) ==>
              var k := FindPage(pages, id).value;
              OnlyPageChanged(pages, r, k, pages[k].(images := SetImageTitle(pages[k].images, index, title)))
    ensures HasPage(pages, id) && !ValidIndex(pages[FindPage(pages, id).value].images, index) ==> r == pages
  {
    ModifyPage(pages, id, (p: Page) => p.(images := SetImageTitle(p.images, index, title)))
  }

  /** `removeImage`. */
  function RemovePageImage(pages: seq<Page>, id: int, index: int): (r: seq<Page>)
    ensures Ids(r) == Ids(pages)
    ensures !HasPage(pages, id) ==> r == pages
    ensures HasPage(pages, id) ==>
              var k := FindPage(pages, id).value;
              OnlyPageChanged(pages, r, k, pages[k].(images := RemoveImageAt(pages[k].images, index)))
    ensures HasPage(pages, id) && !ValidIndex(pages[FindPage(pages, id).value].images, index) ==> r == pages
  {
    ModifyPage(pages, id, (p: Page) => p.(images := RemoveImageAt(p.images, index)))
  }

  /** Legacy entries are normalised only when touched: editing entry `index`
      of a page leaves every other entry in its stored form. */
  lemma EditTouchesOnlyOneEntry(pages: seq<Page>, id: int, index: int, url: string, j: int)
    requires HasPage(pages, id)
    requires var k := FindPage(pages, id).value; 0 <= j < |pages[k].images| && j != index
    ensures var k := FindPage(pages, id).value;
            SetPageImageUrl(pages, id, index, url)[k].images[j] == pages[k].images[j]
  {
  }

  /** On a list of one page, every find-and-modify edit of its id changes
      exactly that page. */
  lemma SinglePageEdit(p: Page, r: seq<Page>, newPage: Page)
    requires OnlyPageChanged([p], r, 0, newPage)
    ensures r == [newPage]
  {
  }

  /** A new page, retitled `About`, given two images of which the first is
      then removed: one page with one blank image and an empty gallery title. */
  lemma OnePageSession(now: int)
    ensures RemovePageImage(AddPageImage(AddPageImage(SetPageTitle(AppendPage([], now), now, "About"), now), now), now, 0)
            == [Page(now, "About", "", [BlankImage], Some(""))]
  {
    var p1 := NewPage(now);
    assert AppendPage([], now) == [p1];
    assert FindPage([p1], now) == Some(0);
    var p2 := p1.(title := "About");
    SinglePageEdit(p1, SetPageTitle([p1], now, "About"), p2);
    assert FindPage([p2], now) == Some(0);
    var p3 := PageWithNewImage(p2);
    SinglePageEdit(p2, AddPageImage([p2], now), p3);
    assert p3.images == [BlankImage];
    assert FindPage([p3], now) == Some(0);
    var p4 := PageWithNewImage(p3);
    SinglePageEdit(p3, AddPageImage([p3], now), p4);
    assert p4.images == [BlankImage, BlankImage] && p4.galleryTitle == Some("");
    assert FindPage([p4], now) == Some(0);
    var p5 := p4.(images := RemoveImageAt(p4.images, 0));
    SinglePageEdit(p4, RemovePageImage([p4], now, 0), p5);
    assert RemoveImageAt(p4.images, 0) == [BlankImage];
  }
}
