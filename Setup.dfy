/**
 * The flow-state object that owns the page list (AbstractSetupData in the app).
 * Only what the controller uses is modelled: the list itself, lookup by key and
 * removal of a page.
 */
module Setup {
  import opened Wrappers
  import opened Pages

  class SetupData {
    /** The ordered page list; the controller's mPageList is this same list. */
    var pages: seq<Page>

    ghost predicate Valid()
      reads this
    {
      UniqueKeys(pages)
    }

    constructor (pages: seq<Page>)
      requires UniqueKeys(pages)
      ensures Valid() && this.pages == pages
    {
      this.pages := pages;
    }

    /** findPage(key): the page carrying `key`, or None. */
    function FindPage(key: string): (r: Option<Page>)
      reads this
      ensures r.Some? ==> r.value in pages && r.value.key == key
      ensures r.None? ==> forall p :: p in pages ==> p.key != key
    {
      FindByKey(pages, key)
    }

    /** removePage(page): drops the page with the same key; the order of the rest is kept. */
    method RemovePage(page: Page)
      requires Valid()
      modifies this
      ensures Valid()
      ensures pages == RemoveKey(old(pages), page.key)
      ensures forall p :: p in pages ==> p.key != page.key
    {
      RemoveKeyMembership(pages, page.key);
      pages := RemoveKey(pages, page.key);
    }
  }
}
