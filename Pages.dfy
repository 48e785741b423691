/**
 * The wizard's pages and the queries and edits the controller performs on the
 * ordered page list (PageList in the app is a keyed, ordered container).
 */
module Pages {
  import opened Wrappers

  /** The page identities the controller branches on (string resource ids in the app). */
  datatype PageId = Cmid | GoogleAccount | SimMissing | Complete | Other

  /** One wizard step. `completed` is set by the page itself, outside the controller. */
  datatype Page = Page(id: PageId, key: string, required: bool, completed: bool)

  /** A page that gates forward progress: required but not yet completed. */
  predicate Blocks(p: Page) {
    p.required && !p.completed
  }

  /** The page list is keyed: no two pages share a key. */
  predicate UniqueKeys(pages: seq<Page>) {
    forall i, j :: 0 <= i < j < |pages| ==> pages[i].key != pages[j].key
  }

  /**
   * The cut-off: the index of the first blocking page, or the number of pages
   * when no page blocks. The three ensures determine it uniquely.
   */
  function CutOff(pages: seq<Page>): (r: nat)
    ensures r <= |pages|
    ensures forall i :: 0 <= i < r ==> !Blocks(pages[i])
    ensures r < |pages| ==> Blocks(pages[r])
  {
    if |pages| == 0 || Blocks(pages[0]) then 0 else 1 + CutOff(pages[1..])
  }

  /** Lookup by key: the first page carrying `key`, or None. */
  function FindByKey(pages: seq<Page>, key: string): (r: Option<Page>)
    ensures r.Some? ==> r.value in pages && r.value.key == key
    ensures r.Some? ==> exists i :: 0 <= i < |pages| && pages[i] == r.value
                                    && forall j :: 0 <= j < i ==> pages[j].key != key
    ensures r.None? ==> forall i :: 0 <= i < |pages| ==> pages[i].key != key
  {
    if |pages| == 0 then None
    else if pages[0].key == key then Some(pages[0])
    else FindByKey(pages[1..], key)
  }

  /** Lookup by identity: the first page with id `id`, or None. */
  function FindById(pages: seq<Page>, id: PageId): (r: Option<Page>)
    ensures r.Some? ==> r.value in pages && r.value.id == id
    ensures r.Some? ==> exists i :: 0 <= i < |pages| && pages[i] == r.value
                                    && forall j :: 0 <= j < i ==> pages[j].id != id
    ensures r.None? ==> forall i :: 0 <= i < |pages| ==> pages[i].id != id
  {
    if |pages| == 0 then None
    else if pages[0].id == id then Some(pages[0])
    else FindById(pages[1..], id)
  }

  /**
   * Removal by key: drops the first page carrying `key` and keeps the order of
   * the others; a key that is not present leaves the list as it is.
   */
  function RemoveKey(pages: seq<Page>, key: string): (r: seq<Page>)
    ensures FindByKey(pages, key).None? ==> r == pages
    ensures FindByKey(pages, key).Some? ==> |r| == |pages| - 1
    ensures forall p :: p in r ==> p in pages
  {
    if |pages| == 0 then []
    else if pages[0].key == key then pages[1..]
    else [pages[0]] + RemoveKey(pages[1..], key)
  }

  /** Removal by key cuts out exactly the first page with that key: the pages before and after it keep their order. */
  lemma {:induction false} RemoveKeyKeepsOrder(pages: seq<Page>, key: string, i: nat)
    requires i < |pages| && pages[i].key == key
    requires forall j :: 0 <= j < i ==> pages[j].key != key
    ensures RemoveKey(pages, key) == pages[..i] + pages[i + 1..]
  {
    if i > 0 {
      var tail := pages[1..];
      assert pages[0].key != key;
      RemoveKeyKeepsOrder(tail, key, i - 1);
      assert tail[..i - 1] == pages[1..i];
      assert tail[i..] == pages[i + 1..];
      calc {
        RemoveKey(pages, key);
        [pages[0]] + RemoveKey(tail, key);
        [pages[0]] + (pages[1..i] + pages[i + 1..]);
        ([pages[0]] + pages[1..i]) + pages[i + 1..];
        { assert [pages[0]] + pages[1..i] == pages[..i]; }
        pages[..i] + pages[i + 1..];
      }
    }
  }

  /** Two pages of a keyed list with the same key are the same page. */
  lemma SameKeySamePage(pages: seq<Page>, p: Page, q: Page)
    requires UniqueKeys(pages)
    requires p in pages && q in pages && p.key == q.key
    ensures p == q
  {
    var i :| 0 <= i < |pages| && pages[i] == p;
    var j :| 0 <= j < |pages| && pages[j] == q;
    assert !(i < j) && !(j < i);
  }

  /** The tail of a keyed list is keyed, and none of its keys is the head's. */
  lemma UniqueKeysTail(pages: seq<Page>)
    requires UniqueKeys(pages) && |pages| > 0
    ensures UniqueKeys(pages[1..])
    ensures forall p :: p in pages[1..] ==> p.key != pages[0].key
  {
    var tail := pages[1..];
    forall i, j | 0 <= i < j < |tail| ensures tail[i].key != tail[j].key {
      assert tail[i] == pages[i + 1] && tail[j] == pages[j + 1];
    }
    forall p | p in tail ensures p.key != pages[0].key {
      var j :| 0 <= j < |tail| && tail[j] == p;
      assert pages[j + 1] == p;
    }
  }

  /** Putting a page with a fresh key in front of a keyed list keeps it keyed. */
  lemma UniqueKeysCons(x: Page, rest: seq<Page>)
    requires UniqueKeys(rest)
    requires forall p :: p in rest ==> p.key != x.key
    ensures UniqueKeys([x] + rest)
  {
    var r := [x] + rest;
    forall i, j | 0 <= i < j < |r| ensures r[i].key != r[j].key {
      assert r[j] == rest[j - 1];
      if i > 0 {
        assert r[i] == rest[i - 1];
      } else {
        assert rest[j - 1] in rest;
      }
    }
  }

  /** On a keyed list, removal by key drops exactly the page with that key and keeps the list keyed. */
  lemma {:induction false} RemoveKeyMembership(pages: seq<Page>, key: string)
    requires UniqueKeys(pages)
    ensures UniqueKeys(RemoveKey(pages, key))
    ensures forall p :: p in RemoveKey(pages, key) <==> p in pages && p.key != key
  {
    if |pages| > 0 {
      var tail := pages[1..];
      UniqueKeysTail(pages);
      assert pages == [pages[0]] + tail;
      if pages[0].key != key {
        RemoveKeyMembership(tail, key);
        UniqueKeysCons(pages[0], RemoveKey(tail, key));
      }
    }
  }

  /**
   * Removing by key a page whose id differs from `id` does not change which
   * page a lookup by `id` finds.
   */
  lemma {:induction false} FindByIdAfterRemove(pages: seq<Page>, key: string, id: PageId)
    requires forall p :: p in pages && p.key == key ==> p.id != id
    ensures FindById(RemoveKey(pages, key), id) == FindById(pages, id)
  {
    if |pages| > 0 && pages[0].key != key {
      var tail := pages[1..];
      assert forall p :: p in tail ==> p in pages;
      FindByIdAfterRemove(tail, key, id);
      var r := [pages[0]] + RemoveKey(tail, key);
      assert r[0] == pages[0] && r[1..] == RemoveKey(tail, key);
    }
  }

  /** A worked example: once the only blocking page is removed, the cut-off moves to the end of the list. */
  lemma CutOffScenario()
    ensures var a := Page(Other, "a", true, false);
            var b := Page(Other, "b", false, false);
            var c := Page(Other, "c", true, true);
            CutOff([a, b, c]) == 0 && RemoveKey([a, b, c], "a") == [b, c] && CutOff([b, c]) == 2
  {
  }
}
