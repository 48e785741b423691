/**
 * The setup wizard's flow controller (SetupWizardActivity) and its pager
 * adapter (CMPagerAdapter): the cut-off over the page list, forward and back
 * navigation, guarded page removal, the button bar, the three event handlers
 * and the reconciliation that drops pages the device does not need.
 *
 * The platform queries (accounts, Google services, GSM radio, SIM) arrive as an
 * Environment value. The pager (ViewPager) is represented by the controller's
 * `currentItem` and by PagerTarget, the clamping the model assumes of it.
 */
module Wizard {
  import opened Wrappers
  import opened Pages
  import opened Setup

  /** Java's Integer.MAX_VALUE, which the adapter stores in place of a negative cut-off. */
  const IntMax: int := 0x7fff_ffff

  /** Answers of the platform queries the controller consults. */
  datatype Environment = Environment(
    cmidAccount: bool,     // an account of the CMID type exists
    googleServices: bool,  // Google services are installed
    googleAccount: bool,   // an account of the Google type exists
    gsmPhone: bool,        // the radio is GSM
    simMissing: bool)      // no SIM card is inserted

  /**
   * Assumed pager behaviour: a requested position is clamped to [0, count - 1];
   * while the pager has no items, the request is ignored.
   */
  function PagerTarget(current: nat, requested: int, count: int): (r: nat)
    ensures count > 0 ==> r < count
    ensures count > 0 && 0 <= requested < count ==> r == requested
    ensures count > 0 && requested < 0 ==> r == 0
    ensures count > 0 && requested >= count ==> r == count - 1
    ensures count <= 0 ==> r == current
  {
    if count <= 0 then current
    else if requested < 0 then 0
    else if requested >= count then count - 1
    else requested
  }

  // ---------------------------------------------------------------------------
  // Reconciliation, stated on page lists

  /** One reconciliation step: the first page with `id` is dropped when it is not needed. */
  function DropIfUnneeded(pages: seq<Page>, id: PageId, unneeded: bool): (r: seq<Page>)
  {
    match FindById(pages, id)
    case Some(p) => if unneeded then RemoveKey(pages, p.key) else pages
    case None => pages
  }

  /** The page list after removeUnNeededPages: the CMID, Google-account and SIM-missing steps, in that order. */
  function Reconciled(pages: seq<Page>, env: Environment): (r: seq<Page>)
  {
    var afterCmid := DropIfUnneeded(pages, Cmid, env.cmidAccount);
    var afterGoogle := DropIfUnneeded(afterCmid, GoogleAccount, !env.googleServices || env.googleAccount);
    DropIfUnneeded(afterGoogle, SimMissing, !env.gsmPhone || !env.simMissing)
  }

  /** Reference statement, on the original list, of which page reconciliation is meant to drop. */
  predicate Unneeded(pages: seq<Page>, p: Page, env: Environment)
  {
    (FindById(pages, Cmid) == Some(p) && env.cmidAccount)
    || (FindById(pages, GoogleAccount) == Some(p) && (!env.googleServices || env.googleAccount))
    || (FindById(pages, SimMissing) == Some(p) && (!env.gsmPhone || !env.simMissing))
  }

  /** One step drops at most the first page with `id`, keeps the list keyed and leaves lookups of other ids alone. */
  lemma DropIfUnneededFacts(pages: seq<Page>, id: PageId, unneeded: bool)
    requires UniqueKeys(pages)
    ensures UniqueKeys(DropIfUnneeded(pages, id, unneeded))
    ensures forall p :: p in DropIfUnneeded(pages, id, unneeded) <==>
                        p in pages && !(unneeded && FindById(pages, id) == Some(p))
    ensures forall other :: other != id ==>
              FindById(DropIfUnneeded(pages, id, unneeded), other) == FindById(pages, other)
  {
    match FindById(pages, id)
    case None =>
    case Some(q) =>
      if unneeded {
        RemoveKeyMembership(pages, q.key);
        forall p | p in pages ensures p.key != q.key <==> p != q {
          if p.key == q.key {
            SameKeySamePage(pages, p, q);
          }
        }
        forall other | other != id
          ensures FindById(RemoveKey(pages, q.key), other) == FindById(pages, other)
        {
          forall p | p in pages && p.key == q.key ensures p.id != other {
            SameKeySamePage(pages, p, q);
          }
          FindByIdAfterRemove(pages, q.key, other);
        }
      }
  }

  /**
   * Reconciliation drops exactly the unneeded pages: the CMID page exactly when a
   * CMID account exists, the Google-account page exactly when Google services are
   * absent or a Google account exists, the SIM-missing page exactly when the phone
   * is not GSM or a SIM is present, and nothing else.
   */
  lemma ReconciledMembership(pages: seq<Page>, env: Environment)
    requires UniqueKeys(pages)
    ensures UniqueKeys(Reconciled(pages, env))
    ensures forall p :: p in Reconciled(pages, env) <==> p in pages && !Unneeded(pages, p, env)
    ensures FindById(pages, Cmid).Some? ==>
              (FindById(pages, Cmid).value !in Reconciled(pages, env) <==> env.cmidAccount)
    ensures FindById(pages, GoogleAccount).Some? ==>
              (FindById(pages, GoogleAccount).value !in Reconciled(pages, env)
               <==> !env.googleServices || env.googleAccount)
    ensures FindById(pages, SimMissing).Some? ==>
              (FindById(pages, SimMissing).value !in Reconciled(pages, env)
               <==> !env.gsmPhone || !env.simMissing)
    ensures forall p :: p in pages && (p.id == Complete || p.id == Other) ==> p in Reconciled(pages, env)
  {
    var afterCmid := DropIfUnneeded(pages, Cmid, env.cmidAccount);
    DropIfUnneededFacts(pages, Cmid, env.cmidAccount);
    var afterGoogle := DropIfUnneeded(afterCmid, GoogleAccount, !env.googleServices || env.googleAccount);
    DropIfUnneededFacts(afterCmid, GoogleAccount, !env.googleServices || env.googleAccount);
    DropIfUnneededFacts(afterGoogle, SimMissing, !env.gsmPhone || !env.simMissing);
    assert FindById(afterGoogle, SimMissing) == FindById(pages, SimMissing);
  }

  // ---------------------------------------------------------------------------
  // The pager adapter

  /** CMPagerAdapter: exposes the page list to the pager, cut off at the stored cut-off. */
  class CMPagerAdapter {
    var cutOffPage: int
    /** How many times the pager was told to re-read its items (notifyDataSetChanged). */
    var notifications: nat

    constructor ()
      ensures cutOffPage == 0 && notifications == 0
    {
      cutOffPage := 0;
      notifications := 0;
    }

    /** getCount: no items without a page list, otherwise the smaller of the cut-off and the list size. */
    function GetCount(pageList: Option<seq<Page>>): (n: int)
      reads this
      ensures pageList.None? ==> n == 0
      ensures pageList.Some? ==> n <= |pageList.value| && n <= cutOffPage
      ensures pageList.Some? ==> n == |pageList.value| || n == cutOffPage
    {
      if pageList.None? then 0
      else if cutOffPage < |pageList.value| then cutOffPage
      else |pageList.value|
    }

    /** setCutOffPage: a negative cut-off is stored as Integer.MAX_VALUE, any other value as given. */
    method SetCutOffPage(cutOff: int)
      modifies this`cutOffPage
      ensures cutOffPage >= 0
      ensures cutOff >= 0 ==> cutOffPage == cutOff
      ensures cutOff < 0 ==> cutOffPage == IntMax
    {
      var c := cutOff;
      if c < 0 {
        c := IntMax;
      }
      cutOffPage := c;
    }

    /** getCutOffPage: the stored cut-off. */
    function GetCutOffPage(): (c: int)
      reads this
      ensures c == cutOffPage
    {
      cutOffPage
    }

    method NotifyDataSetChanged()
      modifies this`notifications
      ensures notifications == old(notifications) + 1
    {
      notifications := notifications + 1;
    }
  }

  /** Every item the pager can show lies before the cut-off and does not block; so the next button is enabled on it. */
  lemma ShownPagesPrecedeCutOff(adapter: CMPagerAdapter, pages: seq<Page>, position: int)
    requires adapter.cutOffPage == CutOff(pages)
    requires 0 <= position < adapter.GetCount(Some(pages))
    ensures position < adapter.cutOffPage && !Blocks(pages[position])
  {
  }

  // ---------------------------------------------------------------------------
  // The flow controller

  /** SetupWizardActivity, reduced to its navigation state. */
  class SetupWizardActivity {
    const data: SetupData
    const adapter: CMPagerAdapter
    /** mPageList != null; once set, mPageList is the list `data` owns. */
    var hasPageList: bool
    /** The pager's current item. */
    var currentItem: nat
    var nextEnabled: bool
    var prevVisible: bool
    /** The terminal finish transition has run (device provisioned, wizard left). */
    var finished: bool

    ghost predicate Valid()
      reads this, data
    {
      data.Valid()
    }

    /** The fields as onCreate finds them, before the first onPageTreeChanged. */
    constructor (data: SetupData)
      requires data.Valid()
      ensures Valid() && this.data == data && fresh(adapter)
      ensures adapter.cutOffPage == 0 && adapter.notifications == 0
      ensures !hasPageList && currentItem == 0 && !finished
    {
      this.data := data;
      adapter := new CMPagerAdapter();
      hasPageList := false;
      currentItem := 0;
      nextEnabled := true;
      prevVisible := true;
      finished := false;
    }

    function PageList(): (r: Option<seq<Page>>)
      reads this, data
    {
      if hasPageList then Some(data.pages) else None
    }

    /** The number of items the pager shows. */
    function Count(): (n: int)
      reads this, data, adapter
    {
      adapter.GetCount(PageList())
    }

    /** The button-bar rule: next enabled off the cut-off, previous visible past the first page. */
    predicate ButtonBarFor(position: nat)
      reads this, adapter
    {
      nextEnabled == (position != adapter.GetCutOffPage()) && prevVisible == (position > 0)
    }

    /** The state a page-tree refresh leaves: cut-off exact, pager clamped, buttons current. */
    ghost predicate Settled()
      reads this, data, adapter
    {
      hasPageList && adapter.cutOffPage == CutOff(data.pages)
      && (Count() > 0 ==> currentItem < Count())
      && ButtonBarFor(currentItem)
    }

    /** The state onPageLoaded(page) leaves, from cut-off `cutOff0`, `notified0` notifications and position `item0`. */
    ghost predicate LoadedFrom(page: Page, cutOff0: int, notified0: nat, item0: nat)
      reads this, data, adapter
    {
      ButtonBarFor(currentItem)
      && if page.required && cutOff0 != CutOff(data.pages) then
           adapter.cutOffPage == CutOff(data.pages) && adapter.notifications == notified0 + 1
           && currentItem == PagerTarget(item0, item0, Count())
         else
           adapter.cutOffPage == cutOff0 && adapter.notifications == notified0 && currentItem == item0
    }

    /**
     * The state an animated removal leaves, from position `position`: the pager
     * went to `item1` (its answer to a request for 0), the page tree was refreshed
     * there, and then the pager was sent back to `position`.
     */
    ghost predicate RestoredAfterRemoval(position: nat, item1: nat)
      reads this, data, adapter
    {
      var refreshed := PagerTarget(item1, item1, Count());
      hasPageList && adapter.cutOffPage == CutOff(data.pages)
      && ButtonBarFor(refreshed)
      && currentItem == PagerTarget(refreshed, position, Count())
    }

    /** mViewPager.setCurrentItem(item), with the assumed clamping. */
    method SetCurrentItem(item: int)
      modifies this`currentItem
      ensures currentItem == PagerTarget(old(currentItem), item, Count())
    {
      currentItem := PagerTarget(currentItem, item, Count());
    }

    /** mPagerAdapter.notifyDataSetChanged(): the pager re-reads its items and re-clamps its position. */
    method DataSetChanged()
      modifies adapter`notifications, this`currentItem
      ensures adapter.notifications == old(adapter.notifications) + 1
      ensures currentItem == PagerTarget(old(currentItem), old(currentItem), Count())
    {
      adapter.NotifyDataSetChanged();
      SetCurrentItem(currentItem);
    }

    /**
     * recalculateCutOffPage: stores the index of the first required page that is
     * not completed (or the list size), and reports whether the stored value changed.
     * A call that finds the stored value already current changes nothing, so a
     * second call with no change in between returns false.
     */
    method RecalculateCutOffPage() returns (changed: bool)
      requires hasPageList
      modifies adapter`cutOffPage
      ensures adapter.cutOffPage == CutOff(data.pages)
      ensures 0 <= adapter.cutOffPage <= |data.pages|
      ensures changed <==> old(adapter.cutOffPage) != CutOff(data.pages)
      ensures !changed ==> adapter.cutOffPage == old(adapter.cutOffPage)
    {
      var pages := data.pages;
      var cutOff := |pages|;
      var i := 0;
      while i < |pages|
        invariant 0 <= i <= |pages|
        invariant cutOff == |pages|
        invariant forall j :: 0 <= j < i ==> !Blocks(pages[j])
      {
        if pages[i].required && !pages[i].completed {
          cutOff := i;
          break;
        }
        i := i + 1;
      }
      assert cutOff == CutOff(pages);
      if adapter.GetCutOffPage() != cutOff {
        adapter.SetCutOffPage(cutOff);
        changed := true;
      } else {
        changed := false;
      }
    }

    /** updateButtonBar. */
    method UpdateButtonBar()
      modifies this`nextEnabled, this`prevVisible
      ensures ButtonBarFor(currentItem)
      ensures nextEnabled <==> currentItem != adapter.cutOffPage
      ensures prevVisible <==> currentItem > 0
    {
      var position := currentItem;
      nextEnabled := position != adapter.GetCutOffPage();
      prevVisible := !(position <= 0);
    }

    /**
     * onPageLoaded: only a required page triggers a recalculation, and the pager
     * is notified only when the cut-off moved; the button bar is always refreshed.
     */
    method OnPageLoaded(page: Page)
      requires hasPageList
      modifies this`currentItem, this`nextEnabled, this`prevVisible, adapter
      ensures LoadedFrom(page, old(adapter.cutOffPage), old(adapter.notifications), old(currentItem))
      ensures page.required ==> adapter.cutOffPage == CutOff(data.pages)
      ensures !page.required ==> unchanged(adapter) && currentItem == old(currentItem)
    {
      if page.required {
        var changed := RecalculateCutOffPage();
        if changed {
          DataSetChanged();
        }
      }
      UpdateButtonBar();
    }

    /** The pager's onPageSelected listener: positions beyond the list are ignored. */
    method OnPageSelected(position: nat)
      requires hasPageList
      modifies this`currentItem, this`nextEnabled, this`prevVisible, adapter
      ensures position < |data.pages| ==>
                LoadedFrom(data.pages[position], old(adapter.cutOffPage), old(adapter.notifications), old(currentItem))
      ensures position >= |data.pages| ==> unchanged(this, adapter)
    {
      if position < |data.pages| {
        OnPageLoaded(data.pages[position]);
      }
    }

    /** onPageTreeChanged: re-fetch the list, recompute the cut-off, refresh the pager and the buttons. */
    method OnPageTreeChanged()
      modifies this, adapter
      ensures Settled()
      ensures currentItem == PagerTarget(old(currentItem), old(currentItem), Count())
      ensures adapter.notifications == old(adapter.notifications) + 1
      ensures finished == old(finished)
    {
      hasPageList := true;
      var _ := RecalculateCutOffPage();
      DataSetChanged();
      UpdateButtonBar();
    }

    /** getPage(key). */
    function GetPage(key: string): (r: Option<Page>)
      reads data
      ensures r == FindByKey(data.pages, key)
    {
      data.FindPage(key)
    }

    /**
     * removeSetupPage: a missing page or a key no longer in the list changes
     * nothing. Otherwise the page is removed, which refreshes the page tree; the
     * animated path first sends the pager to 0 and afterwards back to where it
     * was, so the position is kept whenever it is still an item.
     */
    method RemoveSetupPage(page: Option<Page>, animate: bool)
      requires Valid()
      modifies this, adapter, data
      ensures Valid()
      ensures finished == old(finished)
      ensures page.None? || FindByKey(old(data.pages), page.value.key).None? ==> unchanged(this, adapter, data)
      ensures page.Some? && FindByKey(old(data.pages), page.value.key).Some? ==>
                data.pages == RemoveKey(old(data.pages), page.value.key)
                && (forall p :: p in data.pages ==> p.key != page.value.key)
                && adapter.notifications == old(adapter.notifications) + 1
                && (!animate ==> Settled() && currentItem == PagerTarget(old(currentItem), old(currentItem), Count()))
                && (animate ==> RestoredAfterRemoval(old(currentItem), PagerTarget(old(currentItem), 0, old(Count()))))
                && (animate && old(currentItem) < Count() ==> currentItem == old(currentItem))
    {
      if page.None? || GetPage(page.value.key).None? {
        return;
      }
      if animate {
        var position := currentItem;
        SetCurrentItem(0);
        data.RemovePage(page.value);
        OnPageTreeChanged();
        SetCurrentItem(position);
      } else {
        data.RemovePage(page.value);
        OnPageTreeChanged();
      }
    }

    /** finishSetup, reduced to the terminal flag (the settings writes and the hand-off are not modelled). */
    method FinishSetup()
      modifies this`finished
      ensures finished
    {
      finished := true;
    }

    /**
     * doNext: on the SIM-missing page "next" removes that page (animated); on the
     * complete page it finishes and leaves the list alone; on any other page it
     * asks the pager for the following item.
     */
    method DoNext()
      requires Valid() && hasPageList && currentItem < |data.pages|
      modifies this, adapter, data
      ensures Valid()
      ensures old(data.pages[currentItem]).id == SimMissing ==>
                data.pages == RemoveKey(old(data.pages), old(data.pages[currentItem]).key)
                && old(data.pages[currentItem]) !in data.pages
                && finished == old(finished)
                && adapter.notifications == old(adapter.notifications) + 1
                && RestoredAfterRemoval(old(currentItem), PagerTarget(old(currentItem), 0, old(Count())))
                && (old(currentItem) < Count() ==> currentItem == old(currentItem))
      ensures old(data.pages[currentItem]).id == Complete ==>
                finished && currentItem == old(currentItem) && unchanged(adapter, data)
                && nextEnabled == old(nextEnabled) && prevVisible == old(prevVisible) && hasPageList
      ensures old(data.pages[currentItem]).id != SimMissing && old(data.pages[currentItem]).id != Complete ==>
                currentItem == PagerTarget(old(currentItem), old(currentItem) + 1, old(Count()))
                && finished == old(finished) && unchanged(adapter, data)
                && nextEnabled == old(nextEnabled) && prevVisible == old(prevVisible) && hasPageList
      ensures (old(data.pages[currentItem]).id != SimMissing && old(data.pages[currentItem]).id != Complete
               && old(currentItem) + 1 < old(Count())) ==> currentItem == old(currentItem) + 1
      ensures (old(data.pages[currentItem]).id != SimMissing && old(data.pages[currentItem]).id != Complete
               && old(currentItem) + 1 == old(Count())) ==> currentItem == old(currentItem)
    {
      var position := currentItem;
      var page := data.pages[position];
      if page.id == SimMissing {
        RemoveKeyMembership(data.pages, page.key);
        RemoveSetupPage(Some(page), true);
      } else if page.id == Complete {
        FinishSetup();
      } else {
        SetCurrentItem(position + 1);
      }
    }

    /** doPrevious: one item back, and nothing at the first item. */
    method DoPrevious()
      modifies this`currentItem
      ensures old(currentItem) == 0 ==> currentItem == 0
      ensures old(currentItem) > 0 ==> currentItem == PagerTarget(old(currentItem), old(currentItem) - 1, Count())
      ensures 0 < old(currentItem) <= Count() ==> currentItem == old(currentItem) - 1
    {
      var position := currentItem;
      if position > 0 {
        SetCurrentItem(position - 1);
      }
    }

    /**
     * onPageFinished (the body it posts): the CMID page is always removed; the
     * Google-account page is removed when a Google account exists and otherwise
     * "next" is pressed for the user; then the page tree is refreshed.
     */
    method OnPageFinished(page: Page, googleAccountExists: bool)
      requires Valid()
      requires page.id == GoogleAccount && !googleAccountExists ==> hasPageList && currentItem < |data.pages|
      modifies this, adapter, data
      ensures Valid() && Settled()
      ensures adapter.notifications == old(adapter.notifications) + 1 + (|old(data.pages)| - |data.pages|)
      ensures page.id == Cmid || (page.id == GoogleAccount && googleAccountExists) ==>
                data.pages == RemoveKey(old(data.pages), page.key) && finished == old(finished)
      ensures page.id == GoogleAccount && !googleAccountExists ==>
                var current := old(data.pages[currentItem]);
                data.pages == (if current.id == SimMissing then RemoveKey(old(data.pages), current.key)
                               else old(data.pages))
                && finished == (old(finished) || current.id == Complete)
      ensures page.id != Cmid && page.id != GoogleAccount ==>
                data.pages == old(data.pages) && finished == old(finished)
                && currentItem == PagerTarget(old(currentItem), old(currentItem), Count())
    {
      match page.id {
        case Cmid =>
          RemoveSetupPage(Some(page), true);
        case GoogleAccount =>
          if googleAccountExists {
            RemoveSetupPage(Some(page), true);
          } else {
            DoNext();
          }
        case _ =>
      }
      OnPageTreeChanged();
    }

    /** One guarded step of removeUnNeededPages: find the page with `id` and, when `unneeded`, remove it without animation. */
    method RemoveIfUnneeded(id: PageId, unneeded: bool)
      requires Valid() && hasPageList
      modifies this, adapter, data
      ensures Valid() && hasPageList
      ensures data.pages == DropIfUnneeded(old(data.pages), id, unneeded)
      ensures finished == old(finished)
      ensures !(unneeded && FindById(old(data.pages), id).Some?) ==> unchanged(this, adapter, data)
      ensures unneeded && FindById(old(data.pages), id).Some? ==>
                Settled() && currentItem == PagerTarget(old(currentItem), old(currentItem), Count())
      ensures currentItem <= old(currentItem)
      ensures adapter.notifications == old(adapter.notifications) + (|old(data.pages)| - |data.pages|)
    {
      var page := FindById(data.pages, id);
      if page.Some? && unneeded {
        RemoveSetupPage(page, false);
      }
    }

    /**
     * removeUnNeededPages (the body it posts): drops, without animation, the CMID
     * page, the Google-account page and the SIM-missing page when the environment
     * makes them unnecessary, then refreshes the page tree.
     */
    method RemoveUnNeededPages(env: Environment)
      requires Valid() && hasPageList
      modifies this, adapter, data
      ensures Valid() && Settled()
      ensures data.pages == Reconciled(old(data.pages), env)
      ensures finished == old(finished)
      ensures currentItem <= old(currentItem)
      ensures adapter.notifications == old(adapter.notifications) + 1 + (|old(data.pages)| - |data.pages|)
    {
      RemoveIfUnneeded(Cmid, env.cmidAccount);
      RemoveIfUnneeded(GoogleAccount, !env.googleServices || env.googleAccount);
      if !env.gsmPhone || !env.simMissing {
        RemoveIfUnneeded(SimMissing, true);
      }
      OnPageTreeChanged();
    }
  }
}
