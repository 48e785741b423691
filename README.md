# Setup wizard flow controller — a Dafny model

This project models the navigation state machine of the CyanogenMod account app's
first-run setup wizard (`SetupWizardActivity` and its inner `CMPagerAdapter`).
The wizard shows an ordered list of pages one at a time in a pager. Each page has
an identity, a key, a *required* flag and a *completed* flag. The controller keeps
a **cut-off**: the index of the first required page that is not yet completed, or
the list size when no page blocks. The pager never shows more than
`min(cut-off, size)` items. On top of that state the controller does the following:

- moves forward and back;
- removes the SIM-missing page when the user presses "next" on it;
- finishes the wizard from the complete page;
- reacts to the "page loaded", "page tree changed" and "page finished" events;
- reconciles the list against the device: the CMID, Google-account and
  SIM-missing pages are dropped when the device does not need them.

Files:

- `Wrappers.dfy`: `Option`, which stands for the source's nullable `Page`.
- `Pages.dfy`: `PageId`, `Page`, the cut-off as a function (`CutOff`), the page-list
  queries (`FindByKey`, `FindById`), removal by key (`RemoveKey`) and lemmas about
  these queries and removal.
- `Setup.dfy`: `SetupData`, the object that owns the page list (`AbstractSetupData`
  in the app, only `findPage` and `removePage`).
- `Wizard.dfy`: `CMPagerAdapter` (a class with the stored cut-off), `SetupWizardActivity`
  (a class whose methods change the pager position, the button bar, the page list
  and the finished flag), and the reconciliation written as a function on lists,
  with its lemmas.

Modelling assumptions, which the visible source does not settle:

- `mPageList` is the same list object that `SetupData` owns. The activity therefore
  keeps only `hasPageList` (whether `mPageList` is non-null) and reads `data.pages`.
- `AbstractSetupData.removePage` removes the page with the same key. It then tells
  its listener, synchronously, that the page tree changed. In the model the activity
  calls `OnPageTreeChanged` straight after `SetupData.RemovePage`.
- `PageList.findPage(id)` returns the first page with that id.
- `ViewPager.setCurrentItem` clamps the requested item to `[0, count - 1]`, and
  ignores the request while the pager has no items (`PagerTarget`).
  `notifyDataSetChanged` makes the pager re-clamp its current item in the same way.
- The platform queries (CMID account exists, Google services present, Google account
  exists, GSM phone, SIM missing) are the fields of an `Environment` value, or a
  boolean parameter.

The two account pages are not handled alike. When a page reports that it is
finished, `onPageFinished` removes the CMID page unconditionally. Only the
Google-account page checks for an account; when none exists it calls `doNext`, which
acts on the pager's current page. The model follows the code.

A consequence of the code as written is stated as `ShownPagesPrecedeCutOff`. Every
item the pager can show lies strictly before the cut-off, so the blocking page
itself is never an item. On every shown item the next button is enabled.

## Model

| member | source | states |
|---|---|---|
| `Pages.CutOff` | src/com/cyanogenmod/id/ui/SetupWizardActivity.java:200-209 | the cut-off is in `[0, size]`, no page before it is required-and-incomplete, and the page at it (if any) is required-and-incomplete, so it is exactly the first such index or the size |
| `Pages.FindByKey` | src/com/cyanogenmod/id/ui/SetupWizardActivity.java:137 | lookup by key returns the first page of the list with that key (no earlier page has it), or nothing only when no page has the key |
| `Pages.FindById` | src/com/cyanogenmod/id/ui/SetupWizardActivity.java:223-232 | lookup by id returns the first page of the list with that id (no earlier page has it), or nothing only when no page has the id |
| `Pages.RemoveKey` | src/com/cyanogenmod/id/ui/SetupWizardActivity.java:141-144 | removing an absent key leaves the list unchanged; removing a present key shortens it by exactly one; no page is added (the order of the rest is `RemoveKeyKeepsOrder`) |
| `Pages.RemoveKeyKeepsOrder` | src/com/cyanogenmod/id/ui/SetupWizardActivity.java:141-144 | removal by key cuts out exactly the first page with that key: the list becomes the pages before it followed by the pages after it, both in their old order |
| `Pages.RemoveKeyMembership` | src/com/cyanogenmod/id/ui/SetupWizardActivity.java:141-144 | on a keyed list, the pages left after removal are exactly those with a different key, and the list stays keyed |
| `Pages.FindByIdAfterRemove` | src/com/cyanogenmod/id/ui/SetupWizardActivity.java:223-234 | removing a page of another id does not change which page a later lookup by id finds, so the three reconciliation steps do not interfere |
| `Pages.CutOffScenario` | src/com/cyanogenmod/id/ui/SetupWizardActivity.java:200-209 | for [required-incomplete, optional, required-complete] the cut-off is 0; after the first page is removed it is 2, the size |
| `Setup.SetupData.FindPage` | src/com/cyanogenmod/id/ui/SetupWizardActivity.java:175 | returns a page of the owned list with that key, or nothing only when no page of the list has that key |
| `Setup.SetupData.RemovePage` | src/com/cyanogenmod/id/ui/SetupWizardActivity.java:141-144 | the owned list becomes the key-removal of the old one, no page with that key remains, and the list stays keyed |
| `Wizard.PagerTarget` | src/com/cyanogenmod/id/ui/SetupWizardActivity.java:140-142 | assumed pager behaviour: an in-range request is honoured exactly, a negative one goes to 0, one at or past the count goes to `count - 1`, and with no items the position stays |
| `Wizard.DropIfUnneededFacts` | src/com/cyanogenmod/id/ui/SetupWizardActivity.java:223-235 | one reconciliation step removes exactly the first page with its id when that page is unneeded, keeps the list keyed, and leaves lookups of other ids unchanged |
| `Wizard.ReconciledMembership` | src/com/cyanogenmod/id/ui/SetupWizardActivity.java:219-240 | after reconciliation a page survives if and only if it is not unneeded on the original list: the CMID page is gone exactly when a CMID account exists, the Google-account page exactly when Google services are absent or a Google account exists, the SIM-missing page exactly when the phone is not GSM or a SIM is present; complete and other pages always stay |
| `Wizard.CMPagerAdapter.constructor` | src/com/cyanogenmod/id/ui/SetupWizardActivity.java:271-275 | the stored cut-off starts at Java's default 0 |
| `Wizard.CMPagerAdapter.GetCount` | src/com/cyanogenmod/id/ui/SetupWizardActivity.java:288-292 | 0 without a page list; otherwise never above the page count nor the cut-off, and equal to one of them (their minimum) |
| `Wizard.CMPagerAdapter.SetCutOffPage` | src/com/cyanogenmod/id/ui/SetupWizardActivity.java:294-299 | the stored cut-off is never negative: a negative argument is stored as Integer.MAX_VALUE, any other value unchanged |
| `Wizard.CMPagerAdapter.GetCutOffPage` | src/com/cyanogenmod/id/ui/SetupWizardActivity.java:301-303 | returns the stored cut-off |
| `Wizard.CMPagerAdapter.NotifyDataSetChanged` | src/com/cyanogenmod/id/ui/SetupWizardActivity.java:159 | each notification of the pager is counted once |
| `Wizard.ShownPagesPrecedeCutOff` | src/com/cyanogenmod/id/ui/SetupWizardActivity.java:150 | with an exact cut-off, every position the pager can show is before the cut-off and on a non-blocking page, so next is enabled there |
| `Wizard.SetupWizardActivity.constructor` | src/com/cyanogenmod/id/ui/SetupWizardActivity.java:37-47 | before the first page-tree refresh there is no page list, the pager is at 0, the cut-off is 0 and the wizard is not finished |
| `Wizard.SetupWizardActivity.GetPage` | src/com/cyanogenmod/id/ui/SetupWizardActivity.java:173-176 | returns the setup data's lookup by key on its list, i.e. `FindByKey` of that list |
| `Wizard.SetupWizardActivity.SetCurrentItem` | src/com/cyanogenmod/id/ui/SetupWizardActivity.java:140-142 | the pager moves to the clamped target of the request |
| `Wizard.SetupWizardActivity.DataSetChanged` | src/com/cyanogenmod/id/ui/SetupWizardActivity.java:169 | notifying the adapter counts one notification and re-clamps the pager position to the new item count |
| `Wizard.SetupWizardActivity.RecalculateCutOffPage` | src/com/cyanogenmod/id/ui/SetupWizardActivity.java:200-217 | the stored cut-off becomes the first required-and-incomplete index or the size, within `[0, size]`; the result is true exactly when that differs from the old stored value; when it is false nothing changed, so an immediate second call returns false |
| `Wizard.SetupWizardActivity.UpdateButtonBar` | src/com/cyanogenmod/id/ui/SetupWizardActivity.java:148-152 | next is enabled exactly when the position is not the cut-off; previous is visible exactly when the position is above 0 |
| `Wizard.SetupWizardActivity.OnPageLoaded` | src/com/cyanogenmod/id/ui/SetupWizardActivity.java:154-163 | a non-required page leaves the cut-off, the notifications and the position alone; a required page makes the cut-off exact and notifies the pager only if the cut-off moved; the button bar is always refreshed |
| `Wizard.SetupWizardActivity.OnPageSelected` | src/com/cyanogenmod/id/ui/SetupWizardActivity.java:69-73 | a position inside the list loads that page; a position beyond it changes nothing |
| `Wizard.SetupWizardActivity.OnPageTreeChanged` | src/com/cyanogenmod/id/ui/SetupWizardActivity.java:165-171 | the page list is bound, the cut-off is exact, the pager is notified once and re-clamped, and the buttons match the position |
| `Wizard.SetupWizardActivity.RemoveSetupPage` | src/com/cyanogenmod/id/ui/SetupWizardActivity.java:136-146 | a null page or a key not in the list changes nothing at all; otherwise the page is removed, the tree refreshed once, and on the animated path the position is the one before the removal whenever it is still an item |
| `Wizard.SetupWizardActivity.FinishSetup` | src/com/cyanogenmod/id/ui/SetupWizardActivity.java:254-263 | the terminal finished state is set |
| `Wizard.SetupWizardActivity.DoNext` | src/com/cyanogenmod/id/ui/SetupWizardActivity.java:117-127 | on the SIM-missing page that page is removed (animated) and no longer in the list; on the complete page the wizard finishes and nothing else changes; on any other page the pager moves to position + 1 when that is an item, and stays on the last item |
| `Wizard.SetupWizardActivity.DoPrevious` | src/com/cyanogenmod/id/ui/SetupWizardActivity.java:129-134 | at 0 nothing moves; above 0 the position decreases by exactly one when the pager was within its items |
| `Wizard.SetupWizardActivity.OnPageFinished` | src/com/cyanogenmod/id/ui/SetupWizardActivity.java:178-198 | a CMID page is always removed; a Google-account page is removed when a Google account exists and otherwise "next" acts on the current page; other pages change nothing; the tree is refreshed at the end and the pager notified once per removal plus once |
| `Wizard.SetupWizardActivity.RemoveIfUnneeded` | src/com/cyanogenmod/id/ui/SetupWizardActivity.java:223-235 | one guarded step: when no page has the id, or the page found is still needed, nothing at all changes; otherwise that page is removed and the state is settled, with the position re-clamped to the new item count; one notification is counted per removed page |
| `Wizard.SetupWizardActivity.RemoveUnNeededPages` | src/com/cyanogenmod/id/ui/SetupWizardActivity.java:219-240 | the list becomes its reconciliation against the environment (characterised by `ReconciledMembership`), the state ends settled, the position never moves forward, and the wizard is not finished by it |

## Left out

- Activity lifecycle and persistence (`onCreate`, `onResume`, `onDestroy`, `onRetainNonConfigurationInstance`, `onSaveInstanceState`): Android plumbing. `AbstractSetupData.save`/`load` are not part of this model, so no save/load round trip is stated. The source of `PageList` and `Page` is not part of this model either: a page is modelled as a record (`Page`) and the page list as a sequence of them.
- `finishSetup`'s settings writes, `disableSetupWizards` and the start of the home activity: foreign platform calls. The whole transition is the `finished` flag.
- `accountExists`, `GCMUtil.googleServicesExist`, `CMIDUtils.isGSMPhone`, `isSimMissing`, `isNetworkConnected` and `tryEnablingWifi`: platform queries, passed in as booleans. The Wi-Fi enabling in `onResume` is not modelled.
- The `Handler.post` deferral in `onPageFinished` and `removeUnNeededPages`: event-loop scheduling. The posted bodies are ordinary sequential methods.
- `getItem` / `createFragment` and `getItemPosition`: they build UI fragments.
- Button text (`setText` with the page's label) and the rendering of the buttons: only the two booleans are kept.
- The pager's own call of `onPageSelected` from inside `setCurrentItem`: ViewPager internals are not visible. `OnPageSelected` is a separate entry point, so after `DoNext`, `DoPrevious` or an animated removal the button bar is not refreshed by the move itself.
- RemoveSetupPage: on the animated path the old position comes back only when it is still below the new item count. The pager clamps, so it cannot promise more.
- RemoveUnNeededPages: the final pager position is bounded (below the item count, never forward), not given exactly. Each removal re-clamps it to a different intermediate count.
- OnPageFinished: after a removal or a `doNext`, the final position is given only as below the item count (`Settled`), not exactly; on the `doNext` path it can move forward.
- DoNext: `mPageList.get(currentItem)` throws `IndexOutOfBoundsException` when the position is not below the list size; the model does not represent that exception and instead requires `currentItem < |data.pages|` (a bound page list).
- OnPageFinished: on the Google-account path without a Google account it calls `doNext`, so it carries the same requirement (a bound page list and `currentItem < |data.pages|`) instead of modelling the exception.
- Java `int` overflow of the list size: page lists are a handful of pages, so sizes and indices are unbounded integers. Only `Integer.MAX_VALUE` in `setCutOffPage` is written out.
