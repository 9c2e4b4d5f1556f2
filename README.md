# FINDIT client core in Dafny

FINDIT is a client-side lost-and-found web application. A user records lost or found
items in the browser, browses them with a search box, a status filter and a sort order,
and looks at a dashboard of counts. Navigation between its pages happens in-app: a click
on a navigation link fetches the next page, swaps its `<main>` into the live document,
loads the scripts that page needs and mounts the controller that owns it.

This project models that core and proves properties of the model:

- `spa.dfy` (module `Spa`) models the page-transition engine of `spa.js`.
  - The live document is a `Window` object. `LoadPage` changes its fields step by step and is proved equal to the function `Transition` on its `Snapshot()`.
  - It also models click interception, the basename router, the script reconciliation loop, inline scripts, history and the popstate handler.
  - Controllers are reached only through the window-level hooks their scripts register. What they do when called is logged as an `Event`.
- `nav.dfy` (module `Nav`) models `setActiveNav` of `nav.js`: two loops over an `array` of links.
- `items.dfy` (module `Items`) models the record and listing rules of `script.js`: the stored list and its demo seed, `findIndex`, the filter, the four sort orders, the `'id:'` image references and the upload classification.
- `item_app.dfy` (module `ItemApp`) models the item-list controller of `script.js`.
  - The class `App` holds the in-memory list, the store, the listener registry `_listeners`, the rendered cards and count, and the add/edit form.
  - Its handlers: mount and unmount, submit, `addItem`, the toggle, edit and delete actions, the file input and the keydown handler.
- `dashboard.dfy` (module `Dashboard`) models `dashboard.js`.
  - `countByStatus` and `uniqueLocations` are loops proved against recursive specification functions.
  - It also covers the recent and top slices, `render` with its missing-element exceptions, `showSection`, the `onKey` tab arithmetic, and the `_tabHandlers` registry over repeated mounts.
- `contact.dfy` (module `Contact`) models `contact.js`.
  - The e-mail pattern is proved equal to its regular-expression language.
  - It also covers the submit handler's checks and outcomes, the status line and class, and the busy state of the submit button.
- `settings.dfy` (module `Settings`) models `settings.js`: the JSON record kept in the browser store over a key→value map, `populate` and its defaults, the theme classes, and the save, reset and import handlers.
- `rotating_text.dfy` (module `RotatingText`) models `rotatingText.js`: option defaults, `splitText` and its round trips, `setText`, the exit step of `next`, the rotation index, and the `start`/`stop` interval handles.
- `strings.dfy` (module `Strings`) models the JavaScript string operations they rely on: `trim` and `\s`, `toLowerCase` on ASCII letters, `includes`, `startsWith`, `split`/`join`, `split(c).pop()` and decimal `String(n)`.

## Behaviour worth noting

- `setActiveNav` marks every link whose `href` basename equals the current page, so zero links or several links can be active (`Nav.ActiveIsNotUnique`).
- `mountApp` is idempotent (`ItemApp.App.MountTwice`).
  - `mountDashboard` is not. It replaces `_tabHandlers` without detaching the listeners already attached, and adds another `#goToApp` listener each time (`Dashboard.MountNotIdempotent`, `Dashboard.TwoMountsTwoSteps`).
- Script reconciliation only avoids adding duplicates: a source the live document already holds twice stays twice (`Spa.ReconciledScriptCounts`).
- `openAddForm` does not drop `dataset.imageData`. Cancelling an edit of an item with an inlined image therefore gives the next new item that image (`ItemApp.App.CancelEditKeepsImage`).
- The clear button does not leave edit mode (`ItemApp.App.ClearForm`).
- `renderItems` reads `filterState.value` without a guard, so a page without `#filterState` throws before anything is listed (`ItemApp.App.Render`).

## Model

| member | source | states |
|---|---|---|
| `Spa.PageNameOfPath` | spa.js:55 | the page name is the text after the last `/`, or `index.html` when that text is empty |
| `Spa.DirectoryRoutesToItemApp` | spa.js:55-56 | a URL ending in `/` mounts the item app |
| `Spa.RouteTable` | spa.js:55-58 | `index.html`, `profile.html` and the empty name mount the item app, `dashboard.html` the dashboard, and any other name nothing; the directory does not matter |
| `Spa.RouteIsExact` | spa.js:55-58 | a table name followed by anything else (such as `profile.html#add`) mounts nothing |
| `Spa.MissingSpec` | spa.js:34-45 | each appended `src` was absent from the document and comes from the fetched page; every fetched `src` ends up present; none is appended twice; appended ones keep the order of their first occurrence |
| `Spa.ReconciledScriptCounts` | spa.js:34-45 | after reconciliation an absent fetched `src` occurs exactly once, and a `src` already present occurs as often as before |
| `Spa.ReconcileStep` | spa.js:35-44 | one turn of the loop: an absent `src` is appended, loaded and its hooks registered; a present one changes nothing |
| `Spa.FailedFetchNavigates` | spa.js:5-6 | a failed or non-ok fetch logs a native navigation to `url` and changes nothing else (no unmount, swap or push) |
| `Spa.PageWithoutMain` | spa.js:13-17 | a fetched page without `<main>` runs the unmount hooks and stops: no swap, mount, push or native-navigation fallback |
| `Spa.SwapEventOrder` | spa.js:13-61 | the order of a successful transition: unmounts, appended scripts, inline scripts, active-link update on the old location, mount, and a fallback navigation only when the mount throws |
| `Spa.FragmentRules` | spa.js:23-31 | the title changes only to a non-empty fetched title; header title and subtitle are copied only when present in both documents |
| `Spa.HistoryRule` | spa.js:61 | one entry is pushed when `push` is set and the pipeline ran to its end, and otherwise none |
| `Spa.TransitionKeepsScripts` | spa.js:34-45 | a transition never removes or duplicates a script already present outside `<main>`, and leaves a fetched absent one present exactly once |
| `Spa.InterceptIff` | spa.js:67-76 | a click is intercepted exactly when it is inside a `.nav-link` with a non-empty `href` that is not an `http` URL outside the origin; the `href` is what is loaded |
| `Spa.InterceptByOrigin` | spa.js:73 | a foreign absolute `http` URL is left to the browser; a non-empty relative link is always loaded in-app |
| `Spa.InterceptIsTextual` | spa.js:73 | the origin test is a prefix test on text: a protocol-relative link and a host extending the origin's name are intercepted |
| `Spa.Window.NavigateNatively` | spa.js:63 | `location.href = url` is logged as a native navigation |
| `Spa.Window.ReconcileScripts` | spa.js:34-45 | the `for` loop appends exactly `Missing(live, fetched)` in order, registers their hooks and logs their loads |
| `Spa.Window.RunInlineScripts` | spa.js:48-49 | every inline script runs once, in document order |
| `Spa.Window.LoadPage` | spa.js:3-64 | the new document is `Transition` of the old one, for every fetch outcome and every mount outcome |
| `Spa.Window.RunScripts` | spa.js:34-49 | the external scripts are reconciled, then the inline scripts run |
| `Spa.Window.SwapFragments` | spa.js:17-31 | `<main>` is replaced and the title and header fragments follow their rules |
| `Spa.Window.MountAndPush` | spa.js:52-61 | `setActiveNav`, then the mount hook the router names, then `pushState` when asked and the mount did not throw |
| `Spa.Window.OnClick` | spa.js:67-76 | an intercepted click is prevented and becomes `loadPage(href)` with push; any other click changes nothing |
| `Spa.Window.OnPopState` | spa.js:79-82 | the entry's URL (or its path) is loaded without pushing |
| `Spa.PopStateSeesEntry` | spa.js:79-82 | going back adds no history entry, and the active-link update sees the entry's path |
| `Spa.ForwardHighlightsOldLocation` | spa.js:52-61 | on a forward transition `setActiveNav` sees the location from before the push |
| `Nav.CurrentPage` | nav.js:5 | the current page is never empty and contains no `/` |
| `Nav.SetActiveNav` | nav.js:3-16 | every link ends up as `Highlight` of its old state for the current page |
| `Nav.HighlightRule` | nav.js:9-13 | a link is active exactly when the last `/` piece of its `href` is the current page; its other classes and its `href` are kept |
| `Nav.NoHrefNeverActive` | nav.js:9-11 | a link with no or an empty `href` is never active |
| `Nav.HighlightIdempotent` | nav.js:6-15 | highlighting twice is highlighting once |
| `Nav.ActiveIsNotUnique` | nav.js:10-12 | links in different directories naming the current page are all active |
| `Nav.SetActiveNavTwice` | nav.js:3-16 | calling `setActiveNav` twice leaves the links as one call does |
| `Items.Loaded` | script.js:91-104 | the loaded list is never empty: the stored list, or the two seed items when the store is empty, missing or unparsable |
| `Items.FindIndex` | script.js:202 | the first index holding the id, or -1 when no item has it |
| `Items.Flip` | script.js:309 | the toggle gives `found` exactly for `lost`, and `lost` otherwise |
| `Items.FlipTwice` | script.js:309 | toggling twice restores exactly `lost` and `found` |
| `Items.Filter` | script.js:114-118 | an item is kept exactly when the query is empty or found in its lower-cased name, location or description, and the state is `all` or its status; kept items are a sub-multiset |
| `Items.FilterAll` | script.js:114-118 | an empty query with state `all` keeps every item in order |
| `Items.OtherStatusOnlyUnderAll` | script.js:116 | an item with another status never shows under `lost` or `found` |
| `Items.LexTotal` | script.js:122-128 | the stand-in string order is total |
| `Items.BeforeTotal` | script.js:120-129 | each sort order compares every two items one way or the other |
| `Items.SortSorted` | script.js:120-129 | the sorted list is ordered |
| `Items.SortPermutes` | script.js:120-129 | the sorted list is a permutation of its input |
| `Items.SortSpec` | script.js:120-129 | the sort is ordered and a permutation |
| `Items.SortAsFiltered` | script.js:120-129 | an unknown sort value keeps the filtered order |
| `Items.ListedSpec` | script.js:111-129 | the listed items are ordered, exactly the kept items, and never more than the total |
| `Items.RefRoundTrip` | script.js:138-139 | `'id:' + key` is a reference whose key is `key`, and a reference is rebuilt from its key |
| `Items.UploadRules` | script.js:318-324 | the size check comes first, then the type; a large image goes by reference only with the database; every other accepted file is inlined |
| `Items.UploadBoundaries` | script.js:318-324 | exactly 50 MB is accepted and exactly 10 MB is inlined |
| `Items.ValidateAgreesWithUpload` | script.js:57-64 | the inline validator and the change handler agree on the 50 MB limit |
| `ItemApp.RegisteredMembers` | script.js:275 | the registry holds exactly the calls whose element exists |
| `ItemApp.RegisteredAppend` | script.js:289-343 | registering two runs of calls is registering each |
| `ItemApp.MountListenersSpec` | script.js:289-343 | one mount registers exactly the calls of `mountApp` whose element exists, the document's keydown handler always |
| `ItemApp.SubmitEditSpec` | script.js:199-205 | an edit replaces the matched item's name, description, location, contact (each trimmed), date and image from the form, and keeps its id, status and position |
| `ItemApp.EditRoundTrip` | script.js:189-258 | opening an item for editing and saving the form untouched leaves the list as it was, for an item with trimmed texts |
| `ItemApp.SubmitEditOthers` | script.js:201-205 | an edit leaves every other item as it was |
| `ItemApp.SubmitUnknownEdit` | script.js:202-205 | an edit id that no item has changes nothing |
| `ItemApp.SubmitNewSpec` | script.js:210-213 | without an edit id a new `lost` item with a fresh id is put first, the others following in order |
| `ItemApp.AfterToggleSpec` | script.js:309 | only the targeted item's status changes; an unknown id changes nothing |
| `ItemApp.ToggleTwice` | script.js:309 | toggling the same item twice restores the list when its status was `lost` or `found` |
| `ItemApp.AfterDeleteSpec` | script.js:311 | exactly the targeted item is removed and the others keep their order; an unknown id changes nothing |
| `ItemApp.App.AddListener` | script.js:275 | a missing element records nothing, otherwise exactly one record is appended |
| `ItemApp.App.RemoveAllListeners` | script.js:276 | the registry is emptied |
| `ItemApp.App.Unmount` | script.js:365 | unmounting empties the registry, and is a no-op on an empty one |
| `ItemApp.App.SaveItems` | script.js:106-108 | the store holds the current list |
| `ItemApp.App.LoadItems` | script.js:91-104 | the list is `Loaded` of the store, and the store then holds the list |
| `ItemApp.App.Render` | script.js:110-187 | throws exactly without `#filterState`; otherwise the cards show the filtered, sorted list and the count text is updated unless nothing matched |
| `ItemApp.App.SaveAndRender` | script.js:214-215 | the list is saved, then rendered |
| `ItemApp.App.OpenAddForm` | script.js:263-271 | inputs reset, edit mode left, label restored, cancel hidden; the image data stays |
| `ItemApp.App.OpenEditForm` | script.js:231-261 | the inputs take the item's fields, a data URL or database reference becomes the image data, and edit mode starts |
| `ItemApp.App.ClearForm` | script.js:228 | inputs and image data cleared; edit mode stays |
| `ItemApp.App.SubmitForm` | script.js:189-219 | an empty name changes nothing; otherwise the list becomes `AfterSubmit`, is saved and rendered, edit mode ends and the form is reset |
| `ItemApp.App.LeaveEditMode` | script.js:206-209 | edit id dropped, label restored and cancel hidden, only in edit mode |
| `ItemApp.App.AddItem` | script.js:75-87 | a name that trims to empty gives `None` and changes nothing; otherwise the new item is first, before the reloaded list, and is saved |
| `ItemApp.App.Toggle` | script.js:309 | the list becomes `AfterToggle`; it is saved and rendered only when the id exists |
| `ItemApp.App.EditAction` | script.js:310 | the form becomes the `openEditForm` state of the first item with that id (inputs, image data, edit id, label, cancel button), and is unchanged when there is none |
| `ItemApp.App.Delete` | script.js:311 | after a confirm the list becomes `AfterDelete`; a cancel or an unknown id changes nothing |
| `ItemApp.App.ChooseFile` | script.js:315-340 | the upload is classified, and a reference or data URL becomes the image data; a rejection changes nothing |
| `ItemApp.App.OnKeydown` | script.js:366-370 | Escape opens the add form; other keys leave the form |
| `ItemApp.App.Mount` | script.js:278-364 | new elements, a registry of exactly one mount, the loaded and rendered list, and the `#add` and profile-contact steps unless an earlier step threw |
| `ItemApp.App.Start` | script.js:344-359 | `loadItems`, `renderItems`, then the hash and profile-contact steps, stopping at a throw |
| `ItemApp.App.Prefill` | script.js:347-359 | `#add` opens the add form (throwing without the form); a profile contact fills the contact input |
| `ItemApp.App.Register` | script.js:289-343 | the registry is cleared, then holds exactly the registrations of one mount |
| `ItemApp.App.RegisterControls` | script.js:290-300 | the first five `addListener` calls, in order |
| `ItemApp.App.RegisterList` | script.js:301-343 | the last five `addListener` calls, in order |
| `ItemApp.App.MountTwice` | script.js:278-343 | two mounts without an unmount leave the listeners of one mount |
| `ItemApp.App.CancelEditKeepsImage` | script.js:263-271 | after cancelling an edit of an item with a data-URL image, the next new item takes that image |
| `Dashboard.CountByStatus` | dashboard.js:7-11 | the loop returns the length and the exact counts of `lost` and `found` |
| `Dashboard.StatusPartition` | dashboard.js:9 | each item is counted as lost, as found, or in neither |
| `Dashboard.CountsBound` | dashboard.js:7-11 | `lost + found <= total`, with equality exactly when no item has another status |
| `Dashboard.KeysSpec` | dashboard.js:12-15 | the keys are distinct, and a key is present exactly when some item is counted under it |
| `Dashboard.ByCountSpec` | dashboard.js:15 | the sort keeps the entries and the total and orders by non-increasing count |
| `Dashboard.HistogramSpec` | dashboard.js:12-16 | each entry holds its key's count; every item's key (`Unknown` for an empty location) has one; the counts sum to the number of items and never increase |
| `Dashboard.HistogramDistinct` | dashboard.js:12-16 | no two entries share a location |
| `Dashboard.CountLocations` | dashboard.js:13-14 | the counting loop leaves the map object's keys in first-seen order, one per location, each holding its true count |
| `Dashboard.EntriesOf` | dashboard.js:15 | the entries pair each key with its count, in key order |
| `Dashboard.UniqueLocations` | dashboard.js:12-16 | counting, taking the entries and sorting give `Histogram`: distinct locations with their counts, by non-increasing count |
| `Dashboard.RecentSpec` | dashboard.js:24 | the recent list is the first at most eight items in stored order |
| `Dashboard.TopSpec` | dashboard.js:41-46 | the top list is the first at most five entries of the histogram: sorted, distinct, true counts, and none left out is larger |
| `Dashboard.PanelsEmpty` | dashboard.js:24-46 | the placeholders show exactly when there are no items |
| `Dashboard.InitialSectionSpec` | dashboard.js:86-87 | an empty hash or `#` gives `overview`, `#name` gives `name` back, and the fragment written for a tab without `data-section` gives `undefined` |
| `Dashboard.NextFocusSpec` | dashboard.js:63-73 | the next index is a tab index other than the current one; focus off the tabs or another key moves nothing |
| `Dashboard.ArrowSteps` | dashboard.js:68-69 | ArrowRight moves right and wraps to the first tab; ArrowLeft moves left and wraps to the last |
| `Dashboard.HomeEndSteps` | dashboard.js:70-71 | Home gives the first tab and End the last |
| `Dashboard.LeftUndoesRight` | dashboard.js:68-69 | ArrowLeft undoes ArrowRight |
| `Dashboard.SummarySpec` | dashboard.js:19-22 | the counters read back as the total, lost and found counts; the lists show placeholders exactly without items |
| `Dashboard.WrittenSpec` | dashboard.js:17-47 | a complete render shows the summary, and a throw before a write leaves that part as it was |
| `Dashboard.UnmountSpec` | dashboard.js:90-98 | unmounting an empty registry changes nothing, and unmounting twice equals once |
| `Dashboard.MountUnmount` | dashboard.js:55-98 | a mount then an unmount restores the tab listeners, and keeps every listener numbered by its mount |
| `Dashboard.MountNotIdempotent` | dashboard.js:58-97 | after two mounts and an unmount the first mount's listeners stay attached, and a second `#goToApp` listener exists |
| `Dashboard.TwoMountsTwoSteps` | dashboard.js:63-84 | after two mounts one ArrowRight moves the focus by two tabs |
| `Dashboard.ArrowRightTwice` | dashboard.js:68 | two ArrowRight steps move by two, wrapping around |
| `Dashboard.ListenersOfRecords` | dashboard.js:75-84 | one mount attaches a click and a keydown listener for each tab, and no others |
| `Dashboard.Dashboard.Render` | dashboard.js:17-47 | throws exactly when one of the five written elements is missing, and writes each part up to that point |
| `Dashboard.Dashboard.ShowSection` | dashboard.js:49-54 | exactly the present section named is shown, exactly the tabs for `name` are selected, the fragment becomes `#name`; an unknown name hides all three |
| `Dashboard.Dashboard.Mount` | dashboard.js:55-89 | render, then (unless it threw) the `#goToApp` listener, the tab listeners replacing `_tabHandlers`, and the section named by the fragment |
| `Dashboard.Dashboard.Wire` | dashboard.js:58-88 | the registry becomes `AfterMount` and the initial section is shown when there are tabs |
| `Dashboard.Dashboard.AttachTabs` | dashboard.js:75-83 | a click and a keydown listener per tab, and one record per tab in tab order |
| `Dashboard.Dashboard.Unmount` | dashboard.js:90-98 | both listeners of every record are detached and the list emptied; the `#goToApp` listener stays |
| `Dashboard.Dashboard.ClickTab` | dashboard.js:77-78 | a tab click with a listener shows that tab's section; without one nothing changes |
| `Dashboard.Dashboard.PressKey` | dashboard.js:63-79 | each attached keydown listener of the focused tab runs `onKey` once, in mount order |
| `Contact.ValidEmailSpec` | contact.js:19-22 | the scan accepts exactly the language of `^[^\s@]+@[^\s@]+\.[^\s@]+$` |
| `Contact.ValidEmailParts` | contact.js:21 | for a local part without `@`, `local@host` passes exactly when the local part is a non-empty run without white space or `@` and the host is a run of such characters holding a `.` other than at either end |
| `Contact.EmailExamples` | contact.js:21 | `a@b.c` and `a.b@c.d.e` pass; hosts with the dot at an end, without a dot or with an `@` fail, as do empty or spaced local parts |
| `Contact.ClassForSpec` | contact.js:16 | the class is `contact-status`, followed by a space and the type when the type is non-empty |
| `Contact.RequiredFirst` | contact.js:32-35 | an empty field is reported before the address is looked at, and nothing is sent |
| `Contact.EmailGate` | contact.js:37-40 | with every field filled, the submission stops exactly when the address does not match the pattern |
| `Contact.PlaceholderAction` | contact.js:52-59 | an empty or `FORM_ID` action gets the warning and no post |
| `Contact.PostOutcome` | contact.js:70-79 | success exactly for an ok response; otherwise an error naming the reason |
| `Contact.FailureText` | contact.js:74-79 | the failure text is `Failed to send: ` and the server error, else `Server responded with ` and a status code that reads back, or the thrown message |
| `Contact.ContactForm.Submit` | contact.js:24-84 | the status is `StatusOf`; exactly the passing posts are sent, an ok one resets the inputs to their defaults, and the button ends enabled and not busy whenever sending started |
| `Contact.ContactForm.Send` | contact.js:45-83 | a placeholder action is warned about without a post; otherwise one post is made and its outcome shown, an ok reply resets the inputs to their defaults; the button ends enabled and not busy on every path |
| `Contact.ResubmitAfterReset` | contact.js:28-34 | after a reset to blank defaults, submitting again only reports the required fields |
| `Settings.Or` | settings.js:29-32 | `v || fallback`: a present truthy `v` is kept, and a missing or falsy one gives the fallback |
| `Settings.LoadSpec` | settings.js:7-12 | a missing key and unparsable text give `{}`; otherwise the stored value |
| `Settings.SaveSettings` | settings.js:14-16 | the key holds the record and every other key is kept |
| `Settings.SaveLoad` | settings.js:14-16 | loading after saving gives the record back |
| `Settings.ThemedSpec` | settings.js:18-25 | exactly the class of `light`, `dark` or `compact` remains of the three, none for another theme, and other classes are unchanged |
| `Settings.LastThemeWins` | settings.js:18-25 | only the last theme applied matters |
| `Settings.PopulatedDefaults` | settings.js:27-35 | each text control shows its default exactly when the field is missing or falsy; the switches show truthiness |
| `Settings.NothingStoredShowsDefaults` | settings.js:27-35 | with nothing stored or unparsable text the form shows the defaults |
| `Settings.SavePopulate` | settings.js:69-78 | a saved form comes back on the next populate with the address trimmed, unless a text control was empty |
| `Settings.NullImportBreaksPage` | settings.js:47-53 | importing `null` stores `null`, after which `populate` throws where it showed the defaults before |
| `Settings.SettingsPage.ApplyTheme` | settings.js:18-25 | the body classes become `Themed` of the old ones |
| `Settings.SettingsPage.Populate` | settings.js:27-35 | the form shows `Populated` of the loaded record and its theme is applied; a `null` record throws and changes nothing |
| `Settings.SettingsPage.Start` | settings.js:65-89 | off the settings page nothing happens; on it the form is populated and handlers attached unless `populate` throws |
| `Settings.SettingsPage.Save` | settings.js:69-81 | the form is stored as a record, its theme applied, and `Settings saved` shown |
| `Settings.SettingsPage.ThemeChanged` | settings.js:88 | the selected theme is applied without saving |
| `Settings.SettingsPage.Reset` | settings.js:58-63 | a cancel changes nothing; a confirm removes the key, shows the defaults and removes every theme class |
| `Settings.SettingsPage.Import` | settings.js:44-56 | no file does nothing; unparsable text is reported and nothing stored; a parsed value is stored, and the form and theme follow it; a `null` one is reported invalid with form and theme unchanged |
| `Settings.SettingsPage.ImportChecked` | settings.js:44-56 | the import as intended: no file does nothing; unparsable or `null` text is reported invalid and changes nothing else; any other value is stored, shown and themed and reported imported, so a loadable record stays loadable |
| `RotatingText.ConfigOf` | rotatingText.js:4-6 | every option is truthy afterwards: a given truthy value is kept and anything else takes its default |
| `RotatingText.NoOptionsDefaults` | rotatingText.js:4-6 | missing or falsy options give 2500, `characters` and 30 |
| `RotatingText.CharactersSpec` | rotatingText.js:12 | character mode gives one piece per character, in order, showing the text itself |
| `RotatingText.SeparatedShown` | rotatingText.js:13-15 | the pieces carry the parts in order, and showing them puts one space where each separator was |
| `RotatingText.WordsRoundTrip` | rotatingText.js:13 | word mode: pieces are the words, each but the last needs a space, and the pieces show the text back |
| `RotatingText.SeparatorRoundTrip` | rotatingText.js:14-15 | line and custom modes: the pieces joined by the separator give the text back, each but the last needs a space |
| `RotatingText.Started` | rotatingText.js:76-78 | `start()` adds one running timer |
| `RotatingText.StoppedLive` | rotatingText.js:75 | `stop()` clears exactly the timer its handle names |
| `RotatingText.StopAfterTwoStarts` | rotatingText.js:74-79 | after two starts a stop leaves one more timer running than before |
| `RotatingText.Rotator.constructor` | rotatingText.js:64-72 | a missing container builds nothing; empty texts throw; otherwise the first text is announced and shown and one announcing timer runs |
| `RotatingText.Rotator.SetText` | rotatingText.js:20-47 | one entering element per piece, the `i`-th delayed by `i * stagger` |
| `RotatingText.Rotator.ExitAll` | rotatingText.js:51-56 | every element switches to exit, the `i`-th delayed by `i * stagger / 2` |
| `RotatingText.Rotator.Tick` | rotatingText.js:58-71 | the index moves on by one modulo the number of texts and stays in range; the new text is shown and announced by the first timer |
| `RotatingText.Rotator.Start` | rotatingText.js:76-78 | another running timer, which the handle now names; nothing without a container |
| `RotatingText.Rotator.Stop` | rotatingText.js:75 | the timer the handle names is cleared; nothing without a container |
| `Strings.TrimStartSpec` | contact.js:28 | leading trim keeps a suffix that does not start with white space, cutting only white space |
| `Strings.TrimEndSpec` | contact.js:28 | trailing trim keeps a prefix that does not end with white space, cutting only white space |
| `Strings.TrimEmptyIffAllSpace` | contact.js:32 | a text trims to empty exactly when it is all white space |
| `Strings.TrimIdempotent` | script.js:77 | trimming twice is trimming once |
| `Strings.ToLower` | script.js:111 | same length, each character mapped by the ASCII case rule |
| `Strings.Split` | rotatingText.js:13 | a split always has at least one piece |
| `Strings.JoinSplit` | rotatingText.js:13-15 | joining the pieces with the separator gives the text back |
| `Strings.SplitPiecesFree` | nav.js:10 | no piece of a split on a character contains it |
| `Strings.SplitWithout` | nav.js:10 | a text without the separator splits into itself |
| `Strings.SplitAround` | nav.js:10 | splitting distributes over an occurrence of the separator |
| `Strings.LastPiece` | nav.js:10 | the last piece contains no separator |
| `Strings.LastPieceAfter` | nav.js:5 | the last piece is what follows the last separator, or the whole text without one |
| `Strings.NatToString` | dashboard.js:20-22 | at least one decimal digit, with no leading zero |
| `Strings.NatToStringRoundTrip` | script.js:186 | the decimal text reads back as the number |

## Left out

- IndexedDB, `FileReader`, the clipboard and object URLs are I/O. The outcome of storing a blob and the data URL a reader yields are inputs to `ItemApp.App.ChooseFile`. Only the `'id:'` reference convention is kept.
- `fetch`, `DOMParser` and `res.text()` are I/O. Their outcome is the `Fetch` input of `Spa.Window.LoadPage` and the `Response` input of `Contact.ContactForm.Submit`.
- `uid()` reads the clock and a random source. The fresh ids are parameters (`freshId`, `id1`, `id2`).
- The browser store is a value (`Stored`, or a key→value map of `Raw`) and JSON text is not modelled. JSON numbers are integers only: `float` is not modelled.
- Sorting uses code-unit lexicographic order in place of `localeCompare`, whose collation depends on the locale.
- Dashboard.ByCount: sorts by insertion and is proved to keep the entries and order them by non-increasing count. That entries with equal counts keep their order, as the stable `Array.prototype.sort` keeps them, is not proved, and it decides which tied entries `Dashboard.TopSpec` shows.
- Items.Sort: `Array.prototype.sort` is stable. The model sorts by insertion and proves the result ordered and a permutation, but it does not prove that items with equal keys keep their order.
- Strings.ToLower: lowers `A`–`Z` only. JavaScript's `toLowerCase` lowers every Unicode letter, so a name `ÉCOLE` matches the query `école` in the source but not in `Items.Filter`.
- RotatingText.CharactersSpec: a Dafny string is a sequence of code points, so character mode gives one piece per code point. JavaScript's `split('')` gives one piece per UTF-16 code unit, so a character outside the Basic Multilingual Plane (an emoji, say) becomes two pieces in the source and one in the model.
- The timers are left out as clock events:
  - the 200 ms timeout that opens the `?edit=` item on mount;
  - the 1600 ms copy-button timeout;
  - CSS animations.
- RotatingText.Rotator.Tick: the tick runs the 300 ms timeout of `next` at once. A second tick that fires inside those 300 ms, and so sees the old index, is not modelled.
- `alert` and `confirm` are boolean inputs or a list of shown notices. `removeEventListener` is a browser effect, represented by dropping records and attached handlers.
- Card and markup construction is not modelled beyond the list and panel contents:
  - the elements built for each item and entry;
  - the `aria-*` attributes and `role` on tabs and the `aria-orientation` of the tab list;
  - focus and `scrollIntoView`.
  - The copy-contact action writes to the clipboard only.
- `history.replaceState` throwing is left out: `showSection` catches it, and the fragment is then still modelled as written.
- `pushState` URL resolution is left out: the location becomes the URL as written.
- Overlapping `loadPage` calls and a script whose `load` event never fires are left out. One transition is modelled, with every script loading.
- Inline script contents are opaque. Only that each ran, and in which order, is logged.
- Spa.TransitionKeepsScripts and Spa.Window.LoadPage cover only scripts outside `<main>`. `<main>` is swapped before the fetched page's scripts are queried, so what this leaves out is:
  - a script inside the fetched `<main>`, which moves into the document without being loaded or run;
  - a script inside the old `<main>`, which leaves the document with it, so a later page listing it outside `<main>` appends it again.
- The dispatch order of `keydown` listeners of different mounts is taken to be mount order.
- A store text for the item list that parses to something other than an array is taken as unparsable.
- Dashboard.UniqueLocations: keeps insertion order for every key before the sort. `Object.entries` puts integer-like keys first in numeric order, so locations named like numbers may tie-break differently.
- Dashboard.CountLocations, Dashboard.UniqueLocations and Dashboard.HistogramSpec count every location as an ordinary key. The source counts into a plain object `{}`, so names of `Object.prototype` members behave differently there:
  - `__proto__` reads the prototype and the write is ignored, so that item is missing from the histogram and the counts sum to one less;
  - `constructor`, `toString`, `valueOf` and the like start from the inherited function, so the count becomes a text and the sort comparator gives `NaN`.
- The contact handler's early return when the page has no `#contact-form` is left out, as is a missing `#contact-status` making `setStatus` throw.
  - `form.action` is taken as written. The browser would return the document URL for an empty action.
  - The asynchronous interleaving of two submissions is left out.
- A contact form without a `button[type="submit"]` makes the handler throw when it disables the button, before the `try`. This is left out: the button is taken to exist.
- ItemApp.App.SaveItems: the store write always succeeds. In the browser `localStorage.setItem` throws once the quota is exceeded, which an inlined image of up to 10 MB can cause. A failing write is not modelled, and neither is what it does to the callers:
  - in `ItemApp.App.SubmitForm` the list has already changed in memory, and the render, the form reset and the store write do not happen;
  - in `ItemApp.App.AddItem` the item is in memory but the call returns `null`;
  - `ItemApp.App.Toggle`, `ItemApp.App.Delete` and `ItemApp.App.LoadItems` likewise change the list in memory without storing it;
  - `Settings.SettingsPage.Save` would neither apply the theme nor alert, and `Settings.SettingsPage.Import` would alert "Invalid settings file."; both leave the store unchanged.
- `console.warn` and `console.error` (the failed-load warning and the transition error in `spa.js`, the failed `addItem` in `script.js`) only write to the console and are left out.
- ItemApp.App.Mount, ItemApp.App.Start and ItemApp.App.Prefill: the profile contact (the `contact` member of the stored `findit_profile`, else the stored `findit_profile_contact`) enters only as the `profileContact` parameter; reading and parsing those keys is not modelled.
- `setStatus` has no method of its own: `Submit` and `Send` assign the status line directly.
- The settings export builds a `Blob` download and is I/O.
- The settings form assigns stored values to `<select>` and `<input>` controls. Browser coercion of a value that is not an option is not modelled: the control shows `String(v)`.
- `createRotatingText` with an `options` argument of `null` (which throws) is left out, as is inserting the screen-reader span when the container has no parent. The span's text is still modelled.
- `hamburger.js` is not part of this model: it only toggles sidebar classes, and its stray `}` makes the file fail to parse.
- `dock.js` is not part of this model: it scales dock icons by floating-point pointer distance and dispatches to `window.findit`.

## Findings

| source | as written | input that shows it | evidently intended | confidence | as-written member | corrected member |
|---|---|---|---|---|---|---|
| settings.js:47-53 | the import saves the parsed value before `populate`, so a `null` value is stored although the user is told the file is invalid; every later `populate` throws, so the settings page attaches no handlers (reset included) | a settings file whose text is `null` | a file reported invalid leaves the stored settings unchanged | not executed | `Settings.SettingsPage.Import` | `Settings.SettingsPage.ImportChecked` |

`Settings.NullImportBreaksPage` exhibits the as-written behaviour: after saving `null`, loading gives `null` and `populate` has no form to show, where it showed the defaults before. `Settings.SettingsPage.ImportChecked` refuses `null` without saving and keeps a loadable record loadable.
