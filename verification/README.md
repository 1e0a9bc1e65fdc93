# Turbo Shine booking core in Dafny

This project models the booking core of the Turbo Shine detailing site and
proves its properties. Three parts of the site are covered:

- **The booking helpers.** These are the package catalog and `getPackageById`,
  which resolves a package id with a fallback to the first package. They also
  include the 12-hour formatter `formatTimeLabel` and the slot generator
  `buildTimeSlots`.
- **The booking dialog.** One provider holds a session record (open flag,
  selected package, current step, name, phone, date, time slot and three
  flags). The user changes it through a handful of handlers: open for a
  package, open/close, choose a package, type, Next, switch tabs, Back, pick a
  date, pick a slot, request. Each handler is a pure function from session to
  session. The events a user can raise are gathered in `Event`. `Dispatch`
  applies an event only when its control is on screen and enabled. The
  page's booking triggers count only while the modal dialog is closed, and
  the dialog's own open-change (Escape, an outside click, the close button)
  only as a close request while it is open. `Run` replays a list of events.
- **The navigation bar's mobile menu.** It stores an open flag together with
  the path it was written on. It reads as open only while that path is still
  current.

Modules:

| module | file | models |
|---|---|---|
| `Wrappers` | wrappers.dfy | `Option`, JavaScript's absent (`null`/`undefined`) versus present |
| `Decimal` | decimal.dfy | `Number#toString()` for non-negative safe integers, `padStart(2, "0")`, and a digit parser used to state round trips |
| `BookingHelpers` | booking_helpers.dfy | the catalog, `getPackageById`, `formatTimeLabel`, `buildTimeSlots` (recursive definition and the source's loop) |
| `BookingDialog` | booking_dialog.dfy | the dialog session, its derived values and handlers, `Event`, `Dispatch`, `Run` |
| `BookingSessionProperties` | booking_session_properties.dfy | properties across handlers: reset semantics, idempotence, gates, the session invariant, a complete booking |
| `Navbar` | navbar.dfy | the mobile menu state, `toggleMenu`, `closeMenu`, and route changes |

JavaScript semantics that the model writes out explicitly:

- A missing or empty package id (`!id`) counts as absent. `Option<string>`
  with `Some("")` behaves like `None` where the source uses `!`.
- `??` treats only `null`/`undefined` as absent, so `openForPackage("")`
  stores `""` verbatim.
- `timeSlot` is falsy for `null` and for `""`, and `Truthy` is false for both.
- `Math.floor(m / 60)` and `m % 60` coincide with Dafny's `/` and `%` for
  non-negative `m`. The model takes minutes as `nat`.
- React's effect on `selectedPackageId` clears the slot and the sent flag.
  It runs only when the id value changes, which `PackageEffect` models with
  the previous id as a parameter.

## Model

| member | source | states |
|---|---|---|
| Decimal.ParseToDecimal | components/shared/booking-helpers.ts:92 | reading the decimal rendering of `n` back gives `n`, and a rendering longer than one digit has no leading zero |
| Decimal.TwoDigitsIsPadStart | components/shared/booking-helpers.ts:92 | the two-digit field is exactly the decimal rendering left-padded with "0" to width 2 |
| Decimal.ParseTwoDigits | components/shared/booking-helpers.ts:121-125 | padding with zeros does not change the value read back |
| Decimal.PadStart | components/shared/booking-helpers.ts:92 | `padStart` never truncates: the result is copies of `pad` followed by the input, the input itself when already wide enough, else exactly `width` long |
| Decimal.TwoDigits | components/shared/booking-helpers.ts:123-125 | the padded field is all digits, at least two long, exactly two below 100 |
| Decimal.ToDecimal | components/shared/booking-helpers.ts:92 | the rendering is a non-empty string of digits |
| BookingHelpers.CatalogFacts | components/shared/booking-helpers.ts:13-67 | the catalog has three packages with distinct ids; "signature-refresh" comes first; only "performance-detail" is highlighted |
| BookingHelpers.FindIndex | components/shared/booking-helpers.ts:83 | `find` returns the first entry meeting the test, or nothing when no entry does |
| BookingHelpers.GetPackageById | components/shared/booking-helpers.ts:75-84 | nothing only for an empty catalog; an absent or empty id gives the first package; an unknown id falls back to the first package; a known id gives the first package carrying that id |
| BookingHelpers.GetPackageByIdFirstMatch | components/shared/booking-helpers.ts:75-84 | a non-empty id resolves to the first package carrying it |
| BookingHelpers.LookupPerformanceDetail | components/shared/booking-helpers.ts:13-84 | in the site's catalog "performance-detail" resolves to the second package, "Performance Detail" |
| BookingHelpers.HighlightedPackageId | app/page.tsx:12-14 | the home page's "most popular" id exists exactly when some package is highlighted, and it is the id of the first highlighted package |
| BookingHelpers.Hour12 | components/shared/booking-helpers.ts:90 | the 12-hour hour lies in 1..12 |
| BookingHelpers.Period | components/shared/booking-helpers.ts:89 | the period is "AM" or "PM" |
| BookingHelpers.Hour12Period | components/shared/booking-helpers.ts:87-90 | within a day, the 12-hour hour together with the period recovers the 24-hour hour |
| BookingHelpers.ClockOfLabelParts | components/shared/booking-helpers.ts:87-91 | within a day, the label's hour, minutes past the hour and period name the minute they were taken from |
| BookingHelpers.LabelTailParts | components/shared/booking-helpers.ts:92 | the text after the hour is ":", the two minute digits, a space and the period, in those positions |
| BookingHelpers.ParseLabelParts | components/shared/booking-helpers.ts:92 | a label assembled from hour digits, a minute field and a period reads back to the clock reading those parts name |
| BookingHelpers.FormatTimeLabel | components/shared/booking-helpers.ts:86-93 | a label is seven characters for a one-digit hour and eight for 10, 11 and 12; its partners are `FormatTimeLabelShape` and `FormatTimeLabelRoundTrip` |
| BookingHelpers.FormatTimeLabelShape | components/shared/booking-helpers.ts:86-93 | a label is an hour in 1..12, ":", a two-digit minute equal to the minutes past the hour, a space, then "PM" exactly from noon and "AM" before |
| BookingHelpers.FormatTimeLabelRoundTrip | components/shared/booking-helpers.ts:86-93 | within a day, an independent label parser reads the formatted label back to the same minute |
| BookingHelpers.FormatTimeLabelInjective | components/shared/booking-helpers.ts:86-93 | distinct minutes of a day get distinct labels |
| BookingHelpers.FormatTimeLabelExamples | components/shared/booking-helpers.ts:86-93 | midnight is "12:00 AM", noon is "12:00 PM", 541 minutes is "9:01 AM" |
| BookingHelpers.SlotValue | components/shared/booking-helpers.ts:121-125 | the "HH:MM" value: both fields `padStart(2, "0")`-ed, joined by ":"; `SlotValueRoundTrip` reads it back |
| BookingHelpers.MakeSlot | components/shared/booking-helpers.ts:121-131 | the slot pushed for one minute: its value, its label and the minute itself; `BuildTimeSlotsReadBack` reads both texts back |
| BookingHelpers.ParseSlotParts | components/shared/booking-helpers.ts:121-125 | an "HH:MM" value built from an hour and a minute below 60 reads back as hour*60+minute |
| BookingHelpers.ParseClockParts | components/shared/booking-helpers.ts:121-125 | hour digits, ":" and a two-digit minute below 60 read back as hours*60+minutes |
| BookingHelpers.SlotValueRoundTrip | components/shared/booking-helpers.ts:121-125 | every slot value, for any whole number of minutes, reads back to its own minute (see "Left out" for the double-precision limit) |
| BookingHelpers.SlotStarts | components/shared/booking-helpers.ts:116-120 | the loop visits the start first, then minutes `step` apart, none past the last start, and stops at the first one past it |
| BookingHelpers.SlotStartsAt | components/shared/booking-helpers.ts:116-120 | the i-th visited minute is start + i*step |
| BookingHelpers.SlotStartsCount | components/shared/booking-helpers.ts:116-120 | the loop runs (last - start)/step + 1 times when start <= last |
| BookingHelpers.SlotsOf | components/shared/booking-helpers.ts:121-131 | one slot per visited minute, in order, each rendered from its own minute |
| BookingHelpers.SlotsOfSnoc | components/shared/booking-helpers.ts:127-131 | pushing the slot for the next minute extends the rendered list by exactly that slot |
| BookingHelpers.BuildStarts | components/shared/booking-helpers.ts:106-120 | no minutes when the service does not fit before closing; otherwise from opening, `step` apart, up to the last start |
| BookingHelpers.BuildTimeSlots | components/shared/booking-helpers.ts:95-135 | empty exactly when the last start is before opening; first slot at opening; consecutive slots `step` apart; none past the last start, and the next one would be past it; each slot's value and label rendered from its own minute |
| BookingHelpers.BuildTimeSlotsCount | components/shared/booking-helpers.ts:106-120 | when the service fits there are (last - start)/step + 1 slots |
| BookingHelpers.BuildStartsCount | components/shared/booking-helpers.ts:106-120 | the loop visits (last - start)/step + 1 minutes when the service fits |
| BookingHelpers.BuildTimeSlotsAt | components/shared/booking-helpers.ts:116-131 | every slot i starts i steps after opening |
| BookingHelpers.BuildTimeSlotsReadBack | components/shared/booking-helpers.ts:121-131 | every generated slot's value, and within a day its label, reads back to the slot's own minute |
| BookingHelpers.SlotValueChars | components/shared/booking-helpers.ts:121-125 | before hour 100 a slot value is five characters: the two hour digits, ":", the two minute digits |
| BookingHelpers.LabelChars | components/shared/booking-helpers.ts:86-93 | a label with a one-digit hour is that digit, ":", the two minute digits, a space and the period |
| BookingHelpers.MakeSlot540 | components/shared/booking-helpers.ts:121-131 | the slot for 540 minutes is 09:00 / 9:00 AM |
| BookingHelpers.MakeSlot840 | components/shared/booking-helpers.ts:121-131 | the slot for 840 minutes is 14:00 / 2:00 PM |
| BookingHelpers.MakeSlot1020 | components/shared/booking-helpers.ts:121-131 | the slot for 1020 minutes is 17:00 / 5:00 PM |
| BookingHelpers.MakeSlotExamples | components/shared/booking-helpers.ts:121-131 | the slots for 540, 840 and 1020 minutes are 09:00/9:00 AM, 14:00/2:00 PM, 17:00/5:00 PM |
| BookingHelpers.BuildTimeSlotsExamples | components/shared/booking-helpers.ts:95-135 | a 2-hour service in a 1-hour window gets no slots; 9-to-5 hourly for 3 hours gets six slots, 9:00 AM to 2:00 PM |
| BookingHelpers.BuildTimeSlotsLoop | components/shared/booking-helpers.ts:106-134 | the source's `for` loop returns exactly the slots of the recursive definition |
| BookingDialog.Initial | components/shared/booking-dialog.tsx:71-84 | first render: closed, blank form, the first catalog id selected when there is one and none otherwise |
| BookingDialog.FirstPackageId | components/shared/booking-dialog.tsx:74 | `packages[0]?.id ?? null` is the first catalog id, present exactly when the catalog is non-empty |
| BookingDialog.SkipLeading | components/shared/booking-dialog.tsx:125 | skips exactly the run of whitespace from a position, stopping at a non-whitespace character or the end |
| BookingDialog.SkipTrailing | components/shared/booking-dialog.tsx:125 | backs off exactly the run of whitespace before a position, stopping after a non-whitespace character or at the bound |
| BookingDialog.Trim | components/shared/booking-dialog.tsx:125 | the result is a slice of the input with only whitespace cut at each end, and it neither starts nor ends with whitespace |
| BookingDialog.TrimEmptyIffBlank | components/shared/booking-dialog.tsx:125 | the trimmed text is empty exactly when the text is all whitespace |
| BookingDialog.IsDetailsReady | components/shared/booking-dialog.tsx:125 | `isDetailsReady`: both trimmed fields are non-empty; `DetailsReadyIff` restates it without trimming |
| BookingDialog.DetailsReadyIff | components/shared/booking-dialog.tsx:125 | the details are ready exactly when both name and phone contain a non-whitespace character |
| BookingDialog.StepValue | components/shared/booking-dialog.tsx:126 | the tab value is "details" exactly on the first step and "schedule" on the second, the value the schedule trigger and content are keyed on |
| BookingDialog.NameError | components/shared/booking-dialog.tsx:283-288 | the name error shows once Next was tried while the trimmed name is empty |
| BookingDialog.PhoneError | components/shared/booking-dialog.tsx:298-303 | the phone error shows once Next was tried while the trimmed phone is empty |
| BookingDialog.ScheduleError | components/shared/booking-dialog.tsx:398-400 | the date-and-time error shows once a request was tried without a date or with a falsy slot |
| BookingDialog.FieldErrorsIff | components/shared/booking-dialog.tsx:283-303 | each field error shows exactly when Next was tried and that field is blank; some error shows whenever a tried Next found the details not ready |
| BookingDialog.FindSlotLabel | components/shared/booking-dialog.tsx:127-128 | finds the label of the first slot with the stored value, or reports that no slot has that value |
| BookingDialog.SelectedTimeLabel | components/shared/booking-dialog.tsx:127-128 | a label shows exactly when the stored slot is one of the fixed values, and it is that slot's label |
| BookingDialog.FixedSlotsMatchFormatter | components/shared/booking-dialog.tsx:58-62 | the fixed 9 AM, 2 PM and 5 PM slots carry the value and label the slot generator produces for their minutes |
| BookingDialog.FixedSlotValuesDistinct | components/shared/booking-dialog.tsx:58-62 | no two fixed slots share a value, so a stored value names one slot |
| BookingDialog.SelectedTimeLabelAgrees | components/shared/booking-dialog.tsx:127-128 | the label shown for a stored slot is the formatter's label for the minute the value names |
| BookingDialog.ResetForm | components/shared/booking-dialog.tsx:86-97 | leaves a blank form on the first step with all flags down, keeping visibility and the package |
| BookingDialog.PackageEffect | components/shared/booking-dialog.tsx:118-121 | clears slot and sent flag exactly when the selected id changed since the previous render |
| BookingDialog.OpenForPackage | components/shared/booking-dialog.tsx:99-106 | opens on a blank form with the given id stored as is, else the first catalog id, else none |
| BookingDialog.HandleOpenChange | components/shared/booking-dialog.tsx:108-116 | opening only shows the dialog; closing also blanks the form but keeps the package |
| BookingDialog.SelectPackage | components/shared/booking-dialog.tsx:206-209 | stores the chosen id; choosing a different package clears slot and sent flag, and re-choosing the same one changes nothing |
| BookingDialog.SetName | components/shared/booking-dialog.tsx:280 | only the name changes, to the typed text |
| BookingDialog.SetPhone | components/shared/booking-dialog.tsx:295 | only the phone changes, to the typed text |
| BookingDialog.HandleNext | components/shared/booking-dialog.tsx:138-144 | records the attempt; reaches the schedule step exactly when already there or both fields hold non-whitespace; nothing else changes |
| BookingDialog.HandleStepChange | components/shared/booking-dialog.tsx:146-148 | "details" selects the first step and every other value the second; no readiness check |
| BookingDialog.Back | components/shared/booking-dialog.tsx:417 | returns to the first step and changes nothing else |
| BookingDialog.SelectDate | components/shared/booking-dialog.tsx:345-349 | stores the picked (or cleared) date and drops the slot, nothing else |
| BookingDialog.SelectTimeSlot | components/shared/booking-dialog.tsx:379-389 | stores one of the fixed slot values, whose label then shows, and changes nothing else |
| BookingDialog.HandleSubmit | components/shared/booking-dialog.tsx:150-165 | records both attempts; sent exactly when already sent or everything is present; blank details send back to the first step, a missing date, slot or package to the second |
| BookingDialog.Enabled | components/shared/booking-dialog.tsx:227-427 | which controls are on screen and enabled: the page's booking triggers only while the modal is closed, the dialog's open-change only as a close request while open, dialog content only while open, each tab's content only on its step, slot buttons only once a date is chosen, the request button only until sent, indices within the rendered lists |
| BookingDialog.Dispatch | components/shared/booking-dialog.tsx:206-427 | an enabled event runs exactly its control's handler, one clause per event kind; an event whose control is not rendered or is disabled (slots without a date, the request button once sent) changes nothing |
| BookingDialog.Run | components/shared/booking-dialog.tsx:71-427 | a sequence of user events applied one after another from a session; `RunPreservesConsistent` states what it keeps |
| BookingSessionProperties.OpenForPackageIgnoresPrior | components/shared/booking-dialog.tsx:99-106 | opening for a package gives the same session whatever the session before |
| BookingSessionProperties.OpenResolvesRequestedPackage | components/shared/booking-dialog.tsx:101-123 | the package shown after opening is the one `getPackageById` resolves for the requested id |
| BookingSessionProperties.CloseIsHiddenReopen | components/shared/booking-dialog.tsx:99-116 | closing resets exactly as reopening for the current package would, only hidden |
| BookingSessionProperties.HandleNextIdempotent | components/shared/booking-dialog.tsx:138-144 | a second Next changes nothing; with unready details a repeated Next changes nothing at all |
| BookingSessionProperties.RefusedNextShowsError | components/shared/booking-dialog.tsx:138-144 | a refused Next stays on the details and shows an error under an empty field |
| BookingSessionProperties.TabsBypassNextGate | components/shared/booking-dialog.tsx:146-148 | the tabs reach the schedule step whatever the details; every step's tab value leads back to it |
| BookingSessionProperties.HandleSubmitIdempotent | components/shared/booking-dialog.tsx:150-165 | submitting twice is the same as submitting once |
| BookingSessionProperties.RefusedSubmitShowsError | components/shared/booking-dialog.tsx:150-165 | a refused request is not sent and shows a field error or the date-and-time error for the step it lands on |
| BookingSessionProperties.SubmitDisabledOnceSent | components/shared/booking-dialog.tsx:421-427 | once sent, the request button does nothing |
| BookingSessionProperties.SentSurvivesDatePick | components/shared/booking-dialog.tsx:345-349 | picking a new date after sending clears the slot but leaves the request marked sent |
| BookingSessionProperties.InitialConsistent | components/shared/booking-dialog.tsx:71-84 | the first render satisfies the session invariant |
| BookingSessionProperties.DispatchPreservesConsistent | components/shared/booking-dialog.tsx:86-165 | every event keeps the invariant: a slot only with a date and only a fixed value; a closed dialog holds a blank form; sent implies both attempts |
| BookingSessionProperties.RunPreservesConsistent | components/shared/booking-dialog.tsx:86-165 | any sequence of events keeps the invariant |
| BookingSessionProperties.ReachableConsistent | components/shared/booking-dialog.tsx:71-165 | every session reachable from the first render satisfies the invariant |
| BookingSessionProperties.DerivedValuesOfConsistent | components/shared/booking-dialog.tsx:398-400 | in a reachable session a time label shows exactly when a slot is stored, and the date-and-time error exactly when a request was tried with no slot |
| BookingSessionProperties.ScenarioRun | components/shared/booking-dialog.tsx:99-165 | opening for "performance-detail", entering "Alex"/"555-1111", Next, a date, the 2 PM slot and a request ends in exactly the expected session, for any non-empty catalog |
| BookingSessionProperties.BookingScenario | components/shared/booking-dialog.tsx:99-165 | that booking ends sent, on the schedule step, for the requested id, showing "2:00 PM" |
| BookingSessionProperties.BookingScenarioOnCatalog | components/shared/booking-dialog.tsx:99-165 | against the site's own catalog that booking is sent for the package named "Performance Detail" at "2:00 PM" |
| Navbar.EffectivelyOpen | components/shared/navbar.tsx:24 | the menu reads as open only when the stored flag is set and was written on the current path |
| Navbar.InitialMenu | components/shared/navbar.tsx:20-23 | the menu starts closed, recorded on the current path |
| Navbar.ToggleMenu | components/shared/navbar.tsx:38-43 | the toggle flips what the user sees and records the current path |
| Navbar.CloseMenu | components/shared/navbar.tsx:44 | closing leaves the menu closed on the current path |
| Navbar.CloseIgnoresPrior | components/shared/navbar.tsx:44 | closing gives the same state whatever the state before |
| Navbar.ToggleTwice | components/shared/navbar.tsx:38-43 | two toggles on one path restore what is shown, and restore the state exactly when it was written on that path |
| Navbar.StaleAfterNavigation | components/shared/navbar.tsx:24 | a state written on another path reads as closed |
| Navbar.ToggleFromStaleOpens | components/shared/navbar.tsx:38-43 | toggling a menu left open on another path opens it here |
| Navbar.Step | components/shared/navbar.tsx:24-44 | a route change keeps the stored state; a toggle flips the shown state; a close shows it closed; both record the current path |
| Navbar.TogglesAlternate | components/shared/navbar.tsx:38-43 | from any stored state, including one written on another path, toggles alone alternate the shown state with the parity of their count |
| Navbar.ReopensOnReturn | components/shared/navbar.tsx:20-24 | a menu left open reads closed after a route change and open again on returning to its path |
| Navbar.LinkClickCloses | components/shared/navbar.tsx:125-143 | a menu link closes the menu before the route changes, so it reads closed on both paths |

## Left out

- Popover state (`packageOpen`, `datePopoverOpen`): this affects only which overlay is shown, never the booking data.
- The date label and `formatSummaryDate`: these use `Intl` formatting with a time zone, so dates are opaque `CalendarDate` records.
- The calendar's rule that disables days before today: this needs a clock. Any date, or no date, can be picked.
- The navbar's `document.body.style.overflow` effect: this is a DOM side effect.
- `BookingDialogTrigger` and the context guard: the trigger only forwards its package id to `openForPackage`, which is modelled.
- JSX, styling, the footer, the combobox's search box and the animated hamburger: these are presentation only.
- React's batching and scheduling: each handler is applied atomically, and the package effect runs right after the handler that changed the id.
- BookingDialog.IsWhitespace: covers the ASCII whitespace characters, no-break space and the byte-order mark. It does not cover the other Unicode space separators or the line and paragraph separators U+2028 and U+2029, which `String.prototype.trim` also removes.
- BookingHelpers.FormatTimeLabel: takes minutes as a natural number. Negative or fractional minutes are not modelled; JavaScript's `%` would give a negative minute field there.
- BookingHelpers.BuildTimeSlots: requires a positive step whenever the service fits. With a zero step the source's loop never ends, and negative or fractional arguments are not modelled.
- Decimal.ToDecimal: JavaScript numbers are IEEE doubles. The model's rendering agrees with `Number.prototype.toString()` only for safe integers below 2^53, whose renderings stay below 1e21. From 1e21 the source switches to exponent form ("1e+21"), and such a slot value would no longer parse.
- BookingHelpers.BuildTimeSlots: the model holds for minute counts that are safe integers below 2^53. Beyond that, `totalMinutes += stepMinutes` can round back to the same value, and the source's loop would not end.
- Navbar.ReopensOnReturn: assumes the navigation bar stays mounted across route changes, as it does in a shared layout. A remount would start again from `InitialMenu`.
- BookingDialog.SelectTimeSlot: takes the index of one of the three rendered slot buttons rather than an arbitrary string, since only those buttons write the slot.

Picking a new date clears only the slot. The sent flag survives, so the
request button stays disabled until the package changes or the form is reset
(`BookingSessionProperties.SentSurvivesDatePick`).
