/** The booking dialog of `components/shared/booking-dialog.tsx` as a state
    machine: the provider's state is one immutable `Session` record and every
    event handler is a pure function from session to session. */
module BookingDialog {
  import opened Wrappers
  import opened BookingHelpers

  // ---------------------------------------------------------------------
  // State
  // ---------------------------------------------------------------------

  /** The wizard position (`1 | 2` in the component). */
  datatype Step = Details | Schedule

  /** A calendar day as the date picker reports it; nothing in the core looks
      inside it. */
  datatype CalendarDate = CalendarDate(year: int, month: int, day: int)

  /** The provider's `useState` fields that carry logic (the two popover
      flags are presentation only). */
  datatype Session = Session(
    open: bool,
    selectedPackageId: Option<string>,
    step: Step,
    name: string,
    phone: string,
    date: Option<CalendarDate>,
    timeSlot: Option<string>,
    attemptedNext: bool,
    attemptedSubmit: bool,
    requestSent: bool)

  /** An offered appointment time: the stored value and its display label. */
  datatype FixedSlot = FixedSlot(value: string, labelText: string)

  /** The three times the dialog offers, whatever the package. */
  const FixedTimeSlots: seq<FixedSlot> := [
    FixedSlot("09:00", "9:00 AM"),
    FixedSlot("14:00", "2:00 PM"),
    FixedSlot("17:00", "5:00 PM")
  ]

  predicate IsFixedSlotValue(v: string) {
    exists i :: 0 <= i < |FixedTimeSlots| && FixedTimeSlots[i].value == v
  }

  /** JavaScript truthiness of `string | null`: absent and "" are both false. */
  predicate Truthy(v: Option<string>) {
    v.Some? && v.value != ""
  }

  /** The state on first render: closed, default package, blank form. */
  function Initial(packages: seq<Package>): (s: Session)
    ensures !s.open && Pristine(s)
    ensures s.selectedPackageId.Some? <==> |packages| > 0
    ensures |packages| > 0 ==> s.selectedPackageId == Some(packages[0].id)
  {
    Session(false, FirstPackageId(packages),
            Details, "", "", None, None, false, false, false)
  }

  /** `packages[0]?.id ?? null`: the first catalog id, if there is one. */
  function FirstPackageId(packages: seq<Package>): (r: Option<string>)
    ensures r.Some? <==> |packages| > 0
    ensures |packages| > 0 ==> r.value == packages[0].id
  {
    if |packages| > 0 then Some(packages[0].id) else None
  }

  /** Every field `resetForm` clears is at its default. */
  predicate Pristine(s: Session) {
    && s.step == Details
    && s.name == "" && s.phone == ""
    && s.date.None? && s.timeSlot.None?
    && !s.attemptedNext && !s.attemptedSubmit && !s.requestSent
  }

  // ---------------------------------------------------------------------
  // Trimming and derived values
  // ---------------------------------------------------------------------

  /** The whitespace `String.prototype.trim` removes, restricted to the ASCII
      controls, space, no-break space and the byte-order mark. */
  predicate IsWhitespace(c: char) {
    c == ' ' || c == '\t' || c == '\n' || c == '\r'
    || c == '\U{000B}' || c == '\U{000C}' || c == '\U{00A0}' || c == '\U{FEFF}'
  }

  /** A string with nothing but whitespace in it. */
  predicate Blank(s: string) {
    forall i :: 0 <= i < |s| ==> IsWhitespace(s[i])
  }

  /** Positions `lo` up to (not including) `hi` of `s` hold whitespace. */
  predicate BlankBetween(s: string, lo: nat, hi: nat)
    requires lo <= hi <= |s|
  {
    forall k :: lo <= k < hi ==> IsWhitespace(s[k])
  }

  /** Where the text starts when scanning from `i`: the first position at
      or after `i` that is not whitespace, or the end. */
  function SkipLeading(s: string, i: nat): (n: nat)
    requires i <= |s|
    ensures i <= n <= |s| && BlankBetween(s, i, n)
    ensures n < |s| ==> !IsWhitespace(s[n])
    decreases |s| - i
  {
    if i < |s| && IsWhitespace(s[i]) then SkipLeading(s, i + 1) else i
  }

  /** Where the text ends when scanning back from `j` to `lo`: just after the
      last position before `j` that is not whitespace, or `lo`. */
  function SkipTrailing(s: string, lo: nat, j: nat): (n: nat)
    requires lo <= j <= |s|
    ensures lo <= n <= j && BlankBetween(s, n, j)
    ensures n > lo ==> !IsWhitespace(s[n - 1])
    decreases j - lo
  {
    if j > lo && IsWhitespace(s[j - 1]) then SkipTrailing(s, lo, j - 1) else j
  }

  /** `s.trim()`: the middle of `s` with the whitespace at both ends removed. */
  function Trim(s: string): (r: string)
    ensures exists i, j :: 0 <= i <= j <= |s| && r == s[i..j] && BlankBetween(s, 0, i) && BlankBetween(s, j, |s|)
    ensures |r| > 0 ==> !IsWhitespace(r[0]) && !IsWhitespace(r[|r| - 1])
  {
    var i := SkipLeading(s, 0);
    var j := SkipTrailing(s, i, |s|);
    assert j > i ==> BlankBetween(s, j, |s|);
    s[i..j]
  }

  /** A field reads as empty after trimming exactly when it is all whitespace. */
  lemma TrimEmptyIffBlank(s: string)
    ensures |Trim(s)| == 0 <==> Blank(s)
  {
    var i := SkipLeading(s, 0);
    var j := SkipTrailing(s, i, |s|);
    if j == i {
      assert i == |s|;
    }
  }

  /** `isDetailsReady`: both contact fields non-empty after trimming. */
  predicate IsDetailsReady(s: Session) {
    |Trim(s.name)| > 0 && |Trim(s.phone)| > 0
  }

  /** The contact details are ready exactly when each field holds a
      non-whitespace character. */
  lemma DetailsReadyIff(s: Session)
    ensures IsDetailsReady(s) <==> !Blank(s.name) && !Blank(s.phone)
  {
    TrimEmptyIffBlank(s.name);
    TrimEmptyIffBlank(s.phone);
  }

  /** `stepValue`: the tab value shown for a step. */
  function StepValue(step: Step): (v: string)
    ensures v == "details" <==> step == Details
    ensures step == Schedule ==> v == "schedule"
  {
    match step
    case Details => "details"
    case Schedule => "schedule"
  }

  /** The error under the name field. */
  predicate NameError(s: Session) {
    s.attemptedNext && |Trim(s.name)| == 0
  }

  /** The error under the phone field. */
  predicate PhoneError(s: Session) {
    s.attemptedNext && |Trim(s.phone)| == 0
  }

  /** "Please select a date and time." */
  predicate ScheduleError(s: Session) {
    s.attemptedSubmit && (s.date.None? || !Truthy(s.timeSlot))
  }

  /** The field errors show exactly for blank fields once Next was tried, and
      some field error shows whenever the details are not ready. */
  lemma FieldErrorsIff(s: Session)
    ensures NameError(s) <==> s.attemptedNext && Blank(s.name)
    ensures PhoneError(s) <==> s.attemptedNext && Blank(s.phone)
    ensures s.attemptedNext && !IsDetailsReady(s) ==> NameError(s) || PhoneError(s)
  {
    TrimEmptyIffBlank(s.name);
    TrimEmptyIffBlank(s.phone);
  }

  /** Finds the label of the offered slot whose value is `v`. */
  function FindSlotLabel(slots: seq<FixedSlot>, v: string): (r: Option<string>)
    ensures r.Some? ==> exists i :: && 0 <= i < |slots| && slots[i].value == v && slots[i].labelText == r.value
                                   && forall j :: 0 <= j < i ==> slots[j].value != v
    ensures r.None? ==> forall i :: 0 <= i < |slots| ==> slots[i].value != v
    decreases |slots|
  {
    if |slots| == 0 then None
    else if slots[0].value == v then Some(slots[0].labelText)
    else FindSlotLabel(slots[1..], v)
  }

  /** `selectedTimeLabel`: the label of the fixed slot whose value is stored,
      or nothing. */
  function SelectedTimeLabel(s: Session): (r: Option<string>)
    ensures r.Some? <==> s.timeSlot.Some? && IsFixedSlotValue(s.timeSlot.value)
    ensures r.Some? ==> exists i :: 0 <= i < |FixedTimeSlots| && FixedTimeSlots[i].value == s.timeSlot.value
                                   && FixedTimeSlots[i].labelText == r.value
  {
    if s.timeSlot.None? then None else FindSlotLabel(FixedTimeSlots, s.timeSlot.value)
  }

  /** The fixed slots are what the slot generator would render for 9 AM,
      2 PM and 5 PM. */
  lemma FixedSlotsMatchFormatter()
    ensures |FixedTimeSlots| == 3
    ensures FixedTimeSlots[0] == FixedSlot(MakeSlot(540).value, MakeSlot(540).labelText)
    ensures FixedTimeSlots[1] == FixedSlot(MakeSlot(840).value, MakeSlot(840).labelText)
    ensures FixedTimeSlots[2] == FixedSlot(MakeSlot(1020).value, MakeSlot(1020).labelText)
  {
    MakeSlotExamples();
  }

  /** No two offered slots share a value. */
  lemma FixedSlotValuesDistinct()
    ensures forall i, j :: 0 <= i < j < |FixedTimeSlots| ==> FixedTimeSlots[i].value != FixedTimeSlots[j].value
  {
    assert FixedTimeSlots[0].value[0] != FixedTimeSlots[1].value[0];
    assert FixedTimeSlots[0].value[0] != FixedTimeSlots[2].value[0];
    assert FixedTimeSlots[1].value[1] != FixedTimeSlots[2].value[1];
  }

  /** The label shown for a stored slot is the formatter's label for the
      minute its value names. */
  lemma SelectedTimeLabelAgrees(s: Session)
    requires s.timeSlot.Some? && IsFixedSlotValue(s.timeSlot.value)
    ensures ParseSlotValue(s.timeSlot.value).Some?
    ensures SelectedTimeLabel(s) == Some(FormatTimeLabel(ParseSlotValue(s.timeSlot.value).value))
  {
    FixedSlotsMatchFormatter();
    FixedSlotValuesDistinct();
    var i :| 0 <= i < |FixedTimeSlots| && FixedTimeSlots[i].value == s.timeSlot.value;
    var minutes := if i == 0 then 540 else if i == 1 then 840 else 1020;
    assert FixedTimeSlots[i] == FixedSlot(MakeSlot(minutes).value, MakeSlot(minutes).labelText);
    SlotValueRoundTrip(minutes);
    assert SelectedTimeLabel(s) == Some(FixedTimeSlots[i].labelText);
  }

  // ---------------------------------------------------------------------
  // Transitions
  // ---------------------------------------------------------------------

  /** `resetForm`: blank form, first step, flags down; visibility and the
      selected package are kept. */
  function ResetForm(s: Session): (r: Session)
    ensures Pristine(r)
    ensures r.open == s.open && r.selectedPackageId == s.selectedPackageId
  {
    s.(step := Details, name := "", phone := "", date := None, timeSlot := None,
       attemptedNext := false, attemptedSubmit := false, requestSent := false)
  }

  /** The effect keyed on `selectedPackageId`: when the id value differs from
      the one at the previous render, the slot and the sent flag are cleared. */
  function PackageEffect(previousId: Option<string>, s: Session): (r: Session)
    ensures s.selectedPackageId == previousId ==> r == s
    ensures s.selectedPackageId != previousId ==> r == s.(timeSlot := None, requestSent := false)
  {
    if s.selectedPackageId != previousId then s.(timeSlot := None, requestSent := false) else s
  }

  /** `openForPackage`: selects the given id (verbatim, even when the catalog
      does not hold it) or else the first catalog id, resets the form and
      shows the dialog; then the package effect runs. */
  function OpenForPackage(packages: seq<Package>, s: Session, packageId: Option<string>): (r: Session)
    ensures r.open && Pristine(r)
    ensures packageId.Some? ==> r.selectedPackageId == packageId
    ensures packageId.None? && |packages| > 0 ==> r.selectedPackageId == Some(packages[0].id)
    ensures packageId.None? && |packages| == 0 ==> r.selectedPackageId.None?
  {
    var id := packageId.OrElse(FirstPackageId(packages));
    PackageEffect(s.selectedPackageId, ResetForm(s.(selectedPackageId := id)).(open := true))
  }

  /** `handleOpenChange`: showing only changes visibility; hiding also resets
      the form but keeps the selected package. */
  function HandleOpenChange(s: Session, nextOpen: bool): (r: Session)
    ensures r.open == nextOpen
    ensures nextOpen ==> r == s.(open := true)
    ensures !nextOpen ==> Pristine(r) && r.selectedPackageId == s.selectedPackageId
  {
    if nextOpen then s.(open := true) else ResetForm(s).(open := false)
  }

  /** A combobox pick: stores the id, then the package effect runs. */
  function SelectPackage(s: Session, id: string): (r: Session)
    ensures r.selectedPackageId == Some(id)
    ensures r.(timeSlot := s.timeSlot, requestSent := s.requestSent) == s.(selectedPackageId := Some(id))
    ensures s.selectedPackageId != Some(id) ==> r.timeSlot.None? && !r.requestSent
    ensures s.selectedPackageId == Some(id) ==> r == s
  {
    PackageEffect(s.selectedPackageId, s.(selectedPackageId := Some(id)))
  }

  /** Typing in the name field. */
  function SetName(s: Session, text: string): (r: Session)
    ensures r.name == text && r.(name := s.name) == s
  {
    s.(name := text)
  }

  /** Typing in the phone field. */
  function SetPhone(s: Session, text: string): (r: Session)
    ensures r.phone == text && r.(phone := s.phone) == s
  {
    s.(phone := text)
  }

  /** `handleNext`: records the attempt and moves to the schedule step only
      when the details are ready. */
  function HandleNext(s: Session): (r: Session)
    ensures r.attemptedNext
    ensures r.step == Schedule <==> s.step == Schedule || (!Blank(s.name) && !Blank(s.phone))
    ensures r.(attemptedNext := s.attemptedNext, step := s.step) == s
  {
    DetailsReadyIff(s);
    var t := s.(attemptedNext := true);
    if !IsDetailsReady(s) then t else t.(step := Schedule)
  }

  /** `handleStepChange`: the tabs move freely; "details" means the first
      step and any other value the second. No readiness check. */
  function HandleStepChange(s: Session, nextStep: string): (r: Session)
    ensures r.step == Details <==> nextStep == "details"
    ensures r.(step := s.step) == s
  {
    s.(step := if nextStep == "details" then Details else Schedule)
  }

  /** The Back button. */
  function Back(s: Session): (r: Session)
    ensures r.step == Details && r.(step := s.step) == s
  {
    s.(step := Details)
  }

  /** The calendar's `onSelect`: picking or clearing a date drops the slot. */
  function SelectDate(s: Session, d: Option<CalendarDate>): (r: Session)
    ensures r.date == d && r.timeSlot.None?
    ensures r.(date := s.date, timeSlot := s.timeSlot) == s
  {
    s.(date := d, timeSlot := None)
  }

  /** A slot button: stores that slot's value. */
  function SelectTimeSlot(s: Session, i: nat): (r: Session)
    requires i < |FixedTimeSlots|
    ensures r.timeSlot.Some? && IsFixedSlotValue(r.timeSlot.value)
    ensures SelectedTimeLabel(r) == Some(FixedTimeSlots[i].labelText)
    ensures r.(timeSlot := s.timeSlot) == s
  {
    FixedSlotValuesDistinct();
    s.(timeSlot := Some(FixedTimeSlots[i].value))
  }

  /** Everything a request needs: ready details, a date, a slot and a package
      to resolve (any non-empty catalog resolves one). */
  predicate SubmissionComplete(packages: seq<Package>, s: Session) {
    !Blank(s.name) && !Blank(s.phone) && s.date.Some? && Truthy(s.timeSlot) && |packages| > 0
  }

  /** `handleSubmit`: records both attempts; sends back to the first unmet
      step (details before schedule); marks the request sent only when
      everything is present. Only the step and the three flags can change. */
  function HandleSubmit(packages: seq<Package>, s: Session): (r: Session)
    ensures r.attemptedNext && r.attemptedSubmit
    ensures r.requestSent <==> s.requestSent || SubmissionComplete(packages, s)
    ensures Blank(s.name) || Blank(s.phone) ==> r.step == Details
    ensures !Blank(s.name) && !Blank(s.phone) && !SubmissionComplete(packages, s) ==> r.step == Schedule
    ensures SubmissionComplete(packages, s) ==> r.step == s.step
    ensures r.(attemptedNext := s.attemptedNext, attemptedSubmit := s.attemptedSubmit,
               requestSent := s.requestSent, step := s.step) == s
  {
    DetailsReadyIff(s);
    var t := s.(attemptedNext := true, attemptedSubmit := true);
    if !IsDetailsReady(s) then t.(step := Details)
    else if s.date.None? || !Truthy(s.timeSlot) || GetPackageById(packages, s.selectedPackageId).None?
    then t.(step := Schedule)
    else t.(requestSent := true)
  }

  // ---------------------------------------------------------------------
  // Events
  // ---------------------------------------------------------------------

  /** What the user (or a trigger on the page) can do. */
  datatype Event =
    | OpenFor(packageId: Option<string>)
    | OpenChange(nextOpen: bool)
    | ChoosePackage(index: nat)
    | EditName(text: string)
    | EditPhone(text: string)
    | Next
    | TabChange(tab: string)
    | GoBack
    | PickDate(date: Option<CalendarDate>)
    | PickSlot(index: nat)
    | Submit

  /** Whether the control behind an event is on screen and enabled: the
      page's booking triggers only while the modal is closed, the dialog's
      open-change (Escape, outside click, close button) only as a close
      request while open, dialog content only while open, each tab's content only on its step, slot
      buttons only once a date is chosen, the request button disabled once
      sent, and indices within the lists rendered. */
  predicate Enabled(packages: seq<Package>, s: Session, e: Event) {
    match e
    case OpenFor(_) => !s.open
    case OpenChange(b) => s.open && !b
    case ChoosePackage(i) => s.open && i < |packages|
    case EditName(_) => s.open && s.step == Details
    case EditPhone(_) => s.open && s.step == Details
    case Next => s.open && s.step == Details
    case TabChange(_) => s.open
    case GoBack => s.open && s.step == Schedule
    case PickDate(_) => s.open && s.step == Schedule
    case PickSlot(i) => s.open && s.step == Schedule && s.date.Some? && i < |FixedTimeSlots|
    case Submit => s.open && s.step == Schedule && !s.requestSent
  }

  /** The session after an event; an event whose control is absent or
      disabled changes nothing. */
  function Dispatch(packages: seq<Package>, s: Session, e: Event): (r: Session)
    ensures !Enabled(packages, s, e) ==> r == s
    ensures Enabled(packages, s, e) && e.OpenFor? ==> r == OpenForPackage(packages, s, e.packageId)
    ensures Enabled(packages, s, e) && e.OpenChange? ==> r == HandleOpenChange(s, e.nextOpen)
    ensures Enabled(packages, s, e) && e.ChoosePackage? ==> r == SelectPackage(s, packages[e.index].id)
    ensures Enabled(packages, s, e) && e.EditName? ==> r == SetName(s, e.text)
    ensures Enabled(packages, s, e) && e.EditPhone? ==> r == SetPhone(s, e.text)
    ensures Enabled(packages, s, e) && e.Next? ==> r == HandleNext(s)
    ensures Enabled(packages, s, e) && e.TabChange? ==> r == HandleStepChange(s, e.tab)
    ensures Enabled(packages, s, e) && e.GoBack? ==> r == Back(s)
    ensures Enabled(packages, s, e) && e.PickDate? ==> r == SelectDate(s, e.date)
    ensures Enabled(packages, s, e) && e.PickSlot? ==> r == SelectTimeSlot(s, e.index)
    ensures Enabled(packages, s, e) && e.Submit? ==> r == HandleSubmit(packages, s)
  {
    if !Enabled(packages, s, e) then s
    else match e
      case OpenFor(id) => OpenForPackage(packages, s, id)
      case OpenChange(b) => HandleOpenChange(s, b)
      case ChoosePackage(i) => SelectPackage(s, packages[i].id)
      case EditName(text) => SetName(s, text)
      case EditPhone(text) => SetPhone(s, text)
      case Next => HandleNext(s)
      case TabChange(tab) => HandleStepChange(s, tab)
      case GoBack => Back(s)
      case PickDate(d) => SelectDate(s, d)
      case PickSlot(i) => SelectTimeSlot(s, i)
      case Submit => HandleSubmit(packages, s)
  }

  function Run(packages: seq<Package>, s: Session, events: seq<Event>): Session
    decreases |events|
  {
    if |events| == 0 then s else Run(packages, Dispatch(packages, s, events[0]), events[1..])
  }
}
