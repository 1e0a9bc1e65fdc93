/** Properties of the booking session that relate several transitions: reset
    semantics, idempotence, the step gates, and the invariant every event
    preserves. */
module BookingSessionProperties {
  import opened Wrappers
  import opened BookingHelpers
  import opened BookingDialog

  // ---------------------------------------------------------------------
  // Opening and closing
  // ---------------------------------------------------------------------

  /** Opening forgets everything about the previous session. */
  lemma OpenForPackageIgnoresPrior(packages: seq<Package>, s1: Session, s2: Session, packageId: Option<string>)
    ensures OpenForPackage(packages, s1, packageId) == OpenForPackage(packages, s2, packageId)
  {
  }

  /** The package the opened dialog shows is the one `getPackageById` finds
      for the requested id: defaulting to the first id agrees with the
      lookup's own fallback. */
  lemma OpenResolvesRequestedPackage(packages: seq<Package>, s: Session, packageId: Option<string>)
    ensures GetPackageById(packages, OpenForPackage(packages, s, packageId).selectedPackageId)
            == GetPackageById(packages, packageId)
  {
    if packageId.None? && |packages| > 0 && packages[0].id != "" {
      var first := Some(packages[0].id);
      assert exists j :: 0 <= j < |packages| && packages[j].id == first.value by {
        assert packages[0].id == first.value;
      }
    }
  }

  /** Closing performs the same reset as reopening for the current package,
      only hidden. */
  lemma CloseIsHiddenReopen(packages: seq<Package>, s: Session)
    requires s.selectedPackageId.Some?
    ensures HandleOpenChange(s, false) == OpenForPackage(packages, s, s.selectedPackageId).(open := false)
  {
  }

  // ---------------------------------------------------------------------
  // Step gates
  // ---------------------------------------------------------------------

  /** A second Next changes nothing; with unready details even the first
      one changes nothing once an attempt is on record. */
  lemma HandleNextIdempotent(s: Session)
    ensures HandleNext(HandleNext(s)) == HandleNext(s)
    ensures s.attemptedNext && !IsDetailsReady(s) ==> HandleNext(s) == s
  {
    DetailsReadyIff(s);
  }

  /** A refused Next leaves the user on the form with an error under an
      empty field. */
  lemma RefusedNextShowsError(s: Session)
    requires s.step == Details
    requires !IsDetailsReady(s)
    ensures HandleNext(s).step == Details
    ensures NameError(HandleNext(s)) || PhoneError(HandleNext(s))
  {
    DetailsReadyIff(s);
    FieldErrorsIff(HandleNext(s));
  }

  /** The tabs reach the schedule step whatever the details, and every tab
      value leads back to its own step. */
  lemma TabsBypassNextGate(s: Session, step: Step)
    ensures HandleStepChange(s, "schedule").step == Schedule
    ensures HandleStepChange(s, StepValue(step)).step == step
    ensures Back(s).step == Details
  {
  }

  /** Submitting again changes nothing. */
  lemma HandleSubmitIdempotent(packages: seq<Package>, s: Session)
    ensures HandleSubmit(packages, HandleSubmit(packages, s)) == HandleSubmit(packages, s)
  {
  }

  /** A refused submit explains itself: a field error when it went back to
      the details, the schedule error when the date or slot is missing. */
  lemma RefusedSubmitShowsError(packages: seq<Package>, s: Session)
    requires !SubmissionComplete(packages, s) && !s.requestSent
    ensures !HandleSubmit(packages, s).requestSent
    ensures HandleSubmit(packages, s).step == Details ==>
              NameError(HandleSubmit(packages, s)) || PhoneError(HandleSubmit(packages, s))
    ensures HandleSubmit(packages, s).step == Schedule && |packages| > 0 ==>
              ScheduleError(HandleSubmit(packages, s))
  {
    FieldErrorsIff(HandleSubmit(packages, s));
  }

  /** The request button is disabled once the request is sent. */
  lemma SubmitDisabledOnceSent(packages: seq<Package>, s: Session)
    requires s.requestSent
    ensures Dispatch(packages, s, Submit) == s
  {
  }

  /** Picking another date after a successful request clears the slot but
      keeps the request marked as sent: only a package change or a reset
      clears it. */
  lemma SentSurvivesDatePick(packages: seq<Package>, s: Session, d: Option<CalendarDate>)
    requires s.open && s.step == Schedule && s.requestSent
    ensures Dispatch(packages, s, PickDate(d)).requestSent
    ensures Dispatch(packages, s, PickDate(d)).timeSlot.None?
  {
  }

  // ---------------------------------------------------------------------
  // The session invariant
  // ---------------------------------------------------------------------

  /** What holds of every session the dialog can be in: a slot only with a
      date and only one of the offered values; a closed dialog holds a blank
      form; a sent request was preceded by both attempts. */
  predicate Consistent(s: Session) {
    && (s.timeSlot.Some? ==> s.date.Some? && IsFixedSlotValue(s.timeSlot.value))
    && (!s.open ==> Pristine(s))
    && (s.requestSent ==> s.attemptedNext && s.attemptedSubmit)
  }

  lemma InitialConsistent(packages: seq<Package>)
    ensures Consistent(Initial(packages))
  {
  }

  /** Every event keeps the session consistent. */
  lemma DispatchPreservesConsistent(packages: seq<Package>, s: Session, e: Event)
    requires Consistent(s)
    ensures Consistent(Dispatch(packages, s, e))
  {
    if Enabled(packages, s, e) {
      match e
      case PickSlot(i) =>
        var r := SelectTimeSlot(s, i);
        assert r.date == s.date;
      case _ =>
    }
  }

  /** Any sequence of events keeps the session consistent. */
  lemma {:induction false} RunPreservesConsistent(packages: seq<Package>, s: Session, events: seq<Event>)
    requires Consistent(s)
    ensures Consistent(Run(packages, s, events))
    decreases |events|
  {
    if |events| > 0 {
      DispatchPreservesConsistent(packages, s, events[0]);
      RunPreservesConsistent(packages, Dispatch(packages, s, events[0]), events[1..]);
    }
  }

  /** Every session reachable from the first render is consistent. */
  lemma ReachableConsistent(packages: seq<Package>, events: seq<Event>)
    ensures Consistent(Run(packages, Initial(packages), events))
  {
    InitialConsistent(packages);
    RunPreservesConsistent(packages, Initial(packages), events);
  }

  /** In a consistent session a time label shows exactly when a slot is
      stored, and the schedule error shows exactly when no slot is. */
  lemma DerivedValuesOfConsistent(s: Session)
    requires Consistent(s)
    ensures SelectedTimeLabel(s).Some? <==> s.timeSlot.Some?
    ensures ScheduleError(s) <==> s.attemptedSubmit && s.timeSlot.None?
  {
    if s.timeSlot.Some? {
      var i :| 0 <= i < |FixedTimeSlots| && FixedTimeSlots[i].value == s.timeSlot.value;
      assert Truthy(s.timeSlot);
    }
  }

  // ---------------------------------------------------------------------
  // A complete booking
  // ---------------------------------------------------------------------

  /** One step of a run. */
  lemma RunStep(packages: seq<Package>, s: Session, events: seq<Event>)
    requires |events| > 0
    ensures Run(packages, s, events) == Run(packages, Dispatch(packages, s, events[0]), events[1..])
  {
  }

  /** The events of a complete booking: open for "performance-detail",
      fill in the details, go on, choose a date and the 2 PM slot, request. */
  const ScenarioEvents: seq<Event> :=
    [OpenFor(Some("performance-detail")), EditName("Alex"), EditPhone("555-1111"),
     Next, PickDate(Some(CalendarDate(2024, 6, 1))), PickSlot(1), Submit]

  /** The session once the details are filled in. */
  const ScenarioDetailsDone: Session :=
    Session(true, Some("performance-detail"), Details, "Alex", "555-1111", None, None, false, false, false)

  /** The session once the slot is chosen, before the request. */
  const ScenarioSlotChosen: Session :=
    ScenarioDetailsDone.(step := Schedule, date := Some(CalendarDate(2024, 6, 1)), timeSlot := Some("14:00"),
                         attemptedNext := true)

  /** The session once the request is sent. */
  const ScenarioSent: Session :=
    ScenarioSlotChosen.(attemptedSubmit := true, requestSent := true)

  /** The session right after opening for "performance-detail". */
  const ScenarioOpened: Session :=
    ScenarioDetailsDone.(name := "", phone := "")

  /** The session once the name is typed. */
  const ScenarioNamed: Session :=
    ScenarioDetailsDone.(phone := "")

  /** Opening for an id shows a blank form for that id, whatever the catalog. */
  lemma ScenarioOpens(packages: seq<Package>)
    ensures Dispatch(packages, Initial(packages), OpenFor(Some("performance-detail"))) == ScenarioOpened
  {
  }

  /** Typing the name on the details step stores it. */
  lemma ScenarioNameStored(packages: seq<Package>)
    ensures Dispatch(packages, ScenarioOpened, EditName("Alex")) == ScenarioNamed
  {
  }

  /** Typing the phone on the details step stores it. */
  lemma ScenarioPhoneStored(packages: seq<Package>)
    ensures Dispatch(packages, ScenarioNamed, EditPhone("555-1111")) == ScenarioDetailsDone
  {
  }

  lemma ScenarioDetailsStep(packages: seq<Package>)
    ensures Run(packages, Initial(packages), ScenarioEvents)
            == Run(packages, ScenarioDetailsDone, ScenarioEvents[3..])
  {
    var p := packages;
    var events := ScenarioEvents;
    assert events[0] == OpenFor(Some("performance-detail"));
    ScenarioOpens(p);
    RunStep(p, Initial(p), events);
    assert events[1] == EditName("Alex");
    ScenarioNameStored(p);
    RunStep(p, ScenarioOpened, events[1..]);
    assert events[1..][1..] == events[2..];
    assert events[2] == EditPhone("555-1111");
    ScenarioPhoneStored(p);
    RunStep(p, ScenarioNamed, events[2..]);
    assert events[2..][1..] == events[3..];
  }

  /** The session once the schedule step is open, before a date. */
  const ScenarioScheduleOpen: Session :=
    ScenarioDetailsDone.(attemptedNext := true, step := Schedule)

  /** The session once the date is chosen, before a slot. */
  const ScenarioDatePicked: Session :=
    ScenarioScheduleOpen.(date := Some(CalendarDate(2024, 6, 1)))

  /** "Next" with both details filled in opens the schedule step. */
  lemma ScenarioNextOpensSchedule(packages: seq<Package>)
    ensures Dispatch(packages, ScenarioDetailsDone, Next) == ScenarioScheduleOpen
  {
    var s := ScenarioDetailsDone;
    assert !IsWhitespace(s.name[0]) && !IsWhitespace(s.phone[0]);
  }

  /** Choosing the date on the schedule step stores it. */
  lemma ScenarioDateStored(packages: seq<Package>)
    ensures Dispatch(packages, ScenarioScheduleOpen, PickDate(Some(CalendarDate(2024, 6, 1)))) == ScenarioDatePicked
  {
  }

  /** Choosing the second fixed slot once a date is set stores "14:00". */
  lemma ScenarioSlotStored(packages: seq<Package>)
    ensures Dispatch(packages, ScenarioDatePicked, PickSlot(1)) == ScenarioSlotChosen
  {
  }

  lemma ScenarioNextStep(packages: seq<Package>)
    ensures Run(packages, ScenarioDetailsDone, ScenarioEvents[3..])
            == Run(packages, ScenarioSlotChosen, ScenarioEvents[6..])
  {
    var p := packages;
    var events := ScenarioEvents;
    assert events[3] == Next;
    ScenarioNextOpensSchedule(p);
    RunStep(p, ScenarioDetailsDone, events[3..]);
    assert events[3..][1..] == events[4..];
    assert events[4] == PickDate(Some(CalendarDate(2024, 6, 1)));
    ScenarioDateStored(p);
    RunStep(p, ScenarioScheduleOpen, events[4..]);
    assert events[4..][1..] == events[5..];
    assert events[5] == PickSlot(1);
    ScenarioSlotStored(p);
    RunStep(p, ScenarioDatePicked, events[5..]);
    assert events[5..][1..] == events[6..];
  }

  /** Submitting the complete session sends the request. */
  lemma ScenarioSubmitSends(packages: seq<Package>)
    requires |packages| > 0
    ensures Dispatch(packages, ScenarioSlotChosen, Submit) == ScenarioSent
  {
    var s := ScenarioSlotChosen;
    assert !IsWhitespace(s.name[0]) && !IsWhitespace(s.phone[0]);
    assert SubmissionComplete(packages, s);
  }

  lemma ScenarioSubmitStep(packages: seq<Package>)
    requires |packages| > 0
    ensures Run(packages, ScenarioSlotChosen, ScenarioEvents[6..]) == ScenarioSent
  {
    ScenarioSubmitSends(packages);
    assert ScenarioEvents[6..] == [Submit];
    RunStep(packages, ScenarioSlotChosen, [Submit]);
  }

  /** The whole run ends in the sent session. */
  lemma ScenarioRun(packages: seq<Package>)
    requires |packages| > 0
    ensures Run(packages, Initial(packages), ScenarioEvents) == ScenarioSent
  {
    ScenarioDetailsStep(packages);
    ScenarioNextStep(packages);
    ScenarioSubmitStep(packages);
  }

  /** After the complete booking the request is sent for the requested id,
      at "2:00 PM", whatever the (non-empty) catalog. */
  lemma BookingScenario(packages: seq<Package>)
    requires |packages| > 0
    ensures var s := Run(packages, Initial(packages), ScenarioEvents);
            && s.requestSent
            && s.step == Schedule
            && s.selectedPackageId == Some("performance-detail")
            && SelectedTimeLabel(s) == Some("2:00 PM")
  {
    ScenarioRun(packages);
    FixedSlotValuesDistinct();
    assert SelectedTimeLabel(ScenarioSent) == Some(FixedTimeSlots[1].labelText);
  }

  /** The same booking against the site's own catalog selects the package
      named "Performance Detail". */
  lemma BookingScenarioOnCatalog()
    ensures var s := Run(BookingPackages, Initial(BookingPackages), ScenarioEvents);
            && s.requestSent
            && GetPackageById(BookingPackages, s.selectedPackageId).Some?
            && GetPackageById(BookingPackages, s.selectedPackageId).value.name == "Performance Detail"
            && SelectedTimeLabel(s) == Some("2:00 PM")
  {
    CatalogFacts();
    BookingScenario(BookingPackages);
    LookupPerformanceDetail();
  }
}
