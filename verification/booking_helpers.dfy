/** The package catalog, package lookup, the 12-hour time label and the
    duration-aware slot generator of `components/shared/booking-helpers.ts`. */
module BookingHelpers {
  import opened Wrappers
  import opened Decimal

  // ---------------------------------------------------------------------
  // Catalog
  // ---------------------------------------------------------------------

  /** One service tier. `price` and the duration label are display strings. */
  datatype Package = Package(
    id: string,
    name: string,
    price: string,
    description: string,
    features: seq<string>,
    highlight: bool,
    cta: string,
    durationLabel: string,
    durationMinutes: nat)

  /** The fixed catalog; its first entry is the default package. */
  const BookingPackages: seq<Package> := [
    Package(
      "signature-refresh",
      "Signature Refresh",
      "$120\U{2013}160",
      "Ideal for well-kept exotics needing a luxury wash and gloss.",
      ["Hand wash & foam pre-soak",
       "Wheel, tire & trim clean",
       "Interior vacuum + wipe down",
       "Glass cleaned inside & out",
       "Spray sealant protection"],
      false,
      "Select Package",
      "Approx. 2\U{2013}3 hours",
      180),
    Package(
      "performance-detail",
      "Performance Detail",
      "$220\U{2013}280",
      "Most popular. Deeper interior clean and enhanced exterior finish.",
      ["Everything in Signature",
       "Door jambs & crevices detailed",
       "Clay bar decontamination",
       "Deep interior clean",
       "Tire gloss + exterior trim restore"],
      true,
      "Select Package",
      "Approx. 3.5\U{2013}5 hours",
      300),
    Package(
      "exotic-restoration",
      "Exotic Restoration",
      "$360\U{2013}520",
      "Correction-ready detail with premium protection.",
      ["Multi-step wash & decon",
       "Interior shampoo (as needed)",
       "Paint correction (light polish)",
       "Longer-lasting sealant",
       "Engine bay detail (light)"],
      false,
      "Select Package",
      "Approx. 5\U{2013}7 hours",
      420)
  ]

  /** `Array.prototype.find`, reporting the index of the first entry that
      satisfies `p`. */
  function FindIndex(packages: seq<Package>, p: Package -> bool): (r: Option<nat>)
    ensures r.Some? ==> r.value < |packages| && p(packages[r.value])
    ensures r.Some? ==> forall j :: 0 <= j < r.value ==> !p(packages[j])
    ensures r.None? ==> forall j :: 0 <= j < |packages| ==> !p(packages[j])
    decreases |packages|
  {
    if |packages| == 0 then None
    else if p(packages[0]) then Some(0)
    else match FindIndex(packages[1..], p)
      case None => None
      case Some(k) => Some(k + 1)
  }

  /** `getPackageById`: an absent or empty id selects the first entry; otherwise
      the first entry with that id, falling back to the first entry. Only an
      empty catalog yields nothing (`packages[0]` is `undefined` there). */
  function GetPackageById(packages: seq<Package>, id: Option<string>): (r: Option<Package>)
    ensures r.None? <==> |packages| == 0
    ensures |packages| > 0 && (id.None? || id.value == "") ==> r == Some(packages[0])
    ensures (&& |packages| > 0 && id.Some? && id.value != ""
             && forall j :: 0 <= j < |packages| ==> packages[j].id != id.value)
            ==> r == Some(packages[0])
    ensures (&& id.Some? && id.value != ""
             && exists j :: 0 <= j < |packages| && packages[j].id == id.value)
            ==> (&& r.Some? && r.value.id == id.value
                 && exists k :: 0 <= k < |packages| && packages[k] == r.value
                                && forall j :: 0 <= j < k ==> packages[j].id != id.value)
  {
    if |packages| == 0 then None
    else if id.None? || id.value == "" then Some(packages[0])
    else match FindIndex(packages, (pkg: Package) => pkg.id == id.value)
      case Some(k) => Some(packages[k])
      case None => Some(packages[0])
  }

  /** A non-empty id resolves to the first package that carries it. */
  lemma GetPackageByIdFirstMatch(packages: seq<Package>, id: string, j: nat)
    requires j < |packages| && id != "" && packages[j].id == id
    requires forall i :: 0 <= i < j ==> packages[i].id != id
    ensures GetPackageById(packages, Some(id)) == Some(packages[j])
  {
    var r := GetPackageById(packages, Some(id));
    var k :| 0 <= k < |packages| && packages[k] == r.value
             && forall i :: 0 <= i < k ==> packages[i].id != id;
    assert k == j;
  }

  /** The id the landing page passes for its "most popular" call to action:
      the id of the first highlighted package, if any. */
  function HighlightedPackageId(packages: seq<Package>): (r: Option<string>)
    ensures r.Some? <==> exists j :: 0 <= j < |packages| && packages[j].highlight
    ensures r.Some? ==> exists k :: && 0 <= k < |packages| && packages[k].highlight && packages[k].id == r.value
                                   && forall j :: 0 <= j < k ==> !packages[j].highlight
  {
    match FindIndex(packages, (pkg: Package) => pkg.highlight)
    case Some(k) => Some(packages[k].id)
    case None => None
  }

  lemma CatalogFacts()
    ensures |BookingPackages| == 3
    ensures BookingPackages[0].id == "signature-refresh"
    ensures forall i, j :: 0 <= i < j < |BookingPackages| ==> BookingPackages[i].id != BookingPackages[j].id
    ensures forall i :: 0 <= i < |BookingPackages| ==>
              (BookingPackages[i].highlight <==> BookingPackages[i].id == "performance-detail")
    ensures HighlightedPackageId(BookingPackages) == Some("performance-detail")
  {
  }

  /** The home page's "most popular" id resolves to the second package. */
  lemma LookupPerformanceDetail()
    ensures GetPackageById(BookingPackages, Some("performance-detail")) == Some(BookingPackages[1])
    ensures BookingPackages[1].name == "Performance Detail"
  {
    CatalogFacts();
    GetPackageByIdFirstMatch(BookingPackages, "performance-detail", 1);
  }

  // ---------------------------------------------------------------------
  // 12-hour labels
  // ---------------------------------------------------------------------

  /** `Math.floor(totalMinutes / 60)`; Euclidean and floor division agree for
      a non-negative dividend. */
  function Hours24(totalMinutes: nat): nat {
    totalMinutes / 60
  }

  function Hour12(totalMinutes: nat): (h: nat)
    ensures 1 <= h <= 12
  {
    (Hours24(totalMinutes) + 11) % 12 + 1
  }

  function Period(totalMinutes: nat): (p: string)
    ensures p == "AM" || p == "PM"
  {
    if Hours24(totalMinutes) >= 12 then "PM" else "AM"
  }

  /** `formatTimeLabel`: "h:mm AM" / "h:mm PM"; seven characters for a
      one-digit hour, eight for 10, 11 and 12. */
  function FormatTimeLabel(totalMinutes: nat): (r: string)
    ensures |r| == if Hour12(totalMinutes) < 10 then 7 else 8
  {
    ToDecimalLength(Hour12(totalMinutes));
    ToDecimal(Hour12(totalMinutes)) + LabelTail(TwoDigits(totalMinutes % 60), Period(totalMinutes))
  }

  /** Minutes since midnight named by a 12-hour clock reading, if it is one. */
  function ClockMinutes(h: nat, m: nat, period: string): Option<nat> {
    if 1 <= h <= 12 && m < 60
    then Some((h % 12 + (if period == "PM" then 12 else 0)) * 60 + m)
    else None
  }

  /** Reads the ":mm AM" / ":mm PM" tail that follows the hour digits. */
  function ParseLabelTail(hourPart: string, tail: string): Option<nat>
    requires |tail| == 6
  {
    if && tail[0] == ':' && tail[3] == ' ' && (tail[4..] == "AM" || tail[4..] == "PM")
       && AllDigits(hourPart) && AllDigits(tail[1..3])
    then ClockMinutes(ParseDecimal(hourPart), ParseDecimal(tail[1..3]), tail[4..])
    else None
  }

  /** Reads an "h:mm AM/PM" label back to minutes since midnight; the
      reference against which the formatter is checked. */
  function ParseTimeLabel(text: string): Option<nat> {
    if |text| < 7 then None else ParseLabelTail(text[..|text| - 6], text[|text| - 6..])
  }

  /** The label's parts: an hour in 1..12, a two-digit minute field equal to
      the minutes past the hour, and "PM" exactly from noon on. */
  lemma FormatTimeLabelShape(totalMinutes: nat)
    requires totalMinutes < 1440
    ensures exists h: nat, mm: string, p: string ::
              && FormatTimeLabel(totalMinutes) == ToDecimal(h) + LabelTail(mm, p)
              && 1 <= h <= 12
              && |mm| == 2 && AllDigits(mm) && ParseDecimal(mm) == totalMinutes % 60
              && (p == "AM" || p == "PM")
              && (p == "PM" <==> totalMinutes / 60 >= 12)
  {
    ParseTwoDigits(totalMinutes % 60);
    var h, mm, p := Hour12(totalMinutes), TwoDigits(totalMinutes % 60), Period(totalMinutes);
    assert FormatTimeLabel(totalMinutes) == ToDecimal(h) + LabelTail(mm, p);
  }

  /** The 12-hour hour and the period together recover the 24-hour hour. */
  lemma Hour12Period(totalMinutes: nat)
    requires totalMinutes < 1440
    ensures Hour12(totalMinutes) % 12 + (if Period(totalMinutes) == "PM" then 12 else 0)
            == totalMinutes / 60
  {
    var h24 := totalMinutes / 60;
    assert h24 < 24;
  }

  /** The part of a label after the hour: ":mm AM" or ":mm PM". */
  function LabelTail(mm: string, period: string): string {
    ":" + mm + " " + period
  }

  /** Where the minute field and the period sit in a label's tail. */
  lemma LabelTailParts(mm: string, p: string)
    requires |mm| == 2 && |p| == 2
    ensures |LabelTail(mm, p)| == 6
    ensures LabelTail(mm, p)[0] == ':' && LabelTail(mm, p)[3] == ' '
    ensures LabelTail(mm, p)[1..3] == mm && LabelTail(mm, p)[4..] == p
  {
    var tail := LabelTail(mm, p);
    assert tail == [':', mm[0], mm[1], ' ', p[0], p[1]];
  }

  /** Parsing a label assembled from its parts. */
  lemma ParseLabelParts(d: string, mm: string, p: string)
    requires |d| >= 1 && AllDigits(d) && |mm| == 2 && AllDigits(mm)
    requires p == "AM" || p == "PM"
    ensures ParseTimeLabel(d + LabelTail(mm, p)) == ClockMinutes(ParseDecimal(d), ParseDecimal(mm), p)
  {
    var tail := LabelTail(mm, p);
    LabelTailParts(mm, p);
    var text := d + tail;
    assert text[..|text| - 6] == d;
    assert text[|text| - 6..] == tail;
  }

  /** Round trip: within a day, the label determines the minute it names. */
  lemma FormatTimeLabelRoundTrip(totalMinutes: nat)
    requires totalMinutes < 1440
    ensures ParseTimeLabel(FormatTimeLabel(totalMinutes)) == Some(totalMinutes)
  {
    var h := Hour12(totalMinutes);
    ParseLabelParts(ToDecimal(h), TwoDigits(totalMinutes % 60), Period(totalMinutes));
    ParseToDecimal(h);
    ParseTwoDigits(totalMinutes % 60);
    ClockOfLabelParts(totalMinutes);
  }

  /** The hour, minute and period a label shows name its minute again. */
  lemma ClockOfLabelParts(totalMinutes: nat)
    requires totalMinutes < 1440
    ensures ClockMinutes(Hour12(totalMinutes), totalMinutes % 60, Period(totalMinutes)) == Some(totalMinutes)
  {
    Hour12Period(totalMinutes);
  }

  /** Distinct minutes of one day get distinct labels. */
  lemma FormatTimeLabelInjective(a: nat, b: nat)
    requires a < 1440 && b < 1440
    requires FormatTimeLabel(a) == FormatTimeLabel(b)
    ensures a == b
  {
    FormatTimeLabelRoundTrip(a);
    FormatTimeLabelRoundTrip(b);
  }

  lemma FormatTimeLabelExamples()
    ensures FormatTimeLabel(0) == "12:00 AM"
    ensures FormatTimeLabel(720) == "12:00 PM"
    ensures FormatTimeLabel(541) == "9:01 AM"
  {
    assert ToDecimal(12) == "12";
    assert ToDecimal(9) == "9";
    assert TwoDigits(0) == "00" by { assert ToDecimal(0) == "0"; }
    assert TwoDigits(1) == "01" by { assert ToDecimal(1) == "1"; }
    assert Hour12(0) == 12 && Period(0) == "AM";
    assert Hour12(720) == 12 && Period(720) == "PM";
    assert Hour12(541) == 9 && Period(541) == "AM";
  }

  // ---------------------------------------------------------------------
  // Time slots
  // ---------------------------------------------------------------------

  datatype TimeSlot = TimeSlot(value: string, labelText: string, totalMinutes: nat)

  /** The 24-hour "HH:MM" value: both fields zero-padded to two digits. */
  function SlotValue(totalMinutes: nat): string {
    TwoDigits(totalMinutes / 60) + (":" + TwoDigits(totalMinutes % 60))
  }

  function MakeSlot(totalMinutes: nat): TimeSlot {
    TimeSlot(SlotValue(totalMinutes), FormatTimeLabel(totalMinutes), totalMinutes)
  }

  /** Reads an "HH:MM" value back to minutes since midnight. */
  function ParseSlotValue(value: string): Option<nat> {
    if |value| < 4 then None
    else
      var k := |value| - 3;
      var hourPart := value[..k];
      var minutePart := value[k + 1..];
      if value[k] == ':' && AllDigits(hourPart) && AllDigits(minutePart) && ParseDecimal(minutePart) < 60
      then Some(ParseDecimal(hourPart) * 60 + ParseDecimal(minutePart))
      else None
  }

  /** Reading "HH:MM" assembled from any digit strings, the minute field two
      long and below 60. */
  lemma ParseClockParts(hh: string, mm: string)
    requires |hh| >= 1 && AllDigits(hh) && |mm| == 2 && AllDigits(mm) && ParseDecimal(mm) < 60
    ensures ParseSlotValue(hh + (":" + mm)) == Some(ParseDecimal(hh) * 60 + ParseDecimal(mm))
  {
    var tail := ":" + mm;
    assert tail == [':', mm[0], mm[1]];
    assert tail[1..] == mm;
    var v := hh + tail;
    assert v[..|hh|] == hh;
    assert v[|hh|..] == tail;
  }

  lemma ParseSlotParts(h: nat, m: nat)
    requires m < 60
    ensures ParseSlotValue(TwoDigits(h) + (":" + TwoDigits(m))) == Some(h * 60 + m)
  {
    ParseTwoDigits(h);
    ParseTwoDigits(m);
    ParseClockParts(TwoDigits(h), TwoDigits(m));
  }

  /** Round trip for every slot value, however late the hour (on unbounded
      integers; JavaScript's doubles stop short of that). */
  lemma SlotValueRoundTrip(totalMinutes: nat)
    ensures ParseSlotValue(SlotValue(totalMinutes)) == Some(totalMinutes)
  {
    ParseSlotParts(totalMinutes / 60, totalMinutes % 60);
  }

  /** Helper for the division facts below. */
  lemma MulAtLeast(k: int, d: int)
    ensures d > 0 && k >= 1 ==> k * d >= d
    ensures d > 0 && k <= -1 ==> k * d <= -d
  {
  }

  /** If `q*d <= x < (q+1)*d` then `x / d == q`. */
  lemma DivUnique(x: int, d: int, q: int)
    requires d > 0
    requires q * d <= x < q * d + d
    ensures x / d == q
  {
    var k := x / d - q;
    assert k * d == (x / d) * d - q * d;
    MulAtLeast(k, d);
  }

  /** The start minutes visited by the `for` loop of `buildTimeSlots`: from
      `t`, `step` apart, while no later than `last`. */
  function SlotStarts(t: nat, last: int, step: nat): (r: seq<nat>)
    requires step > 0
    ensures |r| > 0 <==> t <= last
    ensures |r| > 0 ==> r[0] == t
    ensures forall i :: 0 <= i < |r| ==> t <= r[i] <= last
    ensures forall i :: 0 <= i < |r| - 1 ==> r[i + 1] == r[i] + step
    ensures |r| > 0 ==> r[|r| - 1] + step > last
    decreases last - t
  {
    if t > last then [] else [t] + SlotStarts(t + step, last, step)
  }

  /** Start `i` lies `i` steps after the first. */
  lemma {:induction false} SlotStartsAt(t: nat, last: int, step: nat, i: nat)
    requires step > 0
    requires i < |SlotStarts(t, last, step)|
    ensures SlotStarts(t, last, step)[i] == t + i * step
    decreases i
  {
    if i > 0 {
      SlotStartsAt(t, last, step, i - 1);
      assert (i - 1) * step + step == i * step;
    }
  }

  /** The number of starts is `(last - t) / step + 1` when `t <= last`. */
  lemma SlotStartsCount(t: nat, last: int, step: nat)
    requires step > 0
    requires t <= last
    ensures |SlotStarts(t, last, step)| == (last - t) / step + 1
  {
    var n := |SlotStarts(t, last, step)|;
    SlotStartsAt(t, last, step, n - 1);
    assert (n - 1) * step + step == n * step;
    DivUnique(last - t, step, n - 1);
  }

  /** `f` applied to each element, in order. */
  function MapSeq<A, B>(f: A -> B, s: seq<A>): (r: seq<B>)
    ensures |r| == |s|
    ensures forall i :: 0 <= i < |s| ==> r[i] == f(s[i])
  {
    seq(|s|, i requires 0 <= i < |s| => f(s[i]))
  }

  /** Mapping one more element appends one more image. */
  lemma MapSnoc<A, B>(f: A -> B, s: seq<A>, k: nat)
    requires k < |s|
    ensures MapSeq(f, s[..k + 1]) == MapSeq(f, s[..k]) + [f(s[k])]
  {
    var a, b := MapSeq(f, s[..k + 1]), MapSeq(f, s[..k]) + [f(s[k])];
    assert forall j :: 0 <= j < |a| ==> a[j] == b[j];
  }

  /** One rendered slot per start minute. */
  function SlotsOf(starts: seq<nat>): (r: seq<TimeSlot>)
    ensures |r| == |starts|
    ensures forall i :: 0 <= i < |r| ==> r[i] == MakeSlot(starts[i])
  {
    MapSeq(MakeSlot, starts)
  }

  /** `startMinutes` of `buildTimeSlots`: opening time in minutes. */
  function StartMinutes(openHour: nat): nat {
    openHour * 60
  }

  /** `lastStartMinutes`: the latest start that still finishes by closing. */
  function LastStartMinutes(closeHour: nat, durationMinutes: nat): int {
    closeHour * 60 - durationMinutes
  }

  /** What `buildTimeSlots` needs of its arguments: the window does not fit,
      or the step is positive (a zero step with a fitting window never ends). */
  predicate SlotArgsOk(openHour: nat, closeHour: nat, stepMinutes: nat, durationMinutes: nat) {
    LastStartMinutes(closeHour, durationMinutes) < StartMinutes(openHour) || stepMinutes > 0
  }

  /** Rendering one more start appends one more slot. */
  lemma SlotsOfSnoc(starts: seq<nat>, k: nat)
    requires k < |starts|
    ensures SlotsOf(starts[..k + 1]) == SlotsOf(starts[..k]) + [MakeSlot(starts[k])]
  {
    MapSnoc(MakeSlot, starts, k);
  }

  /** The start minutes `buildTimeSlots` visits: none when the service does
      not fit before closing. */
  function BuildStarts(openHour: nat, closeHour: nat, stepMinutes: nat, durationMinutes: nat): (r: seq<nat>)
    requires SlotArgsOk(openHour, closeHour, stepMinutes, durationMinutes)
    ensures |r| == 0 <==> LastStartMinutes(closeHour, durationMinutes) < StartMinutes(openHour)
    ensures |r| > 0 ==> r[0] == StartMinutes(openHour)
    ensures forall i :: 0 <= i < |r| ==> r[i] <= LastStartMinutes(closeHour, durationMinutes)
    ensures forall i :: 0 <= i < |r| - 1 ==> r[i + 1] == r[i] + stepMinutes
    ensures |r| > 0 ==> r[|r| - 1] + stepMinutes > LastStartMinutes(closeHour, durationMinutes)
  {
    var start := StartMinutes(openHour);
    var last := LastStartMinutes(closeHour, durationMinutes);
    if last < start then [] else SlotStarts(start, last, stepMinutes)
  }

  /** `buildTimeSlots`: the slots from opening, `stepMinutes` apart, up to the
      last start that finishes by closing; none when the service does not fit. */
  function BuildTimeSlots(openHour: nat, closeHour: nat, stepMinutes: nat, durationMinutes: nat): (r: seq<TimeSlot>)
    requires SlotArgsOk(openHour, closeHour, stepMinutes, durationMinutes)
    ensures |r| == 0 <==> LastStartMinutes(closeHour, durationMinutes) < StartMinutes(openHour)
    ensures |r| > 0 ==> r[0].totalMinutes == StartMinutes(openHour)
    ensures forall i :: 0 <= i < |r| ==> r[i] == MakeSlot(r[i].totalMinutes)
    ensures forall i :: 0 <= i < |r| ==> r[i].totalMinutes <= LastStartMinutes(closeHour, durationMinutes)
    ensures forall i :: 0 <= i < |r| - 1 ==> r[i + 1].totalMinutes == r[i].totalMinutes + stepMinutes
    ensures |r| > 0 ==> r[|r| - 1].totalMinutes + stepMinutes > LastStartMinutes(closeHour, durationMinutes)
  {
    SlotsOf(BuildStarts(openHour, closeHour, stepMinutes, durationMinutes))
  }

  /** When the service fits there are `(last - start) / stepMinutes + 1`
      slots. */
  lemma BuildTimeSlotsCount(openHour: nat, closeHour: nat, stepMinutes: nat, durationMinutes: nat)
    requires stepMinutes > 0
    requires LastStartMinutes(closeHour, durationMinutes) >= StartMinutes(openHour)
    ensures |BuildTimeSlots(openHour, closeHour, stepMinutes, durationMinutes)|
            == (LastStartMinutes(closeHour, durationMinutes) - StartMinutes(openHour)) / stepMinutes + 1
  {
    BuildStartsCount(openHour, closeHour, stepMinutes, durationMinutes);
  }

  /** The start minutes alone number `(last - start) / stepMinutes + 1`. */
  lemma BuildStartsCount(openHour: nat, closeHour: nat, stepMinutes: nat, durationMinutes: nat)
    requires stepMinutes > 0
    requires LastStartMinutes(closeHour, durationMinutes) >= StartMinutes(openHour)
    ensures |BuildStarts(openHour, closeHour, stepMinutes, durationMinutes)|
            == (LastStartMinutes(closeHour, durationMinutes) - StartMinutes(openHour)) / stepMinutes + 1
  {
    var start := StartMinutes(openHour);
    var last := LastStartMinutes(closeHour, durationMinutes);
    assert BuildStarts(openHour, closeHour, stepMinutes, durationMinutes) == SlotStarts(start, last, stepMinutes);
    SlotStartsCount(start, last, stepMinutes);
  }

  /** Slot `i` starts `i` steps after opening. */
  lemma BuildTimeSlotsAt(openHour: nat, closeHour: nat, stepMinutes: nat, durationMinutes: nat)
    requires SlotArgsOk(openHour, closeHour, stepMinutes, durationMinutes)
    ensures var r := BuildTimeSlots(openHour, closeHour, stepMinutes, durationMinutes);
            forall i :: 0 <= i < |r| ==> r[i].totalMinutes == StartMinutes(openHour) + i * stepMinutes
  {
    var start := StartMinutes(openHour);
    var last := LastStartMinutes(closeHour, durationMinutes);
    var starts := BuildStarts(openHour, closeHour, stepMinutes, durationMinutes);
    if start <= last {
      assert starts == SlotStarts(start, last, stepMinutes);
      forall i | 0 <= i < |starts|
        ensures starts[i] == start + i * stepMinutes
      {
        SlotStartsAt(start, last, stepMinutes, i);
      }
    }
  }

  /** Every generated slot reads back: its value and (within the day) its
      label both name the slot's own minute. */
  lemma BuildTimeSlotsReadBack(openHour: nat, closeHour: nat, stepMinutes: nat, durationMinutes: nat)
    requires SlotArgsOk(openHour, closeHour, stepMinutes, durationMinutes)
    ensures forall s :: s in BuildTimeSlots(openHour, closeHour, stepMinutes, durationMinutes) ==>
              && ParseSlotValue(s.value) == Some(s.totalMinutes)
              && (s.totalMinutes < 1440 ==> ParseTimeLabel(s.labelText) == Some(s.totalMinutes))
  {
    forall s | s in BuildTimeSlots(openHour, closeHour, stepMinutes, durationMinutes)
      ensures ParseSlotValue(s.value) == Some(s.totalMinutes)
      ensures s.totalMinutes < 1440 ==> ParseTimeLabel(s.labelText) == Some(s.totalMinutes)
    {
      SlotValueRoundTrip(s.totalMinutes);
      if s.totalMinutes < 1440 {
        FormatTimeLabelRoundTrip(s.totalMinutes);
      }
    }
  }

  /** A slot value below hour 100, character by character. */
  lemma SlotValueChars(t: nat)
    requires t < 6000
    ensures SlotValue(t) == [DigitChar(t / 60 / 10), DigitChar(t / 60 % 10), ':',
                             DigitChar(t % 60 / 10), DigitChar(t % 60 % 10)]
  {
  }

  /** A label with a one-digit hour, character by character. */
  lemma LabelChars(t: nat)
    requires Hour12(t) < 10
    ensures FormatTimeLabel(t) == [DigitChar(Hour12(t)), ':', DigitChar(t % 60 / 10), DigitChar(t % 60 % 10),
                                   ' ', Period(t)[0], Period(t)[1]]
  {
  }

  lemma MakeSlot540()
    ensures MakeSlot(540) == TimeSlot("09:00", "9:00 AM", 540)
  {
    assert DigitChar(0) == '0' && DigitChar(9) == '9';
    SlotValueChars(540);
    assert Hour12(540) == 9 && Period(540) == "AM";
    LabelChars(540);
  }

  lemma MakeSlot840()
    ensures MakeSlot(840) == TimeSlot("14:00", "2:00 PM", 840)
  {
    assert DigitChar(0) == '0' && DigitChar(1) == '1' && DigitChar(2) == '2' && DigitChar(4) == '4';
    SlotValueChars(840);
    assert Hour12(840) == 2 && Period(840) == "PM";
    LabelChars(840);
  }

  lemma MakeSlot1020()
    ensures MakeSlot(1020) == TimeSlot("17:00", "5:00 PM", 1020)
  {
    assert DigitChar(0) == '0' && DigitChar(1) == '1' && DigitChar(5) == '5' && DigitChar(7) == '7';
    SlotValueChars(1020);
    assert Hour12(1020) == 5 && Period(1020) == "PM";
    LabelChars(1020);
  }

  /** The slots the generator renders for 9 AM, 2 PM and 5 PM. */
  lemma MakeSlotExamples()
    ensures MakeSlot(540) == TimeSlot("09:00", "9:00 AM", 540)
    ensures MakeSlot(840) == TimeSlot("14:00", "2:00 PM", 840)
    ensures MakeSlot(1020) == TimeSlot("17:00", "5:00 PM", 1020)
  {
    MakeSlot540();
    MakeSlot840();
    MakeSlot1020();
  }

  lemma BuildTimeSlotsExamples()
    ensures BuildTimeSlots(9, 10, 60, 120) == []
    ensures var r := BuildTimeSlots(9, 17, 60, 180);
            && |r| == 6
            && r[0].value == "09:00" && r[0].labelText == "9:00 AM"
            && r[5].value == "14:00" && r[5].labelText == "2:00 PM"
  {
    BuildTimeSlotsCount(9, 17, 60, 180);
    BuildTimeSlotsAt(9, 17, 60, 180);
    MakeSlotExamples();
  }

  /** The source's `for` loop, step by step, on unbounded integers; it
      computes exactly the slots of the recursive definition. */
  method BuildTimeSlotsLoop(openHour: nat, closeHour: nat, stepMinutes: nat, durationMinutes: nat)
    returns (slots: seq<TimeSlot>)
    requires SlotArgsOk(openHour, closeHour, stepMinutes, durationMinutes)
    ensures slots == BuildTimeSlots(openHour, closeHour, stepMinutes, durationMinutes)
  {
    var startMinutes := StartMinutes(openHour);
    var lastStartMinutes := LastStartMinutes(closeHour, durationMinutes);
    if lastStartMinutes < startMinutes {
      return [];
    }
    ghost var starts := BuildStarts(openHour, closeHour, stepMinutes, durationMinutes);
    slots := [];
    var totalMinutes: nat := startMinutes;
    while totalMinutes <= lastStartMinutes
      invariant |slots| <= |starts|
      invariant slots == SlotsOf(starts[..|slots|])
      invariant |slots| < |starts| ==> starts[|slots|] == totalMinutes
      invariant |slots| == |starts| ==> totalMinutes > lastStartMinutes
      decreases |starts| - |slots|
    {
      var slot := MakeSlot(totalMinutes);
      SlotsOfSnoc(starts, |slots|);
      slots := slots + [slot];
      totalMinutes := totalMinutes + stepMinutes;
    }
    assert starts[..|slots|] == starts;
  }
}
