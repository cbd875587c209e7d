/** The booking page: `HH:MM` times and minutes, the three day segments, the
    slot list a service's duration cuts a segment into, the date-time string
    sent to the API, the form's field resets and the checks made on submit. */
module Booking {
  import opened Values
  import opened Text

  // ---------------------------------------------------------------------------
  // Times

  /** `pad2(n)`: `String(n).padStart(2, "0")`. */
  function Pad2(n: nat): string
  {
    PadStart(DecimalString(n), 2, '0')
  }

  /** Below 100, `pad2` writes exactly the two decimal digits. */
  lemma Pad2Digits(n: nat)
    requires n < 100
    ensures Pad2(n) == [DigitChar(n / 10), DigitChar(n % 10)]
  {
    if 10 <= n {
      assert DecimalString(n) == [DigitChar(n / 10), DigitChar(n % 10)] by {
        assert DecimalString(n / 10) == [DigitChar(n / 10)];
      }
    } else {
      assert DecimalString(n) == [DigitChar(n)];
      assert PadStart([DigitChar(n)], 2, '0') == PadStart(['0', DigitChar(n)], 2, '0');
      assert n / 10 == 0 && n % 10 == n && DigitChar(0) == '0';
    }
  }

  /** `toHHMM(mins)`: the hour and the minute, each padded to two digits. */
  function ToHHMM(mins: nat): string
  {
    Pad2(mins / 60) + ":" + Pad2(mins % 60)
  }

  /** `toMinutes(hhmm)`: the first two `:`-separated parts read with `Number`,
      as `h * 60 + m`; `None` where that is NaN (a part that is not a number, or
      no second part). */
  function ToMinutes(hhmm: string): Option<int>
  {
    MinutesOf(Numbers(SplitOn(hhmm, ':')))
  }

  /** `parts.map(Number)`. */
  function Numbers(parts: seq<string>): (ns: seq<Option<int>>)
    ensures |ns| == |parts|
  {
    if parts == [] then [] else [StringToNumber(parts[0])] + Numbers(parts[1..])
  }

  /** `h * 60 + m` of the first two numbers, NaN when either is NaN or missing. */
  function MinutesOf(ns: seq<Option<int>>): Option<int>
  {
    if |ns| < 2 || ns[0].None? || ns[1].None? then None
    else Some(ns[0].value * 60 + ns[1].value)
  }

  /** A two-digit field reads back as its number and has no colon. */
  lemma Pad2Value(n: nat)
    requires n < 100
    ensures StringToNumber(Pad2(n)) == Some(n)
    ensures ':' !in Pad2(n) && AllDigits(Pad2(n)) && |Pad2(n)| == 2
  {
    Pad2Digits(n);
    var s := Pad2(n);
    assert s[..1] == [DigitChar(n / 10)] && s[..1][..0] == [];
    assert NumberOf(s[..1]) == Some(n / 10);
    assert NumberOf(s) == Some(n);
  }

  /** `toHHMM` of `h` hours and `m` minutes, character by character: a
      zero-padded two-digit hour, a colon, a zero-padded two-digit minute. */
  lemma HHMMChars(h: nat, m: nat)
    requires h < 100 && m < 60
    ensures ToHHMM(h * 60 + m) == [DigitChar(h / 10), DigitChar(h % 10), ':', DigitChar(m / 10), DigitChar(m % 10)]
  {
    var mins := h * 60 + m;
    DivMod60(h, m);
    Pad2Digits(h);
    Pad2Digits(m);
  }

  /** `toHHMM` of `h` hours and `m` minutes joins the two padded fields with a
      colon. */
  lemma TimeText(h: nat, m: nat, hs: string, ms: string)
    requires m < 60 && Pad2(h) == hs && Pad2(m) == ms
    ensures ToHHMM(h * 60 + m) == hs + ":" + ms
  {
    DivMod60(h, m);
  }

  lemma DivMod60(h: nat, m: nat)
    requires m < 60
    ensures (h * 60 + m) / 60 == h && (h * 60 + m) % 60 == m
  {
  }

  /** A written time splits at its colon into the two padded fields. */
  lemma SplitHHMM(mins: nat)
    requires mins < 6000
    ensures SplitOn(ToHHMM(mins), ':') == [Pad2(mins / 60), Pad2(mins % 60)]
  {
    var a, b := Pad2(mins / 60), Pad2(mins % 60);
    Pad2Value(mins / 60);
    Pad2Value(mins % 60);
    assert ToHHMM(mins) == a + [':'] + b;
    SplitOnJoin(a, ':', b);
  }

  /** Reading back a written time gives the minutes again, for every time of day
      (and beyond, up to 99 hours). */
  lemma ToMinutesToHHMM(mins: nat)
    requires mins < 6000
    ensures ToMinutes(ToHHMM(mins)) == Some(mins)
  {
    var a, b := Pad2(mins / 60), Pad2(mins % 60);
    SplitHHMM(mins);
    Pad2Value(mins / 60);
    Pad2Value(mins % 60);
    assert Numbers([a, b]) == [Some(mins / 60), Some(mins % 60)] by {
      assert [a, b][1..] == [b] && [b][1..] == [];
      assert Numbers([b]) == [Some(mins % 60)];
      assert Numbers([a, b]) == [StringToNumber(a)] + Numbers([b]);
    }
  }

  /** For a time of day, `toHHMM` writes five characters: a two-digit hour below
      24, a colon, a two-digit minute below 60. */
  lemma HHMMFields(mins: nat)
    requires mins < 1440
    ensures var s := ToHHMM(mins);
            |s| == 5 && s[2] == ':' && AllDigits(s[..2]) && AllDigits(s[3..])
            && StringToNumber(s[..2]) == Some(mins / 60) && mins / 60 < 24
            && StringToNumber(s[3..]) == Some(mins % 60) && mins % 60 < 60
  {
    var s := ToHHMM(mins);
    Pad2Value(mins / 60);
    Pad2Value(mins % 60);
    assert s[..2] == Pad2(mins / 60) && s[3..] == Pad2(mins % 60);
  }

  // ---------------------------------------------------------------------------
  // Segments and slots

  datatype Segment = Segment(title: string, start: string, end: string)

  /** `SEGMENTS[name]`: morning 09:00-12:00, afternoon 13:00-17:00, evening
      17:00-20:00; any other name has no segment. */
  function SegmentOf(name: string): (seg: Option<Segment>)
    ensures seg.Some? <==> name in {"morning", "afternoon", "evening"}
  {
    if name == "morning" then Some(Segment("Mañana", "09:00", "12:00"))
    else if name == "afternoon" then Some(Segment("Tarde", "13:00", "17:00"))
    else if name == "evening" then Some(Segment("Noche", "17:00", "20:00"))
    else None
  }

  /** A segment's start and end in minutes (`SegmentTimes` shows these are what
      `toMinutes` reads from the table). */
  function SegmentBounds(name: string): (b: Option<(nat, nat)>)
    ensures b.Some? <==> SegmentOf(name).Some?
    ensures b.Some? ==> b.value.0 < b.value.1
  {
    if name == "morning" then Some((540, 720))
    else if name == "afternoon" then Some((780, 1020))
    else if name == "evening" then Some((1020, 1200))
    else None
  }

  /** The table's times read as minutes are the bounds used for the slots:
      morning 540-720, afternoon 780-1020, evening 1020-1200. */
  lemma SegmentTimes(name: string)
    requires SegmentOf(name).Some?
    ensures Some(SegmentBounds(name).value.0 as int) == ToMinutes(SegmentOf(name).value.start)
    ensures Some(SegmentBounds(name).value.1 as int) == ToMinutes(SegmentOf(name).value.end)
  {
    var (start, end) := SegmentBounds(name).value;
    var seg := SegmentOf(name).value;
    assert seg.start == ToHHMM(start) && seg.end == ToHHMM(end) by {
      SegmentText(name);
    }
    ToMinutesToHHMM(start);
    ToMinutesToHHMM(end);
  }

  /** The table's times are what `toHHMM` writes for the bounds. */
  lemma SegmentText(name: string)
    requires SegmentOf(name).Some?
    ensures SegmentOf(name).value.start == ToHHMM(SegmentBounds(name).value.0)
    ensures SegmentOf(name).value.end == ToHHMM(SegmentBounds(name).value.1)
  {
    if name == "morning" {
      MorningText();
    } else if name == "afternoon" {
      AfternoonText();
    } else {
      EveningText();
    }
  }

  lemma MorningText()
    ensures ToHHMM(540) == "09:00" && ToHHMM(720) == "12:00"
  {
    TimeText(9, 0, "09", "00");
    TimeText(12, 0, "12", "00");
  }

  lemma AfternoonText()
    ensures ToHHMM(780) == "13:00" && ToHHMM(1020) == "17:00"
  {
    TimeText(13, 0, "13", "00");
    TimeText(17, 0, "17", "00");
  }

  lemma EveningText()
    ensures ToHHMM(1020) == "17:00" && ToHHMM(1200) == "20:00"
  {
    TimeText(17, 0, "17", "00");
    TimeText(20, 0, "20", "00");
  }

  /** The start minutes from `t` on that still end by `end`, `duration` apart:
      the values the `for` loop's counter takes from the point where it is `t`. */
  function StartsFrom(t: nat, end: nat, duration: nat): seq<nat>
    requires duration > 0
    decreases end + duration - t
  {
    if t + duration <= end then [t] + StartsFrom(t + duration, end, duration) else []
  }

  /** Each minute count written with `toHHMM`. */
  function Written(ms: seq<nat>): (r: seq<string>)
    ensures |r| == |ms|
    ensures forall i :: 0 <= i < |ms| ==> r[i] == ToHHMM(ms[i])
  {
    if ms == [] then [] else [ToHHMM(ms[0])] + Written(ms[1..])
  }

  /** The slots of a segment: none for an unknown name, else the loop's output
      from the segment's start. */
  function SlotsFor(segment: string, duration: nat): seq<string>
    requires duration > 0
  {
    match SegmentBounds(segment)
    case None => []
    case Some((start, end)) => Written(StartsFrom(start, end, duration))
  }

  /** There are `(end - t) / duration` slots from `t` on. */
  lemma {:induction false} StartsLength(t: nat, end: nat, duration: nat)
    requires duration > 0 && t <= end
    ensures |StartsFrom(t, end, duration)| == (end - t) / duration
    decreases end - t
  {
    if t + duration <= end {
      StartsLength(t + duration, end, duration);
      assert (end - t) / duration == (end - (t + duration)) / duration + 1 by {
        DivStep(end - t, duration);
      }
    } else {
      DivSmall(end - t, duration);
    }
  }

  lemma DivStep(x: int, d: int)
    requires d > 0 && x >= d
    ensures x / d == (x - d) / d + 1
  {
    var n := (x - d) / d;
    assert n * d <= x - d < (n + 1) * d by {
      assert x - d == n * d + (x - d) % d;
    }
    assert (n + 1) * d == n * d + d && (n + 2) * d == n * d + 2 * d;
    DivUnique(x, d, n + 1);
  }

  lemma DivSmall(x: int, d: int)
    requires d > 0 && 0 <= x < d
    ensures x / d == 0
  {
    DivUnique(x, d, 0);
  }

  lemma MulLe(a: int, b: int, d: int)
    requires a <= b && d > 0
    ensures a * d <= b * d
  {
    assert b * d - a * d == (b - a) * d;
  }

  /** The quotient is the one `n` with `n * d <= x < (n + 1) * d`. */
  lemma DivUnique(x: int, d: int, n: int)
    requires d > 0 && 0 <= n && n * d <= x < (n + 1) * d
    ensures x / d == n
  {
    var q, r := x / d, x % d;
    assert x == q * d + r && 0 <= r < d;
    if q < n {
      MulLe(q + 1, n, d);
      assert false;
    } else if q > n {
      MulLe(n + 1, q, d);
      assert false;
    }
  }

  /** The i-th slot from `t` on starts at `t + i * duration`, lies within the
      segment, and fits before its end. */
  lemma {:induction false} StartsIndex(t: nat, end: nat, duration: nat, i: nat)
    requires duration > 0 && i < |StartsFrom(t, end, duration)|
    ensures StartsFrom(t, end, duration)[i] == t + i * duration
    ensures t <= t + i * duration && t + i * duration + duration <= end
    decreases i
  {
    if i > 0 {
      StartsIndex(t + duration, end, duration, i - 1);
      assert t + duration + (i - 1) * duration == t + i * duration;
    }
  }

  /** No further slot fits: one more step past the last slot ends after `end`. */
  lemma {:induction false} StartsMaximal(t: nat, end: nat, duration: nat)
    requires duration > 0
    ensures t + |StartsFrom(t, end, duration)| * duration + duration > end
    decreases end + duration - t
  {
    if t + duration <= end {
      var n := |StartsFrom(t + duration, end, duration)|;
      StartsMaximal(t + duration, end, duration);
      assert t + (n + 1) * duration == t + duration + n * duration;
    }
  }

  /** The `slots` memo: no slots without a known segment, otherwise the loop
      from the segment's start to its end. */
  method Slots(segment: string, duration: nat) returns (result: seq<string>)
    requires duration > 0
    ensures result == SlotsFor(segment, duration)
  {
    if segment == "" {
      return [];
    }
    var bounds := SegmentBounds(segment);
    if bounds.None? {
      return [];
    }
    result := SlotsBetween(bounds.value.0, bounds.value.1, duration);
  }

  /** The memo's `for` loop: push each start time `t` while
      `t + duration <= end`, stepping by `duration`. */
  method SlotsBetween(start: nat, end: nat, duration: nat) returns (result: seq<string>)
    requires duration > 0
    ensures result == Written(StartsFrom(start, end, duration))
  {
    result := [];
    var t: nat := start;
    ghost var done: seq<nat> := [];
    while t + duration <= end
      invariant done + StartsFrom(t, end, duration) == StartsFrom(start, end, duration)
      invariant result == Written(done)
      decreases end - t
    {
      WrittenSnoc(done, t);
      assert done + StartsFrom(t, end, duration) == (done + [t]) + StartsFrom(t + duration, end, duration);
      done := done + [t];
      result := result + [ToHHMM(t)];
      t := t + duration;
    }
  }

  lemma WrittenSnoc(ms: seq<nat>, t: nat)
    ensures Written(ms + [t]) == Written(ms) + [ToHHMM(t)]
  {
    assert forall i :: 0 <= i < |ms| ==> (ms + [t])[i] == ms[i];
  }

  /** The start of the i-th slot of a list that starts at `start`. */
  function SlotStart(start: nat, duration: nat, i: nat): nat
  {
    start + i * duration
  }

  /** What `Slots` lists for a known segment: `(end - start) / duration` start
      times, the i-th at `start + i * duration`, each inside the segment, and no
      further one would fit; an unknown or empty segment name lists none. */
  lemma SlotsForSpec(segment: string, duration: nat)
    requires duration > 0
    ensures SegmentBounds(segment).None? ==> SlotsFor(segment, duration) == []
    ensures SegmentBounds(segment).Some? ==>
              var (start, end) := SegmentBounds(segment).value;
              var r := SlotsFor(segment, duration);
              && |r| == (end - start) / duration
              && (forall i :: 0 <= i < |r| ==>
                    && r[i] == ToHHMM(SlotStart(start, duration, i))
                    && start <= SlotStart(start, duration, i)
                    && SlotStart(start, duration, i) + duration <= end)
              && start + |r| * duration + duration > end
  {
    if SegmentBounds(segment).Some? {
      var (start, end) := SegmentBounds(segment).value;
      var ms := StartsFrom(start, end, duration);
      StartsLength(start, end, duration);
      StartsMaximal(start, end, duration);
      var r := Written(ms);
      assert SlotsFor(segment, duration) == r;
      forall i | 0 <= i < |r|
        ensures r[i] == ToHHMM(SlotStart(start, duration, i))
        ensures start <= SlotStart(start, duration, i)
        ensures SlotStart(start, duration, i) + duration <= end
      {
        StartsIndex(start, end, duration, i);
        assert r[i] == ToHHMM(ms[i]);
      }
    }
  }

  /** The afternoon's whole hours as `toHHMM` writes them. */
  lemma AfternoonHours()
    ensures ToHHMM(780) == "13:00" && ToHHMM(840) == "14:00"
    ensures ToHHMM(900) == "15:00" && ToHHMM(960) == "16:00"
  {
    TimeText(13, 0, "13", "00");
    TimeText(14, 0, "14", "00");
    TimeText(15, 0, "15", "00");
    TimeText(16, 0, "16", "00");
  }

  /** A one-hour service fits the afternoon four times, on the hour. */
  lemma AfternoonHourly()
    ensures SlotsFor("afternoon", 60) == ["13:00", "14:00", "15:00", "16:00"]
  {
    assert StartsFrom(780, 1020, 60) == [780, 840, 900, 960] by {
      assert StartsFrom(960, 1020, 60) == [960];
      assert StartsFrom(900, 1020, 60) == [900, 960];
    }
    AfternoonHours();
  }

  /** One three-hour slot fits the morning, one of 181 minutes does not. */
  lemma MorningLongServices()
    ensures SlotsFor("morning", 180) == ["09:00"]
    ensures SlotsFor("morning", 181) == []
  {
    assert StartsFrom(540, 720, 180) == [540];
    assert StartsFrom(540, 720, 181) == [];
    MorningText();
  }

  // ---------------------------------------------------------------------------
  // The selected service and its duration

  /** `selectedService`: the first listed service whose id reads, as text, the
      same as the form's service id. */
  function SelectedService(services: seq<map<string, Value>>, serviceId: string): (r: Option<map<string, Value>>)
    ensures r.Some? ==> r.value in services && JsString(Member(r.value, "service_id")) == serviceId
    ensures r.None? ==> forall s :: s in services ==> JsString(Member(s, "service_id")) != serviceId
    ensures forall i :: 0 <= i < |services| && JsString(Member(services[i], "service_id")) == serviceId
                        && (forall j :: 0 <= j < i ==> JsString(Member(services[j], "service_id")) != serviceId)
                        ==> r == Some(services[i])
  {
    if services == [] then None
    else if JsString(Member(services[0], "service_id")) == serviceId then Some(services[0])
    else
      var r := SelectedService(services[1..], serviceId);
      assert forall s :: s in services <==> s == services[0] || s in services[1..];
      assert forall i :: 1 <= i < |services| ==> services[i] == services[1..][i - 1];
      r
  }

  /** `duration`: the selected service's `duration_minutes` read with `Number`
      when it is present and truthy, 30 otherwise; `None` stands for NaN. */
  function DurationOf(service: Option<map<string, Value>>): (d: Option<int>)
    ensures service.None? ==> d == Some(30)
    ensures service.Some? && !JsTruthy(Member(service.value, "duration_minutes")) ==> d == Some(30)
    ensures service.Some? && Member(service.value, "duration_minutes").Num?
            && Member(service.value, "duration_minutes").n != 0
            ==> d == Some(Member(service.value, "duration_minutes").n)
  {
    match service
    case None => Some(30)
    case Some(s) =>
      var minutes := Member(s, "duration_minutes");
      if JsTruthy(minutes) then JsNumber(minutes) else Some(30)
  }

  // ---------------------------------------------------------------------------
  // The form

  /** The booking form state. */
  datatype BookingForm = BookingForm(barberId: Value, serviceId: string, date: string,
                                     segment: string, time: string)

  const InitialForm := BookingForm(Null, "", "", "", "")

  /** `isoString`: empty unless both a date and a time are chosen, otherwise the
      local date-time `date + "T" + time + ":00"`. */
  function IsoString(f: BookingForm): (s: string)
    ensures f.date == "" || f.time == "" ==> s == ""
    ensures f.date != "" && f.time != "" ==>
              |s| == |f.date| + |f.time| + 4 && s[..|f.date|] == f.date && s[|f.date|] == 'T'
              && s[|f.date| + 1..|f.date| + 1 + |f.time|] == f.time && s[|s| - 3..] == ":00"
  {
    if f.date == "" || f.time == "" then "" else f.date + "T" + f.time + ":00"
  }

  /** What the user does on the page. `ClickSlot(i)` clicks the i-th listed slot. */
  datatype Event =
    | SelectBarber(barberId: Value)
    | ChooseService(serviceId: string)
    | ChooseDate(date: string)
    | ChooseSegment(segment: string)
    | ClickSlot(index: nat)

  /** The slots the page lists for a form: none without a known segment, and
      none when the duration is NaN or not positive (there the page's loop
      would not produce a list). */
  function ListedSlots(f: BookingForm, services: seq<map<string, Value>>): (r: seq<string>)
    ensures SegmentBounds(f.segment).None? ==> r == []
    ensures var d := DurationOf(SelectedService(services, f.serviceId));
            d.Some? && d.value > 0 ==> r == SlotsFor(f.segment, d.value)
  {
    match DurationOf(SelectedService(services, f.serviceId))
    case Some(d) => if d > 0 then SlotsFor(f.segment, d) else []
    case None => []
  }

  /** The form after one event: choosing a barber clears segment and time,
      choosing a service, a date or a segment clears the time, and a slot click
      sets the time; nothing else changes. */
  function Step(f: BookingForm, e: Event, services: seq<map<string, Value>>): (g: BookingForm)
    ensures e.SelectBarber? ==> g == f.(barberId := e.barberId, segment := "", time := "")
    ensures e.ChooseService? ==> g == f.(serviceId := e.serviceId, time := "")
    ensures e.ChooseDate? ==> g == f.(date := e.date, time := "")
    ensures e.ChooseSegment? ==> g == f.(segment := e.segment, time := "")
    ensures e.ClickSlot? ==> (g.barberId == f.barberId && g.serviceId == f.serviceId
                              && g.date == f.date && g.segment == f.segment)
    ensures e.ClickSlot? && e.index < |ListedSlots(f, services)|
            ==> g.time == ListedSlots(f, services)[e.index]
  {
    match e
    case SelectBarber(id) => f.(barberId := id, segment := "", time := "")
    case ChooseService(v) => f.(serviceId := v, time := "")
    case ChooseDate(v) => f.(date := v, time := "")
    case ChooseSegment(v) => f.(segment := v, time := "")
    case ClickSlot(i) =>
      var slots := ListedSlots(f, services);
      if i < |slots| then f.(time := slots[i]) else f
  }

  function Run(f: BookingForm, events: seq<Event>, services: seq<map<string, Value>>): BookingForm
    decreases |events|
  {
    if events == [] then f else Run(Step(f, events[0], services), events[1..], services)
  }

  /** The chosen time is empty or one of the slots listed for the form as it now is. */
  predicate TimeIsListed(f: BookingForm, services: seq<map<string, Value>>)
  {
    f.time == "" || f.time in ListedSlots(f, services)
  }

  /** Every change that alters the listed slots clears the time, so along any
      sequence of events the chosen time stays one of the listed slots. */
  lemma {:induction false} RunKeepsTimeListed(f: BookingForm, events: seq<Event>,
                                              services: seq<map<string, Value>>)
    requires TimeIsListed(f, services)
    ensures TimeIsListed(Run(f, events, services), services)
    decreases |events|
  {
    if events != [] {
      var g := Step(f, events[0], services);
      if events[0].ClickSlot? {
        assert ListedSlots(g, services) == ListedSlots(f, services);
      }
      RunKeepsTimeListed(g, events[1..], services);
    }
  }

  /** The initial form has no time; so every reachable form's time is listed. */
  lemma ReachableTimeIsListed(events: seq<Event>, services: seq<map<string, Value>>)
    ensures TimeIsListed(Run(InitialForm, events, services), services)
  {
    RunKeepsTimeListed(InitialForm, events, services);
  }

  // ---------------------------------------------------------------------------
  // Submitting

  /** What submitting does: show a message and send nothing, or send a body. */
  datatype Submission = Rejected(message: string) | Send(body: map<string, Value>)

  /** `Number(v)` as `JSON.stringify` writes it: NaN becomes `null`. */
  function JsonNumber(v: Value): (r: Value)
    ensures r.Num? || r == Null
  {
    match JsNumber(v)
    case Some(n) => Num(n)
    case None => Null
  }

  /** `onSubmit`: barber, service, date, segment and time are checked in that
      order and the first missing one is reported; otherwise the request body
      has the numeric barber and service ids and the date-time string. */
  function Submit(f: BookingForm): (r: Submission)
    ensures !JsTruthy(f.barberId) ==> r == Rejected("Selecciona un barbero.")
    ensures JsTruthy(f.barberId) && f.serviceId == "" ==> r == Rejected("Selecciona un servicio.")
    ensures JsTruthy(f.barberId) && f.serviceId != "" && f.date == ""
            ==> r == Rejected("Selecciona una fecha.")
    ensures JsTruthy(f.barberId) && f.serviceId != "" && f.date != "" && f.segment == ""
            ==> r == Rejected("Selecciona un segmento (mañana/tarde/noche).")
    ensures JsTruthy(f.barberId) && f.serviceId != "" && f.date != "" && f.segment != "" && f.time == ""
            ==> r == Rejected("Selecciona un horario.")
    ensures r.Send? <==> JsTruthy(f.barberId) && f.serviceId != "" && f.date != ""
                         && f.segment != "" && f.time != ""
    ensures r.Send? ==> r.body.Keys == {"barber_id", "service_id", "appointment_date"}
                        && r.body["barber_id"] == JsonNumber(f.barberId)
                        && r.body["service_id"] == JsonNumber(Str(f.serviceId))
                        && r.body["appointment_date"] == Str(f.date + "T" + f.time + ":00")
  {
    if !JsTruthy(f.barberId) then Rejected("Selecciona un barbero.")
    else if f.serviceId == "" then Rejected("Selecciona un servicio.")
    else if f.date == "" then Rejected("Selecciona una fecha.")
    else if f.segment == "" then Rejected("Selecciona un segmento (mañana/tarde/noche).")
    else if f.time == "" then Rejected("Selecciona un horario.")
    else Send(map["barber_id" := JsonNumber(f.barberId),
                  "service_id" := JsonNumber(Str(f.serviceId)),
                  "appointment_date" := Str(IsoString(f))])
  }
}
