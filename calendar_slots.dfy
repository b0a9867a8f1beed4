/** The slot-calendar hook: month-grid date range, per-date slot selection and ordering, and
    the hook state those fetchers update. Days are integers (day 0 is 1 January 1970, a
    Thursday); a slot's start carries the local date and epoch milliseconds that the
    date helpers derive from its ISO text. */
module CalendarSlots {
  import opened Wrappers
  import opened Js

  /** A start time: ISO text, the local calendar date it falls on, epoch milliseconds. */
  datatype SlotTime = SlotTime(text: string, localDate: string, millis: int)

  /** A slot as Cal.com v2 sends it. */
  datatype RawSlot = RawSlot(start: SlotTime, attendees: Option<int>, bookingUid: Option<string>)

  /** A slot as the widget consumes it. */
  datatype CalcomSlot = CalcomSlot(time: SlotTime, attendees: int, bookingUid: Option<string>)

  /** Slots by date key, in the order `Object.entries` yields them. */
  type SlotMap = seq<(string, seq<RawSlot>)>

  /** `start` becomes `time`, missing attendees become 0, `bookingUid` is copied. */
  function ConvertCalcomSlot(s: RawSlot): (r: CalcomSlot)
    ensures r.time == s.start && r.bookingUid == s.bookingUid
    ensures s.attendees.None? ==> r.attendees == 0
    ensures s.attendees.Some? ==> r.attendees == s.attendees.value
  {
    CalcomSlot(s.start, if s.attendees.Some? then s.attendees.value else 0, s.bookingUid)
  }

  /** `Date.getDay()`: 0 is Sunday, 1 is Monday. */
  function DayOfWeek(d: int): (w: int)
    ensures 0 <= w < 7
  {
    (d + 4) % 7
  }

  const Sunday: int := 0
  const Monday: int := 1

  /** The calendar view of a month: back from its first day to a Monday, forward from its
      last day to a Sunday. */
  method MonthGridRange(firstDay: int, lastDay: int) returns (startDate: int, endDate: int)
    ensures DayOfWeek(startDate) == Monday && DayOfWeek(endDate) == Sunday
    ensures startDate <= firstDay < startDate + 7
    ensures lastDay <= endDate < lastDay + 7
    ensures (endDate - startDate + 1) % 7 == 0
  {
    startDate := firstDay;
    startDate := startDate - (DayOfWeek(firstDay) + 6) % 7;
    endDate := lastDay;
    endDate := endDate + (6 - (DayOfWeek(lastDay) + 6) % 7);
  }

  /** The converted slots of one date's list that fall on local date `day`, in list order. */
  function SlotsOfDay(slots: seq<RawSlot>, day: string): (r: seq<CalcomSlot>)
    ensures forall s :: s in r ==> s.time.localDate == day
  {
    if slots == [] then []
    else
      var last := slots[|slots| - 1];
      SlotsOfDay(slots[..|slots| - 1], day) + (if last.start.localDate == day then [ConvertCalcomSlot(last)] else [])
  }

  /** The converted slots of every entry that fall on local date `day`, entry by entry. */
  function SlotsOn(entries: SlotMap, day: string): (r: seq<CalcomSlot>)
    ensures forall s :: s in r ==> s.time.localDate == day
  {
    if entries == [] then []
    else SlotsOn(entries[..|entries| - 1], day) + SlotsOfDay(entries[|entries| - 1].1, day)
  }

  /** Conversely, every slot of the list that falls on `day` is selected. */
  lemma {:induction false} SlotsOfDayComplete(slots: seq<RawSlot>, day: string, s: RawSlot)
    requires s in slots && s.start.localDate == day
    ensures ConvertCalcomSlot(s) in SlotsOfDay(slots, day)
  {
    var init := slots[..|slots| - 1];
    if s == slots[|slots| - 1] {
    } else {
      assert slots == init + [slots[|slots| - 1]];
      SlotsOfDayComplete(init, day, s);
    }
  }

  /** Conversely, every slot of every entry that falls on `day` is selected. */
  lemma {:induction false} SlotsOnComplete(entries: SlotMap, day: string, k: int, s: RawSlot)
    requires 0 <= k < |entries| && s in entries[k].1 && s.start.localDate == day
    ensures ConvertCalcomSlot(s) in SlotsOn(entries, day)
  {
    if k == |entries| - 1 {
      SlotsOfDayComplete(entries[k].1, day, s);
    } else {
      SlotsOnComplete(entries[..|entries| - 1], day, k, s);
    }
  }

  /** The nested `forEach` loops that push every slot of the entries falling on `day`. */
  method CollectSlots(entries: SlotMap, day: string) returns (found: seq<CalcomSlot>)
    ensures found == SlotsOn(entries, day)
  {
    found := [];
    for i := 0 to |entries|
      invariant found == SlotsOn(entries[..i], day)
    {
      var slots := entries[i].1;
      ghost var before := found;
      for j := 0 to |slots|
        invariant found == before + SlotsOfDay(slots[..j], day)
      {
        if slots[j].start.localDate == day {
          found := found + [ConvertCalcomSlot(slots[j])];
        }
        assert slots[..j + 1][..j] == slots[..j];
      }
      assert slots[..|slots|] == slots;
      assert entries[..i + 1][..i] == entries[..i];
    }
    assert entries[..|entries|] == entries;
  }

  predicate SortedByTime(s: seq<CalcomSlot>) {
    forall i, j :: 0 <= i < j < |s| ==> s[i].time.millis <= s[j].time.millis
  }

  /** `slots.sort((a, b) => time(a) - time(b))`, in place (insertion sort). */
  method SortByTime(a: array<CalcomSlot>)
    modifies a
    ensures SortedByTime(a[..])
    ensures multiset(a[..]) == multiset(old(a[..]))
  {
    var i := 0;
    while i < a.Length
      invariant 0 <= i <= a.Length
      invariant forall m, n :: 0 <= m < n < i ==> a[m].time.millis <= a[n].time.millis
      invariant multiset(a[..]) == multiset(old(a[..]))
    {
      InsertAt(a, i);
      i := i + 1;
    }
  }

  /** One insertion step: moves `a[i]` down into the sorted prefix `a[..i]`. */
  method InsertAt(a: array<CalcomSlot>, i: int)
    requires 0 <= i < a.Length
    requires forall m, n :: 0 <= m < n < i ==> a[m].time.millis <= a[n].time.millis
    modifies a
    ensures forall m, n :: 0 <= m < n <= i ==> a[m].time.millis <= a[n].time.millis
    ensures multiset(a[..]) == multiset(old(a[..]))
    ensures a[i + 1..] == old(a[i + 1..])
  {
    var j := i;
    while j > 0 && a[j - 1].time.millis > a[j].time.millis
      invariant 0 <= j <= i
      invariant forall m, n :: 0 <= m < n <= i && m != j && n != j ==> a[m].time.millis <= a[n].time.millis
      invariant forall n :: j < n <= i ==> a[j].time.millis <= a[n].time.millis
      invariant multiset(a[..]) == multiset(old(a[..]))
      invariant a[i + 1..] == old(a[i + 1..])
    {
      SwapDown(a, j);
      j := j - 1;
    }
  }

  /** Exchanges `a[j - 1]` and `a[j]`. */
  method SwapDown(a: array<CalcomSlot>, j: int)
    requires 0 < j < a.Length
    modifies a
    ensures a[j - 1] == old(a[j]) && a[j] == old(a[j - 1])
    ensures forall m :: 0 <= m < a.Length && m != j - 1 && m != j ==> a[m] == old(a[m])
    ensures multiset(a[..]) == multiset(old(a[..]))
  {
    a[j - 1], a[j] := a[j], a[j - 1];
  }

  /** A sorted copy of `slots`. */
  method Sorted(slots: seq<CalcomSlot>) returns (r: seq<CalcomSlot>)
    ensures SortedByTime(r) && multiset(r) == multiset(slots)
    ensures forall s :: s in r ==> s in slots
  {
    var arr := new CalcomSlot[|slots|](i requires 0 <= i < |slots| => slots[i]);
    assert arr[..] == slots;
    SortByTime(arr);
    r := arr[..];
    forall s | s in r ensures s in slots {
      assert s in multiset(r);
    }
  }

  /** The answer of the slots endpoint: a JSON body (None when it is not an object), an HTTP
      error status, or a fetch/parse failure. */
  datatype SlotsReply = SlotsOk(data: Option<SlotMap>) | SlotsHttpError(status: int) | SlotsFailed

  /** A `dateFrom`..`dateTo` window requested from the slots endpoint. */
  datatype DayRange = DayRange(from: int, to: int)

  /** The slots the fallback fetch yields for `day`. */
  function FallbackSlots(reply: SlotsReply, day: string): (r: seq<CalcomSlot>) {
    if reply.SlotsOk? && reply.data.Some? then SlotsOn(reply.data.value, day) else []
  }

  /** The hook's state: `monthSlots`, `availableSlots` and `loading`. */
  class SlotsHook {
    const eventTypeId: Num
    const enabled: bool
    var monthSlots: SlotMap
    var availableSlots: seq<CalcomSlot>
    var loading: bool

    constructor (eventTypeId: Num, enabled: bool)
      ensures this.eventTypeId == eventTypeId && this.enabled == enabled
      ensures monthSlots == [] && availableSlots == [] && !loading
    {
      this.eventTypeId := eventTypeId;
      this.enabled := enabled;
      monthSlots := [];
      availableSlots := [];
      loading := false;
    }

    /** Both fetchers do nothing unless the event type id is finite and the hook is enabled. */
    predicate Active() {
      eventTypeId.Finite? && enabled
    }

    /** Fetches the month of the calendar view; `firstDay` and `lastDay` are the month's
        first and last days. Returns the window it requested. */
    method FetchMonthSlots(firstDay: int, lastDay: int, reply: SlotsReply) returns (requested: Option<DayRange>)
      modifies this
      ensures !Active() ==> requested.None? && monthSlots == old(monthSlots)
      ensures Active() ==> requested.Some?
      ensures requested.Some? ==>
        && DayOfWeek(requested.value.from) == Monday && DayOfWeek(requested.value.to) == Sunday
        && requested.value.from <= firstDay < requested.value.from + 7
        && lastDay <= requested.value.to < lastDay + 7
        && (requested.value.to - requested.value.from + 1) % 7 == 0
      ensures Active() ==> monthSlots == match reply
                              case SlotsOk(Some(data)) => data
                              case SlotsOk(None) => old(monthSlots)
                              case _ => []
      ensures availableSlots == old(availableSlots) && loading == old(loading)
    {
      if !Active() {
        return None;
      }
      var startDate, endDate := MonthGridRange(firstDay, lastDay);
      requested := Some(DayRange(startDate, endDate));
      match reply {
        case SlotsOk(data) =>
          if data.Some? {
            monthSlots := data.value;
          }
        case SlotsHttpError(_) =>
          monthSlots := [];
        case SlotsFailed =>
          monthSlots := [];
      }
    }

    /** Fetches the slots of the selected date, numbered `day`, whose local date is
        `localDate`; `reply` is the answer to the fallback request, used only when the cached
        month has nothing for that date. Returns the window it requested, if any. */
    method FetchSlots(day: int, localDate: string, reply: SlotsReply) returns (requested: Option<DayRange>)
      modifies this
      ensures !Active() ==> requested.None? && availableSlots == old(availableSlots) && loading == old(loading)
      ensures monthSlots == old(monthSlots)
      ensures Active() ==> !loading
      ensures Active() ==> SortedByTime(availableSlots)
      ensures Active() ==> forall s :: s in availableSlots ==> s.time.localDate == localDate
      ensures Active() && SlotsOn(monthSlots, localDate) != [] ==>
                requested.None? && multiset(availableSlots) == multiset(SlotsOn(monthSlots, localDate))
      ensures Active() && SlotsOn(monthSlots, localDate) == [] ==>
                requested == Some(DayRange(day - 1, day + 1))
                && multiset(availableSlots) == multiset(FallbackSlots(reply, localDate))
    {
      if !Active() {
        return None;
      }
      loading := true;
      var slotsForDate := CollectSlots(monthSlots, localDate);
      if |slotsForDate| > 0 {
        availableSlots := Sorted(slotsForDate);
        loading := false;
        return None;
      }
      requested := Some(DayRange(day - 1, day + 1));
      match reply {
        case SlotsOk(data) =>
          var slotsArray := [];
          if data.Some? {
            slotsArray := CollectSlots(data.value, localDate);
          }
          availableSlots := Sorted(slotsArray);
        case SlotsHttpError(_) =>
          availableSlots := [];
        case SlotsFailed =>
          availableSlots := [];
      }
      loading := false;
    }
  }
}
