/** The calendar page's own state: the date it is centred on, the view mode, the
    zoom, and the search box. */
module CalendarView {
  import opened Wrappers
  import opened Dates
  import opened Types
  import ScheduleExport

  // ---------------------------------------------------------------- moving the date

  /** `handleNext`: a day ahead in the daily view, a month in the monthly view, a
      week otherwise. */
  function NextDate(d: Date, mode: ViewMode): Date {
    match mode
    case Daily => AddDays(d, 1)
    case Monthly => AddMonths(d, 1)
    case _ => AddDays(d, 7)
  }

  /** `handlePrevious`: the same unit back. */
  function PreviousDate(d: Date, mode: ViewMode): Date {
    match mode
    case Daily => AddDays(d, -1)
    case Monthly => AddMonths(d, -1)
    case _ => AddDays(d, -7)
  }

  /** How far each step moves: one day, seven days, or one calendar month. */
  lemma StepSizes(d: Date, mode: ViewMode)
    ensures mode == Daily ==> (DayNumber(NextDate(d, mode)) == DayNumber(d) + 1
                               && DayNumber(PreviousDate(d, mode)) == DayNumber(d) - 1)
    ensures mode == Weekly || mode == Minimal ==> (DayNumber(NextDate(d, mode)) == DayNumber(d) + 7
                                                   && DayNumber(PreviousDate(d, mode)) == DayNumber(d) - 7)
    ensures mode == Monthly ==> (NextDate(d, mode).year * 12 + NextDate(d, mode).month == d.year * 12 + d.month + 1
                                 && PreviousDate(d, mode).year * 12 + PreviousDate(d, mode).month == d.year * 12 + d.month - 1)
  {
    AddDaysNumber(d, 1);
    AddDaysNumber(d, -1);
    AddDaysNumber(d, 7);
    AddDaysNumber(d, -7);
  }

  /** Stepping by days or weeks can be undone: back after forward, and forward
      after back, return to the same date. */
  lemma StepUndone(d: Date, mode: ViewMode)
    requires mode != Monthly
    ensures PreviousDate(NextDate(d, mode), mode) == d
    ensures NextDate(PreviousDate(d, mode), mode) == d
  {
    AddDaysAdd(d, 1, -1);
    AddDaysAdd(d, -1, 1);
    AddDaysAdd(d, 7, -7);
    AddDaysAdd(d, -7, 7);
  }

  /** Stepping by months returns to the same month, but a day past the end of the
      month in between is pulled back (January 31 comes back as January 28 or 29). */
  lemma MonthStepUndone(d: Date)
    ensures PreviousDate(NextDate(d, Monthly), Monthly).year == d.year
    ensures PreviousDate(NextDate(d, Monthly), Monthly).month == d.month
    ensures PreviousDate(NextDate(d, Monthly), Monthly).day <= d.day
  {
    AddMonthsBack(d, 1);
  }

  lemma MonthStepClamps()
    ensures PreviousDate(NextDate(CalendarDate(2025, 1, 31), Monthly), Monthly) == CalendarDate(2025, 1, 28)
  {
  }

  // ---------------------------------------------------------------- zoom

  /** Zoom levels are counted in quarters: 4 is 1.0, from 0.5 up to 2.0. */
  const MinZoom := 2
  const MaxZoom := 8
  const InitialZoom := 4

  /** `Math.min(prev + 0.25, 2)`. */
  function ZoomedIn(z: int): int {
    if z + 1 < MaxZoom then z + 1 else MaxZoom
  }

  /** `Math.max(prev - 0.25, 0.5)`. */
  function ZoomedOut(z: int): int {
    if z - 1 > MinZoom then z - 1 else MinZoom
  }

  /** Zooming never passes the bounds, keeps a level inside them, and stops at them. */
  lemma ZoomBounds(z: int)
    ensures ZoomedIn(z) <= MaxZoom && ZoomedOut(z) >= MinZoom
    ensures MinZoom <= z <= MaxZoom ==> MinZoom <= ZoomedIn(z) <= MaxZoom && MinZoom <= ZoomedOut(z) <= MaxZoom
    ensures z < MaxZoom ==> ZoomedIn(z) == z + 1
    ensures z > MinZoom ==> ZoomedOut(z) == z - 1
    ensures ZoomedIn(MaxZoom) == MaxZoom && ZoomedOut(MinZoom) == MinZoom
  {
  }

  /** Within the bounds, zooming out undoes zooming in below the top, and zooming in
      undoes zooming out above the bottom. */
  lemma ZoomUndone(z: int)
    requires MinZoom <= z <= MaxZoom
    ensures z < MaxZoom ==> ZoomedOut(ZoomedIn(z)) == z
    ensures z > MinZoom ==> ZoomedIn(ZoomedOut(z)) == z
  {
  }

  // ---------------------------------------------------------------- the page

  datatype CalendarState = CalendarState(
    currentDate: Date,
    viewMode: ViewMode,
    zoom: int,
    searchQuery: string,
    isSearchVisible: bool)

  class Calendar {
    var currentDate: Date
    var viewMode: ViewMode
    var zoom: int
    var searchQuery: string
    var isSearchVisible: bool

    function Snapshot(): CalendarState
      reads this
    {
      CalendarState(currentDate, viewMode, zoom, searchQuery, isSearchVisible)
    }

    /** The zoom stays between 0.5 and 2. */
    predicate Valid()
      reads this
    {
      MinZoom <= zoom <= MaxZoom
    }

    /** The page opens on today, in the weekly view, at zoom 1, with the search hidden. */
    constructor(now: Date)
      ensures Snapshot() == CalendarState(now, Weekly, InitialZoom, "", false)
      ensures Valid()
    {
      currentDate := now;
      viewMode := Weekly;
      zoom := InitialZoom;
      searchQuery := "";
      isSearchVisible := false;
    }

    /** `weekDays`: the week holding the current date. */
    function WeekShown(): (days: seq<Date>)
      reads this
      ensures |days| == 7 && currentDate in days
      ensures forall i :: 0 <= i < 7 ==> Weekday(days[i]) == i
    {
      WeekDaysFacts(currentDate);
      WeekDays(currentDate)
    }

    method HandleNext()
      modifies this
      ensures Snapshot() == old(Snapshot()).(currentDate := NextDate(old(currentDate), old(viewMode)))
    {
      if viewMode == Daily {
        currentDate := AddDays(currentDate, 1);
      } else if viewMode == Monthly {
        currentDate := AddMonths(currentDate, 1);
      } else {
        currentDate := AddDays(currentDate, 7);
      }
    }

    method HandlePrevious()
      modifies this
      ensures Snapshot() == old(Snapshot()).(currentDate := PreviousDate(old(currentDate), old(viewMode)))
    {
      if viewMode == Daily {
        currentDate := AddDays(currentDate, -1);
      } else if viewMode == Monthly {
        currentDate := AddMonths(currentDate, -1);
      } else {
        currentDate := AddDays(currentDate, -7);
      }
    }

    /** `handleToday`, with the current day passed in. */
    method HandleToday(now: Date)
      modifies this
      ensures Snapshot() == old(Snapshot()).(currentDate := now)
    {
      currentDate := now;
    }

    method HandleViewChange(newView: ViewMode)
      modifies this
      ensures Snapshot() == old(Snapshot()).(viewMode := newView)
    {
      viewMode := newView;
    }

    method HandleZoomIn()
      modifies this
      requires Valid()
      ensures Snapshot() == old(Snapshot()).(zoom := ZoomedIn(old(zoom)))
      ensures Valid()
    {
      zoom := if zoom + 1 < MaxZoom then zoom + 1 else MaxZoom;
    }

    method HandleZoomOut()
      modifies this
      requires Valid()
      ensures Snapshot() == old(Snapshot()).(zoom := ZoomedOut(old(zoom)))
      ensures Valid()
    {
      zoom := if zoom - 1 > MinZoom then zoom - 1 else MinZoom;
    }

    /** `handleDayClick`: open the clicked day in the daily view. */
    method HandleDayClick(date: Date)
      modifies this
      ensures Snapshot() == old(Snapshot()).(currentDate := date, viewMode := Daily)
    {
      currentDate := date;
      viewMode := Daily;
    }

    /** `handleToggleSearch`: flips the search box; the query is cleared when the box
        was showing, that is, exactly when it is being hidden. */
    method HandleToggleSearch()
      modifies this
      ensures Snapshot() == old(Snapshot()).(isSearchVisible := ToggledVisible(old(isSearchVisible)),
        searchQuery := ToggledQuery(old(isSearchVisible), old(searchQuery)))
    {
      var wasVisible := isSearchVisible;
      isSearchVisible := !isSearchVisible;
      if wasVisible {
        searchQuery := "";
      }
    }

    /** The header's search input. */
    method SetSearchQuery(q: string)
      modifies this
      ensures Snapshot() == old(Snapshot()).(searchQuery := q)
    {
      searchQuery := q;
    }

    /** `handleExport`: the text exported for the week shown. */
    method HandleExport(s: Settings, appts: map<string, Appointment>, patients: map<string, Patient>)
      returns (content: string)
      requires s.slotDuration > 0
      ensures content == ScheduleExport.ExportText(s, appts, patients, WeekShown())
    {
      var weekDays := WeekShown();
      content := ScheduleExport.ExportContent(s, appts, patients, weekDays);
    }
  }

  /** `setIsSearchVisible((prev) => !prev)`. */
  function ToggledVisible(visible: bool): bool {
    !visible
  }

  /** `if (isSearchVisible) setSearchQuery('')`, testing the visibility before the flip. */
  function ToggledQuery(visible: bool, query: string): string {
    if visible then "" else query
  }

  /** The query is kept exactly when the box opens, and toggling twice restores the
      visibility but always leaves the query empty. */
  lemma ToggleSearchSpec(visible: bool, query: string)
    ensures ToggledQuery(visible, query) == query || ToggledVisible(visible) == false
    ensures ToggledVisible(visible) == false ==> ToggledQuery(visible, query) == ""
    ensures ToggledVisible(ToggledVisible(visible)) == visible
    ensures ToggledQuery(ToggledVisible(visible), ToggledQuery(visible, query)) == ""
  {
  }
}
