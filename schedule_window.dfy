/** The window and run cap that scheduling works with, after filling in the
    defaults for the arguments the caller left out. */
module ScheduleWindow {
  import opened OrionTypes

  /** The configured scheduler limits: how many runs to schedule at most, and
      how far ahead of the start to schedule, in seconds. */
  datatype Settings = Settings(schedulerMaxRuns: nat, schedulerMaxScheduledTime: int)

  datatype Window = Window(start: Timestamp, end: Timestamp, maxRuns: nat)

  /** The window scheduling uses: an argument that is given is used as it is;
      a missing cap comes from the settings, a missing start is the current
      time, and a missing end lies the configured horizon after the start. */
  function ResolveWindow(startTime: Option<Timestamp>, endTime: Option<Timestamp>, maxRuns: Option<nat>,
                         now: Timestamp, settings: Settings): (w: Window)
    ensures maxRuns.Some? ==> w.maxRuns == maxRuns.value
    ensures maxRuns.None? ==> w.maxRuns == settings.schedulerMaxRuns
    ensures startTime.Some? ==> w.start == startTime.value
    ensures startTime.None? ==> w.start == now
    ensures endTime.Some? ==> w.end == endTime.value
    ensures endTime.None? ==> w.end - w.start == settings.schedulerMaxScheduledTime
  {
    var cap := if maxRuns.Some? then maxRuns.value else settings.schedulerMaxRuns;
    var start := if startTime.Some? then startTime.value else now;
    var end := if endTime.Some? then endTime.value else start + settings.schedulerMaxScheduledTime;
    Window(start, end, cap)
  }

  /** What the schedule's date enumeration is taken to yield for a window:
      strictly ascending dates inside [start, end), at most the cap of them. */
  predicate ScheduleDates(dates: seq<Timestamp>, w: Window) {
    && (forall i, j :: 0 <= i < j < |dates| ==> dates[i] < dates[j])
    && (forall i :: 0 <= i < |dates| ==> w.start <= dates[i] < w.end)
    && |dates| <= w.maxRuns
  }
}
