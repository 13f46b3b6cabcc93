/**
 * The history log (Domain/Entities/SessionHistory.swift): completed-session records,
 * newest first and capped at 1000, plus per-day aggregates, newest first and capped at 365.
 * The calendar is the parameter `cal`, which takes an instant to its local day.
 */
module History {
  import opened Wrappers
  import opened Units
  import opened Session

  const MaxSessions: nat := 1000
  const MaxDays: nat := 365

  datatype CompletedSession = CompletedSession(
    id: Uuid,
    kind: SessionType,
    duration: int,
    completedAt: Instant,
    taskId: Option<Uuid>,
    taskTitle: Option<string>)

  /** The aggregate of one day; `date` is the day itself (its start-of-day). */
  datatype DailyStatistics = DailyStatistics(date: Day, workSessions: int, workMinutes: int, breakMinutes: int)
  {
    /** `addSession(type:duration:)` */
    function AddSession(kind: SessionType, duration: int): (d: DailyStatistics)
      ensures d.date == date
      ensures kind == Work ==>
        d.workSessions == workSessions + 1 && d.workMinutes == workMinutes + WholeMinutes(duration)
        && d.breakMinutes == breakMinutes
      ensures kind != Work ==>
        d.breakMinutes == breakMinutes + WholeMinutes(duration)
        && d.workSessions == workSessions && d.workMinutes == workMinutes
    {
      var minutes := WholeMinutes(duration);
      match kind
      case Work => this.(workSessions := workSessions + 1, workMinutes := workMinutes + minutes)
      case ShortBreak | LongBreak => this.(breakMinutes := breakMinutes + minutes)
    }
  }

  /** The all-zero aggregate of a day (`DailyStatistics.forToday()` for today). */
  function ZeroDay(day: Day): DailyStatistics {
    DailyStatistics(day, 0, 0, 0)
  }

  datatype SessionHistory = SessionHistory(sessions: seq<CompletedSession>, dailyStats: seq<DailyStatistics>)

  /** `SessionHistory.empty` */
  const Empty: SessionHistory := SessionHistory([], [])

  function Take<T>(s: seq<T>, n: nat): (r: seq<T>)
    ensures |r| == Min(|s|, n) && r == s[..|r|]
  {
    if |s| <= n then s else s[..n]
  }

  /** `firstIndex(where:)` for the entry of `day`, searching from position `from`. */
  function IndexOfDayFrom(daily: seq<DailyStatistics>, day: Day, from: nat): (r: Option<nat>)
    requires from <= |daily|
    ensures r.Some? ==> from <= r.value < |daily| && daily[r.value].date == day
    ensures r.Some? ==> forall j :: from <= j < r.value ==> daily[j].date != day
    ensures r.None? ==> forall j :: from <= j < |daily| ==> daily[j].date != day
    decreases |daily| - from
  {
    if from == |daily| then None
    else if daily[from].date == day then Some(from)
    else IndexOfDayFrom(daily, day, from + 1)
  }

  function IndexOfDay(daily: seq<DailyStatistics>, day: Day): (r: Option<nat>)
    ensures r.Some? ==> r.value < |daily| && daily[r.value].date == day
    ensures r.Some? ==> forall j :: 0 <= j < r.value ==> daily[j].date != day
    ensures r.None? ==> forall j :: 0 <= j < |daily| ==> daily[j].date != day
  {
    IndexOfDayFrom(daily, day, 0)
  }

  /** `dailyStats.first { same day } ?? zero entry of that day` */
  function Lookup(daily: seq<DailyStatistics>, day: Day): (d: DailyStatistics)
    ensures d.date == day
    ensures IndexOfDay(daily, day).None? ==> d == ZeroDay(day)
    ensures IndexOfDay(daily, day).Some? ==> d == daily[IndexOfDay(daily, day).value]
  {
    match IndexOfDay(daily, day)
    case Some(i) => daily[i]
    case None => ZeroDay(day)
  }

  /** `todayStats`, with today's day passed in. */
  function TodayStats(h: SessionHistory, today: Day): (d: DailyStatistics)
    ensures d.date == today
    ensures d == Lookup(h.dailyStats, today)
  {
    Lookup(h.dailyStats, today)
  }

  /** `thisWeekStats`: the seven days ending today, oldest first. */
  function ThisWeekStats(h: SessionHistory, today: Day): (r: seq<DailyStatistics>)
    ensures |r| == 7
    ensures forall k :: 0 <= k < 7 ==> r[k].date == today - 6 + k
    ensures forall k :: 0 <= k < 7 ==> r[k] == Lookup(h.dailyStats, today - 6 + k)
    ensures r[6] == TodayStats(h, today)
  {
    var byOffset := seq(7, offset requires 0 <= offset < 7 => Lookup(h.dailyStats, today - offset));
    seq(7, k requires 0 <= k < 7 => byOffset[6 - k])
  }

  /** The per-day table after crediting a session of `kind` and `duration` to `day`. */
  function DailyAfter(daily: seq<DailyStatistics>, day: Day, kind: SessionType, duration: int): (r: seq<DailyStatistics>)
    ensures IndexOfDay(daily, day).Some? ==> |r| == |daily|
    ensures IndexOfDay(daily, day).None? ==> |r| == Min(|daily| + 1, MaxDays)
    ensures |r| <= Max(|daily|, MaxDays)
    ensures IndexOfDay(r, day).Some?
  {
    match IndexOfDay(daily, day)
    case Some(i) =>
      var r := daily[i := daily[i].AddSession(kind, duration)];
      assert r[i].date == day;
      r
    case None =>
      var r := Take([ZeroDay(day).AddSession(kind, duration)] + daily, MaxDays);
      assert r[0].date == day;
      r
  }

  /**
   * When the day already has an entry, only its first entry is credited and the table keeps
   * its length; otherwise a credited new entry for the day goes to the front and the table is
   * cut to 365 entries.
   */
  lemma DailyAfterCases(daily: seq<DailyStatistics>, day: Day, kind: SessionType, duration: int, i: nat)
    requires i < |daily| && daily[i].date == day
    requires forall j :: 0 <= j < i ==> daily[j].date != day
    ensures DailyAfter(daily, day, kind, duration) == daily[i := daily[i].AddSession(kind, duration)]
  {
  }

  lemma DailyAfterNewDay(daily: seq<DailyStatistics>, day: Day, kind: SessionType, duration: int)
    requires forall j :: 0 <= j < |daily| ==> daily[j].date != day
    ensures var r := DailyAfter(daily, day, kind, duration);
      && r[0] == ZeroDay(day).AddSession(kind, duration)
      && r[1..] == daily[..|r| - 1]
      && |r| == Min(|daily| + 1, MaxDays)
  {
  }

  /**
   * The history after `addCompletedSession(rec)`: the record leads the log, and neither the
   * log nor the per-day table grows past its cap.
   */
  function Recorded(h: SessionHistory, rec: CompletedSession, cal: Calendar): (r: SessionHistory)
    ensures |r.sessions| > 0 && r.sessions[0] == rec
    ensures |r.sessions| <= MaxSessions && |r.dailyStats| <= Max(|h.dailyStats|, MaxDays)
    ensures IndexOfDay(r.dailyStats, DayOf(cal, rec.completedAt)).Some?
  {
    SessionHistory(
      Take([rec] + h.sessions, MaxSessions),
      DailyAfter(h.dailyStats, DayOf(cal, rec.completedAt), rec.kind, rec.duration))
  }

  /**
   * The new record goes to the front of the log, the older ones follow in order, and a full
   * log loses only its oldest record; the day of the record is credited in the aggregates.
   */
  lemma RecordedLog(h: SessionHistory, rec: CompletedSession, cal: Calendar)
    ensures var r := Recorded(h, rec, cal);
      && |r.sessions| == Min(|h.sessions| + 1, MaxSessions)
      && r.sessions[0] == rec
      && r.sessions[1..] == h.sessions[..|r.sessions| - 1]
      && (|h.sessions| >= MaxSessions ==> r.sessions == [rec] + h.sessions[..MaxSessions - 1])
      && r.dailyStats == DailyAfter(h.dailyStats, DayOf(cal, rec.completedAt), rec.kind, rec.duration)
  {
    var r := Recorded(h, rec, cal);
    assert r.sessions == Take([rec] + h.sessions, MaxSessions);
  }

  /** `mutating addCompletedSession(_:)`, step by step as the source does it. */
  method AddCompletedSession(history: SessionHistory, rec: CompletedSession, cal: Calendar)
    returns (h: SessionHistory)
    ensures h == Recorded(history, rec, cal)
  {
    h := history;
    h := h.(sessions := [rec] + h.sessions);
    if |h.sessions| > MaxSessions {
      h := h.(sessions := h.sessions[..MaxSessions]);
    }
    var today := DayOf(cal, rec.completedAt);
    var index := IndexOfDay(h.dailyStats, today);
    if index.Some? {
      var i := index.value;
      h := h.(dailyStats := h.dailyStats[i := h.dailyStats[i].AddSession(rec.kind, rec.duration)]);
    } else {
      var newStats := ZeroDay(today);
      newStats := newStats.AddSession(rec.kind, rec.duration);
      h := h.(dailyStats := [newStats] + h.dailyStats);
      if |h.dailyStats| > MaxDays {
        h := h.(dailyStats := h.dailyStats[..MaxDays]);
      }
    }
  }

  /** Recording several sessions, oldest first. */
  function RecordAll(h: SessionHistory, recs: seq<CompletedSession>, cal: Calendar): SessionHistory {
    if recs == [] then h else Recorded(RecordAll(h, recs[..|recs| - 1], cal), recs[|recs| - 1], cal)
  }

  function Reverse<T>(s: seq<T>): (r: seq<T>)
    ensures |r| == |s|
    ensures forall i :: 0 <= i < |s| ==> r[i] == s[|s| - 1 - i]
  {
    if s == [] then [] else [s[|s| - 1]] + Reverse(s[..|s| - 1])
  }

  /** The log always holds the newest records, newest first, up to the cap. */
  lemma {:induction false} LogKeepsNewest(h: SessionHistory, recs: seq<CompletedSession>, cal: Calendar)
    requires |h.sessions| <= MaxSessions
    ensures RecordAll(h, recs, cal).sessions == Take(Reverse(recs) + h.sessions, MaxSessions)
  {
    if recs == [] {
      assert Reverse(recs) + h.sessions == h.sessions;
    } else {
      var init, last := recs[..|recs| - 1], recs[|recs| - 1];
      assert recs == init + [last];
      LogKeepsNewest(h, init, cal);
      LogStep(h, init, last, cal);
    }
  }

  /** One more record keeps the log equal to the newest records, newest first, cut at the cap. */
  lemma LogStep(h: SessionHistory, init: seq<CompletedSession>, last: CompletedSession, cal: Calendar)
    requires RecordAll(h, init, cal).sessions == Take(Reverse(init) + h.sessions, MaxSessions)
    ensures RecordAll(h, init + [last], cal).sessions == Take(Reverse(init + [last]) + h.sessions, MaxSessions)
  {
    var recs := init + [last];
    var x := Reverse(init) + h.sessions;
    assert RecordAll(h, recs, cal).sessions == Take([last] + x, MaxSessions) by {
      assert recs[..|recs| - 1] == init;
      RecordedSessions(RecordAll(h, init, cal), last, cal);
      TakeCons(last, x, MaxSessions);
    }
    assert [last] + x == Reverse(recs) + h.sessions by {
      ReverseSnoc(init, last);
    }
  }

  lemma RecordedSessions(h: SessionHistory, rec: CompletedSession, cal: Calendar)
    ensures Recorded(h, rec, cal).sessions == Take([rec] + h.sessions, MaxSessions)
  {
  }

  lemma ReverseSnoc<T>(s: seq<T>, x: T)
    ensures Reverse(s + [x]) == [x] + Reverse(s)
  {
    assert (s + [x])[..|s|] == s;
  }

  lemma TakeCons<T>(a: T, s: seq<T>, n: nat)
    requires n >= 1
    ensures Take([a] + Take(s, n), n) == Take([a] + s, n)
  {
    if |s| > n {
      assert ([a] + s)[..n] == [a] + s[..n - 1];
      assert ([a] + s[..n])[..n] == [a] + s[..n - 1];
    }
  }

  /**
   * Two records of the same day touch one aggregate row and add at most one: after the first,
   * the day has a row `k`, and the second credits exactly that row, whatever the table's size.
   */
  lemma SameDayOneRow(h: SessionHistory, r1: CompletedSession, r2: CompletedSession, cal: Calendar)
    requires DayOf(cal, r1.completedAt) == DayOf(cal, r2.completedAt)
    ensures var d1 := Recorded(h, r1, cal).dailyStats;
      var d2 := Recorded(Recorded(h, r1, cal), r2, cal).dailyStats;
      var day := DayOf(cal, r1.completedAt);
      && |d2| == |d1| <= |h.dailyStats| + 1
      && IndexOfDay(d1, day).Some?
      && d2 == d1[IndexOfDay(d1, day).value := d1[IndexOfDay(d1, day).value].AddSession(r2.kind, r2.duration)]
  {
    var day := DayOf(cal, r1.completedAt);
    var d1 := Recorded(h, r1, cal).dailyStats;
    match IndexOfDay(h.dailyStats, day)
    case Some(i) =>
      assert d1[i].date == day;
    case None =>
      assert d1[0].date == day;
  }
}
