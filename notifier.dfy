/**
 * The reminder scheduler's polling cycle over an in-memory lesson store and
 * a message gateway whose answers are not known in advance.
 */
module Notifier {
  import opened Options
  import opened Lessons
  import opened Runs

  /** A call the scheduler made on the lesson table, and whether it went through. */
  datatype StoreCall =
    | Query(now: int, th: Threshold, ok: bool)
    | Save(index: nat, th: Threshold, ok: bool)

  /**
   * The lesson table. Reading it or saving to it may raise; a raised query
   * and a raised save are the two failures the cycle has to absorb.
   * `calls` records every query and save issued, with its result.
   */
  class LessonStore {
    var lessons: seq<Lesson>
    ghost var calls: seq<StoreCall>

    constructor (initial: seq<Lesson>)
      ensures lessons == initial && calls == []
    {
      lessons := initial;
      calls := [];
    }

    /**
     * The filtered query for `th` at `now`. `None` stands for a query that
     * raised (a stale or unavailable connection).
     */
    method Select(now: int, th: Threshold) returns (r: Option<seq<nat>>)
      modifies this`calls
      ensures r.Some? ==> r.value == Selected(lessons, now, th)
      ensures calls == old(calls) + [Query(now, th, r.Some?)]
    {
      var available: bool := *;
      r := if available then Some(Selected(lessons, now, th)) else None;
      calls := calls + [Query(now, th, available)];
    }

    /**
     * Saves the flag of `th` and `updated_at` of the record at position `i`.
     * On success `at` is the clock reading stamped into `updated_at`, no
     * earlier than `now`; a save that raises changes nothing.
     */
    method SaveNotified(i: nat, th: Threshold, now: int) returns (saved: bool, at: int)
      requires i < |lessons|
      modifies this
      ensures saved ==> now <= at && lessons == old(lessons)[i := old(lessons)[i].MarkNotified(th, at)]
      ensures !saved ==> lessons == old(lessons)
      ensures calls == old(calls) + [Save(i, th, saved)]
    {
      saved := *;
      var clock: int :| now <= clock;
      at := clock;
      if saved {
        lessons := lessons[i := lessons[i].MarkNotified(th, at)];
      }
      calls := calls + [Save(i, th, saved)];
    }
  }

  /**
   * The messaging gateway. Every message goes to the one configured chat;
   * `offered` holds every message handed to it, `log` the ones it accepted,
   * both in order.
   */
  class Gateway {
    var log: seq<Message>
    ghost var offered: seq<Message>

    constructor ()
      ensures log == [] && offered == []
    {
      log := [];
      offered := [];
    }

    /** Sends `msg`; `ok` is false when the network or the messaging API failed. */
    method Send(msg: Message) returns (ok: bool)
      modifies this
      ensures offered == old(offered) + [msg]
      ensures log == if ok then old(log) + [msg] else old(log)
    {
      ok := *;
      offered := offered + [msg];
      if ok {
        log := log + [msg];
      }
    }
  }

  /** The saves a pass issues: one for each attempt whose send succeeded, in order. */
  function SaveCalls(report: seq<Attempt>, th: Threshold): (r: seq<StoreCall>)
    ensures |r| <= |report|
    decreases |report|
  {
    if report == [] then []
    else
      var last := report[|report| - 1];
      SaveCalls(report[..|report| - 1], th) +
      (if last.outcome.Delivered() then [Save(last.index, th, last.outcome.Recorded?)] else [])
  }

  /**
   * The per-lesson block of a pass: build the reminder, send it, and only if
   * the send succeeded set the flag and save it. A save that raises is
   * swallowed, so whatever happens the pass goes on with the next record.
   */
  method HandleLesson(store: LessonStore, gateway: Gateway, i: nat, now: int, th: Threshold)
    returns (attempt: Attempt)
    requires i < |store.lessons|
    modifies store, gateway
    ensures attempt.index == i
    ensures attempt.outcome.Recorded? ==> now <= attempt.outcome.at
    ensures gateway.offered == old(gateway.offered) + [Reminder(old(store.lessons)[i], th)]
    ensures gateway.log == old(gateway.log) +
              (if attempt.outcome.Delivered() then [Reminder(old(store.lessons)[i], th)] else [])
    ensures store.calls == old(store.calls) +
              (if attempt.outcome.Delivered() then [Save(i, th, attempt.outcome.Recorded?)] else [])
    ensures store.lessons == Apply(old(store.lessons), th, attempt)
  {
    var msg := Reminder(store.lessons[i], th);
    var delivered := gateway.Send(msg);
    if !delivered {
      return Attempt(i, NotDelivered);
    }
    var saved, at := store.SaveNotified(i, th, now);
    attempt := Attempt(i, if saved then Recorded(at) else SaveFailed);
  }

  /** Appending one attempt appends its save, if its send succeeded. */
  lemma SaveCallsExtend(report: seq<Attempt>, th: Threshold, a: Attempt)
    ensures SaveCalls(report + [a], th) ==
              SaveCalls(report, th) + (if a.outcome.Delivered() then [Save(a.index, th, a.outcome.Recorded?)] else [])
  {
    assert (report + [a])[..|report|] == report;
  }

  /** Appending one position appends its reminder. */
  lemma RemindersExtend(ls: seq<Lesson>, th: Threshold, sel: seq<nat>, n: nat)
    requires n < |sel| && forall k :: 0 <= k < |sel| ==> sel[k] < |ls|
    ensures Reminders(ls, th, sel[..n + 1]) == Reminders(ls, th, sel[..n]) + [Reminder(ls[sel[n]], th)]
  {
    assert sel[..n + 1][..n] == sel[..n];
  }

  /**
   * Where a pass stands in the table after handling the attempts `done` of
   * the selected positions `due`: each attempt is the next selected
   * position, and the table is what those attempts made of it.
   */
  ghost predicate PassTable(before: seq<Lesson>, th: Threshold, due: seq<nat>, done: seq<Attempt>, lessons: seq<Lesson>)
  {
    |done| <= |due| && (forall k :: 0 <= k < |due| ==> due[k] < |before|) &&
    (forall k :: 0 <= k < |done| ==> done[k].index == due[k]) &&
    InRange(done, |before|) &&
    lessons == ApplyAll(before, th, done)
  }

  /**
   * Where a pass stands in the logs: the sender's two logs and the store's
   * call log are those the attempts `done` produce from the starting values.
   */
  ghost predicate PassLogs(before: seq<Lesson>, th: Threshold, due: seq<nat>, done: seq<Attempt>,
                           log0: seq<Message>, log: seq<Message>,
                           offered0: seq<Message>, offered: seq<Message>,
                           calls0: seq<StoreCall>, calls: seq<StoreCall>)
  {
    |done| <= |due| && (forall k :: 0 <= k < |due| ==> due[k] < |before|) &&
    InRange(done, |before|) &&
    log == log0 + Deliveries(before, th, done) &&
    offered == offered0 + Reminders(before, th, due[..|done|]) &&
    calls == calls0 + SaveCalls(done, th)
  }

  /** Handling the next selected position as the per-lesson block does extends the table trace by one attempt. */
  lemma PassTableStep(before: seq<Lesson>, th: Threshold, due: seq<nat>, done: seq<Attempt>, lessons: seq<Lesson>,
                      attempt: Attempt, lessons': seq<Lesson>)
    requires PassTable(before, th, due, done, lessons)
    requires |done| < |due| && attempt.index == due[|done|]
    requires lessons' == Apply(lessons, th, attempt)
    ensures PassTable(before, th, due, done + [attempt], lessons')
  {
    ExtendReport(before, th, done, attempt);
  }

  /** The sender's delivered log gains the next record's reminder exactly when its send succeeded. */
  lemma DeliveredLogStep(before: seq<Lesson>, th: Threshold, due: seq<nat>, done: seq<Attempt>, lessons: seq<Lesson>,
                         log0: seq<Message>, log: seq<Message>, attempt: Attempt, log': seq<Message>)
    requires PassTable(before, th, due, done, lessons)
    requires forall x, y :: 0 <= x < y < |due| ==> due[x] < due[y]
    requires |done| < |due| && attempt.index == due[|done|]
    requires log == log0 + Deliveries(before, th, done)
    requires log' == log + (if attempt.outcome.Delivered() then [Reminder(lessons[attempt.index], th)] else [])
    ensures InRange(done + [attempt], |before|)
    ensures log' == log0 + Deliveries(before, th, done + [attempt])
  {
    NextRecordUntouched(before, th, done, due, |done|);
    ExtendReport(before, th, done, attempt);
    var sent := if attempt.outcome.Delivered() then [Reminder(before[attempt.index], th)] else [];
    assert log' == log0 + (Deliveries(before, th, done) + sent);
  }

  /** The sender is offered the next record's reminder, whatever happens next. */
  lemma OfferedLogStep(before: seq<Lesson>, th: Threshold, due: seq<nat>, done: seq<Attempt>, lessons: seq<Lesson>,
                       offered0: seq<Message>, offered: seq<Message>, attempt: Attempt, offered': seq<Message>)
    requires PassTable(before, th, due, done, lessons)
    requires forall x, y :: 0 <= x < y < |due| ==> due[x] < due[y]
    requires |done| < |due| && attempt.index == due[|done|]
    requires offered == offered0 + Reminders(before, th, due[..|done|])
    requires offered' == offered + [Reminder(lessons[attempt.index], th)]
    ensures offered' == offered0 + Reminders(before, th, due[..|done| + 1])
  {
    var n := |done|;
    NextRecordUntouched(before, th, done, due, n);
    RemindersExtend(before, th, due, n);
    assert offered' == offered0 + (Reminders(before, th, due[..n]) + [Reminder(before[due[n]], th)]);
  }

  /** The store's call log gains a save of the next record exactly when its send succeeded. */
  lemma CallsLogStep(th: Threshold, done: seq<Attempt>, calls0: seq<StoreCall>, calls: seq<StoreCall>,
                     attempt: Attempt, calls': seq<StoreCall>)
    requires calls == calls0 + SaveCalls(done, th)
    requires calls' == calls +
               (if attempt.outcome.Delivered() then [Save(attempt.index, th, attempt.outcome.Recorded?)] else [])
    ensures calls' == calls0 + SaveCalls(done + [attempt], th)
  {
    SaveCallsExtend(done, th, attempt);
    var saves := if attempt.outcome.Delivered() then [Save(attempt.index, th, attempt.outcome.Recorded?)] else [];
    assert calls' == calls0 + (SaveCalls(done, th) + saves);
  }

  /** Handling the next selected position as the per-lesson block does extends the log trace by one attempt. */
  lemma PassLogsStep(before: seq<Lesson>, th: Threshold, due: seq<nat>, done: seq<Attempt>, lessons: seq<Lesson>,
                     log0: seq<Message>, log: seq<Message>,
                     offered0: seq<Message>, offered: seq<Message>,
                     calls0: seq<StoreCall>, calls: seq<StoreCall>,
                     attempt: Attempt, log': seq<Message>, offered': seq<Message>, calls': seq<StoreCall>)
    requires PassTable(before, th, due, done, lessons)
    requires PassLogs(before, th, due, done, log0, log, offered0, offered, calls0, calls)
    requires forall x, y :: 0 <= x < y < |due| ==> due[x] < due[y]
    requires |done| < |due| && attempt.index == due[|done|]
    requires log' == log + (if attempt.outcome.Delivered() then [Reminder(lessons[attempt.index], th)] else [])
    requires offered' == offered + [Reminder(lessons[attempt.index], th)]
    requires calls' == calls +
               (if attempt.outcome.Delivered() then [Save(attempt.index, th, attempt.outcome.Recorded?)] else [])
    ensures PassLogs(before, th, due, done + [attempt], log0, log', offered0, offered', calls0, calls')
  {
    DeliveredLogStep(before, th, due, done, lessons, log0, log, attempt, log');
    OfferedLogStep(before, th, due, done, lessons, offered0, offered, attempt, offered');
    CallsLogStep(th, done, calls0, calls, attempt, calls');
  }

  /**
   * The loop over the query's result: every position in `due` is handled
   * in turn, whatever happened to the ones before it.
   */
  method HandleAll(store: LessonStore, gateway: Gateway, due: seq<nat>, now: int, th: Threshold)
    returns (done: seq<Attempt>)
    requires forall k :: 0 <= k < |due| ==> due[k] < |store.lessons|
    requires forall x, y :: 0 <= x < y < |due| ==> due[x] < due[y]
    modifies store, gateway
    ensures |done| == |due| && forall k :: 0 <= k < |due| ==> done[k].index == due[k]
    ensures InRange(done, |old(store.lessons)|)
    ensures store.lessons == ApplyAll(old(store.lessons), th, done)
    ensures gateway.log == old(gateway.log) + Deliveries(old(store.lessons), th, done)
    ensures gateway.offered == old(gateway.offered) + Reminders(old(store.lessons), th, due)
    ensures store.calls == old(store.calls) + SaveCalls(done, th)
  {
    ghost var before := store.lessons;
    ghost var log0, offered0, calls0 := gateway.log, gateway.offered, store.calls;
    done := [];
    for n := 0 to |due|
      invariant |done| == n
      invariant PassTable(before, th, due, done, store.lessons)
      invariant PassLogs(before, th, due, done, log0, gateway.log, offered0, gateway.offered, calls0, store.calls)
    {
      ghost var lessons, log, offered, calls := store.lessons, gateway.log, gateway.offered, store.calls;
      var attempt := HandleLesson(store, gateway, due[n], now, th);
      PassLogsStep(before, th, due, done, lessons, log0, log, offered0, offered, calls0, calls,
                   attempt, gateway.log, gateway.offered, store.calls);
      PassTableStep(before, th, due, done, lessons, attempt, store.lessons);
      done := done + [attempt];
    }
    assert due[..|due|] == due;
  }

  /**
   * One threshold's part of a polling cycle: query the due records, and for
   * each send its reminder and, only if the send succeeded, save its flag.
   * A failure on one record never stops the others. `None` means the query
   * itself raised and nothing was sent or saved.
   */
  method RunPass(store: LessonStore, gateway: Gateway, now: int, th: Threshold)
    returns (report: Option<seq<Attempt>>)
    modifies store, gateway
    ensures report.None? ==>
              store.lessons == old(store.lessons) && gateway.log == old(gateway.log) &&
              gateway.offered == old(gateway.offered) &&
              store.calls == old(store.calls) + [Query(now, th, false)]
    ensures report.Some? ==> Covers(report.value, Selected(old(store.lessons), now, th))
    ensures report.Some? ==> InRange(report.value, |old(store.lessons)|)
    ensures report.Some? ==>
              gateway.offered == old(gateway.offered) + Reminders(old(store.lessons), th, Selected(old(store.lessons), now, th))
    ensures report.Some? ==> store.lessons == ApplyAll(old(store.lessons), th, report.value)
    ensures report.Some? ==> gateway.log == old(gateway.log) + Deliveries(old(store.lessons), th, report.value)
    ensures report.Some? ==> store.calls == old(store.calls) + [Query(now, th, true)] + SaveCalls(report.value, th)
  {
    var selected := store.Select(now, th);
    if selected.None? {
      return None;
    }
    var done := HandleAll(store, gateway, selected.value, now, th);
    report := Some(done);
  }

  /**
   * One polling cycle at `now`: the one-hour pass, then the five-minute pass.
   * A query that raises abandons the rest of the cycle; the next cycle starts
   * afresh.
   */
  method RunCycle(store: LessonStore, gateway: Gateway, now: int)
    returns (oneHour: Option<seq<Attempt>>, fiveMinutes: Option<seq<Attempt>>)
    modifies store, gateway
    ensures oneHour.None? ==>
              fiveMinutes.None? && store.lessons == old(store.lessons) && gateway.log == old(gateway.log) &&
              gateway.offered == old(gateway.offered) &&
              store.calls == old(store.calls) + [Query(now, OneHour, false)]
    ensures oneHour.Some? ==>
              store.calls == old(store.calls) + [Query(now, OneHour, true)] + SaveCalls(oneHour.value, OneHour)
                + [Query(now, FiveMinutes, fiveMinutes.Some?)]
                + (if fiveMinutes.Some? then SaveCalls(fiveMinutes.value, FiveMinutes) else [])
    ensures oneHour.Some? ==> Covers(oneHour.value, Selected(old(store.lessons), now, OneHour))
    ensures fiveMinutes.Some? ==> Covers(fiveMinutes.value, Selected(old(store.lessons), now, FiveMinutes))
    ensures oneHour.Some? ==>
              InRange(oneHour.value, |old(store.lessons)|) &&
              var mid := ApplyAll(old(store.lessons), OneHour, oneHour.value);
              var offeredOneHour := old(gateway.offered) +
                Reminders(old(store.lessons), OneHour, Selected(old(store.lessons), now, OneHour));
              if fiveMinutes.Some? then
                InRange(fiveMinutes.value, |mid|) &&
                store.lessons == ApplyAll(mid, FiveMinutes, fiveMinutes.value) &&
                gateway.offered == offeredOneHour + Reminders(mid, FiveMinutes, Selected(mid, now, FiveMinutes)) &&
                gateway.log == old(gateway.log) + Deliveries(old(store.lessons), OneHour, oneHour.value)
                                                + Deliveries(mid, FiveMinutes, fiveMinutes.value)
              else
                store.lessons == mid &&
                gateway.offered == offeredOneHour &&
                gateway.log == old(gateway.log) + Deliveries(old(store.lessons), OneHour, oneHour.value)
    ensures oneHour.Some? && fiveMinutes.None? ==>
              var run := [Pass(now, OneHour, oneHour.value)];
              ValidRun(old(store.lessons), run) && store.lessons == AfterRun(old(store.lessons), run)
    ensures oneHour.Some? && fiveMinutes.Some? ==>
              var run := [Pass(now, OneHour, oneHour.value), Pass(now, FiveMinutes, fiveMinutes.value)];
              ValidRun(old(store.lessons), run) && store.lessons == AfterRun(old(store.lessons), run)
  {
    ghost var start := store.lessons;
    oneHour := RunPass(store, gateway, now, OneHour);
    if oneHour.None? {
      fiveMinutes := None;
      return;
    }
    ghost var mid := ApplyAll(start, OneHour, oneHour.value);
    ApplyAllKeepsOtherSelection(start, OneHour, oneHour.value, now);
    fiveMinutes := RunPass(store, gateway, now, FiveMinutes);
    if fiveMinutes.Some? {
      var run := [Pass(now, OneHour, oneHour.value), Pass(now, FiveMinutes, fiveMinutes.value)];
      assert run[1..] == [run[1]] && run[1..][1..] == [];
      assert ValidRun(ApplyAll(mid, FiveMinutes, fiveMinutes.value), []);
      assert ValidRun(mid, run[1..]);
      assert AfterRun(mid, run[1..]) == AfterRun(ApplyAll(mid, FiveMinutes, fiveMinutes.value), []);
      assert AfterRun(start, run) == AfterRun(mid, run[1..]);
    } else {
      var run := [Pass(now, OneHour, oneHour.value)];
      assert run[1..] == [];
      assert ValidRun(mid, run[1..]);
      assert AfterRun(start, run) == AfterRun(mid, []);
    }
  }
}
