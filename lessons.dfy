/**
 * The lesson records the reminder scheduler reads, the two reminder
 * thresholds, the tolerance window around each, and a value-level
 * description of what one polling pass does to the records.
 * Timestamps are whole seconds, so date arithmetic is exact.
 */
module Lessons {
  import opened Handles

  /** Half-width of the tolerance window around each reminder moment, in seconds. */
  const ToleranceSeconds: int := 60

  /** The two reminders: one hour before the start and five minutes before it. */
  datatype Threshold = OneHour | FiveMinutes {
    /** How long before the start of the lesson the reminder is due, in seconds. */
    function LeadSeconds(): int {
      match this
      case OneHour => 3600
      case FiveMinutes => 300
    }

    function Other(): Threshold {
      match this
      case OneHour => FiveMinutes
      case FiveMinutes => OneHour
    }
  }

  /** One row of the lesson table. */
  datatype Lesson = Lesson(
    id: int,
    studentName: string,
    tgUsername: string,
    startTime: int,
    notifiedOneHour: bool,
    notifiedFiveMinutes: bool,
    createdAt: int,
    updatedAt: int)
  {
    /** The flag that records that the reminder for `th` was sent. */
    predicate Notified(th: Threshold) {
      match th
      case OneHour => notifiedOneHour
      case FiveMinutes => notifiedFiveMinutes
    }

    /**
     * The record as saved after a successful send: the flag of `th` is set
     * and `updated_at` is stamped; only those two columns are written.
     */
    function MarkNotified(th: Threshold, at: int): (r: Lesson)
      ensures r.Notified(th) && r.updatedAt == at
      ensures SameExcept(this, r, th)
    {
      match th
      case OneHour => this.(notifiedOneHour := true, updatedAt := at)
      case FiveMinutes => this.(notifiedFiveMinutes := true, updatedAt := at)
    }
  }

  /**
   * `a` and `b` agree on every column except the flag of `th` and
   * `updated_at`; in particular the other threshold's flag is the same.
   */
  predicate SameExcept(a: Lesson, b: Lesson, th: Threshold) {
    a.id == b.id && a.studentName == b.studentName && a.tgUsername == b.tgUsername &&
    a.startTime == b.startTime && a.createdAt == b.createdAt &&
    a.Notified(th.Other()) == b.Notified(th.Other())
  }

  /** A record as the lesson form saves it: both reminders still pending. */
  function NewLesson(id: int, studentName: string, tgUsername: string, startTime: int, createdAt: int): (l: Lesson)
    ensures !l.Notified(OneHour) && !l.Notified(FiveMinutes)
    ensures l.startTime == startTime && l.studentName == studentName && l.tgUsername == tgUsername
  {
    Lesson(id, studentName, tgUsername, startTime, false, false, createdAt, createdAt)
  }

  /** Earliest start time the query for `th` accepts at `now`: (now - 60 s) + lead. */
  function WindowLow(now: int, th: Threshold): int {
    (now - ToleranceSeconds) + th.LeadSeconds()
  }

  /** Latest start time the query for `th` accepts at `now`: (now + 60 s) + lead. */
  function WindowHigh(now: int, th: Threshold): int {
    (now + ToleranceSeconds) + th.LeadSeconds()
  }

  /** The filter of the query for `th`: start time in the closed window and flag still false. */
  predicate Due(l: Lesson, now: int, th: Threshold) {
    !l.Notified(th) && WindowLow(now, th) <= l.startTime && l.startTime <= WindowHigh(now, th)
  }

  /** Both ends of the window are inclusive and nothing beyond them is accepted. */
  lemma WindowEdges(l: Lesson, now: int, th: Threshold)
    requires !l.Notified(th)
    ensures l.startTime == now + th.LeadSeconds() + 60 ==> Due(l, now, th)
    ensures l.startTime == now + th.LeadSeconds() - 60 ==> Due(l, now, th)
    ensures l.startTime == now + th.LeadSeconds() + 61 ==> !Due(l, now, th)
    ensures l.startTime == now + th.LeadSeconds() - 61 ==> !Due(l, now, th)
  {
  }

  /**
   * Positions, in store order, of the records from `from` on that the query
   * for `th` selects at `now`.
   */
  function DueFrom(ls: seq<Lesson>, now: int, th: Threshold, from: nat): (r: seq<nat>)
    requires from <= |ls|
    ensures forall k :: 0 <= k < |r| ==> from <= r[k] < |ls| && Due(ls[r[k]], now, th)
    ensures forall k, j :: 0 <= k < j < |r| ==> r[k] < r[j]
    decreases |ls| - from
  {
    if from == |ls| then []
    else if Due(ls[from], now, th) then [from] + DueFrom(ls, now, th, from + 1)
    else DueFrom(ls, now, th, from + 1)
  }

  /** Positions of all records the query for `th` selects at `now`. */
  function Selected(ls: seq<Lesson>, now: int, th: Threshold): seq<nat> {
    DueFrom(ls, now, th, 0)
  }

  lemma {:induction false} DueFromComplete(ls: seq<Lesson>, now: int, th: Threshold, from: nat, i: nat)
    requires from <= i < |ls| && Due(ls[i], now, th)
    ensures i in DueFrom(ls, now, th, from)
    decreases |ls| - from
  {
    if from < i {
      DueFromComplete(ls, now, th, from + 1, i);
    }
  }

  /** The query selects a record exactly when its flag is false and its start lies in the window. */
  lemma SelectedIff(ls: seq<Lesson>, now: int, th: Threshold, i: int)
    ensures i in Selected(ls, now, th) <==> 0 <= i < |ls| && Due(ls[i], now, th)
  {
    if 0 <= i < |ls| && Due(ls[i], now, th) {
      DueFromComplete(ls, now, th, 0, i);
    }
  }

  /** The one-hour query, with the constants written out. */
  lemma OneHourSelection(ls: seq<Lesson>, now: int, i: int)
    ensures i in Selected(ls, now, OneHour) <==>
              0 <= i < |ls| && !ls[i].notifiedOneHour &&
              now + 3600 - 60 <= ls[i].startTime <= now + 3600 + 60
  {
    SelectedIff(ls, now, OneHour, i);
  }

  /** The five-minute query, with the constants written out. */
  lemma FiveMinuteSelection(ls: seq<Lesson>, now: int, i: int)
    ensures i in Selected(ls, now, FiveMinutes) <==>
              0 <= i < |ls| && !ls[i].notifiedFiveMinutes &&
              now + 300 - 60 <= ls[i].startTime <= now + 300 + 60
  {
    SelectedIff(ls, now, FiveMinutes, i);
  }

  /**
   * The text of a reminder, kept abstract: which reminder it is, the start
   * time it shows, the student's name and the formatted handle.
   */
  datatype Message = Message(th: Threshold, startTime: int, studentName: string, handle: string)

  function Reminder(l: Lesson, th: Threshold): Message {
    Message(th, l.startTime, l.studentName, FormatUsername(l.tgUsername))
  }

  /** The reminders of the records at positions `sel`, in that order. */
  function Reminders(ls: seq<Lesson>, th: Threshold, sel: seq<nat>): (r: seq<Message>)
    requires forall k :: 0 <= k < |sel| ==> sel[k] < |ls|
    ensures |r| == |sel|
    decreases |sel|
  {
    if sel == [] then []
    else Reminders(ls, th, sel[..|sel| - 1]) + [Reminder(ls[sel[|sel| - 1]], th)]
  }

  /** The k-th reminder is the one for the k-th position: one per position, in order. */
  lemma {:induction false} RemindersAt(ls: seq<Lesson>, th: Threshold, sel: seq<nat>, k: nat)
    requires forall j :: 0 <= j < |sel| ==> sel[j] < |ls|
    requires k < |sel|
    ensures Reminders(ls, th, sel)[k] == Reminder(ls[sel[k]], th)
    decreases |sel|
  {
    if k < |sel| - 1 {
      RemindersAt(ls, th, sel[..|sel| - 1], k);
    }
  }

  /**
   * How handling one selected record ended: the sender reported failure,
   * the message went out but saving the flag raised (and was swallowed),
   * or the flag was saved with `updated_at` stamped `at`.
   */
  datatype Outcome = NotDelivered | SaveFailed | Recorded(at: int) {
    predicate Delivered() { !NotDelivered? }
  }

  /** One record handled by a pass: its position in the store and how it ended. */
  datatype Attempt = Attempt(index: nat, outcome: Outcome)

  predicate InRange(report: seq<Attempt>, n: nat) {
    forall k :: 0 <= k < |report| ==> report[k].index < n
  }

  /** The report handles exactly the selected records, in the order selected. */
  predicate Covers(report: seq<Attempt>, sel: seq<nat>) {
    |report| == |sel| && forall k :: 0 <= k < |report| ==> report[k].index == sel[k]
  }

  /** Some attempt in `report` saved the flag of the record at position `i`. */
  predicate RecordedFor(report: seq<Attempt>, i: nat) {
    exists k :: 0 <= k < |report| && report[k].index == i && report[k].outcome.Recorded?
  }

  function Apply(ls: seq<Lesson>, th: Threshold, a: Attempt): (r: seq<Lesson>)
    requires a.index < |ls|
    ensures |r| == |ls|
  {
    if a.outcome.Recorded? then ls[a.index := ls[a.index].MarkNotified(th, a.outcome.at)] else ls
  }

  /** The records after the attempts of `report`, applied in order, have been saved. */
  function ApplyAll(ls: seq<Lesson>, th: Threshold, report: seq<Attempt>): (r: seq<Lesson>)
    requires InRange(report, |ls|)
    ensures |r| == |ls|
    decreases |report|
  {
    if report == [] then ls
    else Apply(ApplyAll(ls, th, report[..|report| - 1]), th, report[|report| - 1])
  }

  /** The reminders the sender accepted during the attempts of `report`, in order. */
  function Deliveries(ls: seq<Lesson>, th: Threshold, report: seq<Attempt>): (r: seq<Message>)
    requires InRange(report, |ls|)
    ensures |r| <= |report|
    decreases |report|
  {
    if report == [] then []
    else
      var last := report[|report| - 1];
      Deliveries(ls, th, report[..|report| - 1]) +
      (if last.outcome.Delivered() then [Reminder(ls[last.index], th)] else [])
  }

  /**
   * What the attempts do to one record: a record no attempt saved is left
   * exactly as it was; a record some attempt saved has the flag of `th` set
   * and every other column except `updated_at` unchanged.
   */
  lemma {:induction false} ApplyAllAt(ls: seq<Lesson>, th: Threshold, report: seq<Attempt>, i: nat)
    requires InRange(report, |ls|) && i < |ls|
    ensures !RecordedFor(report, i) ==> ApplyAll(ls, th, report)[i] == ls[i]
    ensures RecordedFor(report, i) ==>
              ApplyAll(ls, th, report)[i].Notified(th) && SameExcept(ls[i], ApplyAll(ls, th, report)[i], th)
    decreases |report|
  {
    if report != [] {
      var front := report[..|report| - 1];
      var last := report[|report| - 1];
      ApplyAllAt(ls, th, front, i);
      if RecordedFor(report, i) && !RecordedFor(front, i) {
        assert last.index == i && last.outcome.Recorded?;
      }
      if RecordedFor(front, i) {
        var k :| 0 <= k < |front| && front[k].index == i && front[k].outcome.Recorded?;
        assert report[k] == front[k];
      }
    }
  }

  /** Appending one attempt to a report applies it last and adds its delivery last. */
  lemma ExtendReport(ls: seq<Lesson>, th: Threshold, report: seq<Attempt>, a: Attempt)
    requires InRange(report, |ls|) && a.index < |ls|
    ensures InRange(report + [a], |ls|)
    ensures ApplyAll(ls, th, report + [a]) == Apply(ApplyAll(ls, th, report), th, a)
    ensures Deliveries(ls, th, report + [a]) ==
              Deliveries(ls, th, report) + (if a.outcome.Delivered() then [Reminder(ls[a.index], th)] else [])
  {
  }

  /**
   * While a pass walks the selected positions in order, the record it is
   * about to handle has not been touched by the attempts before it.
   */
  lemma NextRecordUntouched(ls: seq<Lesson>, th: Threshold, report: seq<Attempt>, sel: seq<nat>, n: nat)
    requires n < |sel| && |report| == n && InRange(report, |ls|) && sel[n] < |ls|
    requires forall k :: 0 <= k < n ==> report[k].index == sel[k]
    requires forall x, y :: 0 <= x < y < |sel| ==> sel[x] < sel[y]
    ensures ApplyAll(ls, th, report)[sel[n]] == ls[sel[n]]
  {
    assert forall k :: 0 <= k < |report| ==> report[k].index < sel[n];
    ApplyAllAt(ls, th, report, sel[n]);
  }

  /** A pass only ever sets flags: a record whose flag was set keeps it. */
  lemma ApplyAllKeepsFlags(ls: seq<Lesson>, th: Threshold, report: seq<Attempt>, i: nat, t: Threshold)
    requires InRange(report, |ls|) && i < |ls| && ls[i].Notified(t)
    ensures ApplyAll(ls, th, report)[i].Notified(t)
  {
  }

  /**
   * A flag goes from false to true only for a record whose send succeeded
   * and whose save went through; a record left out of the report is untouched.
   */
  lemma FlagSetOnlyAfterDelivery(ls: seq<Lesson>, th: Threshold, report: seq<Attempt>, i: nat)
    requires InRange(report, |ls|) && i < |ls|
    requires !ls[i].Notified(th) && ApplyAll(ls, th, report)[i].Notified(th)
    ensures exists k :: 0 <= k < |report| && report[k].index == i && report[k].outcome.Delivered()
  {
    ApplyAllAt(ls, th, report, i);
    var k :| 0 <= k < |report| && report[k].index == i && report[k].outcome.Recorded?;
  }

  /** A pass for `th` selects the same records for the other threshold afterwards as before. */
  lemma ApplyAllKeepsOtherSelection(ls: seq<Lesson>, th: Threshold, report: seq<Attempt>, now: int)
    requires InRange(report, |ls|)
    ensures Selected(ApplyAll(ls, th, report), now, th.Other()) == Selected(ls, now, th.Other())
  {
    var after := ApplyAll(ls, th, report);
    forall i | 0 <= i < |ls|
      ensures Due(after[i], now, th.Other()) == Due(ls[i], now, th.Other())
    {
      ApplyAllAt(ls, th, report, i);
      assert th.Other().Other() == th;
    }
    SameDueSameSelection(ls, after, now, th.Other(), 0);
  }

  lemma {:induction false} SameDueSameSelection(a: seq<Lesson>, b: seq<Lesson>, now: int, th: Threshold, from: nat)
    requires |a| == |b| && from <= |a|
    requires forall i :: 0 <= i < |a| ==> Due(a[i], now, th) == Due(b[i], now, th)
    ensures DueFrom(a, now, th, from) == DueFrom(b, now, th, from)
    decreases |a| - from
  {
    if from < |a| {
      SameDueSameSelection(a, b, now, th, from + 1);
    }
  }

  /**
   * Repeating a pass with the same `now` selects exactly the records of the
   * first pass that were not recorded: a delivered and saved reminder is
   * never attempted again, a failed one is attempted again.
   */
  lemma RepeatedPassRetriesOnlyUnrecorded(ls: seq<Lesson>, now: int, th: Threshold, report: seq<Attempt>, i: nat)
    requires Covers(report, Selected(ls, now, th))
    ensures InRange(report, |ls|)
    ensures i in Selected(ApplyAll(ls, th, report), now, th) <==>
              i in Selected(ls, now, th) && !RecordedFor(report, i)
  {
    var after := ApplyAll(ls, th, report);
    SelectedIff(ls, now, th, i);
    SelectedIff(after, now, th, i);
    if i < |ls| {
      ApplyAllAt(ls, th, report, i);
    }
  }

  /**
   * A record the query does not select (outside the window, or already
   * flagged) gets no attempt, so no message and no change.
   */
  lemma UnselectedUntouched(ls: seq<Lesson>, now: int, th: Threshold, report: seq<Attempt>, i: nat)
    requires Covers(report, Selected(ls, now, th))
    requires i < |ls| && !Due(ls[i], now, th)
    ensures InRange(report, |ls|)
    ensures forall k :: 0 <= k < |report| ==> report[k].index != i
    ensures ApplyAll(ls, th, report)[i] == ls[i]
  {
    var sel := Selected(ls, now, th);
    SelectedIff(ls, now, th, i);
    assert forall k :: 0 <= k < |report| ==> report[k].index == sel[k] && sel[k] in sel;
    ApplyAllAt(ls, th, report, i);
  }
}
