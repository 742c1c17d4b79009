/**
 * Many polling passes in a row, over records that only the scheduler
 * changes: each reminder is recorded at most once per lesson and threshold,
 * and a lesson's flag is set exactly when its reminder was recorded.
 */
module Runs {
  import opened Lessons

  /** One pass of one threshold at `now`, with what happened to each selected record. */
  datatype Pass = Pass(now: int, th: Threshold, report: seq<Attempt>)

  /**
   * Every pass handled exactly the records its query selected from the
   * records as the earlier passes left them.
   */
  predicate ValidRun(ls: seq<Lesson>, run: seq<Pass>)
    decreases |run|
  {
    run == [] ||
    (Covers(run[0].report, Selected(ls, run[0].now, run[0].th)) &&
     InRange(run[0].report, |ls|) &&
     ValidRun(ApplyAll(ls, run[0].th, run[0].report), run[1..]))
  }

  /** The records after every pass of a valid run. */
  function AfterRun(ls: seq<Lesson>, run: seq<Pass>): (r: seq<Lesson>)
    requires ValidRun(ls, run)
    ensures |r| == |ls|
    decreases |run|
  {
    if run == [] then ls
    else AfterRun(ApplyAll(ls, run[0].th, run[0].report), run[1..])
  }

  /**
   * Runs compose: a valid run followed by a valid run from where it left
   * off is one valid run, so successive polling cycles form a single run.
   */
  lemma {:induction false} RunsCompose(ls: seq<Lesson>, r1: seq<Pass>, r2: seq<Pass>)
    requires ValidRun(ls, r1) && ValidRun(AfterRun(ls, r1), r2)
    ensures ValidRun(ls, r1 + r2)
    ensures AfterRun(ls, r1 + r2) == AfterRun(AfterRun(ls, r1), r2)
    decreases |r1|
  {
    if r1 == [] {
      assert r1 + r2 == r2;
    } else {
      var next := ApplyAll(ls, r1[0].th, r1[0].report);
      RunsCompose(next, r1[1..], r2);
      assert (r1 + r2)[0] == r1[0] && (r1 + r2)[1..] == r1[1..] + r2;
    }
  }

  /** How many attempts of `report` saved the flag of the record at position `i`. */
  function CountRecorded(report: seq<Attempt>, i: nat): nat
    decreases |report|
  {
    if report == [] then 0
    else (if report[0].index == i && report[0].outcome.Recorded? then 1 else 0) + CountRecorded(report[1..], i)
  }

  /** How many passes of threshold `th` in `run` saved the flag of the record at `i`. */
  function RecordedInRun(run: seq<Pass>, i: nat, th: Threshold): nat
    decreases |run|
  {
    if run == [] then 0
    else (if run[0].th == th then CountRecorded(run[0].report, i) else 0) + RecordedInRun(run[1..], i, th)
  }

  predicate Increasing(report: seq<Attempt>) {
    forall k, j :: 0 <= k < j < |report| ==> report[k].index < report[j].index
  }

  /** A pass handles the selected records in increasing store order. */
  lemma CoversIncreasing(report: seq<Attempt>, ls: seq<Lesson>, now: int, th: Threshold)
    requires Covers(report, Selected(ls, now, th))
    ensures Increasing(report)
  {
  }

  /** In a report without repeated positions a record is recorded once or not at all. */
  lemma {:induction false} CountRecordedExact(report: seq<Attempt>, i: nat)
    requires Increasing(report)
    ensures CountRecorded(report, i) == if RecordedFor(report, i) then 1 else 0
    decreases |report|
  {
    if report != [] {
      var rest := report[1..];
      assert Increasing(rest);
      CountRecordedExact(rest, i);
      if report[0].index == i {
        assert !RecordedFor(rest, i) by {
          assert forall k :: 0 <= k < |rest| ==> rest[k].index > i by {
            forall k | 0 <= k < |rest|
              ensures rest[k].index > i
            {
              assert rest[k] == report[k + 1];
            }
          }
        }
        if report[0].outcome.Recorded? {
          assert RecordedFor(report, i);
        } else {
          assert forall k :: 0 < k < |report| ==> report[0].index < report[k].index;
        }
      } else {
        assert RecordedFor(report, i) <==> RecordedFor(rest, i) by {
          if RecordedFor(rest, i) {
            var k :| 0 <= k < |rest| && rest[k].index == i && rest[k].outcome.Recorded?;
            assert report[k + 1] == rest[k];
          }
          if RecordedFor(report, i) {
            var k :| 0 <= k < |report| && report[k].index == i && report[k].outcome.Recorded?;
            assert k > 0 && rest[k - 1] == report[k];
          }
        }
      }
    }
  }

  /**
   * Over any valid run, the reminder of threshold `th` for the record at `i`
   * is recorded at most once, and never if its flag was already set; the
   * flag ends up set exactly when it was set before or the reminder was
   * recorded during the run.
   */
  lemma {:induction false} RecordedAtMostOnce(ls: seq<Lesson>, run: seq<Pass>, i: nat, th: Threshold)
    requires ValidRun(ls, run) && i < |ls|
    ensures RecordedInRun(run, i, th) <= if ls[i].Notified(th) then 0 else 1
    ensures AfterRun(ls, run)[i].Notified(th) <==> ls[i].Notified(th) || RecordedInRun(run, i, th) == 1
    decreases |run|
  {
    if run != [] {
      var p := run[0];
      var next := ApplyAll(ls, p.th, p.report);
      RecordedAtMostOnce(next, run[1..], i, th);
      ApplyAllAt(ls, p.th, p.report, i);
      if p.th == th {
        CoversIncreasing(p.report, ls, p.now, th);
        CountRecordedExact(p.report, i);
        if ls[i].Notified(th) {
          var sel := Selected(ls, p.now, th);
          SelectedIff(ls, p.now, th, i);
          assert forall k :: 0 <= k < |p.report| ==> p.report[k].index == sel[k] && sel[k] in sel;
        }
      } else {
        assert p.th.Other() == th;
      }
    }
  }

  /**
   * Starting from a freshly created lesson, as the lesson form saves it,
   * each of the two reminders is recorded at most once over any run of passes.
   */
  lemma NewLessonNotifiedAtMostOnce(ls: seq<Lesson>, run: seq<Pass>, i: nat,
                                    id: int, studentName: string, tgUsername: string, startTime: int, createdAt: int)
    requires ValidRun(ls, run) && i < |ls|
    requires ls[i] == NewLesson(id, studentName, tgUsername, startTime, createdAt)
    ensures RecordedInRun(run, i, OneHour) <= 1 && RecordedInRun(run, i, FiveMinutes) <= 1
  {
    RecordedAtMostOnce(ls, run, i, OneHour);
    RecordedAtMostOnce(ls, run, i, FiveMinutes);
  }
}
