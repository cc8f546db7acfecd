/**
  The study model of one loaded deck: how an entry's step (New, Review,
  Done) follows from the score sheet, how a session queue is built, and the
  question / answer / grade cycle that records attempts and rewrites scores.

  Time is an integer number of milliseconds; a day is `MsPerDay` long and
  starts at a multiple of it (local-time calendar rules are not modelled).
  The clock (`new Date()`) and the random draws of the shuffles are
  parameters.
*/
module DeckModel {
  import opened Wrappers
  import opened Scheduler
  import Utils

  type EntryId = string

  /** The learning step of an entry. */
  datatype Step = New | Review | Done

  /** One graded question. `questioned` and `answered` are unset when the session never set them. */
  datatype Attempt = Attempt(
    entryID: EntryId,
    step: Step,
    grade: real,
    questioned: Option<int>,
    answered: Option<int>,
    graded: int)

  /** The current study session: the entries still to present, and the times of the ongoing question. */
  datatype Session = Session(entryQueue: seq<EntryId>, questioned: Option<int>, answered: Option<int>)

  /** `getDueDate`: `null`, an invalid `Date` (no score to take an interval from), or a time. */
  datatype DueDate = NoDueDate | InvalidDate | DueAt(time: int)

  const MsPerDay: int := 86400000

  /** At most this many new entries enter a session. */
  const NewCardLimit: nat := 10

  /** The day number of time `t`. */
  function Day(t: int): int {
    t / MsPerDay
  }

  /** The first instant of day `day`. */
  function Midnight(day: int): (r: int)
    ensures Day(r) == day && r % MsPerDay == 0
  {
    day * MsPerDay
  }

  /** A time lies between the midnight that starts its day and the next one. */
  lemma DayBounds(t: int)
    ensures Midnight(Day(t)) <= t < Midnight(Day(t) + 1)
  {
  }

  function Min(a: int, b: int): int {
    if a < b then a else b
  }

  // ---------------------------------------------------------------- the step of an entry

  /** `getLastAttempt`: the last attempt in list order for entry `id`. */
  function LastAttempt(attempts: seq<Attempt>, id: EntryId): (r: Option<Attempt>)
    ensures r.Some? ==> r.value in attempts && r.value.entryID == id
  {
    if attempts == [] then None
    else if attempts[|attempts| - 1].entryID == id then Some(attempts[|attempts| - 1])
    else LastAttempt(attempts[..|attempts| - 1], id)
  }

  /** `LastAttempt` is empty exactly when no attempt is for `id`, and otherwise is the attempt at the last index for `id`. */
  lemma {:induction false} LastAttemptIsLastMatch(attempts: seq<Attempt>, id: EntryId)
    ensures LastAttempt(attempts, id).None? <==> forall k :: 0 <= k < |attempts| ==> attempts[k].entryID != id
    ensures LastAttempt(attempts, id).Some? ==>
      exists k :: 0 <= k < |attempts| && attempts[k] == LastAttempt(attempts, id).value && attempts[k].entryID == id &&
        forall j :: k < j < |attempts| ==> attempts[j].entryID != id
  {
    if attempts != [] {
      var n := |attempts| - 1;
      var init := attempts[..n];
      LastAttemptIsLastMatch(init, id);
      if attempts[n].entryID != id && LastAttempt(init, id).Some? {
        var k :| 0 <= k < |init| && init[k] == LastAttempt(init, id).value && init[k].entryID == id &&
          forall j :: k < j < |init| ==> init[j].entryID != id;
        assert attempts[k] == init[k];
      }
    }
  }

  /** Appending an attempt makes it the last one for its own entry and changes nothing for the others. */
  lemma LastAttemptAppend(attempts: seq<Attempt>, a: Attempt, id: EntryId)
    ensures LastAttempt(attempts + [a], id) == if a.entryID == id then Some(a) else LastAttempt(attempts, id)
  {
    assert (attempts + [a])[..|attempts|] == attempts;
  }

  /** `getDueDate`: midnight of the day of the last attempt's question time plus the entry's interval. */
  function GetDueDate(attempts: seq<Attempt>, scores: map<EntryId, Score>, id: EntryId): (r: DueDate)
    ensures r.NoDueDate? <==>
      LastAttempt(attempts, id).None? || LastAttempt(attempts, id).value.questioned.None?
    ensures r.InvalidDate? <==> !r.NoDueDate? && id !in scores
    ensures r.DueAt? ==>
      id in scores && r.time % MsPerDay == 0 &&
      Day(r.time) == Day(LastAttempt(attempts, id).value.questioned.value) + scores[id].interval
  {
    var last := LastAttempt(attempts, id);
    if last.None? || last.value.questioned.None? then NoDueDate
    else if id !in scores then InvalidDate
    else DueAt(Midnight(Day(last.value.questioned.value) + scores[id].interval))
  }

  /** When every attempt has a question time, there is no due date exactly when the entry has no attempt. */
  lemma NoDueDateIffNoAttempt(attempts: seq<Attempt>, scores: map<EntryId, Score>, id: EntryId)
    requires forall k :: 0 <= k < |attempts| ==> attempts[k].questioned.Some?
    ensures GetDueDate(attempts, scores, id).NoDueDate? <==> forall k :: 0 <= k < |attempts| ==> attempts[k].entryID != id
  {
    LastAttemptIsLastMatch(attempts, id);
  }

  /** `getStep`: New without a due date, Review once the due date has passed, Done otherwise (an invalid date compares false). */
  function GetStep(attempts: seq<Attempt>, scores: map<EntryId, Score>, id: EntryId, now: int): (r: Step)
    ensures r == New <==> GetDueDate(attempts, scores, id).NoDueDate?
    ensures r == Review <==> GetDueDate(attempts, scores, id).DueAt? && GetDueDate(attempts, scores, id).time < now
  {
    match GetDueDate(attempts, scores, id)
    case NoDueDate => New
    case InvalidDate => Done
    case DueAt(t) => if t < now then Review else Done
  }

  /** The step of every entry at time `now`, as `getStep` computes it. */
  function StepsAt(attempts: seq<Attempt>, scores: map<EntryId, Score>, now: int): EntryId -> Step {
    x => GetStep(attempts, scores, x, now)
  }

  /** The entries, in order, that `steps` puts at `step`. */
  function Filter(entries: seq<EntryId>, steps: EntryId -> Step, step: Step): (r: seq<EntryId>)
    ensures |r| <= |entries|
  {
    if entries == [] then []
    else (if steps(entries[0]) == step then [entries[0]] else []) + Filter(entries[1..], steps, step)
  }

  /** The filtered entries are exactly the entries at `step`; filtering never adds a repeat. */
  lemma {:induction false} FilterMembers(entries: seq<EntryId>, steps: EntryId -> Step, step: Step)
    ensures forall x :: x in Filter(entries, steps, step) <==> x in entries && steps(x) == step
    ensures NoDup(entries) ==> NoDup(Filter(entries, steps, step))
  {
    if entries != [] {
      var rest := Filter(entries[1..], steps, step);
      FilterMembers(entries[1..], steps, step);
      assert entries == [entries[0]] + entries[1..];
      if NoDup(entries) {
        assert NoDup(entries[1..]) by {
          forall i, j | 0 <= i < j < |entries| - 1 ensures entries[1..][i] != entries[1..][j] {
            assert entries[1..][i] == entries[i + 1] && entries[1..][j] == entries[j + 1];
          }
        }
        assert entries[0] !in rest;
      }
    }
  }

  /** `filterCards`: the entries, in deck order, whose step is `step`. */
  function FilterCards(entries: seq<EntryId>, attempts: seq<Attempt>, scores: map<EntryId, Score>, step: Step, now: int): (r: seq<EntryId>)
    ensures |r| <= |entries|
    ensures forall i :: 0 <= i < |r| ==> GetStep(attempts, scores, r[i], now) == step
  {
    var r := Filter(entries, StepsAt(attempts, scores, now), step);
    FilterMembers(entries, StepsAt(attempts, scores, now), step);
    assert forall i :: 0 <= i < |r| ==> r[i] in r;
    r
  }

  /** `filterCards` keeps exactly the deck's ids whose `getStep` at `now` is `step`, and repeats none. */
  lemma FilterCardsMembers(entries: seq<EntryId>, attempts: seq<Attempt>, scores: map<EntryId, Score>, step: Step, now: int)
    ensures forall x :: x in FilterCards(entries, attempts, scores, step, now) <==>
                        x in entries && GetStep(attempts, scores, x, now) == step
    ensures NoDup(entries) ==> NoDup(FilterCards(entries, attempts, scores, step, now))
  {
    FilterMembers(entries, StepsAt(attempts, scores, now), step);
  }

  /** Filtering by the three steps splits the entries: their multisets add up to the entries'. */
  lemma {:induction false} FilterPartition(entries: seq<EntryId>, steps: EntryId -> Step)
    ensures multiset(Filter(entries, steps, New)) + multiset(Filter(entries, steps, Review)) +
            multiset(Filter(entries, steps, Done)) == multiset(entries)
  {
    if entries != [] {
      var e, rest := entries[0], entries[1..];
      FilterPartition(rest, steps);
      assert entries == [e] + rest;
    }
  }

  /** So every entry is in exactly one of New, Review and Done, and their sizes add up to the deck's. */
  lemma FilterCardsPartition(entries: seq<EntryId>, attempts: seq<Attempt>, scores: map<EntryId, Score>, now: int)
    ensures multiset(FilterCards(entries, attempts, scores, New, now)) +
            multiset(FilterCards(entries, attempts, scores, Review, now)) +
            multiset(FilterCards(entries, attempts, scores, Done, now)) == multiset(entries)
    ensures |FilterCards(entries, attempts, scores, New, now)| +
            |FilterCards(entries, attempts, scores, Review, now)| +
            |FilterCards(entries, attempts, scores, Done, now)| == |entries|
  {
    FilterPartition(entries, StepsAt(attempts, scores, now));
    assert |multiset(entries)| == |entries|;
  }

  // ---------------------------------------------------------------- building a session

  /** `selectRandomly(array, max)`: shuffles a clone and keeps at most `max` of it. The array is not modified (no `modifies`). */
  method SelectRandomly<T>(a: array<T>, max: nat, swaps: seq<nat>) returns (r: seq<T>)
    requires |swaps| == a.Length && Utils.SwapIndices(swaps)
    ensures |r| == Min(max, a.Length)
    ensures r == Utils.Shuffled(a[..], swaps)[..Min(max, a.Length)]
    ensures multiset(r) <= multiset(a[..])
  {
    var clone := new T[a.Length](k reads a requires 0 <= k < a.Length => a[k]);
    assert clone[..] == a[..];
    Utils.Shuffle(clone, swaps);
    if max < clone.Length {
      r := clone[..max];
    } else {
      r := clone[..];
    }
    Utils.ShuffledPrefixIsDrawn(a[..], swaps, |r|);
  }

  /** The new entries a session takes: the first `NewCardLimit` of the shuffled New entries. */
  function SelectedNew(newIds: seq<EntryId>, swapsNew: seq<nat>): (r: seq<EntryId>)
    requires |swapsNew| == |newIds| && Utils.SwapIndices(swapsNew)
    ensures |r| == Min(NewCardLimit, |newIds|)
  {
    Utils.Shuffled(newIds, swapsNew)[..Min(NewCardLimit, |newIds|)]
  }

  /** The draws `initializeSession` needs: one per New entry, then one per queued entry. */
  predicate SessionDraws(review: seq<EntryId>, newIds: seq<EntryId>, swapsNew: seq<nat>, swapsQueue: seq<nat>) {
    |swapsNew| == |newIds| && Utils.SwapIndices(swapsNew) &&
    |swapsQueue| == |review| + Min(NewCardLimit, |newIds|) && Utils.SwapIndices(swapsQueue)
  }

  /** The queue `initializeSession` builds: the Review entries and the selected New ones, shuffled together. */
  function SessionQueue(review: seq<EntryId>, newIds: seq<EntryId>, swapsNew: seq<nat>, swapsQueue: seq<nat>): (q: seq<EntryId>)
    requires SessionDraws(review, newIds, swapsNew, swapsQueue)
    ensures |q| == |review| + Min(NewCardLimit, |newIds|)
  {
    Utils.Shuffled(review + SelectedNew(newIds, swapsNew), swapsQueue)
  }

  /** The session queue is a permutation of the Review entries followed by `min(|New|, 10)` entries drawn from the New ones. */
  lemma {:induction false} SessionQueuePermutes(review: seq<EntryId>, newIds: seq<EntryId>, swapsNew: seq<nat>, swapsQueue: seq<nat>)
    requires SessionDraws(review, newIds, swapsNew, swapsQueue)
    ensures |SessionQueue(review, newIds, swapsNew, swapsQueue)| == |review| + Min(NewCardLimit, |newIds|)
    ensures multiset(SessionQueue(review, newIds, swapsNew, swapsQueue)) == multiset(review) + multiset(SelectedNew(newIds, swapsNew))
    ensures multiset(SelectedNew(newIds, swapsNew)) <= multiset(newIds)
  {
    var selected := SelectedNew(newIds, swapsNew);
    Utils.ShuffledPrefixIsDrawn(newIds, swapsNew, |selected|);
  }

  /** Review entries followed by a draw from other, duplicate-free entries repeat nothing. */
  lemma NoDupAppendDrawn(review: seq<EntryId>, newIds: seq<EntryId>, selected: seq<EntryId>)
    requires NoDup(review) && NoDup(newIds)
    requires forall x :: x in review ==> x !in newIds
    requires multiset(selected) <= multiset(newIds)
    ensures NoDup(review + selected)
  {
    forall x ensures multiset(selected)[x] <= 1 {
      Wrappers.MultiplicityAtMostOne(newIds, x);
    }
    Wrappers.NoDupFromMultiplicity(selected);
    var s := review + selected;
    forall i, j | 0 <= i < j < |s|
      ensures s[i] != s[j]
    {
      if j < |review| {
        assert s[i] == review[i] && s[j] == review[j];
      } else if i >= |review| {
        assert s[i] == selected[i - |review|] && s[j] == selected[j - |review|];
      } else {
        assert s[j] == selected[j - |review|];
        assert s[j] in multiset(newIds);
        assert s[i] in review;
      }
    }
  }

  /** The session queue holds every Review entry and otherwise only New entries. */
  lemma SessionQueueMembers(entries: seq<EntryId>, steps: EntryId -> Step, swapsNew: seq<nat>, swapsQueue: seq<nat>)
    requires SessionDraws(Filter(entries, steps, Review), Filter(entries, steps, New), swapsNew, swapsQueue)
    ensures var q := SessionQueue(Filter(entries, steps, Review), Filter(entries, steps, New), swapsNew, swapsQueue);
            && (forall x :: x in entries && steps(x) == Review ==> x in q)
            && (forall x :: x in q ==> x in entries && (steps(x) == Review || steps(x) == New))
  {
    var review := Filter(entries, steps, Review);
    var newIds := Filter(entries, steps, New);
    var q := SessionQueue(review, newIds, swapsNew, swapsQueue);
    var selected := SelectedNew(newIds, swapsNew);
    SessionQueuePermutes(review, newIds, swapsNew, swapsQueue);
    FilterMembers(entries, steps, Review);
    FilterMembers(entries, steps, New);
    forall x | x in review ensures x in q {
      assert x in multiset(q);
    }
    forall x | x in q ensures x in review || x in newIds {
      assert x in multiset(q);
      if x !in review {
        assert x in multiset(selected);
        assert x in multiset(newIds);
      }
    }
  }

  /** The session queue of a deck without repeated ids repeats no entry. */
  lemma SessionQueueNoDup(entries: seq<EntryId>, steps: EntryId -> Step, swapsNew: seq<nat>, swapsQueue: seq<nat>)
    requires SessionDraws(Filter(entries, steps, Review), Filter(entries, steps, New), swapsNew, swapsQueue)
    requires NoDup(entries)
    ensures NoDup(SessionQueue(Filter(entries, steps, Review), Filter(entries, steps, New), swapsNew, swapsQueue))
  {
    var review := Filter(entries, steps, Review);
    var newIds := Filter(entries, steps, New);
    var selected := SelectedNew(newIds, swapsNew);
    SessionQueuePermutes(review, newIds, swapsNew, swapsQueue);
    FilterMembers(entries, steps, Review);
    FilterMembers(entries, steps, New);
    NoDupAppendDrawn(review, newIds, selected);
    Wrappers.NoDupPermutation(review + selected, SessionQueue(review, newIds, swapsNew, swapsQueue));
  }

  /**
    The queue of a freshly initialised session: every entry due for review, up to
    ten New entries, nothing else, and no entry twice when the deck repeats no id.
  */
  lemma InitialQueue(entries: seq<EntryId>, attempts: seq<Attempt>, scores: map<EntryId, Score>, now: int,
                     swapsNew: seq<nat>, swapsQueue: seq<nat>)
    requires SessionDraws(FilterCards(entries, attempts, scores, Review, now), FilterCards(entries, attempts, scores, New, now),
                          swapsNew, swapsQueue)
    ensures var review := FilterCards(entries, attempts, scores, Review, now);
            var newIds := FilterCards(entries, attempts, scores, New, now);
            var q := SessionQueue(review, newIds, swapsNew, swapsQueue);
            && |q| == |review| + Min(NewCardLimit, |newIds|)
            && (forall x :: x in entries && GetStep(attempts, scores, x, now) == Review ==> x in q)
            && (forall x :: x in q ==> x in entries && GetStep(attempts, scores, x, now) != Done)
            && (NoDup(entries) ==> NoDup(q))
  {
    var steps := StepsAt(attempts, scores, now);
    var review := Filter(entries, steps, Review);
    var newIds := Filter(entries, steps, New);
    SessionQueueMembers(entries, steps, swapsNew, swapsQueue);
    if NoDup(entries) {
      SessionQueueNoDup(entries, steps, swapsNew, swapsQueue);
    }
  }

  /**
    The queue-building steps of `initializeSession`: up to ten New ids chosen at
    random, appended to the Review ids, and the whole shuffled in place.
  */
  method BuildQueue(review: seq<EntryId>, newIds: seq<EntryId>, swapsNew: seq<nat>, swapsQueue: seq<nat>)
    returns (queue: seq<EntryId>)
    requires SessionDraws(review, newIds, swapsNew, swapsQueue)
    ensures queue == SessionQueue(review, newIds, swapsNew, swapsQueue)
  {
    var newArray := new EntryId[|newIds|](k requires 0 <= k < |newIds| => newIds[k]);
    assert newArray[..] == newIds;
    var selected := SelectRandomly(newArray, NewCardLimit, swapsNew);
    var joined := review + selected;
    var queueArray := new EntryId[|joined|](k requires 0 <= k < |joined| => joined[k]);
    assert queueArray[..] == joined;
    Utils.Shuffle(queueArray, swapsQueue);
    queue := queueArray[..];
  }

  // ---------------------------------------------------------------- grading

  /** The score `gradeAttempt` starts from for an entry that has none. */
  function DefaultScore(id: EntryId): Score {
    Score(id, 0, 2.5, 1)
  }

  /** The score sheet's scores after grading entry `id`, whose step at grading time was `step`. */
  function Rescored(scores: map<EntryId, Score>, id: EntryId, step: Step, grade: real): (r: map<EntryId, Score>)
    ensures step == Done ==> r == scores
    ensures step != Done ==>
      r.Keys == scores.Keys + {id} && r[id] == Sm2(Quality(grade), if id in scores then scores[id] else DefaultScore(id))
    ensures forall k :: k in scores && k != id ==> k in r && r[k] == scores[k]
  {
    if step != Done then
      scores[id := Sm2(Quality(grade), if id in scores then scores[id] else DefaultScore(id))]
    else scores
  }

  /** Every score is valid and filed under its own entry. */
  predicate ScoresValid(scores: map<EntryId, Score>) {
    forall k :: k in scores ==> ValidScore(scores[k]) && scores[k].id == k
  }

  /** Grading keeps the score sheet valid. */
  lemma RescoredKeepsScoresValid(scores: map<EntryId, Score>, id: EntryId, step: Step, grade: real)
    requires ScoresValid(scores)
    ensures ScoresValid(Rescored(scores, id, step, grade))
  {
    if step != Done {
      Sm2KeepsScoreValid(Quality(grade), if id in scores then scores[id] else DefaultScore(id));
    }
  }

  /** The attempt `gradeAttempt` records for the head of the queue, with the step computed at grading time. */
  function GradedAttempt(attempts: seq<Attempt>, scores: map<EntryId, Score>, s: Session, grade: real, now: int): (r: Attempt)
    requires |s.entryQueue| > 0
    ensures r.entryID == s.entryQueue[0] && r.grade == grade && r.graded == now
    ensures r.step == GetStep(attempts, scores, s.entryQueue[0], now)
  {
    var id := s.entryQueue[0];
    Attempt(id, GetStep(attempts, scores, id, now), grade, s.questioned, s.answered, now)
  }

  /**
    After grading an entry that was asked at time `q`, its due date is midnight of
    `Day(q)` plus its interval: the new interval when the step was New or Review, the
    old one when it was Done. A Done grade still moves the due date.
  */
  lemma {:induction false} GradedDueDate(attempts: seq<Attempt>, scores: map<EntryId, Score>, s: Session, grade: real, now: int)
    requires |s.entryQueue| > 0 && s.questioned.Some?
    requires GradedAttempt(attempts, scores, s, grade, now).step == Done ==> s.entryQueue[0] in scores
    ensures var id := s.entryQueue[0];
            var a := GradedAttempt(attempts, scores, s, grade, now);
            var scores' := Rescored(scores, id, a.step, grade);
            && id in scores'
            && GetDueDate(attempts + [a], scores', id) == DueAt(Midnight(Day(s.questioned.value) + scores'[id].interval))
  {
    var a := GradedAttempt(attempts, scores, s, grade, now);
    LastAttemptAppend(attempts, a, s.entryQueue[0]);
  }

  /**
    The first grade of an entry gives an interval of one day whatever the grade:
    the entry is Done for the rest of the day it was asked and turns Review right
    after the next midnight.
  */
  lemma {:induction false} FirstGradeDueNextDay(attempts: seq<Attempt>, scores: map<EntryId, Score>, s: Session, grade: real,
                                                 now: int, t: int)
    requires |s.entryQueue| > 0 && s.questioned.Some?
    requires forall k :: 0 <= k < |attempts| ==> attempts[k].entryID != s.entryQueue[0]
    requires s.entryQueue[0] !in scores
    ensures var id := s.entryQueue[0];
            var a := GradedAttempt(attempts, scores, s, grade, now);
            var scores' := Rescored(scores, id, a.step, grade);
            && a.step == New
            && (GetStep(attempts + [a], scores', id, t) == Review <==> t > Midnight(Day(s.questioned.value) + 1))
            && (Day(t) == Day(s.questioned.value) ==> GetStep(attempts + [a], scores', id, t) == Done)
  {
    var id := s.entryQueue[0];
    LastAttemptIsLastMatch(attempts, id);
    GradedDueDate(attempts, scores, s, grade, now);
    DayBounds(t);
  }

  // ---------------------------------------------------------------- the model

  /** The study model, restricted to the deck being studied. */
  class Model {
    /** The ids of the deck's entries, in the deck's order. */
    var entries: seq<EntryId>
    /** The score sheet: the attempt history and the score of each entry. */
    var attempts: seq<Attempt>
    var scores: map<EntryId, Score>
    /** The current session, absent until one is initialised. */
    var session: Option<Session>

    /** The model once the deck and its score sheet are loaded. */
    constructor (entries: seq<EntryId>, attempts: seq<Attempt>, scores: map<EntryId, Score>)
      ensures this.entries == entries && this.attempts == attempts && this.scores == scores
      ensures session == None
    {
      this.entries := entries;
      this.attempts := attempts;
      this.scores := scores;
      session := None;
    }

    /** `getLastAttempt`: scans the attempts, remembering the last one for `entryID`. */
    method GetLastAttempt(entryID: EntryId) returns (last: Option<Attempt>)
      ensures last == LastAttempt(attempts, entryID)
    {
      last := None;
      for i := 0 to |attempts|
        invariant last == LastAttempt(attempts[..i], entryID)
      {
        assert attempts[..i + 1][..i] == attempts[..i];
        if attempts[i].entryID == entryID {
          last := Some(attempts[i]);
        }
      }
      assert attempts[..|attempts|] == attempts;
    }

    /**
      `initializeSession`: the Review entries plus up to ten randomly selected New
      entries, shuffled. The `slice(0, 10)` result is discarded, so the queue is not cut.
    */
    method InitializeSession(now: int, swapsNew: seq<nat>, swapsQueue: seq<nat>)
      requires SessionDraws(FilterCards(entries, attempts, scores, Review, now), FilterCards(entries, attempts, scores, New, now),
                            swapsNew, swapsQueue)
      modifies this
      ensures entries == old(entries) && attempts == old(attempts) && scores == old(scores)
      ensures session == Some(Session(SessionQueue(FilterCards(entries, attempts, scores, Review, now),
                                                   FilterCards(entries, attempts, scores, New, now), swapsNew, swapsQueue),
                                      None, None))
    {
      var review := FilterCards(entries, attempts, scores, Review, now);
      var newIds := FilterCards(entries, attempts, scores, New, now);
      var queue := BuildQueue(review, newIds, swapsNew, swapsQueue);
      session := Some(Session(queue, None, None));
    }

    /** `startAttempt`: stamps the question time and clears the answer time. */
    method StartAttempt(now: int)
      requires session.Some?
      modifies this
      ensures session == Some(old(session).value.(questioned := Some(now), answered := None))
      ensures entries == old(entries) && attempts == old(attempts) && scores == old(scores)
    {
      session := Some(session.value.(questioned := Some(now), answered := None));
    }

    /** `answerAttempt`: stamps the answer time. */
    method AnswerAttempt(now: int)
      requires session.Some?
      modifies this
      ensures session == Some(old(session).value.(answered := Some(now)))
      ensures entries == old(entries) && attempts == old(attempts) && scores == old(scores)
    {
      session := Some(session.value.(answered := Some(now)));
    }

    /**
      `gradeAttempt`: a grade outside 0..3 is rejected before anything changes.
      Otherwise the attempt for the head of the queue is appended, and unless the
      entry's step at grading time is Done its score becomes the SM-2 update of its
      old score (or of the default one).
    */
    method GradeAttempt(grade: real, now: int) returns (accepted: bool)
      requires 0.0 <= grade <= 3.0 ==> session.Some? && |session.value.entryQueue| > 0
      modifies this
      ensures accepted <==> 0.0 <= grade <= 3.0
      ensures entries == old(entries) && session == old(session)
      ensures !accepted ==> attempts == old(attempts) && scores == old(scores)
      ensures accepted ==>
        var a := GradedAttempt(old(attempts), old(scores), old(session).value, grade, now);
        attempts == old(attempts) + [a] && scores == Rescored(old(scores), a.entryID, a.step, grade)
    {
      if !(0.0 <= grade <= 3.0) {
        return false;
      }
      var s := session.value;
      var entryID := s.entryQueue[0];
      var step := GetStep(attempts, scores, entryID, now);
      attempts := attempts + [Attempt(entryID, step, grade, s.questioned, s.answered, now)];
      if step != Done {
        var score := if entryID in scores then scores[entryID] else DefaultScore(entryID);
        scores := scores[entryID := Sm2(Quality(grade), score)];
      }
      return true;
    }

    /** `next`: drops the head of the queue (`shift` leaves an empty queue as it is). */
    method Next()
      requires session.Some?
      modifies this
      ensures var q := old(session).value.entryQueue;
              session == Some(old(session).value.(entryQueue := if q == [] then [] else q[1..]))
      ensures entries == old(entries) && attempts == old(attempts) && scores == old(scores)
    {
      var q := session.value.entryQueue;
      if q != [] {
        session := Some(session.value.(entryQueue := q[1..]));
      }
    }
  }
}
