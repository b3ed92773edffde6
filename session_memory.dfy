/**
  The backend's in-process session statistics: for every session id, how many
  answers were attempted, how many were right and wrong, and the titles of the
  slides the learner got something wrong on.
 */
module SessionMemory {

  /** The counters kept for one session. */
  datatype Stats = Stats(attempts: int, correct: int, wrong: int, weakTopics: set<string>)

  /** The entry the `defaultdict` factory creates for a session seen for the first time. */
  const Fresh: Stats := Stats(0, 0, 0, {})

  /** Every attempted answer is counted as either correct or wrong. */
  predicate Balanced(s: Stats) {
    s.attempts == s.correct + s.wrong
  }

  /** `SESSION_MEMORY[session_id]`: the stored entry, or the factory's for a new session. */
  function Entry(table: map<string, Stats>, sessionId: string): (s: Stats)
    ensures sessionId !in table ==> s == Fresh
  {
    if sessionId in table then table[sessionId] else Fresh
  }

  /** What one `record_attempt` makes of a session's entry. */
  function Recorded(s: Stats, slideTitle: string, correct: int, total: int): Stats {
    Stats(
      s.attempts + total,
      s.correct + correct,
      s.wrong + (total - correct),
      if correct < total then s.weakTopics + {slideTitle} else s.weakTopics)
  }

  /**
    Recording an attempt adds `total` attempts split into `correct` right and
    `total - correct` wrong answers, so a balanced entry stays balanced.
   */
  lemma RecordedKeepsBalance(s: Stats, slideTitle: string, correct: int, total: int)
    requires Balanced(s)
    ensures var r := Recorded(s, slideTitle, correct, total);
      && Balanced(r)
      && r.attempts - s.attempts == total
      && r.correct - s.correct == correct
      && r.wrong - s.wrong == total - correct
  {
  }

  /**
    The slide becomes a weak topic exactly when not every answer was right, and
    weak topics are never forgotten.
   */
  lemma RecordedWeakTopics(s: Stats, slideTitle: string, correct: int, total: int)
    ensures var r := Recorded(s, slideTitle, correct, total);
      && s.weakTopics <= r.weakTopics
      && (slideTitle in r.weakTopics <==> slideTitle in s.weakTopics || correct < total)
      && r.weakTopics - s.weakTopics <= {slideTitle}
  {
  }

  /** A run of attempts, each given as (slide title, correct, total). */
  datatype Attempt = Attempt(slideTitle: string, correct: int, total: int)

  /** The entry after recording `attempts` in order, starting from `s`. */
  function RecordedAll(s: Stats, attempts: seq<Attempt>): Stats
    decreases |attempts|
  {
    if attempts == [] then s
    else
      var a := attempts[|attempts| - 1];
      Recorded(RecordedAll(s, attempts[..|attempts| - 1]), a.slideTitle, a.correct, a.total)
  }

  /** The sum of the `total`s of a run of attempts. */
  function TotalOf(attempts: seq<Attempt>): int
    decreases |attempts|
  {
    if attempts == [] then 0 else TotalOf(attempts[..|attempts| - 1]) + attempts[|attempts| - 1].total
  }

  /** The sum of the `correct`s of a run of attempts. */
  function CorrectOf(attempts: seq<Attempt>): int
    decreases |attempts|
  {
    if attempts == [] then 0 else CorrectOf(attempts[..|attempts| - 1]) + attempts[|attempts| - 1].correct
  }

  /**
    From creation onwards a session's counters are the sums over everything
    recorded for it: attempts is the sum of the totals, correct the sum of the
    corrects, and wrong the difference, so attempts = correct + wrong.
   */
  lemma {:induction false} HistoryTotals(attempts: seq<Attempt>)
    ensures var r := RecordedAll(Fresh, attempts);
      && r.attempts == TotalOf(attempts)
      && r.correct == CorrectOf(attempts)
      && r.wrong == TotalOf(attempts) - CorrectOf(attempts)
      && Balanced(r)
    decreases |attempts|
  {
    if attempts != [] {
      HistoryTotals(attempts[..|attempts| - 1]);
    }
  }

  /** The accuracy `get_session_summary` reports, in percent, before rounding to two decimals. */
  function Accuracy(s: Stats): (pct: real)
    ensures s.attempts == 0 ==> pct == 0.0
    ensures s.attempts > 0 ==> pct * s.attempts as real == 100.0 * s.correct as real
    ensures 0 <= s.correct <= s.attempts ==> 0.0 <= pct <= 100.0
  {
    if s.attempts > 0 then (s.correct as real / s.attempts as real) * 100.0 else 0.0
  }

  /** The dictionary `get_session_summary` returns. */
  datatype Summary =
    | NoData(message: string)
    | Report(attempts: int, correct: int, wrong: int, accuracyPercent: real, weakTopics: set<string>)

  /** The process-wide table `SESSION_MEMORY`. */
  class Memory {
    var table: map<string, Stats>

    /** Every stored entry is balanced. */
    ghost predicate Valid()
      reads this
    {
      forall id :: id in table ==> Balanced(table[id])
    }

    /** The empty table of a freshly started backend. */
    constructor ()
      ensures Valid() && table == map[]
    {
      table := map[];
    }

    /**
      `record_attempt`: the entry of `sessionId` (created on first use) is
      updated and no other session's entry changes.
     */
    method RecordAttempt(sessionId: string, slideTitle: string, correct: int, total: int)
      requires Valid()
      modifies this
      ensures Valid()
      ensures table == old(table)[sessionId := Recorded(Entry(old(table), sessionId), slideTitle, correct, total)]
      ensures forall id :: id in old(table) && id != sessionId ==> id in table && table[id] == old(table)[id]
    {
      var data := Entry(table, sessionId);
      RecordedKeepsBalance(data, slideTitle, correct, total);
      table := table[sessionId := Recorded(data, slideTitle, correct, total)];
    }

    /**
      `get_session_summary`: an unseen session gets the "No data" message (and,
      since the lookup is `.get`, no entry is created); a known one gets its
      counters, its accuracy, zero when nothing was attempted, and its weak topics.
     */
    method GetSessionSummary(sessionId: string) returns (summary: Summary)
      ensures sessionId !in table <==> summary == NoData("No data for this session")
      ensures sessionId in table ==>
        && summary.Report?
        && summary.attempts == table[sessionId].attempts
        && summary.correct == table[sessionId].correct
        && summary.wrong == table[sessionId].wrong
        && summary.weakTopics == table[sessionId].weakTopics
        && summary.accuracyPercent == Accuracy(table[sessionId])
        && (summary.attempts == 0 ==> summary.accuracyPercent == 0.0)
        && (Valid() ==> summary.attempts == summary.correct + summary.wrong)
    {
      if sessionId !in table {
        return NoData("No data for this session");
      }
      var data := table[sessionId];
      summary := Report(data.attempts, data.correct, data.wrong, Accuracy(data), data.weakTopics);
    }
  }
}
