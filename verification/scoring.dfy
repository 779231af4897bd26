/**
 * How one question is judged and scored: reading a typed answer, checking an
 * answer against the question, the skip vote, the per-player update of both
 * game modes (standard multiple choice and lives), and the callouts announced
 * after a question.
 */
module Scoring {
  import opened Wrappers
  import opened Strings
  import opened Players
  import opened Questions
  import opened Announcements

  const SkipToken := "skip!"
  const Letters: set<string> := {"a", "b", "c", "d"}

  /** The letter that names choice position `i`. */
  function LetterOf(i: nat): string
    requires i < 4
  {
    ["abcd"[i]]
  }

  // ---------------------------------------------------------------------------
  // Reading and checking answers
  // ---------------------------------------------------------------------------

  /** A typed answer is lower-cased and stripped before anything else looks at it. */
  function Normalise(content: string): string {
    Strip(Lower(content))
  }

  /**
   * The answers `receive_answer` records: a letter, the skip token, or the
   * stripped, lower-cased text of one of the choices.
   */
  predicate Accepts(q: MCQuestion, ans: string) {
    ans in Letters || ans == SkipToken || ans in seq(|q.choices|, i requires 0 <= i < |q.choices| => Lower(Strip(q.choices[i])))
  }

  /**
   * `_check_answer`: no answer is wrong; a letter is right when it names the
   * correct position; anything else is right when it equals the lower-cased
   * correct text. (The source's assertion that the game is showing results
   * holds because only the results phase calls it.)
   */
  function CheckAnswer(q: MCQuestion, answer: Option<string>): bool {
    match answer
    case None => false
    case Some(a) =>
      var a := Lower(a);
      if a in Letters then LetterIndex(a) == Some(q.answerIndex) else Lower(q.answer) == a
  }

  /**
   * No answer is wrong. A recorded answer is right exactly when it is the
   * letter of the correct position, or when it is no letter at all and
   * spells the correct text up to case.
   */
  lemma CheckAnswerMeaning(q: MCQuestion, s: string)
    requires q.answerIndex < 4
    ensures !CheckAnswer(q, None)
    ensures CheckAnswer(q, Some(s)) <==>
              (Lower(s) == LetterOf(q.answerIndex) ||
               (Lower(s) !in Letters && Lower(s) == Lower(q.answer)))
  {
    LetterIndexOfLetters();
    var a := Lower(s);
    if a in Letters {
      if a == "a" {} else if a == "b" {} else if a == "c" {} else {}
    }
    assert LetterOf(0) == "a" && LetterOf(1) == "b" && LetterOf(2) == "c" && LetterOf(3) == "d";
  }

  /**
   * Typing the correct letter gets the answer recorded and judged right.
   * Typing the correct text in any case and with any surrounding whitespace
   * gets it recorded, since choices are compared stripped, but it is judged
   * against the unstripped correct text: right exactly when that text has no
   * surrounding whitespace (and does not itself read as a letter). A letter
   * that is not the correct one is judged wrong even when it spells the
   * correct text.
   */
  lemma TypedAnswerJudged(q: MCQuestion, content: string)
    requires WellFormed(q) && q.answerIndex < 4
    ensures Normalise(content) == LetterOf(q.answerIndex) ==>
              Accepts(q, Normalise(content)) && CheckAnswer(q, Some(Normalise(content)))
    ensures Normalise(content) == Lower(Strip(q.answer)) && Lower(Strip(q.answer)) !in Letters ==>
              && Accepts(q, Normalise(content))
              && (CheckAnswer(q, Some(Normalise(content))) <==> Strip(q.answer) == q.answer)
    ensures Normalise(content) in Letters && Normalise(content) != LetterOf(q.answerIndex) ==>
              !CheckAnswer(q, Some(Normalise(content)))
  {
    var ans := Normalise(content);
    LowerIdempotentNormalised(content);
    CheckAnswerMeaning(q, ans);
    var lowered := seq(|q.choices|, i requires 0 <= i < |q.choices| => Lower(Strip(q.choices[i])));
    assert lowered[q.answerIndex] == Lower(Strip(q.answer));
    assert LetterOf(q.answerIndex) in Letters by {
      assert LetterOf(0) == "a" && LetterOf(1) == "b" && LetterOf(2) == "c" && LetterOf(3) == "d";
    }
    if Lower(q.answer) == Lower(Strip(q.answer)) {
      StripShortens(q.answer);
    }
  }

  /**
   * When the correct text arrives with a trailing space, a player who types
   * it is recorded and then judged wrong.
   */
  lemma PaddedAnswerJudgedWrong(q: MCQuestion, typed: string)
    requires q.answer == "paris " && q.choices == ["paris ", "rome", "oslo", "bern"] && q.answerIndex == 0
    requires typed == "Paris"
    ensures Accepts(q, Normalise(typed)) && !CheckAnswer(q, Some(Normalise(typed)))
  {
    assert Lower(typed) == "paris";
    StripUnpadded("paris");
    assert Strip(q.answer) == "paris" by {
      assert StripLeft(q.answer) == q.answer;
      assert q.answer[..|q.answer| - 1] == "paris";
      StripUnpadded("paris");
    }
    assert Lower("paris") == "paris";
    TypedAnswerJudged(q, typed);
  }

  lemma LowerIdempotentNormalised(content: string)
    ensures Lower(Normalise(content)) == Normalise(content)
  {
    LowerStrip(Lower(content));
    LowerIdempotent(content);
  }

  // ---------------------------------------------------------------------------
  // The skip vote
  // ---------------------------------------------------------------------------

  predicate VotesSkip(p: Player) {
    p.answer.Some? && Lower(p.answer.value) == SkipToken
  }

  function SkipVotes(roster: seq<Player>): (n: nat)
    ensures n <= |roster|
  {
    if |roster| == 0 then 0 else (if VotesSkip(roster[0]) then 1 else 0) + SkipVotes(roster[1..])
  }

  /** `round(2/3 * n)`: the whole number nearest to two thirds of `n`. */
  function SkipThreshold(n: nat): (t: nat)
    ensures -1 <= 3 * t - 2 * n <= 1
  {
    (2 * n + 1) / 3
  }

  /** `_skip_question`: the question is skipped when the votes reach the threshold. */
  predicate SkipQuestion(roster: seq<Player>) {
    SkipVotes(roster) >= SkipThreshold(|roster|)
  }

  /**
   * A unanimous vote always skips, even with nobody playing; a question nobody
   * votes to skip is never skipped once someone plays; and the threshold
   * grows with the roster: 1 of 1 or 2, 2 of 3, 3 of 4.
   */
  lemma {:induction false} SkipVoteBounds(roster: seq<Player>)
    ensures (forall i :: 0 <= i < |roster| ==> VotesSkip(roster[i])) ==> SkipQuestion(roster)
    ensures (forall i :: 0 <= i < |roster| ==> !VotesSkip(roster[i])) && |roster| > 0 ==> !SkipQuestion(roster)
    ensures SkipThreshold(1) == 1 && SkipThreshold(2) == 1 && SkipThreshold(3) == 2 && SkipThreshold(4) == 3
  {
    UnanimousVotes(roster);
  }

  lemma {:induction false} UnanimousVotes(roster: seq<Player>)
    ensures (forall i :: 0 <= i < |roster| ==> VotesSkip(roster[i])) ==> SkipVotes(roster) == |roster|
    ensures (forall i :: 0 <= i < |roster| ==> !VotesSkip(roster[i])) ==> SkipVotes(roster) == 0
    decreases |roster|
  {
    if |roster| > 0 {
      UnanimousVotes(roster[1..]);
      assert forall i :: 0 <= i < |roster[1..]| ==> roster[1..][i] == roster[i + 1];
    }
  }

  // ---------------------------------------------------------------------------
  // Scoring a question
  // ---------------------------------------------------------------------------

  datatype Mode = Standard | Lives

  /** Whether a player's recorded answer counts as right; a skip vote never does. */
  predicate Correct(q: MCQuestion, p: Player) {
    p.answer != Some(SkipToken) && CheckAnswer(q, p.answer)
  }

  /**
   * The update one question makes to a player. A right answer extends the
   * streak and, in the standard game, earns a point; a wrong one ends the
   * streak and the perfect run and, in the lives game, costs a life.
   */
  function Update(p: Player, hit: bool, mode: Mode): Player {
    if hit then
      match mode
      case Standard => p.(score := p.score + 1, streak := p.streak + 1)
      case Lives => p.(streak := p.streak + 1)
    else
      match mode
      case Standard => p.(perfect := false, streak := 0)
      case Lives => p.(perfect := false, streak := 0, score := p.score - 1)
  }

  /** The update applied to every player, in roster order. */
  function ScoreRound(q: MCQuestion, roster: seq<Player>, mode: Mode): (r: seq<Player>)
    ensures |r| == |roster|
    ensures forall i :: 0 <= i < |r| ==>
              r[i].name == roster[i].name && r[i].id == roster[i].id && r[i].answer == roster[i].answer
  {
    seq(|roster|, i requires 0 <= i < |roster| => Update(roster[i], Correct(q, roster[i]), mode))
  }

  /**
   * The updated players whose answer was right (`hit`) or wrong (`!hit`), in
   * roster order: the standard game reports streaks of the former, the lives
   * game health of the latter.
   */
  function Picked(q: MCQuestion, roster: seq<Player>, mode: Mode, hit: bool): (r: seq<Player>)
    ensures |r| <= |roster|
  {
    if |roster| == 0 then []
    else
      var rest := Picked(q, roster[1..], mode, hit);
      if Correct(q, roster[0]) == hit then [Update(roster[0], hit, mode)] + rest else rest
  }

  function TotalScore(ps: seq<Player>): int {
    if |ps| == 0 then 0 else ps[0].score + TotalScore(ps[1..])
  }

  /**
   * Points change by exactly the number of right answers in the standard game
   * and lives by exactly the number of wrong ones in the lives game.
   */
  lemma {:induction false} ScoreRoundTotal(q: MCQuestion, roster: seq<Player>, mode: Mode)
    ensures mode == Standard ==>
              TotalScore(ScoreRound(q, roster, mode)) == TotalScore(roster) + |Picked(q, roster, mode, true)|
    ensures mode == Lives ==>
              TotalScore(ScoreRound(q, roster, mode)) == TotalScore(roster) - |Picked(q, roster, mode, false)|
    ensures |Picked(q, roster, mode, true)| + |Picked(q, roster, mode, false)| == |roster|
    decreases |roster|
  {
    if |roster| > 0 {
      ScoreRoundTotal(q, roster[1..], mode);
      assert ScoreRound(q, roster, mode)[1..] == ScoreRound(q, roster[1..], mode);
    }
  }

  // ---------------------------------------------------------------------------
  // A player's record over a whole game
  // ---------------------------------------------------------------------------

  /** The player after a run of questions, `hits[k]` saying whether the k-th was answered right. */
  function Replay(p: Player, hits: seq<bool>, mode: Mode): Player
    decreases |hits|
  {
    if |hits| == 0 then p else Replay(Update(p, hits[0], mode), hits[1..], mode)
  }

  function Count(hits: seq<bool>): nat {
    if |hits| == 0 then 0 else (if hits[|hits| - 1] then 1 else 0) + Count(hits[..|hits| - 1])
  }

  predicate AllHits(hits: seq<bool>) {
    forall k :: 0 <= k < |hits| ==> hits[k]
  }

  /** The length of the run of right answers at the end of `hits`. */
  function TrailingHits(hits: seq<bool>): nat {
    if |hits| == 0 || !hits[|hits| - 1] then 0 else 1 + TrailingHits(hits[..|hits| - 1])
  }

  /**
   * Over any run of questions: the streak counts the right answers since the
   * last wrong one (on top of the starting streak if there was none), the
   * standard score grows by the right answers, the lives score falls by the
   * wrong ones, and the player stays perfect only if every answer was right.
   */
  lemma {:induction false} ReplaySummary(p: Player, hits: seq<bool>, mode: Mode)
    ensures Replay(p, hits, mode).streak == if AllHits(hits) then p.streak + |hits| else TrailingHits(hits)
    ensures mode == Standard ==> Replay(p, hits, mode).score == p.score + Count(hits)
    ensures mode == Lives ==> Replay(p, hits, mode).score == p.score - (|hits| - Count(hits))
    ensures Replay(p, hits, mode).perfect == (p.perfect && AllHits(hits))
    ensures Replay(p, hits, mode).(score := p.score, streak := p.streak, perfect := p.perfect) == p
    decreases |hits|
  {
    if |hits| > 0 {
      var n := |hits| - 1;
      var init := hits[..n];
      ReplaySnoc(p, init, hits[n], mode);
      assert init + [hits[n]] == hits;
      ReplaySummary(p, init, mode);
      if !AllHits(init) {
        assert !AllHits(hits) by {
          var k :| 0 <= k < n && !init[k];
          assert !hits[k];
        }
      }
      if AllHits(init) && hits[n] {
        assert AllHits(hits);
      }
    }
  }

  lemma {:induction false} ReplaySnoc(p: Player, hits: seq<bool>, last: bool, mode: Mode)
    ensures Replay(p, hits + [last], mode) == Update(Replay(p, hits, mode), last, mode)
    decreases |hits|
  {
    if |hits| == 0 {
      assert [last][1..] == [];
    } else {
      assert (hits + [last])[1..] == hits[1..] + [last];
      ReplaySnoc(Update(p, hits[0], mode), hits[1..], last, mode);
    }
  }

  /** A lives player who joins with 10 lives and misses three questions running has 7 left. */
  lemma LivesThreeMisses(p: Player)
    requires p.score == 10
    ensures Replay(p, [false, false, false], Lives).score == 7
    ensures Replay(p, [false, false, false], Lives).streak == 0
  {
    ReplaySummary(p, [false, false, false], Lives);
    assert !AllHits([false, false, false]);
  }

  // ---------------------------------------------------------------------------
  // Callouts
  // ---------------------------------------------------------------------------

  function Filter(ps: seq<Player>, keep: Player -> bool): (r: seq<Player>)
    ensures |r| <= |ps|
    ensures forall k :: 0 <= k < |r| ==> keep(r[k])
  {
    if |ps| == 0 then [] else if keep(ps[0]) then [ps[0]] + Filter(ps[1..], keep) else Filter(ps[1..], keep)
  }

  /** The players kept are exactly the given players that pass the test. */
  lemma {:induction false} FilterMembers(ps: seq<Player>, keep: Player -> bool, p: Player)
    ensures p in Filter(ps, keep) <==> p in ps && keep(p)
    decreases |ps|
  {
    if |ps| > 0 {
      FilterMembers(ps[1..], keep, p);
      assert ps == [ps[0]] + ps[1..];
    }
  }

  /**
   * The players kept keep their order: one player is kept exactly when it
   * passes, and filtering two runs one after the other gives the two results
   * one after the other.
   */
  lemma {:induction false} FilterOrder(a: seq<Player>, b: seq<Player>, keep: Player -> bool, x: Player)
    ensures Filter([x], keep) == if keep(x) then [x] else []
    ensures Filter(a + b, keep) == Filter(a, keep) + Filter(b, keep)
    decreases |a|
  {
    assert [x][1..] == [];
    if |a| == 0 {
      assert a + b == b;
    } else {
      assert (a + b)[1..] == a[1..] + b;
      FilterOrder(a[1..], b, keep, x);
    }
  }

  /** Scoring a player leaves the answer, and so the verdict on it, unchanged. */
  lemma UpdateKeepsVerdict(q: MCQuestion, p: Player, hit: bool, mode: Mode)
    ensures Update(p, hit, mode).answer == p.answer
    ensures Correct(q, Update(p, hit, mode)) == Correct(q, p)
  {
  }

  /**
   * The players picked for a report are the scored roster filtered by
   * whether their answer was right, so they come in roster order and each
   * carries the update it was scored with.
   */
  lemma {:induction false} PickedFiltersScored(q: MCQuestion, roster: seq<Player>, mode: Mode, hit: bool)
    ensures Picked(q, roster, mode, hit) == Filter(ScoreRound(q, roster, mode), p => Correct(q, p) == hit)
    decreases |roster|
  {
    if |roster| > 0 {
      PickedFiltersScored(q, roster[1..], mode, hit);
      var scored := ScoreRound(q, roster, mode);
      assert scored[1..] == ScoreRound(q, roster[1..], mode);
      UpdateKeepsVerdict(q, roster[0], Correct(q, roster[0]), mode);
    }
  }

  /** A player is picked exactly when it is the update of some roster entry whose verdict is `hit`. */
  lemma PickedMembers(q: MCQuestion, roster: seq<Player>, mode: Mode, hit: bool, p: Player)
    ensures p in Picked(q, roster, mode, hit) <==>
              exists i :: 0 <= i < |roster| && Correct(q, roster[i]) == hit && p == Update(roster[i], hit, mode)
  {
    var scored := ScoreRound(q, roster, mode);
    PickedFiltersScored(q, roster, mode, hit);
    FilterMembers(scored, p => Correct(q, p) == hit, p);
    if p in Picked(q, roster, mode, hit) {
      var i :| 0 <= i < |scored| && scored[i] == p;
      UpdateKeepsVerdict(q, roster[i], Correct(q, roster[i]), mode);
    }
    if exists i :: 0 <= i < |roster| && Correct(q, roster[i]) == hit && p == Update(roster[i], hit, mode) {
      var i :| 0 <= i < |roster| && Correct(q, roster[i]) == hit && p == Update(roster[i], hit, mode);
      assert scored[i] == p;
      UpdateKeepsVerdict(q, roster[i], hit, mode);
    }
  }

  predicate OnStreak(p: Player) {
    p.streak > 2
  }

  /** The health levels that are called out: 70, 50, 30 and 10 percent. */
  predicate AtCalloutHealth(p: Player) {
    10 * p.score in {70, 50, 30, 10}
  }

  function StreakItems(ps: seq<Player>): (r: seq<(Msg, Cue)>)
    ensures |r| == |ps|
  {
    seq(|ps|, k requires 0 <= k < |ps| => (StreakCallout(ps[k].name, ps[k].streak), StreakCue(ps[k].streak)))
  }

  function HealthItems(ps: seq<Player>): (r: seq<(Msg, Cue)>)
    ensures |r| == |ps|
  {
    seq(|ps|, k requires 0 <= k < |ps| => (HealthCallout(ps[k].name, 10 * ps[k].score), LifeCue(10 * ps[k].score)))
  }

  /** `_question_report` of the standard game, over the players who answered right. */
  function StreakReport(correct: seq<Player>): seq<Announcement> {
    Dedup(StreakItems(Filter(correct, OnStreak)), {})
  }

  /** `_question_report` of the lives game, over the players who answered wrong. */
  function HealthReport(incorrect: seq<Player>): seq<Announcement> {
    Dedup(HealthItems(Filter(incorrect, AtCalloutHealth)), {})
  }

  /**
   * The streak report calls out, in order, every given player whose streak is
   * above 2, and plays a streak's sound only for the first player called out
   * with that streak.
   */
  lemma StreakReportSpec(correct: seq<Player>, k: nat)
    requires k < |Filter(correct, OnStreak)|
    ensures |StreakReport(correct)| == |Filter(correct, OnStreak)|
    ensures var p := Filter(correct, OnStreak)[k];
            && p.streak > 2
            && StreakReport(correct)[k].msg == StreakCallout(p.name, p.streak)
            && StreakReport(correct)[k].cue ==
                 if forall j :: 0 <= j < k ==> Filter(correct, OnStreak)[j].streak != p.streak
                 then Some(StreakCue(p.streak)) else None
  {
    var items := StreakItems(Filter(correct, OnStreak));
    DedupFirstOccurrence(items, k);
    assert FirstOfItsCue(items, k) <==>
           forall j :: 0 <= j < k ==> Filter(correct, OnStreak)[j].streak != Filter(correct, OnStreak)[k].streak by {
      if FirstOfItsCue(items, k) {
        forall j | 0 <= j < k
          ensures Filter(correct, OnStreak)[j].streak != Filter(correct, OnStreak)[k].streak
        {
          assert items[j].1 != items[k].1;
        }
      }
    }
  }

  /**
   * The health report calls out, in order, every given player left with 7, 5,
   * 3 or 1 lives, and plays a level's sound only for the first player called
   * out at that level.
   */
  lemma HealthReportSpec(incorrect: seq<Player>, k: nat)
    requires k < |Filter(incorrect, AtCalloutHealth)|
    ensures |HealthReport(incorrect)| == |Filter(incorrect, AtCalloutHealth)|
    ensures var p := Filter(incorrect, AtCalloutHealth)[k];
            && p.score in {7, 5, 3, 1}
            && HealthReport(incorrect)[k].msg == HealthCallout(p.name, 10 * p.score)
            && HealthReport(incorrect)[k].cue ==
                 if forall j :: 0 <= j < k ==> Filter(incorrect, AtCalloutHealth)[j].score != p.score
                 then Some(LifeCue(10 * p.score)) else None
  {
    var items := HealthItems(Filter(incorrect, AtCalloutHealth));
    DedupFirstOccurrence(items, k);
    assert FirstOfItsCue(items, k) <==>
           forall j :: 0 <= j < k ==>
             Filter(incorrect, AtCalloutHealth)[j].score != Filter(incorrect, AtCalloutHealth)[k].score by {
      if FirstOfItsCue(items, k) {
        forall j | 0 <= j < k
          ensures Filter(incorrect, AtCalloutHealth)[j].score != Filter(incorrect, AtCalloutHealth)[k].score
        {
          assert items[j].1 != items[k].1;
        }
      }
    }
  }

  // ---------------------------------------------------------------------------
  // The question summary
  // ---------------------------------------------------------------------------

  function Names(ps: seq<Player>): (r: seq<string>)
    ensures |r| == |ps|
  {
    seq(|ps|, k requires 0 <= k < |ps| => ps[k].name)
  }

  function Scores(ps: seq<Player>): (r: seq<(string, int)>)
    ensures |r| == |ps|
  {
    seq(|ps|, k requires 0 <= k < |ps| => (ps[k].name, ps[k].score))
  }

  function Heading(mode: Mode): string {
    match mode
    case Standard => "Scores:"
    case Lives => "Hit Points Remaining:"
  }
}
