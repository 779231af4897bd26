/**
 * What the game hands to the bot's `say`/`speak`: an ordered list of
 * (text, optional sound cue) pairs. Texts are kept as message keys carrying
 * the values the source formats into them; rendering and playback are not
 * modelled.
 */
module Announcements {
  import opened Wrappers
  import opened Strings

  datatype Cue =
    | StreakCue(streak: int)
    | LifeCue(pct: int)
    | Countdown5
    | Prepare
    | QuestionReady
    | VictoryCue
    | FlawlessCue

  datatype Msg =
    | JoinWindow(seconds: int)
    | NobodyPlayed
    | GameStarting(gameName: string, difficulty: string, category: string, players: seq<string>)
    | QuestionText(number: int, question: string, choices: seq<string>)
    | AnswerTime(seconds: int)
    | SecondsLeft(seconds: int)
    | QuestionSkipped
    | Summary(letter: string, answer: string, correctPlayers: seq<string>, heading: string, scores: seq<(string, int)>)
    | StreakCallout(name: string, streak: int)
    | HealthCallout(name: string, lifePct: int)
    | Winner(id: int, score: int)
    | CriticalError
    | GameStopped

  datatype Announcement = Announcement(msg: Msg, cue: Option<Cue>)

  /**
   * The sound file a cue names. The health cues carry a random version number
   * 1-3 in the source, which is not modelled.
   */
  function CueFile(c: Cue): string {
    match c
    case StreakCue(n) => IntToString(n) + "streak.wav"
    case LifeCue(pct) => "lives/" + IntToString(pct) + "pct_life.wav"
    case Countdown5 => "countdown5.wav"
    case Prepare => "prepare.wav"
    case QuestionReady => "question_ready.wav"
    case VictoryCue => "victory.wav"
    case FlawlessCue => "flawless.wav"
  }

  function Say(m: Msg): Announcement {
    Announcement(m, None)
  }

  function SayWith(m: Msg, c: Cue): Announcement {
    Announcement(m, Some(c))
  }

  // ---------------------------------------------------------------------------
  // One sound per cue per batch
  // ---------------------------------------------------------------------------

  /**
   * A batch of callouts in which only the first callout for each cue plays the
   * sound: `seen` holds the cues already queued in this batch.
   */
  function Dedup(items: seq<(Msg, Cue)>, seen: set<Cue>): (r: seq<Announcement>)
    ensures |r| == |items|
    decreases |items|
  {
    if |items| == 0 then []
    else
      var (m, c) := items[0];
      if c !in seen then [SayWith(m, c)] + Dedup(items[1..], seen + {c})
      else [Say(m)] + Dedup(items[1..], seen)
  }

  predicate FirstOfItsCue(items: seq<(Msg, Cue)>, k: nat)
    requires k < |items|
  {
    forall j :: 0 <= j < k ==> items[j].1 != items[k].1
  }

  lemma {:induction false} DedupFrom(items: seq<(Msg, Cue)>, seen: set<Cue>, k: nat)
    requires k < |items|
    ensures Dedup(items, seen)[k].msg == items[k].0
    ensures Dedup(items, seen)[k].cue.Some? <==> items[k].1 !in seen && FirstOfItsCue(items, k)
    ensures Dedup(items, seen)[k].cue.Some? ==> Dedup(items, seen)[k].cue.value == items[k].1
    decreases k
  {
    var (m, c) := items[0];
    var seen' := if c !in seen then seen + {c} else seen;
    if k > 0 {
      DedupFrom(items[1..], seen', k - 1);
      assert Dedup(items, seen)[k] == Dedup(items[1..], seen')[k - 1];
      if items[k].1 !in seen' && FirstOfItsCue(items[1..], k - 1) {
        assert FirstOfItsCue(items, k) by {
          forall j | 0 <= j < k
            ensures items[j].1 != items[k].1
          {
            if j > 0 {
              assert items[j] == items[1..][j - 1];
            }
          }
        }
      }
      if FirstOfItsCue(items, k) {
        assert FirstOfItsCue(items[1..], k - 1) by {
          forall j | 0 <= j < k - 1
            ensures items[1..][j].1 != items[1..][k - 1].1
          {
            assert items[1..][j] == items[j + 1];
          }
        }
      }
    }
  }

  /**
   * In a deduplicated batch every callout keeps its text and position, and
   * carries its sound exactly when no earlier callout of the batch has the
   * same cue.
   */
  lemma DedupFirstOccurrence(items: seq<(Msg, Cue)>, k: nat)
    requires k < |items|
    ensures Dedup(items, {})[k].msg == items[k].0
    ensures Dedup(items, {})[k].cue == if FirstOfItsCue(items, k) then Some(items[k].1) else None
  {
    DedupFrom(items, {}, k);
  }
}
