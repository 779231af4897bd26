/**
 * The per-player record of a trivia game (the dataclass spelled `PLayer` in
 * the source) and its printed form.
 *
 * The record declares exactly `name, id, score, streak, perfect`, in that
 * positional order. The game also reads and writes an `answer` attribute that
 * the dataclass never declares; the model carries it as an explicit optional
 * field that is absent (`None`) when a record is built.
 */
module Players {
  import opened Wrappers
  import opened Strings

  datatype Player = Player(
    name: string,
    id: int,
    score: int,
    streak: int,
    perfect: bool,
    answer: Option<string>)

  /** The declared fields, in declaration order. */
  type Fields = (string, int, int, int, bool)

  function FieldsOf(p: Player): Fields {
    (p.name, p.id, p.score, p.streak, p.perfect)
  }

  /** Positional construction `Player(name, id, score, streak, perfect)`. */
  function NewPlayer(f: Fields): (p: Player)
    ensures FieldsOf(p) == f && p.answer == None
  {
    Player(f.0, f.1, f.2, f.3, f.4, None)
  }

  const HeaderPrefix := "Player: "
  const ScoreLabel := "\t- score: "
  const StreakLabel := "\t- streak: "
  const PerfectLabel := "\t- perfect: "

  /** `__repr__`: a header line with the id before the name, then one line per counter. */
  function Repr(p: Player): string {
    Join(ReprLines(p), '\n')
  }

  function ReprLines(p: Player): seq<string> {
    [HeaderPrefix + IntToString(p.id) + ": " + p.name,
     ScoreLabel + IntToString(p.score),
     StreakLabel + IntToString(p.streak),
     PerfectLabel + BoolToString(p.perfect)]
  }

  /** `__str__` delegates to `__repr__`. */
  function Str(p: Player): string {
    Repr(p)
  }

  /** Reads one `tag + value` line. */
  function Field(line: string, tag: string): Option<string> {
    if StartsWith(line, tag) then Some(line[|tag|..]) else None
  }

  function ParseHeader(line: string): Option<(string, int)> {
    var rest :- Field(line, HeaderPrefix);
    var (idText, tail) := SplitOnce(rest, ':');
    var id :- ParseInt(idText);
    var name :- Field(tail, " ");
    Some((name, id))
  }

  /** Reads a printed record back into its declared fields. */
  function ParseRepr(s: string): Option<Fields> {
    var lines := Split(s, '\n');
    if |lines| != 4 then None
    else
      var (name, id) :- ParseHeader(lines[0]);
      var scoreText :- Field(lines[1], ScoreLabel);
      var score :- ParseInt(scoreText);
      var streakText :- Field(lines[2], StreakLabel);
      var streak :- ParseInt(streakText);
      var perfectText :- Field(lines[3], PerfectLabel);
      var perfect :- ParseBool(perfectText);
      Some((name, id, score, streak, perfect))
  }

  lemma FieldOf(tag: string, value: string)
    ensures Field(tag + value, tag) == Some(value)
  {
    assert (tag + value)[..|tag|] == tag;
  }

  lemma NoNewlineInInt(i: int)
    ensures '\n' !in IntToString(i) && ':' !in IntToString(i)
  {
    if '\n' in IntToString(i) {
      IntToStringChars(i, '\n');
    }
    if ':' in IntToString(i) {
      IntToStringChars(i, ':');
    }
  }

  lemma ParseHeaderOf(id: int, name: string)
    ensures ParseHeader(HeaderPrefix + IntToString(id) + ": " + name) == Some((name, id))
  {
    var idText := IntToString(id);
    var rest := idText + [':'] + (" " + name);
    assert HeaderPrefix + idText + ": " + name == HeaderPrefix + rest;
    FieldOf(HeaderPrefix, rest);
    NoNewlineInInt(id);
    SplitOnceAt(idText, ':', " " + name);
    IntToStringRoundTrip(id);
    FieldOf(" ", name);
  }

  lemma ReprLinesUnbroken(p: Player)
    requires '\n' !in p.name
    ensures forall i :: 0 <= i < 4 ==> '\n' !in ReprLines(p)[i]
  {
    NoNewlineInInt(p.id);
    NoNewlineInInt(p.score);
    NoNewlineInInt(p.streak);
    var l0 := ReprLines(p)[0];
    assert l0 == HeaderPrefix + (IntToString(p.id) + (": " + p.name));
  }

  /**
   * The printed form determines every declared field: as long as the name
   * holds no line break (chat user names cannot), `ParseRepr` recovers name,
   * id, score, streak and perfect from `str(p)`.
   */
  lemma StrRoundTrip(p: Player)
    requires '\n' !in p.name
    ensures ParseRepr(Str(p)) == Some(FieldsOf(p))
  {
    ReprLinesUnbroken(p);
    SplitJoin(ReprLines(p), '\n');
    ParseHeaderOf(p.id, p.name);
    FieldOf(ScoreLabel, IntToString(p.score));
    FieldOf(StreakLabel, IntToString(p.streak));
    FieldOf(PerfectLabel, BoolToString(p.perfect));
    IntToStringRoundTrip(p.score);
    IntToStringRoundTrip(p.streak);
  }
}
