/**
 * The start command `start <mode>[ <1-2 digits>][ <difficulty>][ cat <category>]`
 * as `_parse_start_message` reads it: a full match against the command
 * pattern decides whether the command is accepted, and then each keyword
 * argument is taken from the first place in the whole command where its own
 * pattern matches.
 */
module Commands {
  import opened Wrappers
  import opened Strings
  import opened Questions

  const ModeWords: set<string> := {"mc", "tf", "free"}
  const DifficultyWords: set<string> := {"easy", "medium", "hard"}
  const StartWord := "start "
  const CatWord := "cat "

  /** The characters the category part may hold: `[a-zA-Z &]`. */
  predicate CatChar(c: char) {
    'a' <= c <= 'z' || 'A' <= c <= 'Z' || c == ' ' || c == '&'
  }

  predicate AllCatChars(s: string) {
    forall i :: 0 <= i < |s| ==> CatChar(s[i])
  }

  /** The pieces of a start command, each optional piece with its text. */
  datatype StartParts = StartParts(mode: string, num: Option<string>, diff: Option<string>, cat: Option<string>)

  predicate WellFormed(p: StartParts) {
    && p.mode in ModeWords
    && (p.num.Some? ==> 1 <= |p.num.value| <= 2 && AllDigits(p.num.value))
    && (p.diff.Some? ==> p.diff.value in DifficultyWords)
    && (p.cat.Some? ==> |p.cat.value| > 0 && AllCatChars(p.cat.value))
  }

  function Piece(prefix: string, o: Option<string>): string {
    if o.Some? then prefix + o.value else ""
  }

  function CatPiece(p: StartParts): string {
    Piece(" " + CatWord, p.cat)
  }

  function DiffPiece(p: StartParts): string {
    Piece(" ", p.diff) + CatPiece(p)
  }

  function NumPiece(p: StartParts): string {
    Piece(" ", p.num) + DiffPiece(p)
  }

  /** The command text the pieces spell. */
  function Render(p: StartParts): string {
    StartWord + (p.mode + NumPiece(p))
  }

  // ---------------------------------------------------------------------------
  // The full match
  // ---------------------------------------------------------------------------

  function ParseMode(s: string): (r: Option<(string, string)>)
    ensures r.Some? ==> r.value.0 in ModeWords && s == r.value.0 + r.value.1
  {
    if StartsWith(s, "mc") then Some(("mc", s[2..]))
    else if StartsWith(s, "tf") then Some(("tf", s[2..]))
    else if StartsWith(s, "free") then Some(("free", s[4..]))
    else None
  }

  /** ` \d{1,2}`, as many digits as there are (at most two). */
  function ParseNum(s: string): (r: (Option<string>, string))
    ensures s == Piece(" ", r.0) + r.1
    ensures r.0.Some? ==> 1 <= |r.0.value| <= 2 && AllDigits(r.0.value)
  {
    if |s| >= 2 && s[0] == ' ' && IsDigit(s[1]) then
      if |s| >= 3 && IsDigit(s[2]) then (Some(s[1..3]), s[3..]) else (Some(s[1..2]), s[2..])
    else (None, s)
  }

  function ParseDiff(s: string): (r: (Option<string>, string))
    ensures s == Piece(" ", r.0) + r.1
    ensures r.0.Some? ==> r.0.value in DifficultyWords
  {
    if StartsWith(s, " easy") then (Some("easy"), s[5..])
    else if StartsWith(s, " medium") then (Some("medium"), s[7..])
    else if StartsWith(s, " hard") then (Some("hard"), s[5..])
    else (None, s)
  }

  /** ` cat [a-zA-Z &]+$` or nothing at all; anything else is no match. */
  function ParseCat(s: string): (r: Option<Option<string>>)
    ensures r.Some? ==> s == Piece(" " + CatWord, r.value)
    ensures r.Some? && r.value.Some? ==> |r.value.value| > 0 && AllCatChars(r.value.value)
  {
    if s == [] then Some(None)
    else if StartsWith(s, " " + CatWord) && |s| > 5 && AllCatChars(s[5..]) then Some(Some(s[5..]))
    else None
  }

  /**
   * Whether the whole command matches the pattern, and how. The optional
   * pieces start with different characters after their space, so trying each
   * in turn decides the match.
   */
  function Recognise(s: string): Option<StartParts> {
    if !StartsWith(s, StartWord) then None
    else
      var (mode, r1) :- ParseMode(s[6..]);
      var (num, r2) := ParseNum(r1);
      var (diff, r3) := ParseDiff(r2);
      var cat :- ParseCat(r3);
      Some(StartParts(mode, num, diff, cat))
  }

  lemma StartsWithConcat(a: string, b: string)
    ensures StartsWith(a + b, a) && (a + b)[|a|..] == b
  {
    assert (a + b)[..|a|] == a;
  }

  lemma StartsWithAt(s: string, w: string, k: nat)
    ensures StartsWith(s, w) && k < |w| ==> s[k] == w[k]
  {
    if StartsWith(s, w) && k < |w| {
      assert s[..|w|][k] == s[k];
    }
  }

  lemma ParseCatPiece(p: StartParts)
    requires WellFormed(p)
    ensures ParseCat(CatPiece(p)) == Some(p.cat)
  {
    if p.cat.Some? {
      StartsWithConcat(" " + CatWord, p.cat.value);
    }
  }

  lemma ParseDiffEasy(c: string)
    ensures ParseDiff(" easy" + c) == (Some("easy"), c)
  {
    StartsWithConcat(" easy", c);
  }

  lemma ParseDiffMedium(c: string)
    ensures ParseDiff(" medium" + c) == (Some("medium"), c)
  {
    var d := " medium" + c;
    StartsWithConcat(" medium", c);
    assert d[1] == 'm';
    StartsWithAt(d, " easy", 1);
  }

  lemma ParseDiffHard(c: string)
    ensures ParseDiff(" hard" + c) == (Some("hard"), c)
  {
    var d := " hard" + c;
    StartsWithConcat(" hard", c);
    assert d[1] == 'h';
    StartsWithAt(d, " easy", 1);
    StartsWithAt(d, " medium", 1);
  }

  lemma ParseDiffWord(w: string, c: string)
    requires w in DifficultyWords
    ensures ParseDiff(" " + w + c) == (Some(w), c)
  {
    assert " " + w + c == (" " + w) + c;
    if w == "easy" {
      ParseDiffEasy(c);
    } else if w == "medium" {
      ParseDiffMedium(c);
    } else {
      ParseDiffHard(c);
    }
  }

  lemma ParseDiffNone(c: string)
    requires c == [] || (|c| >= 2 && c[1] == 'c')
    ensures ParseDiff(c) == (None, c)
  {
    if c != [] {
      StartsWithAt(c, " easy", 1);
      StartsWithAt(c, " medium", 1);
      StartsWithAt(c, " hard", 1);
    }
  }

  lemma ParseDiffPiece(p: StartParts)
    requires WellFormed(p)
    ensures ParseDiff(DiffPiece(p)) == (p.diff, CatPiece(p))
  {
    var c := CatPiece(p);
    if p.diff.Some? {
      ParseDiffWord(p.diff.value, c);
    } else {
      assert DiffPiece(p) == c;
      if p.cat.Some? {
        assert c == " cat " + p.cat.value;
        assert c[1] == 'c';
      }
      ParseDiffNone(c);
    }
  }

  lemma ParseNumPiece(p: StartParts)
    requires WellFormed(p)
    ensures ParseNum(NumPiece(p)) == (p.num, DiffPiece(p))
  {
    var d := DiffPiece(p);
    assert |d| > 0 ==> d[0] == ' ';
    if p.num.Some? {
      var n := p.num.value;
      var s := " " + n + d;
      assert s == " " + (n + d);
      assert s[1] == n[0];
      if |n| == 2 {
        assert s[2] == n[1];
        assert s[1..3] == n;
        assert s[3..] == d;
      } else {
        assert s[1..2] == n;
        assert s[2..] == d;
      }
    } else if p.diff.Some? {
      var w := p.diff.value;
      assert d[1] == w[0];
      assert w[0] == 'e' || w[0] == 'm' || w[0] == 'h';
    } else if p.cat.Some? {
      assert d == " cat " + p.cat.value;
      assert d[1] == 'c';
    }
    assert p.num.None? ==> NumPiece(p) == d;
  }

  lemma ParseModePiece(p: StartParts)
    requires WellFormed(p)
    ensures ParseMode(p.mode + NumPiece(p)) == Some((p.mode, NumPiece(p)))
  {
    var n := NumPiece(p);
    var s := p.mode + n;
    StartsWithConcat(p.mode, n);
    assert s[0] == p.mode[0];
    StartsWithAt(s, "mc", 0);
    StartsWithAt(s, "tf", 0);
  }

  /** Every well-formed command is accepted and read back into the same pieces. */
  lemma RecogniseRender(p: StartParts)
    requires WellFormed(p)
    ensures Recognise(Render(p)) == Some(p)
  {
    StartsWithConcat(StartWord, p.mode + NumPiece(p));
    ParseModePiece(p);
    ParseNumPiece(p);
    ParseDiffPiece(p);
    ParseCatPiece(p);
  }

  /** Whatever is accepted is exactly the rendering of well-formed pieces. */
  lemma RenderRecognise(s: string)
    requires Recognise(s).Some?
    ensures WellFormed(Recognise(s).value) && Render(Recognise(s).value) == s
  {
    assert s == StartWord + s[6..];
  }

  // ---------------------------------------------------------------------------
  // Keyword extraction: the first match anywhere in the command
  // ---------------------------------------------------------------------------

  datatype Pattern = Digit | Difficulty | Category | ModeWord

  /** Whether the pattern matches at the start of `t`. */
  predicate Match(pat: Pattern, t: string) {
    match pat
    case Digit => |t| > 0 && IsDigit(t[0])
    case Difficulty => StartsWith(t, "easy") || StartsWith(t, "medium") || StartsWith(t, "hard")
    case Category => StartsWith(t, CatWord) && |t| > 4 && AllCatChars(t[4..])
    case ModeWord => StartsWith(t, "mc") || StartsWith(t, "tf") || StartsWith(t, "free")
  }

  predicate Hit(pat: Pattern, s: string, i: nat) {
    i <= |s| && Match(pat, s[i..])
  }

  /** `pattern.search`: the leftmost position where the pattern matches. */
  function SearchFrom(pat: Pattern, s: string, from: nat): (r: Option<nat>)
    requires from <= |s|
    ensures r.Some? ==> from <= r.value <= |s| && Hit(pat, s, r.value)
    decreases |s| - from
  {
    if Hit(pat, s, from) then Some(from) else if from == |s| then None else SearchFrom(pat, s, from + 1)
  }

  function Search(pat: Pattern, s: string): Option<nat> {
    SearchFrom(pat, s, 0)
  }

  /**
   * The search is leftmost: nothing matches before the position it finds,
   * and when it finds nothing the pattern matches nowhere from its start on.
   */
  lemma {:induction false} SearchFromLeftmost(pat: Pattern, s: string, from: nat)
    requires from <= |s|
    ensures SearchFrom(pat, s, from).Some? ==>
      forall j :: from <= j < SearchFrom(pat, s, from).value ==> !Hit(pat, s, j)
    ensures SearchFrom(pat, s, from).None? ==> forall j :: from <= j <= |s| ==> !Hit(pat, s, j)
    decreases |s| - from
  {
    if !Hit(pat, s, from) && from < |s| {
      var r := SearchFrom(pat, s, from + 1);
      assert SearchFrom(pat, s, from) == r;
      SearchFromLeftmost(pat, s, from + 1);
      forall j | from <= j <= |s| && (r.Some? ==> j < r.value)
        ensures !Hit(pat, s, j)
      {
        if j == from {
        }
      }
    }
  }

  /** `\d{1,2}` read greedily at the start of `t`, as a number. */
  function LeadingNumber(t: string): int
    requires |t| > 0 && IsDigit(t[0])
  {
    if |t| > 1 && IsDigit(t[1]) then DigitsValue(t[..2]) as int else DigitsValue(t[..1]) as int
  }

  /** The alternative of `easy|medium|hard` that matched. */
  function DifficultyWord(t: string): string {
    if StartsWith(t, "easy") then "easy" else if StartsWith(t, "medium") then "medium" else "hard"
  }

  /** The alternative of `mc|tf|free` that matched. */
  function ModeWordOf(t: string): string {
    if StartsWith(t, "mc") then "mc" else if StartsWith(t, "tf") then "tf" else "free"
  }

  /** The `num` argument: the first one or two digits, as a number. */
  function NumKwarg(s: string): Option<int> {
    match Search(Digit, s)
    case None => None
    case Some(i) => Some(LeadingNumber(s[i..]))
  }

  /** The `difficulty` argument: the first difficulty word anywhere. */
  function DiffKwarg(s: string): Option<string> {
    match Search(Difficulty, s)
    case None => None
    case Some(i) => Some(DifficultyWord(s[i..]))
  }

  /** The `category` argument: what follows the first `cat ` that runs to the end in category characters. */
  function CatKwarg(s: string): Option<string> {
    match Search(Category, s)
    case None => None
    case Some(i) => Some(s[i..][4..])
  }

  /** The game mode: the first mode word anywhere. */
  function ModeOf(s: string): Option<string> {
    match Search(ModeWord, s)
    case None => None
    case Some(i) => Some(ModeWordOf(s[i..]))
  }

  /**
   * `_parse_start_message`: no result unless the whole command matches;
   * otherwise the mode and the keyword arguments. (The question type the
   * source also returns is never used.)
   */
  function ParseStart(s: string): Option<(string, Kwargs)> {
    if Recognise(s).None? then None
    else
      var mode :- ModeOf(s);
      Some((mode, Kwargs(CatKwarg(s), DiffKwarg(s), NumKwarg(s))))
  }

  // ---------------------------------------------------------------------------
  // Searching a rendered command
  // ---------------------------------------------------------------------------

  lemma SearchAt(pat: Pattern, s: string, k: nat)
    requires k <= |s| && Hit(pat, s, k)
    requires forall j :: 0 <= j < k ==> !Hit(pat, s, j)
    ensures Search(pat, s) == Some(k)
  {
    SearchFromLeftmost(pat, s, 0);
  }

  lemma SuffixShift(a: string, b: string, j: nat)
    requires j <= |b|
    ensures (a + b)[|a| + j..] == b[j..]
  {
  }

  function Shifted(o: Option<nat>, k: nat): Option<nat> {
    if o.Some? then Some(k + o.value) else None
  }

  lemma HitPastPrefix(pat: Pattern, a: string, b: string, j: nat)
    requires |a| <= j <= |a + b|
    ensures Hit(pat, a + b, j) == Hit(pat, b, j - |a|)
  {
    SuffixShift(a, b, j - |a|);
  }

  lemma SearchShiftFound(pat: Pattern, a: string, b: string, k: nat)
    requires forall j :: 0 <= j < |a| ==> !Hit(pat, a + b, j)
    requires Search(pat, b) == Some(k)
    ensures Search(pat, a + b) == Some(|a| + k)
  {
    SearchFromLeftmost(pat, b, 0);
    HitPastPrefix(pat, a, b, |a| + k);
    forall j | |a| <= j < |a| + k
      ensures !Hit(pat, a + b, j)
    {
      HitPastPrefix(pat, a, b, j);
    }
    SearchAt(pat, a + b, |a| + k);
  }

  lemma SearchShiftNone(pat: Pattern, a: string, b: string)
    requires forall j :: 0 <= j < |a| ==> !Hit(pat, a + b, j)
    requires Search(pat, b) == None
    ensures Search(pat, a + b) == None
  {
    SearchFromLeftmost(pat, b, 0);
    SearchFromLeftmost(pat, a + b, 0);
    forall j | |a| <= j <= |a + b|
      ensures !Hit(pat, a + b, j)
    {
      HitPastPrefix(pat, a, b, j);
    }
  }

  /** Skipping a prefix where the pattern never matches. */
  lemma SearchShift(pat: Pattern, a: string, b: string)
    requires forall j :: 0 <= j < |a| ==> !Hit(pat, a + b, j)
    ensures Search(pat, a + b) == Shifted(Search(pat, b), |a|)
  {
    match Search(pat, b)
    case Some(k) => SearchShiftFound(pat, a, b, k);
    case None => SearchShiftNone(pat, a, b);
  }

  /** The first two characters of some word of the pattern. */
  predicate Lead(pat: Pattern, c: char, d: char) {
    match pat
    case Digit => IsDigit(c)
    case Difficulty => (c == 'e' && d == 'a') || (c == 'm' && d == 'e') || (c == 'h' && d == 'a')
    case Category => c == 'c' && d == 'a'
    case ModeWord => (c == 'm' && d == 'c') || (c == 't' && d == 'f') || (c == 'f' && d == 'r')
  }

  /** A match needs the right character there, and (for words) the right one after it. */
  lemma HitLead(pat: Pattern, s: string, j: nat)
    ensures Hit(pat, s, j) ==> j < |s| && (pat == Digit ==> IsDigit(s[j]))
    ensures Hit(pat, s, j) && pat != Digit ==> j + 1 < |s| && Lead(pat, s[j], s[j + 1])
  {
    if j <= |s| {
      var t := s[j..];
      StartsWithAt(t, "easy", 0);
      StartsWithAt(t, "easy", 1);
      StartsWithAt(t, "medium", 0);
      StartsWithAt(t, "medium", 1);
      StartsWithAt(t, "hard", 0);
      StartsWithAt(t, "hard", 1);
      StartsWithAt(t, CatWord, 0);
      StartsWithAt(t, CatWord, 1);
      StartsWithAt(t, "mc", 0);
      StartsWithAt(t, "mc", 1);
      StartsWithAt(t, "tf", 0);
      StartsWithAt(t, "tf", 1);
      StartsWithAt(t, "free", 0);
      StartsWithAt(t, "free", 1);
    }
  }

  lemma NoHitInStart(pat: Pattern, rest: string)
    ensures forall j :: 0 <= j < 6 ==> !Hit(pat, StartWord + rest, j)
  {
    var s := StartWord + rest;
    assert s[0] == 's' && s[1] == 't' && s[2] == 'a' && s[3] == 'r' && s[4] == 't' && s[5] == ' ';
    forall j | 0 <= j < 6
      ensures !Hit(pat, s, j)
    {
      HitLead(pat, s, j);
    }
  }

  lemma NoHitInMode(pat: Pattern, mode: string, rest: string)
    requires mode in ModeWords && pat != ModeWord
    requires |rest| > 0 ==> rest[0] == ' '
    ensures forall j :: 0 <= j < |mode| ==> !Hit(pat, mode + rest, j)
  {
    var s := mode + rest;
    assert forall j :: 0 <= j < |mode| ==> s[j] == mode[j];
    assert |rest| > 0 ==> s[|mode|] == ' ';
    forall j | 0 <= j < |mode|
      ensures !Hit(pat, s, j)
    {
      HitLead(pat, s, j);
    }
  }

  /** No other pattern matches inside a difficulty word followed by a space or nothing. */
  lemma NoHitInDiff(pat: Pattern, w: string, rest: string)
    requires w in DifficultyWords && pat != Difficulty
    requires |rest| > 0 ==> rest[0] == ' '
    ensures forall j :: 0 <= j < |w| + 1 ==> !Hit(pat, " " + w + rest, j)
  {
    if w == "easy" {
      NoHitInEasy(pat, w, rest);
    } else if w == "medium" {
      NoHitInMedium(pat, w, rest);
    } else {
      NoHitInHard(pat, w, rest);
    }
  }

  lemma NoHitInEasy(pat: Pattern, w: string, rest: string)
    requires w == "easy" && pat != Difficulty
    requires |rest| > 0 ==> rest[0] == ' '
    ensures forall j :: 0 <= j < |w| + 1 ==> !Hit(pat, " " + w + rest, j)
  {
    var s := " " + w + rest;
    assert forall j :: 0 <= j < |w| ==> s[j + 1] == w[j];
    assert |rest| > 0 ==> s[|w| + 1] == ' ';
    forall j | 0 <= j < |w| + 1
      ensures !Hit(pat, s, j)
    {
      HitLead(pat, s, j);
    }
  }

  lemma NoHitInMedium(pat: Pattern, w: string, rest: string)
    requires w == "medium" && pat != Difficulty
    requires |rest| > 0 ==> rest[0] == ' '
    ensures forall j :: 0 <= j < |w| + 1 ==> !Hit(pat, " " + w + rest, j)
  {
    var s := " " + w + rest;
    assert forall j :: 0 <= j < |w| ==> s[j + 1] == w[j];
    assert |rest| > 0 ==> s[|w| + 1] == ' ';
    forall j | 0 <= j < |w| + 1
      ensures !Hit(pat, s, j)
    {
      HitLead(pat, s, j);
    }
  }

  lemma NoHitInHard(pat: Pattern, w: string, rest: string)
    requires w == "hard" && pat != Difficulty
    requires |rest| > 0 ==> rest[0] == ' '
    ensures forall j :: 0 <= j < |w| + 1 ==> !Hit(pat, " " + w + rest, j)
  {
    var s := " " + w + rest;
    assert forall j :: 0 <= j < |w| ==> s[j + 1] == w[j];
    assert |rest| > 0 ==> s[|w| + 1] == ' ';
    forall j | 0 <= j < |w| + 1
      ensures !Hit(pat, s, j)
    {
      HitLead(pat, s, j);
    }
  }

  lemma NoHitInNum(pat: Pattern, n: string, rest: string)
    requires 1 <= |n| <= 2 && AllDigits(n) && pat != Digit
    ensures forall j :: 0 <= j < |n| + 1 ==> !Hit(pat, " " + n + rest, j)
  {
    var s := " " + n + rest;
    assert forall j :: 0 <= j < |n| ==> s[j + 1] == n[j];
    forall j | 0 <= j < |n| + 1
      ensures !Hit(pat, s, j)
    {
      HitLead(pat, s, j);
    }
  }

  lemma NoHitInCatWord(pat: Pattern, rest: string)
    requires pat != Category
    ensures forall j :: 0 <= j < 5 ==> !Hit(pat, " " + CatWord + rest, j)
  {
    var s := " " + CatWord + rest;
    assert s[0] == ' ' && s[1] == 'c' && s[2] == 'a' && s[3] == 't' && s[4] == ' ';
    forall j | 0 <= j < 5
      ensures !Hit(pat, s, j)
    {
      HitLead(pat, s, j);
    }
  }

  lemma NoDigitsInCategory(c: string)
    requires AllCatChars(c)
    ensures Search(Digit, c) == None
  {
    forall j | 0 <= j <= |c|
      ensures !Hit(Digit, c, j)
    {
      HitLead(Digit, c, j);
    }
  }

  lemma NothingInEmpty(pat: Pattern)
    ensures Search(pat, "") == None
  {
  }

  lemma PiecesStartWithSpace(p: StartParts)
    ensures |CatPiece(p)| > 0 ==> CatPiece(p)[0] == ' '
    ensures |DiffPiece(p)| > 0 ==> DiffPiece(p)[0] == ' '
    ensures |NumPiece(p)| > 0 ==> NumPiece(p)[0] == ' '
  {
  }

  lemma SearchPastStart(pat: Pattern, rest: string)
    ensures Search(pat, StartWord + rest) == Shifted(Search(pat, rest), 6)
  {
    NoHitInStart(pat, rest);
    SearchShift(pat, StartWord, rest);
  }

  lemma SearchPastMode(pat: Pattern, mode: string, rest: string)
    requires mode in ModeWords && pat != ModeWord
    requires |rest| > 0 ==> rest[0] == ' '
    ensures Search(pat, mode + rest) == Shifted(Search(pat, rest), |mode|)
  {
    NoHitInMode(pat, mode, rest);
    SearchShift(pat, mode, rest);
  }

  lemma SearchPastStartAndMode(pat: Pattern, mode: string, rest: string)
    requires mode in ModeWords && pat != ModeWord
    requires |rest| > 0 ==> rest[0] == ' '
    ensures Search(pat, StartWord + (mode + rest)) == Shifted(Search(pat, rest), 6 + |mode|)
  {
    SearchPastStart(pat, mode + rest);
    SearchPastMode(pat, mode, rest);
    match Search(pat, rest)
    case None =>
    case Some(k) =>
  }

  lemma SearchPastHead(pat: Pattern, p: StartParts)
    requires WellFormed(p) && pat != ModeWord
    ensures Search(pat, Render(p)) == Shifted(Search(pat, NumPiece(p)), 6 + |p.mode|)
  {
    PiecesStartWithSpace(p);
    SearchPastStartAndMode(pat, p.mode, NumPiece(p));
  }

  lemma SearchPastNum(pat: Pattern, p: StartParts)
    requires WellFormed(p) && pat != Digit
    ensures Search(pat, NumPiece(p)) == Shifted(Search(pat, DiffPiece(p)), |Piece(" ", p.num)|)
  {
    if p.num.Some? {
      NoHitInNum(pat, p.num.value, DiffPiece(p));
      SearchShift(pat, " " + p.num.value, DiffPiece(p));
    } else {
      assert NumPiece(p) == DiffPiece(p);
    }
  }

  lemma SearchPastDiff(pat: Pattern, p: StartParts)
    requires WellFormed(p) && pat != Difficulty
    ensures Search(pat, DiffPiece(p)) == Shifted(Search(pat, CatPiece(p)), |Piece(" ", p.diff)|)
  {
    if p.diff.Some? {
      PiecesStartWithSpace(p);
      NoHitInDiff(pat, p.diff.value, CatPiece(p));
      SearchShift(pat, " " + p.diff.value, CatPiece(p));
    } else {
      assert DiffPiece(p) == CatPiece(p);
    }
  }

  lemma SuffixPastHead(p: StartParts, j: nat)
    requires j <= |NumPiece(p)|
    ensures Render(p)[6 + |p.mode| + j..] == NumPiece(p)[j..]
  {
    SuffixShift(StartWord, p.mode + NumPiece(p), |p.mode| + j);
    SuffixShift(p.mode, NumPiece(p), j);
  }

  lemma SuffixPastNum(p: StartParts, j: nat)
    requires j <= |DiffPiece(p)|
    ensures NumPiece(p)[|Piece(" ", p.num)| + j..] == DiffPiece(p)[j..]
  {
    SuffixShift(Piece(" ", p.num), DiffPiece(p), j);
  }

  lemma SuffixPastDiff(p: StartParts, j: nat)
    requires j <= |CatPiece(p)|
    ensures DiffPiece(p)[|Piece(" ", p.diff)| + j..] == CatPiece(p)[j..]
  {
    SuffixShift(Piece(" ", p.diff), CatPiece(p), j);
  }

  /** The mode comes from the first mode word, which is the one right after `start `. */
  lemma ModeOfRender(p: StartParts)
    requires WellFormed(p)
    ensures ModeOf(Render(p)) == Some(p.mode)
  {
    var s := Render(p);
    var t := p.mode + NumPiece(p);
    SuffixShift(StartWord, t, 0);
    StartsWithConcat(p.mode, NumPiece(p));
    assert t[0] == p.mode[0];
    StartsWithAt(t, "mc", 0);
    StartsWithAt(t, "tf", 0);
    NoHitInStart(ModeWord, t);
    SearchAt(ModeWord, s, 6);
  }

  lemma {:induction false} NumAfterSpace(n: string, d: string)
    requires 1 <= |n| <= 2 && AllDigits(n) && (|d| > 0 ==> d[0] == ' ')
    ensures Search(Digit, " " + n + d) == Some(1)
    ensures (" " + n + d)[1..] == n + d
    ensures LeadingNumber(n + d) == DigitsValue(n) as int
  {
    var t := " " + n + d;
    assert t[1..] == n + d;
    HitLead(Digit, t, 0);
    SearchAt(Digit, t, 1);
    if |n| == 2 {
      assert (n + d)[..2] == n;
    } else {
      assert (n + d)[..1] == n;
      assert |n + d| > 1 ==> (n + d)[1] == ' ';
    }
  }

  lemma NoDigitAfterNum(p: StartParts)
    requires WellFormed(p)
    ensures Search(Digit, DiffPiece(p)) == None
  {
    SearchPastDiff(Digit, p);
    if p.cat.Some? {
      NoHitInCatWord(Digit, p.cat.value);
      SearchShift(Digit, " " + CatWord, p.cat.value);
      NoDigitsInCategory(p.cat.value);
    } else {
      NothingInEmpty(Digit);
    }
  }

  /** The `num` argument is the number written, and absent when none is written. */
  lemma NumKwargOfRender(p: StartParts)
    requires WellFormed(p)
    ensures NumKwarg(Render(p)) == if p.num.Some? then Some(DigitsValue(p.num.value) as int) else None
  {
    SearchPastHead(Digit, p);
    PiecesStartWithSpace(p);
    if p.num.Some? {
      NumAfterSpace(p.num.value, DiffPiece(p));
      SuffixPastHead(p, 1);
    } else {
      assert NumPiece(p) == DiffPiece(p);
      NoDigitAfterNum(p);
    }
  }

  lemma CategoryAfterSpace(text: string)
    requires |text| > 0 && AllCatChars(text)
    ensures Search(Category, " " + CatWord + text) == Some(1)
    ensures (" " + CatWord + text)[1..][4..] == text
  {
    var c := " " + CatWord + text;
    assert c[1..] == CatWord + text;
    StartsWithConcat(CatWord, text);
    HitLead(Category, c, 0);
    SearchAt(Category, c, 1);
  }

  /** Where the category piece starts in the rendered command. */
  function CatOffset(p: StartParts): nat {
    6 + |p.mode| + |Piece(" ", p.num)| + |Piece(" ", p.diff)|
  }

  lemma ShiftedChain(x: Option<nat>, n: Option<nat>, d: Option<nat>, c: Option<nat>, k1: nat, k2: nat, k3: nat, k: nat)
    requires x == Shifted(n, k1) && n == Shifted(d, k2) && d == Shifted(c, k3) && k == k1 + k2 + k3
    ensures x == Shifted(c, k)
  {
  }

  lemma ShiftedTwice(x: Option<nat>, n: Option<nat>, c: Option<nat>, k1: nat, k2: nat, k: nat)
    requires x == Shifted(n, k1) && n == Shifted(c, k2) && k == k1 + k2
    ensures x == Shifted(c, k)
  {
  }

  lemma SearchPastAll(p: StartParts)
    requires WellFormed(p)
    ensures Search(Category, Render(p)) == Shifted(Search(Category, CatPiece(p)), CatOffset(p))
  {
    SearchPastHead(Category, p);
    SearchPastNum(Category, p);
    SearchPastDiff(Category, p);
    ShiftedChain(Search(Category, Render(p)), Search(Category, NumPiece(p)), Search(Category, DiffPiece(p)),
      Search(Category, CatPiece(p)), 6 + |p.mode|, |Piece(" ", p.num)|, |Piece(" ", p.diff)|, CatOffset(p));
  }

  lemma SuffixPastAll(p: StartParts, j: nat)
    requires j <= |CatPiece(p)|
    ensures Render(p)[CatOffset(p) + j..] == CatPiece(p)[j..]
  {
    var pd := |Piece(" ", p.diff)|;
    SuffixPastDiff(p, j);
    SuffixPastNum(p, pd + j);
    SuffixPastHead(p, |Piece(" ", p.num)| + pd + j);
  }

  /** A search that only sees a suffix reads the same category there. */
  lemma CatKwargOfSuffix(s: string, off: nat, text: string)
    requires off <= |s| && s[off..] == text
    requires Search(Category, s) == Shifted(Search(Category, text), off)
    ensures CatKwarg(s) == CatKwarg(text)
  {
    var t := Search(Category, text);
    if t.Some? {
      var k := t.value;
      assert s[off + k..] == s[off..][k..];
    }
  }

  lemma CatKwargOfPiece(p: StartParts)
    requires WellFormed(p)
    ensures CatKwarg(CatPiece(p)) == p.cat
  {
    if p.cat.Some? {
      CategoryAfterSpace(p.cat.value);
    } else {
      NothingInEmpty(Category);
    }
  }

  lemma CatPieceIsSuffix(p: StartParts)
    ensures CatOffset(p) <= |Render(p)| && Render(p)[CatOffset(p)..] == CatPiece(p)
  {
    SuffixPastAll(p, 0);
  }

  /** Nothing before the category piece reads as a category. */
  lemma CatKwargPastAll(p: StartParts)
    requires WellFormed(p)
    ensures CatKwarg(Render(p)) == CatKwarg(CatPiece(p))
  {
    SearchPastAll(p);
    CatPieceIsSuffix(p);
    CatKwargOfSuffix(Render(p), CatOffset(p), CatPiece(p));
  }

  /** The `category` argument is the category written, and absent when none is written. */
  lemma CatKwargOfRender(p: StartParts)
    requires WellFormed(p)
    ensures CatKwarg(Render(p)) == p.cat
  {
    CatKwargPastAll(p);
    CatKwargOfPiece(p);
  }

  lemma DifficultyAfterSpace(w: string, c: string)
    requires w in DifficultyWords && (|c| > 0 ==> c[0] == ' ')
    ensures Search(Difficulty, " " + w + c) == Some(1)
    ensures (" " + w + c)[1..] == w + c
    ensures DifficultyWord(w + c) == w
  {
    var d := " " + w + c;
    assert d[1..] == w + c;
    StartsWithConcat(w, c);
    assert (w + c)[0] == w[0];
    StartsWithAt(w + c, "easy", 0);
    StartsWithAt(w + c, "medium", 0);
    HitLead(Difficulty, d, 0);
    SearchAt(Difficulty, d, 1);
  }

  /** Where the difficulty piece starts in the rendered command. */
  function DiffOffset(p: StartParts): nat {
    6 + |p.mode| + |Piece(" ", p.num)|
  }

  lemma SearchDiffPastNum(p: StartParts)
    requires WellFormed(p)
    ensures Search(Difficulty, Render(p)) == Shifted(Search(Difficulty, DiffPiece(p)), DiffOffset(p))
  {
    var x := Search(Difficulty, Render(p));
    var n := Search(Difficulty, NumPiece(p));
    var d := Search(Difficulty, DiffPiece(p));
    SearchPastHead(Difficulty, p);
    SearchPastNum(Difficulty, p);
    ShiftedTwice(x, n, d, 6 + |p.mode|, |Piece(" ", p.num)|, DiffOffset(p));
  }

  lemma SuffixDiffPastNum(p: StartParts, j: nat)
    requires j <= |DiffPiece(p)|
    ensures Render(p)[DiffOffset(p) + j..] == DiffPiece(p)[j..]
  {
    SuffixPastNum(p, j);
    SuffixPastHead(p, |Piece(" ", p.num)| + j);
  }

  lemma DifficultyInCategory(text: string)
    ensures Search(Difficulty, " " + CatWord + text) == Shifted(Search(Difficulty, text), 5)
  {
    NoHitInCatWord(Difficulty, text);
    SearchShift(Difficulty, " " + CatWord, text);
  }


  /** A search that only sees a suffix reads the same difficulty there. */
  lemma DiffKwargOfSuffix(s: string, off: nat, text: string)
    requires off <= |s| && s[off..] == text
    requires Search(Difficulty, s) == Shifted(Search(Difficulty, text), off)
    ensures DiffKwarg(s) == DiffKwarg(text)
  {
    var t := Search(Difficulty, text);
    if t.Some? {
      var k := t.value;
      assert s[off + k..] == s[off..][k..];
    }
  }

  lemma DiffPieceIsSuffix(p: StartParts)
    ensures DiffOffset(p) <= |Render(p)| && Render(p)[DiffOffset(p)..] == DiffPiece(p)
  {
    SuffixDiffPastNum(p, 0);
  }

  /** The mode and the count never hold a difficulty word. */
  lemma DiffKwargPastNum(p: StartParts)
    requires WellFormed(p)
    ensures DiffKwarg(Render(p)) == DiffKwarg(DiffPiece(p))
  {
    SearchDiffPastNum(p);
    DiffPieceIsSuffix(p);
    DiffKwargOfSuffix(Render(p), DiffOffset(p), DiffPiece(p));
  }

  lemma DiffKwargOfWord(w: string, c: string)
    requires w in DifficultyWords && (|c| > 0 ==> c[0] == ' ')
    ensures DiffKwarg(" " + w + c) == Some(w)
  {
    DifficultyAfterSpace(w, c);
  }

  lemma DiffKwargGiven(p: StartParts)
    requires WellFormed(p) && p.diff.Some?
    ensures DiffKwarg(DiffPiece(p)) == p.diff
  {
    assert DiffPiece(p) == " " + p.diff.value + CatPiece(p);
    PiecesStartWithSpace(p);
    DiffKwargOfWord(p.diff.value, CatPiece(p));
  }

  lemma SearchDiffPieceInCategory(p: StartParts)
    requires p.diff.None? && p.cat.Some?
    ensures Search(Difficulty, DiffPiece(p)) == Shifted(Search(Difficulty, p.cat.value), 5)
    ensures DiffPiece(p)[5..] == p.cat.value
  {
    assert DiffPiece(p) == " " + CatWord + p.cat.value;
    DifficultyInCategory(p.cat.value);
  }

  lemma DiffKwargInCategory(p: StartParts)
    requires p.diff.None? && p.cat.Some?
    ensures DiffKwarg(DiffPiece(p)) == DiffKwarg(p.cat.value)
  {
    SearchDiffPieceInCategory(p);
    DiffKwargOfSuffix(DiffPiece(p), 5, p.cat.value);
  }

  lemma DiffKwargAbsent(p: StartParts)
    requires p.diff.None? && p.cat.None?
    ensures DiffKwarg(DiffPiece(p)) == None
  {
    assert DiffPiece(p) == "";
    NothingInEmpty(Difficulty);
  }

  /**
   * The `difficulty` argument is the difficulty written; when none is
   * written it is the first difficulty word inside the category, if any
   * (`start mc cat hardware` asks for hard questions).
   */
  lemma DiffKwargOfRender(p: StartParts)
    requires WellFormed(p)
    ensures p.diff.Some? ==> DiffKwarg(Render(p)) == p.diff
    ensures p.diff.None? && p.cat.Some? ==> DiffKwarg(Render(p)) == DiffKwarg(p.cat.value)
    ensures p.diff.None? && p.cat.None? ==> DiffKwarg(Render(p)) == None
  {
    DiffKwargPastNum(p);
    if p.diff.Some? {
      DiffKwargGiven(p);
    } else if p.cat.Some? {
      DiffKwargInCategory(p);
    } else {
      DiffKwargAbsent(p);
    }
  }

  /**
   * What the start command yields for an accepted command: its mode, and
   * each keyword argument as written (difficulty falling back to the
   * category's first difficulty word).
   */
  lemma ParseStartRender(p: StartParts)
    requires WellFormed(p)
    ensures ParseStart(Render(p)).Some?
    ensures ParseStart(Render(p)).value.0 == p.mode
    ensures ParseStart(Render(p)).value.1.category == p.cat
    ensures ParseStart(Render(p)).value.1.num == if p.num.Some? then Some(DigitsValue(p.num.value) as int) else None
    ensures ParseStart(Render(p)).value.1.difficulty ==
      if p.diff.Some? then p.diff else if p.cat.Some? then DiffKwarg(p.cat.value) else None
  {
    RecogniseRender(p);
    ModeOfRender(p);
    NumKwargOfRender(p);
    CatKwargOfRender(p);
    DiffKwargOfRender(p);
  }

  /** A command is rejected exactly when it does not match the pattern as a whole. */
  lemma ParseStartAccepts(s: string)
    ensures ParseStart(s).Some? <==> Recognise(s).Some?
  {
    if Recognise(s).Some? {
      RenderRecognise(s);
      ModeOfRender(Recognise(s).value);
    }
  }

  // ---------------------------------------------------------------------------
  // Examples
  // ---------------------------------------------------------------------------

  /** `start mc cat hardware` asks for hard questions from a category named "hardware". */
  lemma CategoryWordSetsDifficulty(s: string)
    requires s == "start mc cat hardware"
    ensures ParseStart(s) == Some(("mc", Kwargs(Some("hardware"), Some("hard"), None)))
  {
    var p := StartParts("mc", None, None, Some("hardware"));
    assert Render(p) == s;
    ParseStartRender(p);
    HardwareIsHard(p.cat.value);
  }

  lemma HardwareIsHard(c: string)
    requires c == "hardware"
    ensures DiffKwarg(c) == Some("hard")
  {
    assert Hit(Difficulty, c, 0);
    SearchAt(Difficulty, c, 0);
    StartsWithAt(c, "easy", 0);
    StartsWithAt(c, "medium", 0);
  }

  /** The pattern lets a count of 0 (or anything up to 99) through; only the question set refuses it. */
  lemma ZeroCountParses(s: string)
    requires s == "start mc 0"
    ensures ParseStart(s) == Some(("mc", Kwargs(None, None, Some(0))))
  {
    var p := StartParts("mc", Some("0"), None, None);
    assert Render(p) == s;
    ParseStartRender(p);
    assert DigitsValue("0") == 0;
  }

  /** Three digits do not fit `\d{1,2}`, so the command is rejected. */
  lemma ThreeDigitsRejected()
    ensures ParseStart("start mc 123") == None
  {
    var s := "start mc 123";
    StartsWithConcat(StartWord, "mc 123");
    assert s[6..] == "mc 123";
    StartsWithConcat("mc", " 123");
    assert ParseMode("mc 123") == Some(("mc", " 123"));
    var t := " 123";
    assert t[0] == ' ' && t[1] == '1' && t[2] == '2';
    assert t[1..3] == "12" && t[3..] == "3";
    assert ParseNum(t) == (Some("12"), "3");
    assert ParseDiff("3") == (None, "3");
  }
}
