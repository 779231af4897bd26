/**
 * The question supply of a game: a validated request configuration, the
 * request URL for the Open Trivia Database, the construction of
 * multiple-choice questions from a decoded API response, and the bounded
 * iterator the game draws questions from.
 *
 * The HTTP request itself, JSON handling and base64 decoding are outside the
 * model: the response (already decoded) is an input, and so are the random
 * numbers `random.shuffle` draws.
 */
module Questions {
  import opened Wrappers
  import opened Strings
  import opened Errors

  datatype QType = MultiChoice | TrueFalse | FreeResponse

  const Difficulties: set<string> := {"easy", "medium", "hard", "any"}
  const DefaultCategory := "General Knowledge"
  const DefaultDifficulty := "any"
  const DefaultNum := 20
  const ApiHost := "https://opentdb.com/api.php"
  const ApiBaseUrl := ApiHost + "?"

  /** The keyword arguments `category`, `difficulty` and `num`, each possibly absent. */
  datatype Kwargs = Kwargs(category: Option<string>, difficulty: Option<string>, num: Option<int>)

  /** A multiple-choice question; `choices[answerIndex]` is the correct text. */
  datatype MCQuestion = MCQuestion(
    cat: string,
    diff: string,
    question: string,
    answer: string,
    choices: seq<string>,
    answerIndex: nat)

  /** One entry of the API's `results` list, after decoding. */
  datatype RawQuestion = RawQuestion(
    category: string,
    difficulty: string,
    question: string,
    correct: string,
    incorrect: seq<string>)

  /** What the HTTP layer reports back for the request URL. */
  datatype Response = Response(status: int, responseCode: int, results: seq<RawQuestion>)

  datatype QuestionSet = QuestionSet(
    qType: QType,
    categories: map<string, int>,
    category: string,
    difficulty: string,
    num: int,
    index: nat,
    questions: seq<MCQuestion>,
    initialized: bool)

  /** What every constructed set satisfies and every operation keeps. */
  predicate Valid(qs: QuestionSet) {
    && 0 < qs.num < 51
    && qs.category in qs.categories
    && qs.difficulty in Difficulties
    && qs.index <= qs.num
  }

  // ---------------------------------------------------------------------------
  // Construction
  // ---------------------------------------------------------------------------

  function CategoryArg(k: Kwargs): string {
    k.category.GetOr(DefaultCategory)
  }

  function DifficultyArg(k: Kwargs): string {
    k.difficulty.GetOr(DefaultDifficulty)
  }

  function NumArg(k: Kwargs): int {
    k.num.GetOr(DefaultNum)
  }

  /**
   * `QuestionSet(q_type, **kwargs)`: missing arguments take their defaults,
   * then the count, the category and the difficulty are checked in that order.
   * The category table (read from a JSON file by the source) is a parameter.
   */
  function NewQuestionSet(qType: QType, kwargs: Kwargs, categories: map<string, int>)
    : (r: Result<QuestionSet, Exception>)
    ensures r.Success? <==>
              && 0 < NumArg(kwargs) < 51
              && CategoryArg(kwargs) in categories
              && DifficultyArg(kwargs) in Difficulties
    ensures !(0 < NumArg(kwargs) < 51) ==> r == Failure(AssertionError("0 < num < 51"))
    ensures r.Success? ==>
              && Valid(r.value)
              && r.value.index == 0
              && !r.value.initialized
              && r.value.questions == []
              && r.value.qType == qType
              && r.value.category == CategoryArg(kwargs)
              && r.value.difficulty == DifficultyArg(kwargs)
              && r.value.num == NumArg(kwargs)
  {
    var category := CategoryArg(kwargs);
    var difficulty := DifficultyArg(kwargs);
    var num := NumArg(kwargs);
    DifficultiesAreLower();
    if !(0 < num < 51) then Failure(AssertionError("0 < num < 51"))
    else if category !in categories then Failure(AssertionError("category in categories"))
    else if difficulty !in Difficulties then Failure(AssertionError("difficulty in DIFFICULTIES"))
    else Success(QuestionSet(qType, categories, category, Lower(difficulty), num, 0, [], false))
  }

  /** The allowed difficulties are already lower case, so lower-casing keeps them. */
  lemma DifficultiesAreLower()
    ensures forall d :: d in Difficulties ==> Lower(d) == d
  {
    assert Lower("easy") == "easy";
    assert Lower("medium") == "medium";
    assert Lower("hard") == "hard";
    assert Lower("any") == "any";
  }

  // ---------------------------------------------------------------------------
  // The request URL
  // ---------------------------------------------------------------------------

  predicate UrlReady(qs: QuestionSet) {
    qs.category != "" ==> qs.category in qs.categories
  }

  function TypeValue(t: QType): string {
    match t
    case MultiChoice => "multiple"
    case FreeResponse => "multiple"
    case TrueFalse => "boolean"
  }

  /** One appended `&key=value` piece. */
  function Param(key: string, value: string): string {
    "&" + key + "=" + value
  }

  function CategoryParam(qs: QuestionSet): string
    requires UrlReady(qs)
  {
    if qs.category != "" then Param("category", IntToString(qs.categories[qs.category])) else ""
  }

  function DifficultyParam(qs: QuestionSet): string {
    if qs.difficulty != "any" then Param("difficulty", qs.difficulty) else ""
  }

  /** The URL `initialize` sends the request to, built piece by piece as the source does. */
  function RequestUrl(qs: QuestionSet): string
    requires UrlReady(qs)
  {
    ApiBaseUrl + "amount=" + IntToString(qs.num) + Param("encode", "base64")
    + CategoryParam(qs) + DifficultyParam(qs) + Param("type", TypeValue(qs.qType))
  }

  function CategoryQuery(qs: QuestionSet): seq<(string, string)>
    requires UrlReady(qs)
  {
    if qs.category != "" then [("category", IntToString(qs.categories[qs.category]))] else []
  }

  function DifficultyQuery(qs: QuestionSet): seq<(string, string)> {
    if qs.difficulty != "any" then [("difficulty", qs.difficulty)] else []
  }

  /** The query parameters after `amount`, in order. */
  function TailQuery(qs: QuestionSet): seq<(string, string)>
    requires UrlReady(qs)
  {
    [("encode", "base64")] + CategoryQuery(qs) + DifficultyQuery(qs) + [("type", TypeValue(qs.qType))]
  }

  /** The query parameters the request must carry, in order. */
  function ExpectedQuery(qs: QuestionSet): seq<(string, string)>
    requires UrlReady(qs)
  {
    [("amount", IntToString(qs.num))] + TailQuery(qs)
  }

  /** Splits a URL into its `key=value` query parameters. */
  function ParseQuery(url: string): seq<(string, string)> {
    var parts := Split(SplitOnce(url, '?').1, '&');
    seq(|parts|, i requires 0 <= i < |parts| => SplitOnce(parts[i], '='))
  }

  function RenderParam(p: (string, string)): string {
    p.0 + "=" + p.1
  }

  function RenderQuery(ps: seq<(string, string)>): seq<string> {
    seq(|ps|, i requires 0 <= i < |ps| => RenderParam(ps[i]))
  }

  /** Each parameter preceded by `&`, as the source appends them. */
  function Appended(ps: seq<(string, string)>): string {
    if |ps| == 0 then "" else "&" + RenderParam(ps[0]) + Appended(ps[1..])
  }

  lemma {:induction false} AppendedConcat(a: seq<(string, string)>, b: seq<(string, string)>)
    ensures Appended(a + b) == Appended(a) + Appended(b)
    decreases |a|
  {
    if |a| == 0 {
      assert a + b == b;
    } else {
      assert (a + b)[0] == a[0];
      assert (a + b)[1..] == a[1..] + b;
      AppendedConcat(a[1..], b);
    }
  }

  lemma {:induction false} JoinAppended(p: (string, string), rest: seq<(string, string)>)
    ensures Join(RenderQuery([p] + rest), '&') == RenderParam(p) + Appended(rest)
    decreases |rest|
  {
    var ps := [p] + rest;
    if |rest| > 0 {
      assert RenderQuery(ps)[1..] == RenderQuery([rest[0]] + rest[1..]);
      JoinAppended(rest[0], rest[1..]);
    }
  }

  /** The URL is the base address followed by the expected parameters joined with `&`. */
  lemma AppendedOne(k: string, v: string)
    ensures Appended([(k, v)]) == Param(k, v)
  {
    assert [(k, v)][1..] == [];
  }

  lemma TailAppended(qs: QuestionSet)
    requires UrlReady(qs)
    ensures Appended(TailQuery(qs))
         == Param("encode", "base64") + CategoryParam(qs) + DifficultyParam(qs) + Param("type", TypeValue(qs.qType))
  {
    var c := CategoryQuery(qs);
    var d := DifficultyQuery(qs);
    var e := [("encode", "base64")];
    var y := [("type", TypeValue(qs.qType))];
    AppendedConcat(e + c + d, y);
    AppendedConcat(e + c, d);
    AppendedConcat(e, c);
    AppendedOne("encode", "base64");
    AppendedOne("type", TypeValue(qs.qType));
    if qs.category != "" {
      AppendedOne("category", IntToString(qs.categories[qs.category]));
    }
    if qs.difficulty != "any" {
      AppendedOne("difficulty", qs.difficulty);
    }
  }

  /** The URL is the base address followed by the expected parameters joined with `&`. */
  lemma RequestUrlShape(qs: QuestionSet)
    requires UrlReady(qs)
    ensures RequestUrl(qs) == ApiBaseUrl + Join(RenderQuery(ExpectedQuery(qs)), '&')
  {
    var amount := "amount=" + IntToString(qs.num);
    var tail := Param("encode", "base64") + CategoryParam(qs) + DifficultyParam(qs) + Param("type", TypeValue(qs.qType));
    TailAppended(qs);
    JoinAppended(("amount", IntToString(qs.num)), TailQuery(qs));
    assert RenderParam(("amount", IntToString(qs.num))) == amount;
    assert Join(RenderQuery(ExpectedQuery(qs)), '&') == amount + tail;
    var p := Param("encode", "base64");
    var c := CategoryParam(qs);
    var d := DifficultyParam(qs);
    var t := Param("type", TypeValue(qs.qType));
    calc {
      RequestUrl(qs);
      ApiBaseUrl + "amount=" + IntToString(qs.num) + p + c + d + t;
      { Assoc(ApiBaseUrl, "amount=", IntToString(qs.num)); }
      ApiBaseUrl + amount + p + c + d + t;
      { Assoc(ApiBaseUrl + amount, p, c); }
      ApiBaseUrl + amount + (p + c) + d + t;
      { Assoc(ApiBaseUrl + amount, p + c, d); }
      ApiBaseUrl + amount + (p + c + d) + t;
      { Assoc(ApiBaseUrl + amount, p + c + d, t); }
      ApiBaseUrl + amount + tail;
      { Assoc(ApiBaseUrl, amount, tail); }
      ApiBaseUrl + (amount + tail);
    }
  }

  lemma Assoc<T>(a: seq<T>, b: seq<T>, c: seq<T>)
    ensures a + b + c == a + (b + c)
  {
  }

  predicate PlainParam(p: (string, string)) {
    '&' !in p.0 && '=' !in p.0 && '&' !in p.1
  }

  lemma ParseRendered(ps: seq<(string, string)>)
    requires |ps| > 0
    requires forall i :: 0 <= i < |ps| ==> PlainParam(ps[i])
    ensures ParseQuery(ApiBaseUrl + Join(RenderQuery(ps), '&')) == ps
  {
    var q := Join(RenderQuery(ps), '&');
    assert ApiBaseUrl + q == ApiHost + ['?'] + q;
    assert '?' !in ApiHost;
    SplitOnceAt(ApiHost, '?', q);
    forall i | 0 <= i < |ps|
      ensures '&' !in RenderQuery(ps)[i]
      ensures SplitOnce(RenderQuery(ps)[i], '=') == ps[i]
    {
      assert RenderQuery(ps)[i] == ps[i].0 + ['='] + ps[i].1;
      SplitOnceAt(ps[i].0, '=', ps[i].1);
    }
    SplitJoin(RenderQuery(ps), '&');
  }

  lemma PrintedIntIsPlain(i: int)
    ensures '&' !in IntToString(i) && '=' !in IntToString(i)
  {
    if '&' in IntToString(i) {
      IntToStringChars(i, '&');
    }
    if '=' in IntToString(i) {
      IntToStringChars(i, '=');
    }
  }

  /**
   * Reading the request URL back gives exactly: `amount` and `encode=base64`
   * first, a `category` parameter iff a category is set, a `difficulty`
   * parameter iff the difficulty is not "any", and the question type last.
   */
  lemma RequestUrlQuery(qs: QuestionSet)
    requires Valid(qs)
    ensures ParseQuery(RequestUrl(qs)) == ExpectedQuery(qs)
  {
    RequestUrlShape(qs);
    ExpectedQueryPlain(qs);
    ParseRendered(ExpectedQuery(qs));
  }

  predicate AllPlain(ps: seq<(string, string)>) {
    forall i :: 0 <= i < |ps| ==> PlainParam(ps[i])
  }

  lemma AllPlainConcat(a: seq<(string, string)>, b: seq<(string, string)>)
    requires AllPlain(a) && AllPlain(b)
    ensures AllPlain(a + b)
  {
    forall i | 0 <= i < |a + b|
      ensures PlainParam((a + b)[i])
    {
      if i >= |a| {
        assert (a + b)[i] == b[i - |a|];
      }
    }
  }

  lemma ExpectedQueryPlain(qs: QuestionSet)
    requires Valid(qs)
    ensures AllPlain(ExpectedQuery(qs))
  {
    PrintedIntIsPlain(qs.num);
    PrintedIntIsPlain(qs.categories[qs.category]);
    var e := [("encode", "base64")];
    var c := CategoryQuery(qs);
    var d := DifficultyQuery(qs);
    var y := [("type", TypeValue(qs.qType))];
    assert AllPlain(e);
    assert AllPlain(c);
    assert AllPlain(d);
    assert AllPlain(y);
    AllPlainConcat(e, c);
    AllPlainConcat(e + c, d);
    AllPlainConcat(e + c + d, y);
    AllPlainConcat([("amount", IntToString(qs.num))], TailQuery(qs));
  }

  /** Every request URL starts with the base address, the count and the base64 flag. */
  lemma RequestUrlHead(qs: QuestionSet)
    requires UrlReady(qs)
    ensures StartsWith(RequestUrl(qs), ApiBaseUrl + "amount=" + IntToString(qs.num) + "&encode=base64")
  {
    var head := ApiBaseUrl + "amount=" + IntToString(qs.num) + Param("encode", "base64");
    var rest := CategoryParam(qs) + DifficultyParam(qs) + Param("type", TypeValue(qs.qType));
    assert Param("encode", "base64") == "&encode=base64";
    calc {
      RequestUrl(qs);
      head + CategoryParam(qs) + DifficultyParam(qs) + Param("type", TypeValue(qs.qType));
      { Assoc(head, CategoryParam(qs), DifficultyParam(qs)); }
      head + (CategoryParam(qs) + DifficultyParam(qs)) + Param("type", TypeValue(qs.qType));
      { Assoc(head, CategoryParam(qs) + DifficultyParam(qs), Param("type", TypeValue(qs.qType))); }
      head + rest;
    }
    assert (head + rest)[..|head|] == head;
  }

  // ---------------------------------------------------------------------------
  // Building multiple-choice questions
  // ---------------------------------------------------------------------------

  function Swap<T>(s: seq<T>, i: nat, j: nat): (r: seq<T>)
    requires i < |s| && j < |s|
    ensures |r| == |s| && multiset(r) == multiset(s)
  {
    s[i := s[j]][j := s[i]]
  }

  /**
   * The swaps of `random.shuffle` for positions `i` down to 1: position `i`
   * trades places with position `draws[|s| - 1 - i] mod (i + 1)`.
   */
  function ShuffleFrom<T>(s: seq<T>, i: nat, draws: seq<nat>): (r: seq<T>)
    requires i < |s| && |draws| + 1 == |s|
    ensures |r| == |s| && multiset(r) == multiset(s)
    decreases i
  {
    if i == 0 then s
    else
      var j := draws[|s| - 1 - i] % (i + 1);
      ShuffleFrom(Swap(s, i, j), i - 1, draws)
  }

  /** `random.shuffle` (Fisher-Yates), with one supplied draw per swap. */
  function Shuffle<T>(s: seq<T>, draws: seq<nat>): (r: seq<T>)
    requires |s| > 0 && |draws| + 1 == |s|
    ensures |r| == |s| && multiset(r) == multiset(s)
  {
    ShuffleFrom(s, |s| - 1, draws)
  }

  /** `list.index`: the first position holding `x`. */
  function IndexOf<T(==)>(s: seq<T>, x: T): (i: nat)
    requires x in s
    ensures i < |s| && s[i] == x
    ensures forall j :: 0 <= j < i ==> s[j] != x
  {
    if s[0] == x then 0 else 1 + IndexOf(s[1..], x)
  }

  /** The number of draws a raw question's shuffle consumes. */
  predicate DrawsFit(raws: seq<RawQuestion>, draws: seq<seq<nat>>) {
    |draws| == |raws| && forall k :: 0 <= k < |raws| ==> |draws[k]| == |raws[k].incorrect|
  }

  /**
   * `_construct_question` for the multiple-choice type: the choices are the
   * incorrect answers plus the correct one, shuffled, and the answer index is
   * the first position holding the correct text.
   */
  function ConstructQuestion(raw: RawQuestion, draws: seq<nat>): (q: MCQuestion)
    requires |draws| == |raw.incorrect|
    ensures multiset(q.choices) == multiset(raw.incorrect + [raw.correct])
    ensures q.answer == raw.correct
    ensures q.answerIndex < |q.choices| && q.choices[q.answerIndex] == q.answer
    ensures forall j :: 0 <= j < q.answerIndex ==> q.choices[j] != q.answer
    ensures q.cat == raw.category && q.diff == raw.difficulty && q.question == raw.question
  {
    var choices := Shuffle(raw.incorrect + [raw.correct], draws);
    assert raw.correct in multiset(raw.incorrect + [raw.correct]);
    assert raw.correct in choices;
    MCQuestion(raw.category, raw.difficulty, raw.question, raw.correct, choices, IndexOf(choices, raw.correct))
  }

  /** A question as the game expects it: its index points at its correct text. */
  predicate WellFormed(q: MCQuestion) {
    q.answerIndex < |q.choices| && q.choices[q.answerIndex] == q.answer
  }

  function ConstructAll(raws: seq<RawQuestion>, draws: seq<seq<nat>>): (qs: seq<MCQuestion>)
    requires DrawsFit(raws, draws)
    ensures |qs| == |raws|
    ensures forall k :: 0 <= k < |qs| ==> qs[k] == ConstructQuestion(raws[k], draws[k])
  {
    seq(|raws|, k requires 0 <= k < |raws| => ConstructQuestion(raws[k], draws[k]))
  }

  /**
   * `_fetch_questions` on the response the HTTP layer returned. A non-200
   * status raises `RuntimeError`; response code 2 raises whatever constructing
   * `ApiError` raises, and its `super(message)` call raises `TypeError`; any
   * other non-zero code raises `KeyError`, because the error message reads the
   * absent key "response code".
   */
  function FetchQuestions(resp: Response, draws: seq<seq<nat>>): (r: Result<seq<MCQuestion>, Exception>)
    requires DrawsFit(resp.results, draws)
    ensures r.Success? <==> resp.status == 200 && resp.responseCode == 0
    ensures r.Success? ==> r.value == ConstructAll(resp.results, draws)
  {
    if resp.status != 200 then Failure(RuntimeError("The response code was " + IntToString(resp.status)))
    else if resp.responseCode == 2 then Failure(TypeError("super() argument 1 must be a type"))
    else if resp.responseCode != 0 then Failure(KeyError("response code"))
    else Success(ConstructAll(resp.results, draws))
  }

  /**
   * `initialize`: reset the index, build the request URL (looking the
   * category's id up, which raises `KeyError` for a category missing from the
   * table), request the questions, and mark the set initialised only when the
   * request succeeded. Only the multiple-choice type is modelled here.
   */
  function Initialize(qs: QuestionSet, resp: Response, draws: seq<seq<nat>>): (o: Outcome<QuestionSet>)
    requires qs.qType == MultiChoice
    requires DrawsFit(resp.results, draws)
    ensures o.state.index == 0
    ensures o.raised.None? <==> UrlReady(qs) && resp.status == 200 && resp.responseCode == 0
    ensures !UrlReady(qs) ==> o.raised == Some(KeyError(qs.category))
    ensures o.raised.None? ==> o.state.initialized && o.state.questions == ConstructAll(resp.results, draws)
    ensures o.raised.Some? ==> o.state == qs.(index := 0)
    ensures o.state.(index := qs.index, questions := qs.questions, initialized := qs.initialized) == qs
  {
    var qs := qs.(index := 0);
    if !UrlReady(qs) then Outcome(qs, Some(KeyError(qs.category)))
    else
      match FetchQuestions(resp, draws)
      case Failure(e) => Outcome(qs, Some(e))
      case Success(questions) => Outcome(qs.(questions := questions, initialized := true), None)
  }

  // ---------------------------------------------------------------------------
  // Iteration
  // ---------------------------------------------------------------------------

  /** `__iter__`: refuses an uninitialised set, otherwise restarts from the first question. */
  function Iter(qs: QuestionSet): (r: Result<QuestionSet, Exception>)
    ensures r.Success? <==> qs.initialized
    ensures r.Success? ==> r.value == qs.(index := 0)
  {
    if !qs.initialized then Failure(RuntimeError("__iter__ before initialize")) else Success(qs.(index := 0))
  }

  /**
   * `next(questions, None)`: `__next__` refuses an uninitialised set, hands out
   * the question at the index and advances while the index is below the
   * requested count, and otherwise stops (`None`). Reading past the end of a
   * shorter question list raises `IndexError`.
   */
  function Next(qs: QuestionSet): (r: Result<(QuestionSet, Option<MCQuestion>), Exception>)
    ensures !qs.initialized ==> r.Failure?
    ensures r.Success? && r.value.1.Some? ==>
              && qs.index < qs.num && qs.index < |qs.questions|
              && r.value.1.value == qs.questions[qs.index]
              && r.value.0 == qs.(index := qs.index + 1)
    ensures r.Success? && r.value.1.None? ==> qs.index >= qs.num && r.value.0 == qs
    ensures qs.initialized && qs.index < qs.num && qs.index < |qs.questions| ==> r.Success? && r.value.1.Some?
    ensures qs.initialized && qs.index >= qs.num ==> r == Success((qs, None))
  {
    if !qs.initialized then Failure(RuntimeError("__next__ before initialize"))
    else if qs.index < qs.num then
      if qs.index < |qs.questions| then Success((qs.(index := qs.index + 1), Some(qs.questions[qs.index])))
      else Failure(IndexError("list index out of range"))
    else Success((qs, None))
  }

  /** Every question `next` hands out until it stops or raises. */
  function Drain(qs: QuestionSet): seq<MCQuestion>
    decreases qs.num - qs.index
  {
    match Next(qs)
    case Success((rest, Some(q))) => [q] + Drain(rest)
    case _ => []
  }

  /**
   * The iterator is bounded by the requested count: from index `i` it yields at
   * most `num - i` questions, and exactly `questions[i..num]` when the response
   * held at least `num` of them.
   */
  lemma {:induction false} DrainBounded(qs: QuestionSet)
    requires qs.initialized
    ensures |Drain(qs)| <= if qs.index <= qs.num then qs.num - qs.index else 0
    ensures qs.index <= qs.num <= |qs.questions| ==> Drain(qs) == qs.questions[qs.index..qs.num]
    decreases qs.num - qs.index
  {
    match Next(qs)
    case Success((rest, Some(q))) =>
      DrainBounded(rest);
    case _ =>
  }

  /** After `initialize` or `__iter__`, a full pass yields at most `num` questions. */
  lemma IterBounded(qs: QuestionSet)
    requires Valid(qs) && qs.initialized
    ensures Iter(qs).Success? && |Drain(Iter(qs).value)| <= qs.num
  {
    DrainBounded(qs.(index := 0));
  }

  function GetIndex(qs: QuestionSet): nat {
    qs.index
  }

  function GetQuestionNo(qs: QuestionSet): int {
    qs.index + 1
  }

  /**
   * The 1-based question number of the next question is the index after it
   * has been drawn: the question handed out is the `GetQuestionNo`-th one.
   */
  lemma QuestionNumbering(qs: QuestionSet)
    requires Next(qs).Success? && Next(qs).value.1.Some?
    ensures GetIndex(Next(qs).value.0) == GetQuestionNo(qs)
    ensures Next(qs).value.1.value == qs.questions[GetQuestionNo(qs) - 1]
  {
  }

  /** Every operation on a set keeps it valid. */
  lemma NextKeepsValid(qs: QuestionSet)
    requires Valid(qs) && Next(qs).Success?
    ensures Valid(Next(qs).value.0)
  {
  }

  /** `MCQuestion.get_index`: the position of the text in "abcd" (`None` where `str.index` raises). */
  function LetterIndex(c: string): (r: Option<nat>)
    ensures r.Some? ==> r.value + |c| <= 4 && "abcd"[r.value..r.value + |c|] == c
    ensures r.None? ==> forall j :: 0 <= j <= 4 ==> !OccursAt("abcd", c, j)
  {
    Find("abcd", c)
  }

  /** The four letters name the four choice positions in order. */
  lemma LetterIndexOfLetters()
    ensures LetterIndex("a") == Some(0)
    ensures LetterIndex("b") == Some(1)
    ensures LetterIndex("c") == Some(2)
    ensures LetterIndex("d") == Some(3)
  {
    assert OccursAt("abcd", "a", 0);
    assert OccursAt("abcd", "b", 1);
    assert OccursAt("abcd", "c", 2);
    assert OccursAt("abcd", "d", 3);
    assert !OccursAt("abcd", "b", 0);
    assert !OccursAt("abcd", "c", 0) && !OccursAt("abcd", "c", 1);
    assert !OccursAt("abcd", "d", 0) && !OccursAt("abcd", "d", 1) && !OccursAt("abcd", "d", 2);
  }
}
