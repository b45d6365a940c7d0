/**
  * The PHQ-9 depression screening (src/components/Assessment/PHQ9Assessment.tsx):
  * the answer map, the total score, the severity lookup over the band table,
  * the submit gate and the score thresholds of the results page.
  *
  * The questions, options and band table come from a data file that is not
  * part of this model; they are parameters here.
  */
module Phq9Assessment {
  import opened Seqs
  import opened Text
  import LanguageContext

  // ---------------------------------------------------------------------------
  // Questions and their display text

  datatype Question = Question(id: int, question: string, hindi: string, tamil: string)

  datatype AnswerOption = AnswerOption(value: int, text: string, hindi: string, tamil: string)

  /**
    * `getQuestionText` / `getOptionText`: the Hindi or Tamil text for those
    * languages, the English text otherwise. There is no fallback: an empty
    * localized text is shown as it is.
    */
  function Localized(language: LanguageContext.Language, english: string, hindi: string, tamil: string): (r: string)
    ensures language == LanguageContext.Hindi ==> r == hindi
    ensures language == LanguageContext.Tamil ==> r == tamil
    ensures language == LanguageContext.English ==> r == english
  {
    match language
    case Hindi => hindi
    case Tamil => tamil
    case English => english
  }

  function QuestionText(q: Question, language: LanguageContext.Language): string {
    Localized(language, q.question, q.hindi, q.tamil)
  }

  function OptionText(o: AnswerOption, language: LanguageContext.Language): string {
    Localized(language, o.text, o.hindi, o.tamil)
  }

  /** The question ids, in order. */
  function QuestionIds(questions: seq<Question>): (ids: seq<int>)
    ensures |ids| == |questions| && forall i :: 0 <= i < |questions| ==> ids[i] == questions[i].id
  {
    seq(|questions|, i requires 0 <= i < |questions| => questions[i].id)
  }

  /** No two questions share an id. */
  predicate DistinctIds(questions: seq<Question>) {
    NoDuplicates(QuestionIds(questions))
  }

  // ---------------------------------------------------------------------------
  // The answer object and the score

  /**
    * The `answers` object as its (question id, value) entries. Enumeration
    * order is left open: nothing below depends on it.
    */
  type Answers = seq<(int, int)>

  /** `Object.keys(answers)`. */
  function AnswerKeys(answers: Answers): (ks: seq<int>)
    ensures |ks| == |answers| && forall i :: 0 <= i < |answers| ==> ks[i] == answers[i].0
  {
    if answers == [] then [] else [answers[0].0] + AnswerKeys(answers[1..])
  }

  /** An object has one entry per key. */
  predicate WellKeyed(answers: Answers) {
    NoDuplicates(AnswerKeys(answers))
  }

  /** `answers[id]`: the recorded value, None when the question is unanswered. */
  function Get(answers: Answers, id: int): (r: Option<int>)
    ensures r.None? <==> id !in AnswerKeys(answers)
    ensures r.Some? ==> exists i :: 0 <= i < |answers| && answers[i] == (id, r.value)
  {
    if answers == [] then None
    else if answers[0].0 == id then Some(answers[0].1)
    else
      var r := Get(answers[1..], id);
      assert AnswerKeys(answers) == [answers[0].0] + AnswerKeys(answers[1..]);
      assert r.Some? ==> exists i :: 0 <= i < |answers[1..]| && answers[1..][i] == (id, r.value);
      r
  }

  /** `{...answers, [id]: value}`: the entry for `id` gets the value, added at the end if it was missing. */
  function Upsert(answers: Answers, id: int, value: int): (r: Answers)
    ensures AnswerKeys(r) == if id in AnswerKeys(answers) then AnswerKeys(answers) else AnswerKeys(answers) + [id]
  {
    if answers == [] then [(id, value)]
    else if answers[0].0 == id then
      var r := [(id, value)] + answers[1..];
      assert r[1..] == answers[1..];
      r
    else
      var rest := Upsert(answers[1..], id, value);
      var r := [answers[0]] + rest;
      assert r[1..] == rest;
      r
  }

  /** Recording an answer keeps one entry per key. */
  lemma UpsertWellKeyed(answers: Answers, id: int, value: int)
    requires WellKeyed(answers)
    ensures WellKeyed(Upsert(answers, id, value))
  {
    var keys := AnswerKeys(answers);
    if id !in keys {
      assert forall i :: 0 <= i < |keys| ==> (keys + [id])[i] == keys[i] != id;
    }
  }

  /** Recording an answer overwrites that question's value and leaves every other answer as it was. */
  lemma {:induction false} UpsertGet(answers: Answers, id: int, value: int, j: int)
    ensures Get(Upsert(answers, id, value), j) == if j == id then Some(value) else Get(answers, j)
  {
    if answers != [] && answers[0].0 != id {
      UpsertGet(answers[1..], id, value, j);
      assert Upsert(answers, id, value)[1..] == Upsert(answers[1..], id, value);
    }
  }

  /**
    * `calculateScore`: the sum of all recorded values; with values in 0..3
    * it lies between 0 and three times the number of answers.
    */
  function Score(answers: Answers): (r: int)
    ensures ValuesInRange(answers) ==> 0 <= r <= 3 * |answers|
  {
    if answers == [] then 0 else answers[0].1 + Score(answers[1..])
  }

  /** Recording an answer replaces the question's old contribution to the score with the new value. */
  lemma {:induction false} ScoreUpsert(answers: Answers, id: int, value: int)
    requires WellKeyed(answers)
    ensures Score(Upsert(answers, id, value)) ==
            Score(answers) - (if id in AnswerKeys(answers) then Get(answers, id).value else 0) + value
  {
    if answers != [] {
      assert AnswerKeys(answers) == [answers[0].0] + AnswerKeys(answers[1..]);
      assert WellKeyed(answers[1..]);
      if answers[0].0 != id {
        ScoreUpsert(answers[1..], id, value);
      }
    }
  }

  /** Every recorded value is one of the option values 0 to 3. */
  predicate ValuesInRange(answers: Answers) {
    forall i :: 0 <= i < |answers| ==> 0 <= answers[i].1 <= 3
  }

  /** When every answer has the same value, the score is that value times the number of answers. */
  lemma {:induction false} ScoreConstant(answers: Answers, value: int)
    requires forall i :: 0 <= i < |answers| ==> answers[i].1 == value
    ensures Score(answers) == value * |answers|
  {
    if answers != [] {
      var tail := answers[1..];
      assert forall i :: 0 <= i < |tail| ==> tail[i].1 == value by {
        forall i | 0 <= i < |tail| ensures tail[i].1 == value {
          assert tail[i] == answers[i + 1];
        }
      }
      ScoreConstant(tail, value);
      MulSucc(value, |tail|);
    }
  }

  /** One more factor of `v`. */
  lemma MulSucc(v: int, n: int)
    ensures v * (n + 1) == v * n + v
  {
  }

  /** A complete nine-question assessment scores between 0 and 27. */
  lemma CompleteScoreRange(answers: Answers)
    requires ValuesInRange(answers) && |answers| == 9
    ensures 0 <= Score(answers) <= 27
  {
  }

  // ---------------------------------------------------------------------------
  // Severity bands

  /** A band: the inclusive score range `[low, high]` with its display label (`title`) and colour tag. */
  datatype Band = Band(low: int, high: int, title: string, color: string)

  /** The `scoring` object: its entries in declared order, key first. */
  type Scoring = seq<(string, Band)>

  predicate InBand(score: int, band: Band) {
    band.low <= score <= band.high
  }

  /** The index of the first band at or after `from` that contains the score. */
  function FirstMatchFrom(scoring: Scoring, score: int, from: nat): (r: Option<nat>)
    requires from <= |scoring|
    ensures r.Some? ==> from <= r.value < |scoring| && InBand(score, scoring[r.value].1)
    ensures r.Some? ==> forall j :: from <= j < r.value ==> !InBand(score, scoring[j].1)
    ensures r.None? ==> forall j :: from <= j < |scoring| ==> !InBand(score, scoring[j].1)
    decreases |scoring| - from
  {
    if from == |scoring| then None
    else if InBand(score, scoring[from].1) then Some(from)
    else FirstMatchFrom(scoring, score, from + 1)
  }

  /** The index of the first band in declared order that contains the score. */
  function FirstMatch(scoring: Scoring, score: int): (r: Option<nat>)
    ensures r.Some? ==> r.value < |scoring| && InBand(score, scoring[r.value].1)
    ensures r.Some? ==> forall j :: 0 <= j < r.value ==> !InBand(score, scoring[j].1)
    ensures r.None? <==> forall j :: 0 <= j < |scoring| ==> !InBand(score, scoring[j].1)
  {
    FirstMatchFrom(scoring, score, 0)
  }

  /** `scoring[key]`: the band of the first entry with that key. */
  function BandOf(scoring: Scoring, key: string): (r: Option<Band>)
    ensures r.Some? ==> exists i :: 0 <= i < |scoring| && scoring[i] == (key, r.value)
    ensures r.None? ==> forall i :: 0 <= i < |scoring| ==> scoring[i].0 != key
  {
    if scoring == [] then None
    else if scoring[0].0 == key then Some(scoring[0].1)
    else
      var r := BandOf(scoring[1..], key);
      assert r.Some? ==> exists i :: 0 <= i < |scoring[1..]| && scoring[1..][i] == (key, r.value);
      r
  }

  /**
    * What `getSeverityInfo` returns: the key and fields of a band. `band` is
    * None when the fallback key `minimal` is itself missing from the table, in
    * which case only the key is set.
    */
  datatype SeverityInfo = SeverityInfo(key: string, band: Option<Band>)

  /** The severity of a score: the first containing band, else the `minimal` entry. */
  function Classify(scoring: Scoring, score: int): (info: SeverityInfo)
    ensures FirstMatch(scoring, score).Some? ==>
              var i := FirstMatch(scoring, score).value;
              info == SeverityInfo(scoring[i].0, Some(scoring[i].1))
    ensures FirstMatch(scoring, score).None? ==> info == SeverityInfo("minimal", BandOf(scoring, "minimal"))
    ensures info.band.Some? ==> exists i :: 0 <= i < |scoring| && scoring[i] == (info.key, info.band.value)
  {
    match FirstMatch(scoring, score)
    case Some(i) => SeverityInfo(scoring[i].0, Some(scoring[i].1))
    case None => SeverityInfo("minimal", BandOf(scoring, "minimal"))
  }

  /** `getSeverityInfo`: scans the entries in declared order and returns at the first that contains the score. */
  method GetSeverityInfo(scoring: Scoring, score: int) returns (info: SeverityInfo)
    ensures info == Classify(scoring, score)
  {
    var i := 0;
    while i < |scoring|
      invariant i <= |scoring|
      invariant forall j :: 0 <= j < i ==> !InBand(score, scoring[j].1)
    {
      var (key, band) := scoring[i];
      if score >= band.low && score <= band.high {
        return SeverityInfo(key, Some(band));
      }
      i := i + 1;
    }
    return SeverityInfo("minimal", BandOf(scoring, "minimal"));
  }

  /**
    * A well-formed table for scores `0..max`: non-empty ranges, the first
    * starting at 0, each starting right after the previous one ends, the
    * last ending at `max`, and distinct keys.
    */
  predicate WellFormed(scoring: Scoring, max: int) {
    && |scoring| > 0
    && scoring[0].1.low == 0
    && scoring[|scoring| - 1].1.high == max
    && (forall i :: 0 <= i < |scoring| ==> scoring[i].1.low <= scoring[i].1.high)
    && (forall i :: 0 <= i < |scoring| - 1 ==> scoring[i + 1].1.low == scoring[i].1.high + 1)
    && (forall i, j :: 0 <= i < j < |scoring| ==> scoring[i].0 != scoring[j].0)
  }

  /** In a well-formed table every band lies wholly below every later band. */
  lemma {:induction false} BandsOrdered(scoring: Scoring, max: int, i: nat, j: nat)
    requires WellFormed(scoring, max) && i < j < |scoring|
    ensures scoring[i].1.high < scoring[j].1.low
    decreases j - i
  {
    if j > i + 1 {
      BandsOrdered(scoring, max, i, j - 1);
    }
  }

  /** Every score from the start of band `from` up to `max` lies in band `from` or a later one. */
  lemma {:induction false} Covered(scoring: Scoring, max: int, score: int, from: nat)
    requires WellFormed(scoring, max) && from < |scoring|
    requires scoring[from].1.low <= score <= max
    ensures exists j :: from <= j < |scoring| && InBand(score, scoring[j].1)
    decreases |scoring| - from
  {
    if score > scoring[from].1.high {
      if from == |scoring| - 1 {
        assert false;
      }
      Covered(scoring, max, score, from + 1);
    }
  }

  /** The bands of a well-formed table partition `0..max`: each such score lies in exactly one band, the one found. */
  lemma Partition(scoring: Scoring, max: int, score: int)
    requires WellFormed(scoring, max) && 0 <= score <= max
    ensures FirstMatch(scoring, score).Some?
    ensures forall j :: 0 <= j < |scoring| && InBand(score, scoring[j].1) ==> j == FirstMatch(scoring, score).value
  {
    Covered(scoring, max, score, 0);
    var i := FirstMatch(scoring, score).value;
    forall j | 0 <= j < |scoring| && InBand(score, scoring[j].1)
      ensures j == i
    {
      if j > i {
        BandsOrdered(scoring, max, i, j);
      }
    }
  }

  /** A higher score never falls in an earlier (less severe) band. */
  lemma Monotonic(scoring: Scoring, max: int, s1: int, s2: int)
    requires WellFormed(scoring, max) && 0 <= s1 <= s2 <= max
    ensures FirstMatch(scoring, s1).Some? && FirstMatch(scoring, s2).Some?
    ensures FirstMatch(scoring, s1).value <= FirstMatch(scoring, s2).value
  {
    Partition(scoring, max, s1);
    Partition(scoring, max, s2);
    var i1, i2 := FirstMatch(scoring, s1).value, FirstMatch(scoring, s2).value;
    if i2 < i1 {
      BandsOrdered(scoring, max, i2, i1);
    }
  }

  /** The standard PHQ-9 keys and ranges, in order of severity. */
  const StandardRanges: seq<(string, int, int)> := [
    ("minimal", 0, 4),
    ("mild", 5, 9),
    ("moderate", 10, 14),
    ("moderately_severe", 15, 19),
    ("severe", 20, 27)
  ]

  /** A table with the standard keys and ranges in order; labels and colours are free. */
  predicate HasStandardRanges(scoring: Scoring) {
    |scoring| == |StandardRanges| &&
    forall i :: 0 <= i < |scoring| ==>
      scoring[i].0 == StandardRanges[i].0 &&
      scoring[i].1.low == StandardRanges[i].1 &&
      scoring[i].1.high == StandardRanges[i].2
  }

  lemma StandardIsWellFormed(scoring: Scoring)
    requires HasStandardRanges(scoring)
    ensures WellFormed(scoring, 27)
  {
  }

  /** The key a standard table gives a score. */
  function StandardKey(score: int): (key: string)
    ensures key in ["minimal", "mild", "moderate", "moderately_severe", "severe"]
  {
    if score <= 4 then "minimal"
    else if score <= 9 then "mild"
    else if score <= 14 then "moderate"
    else if score <= 19 then "moderately_severe"
    else "severe"
  }

  /** With the standard table every score from 0 to 27 gets the key of its standard range. */
  lemma StandardClassification(scoring: Scoring, score: int)
    requires HasStandardRanges(scoring) && 0 <= score <= 27
    ensures Classify(scoring, score).key == StandardKey(score)
    ensures Classify(scoring, score).band.Some?
  {
    StandardIsWellFormed(scoring);
    Partition(scoring, 27, score);
    var k := if score <= 4 then 0 else if score <= 9 then 1 else if score <= 14 then 2 else if score <= 19 then 3 else 4;
    assert InBand(score, scoring[k].1);
  }

  /** Outside every band, the `minimal` entry is returned; with a standard table that is its first entry. */
  lemma FallbackIsMinimal(scoring: Scoring, score: int)
    requires HasStandardRanges(scoring) && (score < 0 || score > 27)
    ensures Classify(scoring, score) == SeverityInfo("minimal", Some(scoring[0].1))
  {
    assert FirstMatch(scoring, score).None?;
  }

  // ---------------------------------------------------------------------------
  // The results page

  /** The recommendation blocks, each tied to its own score range. */
  datatype Advice =
    | MinimalAdvice
    | MildAdvice
    | ModerateAdvice
    /** `severeWording` says whether the block reads "severe" rather than "moderately severe". */
    | UrgentAdvice(severeWording: bool)

  /** What the results page shows for a score besides the band itself. */
  datatype ResultsView = ResultsView(advice: seq<Advice>, immediateHelp: bool, crisisPanel: bool)

  /** The results page: four independently guarded advice blocks, the help button and the crisis panel. */
  function Results(score: int): (v: ResultsView)
    ensures v.immediateHelp <==> score >= 10
    ensures v.crisisPanel <==> score >= 15
    ensures MinimalAdvice in v.advice <==> 0 <= score <= 4
    ensures MildAdvice in v.advice <==> 5 <= score <= 9
    ensures ModerateAdvice in v.advice <==> 10 <= score <= 14
    ensures forall w :: UrgentAdvice(w) in v.advice <==> score >= 15 && (w <==> score >= 20)
  {
    ResultsView(
      (if 0 <= score <= 4 then [MinimalAdvice] else []) +
      (if 5 <= score <= 9 then [MildAdvice] else []) +
      (if 10 <= score <= 14 then [ModerateAdvice] else []) +
      (if score >= 15 then [UrgentAdvice(score >= 20)] else []),
      score >= 10,
      score >= 15)
  }

  /** Every non-negative score gets exactly one recommendation block; a negative one gets none. */
  lemma ExactlyOneAdvice(score: int)
    ensures score >= 0 ==> |Results(score).advice| == 1
    ensures score < 0 ==> Results(score).advice == []
  {
  }

  /** The crisis panel never appears without the "Get Immediate Help" button. */
  lemma CrisisPanelImpliesHelp(score: int)
    ensures Results(score).crisisPanel ==> Results(score).immediateHelp
  {
  }

  /** The advice block agrees with the standard band: both urgent bands share the last block, worded by band. */
  function AdviceForKey(key: string): Advice {
    match key
    case "minimal" => MinimalAdvice
    case "mild" => MildAdvice
    case "moderate" => ModerateAdvice
    case "severe" => UrgentAdvice(true)
    case _ => UrgentAdvice(false)
  }

  lemma {:induction false} AdviceMatchesBand(scoring: Scoring, score: int)
    requires HasStandardRanges(scoring) && 0 <= score <= 27
    ensures Results(score).advice == [AdviceForKey(Classify(scoring, score).key)]
  {
    StandardClassification(scoring, score);
  }

  /** All nine answers at 3: score 27, the severe band, the crisis panel and the "severe" wording. */
  lemma AllThreesScenario(scoring: Scoring, answers: Answers)
    requires HasStandardRanges(scoring)
    requires |answers| == 9 && forall i :: 0 <= i < |answers| ==> answers[i].1 == 3
    ensures Score(answers) == 27
    ensures Classify(scoring, Score(answers)).key == "severe"
    ensures Results(Score(answers)) == ResultsView([UrgentAdvice(true)], true, true)
  {
    ScoreConstant(answers, 3);
    StandardClassification(scoring, 27);
  }

  /** All nine answers at 0: score 0, the minimal band and no crisis affordance. */
  lemma AllZerosScenario(scoring: Scoring, answers: Answers)
    requires HasStandardRanges(scoring)
    requires |answers| == 9 && forall i :: 0 <= i < |answers| ==> answers[i].1 == 0
    ensures Score(answers) == 0
    ensures Classify(scoring, Score(answers)).key == "minimal"
    ensures Results(Score(answers)) == ResultsView([MinimalAdvice], false, false)
  {
    ScoreConstant(answers, 0);
    StandardClassification(scoring, 0);
  }

  /** The score panel's style for a band colour tag; anything unrecognised is styled red. */
  function PanelStyle(color: string): (style: string)
    ensures color !in ["green", "yellow", "orange"] ==> style == "bg-red-50 border border-red-200"
    ensures color == "green" ==> style == "bg-green-50 border border-green-200"
    ensures color == "yellow" ==> style == "bg-yellow-50 border border-yellow-200"
    ensures color == "orange" ==> style == "bg-orange-50 border border-orange-200"
  {
    if color == "green" then "bg-green-50 border border-green-200"
    else if color == "yellow" then "bg-yellow-50 border border-yellow-200"
    else if color == "orange" then "bg-orange-50 border border-orange-200"
    else "bg-red-50 border border-red-200"
  }

  // ---------------------------------------------------------------------------
  // The component's state

  /** Every recorded answer belongs to one of the questions. */
  predicate AnswersForQuestions(answers: Answers, questions: seq<Question>) {
    forall i :: 0 <= i < |answers| ==> answers[i].0 in QuestionIds(questions)
  }

  /** Every question has an answer. */
  predicate AllAnswered(answers: Answers, questions: seq<Question>) {
    forall i :: 0 <= i < |questions| ==> questions[i].id in AnswerKeys(answers)
  }

  /** `s` without any occurrence of `x`. */
  function Without(s: seq<int>, x: int): (r: seq<int>)
    ensures forall y :: y in r <==> y in s && y != x
    ensures x in s ==> |r| < |s|
    ensures |r| <= |s|
  {
    if s == [] then []
    else if s[0] == x then Without(s[1..], x)
    else [s[0]] + Without(s[1..], x)
  }

  /** A duplicate-free sequence drawn from `s` is no longer than `s`. */
  lemma {:induction false} DistinctWithin(k: seq<int>, s: seq<int>)
    requires NoDuplicates(k) && forall i :: 0 <= i < |k| ==> k[i] in s
    ensures |k| <= |s|
  {
    if k != [] {
      var x := k[|k| - 1];
      var front := k[..|k| - 1];
      assert forall i :: 0 <= i < |front| ==> front[i] == k[i] && k[i] != x;
      DistinctWithin(front, Without(s, x));
    }
  }

  /**
    * The submit gate compares counts only. When every answer belongs to a
    * question and ids are distinct, the count matches exactly when every
    * question is answered.
    */
  lemma CountGateMeansComplete(answers: Answers, questions: seq<Question>)
    requires DistinctIds(questions) && WellKeyed(answers) && AnswersForQuestions(answers, questions)
    ensures |answers| <= |questions|
    ensures |answers| == |questions| <==> AllAnswered(answers, questions)
  {
    var keys, ids := AnswerKeys(answers), QuestionIds(questions);
    DistinctWithin(keys, ids);
    if AllAnswered(answers, questions) {
      DistinctWithin(ids, keys);
    } else {
      var i :| 0 <= i < |questions| && questions[i].id !in keys;
      DistinctWithin(keys, Without(ids, questions[i].id));
    }
  }

  /** The submit button is enabled exactly when the answer count equals the question count. */
  function SubmitEnabled(answers: Answers, questions: seq<Question>): (r: bool)
    ensures DistinctIds(questions) && WellKeyed(answers) && AnswersForQuestions(answers, questions) ==>
              (r <==> AllAnswered(answers, questions))
  {
    if DistinctIds(questions) && WellKeyed(answers) && AnswersForQuestions(answers, questions) then
      CountGateMeansComplete(answers, questions);
      |answers| == |questions|
    else |answers| == |questions|
  }

  /** The submit button's caption. */
  function SubmitCaption(answers: Answers, questions: seq<Question>): (caption: string)
    ensures SubmitEnabled(answers, questions) ==> caption == "Complete Assessment"
    ensures !SubmitEnabled(answers, questions) ==>
              caption == "Answer " + IntToString(|questions| - |answers|) + " more questions"
  {
    if |answers| == |questions| then "Complete Assessment"
    else "Answer " + IntToString(|questions| - |answers|) + " more questions"
  }

  /** While the button is disabled, the caption asks for the positive number of unanswered questions. */
  lemma DisabledCaptionCountsUp(answers: Answers, questions: seq<Question>)
    requires DistinctIds(questions) && WellKeyed(answers) && AnswersForQuestions(answers, questions)
    requires !SubmitEnabled(answers, questions)
    ensures |questions| - |answers| >= 1
    ensures SubmitCaption(answers, questions) ==
            "Answer " + NatToString(|questions| - |answers|) + " more questions"
  {
    CountGateMeansComplete(answers, questions);
  }

  /** The assessment component: the answers so far and the two result flags. */
  class Assessment {
    var answers: Answers
    var completed: bool
    var showResults: bool
    const questions: seq<Question>

    /** One entry per question answered, each for a real question. */
    ghost predicate Valid()
      reads this
    {
      WellKeyed(answers) && AnswersForQuestions(answers, questions)
    }

    constructor(questions: seq<Question>)
      ensures this.questions == questions
      ensures answers == [] && !completed && !showResults
      ensures Valid()
    {
      this.questions := questions;
      answers := [];
      completed := false;
      showResults := false;
    }

    /** `handleAnswerChange`: records the value, replacing any earlier answer to that question. */
    method AnswerChange(questionId: int, value: int)
      requires Valid()
      modifies this
      ensures answers == Upsert(old(answers), questionId, value)
      ensures completed == old(completed) && showResults == old(showResults)
      ensures forall j :: Get(answers, j) == if j == questionId then Some(value) else Get(old(answers), j)
      ensures questionId in QuestionIds(questions) ==> Valid()
      ensures Score(answers) == old(Score(answers)) -
                (if questionId in AnswerKeys(old(answers)) then Get(old(answers), questionId).value else 0) + value
    {
      UpsertWellKeyed(answers, questionId, value);
      forall j ensures Get(Upsert(answers, questionId, value), j) == if j == questionId then Some(value) else Get(answers, j) {
        UpsertGet(answers, questionId, value, j);
      }
      ScoreUpsert(answers, questionId, value);
      answers := Upsert(answers, questionId, value);
    }

    /** `handleSubmit`: shows the results when the answer count equals the question count; otherwise nothing changes. */
    method Submit()
      modifies this
      ensures answers == old(answers)
      ensures SubmitEnabled(answers, questions) ==> completed && showResults
      ensures !SubmitEnabled(answers, questions) ==>
                completed == old(completed) && showResults == old(showResults)
    {
      if |answers| == |questions| {
        completed := true;
        showResults := true;
      }
    }

    /** "Take Assessment Again": hides the results and keeps every answer. */
    method TakeAgain()
      modifies this
      ensures !showResults
      ensures answers == old(answers) && completed == old(completed)
    {
      showResults := false;
    }
  }
}
