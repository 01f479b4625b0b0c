/** The retrieval-augmented answer pipeline of `post_ai_search` in
    src/apis.rs. The semantic index, the completion model and the key order
    of the enrichment `HashMap` are oracles bundled in `Services`.

    The specification is a chain of folds over a growing prompt, one per
    loop of the source (choices, questions, indexes, semantic
    configurations); each loop is a method proved equal to its fold. A fold
    stops at the first error, which then is the pipeline's result. */
module RagPipeline {
  import opened Wrappers
  import opened Text
  import opened Entities
  import opened Ranking
  import opened Decomposition
  import opened RagPrompt

  const NoQueryMessage := "Failed to search AI , Please provide query message"
  const EmptyActionMessage := "Action is empty"
  const EmptyCompletionMessage := "Open AI Completion result is empty"

  /** How many hits are kept from every search. */
  const TopHits := 3

  /** The separator appended after the text of each decomposition choice. */
  const ChoiceSeparator := "\n\n"

  /** The external services: one semantic search, one chat completion, and
      the order in which the enrichment map yields its keys. */
  datatype Services = Services(
    search: SearchCall -> Result<SearchResult, string>,
    complete: string -> Result<Completion, string>,
    keyOrder: set<string> -> seq<string>)

  /** The key order lists every key once, as a map's key iterator does. */
  ghost predicate ListsKeys(sv: Services) {
    forall s :: Enumerates(sv.keyOrder(s), s)
  }

  /** The search for one question against one semantic configuration. */
  function MainCall(req: SearchRequest, question: string, indexName: string, sem: SemanticConfig): SearchCall {
    SearchCall(indexName, sem.name, sem.selectFields, CombinedQuery(req, question))
  }

  /** The enrichment search for a set of application names. */
  function EnrichmentCall(sv: Services, apps: set<string>): SearchCall {
    SearchCall(AppInfoIndex, AppInfoSemantic, AppInfoFields, EnrichmentQuery(sv.keyOrder(apps)))
  }

  function AnswersText(res: SearchResult): string {
    if res.answers.Some? then RenderAnswers(res.answers.value) else ""
  }

  function AppInfoText(info: SearchResult): string {
    if info.value.Some? then RenderAppInfos(TopN(info.value.value, TopHits)) else ""
  }

  /** The prompt after the hits of a search: the information on the
      applications the top hits name, then the top hits' summaries. */
  function HitsStep(acc: string, hits: seq<Hit>, sv: Services): (r: Result<string, string>)
    ensures r.Ok? ==> acc <= r.value
  {
    var top := TopN(hits, TopHits);
    var apps := EntitySet(top);
    if apps == {} then Ok(acc + RenderSummaries(top))
    else
      var info := sv.search(EnrichmentCall(sv, apps));
      if info.Err? then Err(info.error)
      else Ok(acc + AppInfoText(info.value) + RenderSummaries(top))
  }

  /** The enrichment search `HitsStep` issues, if any. */
  function HitsCalls(hits: seq<Hit>, sv: Services): (calls: seq<SearchCall>)
    ensures |calls| <= 1
  {
    var apps := EntitySet(TopN(hits, TopHits));
    if apps == {} then [] else [EnrichmentCall(sv, apps)]
  }

  /** The prompt after one question's search against one semantic
      configuration: the answers, then what the hits add. */
  function ConfigStep(acc: string, req: SearchRequest, question: string, indexName: string,
                      sem: SemanticConfig, sv: Services): (r: Result<string, string>)
    ensures r.Ok? ==> acc <= r.value
  {
    var main := sv.search(MainCall(req, question, indexName, sem));
    if main.Err? then Err(main.error)
    else
      var res := main.value;
      var answered := acc + AnswersText(res);
      if res.value.None? then Ok(answered)
      else HitsStep(answered, res.value.value, sv)
  }

  /** The searches `ConfigStep` issues, in order. */
  function ConfigCalls(req: SearchRequest, question: string, indexName: string,
                       sem: SemanticConfig, sv: Services): (calls: seq<SearchCall>)
    ensures 1 <= |calls| <= 2
  {
    var call := MainCall(req, question, indexName, sem);
    var main := sv.search(call);
    if main.Err? || main.value.value.None? then [call]
    else [call] + HitsCalls(main.value.value.value, sv)
  }

  /** The prompt after one question's searches against every semantic
      configuration of one index. */
  function FoldConfigs(acc: string, req: SearchRequest, question: string, indexName: string,
                       sems: seq<SemanticConfig>, sv: Services): (r: Result<string, string>)
    ensures r.Ok? ==> acc <= r.value
    decreases |sems|
  {
    if sems == [] then Ok(acc)
    else
      match ConfigStep(acc, req, question, indexName, sems[0], sv)
      case Err(e) => Err(e)
      case Ok(next) => FoldConfigs(next, req, question, indexName, sems[1..], sv)
  }

  /** Every configured index has its semantic configurations. */
  predicate SemanticsPresent(indexes: seq<SearchIndex>) {
    forall i :: 0 <= i < |indexes| ==> indexes[i].semantics.Some?
  }

  /** The prompt after one question's searches against every index. */
  function FoldIndexes(acc: string, req: SearchRequest, question: string,
                       indexes: seq<SearchIndex>, sv: Services): (r: Result<string, string>)
    requires SemanticsPresent(indexes)
    ensures r.Ok? ==> acc <= r.value
    decreases |indexes|
  {
    if indexes == [] then Ok(acc)
    else
      match FoldConfigs(acc, req, question, indexes[0].indexName, indexes[0].semantics.value, sv)
      case Err(e) => Err(e)
      case Ok(next) => FoldIndexes(next, req, question, indexes[1..], sv)
  }

  function QuestionLine(question: string): string {
    "Question: " + question + "\n"
  }

  /** The prompt after one question: its line, then its retrieval text. */
  function QuestionStep(acc: string, req: SearchRequest, question: string,
                        indexes: seq<SearchIndex>, sv: Services): (r: Result<string, string>)
    requires SemanticsPresent(indexes)
    ensures r.Ok? ==> acc + QuestionLine(question) <= r.value
  {
    FoldIndexes(acc + QuestionLine(question), req, question, indexes, sv)
  }

  function FoldQuestions(acc: string, req: SearchRequest, questions: seq<string>,
                         indexes: seq<SearchIndex>, sv: Services): (r: Result<string, string>)
    requires SemanticsPresent(indexes)
    ensures r.Ok? ==> acc <= r.value
    decreases |questions|
  {
    if questions == [] then Ok(acc)
    else
      match QuestionStep(acc, req, questions[0], indexes, sv)
      case Err(e) => Err(e)
      case Ok(next) => FoldQuestions(next, req, questions[1..], indexes, sv)
  }

  /** The items searched for one decomposition: questions, then non-questions. */
  function WorkList(text: string): seq<string> {
    var parts := SplitQuestionsAndNonQuestions(text);
    parts.0 + parts.1
  }

  function ChoiceText(c: Choice): string
    requires c.message.Some?
  {
    c.message.value.content.GetOr("")
  }

  predicate MessagesPresent(choices: seq<Choice>) {
    forall i :: 0 <= i < |choices| ==> choices[i].message.Some?
  }

  /** The prompt after one decomposition choice: every item's text, then a
      blank line. */
  function ChoiceStep(acc: string, req: SearchRequest, c: Choice,
                      indexes: seq<SearchIndex>, sv: Services): (r: Result<string, string>)
    requires c.message.Some? && SemanticsPresent(indexes)
    ensures r.Ok? ==> acc <= r.value && |r.value| >= 2 && r.value[|r.value| - 2..] == ChoiceSeparator
  {
    match FoldQuestions(acc, req, WorkList(ChoiceText(c)), indexes, sv)
    case Err(e) => Err(e)
    case Ok(text) => Ok(text + ChoiceSeparator)
  }

  function FoldChoices(acc: string, req: SearchRequest, choices: seq<Choice>,
                       indexes: seq<SearchIndex>, sv: Services): (r: Result<string, string>)
    requires MessagesPresent(choices) && SemanticsPresent(indexes)
    ensures r.Ok? ==> acc <= r.value
    decreases |choices|
  {
    if choices == [] then Ok(acc)
    else
      match ChoiceStep(acc, req, choices[0], indexes, sv)
      case Err(e) => Err(e)
      case Ok(next) => FoldChoices(next, req, choices[1..], indexes, sv)
  }

  /** What the source needs of the decomposition completion: every choice
      carries a message. */
  predicate DecompositionUsable(req: SearchRequest, sv: Services) {
    ChoicesOf(req, sv).Some? ==> MessagesPresent(ChoicesOf(req, sv).value)
  }

  /** The choices of the decomposition completion, when the query is
      present and that completion succeeded with choices. */
  function ChoicesOf(req: SearchRequest, sv: Services): Option<seq<Choice>> {
    if req.aiSearchQuery.None? then None
    else
      var split := sv.complete(SplitPrompt(req.aiSearchQuery.value));
      if split.Ok? && split.value.choices.Some? then Some(split.value.choices.value) else None
  }

  /** The whole pipeline: decompose the query, gather the context, and ask
      the completion model with the final prompt. */
  function AiSearch(req: SearchRequest, indexConfig: Option<seq<SearchIndex>>, sv: Services)
    : (r: Result<Completion, string>)
    requires SemanticsPresent(indexConfig.GetOr([]))
    requires DecompositionUsable(req, sv)
    ensures req.aiSearchQuery.None? ==> r == Err(NoQueryMessage)
    ensures req.aiSearchQuery.Some? && sv.complete(SplitPrompt(req.aiSearchQuery.value)).Err?
            ==> r == Err(sv.complete(SplitPrompt(req.aiSearchQuery.value)).error)
    ensures req.aiSearchQuery.Some? && sv.complete(SplitPrompt(req.aiSearchQuery.value)).Ok?
            && sv.complete(SplitPrompt(req.aiSearchQuery.value)).value.choices.None?
            ==> r == Err(EmptyActionMessage)
    ensures ChoicesOf(req, sv).Some? ==>
              var context := FoldChoices("", req, ChoicesOf(req, sv).value, indexConfig.GetOr([]), sv);
              && (context.Err? ==> r == Err(context.error))
              && (context.Ok? ==>
                    var answer := sv.complete(BuildPrompt(req.aiSearchQuery.value, context.value));
                    && (answer.Err? ==> r == Err(answer.error))
                    && (answer.Ok? && answer.value.choices.None? ==> r == Err(EmptyCompletionMessage)))
    ensures r.Ok? ==>
              && ChoicesOf(req, sv).Some?
              && FoldChoices("", req, ChoicesOf(req, sv).value, indexConfig.GetOr([]), sv).Ok?
              && r == sv.complete(BuildPrompt(req.aiSearchQuery.value,
                        FoldChoices("", req, ChoicesOf(req, sv).value, indexConfig.GetOr([]), sv).value))
              && r.value.choices.Some?
  {
    if req.aiSearchQuery.None? then Err(NoQueryMessage)
    else
      var query := req.aiSearchQuery.value;
      var split := sv.complete(SplitPrompt(query));
      if split.Err? then Err(split.error)
      else if split.value.choices.None? then Err(EmptyActionMessage)
      else
        match FoldChoices("", req, split.value.choices.value, indexConfig.GetOr([]), sv)
        case Err(e) => Err(e)
        case Ok(context) =>
          var answer := sv.complete(BuildPrompt(query, context));
          if answer.Err? then Err(answer.error)
          else if answer.value.choices.None? then Err(EmptyCompletionMessage)
          else answer
  }

  // ---------------------------------------------------------------------
  // Properties of the pipeline

  /** The enrichment search is issued only when the top hits name some
      application; it then goes to the fixed application index and asks for
      every name. */
  lemma EnrichmentOnlyWithEntities(req: SearchRequest, question: string, indexName: string,
                                   sem: SemanticConfig, sv: Services)
    requires ListsKeys(sv)
    ensures var calls := ConfigCalls(req, question, indexName, sem, sv);
      var main := sv.search(MainCall(req, question, indexName, sem));
      && calls[0] == MainCall(req, question, indexName, sem)
      && (|calls| == 2 <==>
            main.Ok? && main.value.value.Some? && EntitySet(TopN(main.value.value.value, TopHits)) != {})
      && (|calls| == 2 ==>
            && calls[1].index == AppInfoIndex
            && calls[1].semantic == AppInfoSemantic
            && calls[1].selectFields == AppInfoFields
            && forall a :: a in EntitySet(TopN(main.value.value.value, TopHits)) ==> Contains(calls[1].query, a))
  {
    var calls := ConfigCalls(req, question, indexName, sem, sv);
    var main := sv.search(MainCall(req, question, indexName, sem));
    if |calls| == 2 {
      var apps := EntitySet(TopN(main.value.value.value, TopHits));
      var names := sv.keyOrder(apps);
      assert Enumerates(names, apps);
      forall a | a in apps ensures Contains(calls[1].query, a) {
        var k :| 0 <= k < |names| && names[k] == a;
        EnrichmentQueryNamesEvery(names, k);
      }
    }
  }

  /** A configuration step fails exactly when the last search it issues
      fails, and then with that search's error; no partial text survives. */
  lemma ConfigFailsOnlyOnSearchError(acc: string, req: SearchRequest, question: string, indexName: string,
                                     sem: SemanticConfig, sv: Services)
    ensures var calls := ConfigCalls(req, question, indexName, sem, sv);
      var last := sv.search(calls[|calls| - 1]);
      && (ConfigStep(acc, req, question, indexName, sem, sv).Err? <==> last.Err?)
      && (last.Err? ==> ConfigStep(acc, req, question, indexName, sem, sv) == Err(last.error))
  {
  }

  /** Within one configuration step the answers come first and the hits'
      summaries last, the application information between them. */
  lemma ConfigFragmentOrder(acc: string, req: SearchRequest, question: string, indexName: string,
                            sem: SemanticConfig, sv: Services)
    requires sv.search(MainCall(req, question, indexName, sem)).Ok?
    requires ConfigStep(acc, req, question, indexName, sem, sv).Ok?
    ensures var res := sv.search(MainCall(req, question, indexName, sem)).value;
      var r := ConfigStep(acc, req, question, indexName, sem, sv).value;
      && acc + AnswersText(res) <= r
      && (res.value.Some? ==>
            var summaries := RenderSummaries(TopN(res.value.value, TopHits));
            |acc + AnswersText(res)| + |summaries| <= |r| && r[|r| - |summaries|..] == summaries)
  {
    var res := sv.search(MainCall(req, question, indexName, sem)).value;
    var r := ConfigStep(acc, req, question, indexName, sem, sv).value;
    if res.value.Some? {
      var summaries := RenderSummaries(TopN(res.value.value, TopHits));
      var answered := acc + AnswersText(res);
      var top := TopN(res.value.value, TopHits);
      if EntitySet(top) == {} {
        assert r == answered + summaries;
      } else {
        var info := sv.search(EnrichmentCall(sv, EntitySet(top))).value;
        assert r == (answered + AppInfoText(info)) + summaries;
      }
    }
  }

  /** Every question's line reaches the prompt. */
  lemma {:induction false} EveryQuestionLineAppears(acc: string, req: SearchRequest, questions: seq<string>,
                                                    indexes: seq<SearchIndex>, sv: Services, k: nat)
    requires SemanticsPresent(indexes)
    requires k < |questions|
    requires FoldQuestions(acc, req, questions, indexes, sv).Ok?
    ensures Contains(FoldQuestions(acc, req, questions, indexes, sv).value, QuestionLine(questions[k]))
    decreases |questions|
  {
    var next := QuestionStep(acc, req, questions[0], indexes, sv).value;
    var r := FoldQuestions(acc, req, questions, indexes, sv).value;
    assert r == FoldQuestions(next, req, questions[1..], indexes, sv).value;
    if k == 0 {
      var line := QuestionLine(questions[0]);
      assert acc + line <= r;
      assert r[|acc|..|acc| + |line|] == line;
      OccurrenceContains(r, line, |acc|);
    } else {
      EveryQuestionLineAppears(next, req, questions[1..], indexes, sv, k - 1);
    }
  }

  /** A choice-separator run: one blank line per choice. */
  function Separators(n: nat): string {
    if n == 0 then "" else ChoiceSeparator + Separators(n - 1)
  }

  lemma ChoiceWithoutItems(acc: string, req: SearchRequest, c: Choice,
                            indexes: seq<SearchIndex>, sv: Services)
    requires c.message.Some? && SemanticsPresent(indexes)
    requires WorkList(ChoiceText(c)) == []
    ensures ChoiceStep(acc, req, c, indexes, sv) == Ok(acc + ChoiceSeparator)
  {
  }

  lemma RestWithoutItems(choices: seq<Choice>)
    requires choices != [] && MessagesPresent(choices)
    requires forall i :: 0 <= i < |choices| ==> WorkList(ChoiceText(choices[i])) == []
    ensures MessagesPresent(choices[1..])
    ensures forall i :: 0 <= i < |choices| - 1 ==> WorkList(ChoiceText(choices[1..][i])) == []
  {
    forall i | 0 <= i < |choices| - 1 ensures choices[1..][i] == choices[i + 1] {
    }
  }

  lemma SeparatorsCons(acc: string, n: nat)
    ensures acc + ChoiceSeparator + Separators(n) == acc + Separators(n + 1)
  {
    assert Separators(n + 1) == ChoiceSeparator + Separators(n);
  }

  /** Choices without any question or non-question issue no search and
      contribute only their blank lines. */
  lemma {:induction false} ChoicesWithoutItems(acc: string, req: SearchRequest, choices: seq<Choice>,
                                               indexes: seq<SearchIndex>, sv: Services)
    requires MessagesPresent(choices) && SemanticsPresent(indexes)
    requires forall i :: 0 <= i < |choices| ==> WorkList(ChoiceText(choices[i])) == []
    ensures FoldChoices(acc, req, choices, indexes, sv) == Ok(acc + Separators(|choices|))
    decreases |choices|
  {
    if choices != [] {
      ChoiceWithoutItems(acc, req, choices[0], indexes, sv);
      var rest := choices[1..];
      RestWithoutItems(choices);
      assert FoldChoices(acc, req, choices, indexes, sv)
          == FoldChoices(acc + ChoiceSeparator, req, rest, indexes, sv);
      ChoicesWithoutItems(acc + ChoiceSeparator, req, rest, indexes, sv);
      SeparatorsCons(acc, |rest|);
    } else {
      assert acc + Separators(0) == acc;
    }
  }

  /** A failing first search, for the first item of the first choice
      against the first configuration of the first index, aborts the whole
      pipeline with that search's error. */
  lemma FirstSearchFailureAborts(req: SearchRequest, indexes: seq<SearchIndex>, sv: Services)
    requires req.aiSearchQuery.Some?
    requires var split := sv.complete(SplitPrompt(req.aiSearchQuery.value));
      split.Ok? && split.value.choices.Some? && split.value.choices.value != []
      && MessagesPresent(split.value.choices.value)
      && WorkList(ChoiceText(split.value.choices.value[0])) != []
    requires SemanticsPresent(indexes) && indexes != [] && indexes[0].semantics.value != []
    requires var c := sv.complete(SplitPrompt(req.aiSearchQuery.value)).value.choices.value[0];
      sv.search(MainCall(req, WorkList(ChoiceText(c))[0], indexes[0].indexName,
                         indexes[0].semantics.value[0])).Err?
    ensures var c := sv.complete(SplitPrompt(req.aiSearchQuery.value)).value.choices.value[0];
      AiSearch(req, Some(indexes), sv)
      == Err(sv.search(MainCall(req, WorkList(ChoiceText(c))[0], indexes[0].indexName,
                                indexes[0].semantics.value[0])).error)
  {
    var choices := sv.complete(SplitPrompt(req.aiSearchQuery.value)).value.choices.value;
    var c := choices[0];
    var w := WorkList(ChoiceText(c));
    var ix := indexes[0];
    var sem := ix.semantics.value[0];
    var e := sv.search(MainCall(req, w[0], ix.indexName, sem)).error;
    var start := QuestionLine(w[0]);
    assert "" + start == start;
    assert ConfigStep(start, req, w[0], ix.indexName, sem, sv) == Err(e);
    assert FoldConfigs(start, req, w[0], ix.indexName, ix.semantics.value, sv) == Err(e);
    assert FoldIndexes(start, req, w[0], indexes, sv) == Err(e);
    assert QuestionStep("", req, w[0], indexes, sv) == Err(e);
    assert FoldQuestions("", req, w, indexes, sv) == Err(e);
    assert ChoiceStep("", req, c, indexes, sv) == Err(e);
    assert FoldChoices("", req, choices, indexes, sv) == Err(e);
  }

  /** When no choice yields an item, the final prompt's context is only the
      choices' blank lines, and no search is issued. */
  lemma AnswerWithoutItems(req: SearchRequest, indexes: seq<SearchIndex>, sv: Services)
    requires req.aiSearchQuery.Some?
    requires var split := sv.complete(SplitPrompt(req.aiSearchQuery.value));
      split.Ok? && split.value.choices.Some? && MessagesPresent(split.value.choices.value)
      && forall i :: 0 <= i < |split.value.choices.value| ==>
           WorkList(ChoiceText(split.value.choices.value[i])) == []
    requires SemanticsPresent(indexes)
    ensures var n := |sv.complete(SplitPrompt(req.aiSearchQuery.value)).value.choices.value|;
      var answer := sv.complete(BuildPrompt(req.aiSearchQuery.value, Separators(n)));
      AiSearch(req, Some(indexes), sv)
      == if answer.Err? then Err(answer.error)
         else if answer.value.choices.None? then Err(EmptyCompletionMessage)
         else answer
  {
    var choices := sv.complete(SplitPrompt(req.aiSearchQuery.value)).value.choices.value;
    ChoicesWithoutItems("", req, choices, indexes, sv);
    assert "" + Separators(|choices|) == Separators(|choices|);
  }

  lemma TailMessagesPresent(choices: seq<Choice>)
    requires choices != [] && MessagesPresent(choices)
    ensures MessagesPresent(choices[1..])
  {
    forall j | 0 <= j < |choices| - 1 ensures choices[1..][j] == choices[j + 1] {
    }
  }

  /** A question line of the first choice is in that choice's text. */
  lemma FirstChoiceLines(acc: string, req: SearchRequest, c: Choice,
                         indexes: seq<SearchIndex>, sv: Services, k: nat)
    requires c.message.Some? && SemanticsPresent(indexes)
    requires ChoiceStep(acc, req, c, indexes, sv).Ok?
    requires k < |WorkList(ChoiceText(c))|
    ensures Contains(ChoiceStep(acc, req, c, indexes, sv).value, QuestionLine(WorkList(ChoiceText(c))[k]))
  {
    var w := WorkList(ChoiceText(c));
    var folded := FoldQuestions(acc, req, w, indexes, sv);
    assert ChoiceStep(acc, req, c, indexes, sv) == Ok(folded.value + ChoiceSeparator);
    EveryQuestionLineAppears(acc, req, w, indexes, sv, k);
    PrefixContains(folded.value, folded.value + ChoiceSeparator, QuestionLine(w[k]));
  }

  /** What a prefix contains, the whole string contains. */
  lemma PrefixContains(prefix: string, s: string, pat: string)
    requires prefix <= s && Contains(prefix, pat)
    ensures Contains(s, pat)
  {
    ContainsWithin("", prefix, s[|prefix|..], pat);
    assert "" + prefix + s[|prefix|..] == s;
  }

  /** Every question and non-question of every choice reaches the gathered
      context as its question line. */
  lemma ChoiceQuestionLinesAppear(acc: string, req: SearchRequest, choices: seq<Choice>,
                                  indexes: seq<SearchIndex>, sv: Services, i: nat, k: nat)
    requires MessagesPresent(choices) && SemanticsPresent(indexes)
    requires FoldChoices(acc, req, choices, indexes, sv).Ok?
    requires i < |choices| && k < |WorkList(ChoiceText(choices[i]))|
    ensures Contains(FoldChoices(acc, req, choices, indexes, sv).value,
                     QuestionLine(WorkList(ChoiceText(choices[i]))[k]))
  {
    var line := QuestionLine(WorkList(ChoiceText(choices[i]))[k]);
    forall a | ChoiceStep(a, req, choices[i], indexes, sv).Ok?
      ensures Contains(ChoiceStep(a, req, choices[i], indexes, sv).value, line)
    {
      FirstChoiceLines(a, req, choices[i], indexes, sv, k);
    }
    StepLineSurvives(acc, req, choices, indexes, sv, i, line);
  }

  /** Choice `c`'s step writes `line`, whatever text came before it. */
  ghost predicate StepWrites(req: SearchRequest, c: Choice, indexes: seq<SearchIndex>, sv: Services, line: string)
    requires c.message.Some? && SemanticsPresent(indexes)
  {
    forall a :: ChoiceStep(a, req, c, indexes, sv).Ok? ==> Contains(ChoiceStep(a, req, c, indexes, sv).value, line)
  }

  /** A line that choice `i`'s step writes whatever came before it is still
      in the text once every choice has been folded in. */
  lemma StepLineSurvives(acc: string, req: SearchRequest, choices: seq<Choice>,
                          indexes: seq<SearchIndex>, sv: Services, i: nat, line: string)
    requires MessagesPresent(choices) && SemanticsPresent(indexes)
    requires FoldChoices(acc, req, choices, indexes, sv).Ok?
    requires i < |choices| && StepWrites(req, choices[i], indexes, sv, line)
    ensures Contains(FoldChoices(acc, req, choices, indexes, sv).value, line)
  {
    // Walk the fold up to choice `i`, keeping the text it has built so far.
    var text := acc;
    var j := 0;
    while j < i
      invariant j <= i
      invariant MessagesPresent(choices[j..])
      invariant FoldChoices(text, req, choices[j..], indexes, sv) == FoldChoices(acc, req, choices, indexes, sv)
    {
      text := FoldChoicesFirst(text, req, choices[j..], indexes, sv);
      assert choices[j..][1..] == choices[j + 1..];
      j := j + 1;
    }
    assert choices[i..][0] == choices[i];
    FirstStepLineSurvives(text, req, choices[i..], indexes, sv, line);
  }

  /** A line the first choice's step writes is in the folded text. */
  lemma FirstStepLineSurvives(acc: string, req: SearchRequest, choices: seq<Choice>,
                              indexes: seq<SearchIndex>, sv: Services, line: string)
    requires MessagesPresent(choices) && SemanticsPresent(indexes)
    requires FoldChoices(acc, req, choices, indexes, sv).Ok?
    requires choices != [] && StepWrites(req, choices[0], indexes, sv, line)
    ensures Contains(FoldChoices(acc, req, choices, indexes, sv).value, line)
  {
    var next := FoldChoicesFirst(acc, req, choices, indexes, sv);
    PrefixContains(next, FoldChoices(next, req, choices[1..], indexes, sv).value, line);
  }

  /** A successful fold over some choices took a successful first step and
      went on from its text. */
  lemma FoldChoicesFirst(acc: string, req: SearchRequest, choices: seq<Choice>,
                         indexes: seq<SearchIndex>, sv: Services) returns (next: string)
    requires MessagesPresent(choices) && SemanticsPresent(indexes)
    requires choices != [] && FoldChoices(acc, req, choices, indexes, sv).Ok?
    ensures MessagesPresent(choices[1..])
    ensures ChoiceStep(acc, req, choices[0], indexes, sv) == Ok(next)
    ensures FoldChoices(acc, req, choices, indexes, sv) == FoldChoices(next, req, choices[1..], indexes, sv)
  {
    TailMessagesPresent(choices);
    next := ChoiceStep(acc, req, choices[0], indexes, sv).value;
  }

  /** A successful answer is the completion of the final prompt built over
      the gathered context, and that prompt names every question and
      non-question of every decomposition choice. */
  lemma SuccessAnswersEveryQuestion(req: SearchRequest, indexConfig: Option<seq<SearchIndex>>, sv: Services)
    requires SemanticsPresent(indexConfig.GetOr([]))
    requires DecompositionUsable(req, sv)
    requires AiSearch(req, indexConfig, sv).Ok?
    ensures var choices := ChoicesOf(req, sv).value;
      var context := FoldChoices("", req, choices, indexConfig.GetOr([]), sv).value;
      var prompt := BuildPrompt(req.aiSearchQuery.value, context);
      && AiSearch(req, indexConfig, sv) == sv.complete(prompt)
      && forall i, k :: 0 <= i < |choices| && 0 <= k < |WorkList(ChoiceText(choices[i]))| ==>
           Contains(prompt, QuestionLine(WorkList(ChoiceText(choices[i]))[k]))
  {
    var choices := ChoicesOf(req, sv).value;
    var indexes := indexConfig.GetOr([]);
    var context := FoldChoices("", req, choices, indexes, sv).value;
    var q := req.aiSearchQuery.value;
    forall i, k | 0 <= i < |choices| && 0 <= k < |WorkList(ChoiceText(choices[i]))|
      ensures Contains(BuildPrompt(q, context), QuestionLine(WorkList(ChoiceText(choices[i]))[k]))
    {
      ChoiceQuestionLinesAppear("", req, choices, indexes, sv, i, k);
      ContextInPrompt(q, context, QuestionLine(WorkList(ChoiceText(choices[i]))[k]));
    }
  }

  /** What the context contains, the final prompt contains. */
  lemma ContextInPrompt(query: string, context: string, pat: string)
    requires Contains(context, pat)
    ensures Contains(BuildPrompt(query, context), pat)
  {
    ContainsWithin(ContextLabel, context, QuestionsLabel + query + "\n", pat);
    assert ContextLabel + context + (QuestionsLabel + query + "\n") == BuildPrompt(query, context);
  }

  // ---------------------------------------------------------------------
  // The searches the pipeline issues

  /** The searches were issued one after another, each only after the
      previous one succeeded, and `r` failed exactly when the last one
      failed, with that search's error. */
  predicate FailsWithLastSearch(r: Result<string, string>, calls: seq<SearchCall>, sv: Services) {
    && (forall i :: 0 <= i < |calls| - 1 ==> sv.search(calls[i]).Ok?)
    && (r.Err? <==> calls != [] && sv.search(calls[|calls| - 1]).Err?)
    && (r.Err? ==> r.error == sv.search(calls[|calls| - 1]).error)
  }

  /** The searches `FoldConfigs` issues, in order. */
  function ConfigsCalls(acc: string, req: SearchRequest, question: string, indexName: string,
                        sems: seq<SemanticConfig>, sv: Services): seq<SearchCall>
    decreases |sems|
  {
    if sems == [] then []
    else
      var step := ConfigStep(acc, req, question, indexName, sems[0], sv);
      ConfigCalls(req, question, indexName, sems[0], sv)
        + if step.Err? then [] else ConfigsCalls(step.value, req, question, indexName, sems[1..], sv)
  }

  /** The searches `FoldIndexes` issues, in order. */
  function IndexesCalls(acc: string, req: SearchRequest, question: string,
                        indexes: seq<SearchIndex>, sv: Services): seq<SearchCall>
    requires SemanticsPresent(indexes)
    decreases |indexes|
  {
    if indexes == [] then []
    else
      var step := FoldConfigs(acc, req, question, indexes[0].indexName, indexes[0].semantics.value, sv);
      ConfigsCalls(acc, req, question, indexes[0].indexName, indexes[0].semantics.value, sv)
        + if step.Err? then [] else IndexesCalls(step.value, req, question, indexes[1..], sv)
  }

  /** The searches `FoldQuestions` issues, in order. */
  function QuestionsCalls(acc: string, req: SearchRequest, questions: seq<string>,
                          indexes: seq<SearchIndex>, sv: Services): seq<SearchCall>
    requires SemanticsPresent(indexes)
    decreases |questions|
  {
    if questions == [] then []
    else
      var step := QuestionStep(acc, req, questions[0], indexes, sv);
      IndexesCalls(acc + QuestionLine(questions[0]), req, questions[0], indexes, sv)
        + if step.Err? then [] else QuestionsCalls(step.value, req, questions[1..], indexes, sv)
  }

  /** The searches `FoldChoices` issues, in order. */
  function ChoicesCalls(acc: string, req: SearchRequest, choices: seq<Choice>,
                        indexes: seq<SearchIndex>, sv: Services): seq<SearchCall>
    requires MessagesPresent(choices) && SemanticsPresent(indexes)
    decreases |choices|
  {
    if choices == [] then []
    else
      var step := ChoiceStep(acc, req, choices[0], indexes, sv);
      QuestionsCalls(acc, req, WorkList(ChoiceText(choices[0])), indexes, sv)
        + if step.Err? then [] else ChoicesCalls(step.value, req, choices[1..], indexes, sv)
  }

  /** Running one stage after another: the second stage's searches follow
      the first's only when the first succeeded. */
  lemma ThenIssued(r1: Result<string, string>, c1: seq<SearchCall>,
                   r2: Result<string, string>, c2: seq<SearchCall>, sv: Services)
    requires FailsWithLastSearch(r1, c1, sv)
    requires r1.Ok? ==> FailsWithLastSearch(r2, c2, sv)
    ensures r1.Err? ==> FailsWithLastSearch(r1, c1 + [], sv)
    ensures r1.Ok? ==> FailsWithLastSearch(r2, c1 + c2, sv)
  {
    assert c1 + [] == c1;
    if r1.Ok? {
      var c := c1 + c2;
      forall i | 0 <= i < |c| - 1 ensures sv.search(c[i]).Ok? {
        if i >= |c1| {
          assert c[i] == c2[i - |c1|];
        }
      }
      if c2 == [] {
        assert c == c1;
      } else {
        assert c[|c| - 1] == c2[|c2| - 1];
      }
    }
  }

  lemma ConfigIssued(acc: string, req: SearchRequest, question: string, indexName: string,
                     sem: SemanticConfig, sv: Services)
    ensures FailsWithLastSearch(ConfigStep(acc, req, question, indexName, sem, sv),
                                ConfigCalls(req, question, indexName, sem, sv), sv)
  {
    ConfigFailsOnlyOnSearchError(acc, req, question, indexName, sem, sv);
  }

  lemma {:induction false} ConfigsIssued(acc: string, req: SearchRequest, question: string, indexName: string,
                                         sems: seq<SemanticConfig>, sv: Services)
    ensures FailsWithLastSearch(FoldConfigs(acc, req, question, indexName, sems, sv),
                                ConfigsCalls(acc, req, question, indexName, sems, sv), sv)
    decreases |sems|
  {
    if sems != [] {
      var step := ConfigStep(acc, req, question, indexName, sems[0], sv);
      var c1 := ConfigCalls(req, question, indexName, sems[0], sv);
      ConfigIssued(acc, req, question, indexName, sems[0], sv);
      if step.Err? {
        ThenIssued(step, c1, step, [], sv);
      } else {
        ConfigsIssued(step.value, req, question, indexName, sems[1..], sv);
        ThenIssued(step, c1, FoldConfigs(step.value, req, question, indexName, sems[1..], sv),
                   ConfigsCalls(step.value, req, question, indexName, sems[1..], sv), sv);
      }
    }
  }

  lemma {:induction false} IndexesIssued(acc: string, req: SearchRequest, question: string,
                                         indexes: seq<SearchIndex>, sv: Services)
    requires SemanticsPresent(indexes)
    ensures FailsWithLastSearch(FoldIndexes(acc, req, question, indexes, sv),
                                IndexesCalls(acc, req, question, indexes, sv), sv)
    decreases |indexes|
  {
    if indexes != [] {
      var ix := indexes[0];
      var step := FoldConfigs(acc, req, question, ix.indexName, ix.semantics.value, sv);
      var c1 := ConfigsCalls(acc, req, question, ix.indexName, ix.semantics.value, sv);
      ConfigsIssued(acc, req, question, ix.indexName, ix.semantics.value, sv);
      if step.Err? {
        ThenIssued(step, c1, step, [], sv);
      } else {
        assert SemanticsPresent(indexes[1..]) by {
          forall j | 0 <= j < |indexes| - 1 ensures indexes[1..][j] == indexes[j + 1] {
          }
        }
        IndexesIssued(step.value, req, question, indexes[1..], sv);
        ThenIssued(step, c1, FoldIndexes(step.value, req, question, indexes[1..], sv),
                   IndexesCalls(step.value, req, question, indexes[1..], sv), sv);
      }
    }
  }

  lemma {:induction false} QuestionsIssued(acc: string, req: SearchRequest, questions: seq<string>,
                                           indexes: seq<SearchIndex>, sv: Services)
    requires SemanticsPresent(indexes)
    ensures FailsWithLastSearch(FoldQuestions(acc, req, questions, indexes, sv),
                                QuestionsCalls(acc, req, questions, indexes, sv), sv)
    decreases |questions|
  {
    if questions != [] {
      var step := QuestionStep(acc, req, questions[0], indexes, sv);
      var c1 := IndexesCalls(acc + QuestionLine(questions[0]), req, questions[0], indexes, sv);
      IndexesIssued(acc + QuestionLine(questions[0]), req, questions[0], indexes, sv);
      if step.Err? {
        ThenIssued(step, c1, step, [], sv);
      } else {
        QuestionsIssued(step.value, req, questions[1..], indexes, sv);
        ThenIssued(step, c1, FoldQuestions(step.value, req, questions[1..], indexes, sv),
                   QuestionsCalls(step.value, req, questions[1..], indexes, sv), sv);
      }
    }
  }

  /** The gathering of the context fails exactly when the last search it
      issues fails, and then with that search's error; every earlier search
      succeeded. A failure of any search, not only the first, aborts the
      pipeline. */
  lemma {:induction false} ChoicesIssued(acc: string, req: SearchRequest, choices: seq<Choice>,
                                         indexes: seq<SearchIndex>, sv: Services)
    requires MessagesPresent(choices) && SemanticsPresent(indexes)
    ensures FailsWithLastSearch(FoldChoices(acc, req, choices, indexes, sv),
                                ChoicesCalls(acc, req, choices, indexes, sv), sv)
    decreases |choices|
  {
    if choices != [] {
      var step := ChoiceStep(acc, req, choices[0], indexes, sv);
      var w := WorkList(ChoiceText(choices[0]));
      var c1 := QuestionsCalls(acc, req, w, indexes, sv);
      QuestionsIssued(acc, req, w, indexes, sv);
      if step.Err? {
        ThenIssued(step, c1, step, [], sv);
      } else {
        TailMessagesPresent(choices);
        ChoicesIssued(step.value, req, choices[1..], indexes, sv);
        ThenIssued(step, c1, FoldChoices(step.value, req, choices[1..], indexes, sv),
                   ChoicesCalls(step.value, req, choices[1..], indexes, sv), sv);
      }
    }
  }

  /** Once the decomposition has succeeded, the pipeline fails only with
      the error of the last search it issued (every earlier one having
      succeeded), with the final completion's error, or with the
      empty-completion message; otherwise it answers with the final
      completion. */
  lemma PipelineErrors(req: SearchRequest, indexConfig: Option<seq<SearchIndex>>, sv: Services)
    requires SemanticsPresent(indexConfig.GetOr([]))
    requires DecompositionUsable(req, sv)
    requires ChoicesOf(req, sv).Some?
    ensures var calls := ChoicesCalls("", req, ChoicesOf(req, sv).value, indexConfig.GetOr([]), sv);
      var context := FoldChoices("", req, ChoicesOf(req, sv).value, indexConfig.GetOr([]), sv);
      var r := AiSearch(req, indexConfig, sv);
      && (forall i :: 0 <= i < |calls| - 1 ==> sv.search(calls[i]).Ok?)
      && (calls != [] && sv.search(calls[|calls| - 1]).Err? ==> context.Err?)
      && (context.Err? ==> calls != [] && sv.search(calls[|calls| - 1]).Err?
                           && r == Err(sv.search(calls[|calls| - 1]).error))
      && (r.Err? && context.Ok? ==>
            var answer := sv.complete(BuildPrompt(req.aiSearchQuery.value, context.value));
            r.error == EmptyCompletionMessage || (answer.Err? && r.error == answer.error))
  {
    ChoicesIssued("", req, ChoicesOf(req, sv).value, indexConfig.GetOr([]), sv);
  }

  // ---------------------------------------------------------------------
  // The loops of post_ai_search

  /** Collects the filters and the question, then joins them. */
  method BuildCombinedQuery(req: SearchRequest, question: string) returns (query: string)
    ensures query == CombinedQuery(req, question)
  {
    var filters: seq<string> := [];
    if req.appOwner.Some? {
      filters := filters + ["App_owner: " + req.appOwner.value];
    }
    if req.topicName.Some? {
      filters := filters + ["Topic_name: " + req.topicName.value];
    }
    if req.consumerApp.Some? {
      filters := filters + ["Consumer_app: " + req.consumerApp.value];
    }
    assert filters == Filters(req);
    filters := filters + [question];
    query := Join(filters, FilterSeparator);
  }

  /** The enrichment map: each application name the hits mention, mapped to
      itself, inserted once. */
  method CollectApps(top: seq<Hit>) returns (apps: map<string, string>)
    ensures apps.Keys == EntitySet(top)
    ensures forall a :: a in apps ==> apps[a] == a
  {
    apps := map[];
    var i := 0;
    while i < |top|
      invariant 0 <= i <= |top|
      invariant forall a :: a in apps ==> apps[a] == a
      invariant forall a :: a in apps ==> exists j :: 0 <= j < i && a in HitApps(top[j])
      invariant forall j :: 0 <= j < i ==> HitApps(top[j]) <= apps.Keys
    {
      var item := top[i];
      if item.consumerApp.Some? {
        var app := item.consumerApp.value;
        if app !in apps {
          apps := apps[app := app];
        }
      }
      if item.appOwner.Some? {
        var app := item.appOwner.value;
        if app !in apps {
          apps := apps[app := app];
        }
      }
      i := i + 1;
    }
    EntitySetMembers(top);
  }

  /** The hits of one search: the enrichment lookup when they name
      applications, then the summaries. */
  method AppendForHits(prompt: string, hits: seq<Hit>, sv: Services)
    returns (r: Result<string, string>, calls: seq<SearchCall>)
    ensures r == HitsStep(prompt, hits, sv)
    ensures calls == HitsCalls(hits, sv)
  {
    var top := TopN(hits, TopHits);
    var summaries := RenderSummaries(top);
    var apps := CollectApps(top);
    assert apps.Keys == EntitySet(top);
    var out := prompt;
    calls := [];
    if |apps| > 0 {
      assert apps.Keys != {};
      var infoCall := SearchCall(AppInfoIndex, AppInfoSemantic, AppInfoFields,
                                 EnrichmentQuery(sv.keyOrder(apps.Keys)));
      calls := [infoCall];
      var info := sv.search(infoCall);
      if info.Err? {
        return Err(info.error), calls;
      }
      if info.value.value.Some? {
        out := out + RenderAppInfos(TopN(info.value.value.value, TopHits));
      }
      assert out == prompt + AppInfoText(info.value);
      out := out + summaries;
      assert HitsStep(prompt, hits, sv) == Ok(out);
    } else {
      assert apps.Keys == {};
      out := out + summaries;
    }
    r := Ok(out);
  }

  /** One question against one semantic configuration: returns the grown
      prompt or the first search error, and the searches issued. */
  method AppendForConfig(prompt: string, req: SearchRequest, question: string, indexName: string,
                         sem: SemanticConfig, sv: Services)
    returns (r: Result<string, string>, calls: seq<SearchCall>)
    ensures r == ConfigStep(prompt, req, question, indexName, sem, sv)
    ensures calls == ConfigCalls(req, question, indexName, sem, sv)
  {
    var query := BuildCombinedQuery(req, question);
    var call := SearchCall(indexName, sem.name, sem.selectFields, query);
    var result := sv.search(call);
    if result.Err? {
      return Err(result.error), [call];
    }
    var res := result.value;
    var out := prompt;
    if res.answers.Some? {
      out := out + RenderAnswers(res.answers.value);
    }
    assert out == prompt + AnswersText(res);
    if res.value.None? {
      return Ok(out), [call];
    }
    var more;
    r, more := AppendForHits(out, res.value.value, sv);
    calls := [call] + more;
  }

  /** One question against every semantic configuration of one index. */
  method AppendForIndex(prompt: string, req: SearchRequest, question: string,
                        index: SearchIndex, sv: Services) returns (r: Result<string, string>)
    requires index.semantics.Some?
    ensures r == FoldConfigs(prompt, req, question, index.indexName, index.semantics.value, sv)
  {
    var sems := index.semantics.value;
    var out := prompt;
    var j := 0;
    while j < |sems|
      invariant 0 <= j <= |sems|
      invariant FoldConfigs(out, req, question, index.indexName, sems[j..], sv)
             == FoldConfigs(prompt, req, question, index.indexName, sems, sv)
    {
      assert sems[j..][1..] == sems[j + 1..];
      var step, _ := AppendForConfig(out, req, question, index.indexName, sems[j], sv);
      if step.Err? {
        return step;
      }
      out := step.value;
      j := j + 1;
    }
    r := Ok(out);
  }

  /** One question: its line, then its searches against every index. */
  method AppendForQuestion(prompt: string, req: SearchRequest, question: string,
                           indexes: seq<SearchIndex>, sv: Services) returns (r: Result<string, string>)
    requires SemanticsPresent(indexes)
    ensures r == QuestionStep(prompt, req, question, indexes, sv)
  {
    var out := prompt + "Question: ";
    out := out + question;
    out := out + "\n";
    assert out == prompt + QuestionLine(question);
    var start := out;
    var i := 0;
    while i < |indexes|
      invariant 0 <= i <= |indexes|
      invariant SemanticsPresent(indexes[i..])
      invariant FoldIndexes(out, req, question, indexes[i..], sv)
             == FoldIndexes(start, req, question, indexes, sv)
    {
      assert indexes[i..][1..] == indexes[i + 1..];
      assert indexes[i..][0] == indexes[i];
      var step := AppendForIndex(out, req, question, indexes[i], sv);
      if step.Err? {
        return step;
      }
      out := step.value;
      i := i + 1;
    }
    r := Ok(out);
  }

  /** One decomposition choice: every question and non-question, then the
      blank line. */
  method AppendForChoice(prompt: string, req: SearchRequest, c: Choice,
                         indexes: seq<SearchIndex>, sv: Services) returns (r: Result<string, string>)
    requires c.message.Some? && SemanticsPresent(indexes)
    ensures r == ChoiceStep(prompt, req, c, indexes, sv)
  {
    var text := c.message.value.content.GetOr("");
    var parts := SplitQuestionsAndNonQuestions(text);
    var questions := parts.0;
    questions := questions + parts.1;
    assert questions == WorkList(ChoiceText(c));
    var out := prompt;
    var i := 0;
    while i < |questions|
      invariant 0 <= i <= |questions|
      invariant FoldQuestions(out, req, questions[i..], indexes, sv)
             == FoldQuestions(prompt, req, questions, indexes, sv)
    {
      assert questions[i..][1..] == questions[i + 1..];
      var step := AppendForQuestion(out, req, questions[i], indexes, sv);
      if step.Err? {
        return step;
      }
      out := step.value;
      i := i + 1;
    }
    out := out + ChoiceSeparator;
    r := Ok(out);
  }

  /** The loop over the decomposition choices, stopping at the first
      error. */
  method AppendChoices(req: SearchRequest, choices: seq<Choice>, indexes: seq<SearchIndex>, sv: Services)
    returns (r: Result<string, string>)
    requires MessagesPresent(choices) && SemanticsPresent(indexes)
    ensures r == FoldChoices("", req, choices, indexes, sv)
  {
    var finalPrompt := "";
    var k := 0;
    while k < |choices|
      invariant 0 <= k <= |choices|
      invariant MessagesPresent(choices[k..])
      invariant FoldChoices(finalPrompt, req, choices[k..], indexes, sv)
             == FoldChoices("", req, choices, indexes, sv)
    {
      assert choices[k..][1..] == choices[k + 1..];
      assert choices[k..][0] == choices[k];
      var step := AppendForChoice(finalPrompt, req, choices[k], indexes, sv);
      if step.Err? {
        return Err(step.error);
      }
      finalPrompt := step.value;
      k := k + 1;
    }
    assert choices[k..] == [];
    r := Ok(finalPrompt);
  }

  /** `post_ai_search`. */
  method PostAiSearch(req: SearchRequest, indexConfig: Option<seq<SearchIndex>>, sv: Services)
    returns (r: Result<Completion, string>)
    requires SemanticsPresent(indexConfig.GetOr([]))
    requires DecompositionUsable(req, sv)
    ensures r == AiSearch(req, indexConfig, sv)
  {
    if req.aiSearchQuery.None? {
      return Err(NoQueryMessage);
    }
    var query := req.aiSearchQuery.value;
    var firstPrompt := SplitPromptHead;
    firstPrompt := firstPrompt + query;
    firstPrompt := firstPrompt + SplitPromptTail;
    assert firstPrompt == SplitPrompt(query);
    var split := sv.complete(firstPrompt);
    if split.Err? {
      return Err(split.error);
    }
    if split.value.choices.None? {
      return Err(EmptyActionMessage);
    }
    var context := AppendChoices(req, split.value.choices.value, indexConfig.GetOr([]), sv);
    if context.Err? {
      return Err(context.error);
    }
    var answer := sv.complete(BuildPrompt(query, context.value));
    if answer.Err? {
      return Err(answer.error);
    }
    if answer.value.choices.None? {
      return Err(EmptyCompletionMessage);
    }
    r := answer;
  }
}
