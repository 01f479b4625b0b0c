/** The text fragments `post_ai_search` in src/apis.rs assembles: the two
    prompts, the combined search query, the rendering of answers, captions
    and application information, and the enrichment query. */
module RagPrompt {
  import opened Wrappers
  import opened Text
  import opened Entities

  /** The fixed text of the decomposition prompt around the user's query. */
  const SplitPromptHead := "Please split the following text into questions and non-questions:\n\n"
  const SplitPromptTail := "\n\n List the questions under a \"Questions\" section and the non-questions under a \"Non-Questions\" section. Format each question and non-questions as a numbered list and header must use **Questions:** and **Non-Questions:** :"

  /** The fixed text of the final prompt around the context and the query. */
  const ContextLabel := "Based on the following context, please answer the questions provided:\n\nContext:\n"
  const QuestionsLabel := "\n\nQuestions:\n"

  /** The decomposition prompt sent first for `query`. */
  function SplitPrompt(query: string): string {
    SplitPromptHead + query + SplitPromptTail
  }

  /** `build_prompt`: the final prompt, context first, then the query. */
  function BuildPrompt(query: string, context: string): string {
    ContextLabel + context + QuestionsLabel + query + "\n"
  }

  /** The context and the query can be read back from the final prompt at
      fixed offsets: the context right after the preamble, the query between
      the questions label and the closing newline. */
  lemma BuildPromptReadBack(query: string, context: string)
    ensures var p := BuildPrompt(query, context);
      && |p| == |ContextLabel| + |context| + |QuestionsLabel| + |query| + 1
      && p[..|ContextLabel|] == ContextLabel
      && p[|ContextLabel|..|ContextLabel| + |context|] == context
      && p[|ContextLabel| + |context|..|p| - |query| - 1] == QuestionsLabel
      && p[|p| - |query| - 1..|p| - 1] == query
      && p[|p| - 1] == '\n'
  {
    var p := BuildPrompt(query, context);
    var a := |ContextLabel|;
    var b := a + |context|;
    var c := b + |QuestionsLabel|;
    assert p == ContextLabel + context + QuestionsLabel + query + "\n";
    assert p[..a] == ContextLabel;
    assert p[a..b] == context;
    assert p[b..c] == QuestionsLabel;
    assert p[c..c + |query|] == query;
  }

  /** The query can be read back from the decomposition prompt. */
  lemma SplitPromptReadBack(query: string)
    ensures var p := SplitPrompt(query);
      && |p| == |SplitPromptHead| + |query| + |SplitPromptTail|
      && p[|SplitPromptHead|..|SplitPromptHead| + |query|] == query
  {
    var p := SplitPrompt(query);
    assert p[|SplitPromptHead|..|SplitPromptHead| + |query|] == query;
  }

  /** The filters present in the request, in the fixed order owner, topic,
      consumer application, each rendered as "Field: value". */
  function Filters(req: SearchRequest): (r: seq<string>)
    ensures |r| == (if req.appOwner.Some? then 1 else 0) + (if req.topicName.Some? then 1 else 0)
                 + (if req.consumerApp.Some? then 1 else 0)
  {
    (if req.appOwner.Some? then ["App_owner: " + req.appOwner.value] else [])
    + (if req.topicName.Some? then ["Topic_name: " + req.topicName.value] else [])
    + (if req.consumerApp.Some? then ["Consumer_app: " + req.consumerApp.value] else [])
  }

  const FilterSeparator := " and "

  /** The query sent to the semantic index for one question: the filters and
      then the question, joined by " and ". */
  function CombinedQuery(req: SearchRequest, question: string): string {
    Join(Filters(req) + [question], FilterSeparator)
  }

  /** The question always closes the combined query; filters, if any, come
      before it, joined and followed by " and ". */
  lemma CombinedQueryEndsWithQuestion(req: SearchRequest, question: string)
    ensures CombinedQuery(req, question)
         == if Filters(req) == [] then question
            else Join(Filters(req), FilterSeparator) + FilterSeparator + question
  {
    JoinSnoc(Filters(req), question, FilterSeparator);
  }

  /** Without filters the combined query is the question itself. */
  lemma CombinedQueryWithoutFilters(req: SearchRequest, question: string)
    requires req.appOwner.None? && req.topicName.None? && req.consumerApp.None?
    ensures CombinedQuery(req, question) == question
  {
    CombinedQueryEndsWithQuestion(req, question);
  }

  lemma JoinThree(a: string, b: string, c: string, sep: string)
    ensures Join([a, b, c], sep) == a + sep + (b + sep + c)
  {
    assert [a, b, c][1..] == [b, c];
    assert [b, c][1..] == [c];
    assert Join([c], sep) == c;
    assert Join([b, c], sep) == b + sep + c;
  }

  lemma Regroup(p1: string, v1: string, p2: string, v2: string, p3: string, v3: string,
                sep: string, q: string)
    ensures (p1 + v1) + sep + ((p2 + v2) + sep + (p3 + v3)) + sep + q
         == p1 + v1 + (sep + p2) + v2 + (sep + p3) + v3 + sep + q
  {
  }

  lemma FilterLabels()
    ensures FilterSeparator + "Topic_name: " == " and Topic_name: "
    ensures FilterSeparator + "Consumer_app: " == " and Consumer_app: "
  {
  }

  /** With all three filters the query lists them in their fixed order. */
  lemma CombinedQueryAllFilters(req: SearchRequest, question: string)
    requires req.appOwner.Some? && req.topicName.Some? && req.consumerApp.Some?
    ensures CombinedQuery(req, question)
         == "App_owner: " + req.appOwner.value + " and Topic_name: " + req.topicName.value
            + " and Consumer_app: " + req.consumerApp.value + " and " + question
  {
    var a, b, c := "App_owner: " + req.appOwner.value, "Topic_name: " + req.topicName.value,
                   "Consumer_app: " + req.consumerApp.value;
    assert Filters(req) == [a, b, c];
    CombinedQueryEndsWithQuestion(req, question);
    JoinThree(a, b, c, FilterSeparator);
    Regroup("App_owner: ", req.appOwner.value, "Topic_name: ", req.topicName.value,
            "Consumer_app: ", req.consumerApp.value, FilterSeparator, question);
    FilterLabels();
  }

  /** One extractive answer: "Answer: <text>\n", a missing text as "". */
  function RenderAnswer(a: Answer): string {
    "Answer: " + a.text.GetOr("") + "\n"
  }

  /** All answers of a search, joined by a blank line. */
  function RenderAnswers(answers: seq<Answer>): string {
    Join(seq(|answers|, i requires 0 <= i < |answers| => RenderAnswer(answers[i])), "\n\n")
  }

  /** Every answer's text reaches the rendering, in its "Answer:" line. */
  lemma RenderAnswersNamesEvery(answers: seq<Answer>, k: nat)
    requires k < |answers|
    ensures Contains(RenderAnswers(answers), "Answer: " + answers[k].text.GetOr("") + "\n")
  {
    var pieces := seq(|answers|, i requires 0 <= i < |answers| => RenderAnswer(answers[i]));
    JoinContainsPiece(pieces, "\n\n", k);
  }

  /** A caption renders as its summary line only when both its text and its
      highlights are non-empty, otherwise as nothing. */
  function RenderCaption(c: Caption): (r: string)
    ensures r != [] <==> c.text.GetOr("") != [] && c.highlights.GetOr("") != []
    ensures r != [] ==> |r| >= 10 && r[..9] == "Summary: " && r[9..|r| - 1] == c.text.value && r[|r| - 1] == '\n'
  {
    var text := c.text.GetOr("");
    if text != [] && c.highlights.GetOr("") != [] then
      var r := "Summary: " + text + "\n";
      assert r[9..|r| - 1] == text;
      r
    else ""
  }

  /** `skip_while(|p| p.is_empty())`: drops the leading empty strings only. */
  function SkipLeadingEmpty(xs: seq<string>): (r: seq<string>)
    ensures |r| <= |xs| && r == xs[|xs| - |r|..]
    ensures forall i :: 0 <= i < |xs| - |r| ==> xs[i] == []
    ensures r != [] ==> r[0] != []
  {
    if xs != [] && xs[0] == [] then
      var r := SkipLeadingEmpty(xs[1..]);
      assert xs[1..][|xs| - 1 - |r|..] == xs[|xs| - |r|..];
      assert forall i :: 1 <= i < |xs| - |r| ==> xs[i] == xs[1..][i - 1];
      r
    else xs
  }

  /** Every non-empty string survives the skip, so it is joined in. */
  lemma SkipLeadingEmptyKeeps(xs: seq<string>, k: nat)
    requires k < |xs| && xs[k] != []
    ensures var r := SkipLeadingEmpty(xs);
      k >= |xs| - |r| && r[k - (|xs| - |r|)] == xs[k]
  {
  }

  /** The captions of one hit, their leading empty renderings skipped, joined
      by newlines. */
  function RenderCaptions(caps: seq<Caption>): string {
    Join(SkipLeadingEmpty(seq(|caps|, i requires 0 <= i < |caps| => RenderCaption(caps[i]))), "\n")
  }

  /** The summary of a hit; a hit without captions contributes "". */
  function HitSummary(h: Hit): string {
    match h.captions
    case None => ""
    case Some(caps) => RenderCaptions(caps)
  }

  /** The summaries of the ranked hits, leading empty ones skipped, joined
      by newlines. */
  function RenderSummaries(hits: seq<Hit>): string {
    Join(SkipLeadingEmpty(seq(|hits|, i requires 0 <= i < |hits| => HitSummary(hits[i]))), "\n")
  }

  /** A usable caption of a hit reaches the hit's summary. */
  lemma CaptionReachesHitSummary(h: Hit, k: nat)
    requires h.captions.Some? && k < |h.captions.value|
    requires RenderCaption(h.captions.value[k]) != []
    ensures Contains(HitSummary(h), RenderCaption(h.captions.value[k]))
  {
    var caps := h.captions.value;
    var xs := seq(|caps|, i requires 0 <= i < |caps| => RenderCaption(caps[i]));
    var r := SkipLeadingEmpty(xs);
    SkipLeadingEmptyKeeps(xs, k);
    JoinContainsPiece(r, "\n", k - (|xs| - |r|));
  }

  /** A hit's non-empty summary reaches the rendering of all summaries. */
  lemma HitSummaryReachesSummaries(hits: seq<Hit>, k: nat)
    requires k < |hits| && HitSummary(hits[k]) != []
    ensures Contains(RenderSummaries(hits), HitSummary(hits[k]))
  {
    var xs := seq(|hits|, i requires 0 <= i < |hits| => HitSummary(hits[i]));
    var r := SkipLeadingEmpty(xs);
    SkipLeadingEmptyKeeps(xs, k);
    JoinContainsPiece(r, "\n", k - (|xs| - |r|));
  }

  /** The application names a hit mentions: its consumer application and
      its owner, when present. */
  function HitApps(h: Hit): set<string> {
    (if h.consumerApp.Some? then {h.consumerApp.value} else {})
    + (if h.appOwner.Some? then {h.appOwner.value} else {})
  }

  /** The distinct application names the hits mention. */
  function EntitySet(hits: seq<Hit>): set<string> {
    if hits == [] then {}
    else HitApps(hits[0]) + EntitySet(hits[1..])
  }

  /** The entity set holds exactly the names some hit mentions. */
  lemma {:induction false} EntitySetMembers(hits: seq<Hit>)
    ensures forall i :: 0 <= i < |hits| ==> HitApps(hits[i]) <= EntitySet(hits)
    ensures forall a :: a in EntitySet(hits) ==> exists i :: 0 <= i < |hits| && a in HitApps(hits[i])
    decreases |hits|
  {
    if hits != [] {
      EntitySetMembers(hits[1..]);
      forall a | a in EntitySet(hits) ensures exists i :: 0 <= i < |hits| && a in HitApps(hits[i]) {
        if a !in HitApps(hits[0]) {
          var i :| 0 <= i < |hits[1..]| && a in HitApps(hits[1..][i]);
          assert hits[i + 1] == hits[1..][i];
        }
      }
      forall i | 0 <= i < |hits| ensures HitApps(hits[i]) <= EntitySet(hits) {
        if i > 0 {
          assert hits[i] == hits[1..][i - 1];
        }
      }
    }
  }

  /** The enrichment lookup goes to a fixed index, semantic configuration
      and field list. */
  const AppInfoIndex := "azureblob-app-info-invenindex-json"
  const AppInfoSemantic := "app-info-semantics-dev003"
  const AppInfoFields := "full_application_name,application_id,business_application_name,application_level,service,app_category"

  /** `apps` lists the set `s`, each element once, in some order. */
  predicate Enumerates(apps: seq<string>, s: set<string>) {
    |apps| == |s| && (forall a | a in apps :: a in s) && (forall a | a in s :: a in apps)
  }

  /** The enrichment query for the application names listed in `apps`. */
  function EnrichmentQuery(apps: seq<string>): string {
    var names := Join(apps, " or ");
    "(full_application_name: (" + names + ") or business_application_name: (" + names + ") )"
  }

  /** Every listed application name is asked for. */
  lemma EnrichmentQueryNamesEvery(apps: seq<string>, k: nat)
    requires k < |apps|
    ensures Contains(EnrichmentQuery(apps), apps[k])
  {
    var names := Join(apps, " or ");
    JoinContainsPiece(apps, " or ", k);
    var tail := ") or business_application_name: (" + names + ") )";
    ContainsWithin("(full_application_name: (", names, tail, apps[k]);
    assert EnrichmentQuery(apps) == "(full_application_name: (" + names + tail;
  }

  const AppNameLabel := "Application Information " + "of Application Name " + "or App Name: "

  /** The six labelled lines describing one application, a missing field
      giving an empty value. */
  function AppInfoLines(h: Hit): seq<string> {
    [ AppNameLabel + h.fullApplicationName.GetOr(""),
      "Application ID: " + h.applicationId.GetOr(""),
      "Business Application Name: " + h.businessApplicationName.GetOr(""),
      "Application Level: " + h.applicationLevel.GetOr(""),
      "Service: " + h.service.GetOr(""),
      "App Category: " + h.appCategory.GetOr("") ]
  }

  /** One application's information block: its six lines, each followed
      by a newline. */
  function RenderAppInfo(h: Hit): string {
    Terminated(AppInfoLines(h))
  }

  /** The information blocks of the ranked applications, joined by newlines. */
  function RenderAppInfos(hits: seq<Hit>): string {
    Join(seq(|hits|, i requires 0 <= i < |hits| => RenderAppInfo(hits[i])), "\n")
  }

  /** Field values free of line breaks. */
  predicate PlainField(v: Option<string>) {
    v.None? || ('\n' !in v.value && '\r' !in v.value)
  }

  /** A label ending in a space followed by a plain field is a plain line. */
  lemma LabelledLine(tag: string, v: Option<string>)
    requires '\n' !in tag && tag != [] && tag[|tag| - 1] == ' '
    requires PlainField(v)
    ensures PlainLine(tag + v.GetOr(""))
  {
    var l := tag + v.GetOr("");
    if v.GetOr("") != [] {
      assert l[|l| - 1] == v.value[|v.value| - 1];
      assert v.value[|v.value| - 1] in v.value;
    }
  }

  /** The first line's label holds no line break. */
  lemma AppNameLabelPlain()
    ensures '\n' !in AppNameLabel
  {
    assert '\n' !in "Application Information ";
    assert '\n' !in "of Application Name ";
    assert '\n' !in "or App Name: ";
  }

  lemma AppInfoLinesPlain(h: Hit)
    requires PlainField(h.fullApplicationName) && PlainField(h.applicationId)
    requires PlainField(h.businessApplicationName) && PlainField(h.applicationLevel)
    requires PlainField(h.service) && PlainField(h.appCategory)
    ensures forall i :: 0 <= i < |AppInfoLines(h)| ==> PlainLine(AppInfoLines(h)[i])
  {
    var ls := AppInfoLines(h);
    AppNameLabelPlain();
    LabelledLine(AppNameLabel, h.fullApplicationName);
    LabelledLine("Application ID: ", h.applicationId);
    LabelledLine("Business Application Name: ", h.businessApplicationName);
    LabelledLine("Application Level: ", h.applicationLevel);
    LabelledLine("Service: ", h.service);
    LabelledLine("App Category: ", h.appCategory);
    assert PlainLine(ls[0]) && PlainLine(ls[1]) && PlainLine(ls[2]);
    assert PlainLine(ls[3]) && PlainLine(ls[4]) && PlainLine(ls[5]);
  }

  /** The information block always has its six lines, a missing field giving
      an empty value rather than a missing line. */
  lemma AppInfoReadsBack(h: Hit)
    requires PlainField(h.fullApplicationName) && PlainField(h.applicationId)
    requires PlainField(h.businessApplicationName) && PlainField(h.applicationLevel)
    requires PlainField(h.service) && PlainField(h.appCategory)
    ensures Lines(RenderAppInfo(h)) == AppInfoLines(h)
  {
    AppInfoLinesPlain(h);
    LinesOfTerminated(AppInfoLines(h));
  }
}
