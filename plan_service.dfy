/**
 * The plan endpoints of the backend: `POST /api/generate-plan` reads and
 * validates the request, builds a plan and keeps it in an in-memory store under
 * a timestamp id; `GET /api/plan/<id>` and `GET /api/plan/<id>/pdf` look a plan
 * up again.
 *
 * What the language-model agents produce, the clock and the PDF renderer are
 * parameters. A raised exception, which the endpoint turns into a 500 reply
 * carrying `str(e)`, is the reply `ServerError`; the message text is not kept.
 */
module PlanService {
  import opened Wrappers
  import opened Strings
  import opened Numerals
  import opened Json
  import opened LearningStyle
  import opened Progress
  import opened ResponseParsing

  /** A stored study plan: the dictionary `create_study_plan` returns. */
  datatype Plan = Plan(
    createdAt: string,
    durationDays: int,
    syllabusAnalysis: JsonValue,
    learningAnalysis: LearningAnalysis,
    schedule: JsonValue,
    resources: JsonValue,
    progressTracking: ProgressTracking)

  /** What the three agent crews return once their replies are parsed. */
  datatype AgentResults = AgentResults(
    syllabusAnalysis: JsonValue,
    schedule: JsonValue,
    resources: JsonValue)

  /** The `summary` object of a successful generate reply. */
  datatype Summary = Summary(
    createdAt: string,
    durationDays: int,
    totalEstimatedHours: JsonValue,
    primaryLearningStyle: string)

  /** The validated inputs of a generate request. */
  datatype PlanRequest = PlanRequest(
    syllabusText: string,
    learningPreferences: string,
    durationDays: int)

  /** The replies of the three plan endpoints. */
  datatype Response =
    | PlanCreated(planId: string, message: string, summary: Summary)
    | PlanFound(plan: Plan)
    | PdfFile(filename: string, content: seq<bv8>)
    | ClientError(status: int, error: string)
    | ServerError

  /** The HTTP status of a reply. */
  function Status(r: Response): int {
    match r
    case PlanCreated(_, _, _) => 200
    case PlanFound(_) => 200
    case PdfFile(_, _) => 200
    case ClientError(status, _) => status
    case ServerError => 500
  }

  const SyllabusRequired := ClientError(400, "Syllabus text is required")
  const PreferencesRequired := ClientError(400, "Learning preferences are required")
  const PlanNotFound := ClientError(404, "Plan not found")
  const DefaultDurationDays := 30

  /**
   * `data.get(key, '').strip()`: a missing key reads as the empty string, a string
   * is stripped, and any other value has no `strip` and raises.
   */
  function TextField(fields: map<string, JsonValue>, key: string): (r: Result<string, Response>)
    ensures key !in fields ==> r == Ok("")
    ensures r.Ok? <==> key !in fields || fields[key].JString?
    ensures r.Err? ==> r.error == ServerError
    ensures r.Ok? ==> r.value == Strip(r.value)
    ensures key in fields && fields[key].JString? ==> r == Ok(Strip(fields[key].s))
  {
    match Get(fields, key, JString(""))
    case JString(s) => StripIdempotent(s); Ok(Strip(s))
    case _ => Err(ServerError)
  }

  /**
   * `int(data.get('study_duration_days', 30))`: an integer is kept, a boolean
   * counts as 0 or 1, a string is read as a numeral, and anything else (or a
   * string that is not a numeral) raises.
   */
  function DurationField(fields: map<string, JsonValue>): (r: Result<int, Response>)
    ensures "study_duration_days" !in fields ==> r == Ok(DefaultDurationDays)
    ensures r.Err? ==> r.error == ServerError
  {
    match Get(fields, "study_duration_days", JNumber(DefaultDurationDays))
    case JNumber(n) => Ok(n)
    case JBool(b) => Ok(if b then 1 else 0)
    case JString(s) =>
      (match ParseInt(s)
       case Some(n) => Ok(n)
       case None => Err(ServerError))
    case _ => Err(ServerError)
  }

  /** The body has the shape the endpoint can read: a dictionary whose three fields convert. */
  predicate Readable(body: JsonValue) {
    && body.JObject?
    && TextField(body.fields, "syllabus_text").Ok?
    && TextField(body.fields, "learning_preferences").Ok?
    && DurationField(body.fields).Ok?
  }

  /**
   * The reading and validation that open `generate_plan`. All three fields are
   * read, and may raise, before either text is checked; the syllabus is checked
   * before the preferences.
   */
  function ValidateRequest(body: JsonValue): (r: Result<PlanRequest, Response>)
    ensures !Readable(body) <==> r == Err(ServerError)
    ensures r.Err? ==> r.error == ServerError || r.error == SyllabusRequired || r.error == PreferencesRequired
    ensures Readable(body) ==>
              var syllabus := TextField(body.fields, "syllabus_text").value;
              var prefs := TextField(body.fields, "learning_preferences").value;
              && (syllabus == [] <==> r == Err(SyllabusRequired))
              && (syllabus != [] && prefs == [] <==> r == Err(PreferencesRequired))
              && (syllabus != [] && prefs != [] ==>
                    r == Ok(PlanRequest(syllabus, prefs, DurationField(body.fields).value)))
  {
    if !body.JObject? then Err(ServerError)
    else
      var fields := body.fields;
      match TextField(fields, "syllabus_text")
      case Err(e) => Err(e)
      case Ok(syllabus) =>
        match TextField(fields, "learning_preferences")
        case Err(e) => Err(e)
        case Ok(prefs) =>
          match DurationField(fields)
          case Err(e) => Err(e)
          case Ok(duration) =>
            if syllabus == [] then Err(SyllabusRequired)
            else if prefs == [] then Err(PreferencesRequired)
            else Ok(PlanRequest(syllabus, prefs, duration))
  }

  /** A form post with the two texts and no duration. */
  function FormBody(syllabus: string, prefs: string): JsonValue {
    JObject(map["syllabus_text" := JString(syllabus), "learning_preferences" := JString(prefs)])
  }

  /** A form post with the two texts and a duration field. */
  function FormBodyWithDuration(syllabus: string, prefs: string, duration: string): JsonValue {
    JObject(map[
      "syllabus_text" := JString(syllabus),
      "learning_preferences" := JString(prefs),
      "study_duration_days" := JString(duration)])
  }

  /** A validated request carries the texts stripped and non-empty. */
  lemma ValidRequestIsTrimmed(body: JsonValue)
    requires ValidateRequest(body).Ok?
    ensures var req := ValidateRequest(body).value;
            && req.syllabusText != [] && Strip(req.syllabusText) == req.syllabusText
            && req.learningPreferences != [] && Strip(req.learningPreferences) == req.learningPreferences
  {
    StripIdempotent(body.fields["syllabus_text"].s);
    StripIdempotent(body.fields["learning_preferences"].s);
  }

  /**
   * A syllabus that is missing or nothing but whitespace is refused, whatever the
   * preferences say, once the body can be read at all.
   */
  lemma BlankSyllabusRefused(body: JsonValue)
    requires Readable(body)
    requires "syllabus_text" in body.fields ==>
               var text := body.fields["syllabus_text"].s;
               forall i :: 0 <= i < |text| ==> IsSpace(text[i])
    ensures ValidateRequest(body) == Err(SyllabusRequired)
  {
    if "syllabus_text" in body.fields {
      StripEmptyIffBlank(body.fields["syllabus_text"].s);
    }
  }

  /**
   * The preferences are reported missing exactly when the syllabus has some
   * non-whitespace text and the preferences have none.
   */
  lemma PreferencesRequiredIff(syllabus: string, prefs: string)
    ensures ValidateRequest(FormBody(syllabus, prefs)) == Err(PreferencesRequired) <==>
              (exists i :: 0 <= i < |syllabus| && !IsSpace(syllabus[i])) &&
              (forall i :: 0 <= i < |prefs| ==> IsSpace(prefs[i]))
  {
    StripEmptyIffBlank(syllabus);
    StripEmptyIffBlank(prefs);
  }

  /** Without a duration field the plan covers 30 days. */
  lemma DurationDefaultsTo30(body: JsonValue)
    requires ValidateRequest(body).Ok?
    requires "study_duration_days" !in body.fields
    ensures ValidateRequest(body).value.durationDays == 30
  {
  }

  /** A duration written as a decimal numeral is read back as that number. */
  lemma DurationFromNumeral(syllabus: string, prefs: string, n: nat)
    requires ValidateRequest(FormBody(syllabus, prefs)).Ok?
    ensures ValidateRequest(FormBodyWithDuration(syllabus, prefs, NatToString(n))) ==
              Ok(ValidateRequest(FormBody(syllabus, prefs)).value.(durationDays := n))
  {
    var plain := FormBody(syllabus, prefs).fields;
    var dated := FormBodyWithDuration(syllabus, prefs, NatToString(n)).fields;
    assert dated == plain["study_duration_days" := JString(NatToString(n))];
    assert TextField(dated, "syllabus_text") == Ok(Strip(syllabus)) == TextField(plain, "syllabus_text");
    assert TextField(dated, "learning_preferences") == Ok(Strip(prefs)) == TextField(plain, "learning_preferences");
    ParseNatToString(n);
    assert DurationField(dated) == Ok(n as int);
  }

  /**
   * How each kind of `study_duration_days` value converts: an integer as it is,
   * a boolean as 0 or 1, a string exactly when `int()` reads it, and `null`, a
   * list or a dictionary never.
   */
  lemma DurationFieldCases(fields: map<string, JsonValue>)
    requires "study_duration_days" in fields
    ensures var v := fields["study_duration_days"];
            var r := DurationField(fields);
            && (v.JNumber? ==> r == Ok(v.n))
            && (v.JBool? ==> r == Ok(if v.b then 1 else 0))
            && (v.JString? ==> (r.Ok? <==> ParseInt(v.s).Some?) && (r.Ok? ==> ParseInt(v.s) == Some(r.value)))
            && (v.JNull? || v.JArray? || v.JObject? ==> r == Err(ServerError))
  {
  }

  /**
   * A duration sent as a JSON integer, as the browser client sends it, is taken
   * as it is.
   */
  lemma DurationFromJsonNumber(body: JsonValue, n: int)
    requires body.JObject? && "study_duration_days" in body.fields
    requires body.fields["study_duration_days"] == JNumber(n)
    ensures DurationField(body.fields) == Ok(n)
    ensures ValidateRequest(body).Ok? ==> ValidateRequest(body).value.durationDays == n
  {
  }

  /** A duration sent as a JSON boolean counts as 1 for `true` and 0 for `false`. */
  lemma DurationFromJsonBool(body: JsonValue, b: bool)
    requires body.JObject? && "study_duration_days" in body.fields
    requires body.fields["study_duration_days"] == JBool(b)
    ensures ValidateRequest(body).Ok? ==> ValidateRequest(body).value.durationDays == (if b then 1 else 0)
  {
  }

  /** A duration that is not a numeral makes the request fail with a 500, even before the texts are checked. */
  lemma BadDurationIsServerError(syllabus: string, prefs: string, duration: string)
    requires ParseInt(duration).None?
    ensures ValidateRequest(FormBodyWithDuration(syllabus, prefs, duration)) == Err(ServerError)
  {
    var body := FormBodyWithDuration(syllabus, prefs, duration);
    assert DurationField(body.fields) == Err(ServerError);
  }

  /** `f"plan_{int(datetime.now().timestamp())}"` for a clock reading of `nowSeconds`. */
  function PlanId(nowSeconds: nat): (id: string)
    ensures StartsWith(id, "plan_")
  {
    "plan_" + NatToString(nowSeconds)
  }

  /** Plans generated in different seconds get different ids. */
  lemma PlanIdInjective(m: nat, n: nat)
    requires PlanId(m) == PlanId(n)
    ensures m == n
  {
    var p := "plan_";
    assert PlanId(m)[|p|..] == NatToString(m);
    assert PlanId(n)[|p|..] == NatToString(n);
    NatToStringInjective(m, n);
  }

  /** A subject the resource prompt can name: a dictionary whose `name` is a string. */
  predicate NamedSubject(subject: JsonValue) {
    subject.JObject? && "name" in subject.fields && subject.fields["name"].JString?
  }

  /**
   * The syllabus analysis `create_study_plan` can go on with. It calls `.get` on
   * it, which needs a dictionary; it slices its `subjects` (default `[]`), which
   * needs a list or a string; it reads `name` off each of the first three
   * subjects and joins those names, which needs dictionaries with string names
   * (so a string of subjects must be empty). Anything else raises.
   */
  predicate SyllabusAnalysisUsable(analysis: JsonValue): (usable: bool)
    ensures usable ==> analysis.JObject?
    ensures analysis.JObject? && "subjects" !in analysis.fields ==> usable
  {
    && analysis.JObject?
    && match Get(analysis.fields, "subjects", JArray([]))
       case JArray(subjects) => forall i :: 0 <= i < |subjects| && i < 3 ==> NamedSubject(subjects[i])
       case JString(text) => text == []
       case _ => false
  }

  /**
   * A syllabus reply the parser could not read is still usable: the error object
   * has no `subjects`, so the plan goes on with no subjects.
   */
  lemma ParseFailureIsUsable()
    ensures SyllabusAnalysisUsable(ParseFailure)
  {
    assert "subjects" !in ParseFailure.fields;
  }

  /** A subject among the first three without a string `name` makes the analysis unusable. */
  lemma UnnamedSubjectUnusable(fields: map<string, JsonValue>, subjects: seq<JsonValue>, i: nat)
    requires i < |subjects| && i < 3 && !NamedSubject(subjects[i])
    ensures !SyllabusAnalysisUsable(JObject(fields["subjects" := JArray(subjects)]))
  {
    assert Get(fields["subjects" := JArray(subjects)], "subjects", JArray([])) == JArray(subjects);
  }

  /**
   * The analysis the syllabus prompt asks for is usable: a `subjects` list whose
   * first three entries are dictionaries with a string `name`.
   */
  lemma NamedSubjectsUsable(fields: map<string, JsonValue>, subjects: seq<JsonValue>)
    requires forall i :: 0 <= i < |subjects| && i < 3 ==> NamedSubject(subjects[i])
    ensures SyllabusAnalysisUsable(JObject(fields["subjects" := JArray(subjects)]))
  {
    assert Get(fields["subjects" := JArray(subjects)], "subjects", JArray([])) == JArray(subjects);
  }

  /** `subjects` that is a number, `null`, a boolean or a dictionary cannot be sliced, so it raises. */
  lemma UnsliceableSubjectsUnusable(fields: map<string, JsonValue>, subjects: JsonValue)
    requires subjects.JNull? || subjects.JBool? || subjects.JNumber? || subjects.JObject?
    ensures !SyllabusAnalysisUsable(JObject(fields["subjects" := subjects]))
  {
    assert Get(fields["subjects" := subjects], "subjects", JArray([])) == subjects;
  }

  /** Only the first three subjects are read: what follows them never matters. */
  lemma LaterSubjectsIgnored(fields: map<string, JsonValue>, subjects: seq<JsonValue>, later: seq<JsonValue>)
    requires |subjects| >= 3
    ensures SyllabusAnalysisUsable(JObject(fields["subjects" := JArray(subjects)])) <==>
            SyllabusAnalysisUsable(JObject(fields["subjects" := JArray(subjects[..3] + later)]))
  {
    var kept := subjects[..3] + later;
    assert Get(fields["subjects" := JArray(subjects)], "subjects", JArray([])) == JArray(subjects);
    assert Get(fields["subjects" := JArray(kept)], "subjects", JArray([])) == JArray(kept);
    assert forall i :: 0 <= i < 3 ==> kept[i] == subjects[i];
  }

  /** A string of subjects can only be the empty one: slicing it and naming its characters raises. */
  lemma SubjectTextUnusable(fields: map<string, JsonValue>, text: string)
    ensures SyllabusAnalysisUsable(JObject(fields["subjects" := JString(text)])) <==> text == []
  {
    assert Get(fields["subjects" := JString(text)], "subjects", JArray([])) == JString(text);
  }

  /**
   * The plan `create_study_plan` returns, around what the agents produced: the
   * agents' three results, the keyword analysis of the preferences, and the
   * four checkpoints of the requested period.
   */
  function AssemblePlan(req: PlanRequest, createdAt: string, agents: AgentResults): (p: Plan)
    ensures p.createdAt == createdAt && p.durationDays == req.durationDays
    ensures p.syllabusAnalysis == agents.syllabusAnalysis
    ensures p.schedule == agents.schedule && p.resources == agents.resources
    ensures p.learningAnalysis == AnalyzeLearningPreferences(req.learningPreferences)
    ensures p.progressTracking == PlannedTracking(req.durationDays)
    ensures p.learningAnalysis.primaryLearningStyle == PrimaryStyle(Lower(req.learningPreferences))
    ensures p.learningAnalysis.primaryLearningStyle in StudyMethods
    ensures |p.progressTracking.checkpointSchedule| == CheckpointCount
    ensures forall k :: 0 <= k < CheckpointCount ==>
              p.progressTracking.checkpointSchedule[k].day <= req.durationDays
  {
    Plan(
      createdAt,
      req.durationDays,
      agents.syllabusAnalysis,
      AnalyzeLearningPreferences(req.learningPreferences),
      agents.schedule,
      agents.resources,
      PlannedTracking(req.durationDays))
  }

  /**
   * The success reply for a stored plan. The summary reads the total hours out
   * of the syllabus analysis with `.get`, which raises when the analysis is not
   * a dictionary.
   */
  function PlanCreatedReply(planId: string, plan: Plan): (r: Response)
    ensures plan.syllabusAnalysis.JObject? <==> r.PlanCreated?
    ensures !plan.syllabusAnalysis.JObject? ==> r == ServerError
    ensures r.PlanCreated? ==>
              && r.planId == planId
              && r.message == "Study plan generated successfully"
              && r.summary.createdAt == plan.createdAt
              && r.summary.durationDays == plan.durationDays
              && r.summary.primaryLearningStyle == plan.learningAnalysis.primaryLearningStyle
              && ("total_estimated_hours" in plan.syllabusAnalysis.fields ==>
                    r.summary.totalEstimatedHours == plan.syllabusAnalysis.fields["total_estimated_hours"])
              && ("total_estimated_hours" !in plan.syllabusAnalysis.fields ==>
                    r.summary.totalEstimatedHours == JString("N/A"))
  {
    match plan.syllabusAnalysis
    case JObject(analysis) =>
      PlanCreated(
        planId,
        "Study plan generated successfully",
        Summary(
          plan.createdAt,
          plan.durationDays,
          Get(analysis, "total_estimated_hours", JString("N/A")),
          plan.learningAnalysis.primaryLearningStyle))
    case _ => ServerError
  }

  /**
   * The summary of a freshly assembled plan repeats the requested duration and
   * the style the keyword analysis finds in the preferences.
   */
  lemma SummaryReflectsRequest(req: PlanRequest, nowSeconds: nat, createdAt: string, agents: AgentResults)
    requires agents.syllabusAnalysis.JObject?
    ensures var r := PlanCreatedReply(PlanId(nowSeconds), AssemblePlan(req, createdAt, agents));
            && r.PlanCreated?
            && Status(r) == 200
            && r.planId == PlanId(nowSeconds)
            && r.summary.durationDays == req.durationDays
            && r.summary.primaryLearningStyle == PrimaryStyle(Lower(req.learningPreferences))
            && r.summary.primaryLearningStyle in StudyMethods
  {
  }

  /** The in-memory `study_plans` dictionary and the endpoints that use it. */
  class PlanStore {
    var plans: map<string, Plan>

    /** The store starts empty. */
    constructor()
      ensures plans == map[]
    {
      plans := map[];
    }

    /**
     * `POST /api/generate-plan`: validate the request, then build and store the
     * plan. A refused request leaves the store as it was.
     */
    method GeneratePlan(
      body: JsonValue,
      nowSeconds: nat,
      createdAt: string,
      agents: (string, string, int) -> Option<AgentResults>)
      returns (r: Response)
      modifies this
      ensures ValidateRequest(body).Err? ==> r == ValidateRequest(body).error && plans == old(plans)
      ensures ValidateRequest(body).Ok? ==>
                var req := ValidateRequest(body).value;
                match agents(req.syllabusText, req.learningPreferences, req.durationDays)
                case None => r == ServerError && plans == old(plans)
                case Some(results) =>
                  if !SyllabusAnalysisUsable(results.syllabusAnalysis) then
                    r == ServerError && plans == old(plans)
                  else
                    var plan := AssemblePlan(req, createdAt, results);
                    && plans == old(plans)[PlanId(nowSeconds) := plan]
                    && r == PlanCreatedReply(PlanId(nowSeconds), plan)
                    && r.PlanCreated?
                    && Status(r) == 200
      ensures r.PlanCreated? ==>
                && GetPlan(r.planId).PlanFound?
                && GetPlan(r.planId).plan.durationDays == r.summary.durationDays
                && GetPlan(r.planId).plan.learningAnalysis.primaryLearningStyle == r.summary.primaryLearningStyle
      ensures forall id :: id != PlanId(nowSeconds) ==> GetPlan(id) == old(GetPlan(id))
    {
      var validated := ValidateRequest(body);
      if validated.Err? {
        assert !validated.error.PlanCreated?;
        return validated.error;
      }
      r := CreateAndStorePlan(validated.value, nowSeconds, createdAt, agents);
    }

    /**
     * The part of `POST /api/generate-plan` after validation: build the plan (the
     * agents may fail, and `create_study_plan` raises on a syllabus analysis it
     * cannot use), store it under the id taken from the clock, then reply with
     * the summary. Every stored plan has a dictionary as its syllabus analysis,
     * so building the summary never fails and every stored plan gets the 200
     * reply.
     */
    method CreateAndStorePlan(
      req: PlanRequest,
      nowSeconds: nat,
      createdAt: string,
      agents: (string, string, int) -> Option<AgentResults>)
      returns (r: Response)
      modifies this
      ensures match agents(req.syllabusText, req.learningPreferences, req.durationDays)
              case None => r == ServerError && plans == old(plans)
              case Some(results) =>
                if !SyllabusAnalysisUsable(results.syllabusAnalysis) then
                  r == ServerError && plans == old(plans)
                else
                  var plan := AssemblePlan(req, createdAt, results);
                  && plans == old(plans)[PlanId(nowSeconds) := plan]
                  && r == PlanCreatedReply(PlanId(nowSeconds), plan)
                  && r.PlanCreated?
                  && Status(r) == 200
      ensures r.PlanCreated? ==>
                && GetPlan(r.planId).PlanFound?
                && GetPlan(r.planId).plan.durationDays == r.summary.durationDays
                && GetPlan(r.planId).plan.learningAnalysis.primaryLearningStyle == r.summary.primaryLearningStyle
      ensures forall id :: id != PlanId(nowSeconds) ==> GetPlan(id) == old(GetPlan(id))
    {
      var produced := agents(req.syllabusText, req.learningPreferences, req.durationDays);
      if produced.None? || !SyllabusAnalysisUsable(produced.value.syllabusAnalysis) {
        return ServerError;
      }
      var learning := AnalyzeLearningPreferences(req.learningPreferences);
      var progress := GenerateProgressTracking(req.durationDays);
      var plan := Plan(
        createdAt,
        req.durationDays,
        produced.value.syllabusAnalysis,
        learning,
        produced.value.schedule,
        produced.value.resources,
        progress);
      assert plan == AssemblePlan(req, createdAt, produced.value);
      var planId := PlanId(nowSeconds);
      plans := plans[planId := plan];
      r := PlanCreatedReply(planId, plan);
    }

    /** `GET /api/plan/<id>`: the stored plan, or 404 when there is none. */
    function GetPlan(planId: string): (r: Response)
      reads this
      ensures planId !in plans <==> r == PlanNotFound
      ensures planId in plans ==> r == PlanFound(plans[planId])
    {
      if planId !in plans then PlanNotFound else PlanFound(plans[planId])
    }

    /**
     * `GET /api/plan/<id>/pdf`: 404 when there is no such plan, otherwise the
     * rendered document as the attachment `study_plan_<id>.pdf`, or 500 when
     * rendering raises.
     */
    function DownloadPdf(planId: string, render: Plan -> Option<seq<bv8>>): (r: Response)
      reads this
      ensures planId !in plans <==> r == PlanNotFound
      ensures planId in plans && render(plans[planId]).None? ==> r == ServerError
      ensures planId in plans && render(plans[planId]).Some? ==>
                r == PdfFile("study_plan_" + planId + ".pdf", render(plans[planId]).value)
    {
      if planId !in plans then PlanNotFound
      else
        match render(plans[planId])
        case Some(content) => PdfFile("study_plan_" + planId + ".pdf", content)
        case None => ServerError
    }
  }
}
