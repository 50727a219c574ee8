/**
 * The local learning-style analysis: a case-insensitive keyword search over the
 * learner's free-text preferences, with a fixed priority, mapped to a fixed list
 * of study methods and a fixed piece of advice.
 */
module LearningStyle {
  import opened Strings

  const Visual := "visual"
  const Auditory := "auditory"
  const Kinesthetic := "kinesthetic"
  const ReadingWriting := "reading-writing"

  /** The study methods recommended for each style. */
  const StudyMethods: map<string, seq<string>> := map[
    Visual := ["video lectures", "diagrams", "mind maps", "flashcards"],
    Auditory := ["podcasts", "audio books", "group discussions", "lectures"],
    Kinesthetic := ["hands-on practice", "labs", "projects", "simulations"],
    ReadingWriting := ["textbooks", "note-taking", "written summaries", "articles"]
  ]

  const PersonalizedTips :=
    "Use 45-90 minute focused sessions with breaks. Apply active recall and spaced repetition."

  datatype LearningAnalysis = LearningAnalysis(
    primaryLearningStyle: string,
    recommendedStudyMethods: seq<string>,
    personalizedTips: string)

  /** The keyword tests, on the lower-cased preferences, in the order they are tried. */
  predicate MentionsVisual(lower: string) {
    Contains(lower, "visual")
  }

  predicate MentionsAuditory(lower: string) {
    Contains(lower, "audio") || Contains(lower, "auditory")
  }

  predicate MentionsKinesthetic(lower: string) {
    Contains(lower, "kinesthetic") || Contains(lower, "hands")
  }

  /** The `if`/`elif` chain that picks the primary style from the lower-cased text. */
  function PrimaryStyle(lower: string): string {
    if MentionsVisual(lower) then Visual
    else if MentionsAuditory(lower) then Auditory
    else if MentionsKinesthetic(lower) then Kinesthetic
    else ReadingWriting
  }

  /**
   * The analysis of a preferences text: the first style whose keywords occur in
   * it, ignoring case, with the method list for that style and the fixed tips.
   */
  function AnalyzeLearningPreferences(prefs: string): (r: LearningAnalysis)
    ensures r.primaryLearningStyle in StudyMethods
    ensures r.primaryLearningStyle == Visual <==> MentionsVisual(Lower(prefs))
    ensures r.primaryLearningStyle == Auditory <==>
              !MentionsVisual(Lower(prefs)) && MentionsAuditory(Lower(prefs))
    ensures r.primaryLearningStyle == Kinesthetic <==>
              !MentionsVisual(Lower(prefs)) && !MentionsAuditory(Lower(prefs)) &&
              MentionsKinesthetic(Lower(prefs))
    ensures r.primaryLearningStyle == ReadingWriting <==>
              !MentionsVisual(Lower(prefs)) && !MentionsAuditory(Lower(prefs)) &&
              !MentionsKinesthetic(Lower(prefs))
    ensures r.recommendedStudyMethods == StudyMethods[r.primaryLearningStyle]
    ensures |r.recommendedStudyMethods| == 4
    ensures r.personalizedTips == PersonalizedTips
  {
    var primary := PrimaryStyle(Lower(prefs));
    var fallback := StudyMethods[ReadingWriting];
    var methods := if primary in StudyMethods then StudyMethods[primary] else fallback;
    LearningAnalysis(primary, methods, PersonalizedTips)
  }

  /** The style does not depend on whether the learner wrote in upper or lower case. */
  lemma AnalysisIgnoresCase(prefs: string)
    ensures AnalyzeLearningPreferences(Upper(prefs)) == AnalyzeLearningPreferences(prefs)
    ensures AnalyzeLearningPreferences(Lower(prefs)) == AnalyzeLearningPreferences(prefs)
  {
    LowerOfUpper(prefs);
    LowerIdempotent(prefs);
  }

  /** A mention of "visual" wins over every other keyword, wherever it stands. */
  lemma VisualTakesPriority(before: string, after: string)
    ensures AnalyzeLearningPreferences(before + "Visual" + after).primaryLearningStyle == Visual
  {
    var s := before + "Visual" + after;
    var l := Lower(s);
    assert l[|before|..|before| + 6] == "visual" by {
      forall i | 0 <= i < 6 ensures l[|before| + i] == "visual"[i] {
        assert s[|before| + i] == "Visual"[i];
      }
    }
    ContainsAt(l, "visual", |before|);
  }
}
