/**
 * Prompt selection in the generate route: a total function from the request's `type`, the
 * document's text and title, and `weeks` to the text sent to the language model. Every
 * prompt is a fixed head, the curriculum text, and (for the four known types) a fixed lead,
 * the requested item count and a fixed body.
 */
module Prompts {
  import opened Wrappers
  import opened Text
  import opened Numbers

  /** The request's `type`, after the `===` comparisons; anything else is `Other`. */
  datatype ContentType = Lesson | Mcq | Srq | Erq | Other

  function ContentTypeOf(t: string): (k: ContentType)
    ensures k == Other <==> t !in {"lesson", "mcq", "srq", "erq"}
  {
    if t == "lesson" then Lesson
    else if t == "mcq" then Mcq
    else if t == "srq" then Srq
    else if t == "erq" then Erq
    else Other
  }

  /** `document.extracted_text || document.title` */
  function CurriculumText(extracted: Option<string>, title: string): string
  {
    OrElse(extracted, title)
  }

  /** `weeks || 8`: a missing or zero week count becomes 8 (non-integral values are not modelled). */
  function WeekCount(weeks: Option<int>): (n: int)
    ensures n != 0
    ensures weeks.Some? && weeks.value != 0 ==> n == weeks.value
    ensures weeks.None? || weeks.value == 0 ==> n == 8
  {
    if weeks.Some? && weeks.value != 0 then weeks.value else 8
  }

  /** The number of items (weeks for a lesson plan) each known template asks for. */
  function ItemCount(k: ContentType, weeks: Option<int>): int
    requires k != Other
  {
    match k
    case Lesson => WeekCount(weeks)
    case Mcq => 10
    case Srq => 8
    case Erq => 5
  }

  /** Template text before the curriculum. */
  function Head(k: ContentType): string
  {
    match k
    case Lesson => LessonIntro + "\n\nCurriculum Content:\n"
    case Mcq => "Based on this curriculum content:\n"
    case Srq => "Based on this curriculum:\n"
    case Erq => "Based on this curriculum:\n"
    case Other => "Create a detailed lesson plan based on this curriculum: "
  }

  /** Template text between the curriculum and the item count. */
  function Lead(k: ContentType): string
    requires k != Other
  {
    if k == Lesson then "\n\nTask: Create a comprehensive " else "\n\nCreate "
  }

  /** Template text after the item count, one line per element; the first line says what is counted. */
  function BodyLines(k: ContentType): (lines: seq<string>)
    requires k != Other
    ensures |lines| >= 2
  {
    match k
    case Lesson => LessonLines
    case Mcq => McqLines
    case Srq => SrqLines
    case Erq => ErqLines
  }

  function Body(k: ContentType): string
    requires k != Other
  {
    Join(BodyLines(k), '\n')
  }

  const LessonIntro: string := "You are an expert education consultant specializing in curriculum design and lesson planning following pedagogical best practices."

  const LessonLines: seq<string> := [
    "-week lesson plan that includes:",
    "",
    "1. **Weekly Breakdown**: For each week, provide:",
    "   - Week number and title",
    "   - Learning objectives (3-5 per week)",
    "   - Key concepts and topics",
    "   - Suggested activities and teaching strategies",
    "   - Assessment methods",
    "   - Resources needed",
    "",
    "2. **SLO (Student Learning Outcomes) Tagging**: For EACH learning objective, tag it with:",
    "   - Bloom's Taxonomy Level (Remember, Understand, Apply, Analyze, Evaluate, Create)",
    "   - Cognitive Domain (Knowledge, Comprehension, Application, Analysis, Synthesis, Evaluation)",
    "   - Action Verb from Bloom's Taxonomy",
    "",
    "3. **Pedagogical Best Practices**: Include:",
    "   - Differentiation strategies",
    "   - Formative and summative assessments",
    "   - Active learning techniques",
    "   - Technology integration suggestions",
    "",
    "Format the output in clear sections with headings. Be specific and actionable for teachers."
  ]

  const McqLines: seq<string> := [
    " Multiple Choice Questions (MCQs) that:",
    "- Cover different topics from the curriculum",
    "- Follow Bloom's Taxonomy levels (mix of Remember, Understand, Apply, Analyze)",
    "- Include 4 options each (A, B, C, D)",
    "- Clearly indicate the correct answer",
    "- Add a brief explanation for each answer",
    "",
    "For EACH question, tag it with:",
    "- Bloom's Taxonomy Level",
    "- Topic/Concept tested",
    "- Difficulty: Easy/Medium/Hard",
    "",
    "Format: Question, Options, Correct Answer, Explanation, Tags"
  ]

  const SrqLines: seq<string> := [
    " Short Response Questions (SRQs) that:",
    "- Require 2-3 sentence answers",
    "- Test understanding and application",
    "- Cover key concepts",
    "- Include model answers",
    "- Tag with Bloom's Taxonomy level (Understand, Apply, Analyze)",
    "",
    "Format: Question, Expected Answer Length, Model Answer, Bloom's Level"
  ]

  const ErqLines: seq<string> := [
    " Extended Response Questions (ERQs) that:",
    "- Require paragraph-length answers (150-300 words)",
    "- Test higher-order thinking (Analyze, Evaluate, Create)",
    "- Include rubrics for assessment",
    "- Provide model answers",
    "- Tag with Bloom's Taxonomy level",
    "",
    "Format: Question, Rubric, Model Answer, Bloom's Level, Assessment Criteria"
  ]

  /**
   * A template: a fixed head, then the curriculum text, then (for the four known types) a
   * fixed lead, the item count written in decimal, and a fixed body.
   */
  datatype Template = Counted(head: string, lead: string, count: int, body: string) | Plain(head: string)

  function TemplateFor(k: ContentType, weeks: Option<int>): (t: Template)
    ensures t.head == Head(k)
    ensures t.Counted? <==> k != Other
    ensures t.Counted? ==> t.count == ItemCount(k, weeks)
  {
    if k == Other then Plain(Head(k)) else Counted(Head(k), Lead(k), ItemCount(k, weeks), Body(k))
  }

  /** The template filled with the curriculum text (the template literal's interpolation). */
  function Fill(t: Template, text: string): string
  {
    match t
    case Plain(h) => h + text
    case Counted(h, lead, n, body) => h + text + (lead + (IntToString(n) + body))
  }

  /** The prompt the generate route builds for one request and document. */
  function BuildPrompt(contentType: string, extracted: Option<string>, title: string, weeks: Option<int>): (p: string)
    // The type's head comes first, the curriculum text right after it ...
    ensures var h := Head(ContentTypeOf(contentType));
      var text := CurriculumText(extracted, title);
      && |h| + |text| <= |p|
      && p[..|h|] == h
      && p[|h|..|h| + |text|] == text
    // ... and only an unknown type ends there, with no instructions after the text.
    ensures |p| == |Head(ContentTypeOf(contentType))| + |CurriculumText(extracted, title)|
      <==> ContentTypeOf(contentType) == Other
  {
    var t := TemplateFor(ContentTypeOf(contentType), weeks);
    var text := CurriculumText(extracted, title);
    FillEmbeds(t, text);
    Fill(t, text)
  }

  /** A filled template starts with the template's head, immediately followed by the text. */
  lemma FillEmbeds(t: Template, text: string)
    ensures var p := Fill(t, text);
      && |t.head| + |text| <= |p|
      && p[..|t.head|] == t.head
      && p[|t.head|..|t.head| + |text|] == text
  {
  }

  /**
   * Every prompt starts with its type's fixed head, immediately followed by the curriculum
   * text: the extracted text when it is non-empty, the title otherwise.
   */
  lemma PromptEmbedsCurriculum(contentType: string, extracted: Option<string>, title: string, weeks: Option<int>)
    ensures var h := Head(ContentTypeOf(contentType));
      var p := BuildPrompt(contentType, extracted, title, weeks);
      var text := if extracted.Some? && extracted.value != "" then extracted.value else title;
      && |h| + |text| <= |p|
      && p[..|h|] == h
      && p[|h|..|h| + |text|] == text
  {
    var t := TemplateFor(ContentTypeOf(contentType), weeks);
    var text := CurriculumText(extracted, title);
    FillEmbeds(t, text);
    assert BuildPrompt(contentType, extracted, title, weeks) == Fill(t, text);
    assert t.head == Head(ContentTypeOf(contentType));
  }

  /** Where the item count starts in a filled counted template. */
  function CountOffset(t: Template, text: string): nat
    requires t.Counted?
  {
    |t.head| + |text| + |t.lead|
  }

  /** The body right after the count starts with a character that cannot continue a number. */
  predicate EndsCount(t: Template)
  {
    t.Counted? ==> |t.body| > 0 && (t.body[0] == '-' || t.body[0] == ' ')
  }

  /** A number written after a fixed prefix is read back at the prefix's end when the text after it does not continue the number. */
  lemma FillCount(t: Template, text: string)
    requires t.Counted? && EndsCount(t)
    ensures CountOffset(t, text) <= |Fill(t, text)|
    ensures ParseInt(Fill(t, text)[CountOffset(t, text)..]) == Int(t.count)
  {
    var digits := IntToString(t.count);
    assert Fill(t, text)[CountOffset(t, text)..] == digits + t.body;
    ParseIntPrefix(t.count, t.body);
  }

  lemma JoinStart(lines: seq<string>, sep: char)
    requires |lines| >= 1 && |lines[0]| > 0
    ensures |Join(lines, sep)| > 0 && Join(lines, sep)[0] == lines[0][0]
  {
  }

  /** In every source template the count is followed by a space or a hyphen. */
  lemma TemplatesEndCount(k: ContentType, weeks: Option<int>)
    ensures EndsCount(TemplateFor(k, weeks))
  {
    if k != Other {
      var lines := BodyLines(k);
      JoinStart(lines, '\n');
      assert lines[0][0] == '-' || lines[0][0] == ' ';
    }
  }

  /**
   * Reading the number at the count position of a known-type prompt gives the item count:
   * 10 questions for `mcq`, 8 for `srq`, 5 for `erq`, and `weeks || 8` weeks for `lesson`.
   */
  lemma RequestedItems(contentType: string, extracted: Option<string>, title: string, weeks: Option<int>)
    requires ContentTypeOf(contentType) != Other
    ensures var t := TemplateFor(ContentTypeOf(contentType), weeks);
      var p := BuildPrompt(contentType, extracted, title, weeks);
      var at := CountOffset(t, CurriculumText(extracted, title));
      && at <= |p|
      && (contentType == "mcq" ==> ParseInt(p[at..]) == Int(10))
      && (contentType == "srq" ==> ParseInt(p[at..]) == Int(8))
      && (contentType == "erq" ==> ParseInt(p[at..]) == Int(5))
      && (contentType == "lesson" && (weeks.None? || weeks.value == 0) ==> ParseInt(p[at..]) == Int(8))
      && (contentType == "lesson" && weeks.Some? && weeks.value != 0 ==> ParseInt(p[at..]) == Int(weeks.value))
  {
    var t := TemplateFor(ContentTypeOf(contentType), weeks);
    TemplatesEndCount(ContentTypeOf(contentType), weeks);
    FillCount(t, CurriculumText(extracted, title));
  }

  /** Any other `type` gets the generic lesson-plan prompt: its head followed by the curriculum text, with no item count. */
  lemma UnknownTypeFallsBack(contentType: string, extracted: Option<string>, title: string, weeks: Option<int>)
    requires contentType !in {"lesson", "mcq", "srq", "erq"}
    ensures BuildPrompt(contentType, extracted, title, weeks)
      == "Create a detailed lesson plan based on this curriculum: " + CurriculumText(extracted, title)
  {
  }
}
