/**
 * The legacy prompt unit (proteas/prompt_template_unit.py): a named statement
 * built from an optional info line, a statement suffix, a placeholder
 * proclamation and a braced placeholder, which can be switched into a
 * question.
 *
 * Python truthiness of the optional text attributes is `Present`: given and
 * non-empty.
 */
module LegacyUnit {
  import opened Wrappers
  import opened Text

  /** `format_info(info)`: the info text on its own line, or nothing. */
  function FormatInfo(info: Option<string>): (r: string)
    ensures r == "" <==> !Present(info)
    ensures Present(info) ==> r[..|r| - 1] == info.value && r[|r| - 1] == '\n'
  {
    if Present(info) then info.value + "\n" else ""
  }

  const Rule := "-------------"

  /**
   * `format_placeholder(placeholder, pretty)`: the placeholder in braces after
   * a colon, on its own line followed by a horizontal rule when pretty, inline
   * otherwise; nothing without a placeholder.
   */
  function FormatPlaceholder(placeholder: Option<string>, pretty: bool): (r: string)
    ensures r == "" <==> !Present(placeholder)
    ensures Present(placeholder) ==> Contains(r, "{" + placeholder.value + "}")
    ensures Present(placeholder) && pretty ==> r[..2] == ":\n" && EndsWith(r, "}" + PrettyTail)
    ensures Present(placeholder) && !pretty ==> r[..2] == ": " && EndsWith(r, "}" + InlineTail)
  {
    if pretty && Present(placeholder) then
      var r := Framed(":\n", placeholder.value, PrettyTail);
      FramedShape(":\n", placeholder.value, PrettyTail);
      r
    else if Present(placeholder) then
      var r := Framed(": ", placeholder.value, InlineTail);
      FramedShape(": ", placeholder.value, InlineTail);
      r
    else ""
  }

  const PrettyTail := "\n\n" + Rule
  const InlineTail := "\n"

  /** `lead`, then `p` in braces, then `tail`. */
  function Framed(lead: string, p: string, tail: string): string {
    lead + ("{" + p + "}") + tail
  }

  lemma FramedShape(lead: string, p: string, tail: string)
    ensures var r := Framed(lead, p, tail);
      r[..|lead|] == lead && Contains(r, "{" + p + "}") && EndsWith(r, "}" + tail)
  {
    var braced := "{" + p + "}";
    var r := Framed(lead, p, tail);
    assert r[|lead|..|lead| + |braced|] == braced;
    ContainsAt(r, braced, |lead|);
    assert r[|r| - |"}" + tail|..] == "}" + tail;
  }

  /** `format_suffix(suffix, markdown_formatting)`: a second-level heading in Markdown mode. */
  function FormatSuffix(suffix: Option<string>, markdown: bool): (r: string)
    ensures r == "" <==> !Present(suffix)
    ensures markdown && Present(suffix) ==>
      |r| == |suffix.value| + 3 && r[..3] == "## " && r[3..] == suffix.value
    ensures !markdown && suffix.Some? ==> r == suffix.value
    ensures suffix.None? ==> r == ""
  {
    if markdown && Present(suffix) then "## " + suffix.value
    else if Present(suffix) then suffix.value
    else ""
  }

  /**
   * The statement's heading: the suffix and the proclamation separated by a
   * space, whichever of them is there alone, or nothing.
   */
  function Headline(suffix: string, proclamation: Option<string>): (r: string)
    ensures suffix != "" && Present(proclamation) ==> r == suffix + " " + proclamation.value
    ensures suffix != "" && !Present(proclamation) ==> r == suffix
    ensures suffix == "" ==> r == (if Present(proclamation) then proclamation.value else "")
  {
    if suffix != "" && Present(proclamation) then suffix + " " + proclamation.value
    else if suffix != "" then suffix
    else if Present(proclamation) then proclamation.value
    else ""
  }

  class PromptTemplateUnit {
    const name: string
    const statementSuffix: string
    const placeholderProclamation: Option<string>
    const placeholder: Option<string>
    const info: Option<string>
    const category: Option<string>
    const questionSuffix: string
    var markedAsQuestion: bool
    var answered: bool

    /** A missing or empty statement suffix becomes "Here is"; the unit starts as an unanswered statement. */
    constructor(name: string, statementSuffix: Option<string> := None, placeholderProclamation: Option<string> := None,
                placeholder: Option<string> := None, info: Option<string> := None, category: Option<string> := None)
      ensures this.name == name
      ensures this.statementSuffix == if Present(statementSuffix) then statementSuffix.value else "Here is"
      ensures this.statementSuffix != ""
      ensures this.placeholderProclamation == placeholderProclamation && this.placeholder == placeholder
      ensures this.info == info && this.category == category
      ensures questionSuffix == "What is "
      ensures !markedAsQuestion && !answered
    {
      this.name := name;
      this.statementSuffix := if Present(statementSuffix) then statementSuffix.value else "Here is";
      this.placeholderProclamation := placeholderProclamation;
      this.placeholder := placeholder;
      this.info := info;
      this.category := category;
      questionSuffix := "What is ";
      markedAsQuestion := false;
      answered := false;
    }

    /** `make_question()`: render as a question from now on. */
    method MakeQuestion()
      modifies this`markedAsQuestion
      ensures markedAsQuestion
    {
      markedAsQuestion := true;
    }

    /** `close_question(answered)`: back to a statement, recording whether it was answered. */
    method CloseQuestion(answered: bool := true)
      modifies this`markedAsQuestion, this`answered
      ensures !markedAsQuestion && this.answered == answered
    {
      markedAsQuestion := false;
      this.answered := answered;
    }

    /** The proclamation as the question shows it: `placeholder_proclamation or ""`. */
    function QuestionProclamation(): (r: string)
      ensures placeholderProclamation.Some? ==> r == placeholderProclamation.value
      ensures placeholderProclamation.None? ==> r == ""
    {
      if Present(placeholderProclamation) then placeholderProclamation.value else ""
    }

    /**
     * `construct_statement(pretty, markdown_formatting)`: the info line, then
     * either the question ("What is <proclamation>?") or, when there is a
     * placeholder, the headline and the formatted placeholder.
     */
    function ConstructStatement(pretty: bool := false, markdown: bool := false): (r: string)
      reads this
      ensures FormatInfo(info) <= r
      ensures markedAsQuestion ==>
        r == FormatInfo(info) + FormatSuffix(Some(questionSuffix), markdown) + " " + QuestionProclamation() + "?"
      ensures !markedAsQuestion && !Present(placeholder) ==> r == FormatInfo(info)
      ensures !markedAsQuestion && Present(placeholder) ==>
        r == FormatInfo(info) + Headline(FormatSuffix(Some(statementSuffix), markdown), placeholderProclamation)
             + FormatPlaceholder(placeholder, pretty)
    {
      var statement := FormatInfo(info);
      if markedAsQuestion then
        statement + FormatSuffix(Some(questionSuffix), markdown) + " " + QuestionProclamation() + "?"
      else if Present(placeholder) then
        statement + Headline(FormatSuffix(Some(statementSuffix), markdown), placeholderProclamation)
        + FormatPlaceholder(placeholder, pretty)
      else statement
    }
  }

  /**
   * A question starts with the info line and the (possibly Markdown) question
   * suffix, ends in "?", and does not depend on the placeholder or on
   * pretty-printing.
   */
  lemma QuestionShape(u: PromptTemplateUnit, pretty: bool, markdown: bool)
    requires u.markedAsQuestion
    ensures var r := u.ConstructStatement(pretty, markdown);
      r[|r| - 1] == '?' && FormatInfo(u.info) + FormatSuffix(Some(u.questionSuffix), markdown) <= r
    ensures u.ConstructStatement(pretty, markdown) == u.ConstructStatement(!pretty, markdown)
  {
    var head := FormatInfo(u.info) + FormatSuffix(Some(u.questionSuffix), markdown);
    var tail := " " + u.QuestionProclamation() + "?";
    var r := u.ConstructStatement(pretty, markdown);
    assert r == head + tail;
    assert u.ConstructStatement(!pretty, markdown) == head + tail;
    assert r[|r| - 1] == tail[|tail| - 1] == '?';
    assert r[..|head|] == head;
  }

  /** With a placeholder, the statement ends with the placeholder in braces. */
  lemma StatementEndsWithPlaceholder(u: PromptTemplateUnit, pretty: bool, markdown: bool)
    requires !u.markedAsQuestion && Present(u.placeholder)
    ensures var r := u.ConstructStatement(pretty, markdown);
      EndsWith(r, "}" + if pretty then PrettyTail else InlineTail) &&
      Contains(r, "{" + u.placeholder.value + "}")
  {
    var front := FormatInfo(u.info) + Headline(FormatSuffix(Some(u.statementSuffix), markdown), u.placeholderProclamation);
    var tail := FormatPlaceholder(u.placeholder, pretty);
    var r := u.ConstructStatement(pretty, markdown);
    assert r == front + tail;
    SuffixContains(front, tail, "{" + u.placeholder.value + "}");
    EndsWithExtended(front, tail, "}" + if pretty then PrettyTail else InlineTail);
  }

  /**
   * Because the constructor never leaves the statement suffix empty, the
   * statement always shows it (as a Markdown heading when asked), followed by
   * the proclamation when there is one.
   */
  lemma StatementShowsSuffix(u: PromptTemplateUnit, pretty: bool, markdown: bool)
    requires !u.markedAsQuestion && Present(u.placeholder) && u.statementSuffix != ""
    ensures var shown := FormatSuffix(Some(u.statementSuffix), markdown);
      var head := if Present(u.placeholderProclamation) then shown + " " + u.placeholderProclamation.value else shown;
      FormatInfo(u.info) + head <= u.ConstructStatement(pretty, markdown)
  {
  }
}
