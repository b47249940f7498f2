// Document classification (app/services/classifier.py): a language-model call
// when a backend is configured, with a keyword-scoring fallback that always
// answers with one of the configured categories.
module Classifier {
  import opened Strings
  import opened Results
  import Config

  /** One row of the rule table: a category and its keyword phrases. */
  datatype Rule = Rule(category: string, keywords: seq<string>)

  /** The rule table, in priority order. */
  const Rules: seq<Rule> := [
    Rule("Deposition Transcript", ["deposition of", "q.", "a.", "court reporter", "sworn testimony"]),
    Rule("Court Filing",          ["court of", "plaintiff", "defendant", "motion to", "order of the court"]),
    Rule("Contract",              ["agreement", "hereby agree", "terms and conditions", "party of the first"]),
    Rule("Invoice",               ["invoice", "amount due", "bill to", "payment terms", "total due"]),
    Rule("Medical Record",        ["patient", "diagnosis", "medical history", "treatment plan", "physician"]),
    Rule("Police Report",         ["incident report", "officer", "suspect", "witness statement", "badge"]),
    Rule("Expert Report",         ["expert opinion", "methodology", "findings", "conclusion", "analysis"]),
    Rule("Correspondence",        ["dear", "sincerely", "regards", "re:", "attention"])
  ]

  /** How many keyword hits a category needs. */
  const MinHits: nat := 2

  /** `sum(1 for kw in keywords if kw in text)` */
  function Hits(keywords: seq<string>, text: string): (n: nat)
    ensures n <= |keywords|
  {
    if keywords == [] then 0
    else (if Contains(text, keywords[0]) then 1 else 0) + Hits(keywords[1..], text)
  }

  predicate Qualifies(rule: Rule, text: string) {
    Hits(rule.keywords, text) >= MinHits
  }

  /** The index of the first rule that qualifies, counting from `from`, or
      `|rules|` when none does. */
  function FirstQualifying(rules: seq<Rule>, text: string, from: nat): (i: nat)
    requires from <= |rules|
    ensures from <= i <= |rules|
    ensures i < |rules| ==> Qualifies(rules[i], text)
    ensures forall j :: from <= j < i ==> !Qualifies(rules[j], text)
    decreases |rules| - from
  {
    if from == |rules| then from
    else if Qualifies(rules[from], text) then from
    else FirstQualifying(rules, text, from + 1)
  }

  /** `_rule_based_classify(text)`: always a configured category. */
  function RuleBasedClassify(text: string): (category: string)
    ensures category in Config.DocumentCategories
  {
    RuleCategoriesConfigured();
    assert Config.DocumentCategories[8] == Config.OtherCategory;
    var lowered := Lower(text);
    var i := FirstQualifying(Rules, lowered, 0);
    if i < |Rules| then Rules[i].category else Config.OtherCategory
  }

  /** Some keyword list has at least two hits exactly when two different
      entries of it occur in the text. */
  lemma {:induction false} TwoHitsIff(keywords: seq<string>, text: string)
    ensures Hits(keywords, text) >= 2 <==>
            exists i, j :: 0 <= i < j < |keywords| && Contains(text, keywords[i]) && Contains(text, keywords[j])
    decreases |keywords|
  {
    if keywords != [] {
      var tail := keywords[1..];
      TwoHitsIff(tail, text);
      OneHitIff(tail, text);
      if Hits(keywords, text) >= 2 {
        if Contains(text, keywords[0]) {
          var j :| 0 <= j < |tail| && Contains(text, tail[j]);
          assert Contains(text, keywords[j + 1]);
        } else {
          var i, j :| 0 <= i < j < |tail| && Contains(text, tail[i]) && Contains(text, tail[j]);
          assert Contains(text, keywords[i + 1]) && Contains(text, keywords[j + 1]);
        }
      }
      if exists i, j :: 0 <= i < j < |keywords| && Contains(text, keywords[i]) && Contains(text, keywords[j]) {
        var i, j :| 0 <= i < j < |keywords| && Contains(text, keywords[i]) && Contains(text, keywords[j]);
        assert Contains(text, tail[j - 1]);
        if i > 0 {
          assert Contains(text, tail[i - 1]);
        }
      }
    }
  }

  lemma {:induction false} OneHitIff(keywords: seq<string>, text: string)
    ensures Hits(keywords, text) >= 1 <==> exists j :: 0 <= j < |keywords| && Contains(text, keywords[j])
    decreases |keywords|
  {
    if keywords != [] {
      OneHitIff(keywords[1..], text);
      if exists j :: 0 <= j < |keywords| && Contains(text, keywords[j]) {
        var j :| 0 <= j < |keywords| && Contains(text, keywords[j]);
        if j > 0 {
          assert Contains(text, keywords[1..][j - 1]);
        }
      }
      if Hits(keywords[1..], text) >= 1 {
        var j :| 0 <= j < |keywords[1..]| && Contains(text, keywords[1..][j]);
        assert Contains(text, keywords[j + 1]);
      }
    }
  }

  /** First match wins: the rule-based result is the category of the first rule,
      in table order, that reaches two hits on the lower-cased text, even if a
      later rule has more hits; with no such rule it is "Other". */
  lemma RuleBasedFirstMatch(text: string, i: nat)
    requires i < |Rules|
    requires Qualifies(Rules[i], Lower(text))
    requires forall j :: 0 <= j < i ==> !Qualifies(Rules[j], Lower(text))
    ensures RuleBasedClassify(text) == Rules[i].category
  {
    var k := FirstQualifying(Rules, Lower(text), 0);
    assert !(k < i) && !(i < k);
  }

  lemma RuleBasedNoMatch(text: string)
    requires forall j :: 0 <= j < |Rules| ==> !Qualifies(Rules[j], Lower(text))
    ensures RuleBasedClassify(text) == Config.OtherCategory
  {
  }

  /** Every category of the rule table is a configured category. */
  lemma RuleCategoriesConfigured()
    ensures forall j :: 0 <= j < |Rules| ==> Rules[j].category in Config.DocumentCategories
  {
    forall j | 0 <= j < |Rules| ensures Rules[j].category in Config.DocumentCategories {
      if j == 0 { assert Rules[j].category == Config.DocumentCategories[0]; }
      else if j == 1 { assert Rules[j].category == Config.DocumentCategories[2]; }
      else if j == 2 { assert Rules[j].category == Config.DocumentCategories[1]; }
      else if j == 3 { assert Rules[j].category == Config.DocumentCategories[4]; }
      else if j == 4 { assert Rules[j].category == Config.DocumentCategories[5]; }
      else if j == 5 { assert Rules[j].category == Config.DocumentCategories[6]; }
      else if j == 6 { assert Rules[j].category == Config.DocumentCategories[7]; }
      else { assert Rules[j].category == Config.DocumentCategories[3]; }
    }
  }

  /** Rule-based classification ignores letter case: only `text.lower()` matters. */
  lemma RuleBasedCaseInsensitive(text: string)
    ensures RuleBasedClassify(Lower(text)) == RuleBasedClassify(text)
  {
    LowerIdempotent(text);
  }

  // ---------------------------------------------------------------- with a backend

  /** `CATEGORIES`: one `- <category>` line per configured category. */
  function CategoryLines(categories: seq<string>): seq<string> {
    seq(|categories|, i requires 0 <= i < |categories| => "- " + categories[i])
  }

  /** How many lines of `CLASSIFICATION_PROMPT` come before the line of its
      `{text}` placeholder. */
  const PromptLineCount: nat := 11

  /** Line `i` of `CLASSIFICATION_PROMPT`, for the lines above the placeholder. */
  function PromptLine(i: nat): string {
    match i
    case 0 => "Classify this legal document into exactly one category."
    case 2 => "Categories:"
    case 3 => JoinWith("\n", CategoryLines(Config.DocumentCategories))
    case 5 => "Rules:"
    case 6 => "1. Return ONLY the category name, nothing else."
    case 7 => "2. If uncertain, use \"Other\"."
    case 8 => "3. Base classification on document content, structure, and legal terminology."
    case 10 => "Document text (first 3000 characters):"
    case _ => ""
  }

  /** `CLASSIFICATION_PROMPT.format(text=text[:3000])`: the instructions, then
      the first 3000 characters of the text at the very end. */
  function ClassificationPrompt(text: string): (prompt: string)
    ensures var t := Take(text, 3000);
            |t| <= |prompt| && prompt[|prompt| - |t|..] == t
  {
    var lines := seq(PromptLineCount, i requires 0 <= i < PromptLineCount => PromptLine(i));
    var parts := lines + [Take(text, 3000)];
    JoinSplitAt("\n", parts, PromptLineCount);
    assert parts[PromptLineCount..] == [Take(text, 3000)];
    assert parts[..PromptLineCount] == lines;
    JoinWith("\n", parts)
  }

  /** `classify_document(text)`: `configured` is `llm.is_configured()` and
      `complete` stands for `llm.complete`. Blank text is "Other" without a
      backend call; without a backend, or when the call raises, the rule-based
      result; otherwise the stripped reply if it is exactly a configured
      category, and "Other" if not. */
  function ClassifyDocument(text: string, configured: bool, complete: Backend): (category: string)
    ensures category in Config.DocumentCategories
    ensures IsBlank(text) ==> category == Config.OtherCategory
  {
    if IsBlank(text) then
      assert Config.DocumentCategories[8] == Config.OtherCategory;
      Config.OtherCategory
    else if !configured then
      RuleBasedClassify(text)
    else
      match complete(ClassificationPrompt(text))
      case Ok(reply) =>
        var answer := Strip(reply);
        if answer in Config.DocumentCategories then answer
        else
          assert Config.DocumentCategories[8] == Config.OtherCategory;
          Config.OtherCategory
      case Err(_) =>
          RuleBasedClassify(text)
  }

  /** Without a backend, and whenever the backend call raises, the result is
      the rule-based one: a backend failure never reaches the caller. */
  lemma ClassifyFallsBack(text: string, configured: bool, complete: Backend)
    requires !IsBlank(text)
    requires !configured || complete(ClassificationPrompt(text)).Err?
    ensures ClassifyDocument(text, configured, complete) == RuleBasedClassify(text)
  {
  }

  /** A backend reply is taken, stripped, exactly when it names a configured
      category (case-sensitively); any other reply gives "Other". */
  lemma ClassifyValidatesReply(text: string, complete: Backend, reply: string)
    requires !IsBlank(text)
    requires complete(ClassificationPrompt(text)) == Ok(reply)
    ensures ClassifyDocument(text, true, complete) == Strip(reply) <==> Strip(reply) in Config.DocumentCategories
    ensures Strip(reply) !in Config.DocumentCategories ==> ClassifyDocument(text, true, complete) == Config.OtherCategory
  {
  }

  /** The prompt offers every configured category, as a `- <category>` line. */
  lemma PromptListsCategories(text: string, k: nat)
    requires k < |Config.DocumentCategories|
    ensures Contains(ClassificationPrompt(text), "- " + Config.DocumentCategories[k])
  {
    var above := seq(PromptLineCount, i requires 0 <= i < PromptLineCount => PromptLine(i));
    var parts := above + [Take(text, 3000)];
    var lines := CategoryLines(Config.DocumentCategories);
    assert above[3] == PromptLine(3);
    JoinContains("\n", parts, 3);
    assert parts[3] == JoinWith("\n", lines);
    JoinContains("\n", lines, k);
    ContainsTransitive(ClassificationPrompt(text), JoinWith("\n", lines), lines[k]);
  }
}
