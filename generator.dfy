// Draft generation (app/services/generator.py): a summary, checklist or cover
// letter for a case, written by the language model from a prompt that embeds
// the case's documents, or assembled deterministically when no model answers.
module Generator {
  import opened Strings
  import opened Results

  // ---------------------------------------------------------------- templates

  /** A piece of a `str.format` template: literal text or a named placeholder. */
  datatype Piece = Literal(text: string) | CaseNameSlot | DocumentsSlot

  type Template = seq<Piece>

  /** `template.format(case_name=caseName, documents=documents)`: each
      placeholder is replaced by its value, literal text is kept. */
  function Format(t: Template, caseName: string, documents: string): string
    decreases |t|
  {
    if t == [] then ""
    else
      var head := match t[0]
        case Literal(s) => s
        case CaseNameSlot => caseName
        case DocumentsSlot => documents;
      head + Format(t[1..], caseName, documents)
  }

  const SummaryIntro: string :=
    "You are a legal assistant. Summarize the following legal documents concisely.\n"
    + "Focus on: key parties, dates, claims, findings, and important details.\n"
    + "Use clear headings and bullet points.\n\n"

  const ChecklistIntro: string :=
    "You are a legal assistant. Based on the following case documents, generate a checklist of:\n"
    + "1. Documents received (with categories)\n"
    + "2. Documents still potentially needed\n"
    + "3. Key deadlines or dates mentioned\n"
    + "4. Action items\n\n"
    + "Format as a clean markdown checklist.\n\n"

  const CoverLetterIntro: string :=
    "You are a legal assistant. Draft a professional cover letter for transmitting "
    + "the following documents.\n"
    + "Include: sender placeholder, recipient placeholder, date, list of enclosed "
    + "documents, and professional closing.\n\n"

  /** `PROMPTS`: the draft kinds and their templates. The summary template has no
      case-name placeholder. */
  const Prompts: map<string, Template> := map[
    "summary" := [Literal(SummaryIntro + "Documents:\n"), DocumentsSlot],
    "checklist" := [Literal(ChecklistIntro + "Case: "), CaseNameSlot, Literal("\n" + "Documents:\n"), DocumentsSlot],
    "cover_letter" := [Literal(CoverLetterIntro + "Case: "), CaseNameSlot, Literal("\n" + "Documents being transmitted:\n"), DocumentsSlot]
  ]

  /** The draft kinds in the order `list(PROMPTS.keys())` shows them. */
  const KindOrder: seq<string> := ["summary", "checklist", "cover_letter"]

  /** The `ValueError` message for an unknown draft kind. */
  function UnknownKindMessage(kind: string): string {
    "Unknown draft type: " + kind + ". Options: " + ListRepr(KindOrder)
  }

  // ---------------------------------------------------------------- documents

  /** One `{"filename", "category", "text"}` entry handed to the generator. */
  datatype DocInput = DocInput(filename: string, category: string, text: string)

  /** `(title, content)` */
  datatype Draft = Draft(title: string, content: string)

  /** How much of each document's text goes into the prompt. */
  const BlockTextLimit: nat := 2000

  const BlockSeparator: string := "\n\n---\n\n"

  /** `f"**{filename}** ({category})\n{text[:2000]}"` */
  function Block(d: DocInput): string {
    "**" + d.filename + "** (" + d.category + ")\n" + Take(d.text, BlockTextLimit)
  }

  function Blocks(docs: seq<DocInput>): seq<string> {
    seq(|docs|, i requires 0 <= i < |docs| => Block(docs[i]))
  }

  /** The `doc_blocks` loop: one block per document, in input order. */
  method BuildBlocks(docs: seq<DocInput>) returns (blocks: seq<string>)
    ensures blocks == Blocks(docs)
  {
    blocks := [];
    for i := 0 to |docs|
      invariant |blocks| == i
      invariant forall k :: 0 <= k < i ==> blocks[k] == Block(docs[k])
    {
      blocks := blocks + [Block(docs[i])];
    }
  }

  /** The prompt sent for a known draft kind: every template ends with the
      documents placeholder, so the prompt ends with the documents text. */
  function Prompt(kind: string, caseName: string, docs: seq<DocInput>): (prompt: string)
    requires kind in Prompts
    ensures var documents := JoinWith(BlockSeparator, Blocks(docs));
            |documents| <= |prompt| && prompt[|prompt| - |documents|..] == documents
  {
    var t := Prompts[kind];
    var documents := JoinWith(BlockSeparator, Blocks(docs));
    assert |t| >= 1 && t[|t| - 1] == DocumentsSlot;
    FormatEndsWithDocuments(t, caseName, documents);
    Format(t, caseName, documents)
  }

  /** A template whose last piece is the documents placeholder formats to the
      rest of the template followed by the documents text. */
  lemma {:induction false} FormatEndsWithDocuments(t: Template, caseName: string, documents: string)
    requires |t| >= 1 && t[|t| - 1] == DocumentsSlot
    ensures Format(t, caseName, documents) == Format(t[..|t| - 1], caseName, documents) + documents
    decreases |t|
  {
    if |t| > 1 {
      FormatEndsWithDocuments(t[1..], caseName, documents);
      assert t[1..][..|t| - 2] == t[..|t| - 1][1..];
    }
  }

  // ---------------------------------------------------------------- title and fallback

  /** `draft_type.replace('_', ' ').title()` */
  function KindLabel(kind: string): string {
    Title(ReplaceChar(kind, '_', ' '))
  }

  /** `f"{label} — {case_name}"`: the kind's label first, the case name last. */
  function DraftTitle(kind: string, caseName: string): (title: string)
    ensures |KindLabel(kind)| + |caseName| < |title|
    ensures title[..|KindLabel(kind)|] == KindLabel(kind) && title[|title| - |caseName|..] == caseName
  {
    KindLabel(kind) + " — " + caseName
  }

  /** `f"- {filename} ({category})"` */
  function DocLine(d: DocInput): string {
    "- " + d.filename + " (" + d.category + ")"
  }

  // The note is one line of text. It is written as two literals because the
  // solver shows that neither half holds a newline far more cheaply than it
  // shows it for one long literal.
  const ConfigureNote: string := "*Configure an LLM API key" + " in .env for AI-generated content.*"

  function FallbackHead(kind: string): seq<string> {
    ["# " + KindLabel(kind), "", "**Documents:**", ""]
  }

  function DocLines(docs: seq<DocInput>): seq<string> {
    seq(|docs|, i requires 0 <= i < |docs| => DocLine(docs[i]))
  }

  /** The lines of the fallback content. */
  function FallbackLines(kind: string, docs: seq<DocInput>): seq<string> {
    FallbackHead(kind) + DocLines(docs) + ["", ConfigureNote]
  }

  /** `_fallback_content(draft_type, documents)`: the `lines` list built up by
      appending, joined with newlines. */
  method FallbackContent(kind: string, docs: seq<DocInput>) returns (content: string)
    ensures content == JoinWith("\n", FallbackLines(kind, docs))
  {
    var lines := ["# " + KindLabel(kind), "", "**Documents:**", ""];
    for i := 0 to |docs|
      invariant |lines| == 4 + i
      invariant lines[..4] == FallbackHead(kind)
      invariant forall k :: 0 <= k < i ==> lines[4 + k] == DocLine(docs[k])
    {
      lines := lines + [DocLine(docs[i])];
    }
    lines := lines + [""];
    lines := lines + [ConfigureNote];
    assert lines == FallbackLines(kind, docs);
    content := JoinWith("\n", lines);
  }

  // ---------------------------------------------------------------- generate_draft

  /** The content of a draft of a known kind: the backend's reply, verbatim, when
      a backend is configured and answers; the fallback content otherwise. */
  function DraftContent(kind: string, caseName: string, docs: seq<DocInput>, configured: bool, complete: Backend): (content: string)
    requires kind in Prompts
    ensures content == JoinWith("\n", FallbackLines(kind, docs)) || (configured && complete(Prompt(kind, caseName, docs)) == Ok(content))
  {
    if !configured then JoinWith("\n", FallbackLines(kind, docs))
    else match complete(Prompt(kind, caseName, docs))
      case Ok(reply) => reply
      case Err(_) => JoinWith("\n", FallbackLines(kind, docs))
  }

  /** `generate_draft(draft_type, case_name, documents)`: an unknown kind raises
      before the backend is involved; a known kind always yields a draft, whose
      title does not depend on the backend. */
  method GenerateDraft(kind: string, caseName: string, docs: seq<DocInput>, configured: bool, complete: Backend)
    returns (r: Result<Draft, string>)
    ensures kind !in Prompts ==> r == Err(UnknownKindMessage(kind))
    ensures kind in Prompts ==> r == Ok(Draft(DraftTitle(kind, caseName), DraftContent(kind, caseName, docs, configured, complete)))
  {
    if kind !in Prompts {
      return Err(UnknownKindMessage(kind));
    }
    var blocks := BuildBlocks(docs);
    var documentsText := JoinWith(BlockSeparator, blocks);
    var prompt := Format(Prompts[kind], caseName, documentsText);
    var title := KindLabel(kind) + " — " + caseName;
    if !configured {
      var fallback := FallbackContent(kind, docs);
      return Ok(Draft(title, fallback));
    }
    match complete(prompt)
    case Ok(reply) =>
      r := Ok(Draft(title, reply));
    case Err(_) =>
      var fallback := FallbackContent(kind, docs);
      r := Ok(Draft(title, fallback));
  }

  // ---------------------------------------------------------------- properties

  /** A block is the document's `**name** (category)` header line followed by
      the first 2000 characters of its text, or all of it when shorter. */
  lemma BlockShape(d: DocInput)
    ensures var head := "**" + d.filename + "** (" + d.category + ")\n";
            var body := Block(d)[|head|..];
            && Block(d)[..|head|] == head
            && |body| <= BlockTextLimit && body == d.text[..|body|]
            && (|d.text| <= BlockTextLimit ==> body == d.text)
  {
  }

  /** The documents text is the blocks' lengths plus one separator between
      each pair of neighbours: `n` blocks, `n - 1` separators. */
  lemma DocumentsTextLength(docs: seq<DocInput>)
    requires |docs| >= 1
    ensures |JoinWith(BlockSeparator, Blocks(docs))| == SumLengths(Blocks(docs)) + (|docs| - 1) * |BlockSeparator|
  {
    JoinLength(BlockSeparator, Blocks(docs));
  }

  /** The documents text holds the blocks in input order with exactly one
      separator between neighbours: cutting the documents at `i` cuts the text
      at one separator. */
  lemma DocumentsTextLayout(docs: seq<DocInput>, i: nat)
    requires 0 < i < |docs|
    ensures JoinWith(BlockSeparator, Blocks(docs))
            == JoinWith(BlockSeparator, Blocks(docs[..i])) + BlockSeparator + JoinWith(BlockSeparator, Blocks(docs[i..]))
  {
    var blocks := Blocks(docs);
    JoinSplitAt(BlockSeparator, blocks, i);
    assert blocks[..i] == Blocks(docs[..i]);
    assert blocks[i..] == Blocks(docs[i..]);
  }

  /** The kinds are exactly the three of `PROMPTS`, listed in order. */
  lemma KindsListed()
    ensures forall k :: k in Prompts <==> k in KindOrder
  {
  }

  /** The error message names every valid kind. */
  lemma UnknownKindMessageListsKinds(kind: string, k: nat)
    requires k < |KindOrder|
    ensures Contains(UnknownKindMessage(kind), QuotedRepr(KindOrder[k]))
  {
    ListReprMentions(KindOrder, k);
    var prefix := "Unknown draft type: " + kind + ". Options: ";
    ContainsWithin(prefix, ListRepr(KindOrder), "", QuotedRepr(KindOrder[k]));
    assert prefix + ListRepr(KindOrder) + "" == UnknownKindMessage(kind);
  }

  /** The labels the three kinds get in titles and fallback headers. */
  lemma SummaryLabel()
    ensures KindLabel("summary") == "Summary"
  {
    var w := "summary";
    ReplaceAbsent(w, '_', ' ');
    TitleOfWord(w);
    assert [UpperChar(w[0])] + w[1..] == "Summary";
  }

  lemma ChecklistLabel()
    ensures KindLabel("checklist") == "Checklist"
  {
    var w := "checklist";
    ReplaceAbsent(w, '_', ' ');
    TitleOfWord(w);
    assert [UpperChar(w[0])] + w[1..] == "Checklist";
  }

  lemma CoverLetterLabel()
    ensures KindLabel("cover_letter") == "Cover Letter"
  {
    var w1, w2 := "cover", "letter";
    assert ReplaceChar("cover_letter", '_', ' ') == w1 + [' '] + w2;
    TitleOfTwoWords(w1, w2);
    assert [UpperChar(w1[0])] + w1[1..] + [' '] + [UpperChar(w2[0])] + w2[1..] == "Cover Letter";
  }

  /** Replacing a character that does not occur changes nothing. */
  lemma ReplaceAbsent(s: string, a: char, b: char)
    requires a !in s
    ensures ReplaceChar(s, a, b) == s
  {
  }

  /** `title()` of one lower-case word capitalises its first letter. */
  lemma TitleOfWord(w: string)
    requires |w| >= 1 && forall i :: 0 <= i < |w| ==> IsLowerLetter(w[i])
    ensures Title(w) == [UpperChar(w[0])] + w[1..]
  {
    TitleOfLowerWord(w[1..]);
  }

  /** `title()` of two lower-case words around a space capitalises both. */
  lemma TitleOfTwoWords(w1: string, w2: string)
    requires |w1| >= 1 && forall i :: 0 <= i < |w1| ==> IsLowerLetter(w1[i])
    requires |w2| >= 1 && forall i :: 0 <= i < |w2| ==> IsLowerLetter(w2[i])
    ensures Title(w1 + [' '] + w2) == [UpperChar(w1[0])] + w1[1..] + [' '] + [UpperChar(w2[0])] + w2[1..]
  {
    var s := w1 + [' '] + w2;
    var t := [' '] + w2;
    assert s[1..] == w1[1..] + t;
    assert Title(s) == [UpperChar(w1[0])] + TitleFrom(w1[1..] + t, true);
    if |w1| > 1 {
      TitleAfterWord(w1[1..], ' ', w2);
      assert w1[1..] + [' '] + w2 == w1[1..] + t;
    } else {
      assert w1[1..] + t == t;
    }
    assert TitleFrom(w1[1..] + t, true) == w1[1..] + TitleFrom(t, true);
    assert t[1..] == w2;
    assert TitleFrom(t, true) == [' '] + Title(w2);
    TitleOfWord(w2);
  }

  /** Inside a word of lower-case letters, `title()` changes nothing. */
  lemma {:induction false} TitleOfLowerWord(w: string)
    requires forall i :: 0 <= i < |w| ==> IsLowerLetter(w[i])
    ensures TitleFrom(w, true) == w
    decreases |w|
  {
    if w != [] {
      TitleOfLowerWord(w[1..]);
    }
  }

  /** `title()` carries on after a word of letters followed by `c`. */
  lemma {:induction false} TitleAfterWord(w: string, c: char, rest: string)
    requires |w| >= 1 && forall i :: 0 <= i < |w| ==> IsLowerLetter(w[i])
    ensures TitleFrom(w + [c] + rest, true) == w + TitleFrom([c] + rest, true)
    decreases |w|
  {
    var s := w + [c] + rest;
    assert s[1..] == w[1..] + [c] + rest;
    if |w| > 1 {
      TitleAfterWord(w[1..], c, rest);
    } else {
      assert s[1..] == [c] + rest;
    }
  }

  /** The title is the kind's label and the case name around an em dash. */
  lemma TitlesOfKinds(caseName: string)
    ensures DraftTitle("summary", caseName) == "Summary — " + caseName
    ensures DraftTitle("checklist", caseName) == "Checklist — " + caseName
    ensures DraftTitle("cover_letter", caseName) == "Cover Letter — " + caseName
  {
    SummaryLabel();
    ChecklistLabel();
    CoverLetterLabel();
  }

  /** Which content a draft of a known kind gets. */
  lemma ContentChoice(kind: string, caseName: string, docs: seq<DocInput>, configured: bool, complete: Backend)
    requires kind in Prompts
    ensures !configured ==> DraftContent(kind, caseName, docs, configured, complete) == JoinWith("\n", FallbackLines(kind, docs))
    ensures configured && complete(Prompt(kind, caseName, docs)).Err? ==>
              DraftContent(kind, caseName, docs, configured, complete) == JoinWith("\n", FallbackLines(kind, docs))
    ensures configured && complete(Prompt(kind, caseName, docs)).Ok? ==>
              DraftContent(kind, caseName, docs, configured, complete) == complete(Prompt(kind, caseName, docs)).value
  {
  }

  /** A template without the case-name placeholder ignores the case name. */
  lemma {:induction false} FormatWithoutCaseName(t: Template, c1: string, c2: string, documents: string)
    requires CaseNameSlot !in t
    ensures Format(t, c1, documents) == Format(t, c2, documents)
    decreases |t|
  {
    if t != [] {
      assert CaseNameSlot !in t[1..];
      FormatWithoutCaseName(t[1..], c1, c2, documents);
    }
  }

  /** The summary prompt does not mention the case at all: it is the same for
      every case name. */
  lemma SummaryPromptOmitsCase(c1: string, c2: string, docs: seq<DocInput>)
    ensures Prompt("summary", c1, docs) == Prompt("summary", c2, docs)
  {
    FormatWithoutCaseName(Prompts["summary"], c1, c2, JoinWith(BlockSeparator, Blocks(docs)));
  }

  /** The checklist and cover-letter prompts carry a `Case: <case_name>` line. */
  lemma CasePromptsNameCase(kind: string, caseName: string, docs: seq<DocInput>)
    requires kind == "checklist" || kind == "cover_letter"
    ensures Contains(Prompt(kind, caseName, docs), "Case: " + caseName + "\n")
  {
    var documents := JoinWith(BlockSeparator, Blocks(docs));
    if kind == "checklist" {
      CaseTemplateNamesCase(ChecklistIntro, "Documents:\n", caseName, documents);
    } else {
      CaseTemplateNamesCase(CoverLetterIntro, "Documents being transmitted:\n", caseName, documents);
    }
  }

  lemma CaseTemplateNamesCase(intro: string, heading: string, caseName: string, documents: string)
    ensures Contains(Format([Literal(intro + "Case: "), CaseNameSlot, Literal("\n" + heading), DocumentsSlot], caseName, documents),
                     "Case: " + caseName + "\n")
  {
    var t := [Literal(intro + "Case: "), CaseNameSlot, Literal("\n" + heading), DocumentsSlot];
    var d := documents;
    assert Format([DocumentsSlot], caseName, d) == d;
    assert Format(t[2..], caseName, d) == ("\n" + heading) + d by {
      assert t[2..][1..] == [DocumentsSlot];
    }
    assert Format(t[1..], caseName, d) == caseName + (("\n" + heading) + d) by {
      assert t[1..][1..] == t[2..];
    }
    assert Format(t, caseName, documents) == intro + ("Case: " + caseName + "\n") + (heading + documents);
    ContainsInfix(intro, "Case: " + caseName + "\n", heading + documents);
  }

  /** Fallback content has one line per document plus six: the `# <Kind>`
      header, a blank, `**Documents:**`, a blank, the documents in input order, a
      blank and the configuration note (lines as `str.split("\n")` finds them,
      for file names and categories without newlines). */
  lemma FallbackShape(kind: string, docs: seq<DocInput>)
    requires forall i :: 0 <= i < |docs| ==> '\n' !in docs[i].filename && '\n' !in docs[i].category
    requires '\n' !in kind
    ensures var lines := Split(JoinWith("\n", FallbackLines(kind, docs)), '\n');
            && |lines| == |docs| + 6
            && lines[0] == "# " + KindLabel(kind)
            && lines[2] == "**Documents:**"
            && (forall i :: 0 <= i < |docs| ==> lines[4 + i] == "- " + docs[i].filename + " (" + docs[i].category + ")")
            && lines[|docs| + 5] == ConfigureNote
  {
    var lines := FallbackLines(kind, docs);
    var kindLabel := KindLabel(kind);
    assert '\n' !in kindLabel by {
      var r := ReplaceChar(kind, '_', ' ');
      forall i | 0 <= i < |kindLabel| ensures kindLabel[i] != '\n' {
        assert r[i] != '\n';
        TitleFromAt(r, false, i);
      }
    }
    forall k | 0 <= k < |lines| ensures '\n' !in lines[k] {
      if k == 0 {
        assert lines[k] == "# " + kindLabel;
      } else if k < 4 {
        assert lines[k] == FallbackHead(kind)[k];
        assert '\n' !in "**Documents:**";
      } else if k < 4 + |docs| {
        assert lines[k] == DocLine(docs[k - 4]);
      } else {
        assert lines[k] == ["", ConfigureNote][k - 4 - |docs|];
        assert '\n' !in ConfigureNote;
      }
    }
    SplitJoin('\n', lines);
  }

  /** Each character of `title()` is its input character up to case. */
  lemma {:induction false} TitleFromAt(s: string, prevCased: bool, i: nat)
    requires i < |s|
    ensures TitleFrom(s, prevCased)[i] == LowerChar(s[i]) || TitleFrom(s, prevCased)[i] == UpperChar(s[i])
    decreases i
  {
    if i > 0 {
      TitleFromAt(s[1..], IsLetter(s[0]), i - 1);
    }
  }
}
