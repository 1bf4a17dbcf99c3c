/**
 * The prompt composer inside the chat handler of app.py: the fixed system
 * turn, the law-context block built from retrieved passages, and the two
 * shapes of user turn (a plain question, or a question about an uploaded
 * document).
 */
module Prompt {
  import opened Text

  /** One role-tagged entry of the message list sent to the completion service. */
  datatype Turn = Turn(role: string, content: string)

  /**
   * The persona and formatting instruction of the system turn. Only its first
   * two sentences are kept, without the literal's leading newline and
   * indentation; no property of the handler depends on the rest.
   */
  const SystemInstruction: string :=
    "You are an AI Legal Assistant. Your purpose is to explain complex legal concepts and analyze legal documents in clear, plain English."

  const SystemTurn: Turn := Turn("system", SystemInstruction)

  /** Passages are joined with one blank line between them. */
  const PassageSeparator: string := "\n\n"

  /** Used in place of the law context when retrieval gave nothing. */
  const NoLawFound: string := "\U{26A0}\U{FE0F} No relevant law found in database."

  /** The leading whitespace of each line of the triple-quoted question template. */
  const Indent: string := "            "

  const LawHeading: string := "Relevant Indian Law:"

  /**
   * `law_context`: empty unless retrieval returned passages, in which case
   * their join; an empty context is then replaced by the placeholder.
   */
  function LawContext(passages: seq<string>): string
  {
    var joined := if passages == [] then "" else Join(passages, PassageSeparator);
    if joined != "" then joined else NoLawFound
  }

  /**
   * The placeholder is used exactly when there are no passages or a single
   * empty one; otherwise the context is the passages joined in order.
   */
  lemma LawContextCases(passages: seq<string>)
    ensures LawContext(passages) ==
      if |passages| == 0 || (|passages| == 1 && passages[0] == "") then NoLawFound
      else Join(passages, PassageSeparator)
  {
    JoinEmptyIff(passages, PassageSeparator);
  }

  /** Every retrieved passage appears unchanged, in rank order, in a non-placeholder context. */
  lemma LawContextKeepsPassages(passages: seq<string>, i: nat)
    requires i < |passages|
    requires |passages| > 1 || passages[0] != ""
    ensures Offset(passages, PassageSeparator, i) + |passages[i]| <= |LawContext(passages)|
    ensures LawContext(passages)[Offset(passages, PassageSeparator, i)..Offset(passages, PassageSeparator, i) + |passages[i]|]
      == passages[i]
  {
    LawContextCases(passages);
    JoinPart(passages, PassageSeparator, i);
  }

  /** What comes before the question in the question template. */
  const QuestionLead: string := "\n" + Indent + "Question: "

  /** The user turn of a request without a file: the `enhanced_prompt` template. */
  function QuestionPrompt(question: string, context: string): string
  {
    QuestionLead + question + "\n\n" +
    Indent + LawHeading + "\n" +
    Indent + context + "\n" + Indent
  }

  /**
   * The question template holds the question right after its lead line and
   * ends with the labelled context block.
   */
  lemma QuestionPromptLayout(question: string, context: string)
    ensures StartsWith(QuestionPrompt(question, context), QuestionLead + question + "\n\n")
    ensures EndsWith(QuestionPrompt(question, context), LawHeading + "\n" + Indent + context + "\n" + Indent)
    ensures |QuestionPrompt(question, context)| == |question| + |context| + 83
  {
    var p := QuestionPrompt(question, context);
    var head := QuestionLead + question + "\n\n";
    var tail := LawHeading + "\n" + Indent + context + "\n" + Indent;
    assert p == head + Indent + tail;
    assert (head + Indent + tail)[..|head|] == head;
    assert (head + Indent + tail)[|head| + |Indent|..] == tail;
  }

  /** The user turn of a request with a `.txt` upload: the `full_prompt` expression. */
  function DocumentPrompt(question: string, filename: string, content: string, context: string): string
  {
    question + "\n\n" +
    "Analyze the document '" + filename + "':\n" +
    "--- Content ---\n" + content + "\n\n" +
    LawHeading + "\n" + context
  }

  /** Where the document content starts inside the document template. */
  function ContentStart(question: string, filename: string): nat
  {
    |question| + |filename| + 43
  }

  /**
   * The document template starts with the question (possibly empty) and a
   * blank line, names the file, holds the whole content at `ContentStart`,
   * and ends with the labelled context block.
   */
  lemma DocumentPromptLayout(question: string, filename: string, content: string, context: string)
    ensures StartsWith(DocumentPrompt(question, filename, content, context), question + "\n\n" + "Analyze the document '" + filename + "':\n")
    ensures ContentStart(question, filename) + |content| <= |DocumentPrompt(question, filename, content, context)|
    ensures DocumentPrompt(question, filename, content, context)[ContentStart(question, filename)..ContentStart(question, filename) + |content|] == content
    ensures EndsWith(DocumentPrompt(question, filename, content, context), "\n\n" + LawHeading + "\n" + context)
  {
    var p := DocumentPrompt(question, filename, content, context);
    var head := question + "\n\n" + "Analyze the document '" + filename + "':\n";
    var mid := head + "--- Content ---\n";
    var tail := "\n\n" + LawHeading + "\n" + context;
    assert |mid| == ContentStart(question, filename);
    assert p == mid + content + tail;
    assert (mid + content + tail)[..|head|] == head;
    assert (mid + content + tail)[|mid|..|mid| + |content|] == content;
    assert (mid + content + tail)[|mid| + |content|..] == tail;
  }
}
