/**
 * Agent1: a single-slot content memory and three tools — ContentReader,
 * MailSender and QnATool — chosen by substring tests on the classifier's
 * reply.
 *
 * The language model is a parameter twice over: `decision` is the raw text
 * of its tool choice, and `llm` answers a question about stored content. The
 * SMTP transport is the parameter `smtp`, which reports success or the
 * exception text. Every method returns the external call it made, so "the
 * mail sender is not called" and "the LLM is not invoked" are stated.
 */
module Agent1 {
  import opened Wrappers
  import opened Text

  const StoredReply: string := "✅ Content stored successfully."
  const NoContentReply: string := "⚠️ No content stored yet. Please provide content first."
  const InvalidMailReply: string := "⚠️ Invalid email input format. Example: send email to test@example.com with message Hello"
  const UndecidedPrefix: string := "🤔 I couldn't decide. My reasoning was: "

  /** The global `memory` dict; its only key is `content`. */
  class Memory {
    var content: string

    /** Memory starts out empty. */
    constructor()
      ensures content == ""
    {
      content := "";
    }
  }

  /** `content_reader`: the slot is overwritten with the text, never merged. */
  method ContentReader(memory: Memory, text: string) returns (out: string)
    modifies memory
    ensures memory.content == text
    ensures out == StoredReply
  {
    memory.content := text;
    out := StoredReply;
  }

  /** What the Q&A prompt hands to the language model. */
  datatype QaRequest = QaRequest(content: string, question: string)

  /** `qa_tool`: refuses on empty memory without invoking the model; otherwise
      asks the model about the stored content and returns its answer. */
  method QaTool(memory: Memory, question: string, llm: QaRequest -> string)
    returns (out: string, asked: Option<QaRequest>)
    ensures memory.content == [] ==> out == NoContentReply && asked.None?
    ensures memory.content != [] ==>
      asked == Some(QaRequest(memory.content, question)) && out == llm(asked.value)
  {
    if memory.content == [] {
      out, asked := NoContentReply, None;
      return;
    }
    var request := QaRequest(memory.content, question);
    asked := Some(request);
    out := llm(request);
  }

  /** Storing `a` and then `b` leaves only `b`. */
  method StoreTwiceKeepsLast(a: string, b: string) returns (content: string)
    ensures content == b
  {
    var memory := new Memory();
    var _ := ContentReader(memory, a);
    var _ := ContentReader(memory, b);
    content := memory.content;
  }

  /** A question asked before anything was stored gets the warning and never
      reaches the model. */
  method AskBeforeStore(question: string, llm: QaRequest -> string)
    returns (out: string, asked: Option<QaRequest>)
    ensures out == NoContentReply && asked.None?
  {
    var memory := new Memory();
    out, asked := QaTool(memory, question, llm);
  }

  // ---------------------------------------------------------------------
  // Mail requests
  // ---------------------------------------------------------------------

  datatype MailRequest = MailRequest(email: string, message: string)

  /** What the SMTP transport reports: sent, or the text of the exception. */
  datatype SendOutcome = Sent | SendFailed(error: string)

  /** `user_input.split("with message")`, then `parts[0].split("to")[1]` as the
      address and `parts[1]` as the message, both stripped; a missing piece is
      the IndexError that the caller turns into the format warning. */
  function ParseMail(input: string): (r: Option<MailRequest>)
    ensures r.Some? <==> Contains(input, "with message") && Contains(UpTo(input, "with message"), "to")
    ensures r.Some? ==>
      var head := UpTo(input, "with message");
      var tail := input[IndexOf(input, "with message").value + 12..];
      && r.value.email == Strip(UpTo(head[IndexOf(head, "to").value + 2..], "to"))
      && r.value.message == Strip(UpTo(tail, "with message"))
  {
    var parts := Split(input, "with message");
    var head := Split(parts[0], "to");
    if |head| < 2 || |parts| < 2 then None
    else
      SplitSecond(parts[0], "to");
      SplitSecond(input, "with message");
      Some(MailRequest(Strip(head[1]), Strip(parts[1])))
  }

  /** Only the text between the first and second "to" becomes the address, so
      an address that itself contains "to" (such as "tom@example.com") can
      never be the recipient; likewise the message never contains "with message". */
  lemma ParsedMailPiecesFree(input: string)
    requires ParseMail(input).Some?
    ensures !Contains(ParseMail(input).value.email, "to")
    ensures !Contains(ParseMail(input).value.message, "with message")
  {
    var parts := Split(input, "with message");
    var head := Split(parts[0], "to");
    SplitPiecesFree(parts[0], "to", 1);
    StripKeepsAbsent(head[1], "to");
    SplitPiecesFree(input, "with message", 1);
    StripKeepsAbsent(parts[1], "with message");
  }

  /** "tom@x" holds a "to", so the address taken is the blank between the two
      occurrences and strips to the empty string. */
  lemma AddressWithToIsCut()
    ensures ParseMail("to tom@x with message hi") == Some(MailRequest("", "hi"))
  {
    CutAtWithMessage();
    CutAtTo();
    CutPiecesStrip();
    CutSlices();
  }

  lemma CutSlices()
    ensures "to tom@x with message hi"[..9] == "to tom@x "
    ensures "to tom@x with message hi"[9 + 12..] == " hi"
    ensures "to tom@x "[2..] == " tom@x " && " tom@x "[..1] == " "
  {
  }

  lemma CutAtWithMessage()
    ensures IndexOf("to tom@x with message hi", "with message") == Some(9)
  {
    var input := "to tom@x with message hi";
    assert OccursAt(input, "with message", 9);
    forall j | 0 <= j < 9
      ensures !OccursAt(input, "with message", j)
    {
      MismatchAt(input, "with message", j);
    }
  }

  lemma CutAtTo()
    ensures IndexOf("to tom@x ", "to") == Some(0)
    ensures IndexOf(" tom@x ", "to") == Some(1)
  {
    assert OccursAt("to tom@x ", "to", 0);
    assert OccursAt(" tom@x ", "to", 1);
    MismatchAt(" tom@x ", "to", 0);
  }

  lemma CutPiecesStrip()
    ensures Strip(" ") == [] && UpTo(" hi", "with message") == " hi" && Strip(" hi") == "hi"
  {
    assert !Contains(" hi", "with message");
    assert Run(" hi", 0, Space) == 1;
    assert RunBack(" hi", 3, Space) == 0;
    assert " hi"[1..3] == "hi";
  }

  /** `mail_sender`'s reply for what the transport reported. */
  function MailReply(email: string, outcome: SendOutcome): (out: string)
    ensures out != [] && (out[0] == '📧' <==> outcome.Sent?)
    ensures outcome.Sent? ==> StartsWith(out, SentPrefix) && out[|SentPrefix|..] == email
    ensures outcome.SendFailed? ==>
      StartsWith(out, SendFailedPrefix) && out[|SendFailedPrefix|..] == outcome.error
  {
    match outcome
    case Sent => Glued(SentPrefix, email); SentPrefix + email
    case SendFailed(e) => Glued(SendFailedPrefix, e); SendFailedPrefix + e
  }

  const SentPrefix: string := "📧 Email successfully sent to "
  const SendFailedPrefix: string := "❌ Failed to send email: "

  // ---------------------------------------------------------------------
  // Tool dispatch
  // ---------------------------------------------------------------------

  /** The tool `agent_node` runs; `Undecided` keeps the normalised reply. */
  datatype Tool = ContentReaderTool | MailSenderTool | QnATool | Undecided(reasoning: string)

  /** The if/elif chain on `decision.strip().lower()`: the first of
      "contentreader", "mailsender", "qnatool" that occurs wins. */
  function Dispatch(decision: string): (t: Tool)
    ensures var d := Lower(Strip(decision));
      && (t == ContentReaderTool <==> Contains(d, "contentreader"))
      && (t == MailSenderTool <==> !Contains(d, "contentreader") && Contains(d, "mailsender"))
      && (t == QnATool <==>
            !Contains(d, "contentreader") && !Contains(d, "mailsender") && Contains(d, "qnatool"))
      && (t.Undecided? ==> t.reasoning == d)
  {
    var d := Lower(Strip(decision));
    if Contains(d, "contentreader") then ContentReaderTool
    else if Contains(d, "mailsender") then MailSenderTool
    else if Contains(d, "qnatool") then QnATool
    else Undecided(d)
  }

  /** The tool choice does not depend on the case of the classifier's reply. */
  lemma DispatchIgnoresCase(decision: string)
    ensures Dispatch(Lower(decision)) == Dispatch(decision)
  {
    StripLower(decision);
    LowerIdempotent(Strip(decision));
  }

  /** What `agent_node` called outside itself. */
  datatype ExternalCall = NoCall | SendMail(mail: MailRequest) | Ask(question: QaRequest)

  /** `agent_node`: run the tool the classifier's reply names. Only
      ContentReader changes memory. */
  method AgentNode(memory: Memory, userInput: string, decision: string,
                   smtp: MailRequest -> SendOutcome, llm: QaRequest -> string)
    returns (out: string, call: ExternalCall)
    modifies memory
    ensures Dispatch(decision) == ContentReaderTool ==>
      memory.content == userInput && out == StoredReply && call == NoCall
    ensures Dispatch(decision) != ContentReaderTool ==> memory.content == old(memory.content)
    ensures Dispatch(decision) == MailSenderTool ==>
      match ParseMail(userInput)
      case None => out == InvalidMailReply && call == NoCall
      case Some(m) => call == SendMail(m) && out == MailReply(m.email, smtp(m))
    ensures Dispatch(decision) == QnATool ==>
      if old(memory.content) == [] then out == NoContentReply && call == NoCall
      else
        var request := QaRequest(old(memory.content), userInput);
        call == Ask(request) && out == llm(request)
    ensures Dispatch(decision).Undecided? ==>
      out == UndecidedPrefix + Dispatch(decision).reasoning && call == NoCall
  {
    var decisionText := Lower(Strip(decision));
    call := NoCall;
    if Contains(decisionText, "contentreader") {
      out := ContentReader(memory, userInput);
    } else if Contains(decisionText, "mailsender") {
      var mail := ParseMail(userInput);
      if mail.None? {
        out := InvalidMailReply;
      } else {
        call := SendMail(mail.value);
        out := MailReply(mail.value.email, smtp(mail.value));
      }
    } else if Contains(decisionText, "qnatool") {
      var asked;
      out, asked := QaTool(memory, userInput, llm);
      if asked.Some? {
        call := Ask(asked.value);
      }
    } else {
      out := UndecidedPrefix + decisionText;
    }
  }
}
