/** The chat panel's state: the transcript, the text box, and the summary
    panel.  A send is one atomic step (the user's message, then the reply
    that the panel shows after its artificial delay). */
module ChatSession {
  import opened Types
  import opened Text
  import opened ChatEngine
  import opened ChatWording

  datatype Role = User | Assistant

  /** One entry of the transcript. */
  datatype ChatMessage = ChatMessage(role: Role, content: string)

  /** The summary comes up on a send that starts with at least this many
      entries in the transcript. */
  const SummaryThreshold: nat := 6

  /** Name under which the report is offered for download. */
  const DownloadName: string := "value-proposition-summary.txt"

  class Session {
    /** The submitted record; a session never changes it. */
    const formData: FormData
    /** What the panel's handlers compute from the record and the wording:
        the opening message, the report, and the reply to a message.  Neither
        changes, so they are fixed when the panel opens. */
    const greeting: string
    const report: string
    const respond: string -> string
    var messages: seq<ChatMessage>
    var input: string
    var showSummary: bool
    var summary: string

    /** The transcript opens with the greeting and then holds exchanges: a
        non-blank user message followed by the reply to it.  The report is
        either hidden and empty or shown and equal to the report of the
        record, and it is always shown once the transcript has grown past
        three exchanges. */
    ghost predicate Valid()
      reads this
    {
      && WellFormed(messages, respond)
      && messages[0] == ChatMessage(Assistant, greeting)
      && (showSummary ==> summary == report)
      && (!showSummary ==> summary == "" && |messages| <= SummaryThreshold + 1)
    }

    constructor (fd: FormData, w: Wording)
      ensures formData == fd && greeting == Greeting(w.greeting, fd) && report == SummaryText(w.report, fd)
      ensures respond == Responder(w.replies, fd)
      ensures messages == [ChatMessage(Assistant, greeting)]
      ensures input == "" && !showSummary && summary == ""
      ensures Valid()
    {
      formData := fd;
      greeting := Greeting(w.greeting, fd);
      report := SummaryText(w.report, fd);
      respond := Responder(w.replies, fd);
      messages := [ChatMessage(Assistant, greeting)];
      input := "";
      showSummary := false;
      summary := "";
    }

    /** The text box's change handler. */
    method SetInput(text: string)
      requires Valid()
      modifies this`input
      ensures input == text
      ensures Valid()
    {
      input := text;
    }

    /** Shows the report of the record; doing it again changes nothing. */
    method GenerateSummary()
      modifies this`showSummary, this`summary
      ensures showSummary && summary == report
    {
      showSummary := true;
      summary := report;
    }

    /** The reply to one message; asking for the report also brings it up. */
    method Respond(userInput: string) returns (reply: string)
      modifies this`showSummary, this`summary
      ensures reply == respond(userInput)
      ensures Classify(userInput) == SummaryRequest ==> showSummary && summary == report
      ensures Classify(userInput) != SummaryRequest ==>
        showSummary == old(showSummary) && summary == old(summary)
    {
      if Classify(userInput) == SummaryRequest {
        GenerateSummary();
      }
      reply := respond(userInput);
    }

    /** The send handler.  A blank text box changes nothing.  Otherwise the
        user's message and then the reply are appended, the text box is
        cleared, and the report comes up when it was asked for or when the
        transcript already held at least `SummaryThreshold` entries before this send
        and the report was not yet shown (both read as they were when the
        send began). */
    method SendMessage()
      requires Valid()
      modifies this
      ensures Valid()
      ensures IsBlank(old(input)) ==>
        messages == old(messages) && input == old(input)
        && showSummary == old(showSummary) && summary == old(summary)
      ensures !IsBlank(old(input)) ==>
        && messages == old(messages) + [ChatMessage(User, old(input)), ChatMessage(Assistant, respond(old(input)))]
        && input == ""
        && showSummary == (old(showSummary) || Classify(old(input)) == SummaryRequest
                           || |old(messages)| >= SummaryThreshold)
      ensures old(showSummary) ==> showSummary && summary == old(summary)
    {
      if IsBlank(input) {
        return;
      }
      var userMessage := ChatMessage(User, input);
      var priorMessages, priorShown := messages, showSummary;
      messages := messages + [userMessage];
      input := "";
      var reply := Respond(userMessage.content);
      messages := messages + [ChatMessage(Assistant, reply)];
      if |priorMessages| >= SummaryThreshold && !priorShown {
        GenerateSummary();
      }
      AppendTwo(priorMessages, userMessage, ChatMessage(Assistant, reply));
      ExchangeAppended(priorMessages, userMessage.content, respond);
    }

    /** The copy action's text: the report as shown. */
    method CopySummary() returns (text: string)
      requires Valid()
      ensures text == summary
      ensures showSummary ==> text == report
    {
      text := summary;
    }

    /** The download action's file: its name and its content, the report
        exactly as shown. */
    method DownloadSummary() returns (fileName: string, content: string)
      requires Valid()
      ensures fileName == DownloadName
      ensures content == summary
      ensures showSummary ==> content == report
    {
      fileName := DownloadName;
      content := summary;
    }
  }

  /** The assistant's reply function for one submitted record. */
  function Responder(w: ReplyWording, fd: FormData): (respond: string -> string)
    ensures forall text :: respond(text) == GenerateResponse(w, text, fd)
  {
    text => GenerateResponse(w, text, fd)
  }

  /** The transcript is the greeting followed by exchanges: a non-blank
      user message, then `respond`'s reply to it. */
  ghost predicate WellFormed(messages: seq<ChatMessage>, respond: string -> string)
    decreases |messages|
  {
    if |messages| <= 1 then |messages| == 1
    else
      var n := |messages|;
      && n >= 3
      && messages[n - 2].role == User
      && !IsBlank(messages[n - 2].content)
      && messages[n - 1] == ChatMessage(Assistant, respond(messages[n - 2].content))
      && WellFormed(messages[..n - 2], respond)
  }

  /** A well-formed transcript is the greeting plus whole exchanges, so its
      length is odd. */
  lemma {:induction false} WellFormedIsOdd(messages: seq<ChatMessage>, respond: string -> string)
    requires WellFormed(messages, respond)
    ensures |messages| % 2 == 1
  {
    if |messages| > 1 {
      var earlier := messages[..|messages| - 2];
      WellFormedIsOdd(earlier, respond);
      assert |messages| == |earlier| + 2;
    }
  }

  /** Appending a non-blank message and its reply keeps the pattern. */
  lemma ExchangeAppended(messages: seq<ChatMessage>, text: string, respond: string -> string)
    requires WellFormed(messages, respond) && !IsBlank(text)
    ensures WellFormed(messages + [ChatMessage(User, text), ChatMessage(Assistant, respond(text))], respond)
  {
    var next := messages + [ChatMessage(User, text), ChatMessage(Assistant, respond(text))];
    assert next[..|next| - 2] == messages;
  }

  lemma AppendTwo<T>(s: seq<T>, x: T, y: T)
    ensures s + [x] + [y] == s + [x, y]
  {
  }

  /** From a freshly opened panel, three ordinary messages leave the report
      hidden; the fourth brings it up, because that send starts from a
      transcript of seven entries. */
  method FourthExchangeShowsSummary(session: Session, m1: string, m2: string, m3: string, m4: string)
    returns (shownAfterThree: bool, shownAfterFour: bool, entries: nat)
    requires session.Valid() && |session.messages| == 1 && !session.showSummary
    requires !IsBlank(m1) && !IsBlank(m2) && !IsBlank(m3) && !IsBlank(m4)
    requires Classify(m1) != SummaryRequest && Classify(m2) != SummaryRequest
    requires Classify(m3) != SummaryRequest && Classify(m4) != SummaryRequest
    modifies session
    ensures !shownAfterThree && shownAfterFour && entries == 9
  {
    session.SetInput(m1);
    session.SendMessage();
    assert |session.messages| == 3 && !session.showSummary;
    session.SetInput(m2);
    session.SendMessage();
    assert |session.messages| == 5 && !session.showSummary;
    session.SetInput(m3);
    session.SendMessage();
    assert |session.messages| == 7 && !session.showSummary;
    shownAfterThree := session.showSummary;
    session.SetInput(m4);
    session.SendMessage();
    shownAfterFour := session.showSummary;
    entries := |session.messages|;
  }
}
