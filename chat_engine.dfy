/** The chat panel's text logic: which canned reply a message gets, how the
    reply is filled from the submitted record, the opening greeting, and the
    summary report.  Everything here is a function of its inputs, the fixed
    wording among them. */
module ChatEngine {
  import opened Types
  import opened Text
  import opened ChatWording

  // ---------------------------------------------------------------------------
  // Dispatch
  // ---------------------------------------------------------------------------

  /** The kinds of reply, one per branch of the keyword dispatcher. */
  datatype Topic = Audience | Revenue | Risk | Innovation | SummaryRequest | Fallback

  /** The keywords that select each topic (all lower-case ASCII). */
  function Keywords(topic: Topic): seq<string>
  {
    match topic
    case Audience => ["target audience", "customer"]
    case Revenue => ["revenue", "pricing", "monetization"]
    case Risk => ["risk", "challenge", "concern"]
    case Innovation => ["innovation", "unique", "different"]
    case SummaryRequest => ["summary", "report"]
    case Fallback => []
  }

  /** The order in which the topics are tried. */
  const Priority: seq<Topic> := [Audience, Revenue, Risk, Innovation, SummaryRequest]

  /** The lower-cased message contains one of the topic's keywords. */
  predicate Mentions(lower: string, topic: Topic)
  {
    ContainsAny(lower, Keywords(topic))
  }

  /** The lower-cased message contains at least one of `keywords`. */
  predicate ContainsAny(lower: string, keywords: seq<string>)
  {
    |keywords| > 0 && (Contains(lower, keywords[0]) || ContainsAny(lower, keywords[1..]))
  }

  /** Reference reading of the dispatcher: walk an ordered table of topics
      and take the first one the message mentions. */
  function FirstMatch(lower: string, table: seq<Topic>): (topic: Topic)
    ensures topic == Fallback || topic in table
    ensures topic != Fallback ==> Mentions(lower, topic)
  {
    if |table| == 0 then Fallback
    else if Mentions(lower, table[0]) then table[0]
    else FirstMatch(lower, table[1..])
  }

  /** The dispatcher as the source writes it: an if/else chain over the
      lower-cased message.  It picks the same topic as the ordered table
      audience > revenue > risk > innovation > summary. */
  function Classify(userInput: string): (topic: Topic)
    ensures topic == FirstMatch(ToLowerAscii(userInput), Priority)
  {
    var lower := ToLowerAscii(userInput);
    FirstMatchOfPriority(lower);
    ContainsAnyOfTwo(lower, "target audience", "customer");
    ContainsAnyOfThree(lower, "revenue", "pricing", "monetization");
    ContainsAnyOfThree(lower, "risk", "challenge", "concern");
    ContainsAnyOfThree(lower, "innovation", "unique", "different");
    ContainsAnyOfTwo(lower, "summary", "report");
    if Contains(lower, "target audience") || Contains(lower, "customer") then Audience
    else if Contains(lower, "revenue") || Contains(lower, "pricing") || Contains(lower, "monetization") then Revenue
    else if Contains(lower, "risk") || Contains(lower, "challenge") || Contains(lower, "concern") then Risk
    else if Contains(lower, "innovation") || Contains(lower, "unique") || Contains(lower, "different") then Innovation
    else if Contains(lower, "summary") || Contains(lower, "report") then SummaryRequest
    else Fallback
  }

  /** The ordered table unrolled. */
  lemma FirstMatchOfPriority(lower: string)
    ensures FirstMatch(lower, Priority) ==
      if Mentions(lower, Audience) then Audience
      else if Mentions(lower, Revenue) then Revenue
      else if Mentions(lower, Risk) then Risk
      else if Mentions(lower, Innovation) then Innovation
      else if Mentions(lower, SummaryRequest) then SummaryRequest
      else Fallback
  {
    var t4: seq<Topic> := [SummaryRequest];
    var t3 := [Innovation] + t4;
    var t2 := [Risk] + t3;
    var t1 := [Revenue] + t2;
    assert Priority == [Audience] + t1;
    assert t4[1..] == [] && t3[1..] == t4 && t2[1..] == t3 && t1[1..] == t2 && Priority[1..] == t1;
    assert FirstMatch(lower, t4) == if Mentions(lower, SummaryRequest) then SummaryRequest else Fallback;
    assert FirstMatch(lower, t3) == if Mentions(lower, Innovation) then Innovation else FirstMatch(lower, t4);
    assert FirstMatch(lower, t2) == if Mentions(lower, Risk) then Risk else FirstMatch(lower, t3);
    assert FirstMatch(lower, t1) == if Mentions(lower, Revenue) then Revenue else FirstMatch(lower, t2);
  }

  lemma ContainsAnyOfTwo(lower: string, a: string, b: string)
    ensures ContainsAny(lower, [a, b]) <==> Contains(lower, a) || Contains(lower, b)
  {
    assert [a, b][1..] == [b];
    assert [b][1..] == [];
    assert !ContainsAny(lower, []);
    assert ContainsAny(lower, [b]) <==> Contains(lower, b);
  }

  lemma ContainsAnyOfThree(lower: string, a: string, b: string, c: string)
    ensures ContainsAny(lower, [a, b, c]) <==> Contains(lower, a) || Contains(lower, b) || Contains(lower, c)
  {
    assert [a, b, c][1..] == [b, c];
    ContainsAnyOfTwo(lower, b, c);
  }

  /** First match wins: the table picks entry `k` exactly when the message
      mentions it and none of the entries before it. */
  lemma {:induction false} FirstMatchPicks(lower: string, table: seq<Topic>, k: nat)
    requires k < |table| && Fallback !in table
    requires Distinct(table)
    ensures FirstMatch(lower, table) == table[k] <==>
      Mentions(lower, table[k]) && forall j :: 0 <= j < k ==> !Mentions(lower, table[j])
  {
    if k > 0 && !Mentions(lower, table[0]) {
      assert Distinct(table[1..]) by {
        forall i, j | 0 <= i < j < |table| - 1 ensures table[1..][i] != table[1..][j] {
          assert table[1..][i] == table[i + 1] && table[1..][j] == table[j + 1];
        }
      }
      FirstMatchPicks(lower, table[1..], k - 1);
      forall j | 0 <= j < k ensures !Mentions(lower, table[j]) <==> (j == 0 || !Mentions(lower, table[1..][j - 1])) {
      }
    }
  }

  /** No topic is listed twice. */
  predicate Distinct(table: seq<Topic>)
  {
    forall i, j :: 0 <= i < j < |table| ==> table[i] != table[j]
  }

  /** The table falls through to the generic reply exactly when no entry is
      mentioned. */
  lemma {:induction false} FirstMatchFallsThrough(lower: string, table: seq<Topic>)
    requires Fallback !in table
    ensures FirstMatch(lower, table) == Fallback <==> forall j :: 0 <= j < |table| ==> !Mentions(lower, table[j])
  {
    if |table| > 0 && !Mentions(lower, table[0]) {
      FirstMatchFallsThrough(lower, table[1..]);
      assert forall j :: 1 <= j < |table| ==> table[j] == table[1..][j - 1];
    }
  }

  /** A message mentioning both revenue and risk, and not the audience, gets
      the revenue reply. */
  lemma RevenueBeatsRisk(userInput: string)
    requires Contains(ToLowerAscii(userInput), "revenue")
    requires Contains(ToLowerAscii(userInput), "risk")
    requires !Mentions(ToLowerAscii(userInput), Audience)
    ensures Classify(userInput) == Revenue
  {
    var lower := ToLowerAscii(userInput);
    assert Mentions(lower, Revenue) by { assert Keywords(Revenue)[0] == "revenue"; }
    assert Distinct(Priority);
    FirstMatchPicks(lower, Priority, 1);
  }

  // ---------------------------------------------------------------------------
  // Replies
  // ---------------------------------------------------------------------------

  /** `value || fallback`: an empty string gives way to the fallback. */
  function OrElse(value: string, fallback: string): (r: string)
    ensures value != "" ==> r == value
    ensures value == "" ==> r == fallback
  {
    if value != "" then value else fallback
  }

  /** The optional industry, read as the empty string when it is absent:
      an absent industry and an empty one read alike. */
  function IndustryText(fd: FormData): (r: string)
    ensures r == "" <==> fd.industryDomain.None? || fd.industryDomain.value == ""
    ensures r != "" ==> fd.industryDomain == Some(r)
  {
    match fd.industryDomain
    case Some(industry) => industry
    case None => ""
  }

  /** `userInput.split(" ").slice(0, 3).join(" ")`: the first three
      space-separated words.  They are always a prefix of the message: the
      whole message when it holds fewer than three spaces, and otherwise the
      message cut right before its third space. */
  function LeadingWords(userInput: string): (r: string)
    ensures IsPrefix(r, userInput)
    ensures Count(userInput, ' ') < 3 ==> r == userInput
    ensures Count(userInput, ' ') >= 3 ==>
      Count(r, ' ') == 2 && |r| < |userInput| && userInput[|r|] == ' '
  {
    var r := JoinWith(Take(SplitOn(userInput, ' '), 3), " ");
    JoinLeadingPiecesIsPrefix(userInput, ' ', 3);
    assert Count(userInput, ' ') < 3 ==> r == userInput by {
      if Count(userInput, ' ') < 3 {
        FewSeparatorsKeepAll(userInput, ' ', 3);
      }
    }
    assert Count(userInput, ' ') >= 3 ==>
      Count(r, ' ') == 2 && |r| < |userInput| && userInput[|r|] == ' ' by {
      if Count(userInput, ' ') >= 3 {
        LeadingPiecesStopAtSeparator(userInput, ' ', 3);
      }
    }
    r
  }

  /** The industry as the generic reply names it: "industry" when none was given. */
  function IndustryOrDefault(fd: FormData): (r: string)
    ensures r != ""
    ensures fd.industryDomain.Some? && fd.industryDomain.value != "" ==> r == fd.industryDomain.value
    ensures fd.industryDomain.None? || fd.industryDomain.value == "" ==> r == "industry"
  {
    OrElse(IndustryText(fd), "industry")
  }

  /** The assistant's reply to one message, given the submitted record: the
      topic's lead and tail around the record field the topic is about.  The
      audience and revenue replies carry the ticked options joined by ", ",
      the risk and innovation replies the text as written, the generic reply
      the message's first three words and the industry ("industry" when none
      was given); a report request is only acknowledged. */
  function GenerateResponse(w: ReplyWording, userInput: string, fd: FormData): (reply: string)
    ensures match Classify(userInput)
      case Audience => Contains(reply, JoinWith(fd.targetAudience, ", "))
      case Revenue => Contains(reply, JoinWith(fd.revenueModel, ", "))
      case Risk => Contains(reply, fd.riskConcerns)
      case Innovation => Contains(reply, fd.innovationLevel)
      case SummaryRequest => reply == w.acknowledgement
      case Fallback => Contains(reply, LeadingWords(userInput)) && Contains(reply, IndustryOrDefault(fd))
  {
    match Classify(userInput)
    case Audience => Embed(w.audienceLead, JoinWith(fd.targetAudience, ", "), w.audienceTail)
    case Revenue => Embed(w.revenueLead, JoinWith(fd.revenueModel, ", "), w.revenueTail)
    case Risk => Embed(w.riskLead, fd.riskConcerns, w.riskTail)
    case Innovation => Embed(w.innovationLead, fd.innovationLevel, w.innovationTail)
    case SummaryRequest => w.acknowledgement
    case Fallback =>
      var front := Embed(w.fallbackLead, LeadingWords(userInput), "");
      var focus := Embed(w.fallbackMiddle, IndustryOrDefault(fd), w.fallbackTail);
      ContainsExtendedRight(front, focus, LeadingWords(userInput));
      ContainsExtendedLeft(front, focus, IndustryOrDefault(fd));
      front + focus
  }

  // ---------------------------------------------------------------------------
  // Greeting
  // ---------------------------------------------------------------------------

  /** The problem statement as quoted in the greeting: at most its first
      100 characters, with "..." appended when something was cut off. */
  function Excerpt(problem: string): (r: string)
    ensures |problem| <= 100 ==> r == problem
    ensures |problem| > 100 ==> |r| == 103 && IsPrefix(r[..100], problem) && r[100..] == "..."
  {
    problem[..if |problem| < 100 then |problem| else 100] + (if |problem| > 100 then "..." else "")
  }

  /** What the greeting says the user is working on: the quoted excerpt of
      the problem statement, or the "new concept" phrase when it is empty. */
  function ProblemClause(w: GreetingWording, problem: string): (r: string)
    ensures problem != "" ==> Contains(r, Excerpt(problem))
    ensures problem == "" ==> r == w.newConcept
  {
    if problem != "" then Embed(w.problemLead, Excerpt(problem), w.problemTail) else w.newConcept
  }

  /** The assistant's opening message. */
  function Greeting(w: GreetingWording, fd: FormData): (r: string)
    ensures Contains(r, ProblemClause(w, fd.problemStatement))
  {
    Embed(w.lead, ProblemClause(w, fd.problemStatement), w.tail)
  }

  /** The greeting quotes the problem statement (cut to 100 characters and
      marked with "..." when longer), or speaks of a new concept when the
      statement is empty. */
  lemma GreetingQuotesProblem(w: GreetingWording, fd: FormData)
    ensures fd.problemStatement != "" ==> Contains(Greeting(w, fd), Excerpt(fd.problemStatement))
    ensures fd.problemStatement == "" ==> Contains(Greeting(w, fd), w.newConcept)
  {
    var problem := fd.problemStatement;
    ContainsTransitive(Greeting(w, fd), ProblemClause(w, problem), if problem != "" then Excerpt(problem) else w.newConcept);
  }

  // ---------------------------------------------------------------------------
  // Summary report
  // ---------------------------------------------------------------------------

  /** The "Additional ..." line, or an empty line when there is no text. */
  function AdditionalLine(lead: string, text: string): string
  {
    if text != "" then lead + text else ""
  }

  /** The report line by line: 25 lines of record sections (title,
      headings, the record's fields, blank separators), then the fixed
      mitigation bullets, next steps and closing note. */
  function SummaryLines(w: ReportWording, fd: FormData): (lines: seq<string>)
    ensures |lines| == FieldSectionCount + |w.closing|
    ensures lines[FieldSectionCount..] == w.closing
  {
    [ w.title,
      "",
      w.problemHeading,
      OrElse(fd.problemStatement, w.notSpecified),
      "",
      w.audienceHeading,
      JoinWith(fd.targetAudience, ", "),
      AdditionalLine(w.audienceAddendum, fd.targetAudienceOther),
      "",
      w.valueHeading,
      OrElse(fd.valueProposition, w.notSpecified),
      "",
      w.revenueHeading,
      JoinWith(fd.revenueModel, ", "),
      AdditionalLine(w.modelAddendum, fd.revenueModelOther),
      "",
      w.innovationHeading,
      OrElse(fd.innovationLevel, w.notSpecified),
      "",
      w.industryHeading,
      OrElse(IndustryText(fd), w.notSpecified),
      "",
      w.risksHeading,
      OrElse(fd.riskConcerns, w.notSpecified),
      ""
    ] + w.closing
  }

  /** The report text: its lines separated by newlines.  Every line appears
      in it, and when no line holds a newline of its own, splitting the text
      at newlines gives back exactly the lines. */
  function SummaryText(w: ReportWording, fd: FormData): (text: string)
    ensures forall k :: 0 <= k < |SummaryLines(w, fd)| ==> Contains(text, SummaryLines(w, fd)[k])
    ensures (forall k :: 0 <= k < |SummaryLines(w, fd)| ==> '\n' !in SummaryLines(w, fd)[k]) ==>
      SplitOn(text, '\n') == SummaryLines(w, fd)
  {
    var lines := SummaryLines(w, fd);
    JoinContainsEachPiece(lines, "\n");
    assert (forall k :: 0 <= k < |lines| ==> '\n' !in lines[k]) ==> SplitOn(JoinWith(lines, "\n"), '\n') == lines by {
      if forall k :: 0 <= k < |lines| ==> '\n' !in lines[k] {
        SplitJoin(lines, '\n');
      }
    }
    JoinWith(lines, "\n")
  }

  /** Positions of the lines that depend on the record. */
  const ProblemLine := 3
  const AudienceLine := 6
  const AudienceOtherLine := 7
  const ValueLine := 10
  const RevenueLine := 13
  const RevenueOtherLine := 14
  const InnovationLine := 17
  const IndustryLine := 20
  const RisksLine := 23

  /** How many lines precede the closing lines. */
  const FieldSectionCount := 25

  predicate IsFieldLine(k: int)
  {
    k == ProblemLine || k == AudienceLine || k == AudienceOtherLine || k == ValueLine || k == RevenueLine
    || k == RevenueOtherLine || k == InnovationLine || k == IndustryLine || k == RisksLine
  }

  /** The report is 25 lines of record sections followed by the closing
      lines, and every line not filled from the record (title, headings,
      blank separators, the closing lines) is the same for every record. */
  lemma SummaryStaticLines(w: ReportWording, fd: FormData, fd': FormData)
    ensures forall k :: 0 <= k < |SummaryLines(w, fd)| && !IsFieldLine(k) ==> SummaryLines(w, fd)[k] == SummaryLines(w, fd')[k]
  {
    var a, b := SummaryLines(w, fd), SummaryLines(w, fd');
    forall k | 0 <= k < |a| && !IsFieldLine(k) ensures a[k] == b[k] {
      if k >= FieldSectionCount {
        assert a[k] == a[FieldSectionCount..][k - FieldSectionCount];
        assert b[k] == b[FieldSectionCount..][k - FieldSectionCount];
      }
    }
  }

  /** Each empty text field is reported as "Not specified"; a filled one is
      reported as written.  The industry counts as empty when absent. */
  lemma SummaryNotSpecified(w: ReportWording, fd: FormData)
    ensures var lines := SummaryLines(w, fd);
      && lines[ProblemLine] == (if fd.problemStatement == "" then w.notSpecified else fd.problemStatement)
      && lines[ValueLine] == (if fd.valueProposition == "" then w.notSpecified else fd.valueProposition)
      && lines[InnovationLine] == (if fd.innovationLevel == "" then w.notSpecified else fd.innovationLevel)
      && lines[RisksLine] == (if fd.riskConcerns == "" then w.notSpecified else fd.riskConcerns)
      && lines[IndustryLine] == (if fd.industryDomain.None? || fd.industryDomain.value == ""
                                 then w.notSpecified else fd.industryDomain.value)
  {
  }

  /** The "Additional audience:" and "Additional model:" lines appear exactly
      when the matching "Other" text is non-empty; otherwise the line is
      blank.  The ticked options are listed joined by ", ". */
  lemma SummaryAdditionalLines(w: ReportWording, fd: FormData)
    requires w.audienceAddendum != "" && w.modelAddendum != ""
    ensures var lines := SummaryLines(w, fd);
      && (IsPrefix(w.audienceAddendum, lines[AudienceOtherLine]) <==> fd.targetAudienceOther != "")
      && (fd.targetAudienceOther == "" ==> lines[AudienceOtherLine] == "")
      && (fd.targetAudienceOther != "" ==> lines[AudienceOtherLine][|w.audienceAddendum|..] == fd.targetAudienceOther)
      && (IsPrefix(w.modelAddendum, lines[RevenueOtherLine]) <==> fd.revenueModelOther != "")
      && (fd.revenueModelOther == "" ==> lines[RevenueOtherLine] == "")
      && (fd.revenueModelOther != "" ==> lines[RevenueOtherLine][|w.modelAddendum|..] == fd.revenueModelOther)
    ensures var lines := SummaryLines(w, fd);
      lines[AudienceLine] == JoinWith(fd.targetAudience, ", ") && lines[RevenueLine] == JoinWith(fd.revenueModel, ", ")
  {
  }
}
