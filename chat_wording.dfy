/** The fixed wording of the chat panel: the canned replies, the greeting and
    the summary report.  The engine and the panel take the wording as a value,
    so that what is proved about them holds for any wording; `AppWording` is
    the wording the application ships. */
module ChatWording {

  /** The canned replies, each a lead and a tail around the quoted record
      field, plus the acknowledgement of a report request. */
  datatype ReplyWording = ReplyWording(
    audienceLead: string, audienceTail: string,
    revenueLead: string, revenueTail: string,
    riskLead: string, riskTail: string,
    innovationLead: string, innovationTail: string,
    acknowledgement: string,
    fallbackLead: string, fallbackMiddle: string, fallbackTail: string)

  /** The greeting around what the user is working on, and that phrase
      around the quoted problem statement. */
  datatype GreetingWording = GreetingWording(
    lead: string, tail: string,
    problemLead: string, problemTail: string,
    newConcept: string)

  /** The report's title, headings, filler texts and closing lines. */
  datatype ReportWording = ReportWording(
    title: string,
    problemHeading: string, audienceHeading: string, valueHeading: string,
    revenueHeading: string, innovationHeading: string, industryHeading: string,
    risksHeading: string,
    notSpecified: string, audienceAddendum: string, modelAddendum: string,
    closing: seq<string>)

  datatype Wording = Wording(replies: ReplyWording, greeting: GreetingWording, report: ReportWording)

  /** The wording of the application. */
  const AppWording: Wording := Wording(
    ReplyWording(
      "Based on your intake form, you're targeting ",
      ". Let's think about their specific needs and pain points:\n\n"
      + "1. What specific problems do they face that your solution addresses?\n"
      + "2. How does your solution fit into their existing workflows or habits?\n"
      + "3. What alternatives are they currently using?\n\n"
      + "Understanding these aspects will help us refine your value proposition to resonate strongly with your target audience.",
      "You've indicated interest in ",
      " revenue models. Let's explore how these might work for your specific solution:\n\n"
      + "1. What pricing structure would provide the best value to customers while ensuring profitability?\n"
      + "2. How does your pricing compare to alternatives in the market?\n"
      + "3. Are there opportunities for upselling or cross-selling additional features?\n\n"
      + "A well-designed revenue model should align with your customers' perceived value and willingness to pay.",
      "You've identified some risks and concerns: \"",
      "\".\n\nLet's address these systematically:\n\n"
      + "1. Market risks: How crowded is the competitive landscape? What's your differentiation strategy?\n"
      + "2. Technical risks: What are the key technical challenges in building your solution?\n"
      + "3. Regulatory risks: Are there compliance requirements that might impact your solution?\n\n"
      + "For each risk, we should develop mitigation strategies to increase your chances of success.",
      "You've characterized your innovation level as \"",
      "\". This gives us a good framework for positioning your solution.\n\n"
      + "Let's explore what makes your approach innovative:\n\n"
      + "1. What specific aspects of your solution are novel or different from existing alternatives?\n"
      + "2. How does this innovation translate to tangible benefits for your users?\n"
      + "3. Is your innovation protected or protectable through IP strategies?\n\n"
      + "Clearly articulating your innovation will be crucial for attracting both users and potential investors.",
      "I'm generating a summary report of our discussion for you now...",
      "That's an interesting point about ",
      "...\n\nLet's explore this further in the context of your ",
      " focus. \n\n"
      + "1. How does this aspect fit with your overall value proposition?\n"
      + "2. What impact might this have on your target audience's experience?\n"
      + "3. Are there any competitive or market insights we should consider here?\n\n"
      + "Would you like to dive deeper into any specific element of your value proposition?"),
    GreetingWording(
      "Hi there! I'm your Ideation Assistant. I've received your intake form responses and I'm ready to help you brainstorm and develop your idea further. Let's explore your concept together and create a comprehensive value proposition.\n\n"
      + "Based on your input, I understand you're working on ",
      ".\n\n"
      + "Let's start by discussing your target audience and how your solution addresses their specific needs. What aspects of your value proposition would you like to explore first?",
      "addressing the problem: \"",
      "\"",
      "a new concept"),
    ReportWording(
      "# Value Proposition Summary Report",
      "## Problem Statement", "## Target Audience", "## Value Proposition",
      "## Revenue Model", "## Innovation Level", "## Industry/Domain",
      "## Key Risks & Mitigations",
      "Not specified", "Additional audience: ", "Additional model: ",
      [ "### Risk Mitigation Strategies:",
        "1. Conduct thorough market research to validate demand",
        "2. Develop a minimum viable product (MVP) to test key assumptions",
        "3. Consult with regulatory experts if applicable to your domain",
        "",
        "## Next Steps Recommendations",
        "1. Refine your value proposition based on our discussion",
        "2. Validate key assumptions through customer interviews",
        "3. Develop a prototype or MVP to test with early adopters",
        "4. Identify key metrics to measure success",
        "5. Create a roadmap for development and go-to-market strategy",
        "",
        "This summary represents the current state of your idea based on our ideation session. Use it as a foundation for further development and refinement."
      ]))
}
