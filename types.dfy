/** The record shared by the intake form and the chat panel. */
module Types {

  datatype Option<+T> = None | Some(value: T)

  /** One submission of the intake form.  The two multi-select answers are
      ordered lists of option labels (in the order the boxes were ticked);
      `industryDomain` is the one optional member of the record. */
  datatype FormData = FormData(
    problemStatement: string,
    targetAudience: seq<string>,
    targetAudienceOther: string,
    valueProposition: string,
    revenueModel: seq<string>,
    revenueModelOther: string,
    riskConcerns: string,
    innovationLevel: string,
    industryDomain: Option<string>
  )
}
