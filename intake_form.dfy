/** The intake form: its option lists, the validation rules that are
    re-evaluated after every change, the change handlers for the multi-select
    and single-select questions, and the submit step that normalises the
    record before handing it on. */
module IntakeForm {
  import opened Types
  import opened Text

  /** The sentinel option that asks for a free-text answer. */
  const OtherOption: string := "Other (please specify)"

  const TargetAudienceOptions: seq<string> := [
    "Enterprise businesses",
    "Small to medium businesses",
    "Consumers - general",
    "Consumers - specific demographic",
    "Government/public sector",
    "Educational institutions",
    "Healthcare providers",
    OtherOption
  ]

  const RevenueModelOptions: seq<string> := [
    "Subscription-based",
    "One-time purchase",
    "Freemium",
    "Usage-based pricing",
    "Advertising",
    "Marketplace/commission",
    OtherOption
  ]

  const InnovationLevelOptions: seq<string> := [
    "Incremental improvement to existing solution",
    "Significant enhancement to existing solution",
    "New solution for established market",
    "Disruptive innovation for new market",
    "Breakthrough technology/approach"
  ]

  /** The record the form starts from; `industryDomain` is absent. */
  const InitialFormData: FormData := FormData("", [], "", "", [], "", "", "", None)

  // ---------------------------------------------------------------------------
  // Validation
  // ---------------------------------------------------------------------------

  /** The fields an error can be keyed by. */
  datatype ErrorKey =
    | TargetAudience
    | TargetAudienceOther
    | RevenueModel
    | RevenueModelOther
    | InnovationLevel

  function ErrorMessage(key: ErrorKey): string
  {
    match key
    case TargetAudience => "Please select at least one target audience"
    case TargetAudienceOther => "Please specify other target audience"
    case RevenueModel => "Please select at least one revenue model"
    case RevenueModelOther => "Please specify other revenue model"
    case InnovationLevel => "Please select an innovation level"
  }

  /** The sentinel is ticked but its free-text answer is blank after trimming. */
  predicate OtherUnspecified(choices: seq<string>, otherText: string)
  {
    OtherOption in choices && IsBlank(otherText)
  }

  /** The error map the validation effect computes from the current record. */
  function Validate(fd: FormData): (errors: map<ErrorKey, string>)
    ensures TargetAudience in errors <==> |fd.targetAudience| == 0
    ensures TargetAudienceOther in errors <==>
      OtherOption in fd.targetAudience && IsBlank(fd.targetAudienceOther)
    ensures RevenueModel in errors <==> |fd.revenueModel| == 0
    ensures RevenueModelOther in errors <==>
      OtherOption in fd.revenueModel && IsBlank(fd.revenueModelOther)
    ensures InnovationLevel in errors <==> fd.innovationLevel == ""
    ensures forall key :: key in errors ==> errors[key] == ErrorMessage(key)
  {
    var e0: map<ErrorKey, string> := map[];
    var e1 := if |fd.targetAudience| == 0 then e0[TargetAudience := ErrorMessage(TargetAudience)] else e0;
    var e2 := if OtherUnspecified(fd.targetAudience, fd.targetAudienceOther)
      then e1[TargetAudienceOther := ErrorMessage(TargetAudienceOther)] else e1;
    var e3 := if |fd.revenueModel| == 0 then e2[RevenueModel := ErrorMessage(RevenueModel)] else e2;
    var e4 := if OtherUnspecified(fd.revenueModel, fd.revenueModelOther)
      then e3[RevenueModelOther := ErrorMessage(RevenueModelOther)] else e3;
    if fd.innovationLevel == "" then e4[InnovationLevel := ErrorMessage(InnovationLevel)] else e4
  }

  /** `isFormValid`: the error map is empty, which is exactly when all five
      rules are met. */
  predicate IsFormValid(fd: FormData)
    ensures IsFormValid(fd) <==>
      && |fd.targetAudience| > 0
      && !OtherUnspecified(fd.targetAudience, fd.targetAudienceOther)
      && |fd.revenueModel| > 0
      && !OtherUnspecified(fd.revenueModel, fd.revenueModelOther)
      && fd.innovationLevel != ""
  {
    NoErrorsIff(fd);
    Validate(fd) == map[]
  }

  /** The error map is empty exactly when no rule fails. */
  lemma NoErrorsIff(fd: FormData)
    ensures Validate(fd) == map[] <==>
      && |fd.targetAudience| > 0
      && !OtherUnspecified(fd.targetAudience, fd.targetAudienceOther)
      && |fd.revenueModel| > 0
      && !OtherUnspecified(fd.revenueModel, fd.revenueModelOther)
      && fd.innovationLevel != ""
  {
    var errors := Validate(fd);
    if errors != map[] {
      var key :| key in errors;
    }
  }

  /** Only the two selections, their "Other" texts and the innovation level
      are validated: the problem statement, value proposition, risks and
      industry are accepted as they are, empty included. */
  lemma ValidateReadsOnlyRuledFields(fd: FormData, fd': FormData)
    requires fd'.targetAudience == fd.targetAudience && fd'.targetAudienceOther == fd.targetAudienceOther
    requires fd'.revenueModel == fd.revenueModel && fd'.revenueModelOther == fd.revenueModelOther
    requires fd'.innovationLevel == fd.innovationLevel
    ensures Validate(fd') == Validate(fd)
  {
    var e, e' := Validate(fd), Validate(fd');
    assert e.Keys == e'.Keys by {
      forall key ensures key in e <==> key in e' {
        match key
        case TargetAudience =>
        case TargetAudienceOther =>
        case RevenueModel =>
        case RevenueModelOther =>
        case InnovationLevel =>
      }
    }
  }

  /** The untouched form reports three errors: no audience, no revenue model,
      no innovation level. */
  lemma InitialFormErrors()
    ensures Validate(InitialFormData).Keys == {TargetAudience, RevenueModel, InnovationLevel}
    ensures !IsFormValid(InitialFormData)
  {
    var e := Validate(InitialFormData);
    assert OtherOption !in InitialFormData.targetAudience;
    assert OtherOption !in InitialFormData.revenueModel;
    forall key ensures key in e <==> key in {TargetAudience, RevenueModel, InnovationLevel} {
      match key
      case TargetAudience =>
      case TargetAudienceOther =>
      case RevenueModel =>
      case RevenueModelOther =>
      case InnovationLevel =>
    }
    assert TargetAudience in e;
  }

  /** With the revenue "Other" box ticked, the form (otherwise complete) is
      submittable exactly when the free-text answer is not blank. */
  lemma RevenueOtherNeedsText(fd: FormData)
    requires OtherOption in fd.revenueModel
    requires |fd.targetAudience| > 0 && !OtherUnspecified(fd.targetAudience, fd.targetAudienceOther)
    requires fd.innovationLevel != ""
    ensures IsFormValid(fd) <==> !IsBlank(fd.revenueModelOther)
    ensures IsBlank(fd.revenueModelOther) ==> RevenueModelOther in Validate(fd)
  {
  }

  /** The rules do not check the innovation level against its five options:
      any non-empty text passes. */
  lemma InnovationLevelNotCheckedAgainstOptions()
    ensures var fd := FormData("", [TargetAudienceOptions[0]], "", "", [RevenueModelOptions[0]], "", "", "anything", None);
      "anything" !in InnovationLevelOptions && IsFormValid(fd)
  {
    var fd := FormData("", [TargetAudienceOptions[0]], "", "", [RevenueModelOptions[0]], "", "", "anything", None);
    assert OtherOption !in fd.targetAudience;
    assert OtherOption !in fd.revenueModel;
  }

  // ---------------------------------------------------------------------------
  // Change handlers
  // ---------------------------------------------------------------------------

  /** The list after ticking `option`: it is appended unless already present. */
  function WithOption(options: seq<string>, option: string): (r: seq<string>)
    ensures option in r
    ensures options <= r
    ensures |r| == |options| + (if option in options then 0 else 1)
    ensures forall x :: x in r <==> x in options || x == option
  {
    if option in options then options else options + [option]
  }

  /** The list after unticking `option`: its first occurrence, if any, is
      cut out. */
  function WithoutOption(options: seq<string>, option: string): (r: seq<string>)
    ensures option !in options ==> r == options
    ensures |r| == |options| - (if option in options then 1 else 0)
  {
    var i := IndexOf(options, option);
    if i == -1 then options else options[..i] + options[i + 1..]
  }

  /** Unticking removes exactly one occurrence, the first, and every other
      entry keeps its place in the order. */
  lemma WithoutOptionRemovesFirst(options: seq<string>, option: string)
    requires option in options
    ensures var r, i := WithoutOption(options, option), IndexOf(options, option);
      && r[..i] == options[..i] && r[i..] == options[i + 1..]
      && multiset(options) == multiset(r) + multiset{option}
  {
    var i := IndexOf(options, option);
    var before, after := options[..i], options[i + 1..];
    var r := WithoutOption(options, option);
    assert r == before + after;
    assert r[..i] == before by {
      assert |before| == i;
    }
    SplitAt(options, i);
    assert multiset(options) == multiset(before) + multiset{option} + multiset(after);
  }

  /** No option appears twice in the list. */
  predicate NoDuplicates(options: seq<string>)
  {
    forall i, j :: 0 <= i < j < |options| ==> options[i] != options[j]
  }

  /** Ticking keeps a list free of duplicates. */
  lemma TickPreservesNoDuplicates(options: seq<string>, option: string)
    requires NoDuplicates(options)
    ensures NoDuplicates(WithOption(options, option))
  {
    var r := WithOption(options, option);
    if option !in options {
      forall a, b | 0 <= a < b < |r| ensures r[a] != r[b] {
        if b == |options| {
          assert r[a] == options[a];
        }
      }
    }
  }

  /** Unticking keeps a list free of duplicates, and on such a list it
      removes the option altogether. */
  lemma UntickPreservesNoDuplicates(options: seq<string>, option: string)
    requires NoDuplicates(options)
    ensures NoDuplicates(WithoutOption(options, option))
    ensures option !in WithoutOption(options, option)
  {
    var r := WithoutOption(options, option);
    if option in options {
      var i := IndexOf(options, option);
      assert r == options[..i] + options[i + 1..];
      assert forall k :: 0 <= k < |r| ==> r[k] == options[if k < i then k else k + 1] by {
        forall k | 0 <= k < |r| ensures r[k] == options[if k < i then k else k + 1] {
          if k < i { assert r[k] == options[..i][k]; } else { assert r[k] == options[i + 1..][k - i]; }
        }
      }
      assert NoDuplicates(r);
      assert option !in r;
    }
  }

  /** Unticking an option just ticked restores the list it was ticked in. */
  lemma UntickUndoesTick(options: seq<string>, option: string)
    requires option !in options
    ensures WithoutOption(WithOption(options, option), option) == options
  {
    var ticked := options + [option];
    assert IndexOf(ticked, option) == |options| by {
      assert ticked[..|options|] == options;
    }
  }

  /** The checkbox handler's list update, on a copy of the current list. */
  method ToggleOption(current: seq<string>, option: string, checked: bool) returns (options: seq<string>)
    ensures checked ==> options == WithOption(current, option)
    ensures !checked ==> options == WithoutOption(current, option)
  {
    options := current;
    if checked {
      if option !in options {
        options := options + [option];
      }
    } else {
      var index := IndexOf(options, option);
      if index != -1 {
        options := options[..index] + options[index + 1..];
      }
    }
  }

  /** The two multi-select questions. */
  datatype ChoiceField = TargetAudienceField | RevenueModelField

  /** A checkbox change: only the list of the named question changes, and
      only the errors about that question can change. */
  method HandleCheckboxChange(prev: FormData, field: ChoiceField, option: string, checked: bool)
    returns (next: FormData)
    ensures field == TargetAudienceField ==>
      next == prev.(targetAudience := if checked then WithOption(prev.targetAudience, option)
                                      else WithoutOption(prev.targetAudience, option))
    ensures field == RevenueModelField ==>
      next == prev.(revenueModel := if checked then WithOption(prev.revenueModel, option)
                                    else WithoutOption(prev.revenueModel, option))
    ensures checked ==> ChoicesOf(next, field) != []
    ensures field == TargetAudienceField ==>
      Validate(next) - {TargetAudience, TargetAudienceOther} == Validate(prev) - {TargetAudience, TargetAudienceOther}
    ensures field == RevenueModelField ==>
      Validate(next) - {RevenueModel, RevenueModelOther} == Validate(prev) - {RevenueModel, RevenueModelOther}
  {
    var options := ToggleOption(ChoicesOf(prev, field), option, checked);
    next := match field
      case TargetAudienceField => prev.(targetAudience := options)
      case RevenueModelField => prev.(revenueModel := options);
    SameErrorsOutside(prev, next, field);
  }

  /** The current list of a multi-select question. */
  function ChoicesOf(fd: FormData, field: ChoiceField): seq<string>
  {
    match field
    case TargetAudienceField => fd.targetAudience
    case RevenueModelField => fd.revenueModel
  }

  /** Changing one question's list leaves the other errors as they were. */
  lemma SameErrorsOutside(prev: FormData, next: FormData, field: ChoiceField)
    requires field == TargetAudienceField ==> next == prev.(targetAudience := next.targetAudience)
    requires field == RevenueModelField ==> next == prev.(revenueModel := next.revenueModel)
    ensures field == TargetAudienceField ==>
      Validate(next) - {TargetAudience, TargetAudienceOther} == Validate(prev) - {TargetAudience, TargetAudienceOther}
    ensures field == RevenueModelField ==>
      Validate(next) - {RevenueModel, RevenueModelOther} == Validate(prev) - {RevenueModel, RevenueModelOther}
  {
    var e, e' := Validate(prev), Validate(next);
    var gone := if field == TargetAudienceField then {TargetAudience, TargetAudienceOther}
                else {RevenueModel, RevenueModelOther};
    forall key ensures key in e - gone <==> key in e' - gone {
      match key
      case TargetAudience =>
      case TargetAudienceOther =>
      case RevenueModel =>
      case RevenueModelOther =>
      case InnovationLevel =>
    }
    assert (e - gone).Keys == (e' - gone).Keys;
  }

  /** The radio handler: the innovation level is replaced; a choice clears
      its error and no other error changes. */
  method HandleRadioChange(prev: FormData, value: string) returns (next: FormData)
    ensures next == prev.(innovationLevel := value)
    ensures value != "" ==> InnovationLevel !in Validate(next)
    ensures Validate(next) - {InnovationLevel} == Validate(prev) - {InnovationLevel}
  {
    next := prev.(innovationLevel := value);
    var e, e' := Validate(prev), Validate(next);
    forall key ensures key in e - {InnovationLevel} <==> key in e' - {InnovationLevel} {
      match key
      case TargetAudience =>
      case TargetAudienceOther =>
      case RevenueModel =>
      case RevenueModelOther =>
      case InnovationLevel =>
    }
    assert (e - {InnovationLevel}).Keys == (e' - {InnovationLevel}).Keys;
  }

  // ---------------------------------------------------------------------------
  // Submission
  // ---------------------------------------------------------------------------

  /** The record as submitted: each "Other" text is emptied unless its
      sentinel is ticked; every other field is passed through. */
  function ClearUnselectedOther(fd: FormData): (r: FormData)
    ensures r.targetAudienceOther == "" || OtherOption in r.targetAudience
    ensures r.revenueModelOther == "" || OtherOption in r.revenueModel
    ensures OtherOption in fd.targetAudience ==> r.targetAudienceOther == fd.targetAudienceOther
    ensures OtherOption in fd.revenueModel ==> r.revenueModelOther == fd.revenueModelOther
    ensures r.(targetAudienceOther := fd.targetAudienceOther, revenueModelOther := fd.revenueModelOther) == fd
  {
    fd.(targetAudienceOther := if OtherOption in fd.targetAudience then fd.targetAudienceOther else "",
        revenueModelOther := if OtherOption in fd.revenueModel then fd.revenueModelOther else "")
  }

  /** Clearing unused "Other" texts never changes the verdict of the rules,
      and clearing twice is clearing once. */
  lemma ClearUnselectedOtherKeepsErrors(fd: FormData)
    ensures Validate(ClearUnselectedOther(fd)) == Validate(fd)
    ensures ClearUnselectedOther(ClearUnselectedOther(fd)) == ClearUnselectedOther(fd)
  {
    var r := ClearUnselectedOther(fd);
    var e, e' := Validate(fd), Validate(r);
    forall key ensures key in e <==> key in e' {
      match key
      case TargetAudience =>
      case TargetAudienceOther =>
      case RevenueModel =>
      case RevenueModelOther =>
      case InnovationLevel =>
    }
    assert e.Keys == e'.Keys;
  }

  /** A ticked audience list without the sentinel: whatever was typed in
      the audience "Other" box, it is not required and is not submitted. */
  lemma AudienceWithoutOtherIgnoresText(fd: FormData)
    requires |fd.targetAudience| > 0 && OtherOption !in fd.targetAudience
    ensures TargetAudience !in Validate(fd) && TargetAudienceOther !in Validate(fd)
    ensures ClearUnselectedOther(fd).targetAudienceOther == ""
    ensures IsFormValid(fd) <==> IsFormValid(fd.(targetAudienceOther := ""))
  {
  }

  /** The submit handler: inert while any error is present; otherwise it
      emits the normalised record. */
  method HandleSubmit(formData: FormData) returns (submitted: Option<FormData>)
    ensures submitted == None <==> !IsFormValid(formData)
    ensures submitted != None ==> submitted == Some(ClearUnselectedOther(formData))
    ensures submitted != None ==> IsFormValid(submitted.value)
  {
    if !IsFormValid(formData) {
      return None;
    }
    var processed := formData;
    if OtherOption !in processed.targetAudience {
      processed := processed.(targetAudienceOther := "");
    }
    if OtherOption !in processed.revenueModel {
      processed := processed.(revenueModelOther := "");
    }
    ClearUnselectedOtherKeepsErrors(formData);
    return Some(processed);
  }
}
