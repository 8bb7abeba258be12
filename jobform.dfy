/**
 The job form component: the record, the error map shown beside the inputs,
 and the two flags that open the summary modal. Each handler is one atomic
 update of that state.
 */
module Jobform {
  import opened Patterns
  import opened FormRecord
  import opened Validation

  class JobForm {
    var formData: FormData
    var errors: map<Name, Message>
    var submitted: bool
    var showModal: bool
    /** How the running JavaScript engine coerces text to numbers. */
    const js: Coercion

    /** The summary modal is only ever open for a form that was submitted. */
    ghost predicate Valid()
      reads this
    {
      showModal ==> submitted
    }

    /** A fresh form: empty record, no errors, not submitted, modal closed. */
    constructor (js: Coercion)
      ensures Valid()
      ensures formData == Initial() && errors == map[]
      ensures !submitted && !showModal && this.js == js
    {
      formData := FormData("", "", "", "", "", "", "", [], "");
      errors := map[];
      submitted := false;
      showModal := false;
      this.js := js;
    }

    /** The change handler: a checkbox event appends its value to the skill
        list or filters every occurrence of it out; any other input replaces
        the text under its name. Nothing but the record changes. */
    method HandleChange(e: Change)
      requires Valid()
      modifies this`formData
      ensures Valid()
      ensures formData == Apply(old(formData), e)
    {
      match e
      case Checkbox(value, checked) =>
        formData := formData.(additionalSkills := ToggleSkill(formData.additionalSkills, value, checked));
      case Input(name, value) =>
        formData := SetField(formData, name, value);
    }

    /** The validator: builds a new error map, stores it in place of the
        previous one, and reports whether it is empty. */
    method Validate() returns (ok: bool)
      requires Valid()
      modifies this`errors
      ensures Valid()
      ensures errors == Errors(formData, js)
      ensures ok <==> errors == map[]
      ensures ok <==> Acceptable(formData, js)
    {
      var temp := CollectErrors(formData, js);
      errors := temp;
      ok := |temp| == 0;
      PassesIffAcceptable(formData, js);
    }

    /** The submit handler: validates; on success marks the form submitted
        and opens the modal, otherwise leaves both flags as they were. */
    method HandleSubmit()
      requires Valid()
      modifies this`errors, this`submitted, this`showModal
      ensures Valid()
      ensures errors == Errors(formData, js)
      ensures Acceptable(formData, js) ==> submitted && showModal
      ensures !Acceptable(formData, js) ==> submitted == old(submitted) && showModal == old(showModal)
    {
      var ok := Validate();
      if ok {
        submitted := true;
        showModal := true;
      }
    }

    /** The close handler: closes the modal; the record, the errors and the
        submitted flag stay as they were. */
    method HandleCloseModal()
      requires Valid()
      modifies this`showModal
      ensures Valid()
      ensures !showModal
    {
      showModal := false;
    }
  }

  /** The body of the validator: starting from an empty map, each rule in
      turn records its message under its key when it fires. */
  method CollectErrors(f: FormData, js: Coercion) returns (temp: map<Name, Message>)
    ensures temp == ErrorChain(f, js)
  {
    temp := map[];
    ghost var before := temp;
    if f.fullName == "" {
      temp := temp[FullName := FullNameRequired];
    }
    assert temp == Put(before, FullName, Rule(f, js, FullName));
    before := temp;
    if f.email == "" {
      temp := temp[Email := EmailRequired];
    } else if !EmailPattern(f.email) {
      temp := temp[Email := EmailInvalid];
    }
    assert temp == Put(before, Email, Rule(f, js, Email));
    before := temp;
    if f.phoneNumber == "" {
      temp := temp[PhoneNumber := PhoneRequired];
    } else if !js.isNumeric(f.phoneNumber) {
      temp := temp[PhoneNumber := PhoneInvalid];
    }
    assert temp == Put(before, PhoneNumber, Rule(f, js, PhoneNumber));
    before := temp;
    temp := PositionErrors(f, js, temp);
    before := temp;
    if |f.additionalSkills| == 0 {
      temp := temp[AdditionalSkills := SkillsRequired];
    }
    assert temp == Put(before, AdditionalSkills, Rule(f, js, AdditionalSkills));
    before := temp;
    if f.interviewTime == "" {
      temp := temp[InterviewTime := InterviewRequired];
    }
    assert temp == Put(before, InterviewTime, Rule(f, js, InterviewTime));
  }

  /** The three checks of the validator that depend on the selected
      position, applied to the map m built so far. */
  method PositionErrors(f: FormData, js: Coercion, m: map<Name, Message>) returns (temp: map<Name, Message>)
    ensures temp == Put(Put(Put(m, RelevantExperience, Rule(f, js, RelevantExperience)),
      PortfolioURL, Rule(f, js, PortfolioURL)), ManagementExperience, Rule(f, js, ManagementExperience))
  {
    temp := m;
    ghost var before := temp;
    if NeedsExperience(f.position) && f.relevantExperience == "" {
      temp := temp[RelevantExperience := ExperienceRequired];
    } else if NeedsExperience(f.position) && js.nonPositive(f.relevantExperience) {
      temp := temp[RelevantExperience := ExperienceNotPositive];
    }
    assert temp == Put(before, RelevantExperience, Rule(f, js, RelevantExperience));
    before := temp;
    if f.position == Designer && f.portfolioURL == "" {
      temp := temp[PortfolioURL := PortfolioRequired];
    } else if f.position == Designer && !UrlPattern(f.portfolioURL) {
      temp := temp[PortfolioURL := PortfolioInvalid];
    }
    assert temp == Put(before, PortfolioURL, Rule(f, js, PortfolioURL));
    before := temp;
    if f.position == Manager && f.managementExperience == "" {
      temp := temp[ManagementExperience := ManagementRequired];
    }
    assert temp == Put(before, ManagementExperience, Rule(f, js, ManagementExperience));
  }

  /** After a successful submission and closing the modal, editing the full
      name and submitting again with data that is still valid reopens the
      modal over the updated record. */
  method ResubmitAfterClose(form: JobForm, name: string)
    requires form.Valid() && Acceptable(form.formData, form.js)
    requires name != ""
    modifies form
    ensures form.Valid()
    ensures form.submitted && form.showModal
    ensures form.formData == old(form.formData).(fullName := name)
    ensures form.errors == map[]
  {
    form.HandleSubmit();
    assert form.showModal;
    form.HandleCloseModal();
    assert form.submitted && !form.showModal;
    form.HandleChange(Input(FullName, name));
    form.HandleSubmit();
    PassesIffAcceptable(form.formData, form.js);
  }
}
