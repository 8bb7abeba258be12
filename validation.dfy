/**
 The job form's validation rules: for each key of the record, whether the
 record is flagged under that key and with which message, and the error map
 that collects them.
 */
module Validation {
  import opened Patterns
  import opened FormRecord

  datatype Option<T> = None | Some(value: T)

  /** JavaScript's coercion of a text field to a number, left uninterpreted:
      `isNumeric(s)` stands for `!isNaN(s)` and `nonPositive(s)` for `s <= 0`. */
  datatype Coercion = Coercion(isNumeric: string -> bool, nonPositive: string -> bool)

  /** The messages the validator can leave under a key. */
  datatype Message =
    | FullNameRequired
    | EmailRequired
    | EmailInvalid
    | PhoneRequired
    | PhoneInvalid
    | ExperienceRequired
    | ExperienceNotPositive
    | PortfolioRequired
    | PortfolioInvalid
    | ManagementRequired
    | SkillsRequired
    | InterviewRequired

  /** The key each message is shown under. */
  function KeyOf(msg: Message): Name {
    match msg
    case FullNameRequired => FullName
    case EmailRequired | EmailInvalid => Email
    case PhoneRequired | PhoneInvalid => PhoneNumber
    case ExperienceRequired | ExperienceNotPositive => RelevantExperience
    case PortfolioRequired | PortfolioInvalid => PortfolioURL
    case ManagementRequired => ManagementExperience
    case SkillsRequired => AdditionalSkills
    case InterviewRequired => InterviewTime
  }

  /** The text shown for each message: never empty, and a required-field
      message always ends in "required". */
  function Text(msg: Message): (r: string)
    ensures |r| > 8
  {
    match msg
    case FullNameRequired => "Full Name is required"
    case EmailRequired => "Email is required"
    case EmailInvalid => "Email is invalid"
    case PhoneRequired => "Phone Number is required"
    case PhoneInvalid => "Phone Number must be a valid number"
    case ExperienceRequired => "Relevant Experience is required"
    case ExperienceNotPositive => "Relevant Experience must be greater than 0"
    case PortfolioRequired => "Portfolio URL is required"
    case PortfolioInvalid => "Portfolio URL is invalid"
    case ManagementRequired => "Management Experience is required"
    case SkillsRequired => "At least one skill must be selected"
    case InterviewRequired => "Preferred Interview Time is required"
  }

  const Developer := "Developer"
  const Designer := "Designer"
  const Manager := "Manager"

  /** The positions for which relevant experience is asked. */
  predicate NeedsExperience(position: string) {
    position == Developer || position == Designer
  }

  /** No two messages share a text, so the text shown tells which rule fired. */
  lemma TextsDistinct(a: Message, b: Message)
    requires a != b
    ensures Text(a) != Text(b)
  {
  }

  /** The message the validator leaves under key n for record f, if any:
      always a message of that key's own field, and never one under the
      position. */
  function Rule(f: FormData, js: Coercion, n: Name): (r: Option<Message>)
    ensures r.Some? ==> KeyOf(r.value) == n
    ensures n == Position ==> r.None?
  {
    match n
    case FullName =>
      if f.fullName == "" then Some(FullNameRequired) else None
    case Email =>
      if f.email == "" then Some(EmailRequired)
      else if !EmailPattern(f.email) then Some(EmailInvalid)
      else None
    case PhoneNumber =>
      if f.phoneNumber == "" then Some(PhoneRequired)
      else if !js.isNumeric(f.phoneNumber) then Some(PhoneInvalid)
      else None
    case Position =>
      None
    case RelevantExperience =>
      if !NeedsExperience(f.position) then None
      else if f.relevantExperience == "" then Some(ExperienceRequired)
      else if js.nonPositive(f.relevantExperience) then Some(ExperienceNotPositive)
      else None
    case PortfolioURL =>
      if f.position != Designer then None
      else if f.portfolioURL == "" then Some(PortfolioRequired)
      else if !UrlPattern(f.portfolioURL) then Some(PortfolioInvalid)
      else None
    case ManagementExperience =>
      if f.position == Manager && f.managementExperience == "" then Some(ManagementRequired) else None
    case AdditionalSkills =>
      if |f.additionalSkills| == 0 then Some(SkillsRequired) else None
    case InterviewTime =>
      if f.interviewTime == "" then Some(InterviewRequired) else None
  }

  /** The map m with the message r, if any, recorded under key n. */
  function Put(m: map<Name, Message>, n: Name, r: Option<Message>): map<Name, Message> {
    if r.Some? then m[n := r.value] else m
  }

  /** The error map of record f, rebuilt from nothing by applying the rules
      in the validator's order: a key is present exactly when its rule fires,
      and holds that rule's message. */
  function Errors(f: FormData, js: Coercion): (m: map<Name, Message>)
    ensures forall n: Name :: n in m <==> Rule(f, js, n).Some?
    ensures forall n | n in m :: m[n] == Rule(f, js, n).value
  {
    ErrorChainMeaning(f, js);
    ErrorChain(f, js)
  }

  /** The rules applied one after the other, in the validator's order. */
  function ErrorChain(f: FormData, js: Coercion): map<Name, Message> {
    var m1 := Put(map[], FullName, Rule(f, js, FullName));
    var m2 := Put(m1, Email, Rule(f, js, Email));
    var m3 := Put(m2, PhoneNumber, Rule(f, js, PhoneNumber));
    var m4 := Put(m3, RelevantExperience, Rule(f, js, RelevantExperience));
    var m5 := Put(m4, PortfolioURL, Rule(f, js, PortfolioURL));
    var m6 := Put(m5, ManagementExperience, Rule(f, js, ManagementExperience));
    var m7 := Put(m6, AdditionalSkills, Rule(f, js, AdditionalSkills));
    Put(m7, InterviewTime, Rule(f, js, InterviewTime))
  }

  /** Each rule writes its own key only, so after the whole chain every key
      holds what its own rule gave. */
  lemma ErrorChainMeaning(f: FormData, js: Coercion)
    ensures forall n: Name :: n in ErrorChain(f, js) <==> Rule(f, js, n).Some?
    ensures forall n | n in ErrorChain(f, js) :: ErrorChain(f, js)[n] == Rule(f, js, n).value
  {
    var m := ErrorChain(f, js);
    forall n: Name ensures (n in m <==> Rule(f, js, n).Some?) && (n in m ==> m[n] == Rule(f, js, n).value) {
      match n
      case FullName =>
      case Email =>
      case PhoneNumber =>
      case Position =>
      case RelevantExperience =>
      case PortfolioURL =>
      case ManagementExperience =>
      case AdditionalSkills =>
      case InterviewTime =>
    }
  }

  /** A record the form accepts, stated field by field. */
  predicate Acceptable(f: FormData, js: Coercion) {
    && f.fullName != ""
    && f.email != "" && EmailPattern(f.email)
    && f.phoneNumber != "" && js.isNumeric(f.phoneNumber)
    && (NeedsExperience(f.position) ==> f.relevantExperience != "" && !js.nonPositive(f.relevantExperience))
    && (f.position == Designer ==> f.portfolioURL != "" && UrlPattern(f.portfolioURL))
    && (f.position == Manager ==> f.managementExperience != "")
    && |f.additionalSkills| > 0
    && f.interviewTime != ""
  }

  /** Validation passes, that is the error map is empty, exactly when the
      record is acceptable. */
  lemma PassesIffAcceptable(f: FormData, js: Coercion)
    ensures Errors(f, js) == map[] <==> Acceptable(f, js)
  {
    var m := Errors(f, js);
    if Acceptable(f, js) {
      forall n: Name ensures n !in m {
        assert Rule(f, js, n).None?;
      }
      assert m.Keys == {};
    } else {
      assert exists n: Name :: Rule(f, js, n).Some? by {
        if f.fullName == "" {
          assert Rule(f, js, FullName).Some?;
        } else if f.email == "" || !EmailPattern(f.email) {
          assert Rule(f, js, Email).Some?;
        } else if f.phoneNumber == "" || !js.isNumeric(f.phoneNumber) {
          assert Rule(f, js, PhoneNumber).Some?;
        } else if NeedsExperience(f.position) && (f.relevantExperience == "" || js.nonPositive(f.relevantExperience)) {
          assert Rule(f, js, RelevantExperience).Some?;
        } else if f.position == Designer && (f.portfolioURL == "" || !UrlPattern(f.portfolioURL)) {
          assert Rule(f, js, PortfolioURL).Some?;
        } else if f.position == Manager && f.managementExperience == "" {
          assert Rule(f, js, ManagementExperience).Some?;
        } else if |f.additionalSkills| == 0 {
          assert Rule(f, js, AdditionalSkills).Some?;
        } else {
          assert Rule(f, js, InterviewTime).Some?;
        }
      }
    }
  }

  /** The email field has exactly one of three outcomes: required when empty,
      invalid when non-empty without a substring of the email pattern, and no
      error otherwise; the two messages differ. */
  lemma EmailOutcomes(f: FormData, js: Coercion)
    ensures var m := Errors(f, js);
      && (Email in m && m[Email] == EmailRequired <==> f.email == "")
      && (Email in m && m[Email] == EmailInvalid <==> f.email != "" && !EmailPattern(f.email))
      && (Email !in m <==> f.email != "" && EmailPattern(f.email))
      && (Email in m ==> m[Email] == EmailRequired || m[Email] == EmailInvalid)
    ensures Text(EmailRequired) != Text(EmailInvalid)
  {
  }

  /** The phone field: required when empty, invalid when non-empty and not
      numeric, and no error otherwise. */
  lemma PhoneOutcomes(f: FormData, js: Coercion)
    ensures var m := Errors(f, js);
      && (PhoneNumber in m && m[PhoneNumber] == PhoneRequired <==> f.phoneNumber == "")
      && (PhoneNumber in m && m[PhoneNumber] == PhoneInvalid <==> f.phoneNumber != "" && !js.isNumeric(f.phoneNumber))
      && (PhoneNumber !in m <==> f.phoneNumber != "" && js.isNumeric(f.phoneNumber))
  {
  }

  /** The full name, the skill list and the interview time are flagged, each
      with its own message, exactly when empty, whatever the position. */
  lemma AlwaysRequired(f: FormData, js: Coercion)
    ensures var m := Errors(f, js);
      && (FullName in m <==> f.fullName == "")
      && (FullName in m ==> m[FullName] == FullNameRequired)
      && (AdditionalSkills in m <==> f.additionalSkills == [])
      && (AdditionalSkills in m ==> m[AdditionalSkills] == SkillsRequired)
      && (InterviewTime in m <==> f.interviewTime == "")
      && (InterviewTime in m ==> m[InterviewTime] == InterviewRequired)
      && Position !in m
  {
  }

  /** A field tied to a position is never flagged when that position is not
      the selected one. */
  lemma OtherPositionsNotFlagged(f: FormData, js: Coercion)
    ensures !NeedsExperience(f.position) ==> RelevantExperience !in Errors(f, js)
    ensures f.position != Designer ==> PortfolioURL !in Errors(f, js)
    ensures f.position != Manager ==> ManagementExperience !in Errors(f, js)
  {
  }

  /** For a developer or a designer, an empty relevant experience is required
      and a non-empty one is flagged exactly when it coerces to a number at most
      zero; a value that is not a number is not flagged for being one. */
  lemma ExperienceOutcomes(f: FormData, js: Coercion)
    requires NeedsExperience(f.position)
    ensures var m := Errors(f, js);
      && (f.relevantExperience == "" ==> RelevantExperience in m && m[RelevantExperience] == ExperienceRequired)
      && (f.relevantExperience != "" ==>
            (RelevantExperience in m <==> js.nonPositive(f.relevantExperience))
            && (RelevantExperience in m ==> m[RelevantExperience] == ExperienceNotPositive))
  {
  }

  /** For a designer, an empty portfolio url is required, and a non-empty one
      is flagged invalid exactly when it fails the anchored url pattern. */
  lemma DesignerPortfolio(f: FormData, js: Coercion)
    requires f.position == Designer
    ensures var m := Errors(f, js);
      && (f.portfolioURL == "" ==> PortfolioURL in m && m[PortfolioURL] == PortfolioRequired)
      && (f.portfolioURL != "" ==>
            (PortfolioURL in m <==> !UrlPattern(f.portfolioURL))
            && (PortfolioURL in m ==> m[PortfolioURL] == PortfolioInvalid))
  {
  }

  /** For a manager, the management experience is flagged as required exactly
      when it is empty. */
  lemma ManagerExperience(f: FormData, js: Coercion)
    requires f.position == Manager
    ensures var m := Errors(f, js);
      && (ManagementExperience in m <==> f.managementExperience == "")
      && (ManagementExperience in m ==> m[ManagementExperience] == ManagementRequired)
  {
  }

  /** Changing the position keeps the values typed into the fields of the
      other positions; validation does not read them, so two records that
      differ only in such stale fields have the same error map. */
  lemma StaleFieldsIgnored(f: FormData, g: FormData, js: Coercion)
    requires f.(relevantExperience := "", portfolioURL := "", managementExperience := "")
          == g.(relevantExperience := "", portfolioURL := "", managementExperience := "")
    requires NeedsExperience(f.position) ==> f.relevantExperience == g.relevantExperience
    requires f.position == Designer ==> f.portfolioURL == g.portfolioURL
    requires f.position == Manager ==> f.managementExperience == g.managementExperience
    ensures Errors(f, js) == Errors(g, js)
  {
    assert f.position == g.position;
    forall n: Name ensures Rule(f, js, n) == Rule(g, js, n) {
      if n == ManagementExperience {
        assert f.position == Manager ==> f.managementExperience == g.managementExperience;
      }
    }
  }

  /** All fields empty and no position: every field that does not depend on
      the position is flagged, and none of the others. */
  lemma EmptyFormErrors(js: Coercion)
    ensures Errors(Initial(), js).Keys == {FullName, Email, PhoneNumber, AdditionalSkills, InterviewTime}
    ensures Errors(Initial(), js)[Email] == EmailRequired
  {
    var m := Errors(Initial(), js);
    forall n: Name ensures n in m <==> n in {FullName, Email, PhoneNumber, AdditionalSkills, InterviewTime} {
      assert Rule(Initial(), js, n).Some? <==> n in {FullName, Email, PhoneNumber, AdditionalSkills, InterviewTime};
    }
  }

  /** A complete designer application passes validation. */
  lemma DesignerApplicationPasses(js: Coercion)
    requires js.isNumeric("5551234567") && !js.nonPositive("3")
    ensures Errors(FormData("Jane Doe", "jane@x.com", "5551234567", Designer, "3", "https://jane.dev", "",
                            ["Python"], "2024-01-01T10:00"), js) == map[]
  {
    var email, url := "jane@x.com", "https://jane.dev";
    SampleEmailPasses();
    SampleUrlPasses();
    PassesIffAcceptable(FormData("Jane Doe", email, "5551234567", Designer, "3", url, "",
                                 ["Python"], "2024-01-01T10:00"), js);
  }

  /** The sample address passes the email test: "jane" before the '@', "x"
      between it and the '.', "com" after. */
  lemma SampleEmailPasses()
    ensures EmailPattern("jane@x.com")
  {
    assert EmailMatchAt("jane@x.com", 0, 4, 6, 10);
  }

  /** The sample url passes the anchored url test: the scheme, then "jane",
      a '.', and "dev". */
  lemma SampleUrlPasses()
    ensures UrlPattern("https://jane.dev")
  {
    var url := "https://jane.dev";
    assert url[..8] == "https://";
    assert NonSpaceRun(url[8..], 0, 4) && url[8..][4] == '.' && NonSpaceRun(url[8..], 5, 8);
  }

  /** A manager application that is complete except for the management
      experience fails on that field alone. */
  lemma ManagerWithoutExperience(js: Coercion)
    requires js.isNumeric("5551234567")
    ensures Errors(FormData("Jane Doe", "jane@x.com", "5551234567", Manager, "", "", "",
                            ["Python"], "2024-01-01T10:00"), js)
         == map[ManagementExperience := ManagementRequired]
  {
    var f := FormData("Jane Doe", "jane@x.com", "5551234567", Manager, "", "", "", ["Python"], "2024-01-01T10:00");
    SampleEmailPasses();
    var m := Errors(f, js);
    forall n: Name ensures n in m <==> n == ManagementExperience {
      assert Rule(f, js, n).Some? <==> n == ManagementExperience;
    }
  }

  /** A non-empty email without an '@' is flagged invalid, not required. */
  lemma EmailWithoutAt(f: FormData, js: Coercion)
    requires f.email == "not-an-email"
    ensures Email in Errors(f, js) && Errors(f, js)[Email] == EmailInvalid
  {
    forall k | 0 <= k < |f.email| ensures f.email[k] != '@' { }
    assert !EmailPattern(f.email);
  }
}
