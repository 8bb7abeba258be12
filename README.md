# Job application form — a Dafny model

This project models the form controller of a single-page job application
form (`src/components/Jobform.js`). The controller has three parts:

- a **form record** with nine fields: full name, email, phone number,
  position, relevant experience, portfolio URL, management experience,
  the list of checked skills, and the interview time;
- a **change handler** that either toggles a skill in the list or replaces
  one text field;
- a **validator** and two **flag handlers**. The validator rebuilds an error
  map from scratch, field by field. Some rules apply whatever the position;
  others apply only to Developer, Designer or Manager. The submit handler
  sets `submitted` and `showModal` only when the map comes out empty, and the
  close handler clears `showModal`.

Modules, one per part of the component:

- `Patterns` (`patterns.dfy`): the two regular expressions as predicates
  over string indices. The unanchored email test `\S+@\S+\.\S+` holds if some
  substring matches. The anchored url test `^https?://\S+\.\S+$` must match
  the whole string. `\S` is every character outside JavaScript's `\s` class.
- `FormRecord` (`form_record.dfy`): the record, its initial value, and the
  pure part of the change handler. That is the skill append, the skill
  `filter`, and the replacement of one named text field.
- `Validation` (`validation.dfy`): one rule per key (`Rule`), the error map
  (`Errors`), a field-by-field statement of an acceptable record
  (`Acceptable`), and the properties the validator promises.
- `Jobform` (`jobform.dfy`): the component as a class. Its fields are
  `formData`, `errors`, `submitted` and `showModal`, and each handler is a
  method. The object invariant is that the modal is only open for a submitted
  form. `CollectErrors` builds the error map step by step, as the validator
  does; the three checks that depend on the position are in
  `PositionErrors`, which it calls.

JavaScript's conversion of text to a number (`isNaN(phoneNumber)`,
`relevantExperience <= 0`) is not modelled. It is a parameter instead: a
`Coercion` value holding two functions `isNumeric` and `nonPositive`. Every
general property holds whatever those two functions are. The two sample
applications are the exception: `Validation.DesignerApplicationPasses`
assumes that "5551234567" is numeric and "3" is not at most 0, and
`Validation.ManagerWithoutExperience` assumes that "5551234567" is numeric.
The messages are a `Message` datatype, and `Text` gives the exact string
shown for each one.

Two points about the skills are easy to miss:

- The skills are a list, not a set. Checking a box appends its value at the
  end. Unchecking removes every occurrence of the value.
- The list stays free of repetitions only because each box's `checked` state
  is bound to whether the list includes its value
  (`src/components/Jobform.js:183`, and likewise for the other nine boxes).
  `ClickKeepsDistinct` proves the invariant under that condition.

## Model

| member | source | states |
|---|---|---|
| `FormRecord.Initial` | src/components/Jobform.js:6-16 | the starting record has every text field empty and no skill |
| `FormRecord.SetField` | src/components/Jobform.js:31-35 | a non-checkbox change puts the value under its own name; every other text field and the skill list are unchanged |
| `FormRecord.Without` | src/components/Jobform.js:29 | filtering a value out leaves no occurrence of it, and keeps every other skill exactly as many times as before |
| `FormRecord.WithoutAppend` | src/components/Jobform.js:29 | filtering a concatenation filters each part in place, so the skills that stay keep their order |
| `FormRecord.WithoutAbsent` | src/components/Jobform.js:29 | filtering out a value that is not listed leaves the list unchanged |
| `FormRecord.ToggleSkill` | src/components/Jobform.js:27-29 | checking appends the value at the end after the unchanged old list; unchecking removes every occurrence and keeps the count of every other skill |
| `FormRecord.CheckThenUncheck` | src/components/Jobform.js:24-30 | checking and then unchecking a value that was not listed gives back the original list |
| `FormRecord.ClickKeepsDistinct` | src/components/Jobform.js:24-30 | when the event's checked flag is the opposite of whether the value is listed, a list without repetitions stays without repetitions; the value's membership flips and every other skill's stays the same |
| `FormRecord.Apply` | src/components/Jobform.js:22-37 | a checkbox event turns the skill list into the toggled list (its value appended when checked, filtered out when unchecked) and changes no text field; any other event changes only the text under its own name and leaves the skill list alone |
| `Patterns.IsSpace` | src/components/Jobform.js:45 | the characters of JavaScript's `\s` class (tab to carriage return, space, no-break space, the Unicode space separators, the line and paragraph separators, the byte order mark); every visible ASCII character is outside it |
| `Patterns.EmailPattern` | src/components/Jobform.js:45 | `\S+@\S+\.\S+` matches some substring: there are split points a < p < q < e with non-space runs in s[a..p], s[p+1..q] and s[q+1..e], an '@' at p and a '.' at q; a string that passes has at least five characters |
| `Patterns.EmailPatternIsShape` | src/components/Jobform.js:45 | the unanchored email test holds iff some '@' has a non-space character before it, and a later '.' is separated from it by a non-empty non-space run and followed by a non-space character |
| `Patterns.EmailPatternUnanchored` | src/components/Jobform.js:45 | text added before or after a string that passes the email test never makes it fail |
| `Patterns.UrlPattern` | src/components/Jobform.js:60 | `^https?://\S+\.\S+$` matches the whole string: "http://" or "https://", then a non-space run, a '.', and a non-space run up to the end; a string that passes has at least ten characters |
| `Patterns.SchemeLength` | src/components/Jobform.js:60 | the url starts with "http://" (7) or "https://" (8), or with neither (0) |
| `Patterns.UrlPatternCharacterized` | src/components/Jobform.js:60 | the anchored url test holds iff the string starts with the scheme, has no white space anywhere, and has a '.' after the scheme that is not the first or last character after it |
| `Patterns.UrlPatternAnchored` | src/components/Jobform.js:60 | a url that passes the test fails once white space is appended, because the pattern is anchored |
| `Validation.Text` | src/components/Jobform.js:42-70 | the exact text of each of the twelve messages the validator can set |
| `Validation.TextsDistinct` | src/components/Jobform.js:42-70 | no two messages share a text, so the text shown tells which check fired |
| `Validation.Rule` | src/components/Jobform.js:42-71 | the message each `if` of the validator leaves under its key, or none: always a message of that key's own field, and never one under the position |
| `Validation.Errors` | src/components/Jobform.js:40-71 | the error map has a key exactly when that key's rule fires, with that rule's message |
| `Validation.ErrorChainMeaning` | src/components/Jobform.js:40-71 | applying the rules one after another, in the validator's order, leaves each key holding what its own rule gave |
| `Validation.PassesIffAcceptable` | src/components/Jobform.js:73-74 | the error map is empty exactly when the record is acceptable field by field |
| `Validation.EmailOutcomes` | src/components/Jobform.js:43-47 | an empty email is required; a non-empty one without a matching substring is invalid; otherwise there is no email error; the two messages differ and never occur together |
| `Validation.PhoneOutcomes` | src/components/Jobform.js:48-52 | an empty phone number is required; a non-numeric one is invalid; otherwise there is no phone error |
| `Validation.AlwaysRequired` | src/components/Jobform.js:42-71 | full name, skills and interview time are flagged exactly when empty, whatever the position; position itself is never flagged |
| `Validation.OtherPositionsNotFlagged` | src/components/Jobform.js:53-65 | relevant experience is flagged only for Developer or Designer, the portfolio url only for Designer, and management experience only for Manager |
| `Validation.ExperienceOutcomes` | src/components/Jobform.js:53-57 | for Developer or Designer, empty experience is required; non-empty experience is flagged exactly when it coerces to a number at most 0 |
| `Validation.DesignerPortfolio` | src/components/Jobform.js:58-62 | for Designer, an empty url is required; a non-empty one is invalid exactly when it fails the anchored url test |
| `Validation.ManagerExperience` | src/components/Jobform.js:63-65 | for Manager, management experience is flagged as required exactly when it is empty |
| `Validation.StaleFieldsIgnored` | src/components/Jobform.js:53-65 | two records that differ only in fields the selected position does not use get the same error map |
| `Validation.EmptyFormErrors` | src/components/Jobform.js:39-75 | the empty record with no position is flagged on exactly full name, email, phone, skills and interview time |
| `Validation.DesignerApplicationPasses` | src/components/Jobform.js:39-75 | a complete Designer application ("jane@x.com", "https://jane.dev") gets an empty error map |
| `Validation.ManagerWithoutExperience` | src/components/Jobform.js:63-65 | a Manager application that is complete except for management experience gets only that one error |
| `Validation.EmailWithoutAt` | src/components/Jobform.js:43-47 | "not-an-email" gets the invalid message, not the required one |
| `Jobform.CollectErrors` | src/components/Jobform.js:40-71 | building the map check by check from empty, in the validator's order, produces exactly the chain of rules that defines the error map |
| `Jobform.PositionErrors` | src/components/Jobform.js:53-65 | the three position-dependent checks, applied in order to the map built so far, record exactly what their rules give |
| `Jobform.JobForm.constructor` | src/components/Jobform.js:6-20 | a new form has the initial record, no errors, and is not submitted with the modal closed |
| `Jobform.JobForm.HandleChange` | src/components/Jobform.js:22-37 | the record becomes the result of applying the event; errors and flags are untouched |
| `Jobform.JobForm.Validate` | src/components/Jobform.js:39-75 | the stored errors are replaced by the record's error map, not merged; the result is true iff the map is empty, iff the record is acceptable; the flags, and so the object invariant, are untouched |
| `Jobform.JobForm.HandleSubmit` | src/components/Jobform.js:77-83 | on an acceptable record both flags become true; otherwise both stay as they were; the errors are the record's error map |
| `Jobform.JobForm.HandleCloseModal` | src/components/Jobform.js:85-87 | closes the modal; the record, the errors and `submitted` stay as they were |
| `Jobform.ResubmitAfterClose` | src/components/Jobform.js:77-87 | submit, close, edit the full name and submit again on a valid record: the modal is open again over the edited record |

## Left out

- The rendered markup, the conditional display blocks and the summary view (`src/components/Jobform.js:89-312`). The markup is not modelled as such, but the model depends on three things it sets up. The `name` attributes of the inputs are the keys of `FormRecord.ScalarName`. Each skill box's `checked` is bound to whether the list includes its value (from line 183 on), which is the precondition of `FormRecord.ClickKeepsDistinct`. The conditional blocks show the experience, portfolio and management inputs for the same positions whose rules check them.
- Native browser constraint validation. The form has no `noValidate`. The email input has `type="email"` (line 107), so a browser refuses to submit a malformed address without ever calling `handleSubmit`. The experience input has `type="number"` (line 141), so a browser only lets numeric text into it. The model describes the handlers only: `Validation.EmailWithoutAt` states what the validator does with "not-an-email", not what a user of a browser sees.
- The `Modal` component is not part of this model. Its source is not shown.
- The stylesheet import.
- JavaScript number coercion: `isNaN` on the phone number and `<= 0` on the relevant experience are the uninterpreted functions of `Validation.Coercion`.
- Validation.ExperienceOutcomes: the claim that non-numeric experience is never flagged holds only if `nonPositive` is false on such text. In JavaScript, `NaN <= 0` is false. The model does not fix that value, because coercion is left open.
- The locale formatting of the interview time in the summary (`new Date(...).toLocaleString()`).
- React's batching and asynchronous state updates. Each handler is one atomic update. So the stale `...formData` spread in the text-input branch behaves the same as the functional update of the checkbox branch.
- FormRecord.Apply: an input whose name is not one of the form's text inputs is not modelled. JavaScript would add a new key to the record, and the validator never reads it.
- That validation depends on nothing but the record is not a separate lemma: `Validation.Errors` is a Dafny function, so equal records give equal maps.
