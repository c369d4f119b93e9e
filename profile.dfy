/**
 * The profile page: the validators for the three editable fields, the error
 * map they maintain, and the form's save and cancel actions.
 */
module Profile {
  import opened Js

  /** The fields that have an edit button. */
  const EditableFields: set<string> := {"name", "email", "phone"}

  // ---------------------------------------------------------------------------
  // The e-mail pattern ^[^\s@]+@[^\s@]+\.[^\s@]+$

  /** A run matched by `[^\s@]*`. */
  predicate NoSpaceOrAt(s: string) {
    forall k :: 0 <= k < |s| ==> !IsSpace(s[k]) && s[k] != '@'
  }

  /** `v` splits as local part, '@' at `i`, domain, '.' at `j`, suffix, each of
      the three parts non-empty and free of white space and '@'. */
  predicate SplitsAt(v: string, i: int, j: int) {
    && 0 < i && i + 1 < j && j + 1 < |v|
    && v[i] == '@' && v[j] == '.'
    && NoSpaceOrAt(v[..i]) && NoSpaceOrAt(v[i + 1..j]) && NoSpaceOrAt(v[j + 1..])
  }

  /** The strings the e-mail pattern accepts. */
  predicate EmailPattern(v: string) {
    exists i, j | 0 <= i < |v| && 0 <= j < |v| :: SplitsAt(v, i, j)
  }

  /** An accepted address contains no white space at all, so trimming leaves
      it as it is. */
  lemma EmailHasNoSpace(v: string)
    requires EmailPattern(v)
    ensures NoSpace(v) && v != ""
    ensures Trim(v) == v
  {
    var i, j :| 0 <= i < |v| && 0 <= j < |v| && SplitsAt(v, i, j);
    forall k | 0 <= k < |v| ensures !IsSpace(v[k]) {
      if k < i {
        assert v[k] == v[..i][k];
      } else if i < k < j {
        assert v[k] == v[i + 1..j][k - i - 1];
      } else if j < k {
        assert v[k] == v[j + 1..][k - j - 1];
      }
    }
    TrimNoSpace(v);
  }

  /** Any local part, domain and suffix free of white space and '@' make an
      accepted address. */
  lemma EmailOfParts(local: string, domain: string, suffix: string)
    requires local != [] && domain != [] && suffix != []
    requires NoSpaceOrAt(local) && NoSpaceOrAt(domain) && NoSpaceOrAt(suffix)
    ensures EmailPattern(local + "@" + domain + "." + suffix)
  {
    var v := local + "@" + domain + "." + suffix;
    var i, j := |local|, |local| + 1 + |domain|;
    assert v[..i] == local;
    assert v[i + 1..j] == domain;
    assert v[j + 1..] == suffix;
    assert SplitsAt(v, i, j);
  }

  /** Without an '@' after a non-empty local part nothing is accepted. */
  lemma EmailNeedsAt(v: string)
    requires forall k :: 0 < k < |v| ==> v[k] != '@'
    ensures !EmailPattern(v)
  {
  }

  // ---------------------------------------------------------------------------
  // Field validation

  /** A blank value has no digits. */
  lemma BlankHasNoDigits(v: string)
    requires Trim(v) == ""
    ensures DigitsOnly(v) == ""
  {
    BlankIsAllSpace(v);
    NoDigitsInSpace(v);
  }

  /** White space contains no digits. */
  lemma {:induction false} NoDigitsInSpace(v: string)
    requires AllSpace(v)
    ensures DigitsOnly(v) == ""
    decreases |v|
  {
    if v != [] {
      NoDigitsInSpace(v[1..]);
    }
  }

  /** The error a field's value produces, `None` when it passes: a blank value
      is missing; a name needs a length of two after trimming, counted in
      UTF-16 code units as JavaScript does; an e-mail
      address must match the pattern as typed; a phone number needs exactly
      ten digits once everything else is stripped. */
  function FieldError(field: string, value: string): (r: Option<string>)
    requires field in EditableFields
    ensures Trim(value) == "" <==> r.Some? && r.value == RequiredMessage(field)
    ensures field == "name" ==> (r.None? <==> Utf16Length(Trim(value)) >= 2)
    ensures field == "email" ==> (r.None? <==> EmailPattern(value))
    ensures field == "phone" ==> (r.None? <==> |DigitsOnly(value)| == 10)
  {
    if Trim(value) == "" then
      BlankHasNoDigits(value);
      Some(RequiredMessage(field))
    else if field == "name" then
      if Utf16Length(Trim(value)) < 2 then Some("Name must be at least 2 characters") else None
    else if field == "email" then
      if !EmailPattern(value) then Some("Please enter a valid email address") else None
    else
      if |DigitsOnly(value)| != 10 then Some("Please enter a valid 10-digit phone number") else None
  }

  /** A name of one character outside the Basic Multilingual Plane (an emoji,
      say) has length 2 in JavaScript and is accepted; one character inside it
      is too short. */
  lemma AstralCharacterIsLongEnough(c: char)
    requires !IsSpace(c)
    ensures FieldError("name", [c]).None? <==> c as int > 0xFFFF
  {
    TrimNoSpace([c]);
  }

  /** The message for a blank field. */
  function RequiredMessage(field: string): string {
    if field == "name" then "Name is required"
    else if field == "email" then "Email is required"
    else "Phone number is required"
  }

  /** `validateField`: a copy of the error map in which only the entry for the
      named field is set or removed (other names leave it unchanged), and
      whether the whole copy is empty. */
  method ValidateField(errors: map<string, string>, name: string, value: string)
    returns (newErrors: map<string, string>, valid: bool)
    ensures forall k :: k != name ==> (k in newErrors <==> k in errors)
    ensures forall k :: k != name && k in errors ==> newErrors[k] == errors[k]
    ensures name !in EditableFields ==> newErrors == errors
    ensures name in EditableFields ==>
              (name in newErrors <==> FieldError(name, value).Some?)
              && (name in newErrors ==> newErrors[name] == FieldError(name, value).value)
    ensures valid <==> newErrors == map[]
    ensures name in EditableFields ==> (valid <==> FieldError(name, value).None? && errors.Keys <= {name})
  {
    newErrors := errors;
    if name in EditableFields {
      match FieldError(name, value)
      case Some(message) =>
        newErrors := newErrors[name := message];
        assert name in newErrors;
      case None =>
        newErrors := newErrors - {name};
        assert newErrors.Keys == errors.Keys - {name};
    }
    valid := newErrors.Keys == {};
    if !valid {
      assert newErrors != map[];
    }
  }

  /** The value sent for a field: the name or e-mail address with the white
      space at both ends cut off; every digit of the phone number, in order,
      and nothing else. */
  function Normalize(field: string, value: string): (r: string)
    requires field in EditableFields
    ensures field != "phone" ==> IsTrimOf(r, value)
    ensures field == "phone" ==> forall k :: 0 <= k < |r| ==> IsDigit(r[k])
    ensures field == "phone" ==> IsSubsequence(r, value)
    ensures field == "phone" ==> forall c :: multiset(r)[c] == if IsDigit(c) then multiset(value)[c] else 0
  {
    if field == "phone" then
      FilterIsSubsequence(value, IsDigit);
      FilterCounts(value, IsDigit);
      DigitsOnly(value)
    else
      TrimIsTrimOf(value);
      Trim(value)
  }

  /** A value that passes validation is still valid once normalised, and
      normalising it again changes nothing; an accepted e-mail address is sent
      exactly as typed. */
  lemma SentValueRevalidates(field: string, value: string)
    requires field in EditableFields && FieldError(field, value).None?
    ensures FieldError(field, Normalize(field, value)).None?
    ensures Normalize(field, Normalize(field, value)) == Normalize(field, value)
    ensures field == "email" ==> Normalize(field, value) == value
  {
    if field == "phone" {
      var d := DigitsOnly(value);
      FilterKeepsAll(d, IsDigit);
      assert NoSpace(d);
      TrimNoSpace(d);
    } else if field == "email" {
      EmailHasNoSpace(value);
    } else {
      TrimIdempotent(value);
    }
  }

  // ---------------------------------------------------------------------------
  // The form

  /** The update endpoint chosen by the user's role. */
  datatype Endpoint = CustomerEndpoint | AgentEndpoint | AdminEndpoint

  /** The endpoint for a role, none for any other role. */
  function EndpointFor(role: Value): (r: Option<Endpoint>)
    ensures r == Some(CustomerEndpoint) <==> role == Text("Customer")
    ensures r == Some(AgentEndpoint) <==> role == Text("DeliveryAgent") || role == Text("Agent")
    ensures r == Some(AdminEndpoint) <==> role == Text("Admin")
  {
    if role == Text("Customer") then Some(CustomerEndpoint)
    else if role == Text("DeliveryAgent") || role == Text("Agent") then Some(AgentEndpoint)
    else if role == Text("Admin") then Some(AdminEndpoint)
    else None
  }

  /** The body of a profile update: the user's id and the one field's
      normalised value. */
  datatype ProfileUpdate = ProfileUpdate(endpoint: Endpoint, id: Value, field: string, value: string)

  /** How the update request ended: accepted, or failed with an HTTP status
      (when a response came back) and the server's message. */
  datatype SaveResponse = SaveAccepted | SaveRejected(status: Option<int>, serverMessage: Option<string>)

  /** `editField` with its first letter in upper case. */
  function Capitalized(s: string): (r: string)
    ensures |r| == |s|
    ensures s != [] ==> r[0] == UpperChar(s[0]) && r[1..] == s[1..]
  {
    if s == [] then [] else [UpperChar(s[0])] + s[1..]
  }

  /** The message after a failed update. */
  function FailureMessage(field: string, status: Option<int>, serverMessage: Option<string>): (r: string)
    ensures status == Some(409) ==> r == "This " + field + " is already in use. Please choose a different one."
    ensures status == Some(400) ==> r == "Invalid " + field + " format. Please check your input."
    ensures status != Some(409) && status != Some(400) && serverMessage.Some? && serverMessage.value != "" ==>
              r == serverMessage.value
    ensures status != Some(409) && status != Some(400) && (serverMessage.None? || serverMessage.value == "") ==>
              r == "Failed to update " + field + ". Please try again."
    ensures r != ""
  {
    if status == Some(409) then "This " + field + " is already in use. Please choose a different one."
    else if status == Some(400) then "Invalid " + field + " format. Please check your input."
    else match serverMessage
      case Some(m) => if m != "" then m else "Failed to update " + field + ". Please try again."
      case None => "Failed to update " + field + ". Please try again."
  }

  /** The profile form's state. */
  class ProfileForm {
    var profileData: map<string, string>
    var originalData: map<string, string>
    var message: string
    var isEditing: bool
    var editField: string
    var errors: map<string, string>

    /** Only the three editable fields are ever selected for editing. */
    ghost predicate Valid()
      reads this
    {
      editField == "" || editField in EditableFields
    }

    /** The empty form the page starts with. */
    constructor ()
      ensures Valid() && !isEditing && editField == "" && errors == map[] && originalData == map[]
      ensures message == ""
      ensures profileData == map["name" := "", "username" := "", "email" := "", "phone" := ""]
    {
      profileData := map["name" := "", "username" := "", "email" := "", "phone" := ""];
      originalData := map[];
      message := "";
      isEditing := false;
      editField := "";
      errors := map[];
    }

    /** The end of the profile fetch: the fetched fields become both the
        form's values and the saved values. */
    method ShowProfile(profileInfo: map<string, string>)
      requires Valid()
      modifies this
      ensures Valid()
      ensures profileData == profileInfo && originalData == profileInfo
      ensures message == old(message) && isEditing == old(isEditing) && editField == old(editField)
      ensures errors == old(errors)
    {
      profileData := profileInfo;
      originalData := profileInfo;
    }

    /** `handleChange`: store the typed value, clear the message, and
        re-validate when the field being typed in is the one being edited. */
    method HandleChange(name: string, value: string)
      requires Valid()
      modifies this
      ensures Valid()
      ensures profileData == old(profileData)[name := value]
      ensures message == "" && originalData == old(originalData)
      ensures isEditing == old(isEditing) && editField == old(editField)
      ensures !(isEditing && editField == name && name in EditableFields) ==> errors == old(errors)
      ensures isEditing && editField == name && name in EditableFields ==>
                && (forall k :: k != name ==> (k in errors <==> k in old(errors)))
                && (forall k :: k != name && k in errors ==> errors[k] == old(errors)[k])
                && (FieldError(name, value).None? <==> name !in errors)
                && (FieldError(name, value).Some? ==> errors[name] == FieldError(name, value).value)
    {
      profileData := profileData[name := value];
      message := "";
      if isEditing && editField == name {
        var newErrors, _ := ValidateField(errors, name, value);
        errors := newErrors;
      }
    }

    /** `handleEdit`: start editing one of the editable fields. */
    method HandleEdit(field: string)
      requires Valid() && field in EditableFields
      modifies this
      ensures Valid() && editField == field && isEditing && message == ""
      ensures profileData == old(profileData) && originalData == old(originalData) && errors == old(errors)
    {
      editField := field;
      isEditing := true;
      message := "";
    }

    /** `handleCancel`: leave edit mode, discard the edits and the errors. */
    method HandleCancel()
      modifies this
      ensures Valid()
      ensures !isEditing && editField == "" && message == "" && errors == map[]
      ensures profileData == originalData == old(originalData)
    {
      isEditing := false;
      editField := "";
      message := "";
      errors := map[];
      profileData := originalData;
    }

    /** `handleSubmit`, with the user of the session and the outcome of the
        update request (used only when a request is sent). Returns the
        request that was sent, if any. */
    method HandleSubmit(user: Option<JsObject>, response: SaveResponse) returns (request: Option<ProfileUpdate>)
      requires Valid()
      modifies this
      ensures Valid()
      ensures profileData == old(profileData)
      ensures user.None? || old(editField) == "" || old(editField) !in old(profileData) ==>
                request.None? && message == old(message) && errors == old(errors)
                && editField == old(editField) && isEditing == old(isEditing) && originalData == old(originalData)
      ensures user.Some? && old(editField) != "" && old(editField) in old(profileData) ==>
                var field := old(editField);
                var value := old(profileData)[field];
                var passes := FieldError(field, value).None? && old(errors).Keys <= {field};
                var sameAsSaved := field in old(originalData) && old(originalData)[field] == value;
                && (!passes ==>
                      && request.None? && message == "Please fix the validation errors before saving."
                      && editField == field && isEditing == old(isEditing) && originalData == old(originalData)
                      && errors != map[]
                      && (forall k :: k != field ==> (k in errors <==> k in old(errors)))
                      && (forall k :: k != field && k in errors ==> errors[k] == old(errors)[k])
                      && (field in errors <==> FieldError(field, value).Some?)
                      && (field in errors ==> errors[field] == FieldError(field, value).value))
                && (passes && sameAsSaved ==>
                      && request.None? && message == "No changes detected." && !isEditing && editField == ""
                      && originalData == old(originalData) && errors == map[])
                && (passes && !sameAsSaved ==>
                      && (request.Some? <==> EndpointFor(Get(user.value, "role")).Some?)
                      && (request.Some? ==>
                            request.value == ProfileUpdate(EndpointFor(Get(user.value, "role")).value,
                                                           Get(user.value, "id"), field, Normalize(field, value))))
                && (passes && !sameAsSaved && (request.None? || response.SaveAccepted?) ==>
                      && originalData == old(originalData)[field := value]
                      && message == Capitalized(field) + " updated successfully!"
                      && !isEditing && editField == "" && errors == map[])
                && (passes && !sameAsSaved && request.Some? && response.SaveRejected? ==>
                      && message == FailureMessage(field, response.status, response.serverMessage)
                      && errors == map[] && editField == field && isEditing == old(isEditing) && originalData == old(originalData))
    {
      if user.None? || editField == "" || editField !in profileData {
        return None;
      }
      var field := editField;
      var fieldValue := profileData[field];
      var newErrors, valid := ValidateField(errors, field, fieldValue);
      errors := newErrors;
      assert valid ==> errors == map[];
      if !valid {
        message := "Please fix the validation errors before saving.";
        return None;
      }
      if field in originalData && fieldValue == originalData[field] {
        message := "No changes detected.";
        isEditing := false;
        editField := "";
        return None;
      }
      message := "";
      var endpoint := EndpointFor(Get(user.value, "role"));
      request := None;
      if endpoint.Some? {
        request := Some(ProfileUpdate(endpoint.value, Get(user.value, "id"), field, Normalize(field, fieldValue)));
      }
      if request.Some? && response.SaveRejected? {
        message := FailureMessage(field, response.status, response.serverMessage);
        return;
      }
      originalData := originalData[field := profileData[field]];
      message := Capitalized(field) + " updated successfully!";
      isEditing := false;
      editField := "";
      errors := map[];
    }
  }
}
