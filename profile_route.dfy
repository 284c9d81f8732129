/**
 * `PUT /api/user/profile`: the session check, the name and phone validation,
 * and the construction of the update document. The session lookup and the
 * database update are inputs: whether a session exists, and whether the
 * update found the user.
 */
module ProfileRoute {
  import opened Wrappers
  import opened Text
  import opened Regex
  import opened Patterns

  const Unauthorized := "Unauthorized"
  const NameTooShort := "Name must be at least 2 characters"
  const InvalidPhone := "Invalid Bangladeshi phone number"
  const UserNotFound := "User not found"
  const Updated := "Profile updated successfully"

  /** `!name || name.trim().length < 2` fails: a name is present and is at
      least two UTF-16 code units long once trimmed. */
  predicate NameAccepted(name: Option<string>) {
    name.Some? && JsLength(Trim(name.value)) >= 2
  }

  /** A single character outside the Basic Multilingual Plane is two code
      units long, so it is a long enough name. */
  lemma AstralNameAccepted()
    ensures NameAccepted(Some("\U{1F600}"))
  {
    var n := "\U{1F600}";
    assert !IsJsWhiteSpace(n[0]);
    assert Trim(n) == n;
  }

  /** `contact && contact.trim()` is falsy: no contact, or only whitespace. */
  predicate ContactBlank(contact: Option<string>) {
    contact.None? || Trim(contact.value) == ""
  }

  /**
   * The handler. `update` is the document handed to `findByIdAndUpdate`
   * (None when no update is issued); `found` says whether that update found
   * the user.
   */
  method Put(hasSession: bool, name: Option<string>, contact: Option<string>, found: bool)
    returns (status: int, message: string, update: Option<map<string, string>>)
    ensures !hasSession ==> status == 401 && message == Unauthorized && update == None
    ensures hasSession && !NameAccepted(name) ==> status == 400 && message == NameTooShort && update == None
    ensures (hasSession && NameAccepted(name) && !ContactBlank(contact) &&
             !Matches(PhonePattern, Trim(contact.value))) ==>
              status == 400 && message == InvalidPhone && update == None
    ensures update.Some? <==>
      hasSession && NameAccepted(name) &&
      (ContactBlank(contact) || Matches(PhonePattern, Trim(contact.value)))
    ensures update.Some? ==>
      && update.value.Keys <= {"name", "contact"}
      && "name" in update.value && update.value["name"] == Trim(name.value)
      && ("contact" in update.value <==> !ContactBlank(contact))
      && ("contact" in update.value ==>
            update.value["contact"] == Trim(contact.value) && |update.value["contact"]| == 11)
      && status == (if found then 200 else 404)
      && message == (if found then Updated else UserNotFound)
  {
    if !hasSession {
      return 401, Unauthorized, None;
    }
    if name.None? || name.value == "" || JsLength(Trim(name.value)) < 2 {
      return 400, NameTooShort, None;
    }
    var updateData := map["name" := Trim(name.value)];
    if contact.Some? && contact.value != "" && Trim(contact.value) != "" {
      var c := Trim(contact.value);
      if !Matches(PhonePattern, c) {
        return 400, InvalidPhone, None;
      }
      PhoneLength(c);
      updateData := updateData["contact" := c];
    }
    update := Some(updateData);
    if !found {
      return 404, UserNotFound, update;
    }
    status, message := 200, Updated;
  }
}
