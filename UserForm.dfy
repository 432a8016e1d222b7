/** The create/edit user dialog
    (frontend/src/features/UserManagementPage/components/UserFormModal.tsx):
    the form schema's rules, the payload `onSubmit` builds, which endpoint it
    calls, and what the dialog does once the call settles. */
module UserForm {
  import opened Common
  import RestApi

  /** The form's values; `id` is set in edit mode. */
  datatype FormValues = FormValues(id: Option<int>, name: string, email: string, password: Option<string>)

  const EmptyValues := FormValues(None, "", "", Some(""))

  /** A number is truthy when present and not zero. */
  predicate IdTruthy(id: Option<int>)
  {
    id.Some? && id.value != 0
  }

  predicate NameRule(name: string)
  {
    1 <= Utf16Length(name) <= 255
  }

  /** The two password refinements: an absent or empty password passes
      both; any other must have 6 to 255 UTF-16 code units, as zod counts. */
  predicate PasswordLengthRules(password: Option<string>)
  {
    && (!Truthy(password) || Utf16Length(password.value) >= 6)
    && (!Truthy(password) || Utf16Length(password.value) <= 255)
  }

  /** The object refinement: without a (truthy) id, a password is required. */
  predicate CreateNeedsPassword(values: FormValues)
  {
    !IdTruthy(values.id) ==> Truthy(values.password)
  }

  /** `userFormSchema` accepts the values. The e-mail format check is a
      library predicate, given as `emailValid`. */
  predicate SchemaAccepts(values: FormValues, emailValid: bool)
  {
    NameRule(values.name) && emailValid && PasswordLengthRules(values.password) && CreateNeedsPassword(values)
  }

  /** Accepted values have a name of 1 to 255 code units, and a password
      that is either empty or of 6 to 255 code units; without an id the
      password is not empty. */
  lemma AcceptedValues(values: FormValues, emailValid: bool)
    requires SchemaAccepts(values, emailValid)
    ensures 1 <= Utf16Length(values.name) <= 255 && emailValid
    ensures values.password.None? || values.password.value == "" || 6 <= Utf16Length(values.password.value) <= 255
    ensures !IdTruthy(values.id) ==> values.password.Some? && 6 <= Utf16Length(values.password.value) <= 255
  {
  }

  /** In edit mode an empty password is accepted (the current one is kept). */
  lemma EditAcceptsEmptyPassword(values: FormValues, emailValid: bool)
    requires IdTruthy(values.id) && NameRule(values.name) && emailValid
    requires values.password.None? || values.password == Some("")
    ensures SchemaAccepts(values, emailValid)
  {
  }

  /** A password of 1 to 5 code units is refused in either mode. */
  lemma ShortPasswordRefused(values: FormValues, emailValid: bool)
    requires values.password.Some? && 1 <= Utf16Length(values.password.value) < 6
    ensures !SchemaAccepts(values, emailValid)
  {
  }

  /** Three characters beyond the Basic Multilingual Plane are six code
      units: long enough for the password rules. */
  lemma AstralPasswordLongEnough()
    ensures PasswordLengthRules(Some("\U{1F600}\U{1F600}\U{1F600}"))
  {
    var p := "\U{1F600}\U{1F600}\U{1F600}";
    assert p[..2][..1] == p[..1];
    assert Utf16Length(p[..1]) == 2;
    assert Utf16Length(p[..2]) == 4;
  }

  datatype Mode = Create | Edit

  datatype Payload = Payload(name: string, email: string, password: Option<string>)

  datatype Request = CreateUser(payload: Payload) | UpdateUser(id: int, payload: Payload)

  /** `submitData`: name and e-mail, plus the password only when it is not
      empty, in both modes. */
  function SubmitData(mode: Mode, values: FormValues): (p: Payload)
    ensures p.name == values.name && p.email == values.email
    ensures p.password.Some? <==> Truthy(values.password)
    ensures p.password.Some? ==> p.password == values.password
  {
    var withCreatePassword := mode == Create && Truthy(values.password);
    var withEditPassword := mode == Edit && Truthy(values.password) && |values.password.value| > 0;
    Payload(values.name, values.email, if withCreatePassword || withEditPassword then values.password else None)
  }

  /** `update` only in edit mode with a truthy id; `create` otherwise. */
  function RequestFor(mode: Mode, values: FormValues): (r: Request)
    ensures r.UpdateUser? <==> mode == Edit && IdTruthy(values.id)
    ensures r.UpdateUser? ==> r.id == values.id.value
    ensures r.payload == SubmitData(mode, values)
  {
    if mode == Edit && IdTruthy(values.id) then UpdateUser(values.id.value, SubmitData(mode, values))
    else CreateUser(SubmitData(mode, values))
  }

  /** The user being edited, as the page passes it. */
  datatype EditedUser = EditedUser(id: int, name: string, email: string)

  /** The dialog: open or not, its current values and the values a reset
      returns to (react-hook-form's reset with values also makes them the
      new defaults), the requests it sent and how often it reported success
      to the page. */
  class Modal {
    var open: bool
    var values: FormValues
    var defaults: FormValues
    var requests: seq<Request>
    var successCalls: nat

    constructor (isOpen: bool)
      ensures open == isOpen && values == EmptyValues && defaults == EmptyValues
      ensures requests == [] && successCalls == 0
    {
      open := isOpen;
      values := EmptyValues;
      defaults := EmptyValues;
      requests := [];
      successCalls := 0;
    }

    /** The effect on mode and user: editing a user loads them with an empty
        password; create mode loads empty values; edit mode without a user
        leaves the form alone. */
    method Load(mode: Mode, user: Option<EditedUser>)
      modifies this
      ensures mode == Edit && user.Some? ==>
        values == FormValues(Some(user.value.id), user.value.name, user.value.email, Some("")) && defaults == values
      ensures mode == Create ==> values == EmptyValues && defaults == EmptyValues
      ensures mode == Edit && user.None? ==> values == old(values) && defaults == old(defaults)
      ensures open == old(open) && requests == old(requests) && successCalls == old(successCalls)
    {
      if mode == Edit && user.Some? {
        values := FormValues(Some(user.value.id), user.value.name, user.value.email, Some(""));
        defaults := values;
      } else if mode == Create {
        values := EmptyValues;
        defaults := EmptyValues;
      }
    }

    /** `onSubmit` (after the schema accepted the values): the request goes
        out through `callAPI`; unless that rejects, the form resets, the
        dialog closes and the page is told. A session expiry resolves
        `callAPI` and so takes this path too. On a rejection the dialog stays
        as it was. */
    method OnSubmit(mode: Mode, settled: RestApi.Settled<int>)
      modifies this
      ensures requests == old(requests) + [RequestFor(mode, old(values))]
      ensures defaults == old(defaults)
      ensures var result := RestApi.CallAPI(settled, RestApi.CallArgs(None, false)).result;
        && (!result.Rejected? ==> !open && values == defaults && successCalls == old(successCalls) + 1)
        && (result.Rejected? ==> open == old(open) && values == old(values) && successCalls == old(successCalls))
    {
      requests := requests + [RequestFor(mode, values)];
      var call := RestApi.CallAPI(settled, RestApi.CallArgs(None, false));
      if !call.result.Rejected? {
        values := defaults;
        open := false;
        successCalls := successCalls + 1;
      }
    }
  }

  /** Editing a user and saving sends an update with no password when the
      password was left empty. */
  method EditWithoutPassword(user: EditedUser, settled: RestApi.Settled<int>) returns (sent: Request)
    requires user.id != 0
    ensures sent == UpdateUser(user.id, Payload(user.name, user.email, None))
  {
    var modal := new Modal(true);
    modal.Load(Edit, Some(user));
    modal.OnSubmit(Edit, settled);
    sent := modal.requests[0];
  }
}
