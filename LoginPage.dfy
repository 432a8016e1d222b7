/** The login page (frontend/src/features/LoginPage/index.tsx): the form's
    schema, the grouping of schema issues into per-field messages, and the
    submit handler's success and failure paths. */
module LoginPage {
  import opened Common
  import AuthStore

  const EmailMessage := "Invalid email address"
  const PasswordMessage := "Password must be at least 6 characters"
  const LoginFailedMessage := "Invalid email or password"
  const HomeRoute := "/"

  /** A schema issue: the path of the offending value and its message. */
  datatype Issue = Issue(path: seq<string>, message: string)

  /** `loginFormSchema.safeParse`: an issue for an invalid e-mail (a library
      check, given as `emailValid`) and one for a password of fewer than six
      UTF-16 code units, in field order. */
  function LoginIssues(email: string, password: string, emailValid: bool): (issues: seq<Issue>)
    ensures issues == [] <==> emailValid && Utf16Length(password) >= 6
    ensures forall k :: 0 <= k < |issues| ==> |issues[k].path| == 1
  {
    (if emailValid then [] else [Issue(["email"], EmailMessage)])
    + (if Utf16Length(password) >= 6 then [] else [Issue(["password"], PasswordMessage)])
  }

  /** The issue is filed under `key`: its path starts with that (truthy) name. */
  predicate FiledUnder(issue: Issue, key: string)
  {
    issue.path != [] && issue.path[0] != "" && issue.path[0] == key
  }

  /** The messages filed under `key`, in issue order. */
  function MessagesFor(issues: seq<Issue>, key: string): (msgs: seq<string>)
    ensures |msgs| <= |issues|
  {
    if issues == [] then []
    else
      var last := issues[|issues| - 1];
      MessagesFor(issues[..|issues| - 1], key) + (if FiledUnder(last, key) then [last.message] else [])
  }

  /** The loop of `onSubmit`'s failure path: each issue with a truthy first
      path element appends its message to that field's list. */
  method GroupIssues(issues: seq<Issue>) returns (fieldErrors: map<string, seq<string>>)
    ensures forall key :: key in fieldErrors <==> MessagesFor(issues, key) != []
    ensures forall key :: key in fieldErrors ==> fieldErrors[key] == MessagesFor(issues, key)
  {
    fieldErrors := map[];
    var i := 0;
    while i < |issues|
      invariant 0 <= i <= |issues|
      invariant forall key :: key in fieldErrors <==> MessagesFor(issues[..i], key) != []
      invariant forall key :: key in fieldErrors ==> fieldErrors[key] == MessagesFor(issues[..i], key)
    {
      var issue := issues[i];
      assert issues[..i + 1][..i] == issues[..i];
      if issue.path != [] && issue.path[0] != "" {
        var key := issue.path[0];
        var prior := if key in fieldErrors then fieldErrors[key] else [];
        fieldErrors := fieldErrors[key := prior + [issue.message]];
      }
      i := i + 1;
    }
    assert issues[..i] == issues;
  }

  lemma {:induction false} NoMessages(issues: seq<Issue>, key: string)
    requires forall k :: 0 <= k < |issues| ==> !FiledUnder(issues[k], key)
    ensures MessagesFor(issues, key) == []
  {
    if issues != [] {
      NoMessages(issues[..|issues| - 1], key);
    }
  }

  /** The message a field displays (`errors.field[0]`) is that of the first
      issue filed under it. */
  lemma {:induction false} FirstMessageShown(issues: seq<Issue>, key: string, j: nat)
    requires j < |issues| && FiledUnder(issues[j], key)
    requires forall k :: 0 <= k < j ==> !FiledUnder(issues[k], key)
    ensures MessagesFor(issues, key) != [] && MessagesFor(issues, key)[0] == issues[j].message
  {
    var init := issues[..|issues| - 1];
    if j == |issues| - 1 {
      NoMessages(init, key);
    } else {
      FirstMessageShown(init, key, j);
    }
  }

  /** How the login request settled: a token and user, or an error carrying
      the server's message when it had a response. */
  datatype LoginOutcome = LoggedIn(token: string, user: AuthStore.AuthUser) | LoginFailed(serverMessage: Option<string>)

  class LoginForm {
    var errors: map<string, seq<string>>
    var isLoading: bool
    var requests: seq<(string, string)>
    var toasts: seq<string>
    var navigatedTo: Option<string>

    constructor ()
      ensures errors == map[] && !isLoading && requests == [] && toasts == [] && navigatedTo.None?
    {
      errors := map[];
      isLoading := false;
      requests := [];
      toasts := [];
      navigatedTo := None;
    }

    /** `onSubmit`: invalid values only set the grouped errors and send
        nothing. Valid ones clear the errors and send the request; a success
        stores the token and user and goes home; a failure shows the
        server's message, or the fixed one without it. */
    method OnSubmit(email: string, password: string, emailValid: bool, store: AuthStore.Store, outcome: LoginOutcome)
      modifies this, store
      ensures var issues := LoginIssues(email, password, emailValid);
        && (issues != [] ==>
              && (forall key :: key in errors <==> MessagesFor(issues, key) != [])
              && (forall key :: key in errors ==> errors[key] == MessagesFor(issues, key))
              && requests == old(requests) && toasts == old(toasts) && navigatedTo == old(navigatedTo)
              && store.token == old(store.token) && store.user == old(store.user)
              && store.isAuthenticated == old(store.isAuthenticated))
        && (issues == [] ==> errors == map[] && requests == old(requests) + [(email, password)])
        && (issues == [] && outcome.LoggedIn? ==>
              && store.token == Some(outcome.token) && store.isAuthenticated
              && store.user == Some(outcome.user) && navigatedTo == Some(HomeRoute) && toasts == old(toasts))
        && (issues == [] && outcome.LoginFailed? ==>
              && toasts == old(toasts) + [if Truthy(outcome.serverMessage) then outcome.serverMessage.value else LoginFailedMessage]
              && navigatedTo == old(navigatedTo) && store.token == old(store.token)
              && store.user == old(store.user) && store.isAuthenticated == old(store.isAuthenticated))
      ensures isLoading == old(isLoading) || !isLoading
    {
      var issues := LoginIssues(email, password, emailValid);
      if issues != [] {
        errors := GroupIssues(issues);
        return;
      }
      errors := map[];
      isLoading := true;
      requests := requests + [(email, password)];
      match outcome {
        case LoggedIn(token, user) =>
          store.SetAuth(token, Some(user));
          navigatedTo := Some(HomeRoute);
        case LoginFailed(serverMessage) =>
          toasts := toasts + [if Truthy(serverMessage) then serverMessage.value else LoginFailedMessage];
      }
      isLoading := false;
    }
  }

  /** A five-character password never reaches the server, and the password
      field shows the length message. */
  method ShortPasswordStaysLocal(email: string, store: AuthStore.Store, outcome: LoginOutcome)
    returns (sent: nat, shown: string)
    modifies store
    ensures sent == 0 && shown == PasswordMessage
  {
    var form := new LoginForm();
    form.OnSubmit(email, "12345", true, store, outcome);
    sent := |form.requests|;
    var issues := LoginIssues(email, "12345", true);
    assert issues == [Issue(["password"], PasswordMessage)];
    assert MessagesFor(issues, "password") == [PasswordMessage] by {
      assert issues[..0] == [];
    }
    shown := form.errors["password"][0];
  }
}
