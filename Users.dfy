/** The user administration endpoints (backend/app/Http/Controllers/UserController.php):
    the listing filter, the update of the validated fields, and deletion with
    its guard against deleting one's own account. */
module Users {
  import opened Common
  import opened Responses
  import ExceptionHandler
  import opened PhpNumeric

  /** A stored password is only ever the hash of what was submitted. */
  datatype Secret = HashOf(plain: string)

  datatype User = User(id: nat, name: string, email: string, password: Secret)

  // ---------------------------------------------------------------------
  // Listing

  /** `$request->filled(key)`: present, and not empty once trimmed. */
  predicate Filled(params: map<string, string>, key: string)
  {
    key in params && exists i :: 0 <= i < |params[key]| && params[key][i] !in PhpTrimmed
  }

  datatype UserQuery = UserQuery(perPage: int, name: Option<string>, email: Option<string>)

  function UserQueryOf(params: map<string, string>): (q: UserQuery)
    ensures q.perPage == (if "per_page" in params then Intval(params["per_page"]) else 10)
    ensures q.name.Some? <==> Filled(params, "name")
    ensures q.email.Some? <==> Filled(params, "email")
    ensures q.name.Some? ==> q.name.value == params["name"]
    ensures q.email.Some? ==> q.email.value == params["email"]
  {
    UserQuery(
      if "per_page" in params then Intval(params["per_page"]) else 10,
      if Filled(params, "name") then Some(params["name"]) else None,
      if Filled(params, "email") then Some(params["email"]) else None)
  }

  /** ASCII letters compare without regard to case, as SQLite's LIKE does. */
  function FoldCase(c: char): char
  {
    if 'A' <= c <= 'Z' then (c as int + 32) as char else c
  }

  function Folded(s: string): (r: string)
    ensures |r| == |s| && forall i :: 0 <= i < |s| ==> r[i] == FoldCase(s[i])
  {
    if s == [] then [] else [FoldCase(s[0])] + Folded(s[1..])
  }

  /** SQL LIKE without an escape character: `%` matches any run of
      characters, `_` any one character, and every other character itself. */
  predicate Like(s: string, pattern: string)
    decreases |pattern|, |s|
  {
    if pattern == [] then s == []
    else if pattern[0] == '%' then Like(s, pattern[1..]) || (s != [] && Like(s[1..], pattern))
    else s != [] && (pattern[0] == '_' || FoldCase(pattern[0]) == FoldCase(s[0])) && Like(s[1..], pattern[1..])
  }

  /** The pattern of a filter: `'%' . filter . '%'`. */
  function Infix(filter: string): string { "%" + filter + "%" }

  /** `where(column, 'like', '%' . filter . '%')` for each filter given. */
  predicate Listed(u: User, q: UserQuery)
  {
    && (q.name.Some? ==> Like(u.name, Infix(q.name.value)))
    && (q.email.Some? ==> Like(u.email, Infix(q.email.value)))
  }

  /** Text without the two wildcard characters. */
  predicate Plain(p: string)
  {
    forall i :: 0 <= i < |p| ==> p[i] != '%' && p[i] != '_'
  }

  /** A trailing `%` matches whatever is left. */
  lemma {:induction false} LikeRest(s: string)
    ensures Like(s, "%")
  {
    assert "%"[1..] == [];
    if s != [] {
      LikeRest(s[1..]);
    }
  }

  /** A plain prefix of a pattern matches the same number of characters, up to case. */
  lemma {:induction false} LikePlainPrefix(s: string, p: string, rest: string)
    requires Plain(p)
    ensures Like(s, p + rest) <==> |p| <= |s| && Folded(s[..|p|]) == Folded(p) && Like(s[|p|..], rest)
  {
    if p == [] {
      assert p + rest == rest && s[..0] == [] && s[0..] == s;
    } else {
      assert (p + rest)[0] == p[0] && (p + rest)[1..] == p[1..] + rest;
      if s != [] {
        LikePlainPrefix(s[1..], p[1..], rest);
        if |p| <= |s| {
          assert s[1..][|p| - 1..] == s[|p|..];
          assert s[..|p|][1..] == s[1..][..|p| - 1];
          assert Folded(s[..|p|]) == [FoldCase(s[0])] + Folded(s[1..][..|p| - 1]);
          assert Folded(p) == [FoldCase(p[0])] + Folded(p[1..]);
        }
      }
    }
  }

  /** A plain filter selects exactly the values that contain it, ignoring the
      case of ASCII letters. */
  lemma {:induction false} PlainFilterContains(s: string, filter: string)
    requires Plain(filter)
    ensures Like(s, Infix(filter)) <==> Contains(Folded(s), Folded(filter))
  {
    var pattern := Infix(filter);
    assert pattern[0] == '%' && pattern[1..] == filter + "%";
    LikePlainPrefix(s, filter, "%");
    if |filter| <= |s| {
      LikeRest(s[|filter|..]);
      assert Folded(s)[..|filter|] == Folded(s[..|filter|]);
    }
    if s != [] {
      PlainFilterContains(s[1..], filter);
      assert Folded(s)[1..] == Folded(s[1..]);
    }
  }

  /** A lone `_` is a wildcard: it selects every non-empty value. */
  lemma UnderscoreFilterMatchesNonEmpty(s: string)
    ensures Like(s, Infix("_")) <==> s != []
  {
    var pattern := Infix("_");
    assert pattern == "%_%" && pattern[1..] == "_%" && "_%"[1..] == "%";
    if s != [] {
      LikeRest(s[1..]);
    }
  }

  /** The users the query selects, in table order. */
  function ListUsers(users: seq<User>, q: UserQuery): (r: seq<User>)
    ensures |r| <= |users|
    ensures forall u :: u in r <==> u in users && Listed(u, q)
  {
    if users == [] then []
    else if Listed(users[0], q) then [users[0]] + ListUsers(users[1..], q)
    else ListUsers(users[1..], q)
  }

  /** A name filter of "_" lists every user with a non-empty name. */
  lemma UnderscoreFilterListsNamed(users: seq<User>, perPage: int)
    ensures forall u :: u in ListUsers(users, UserQuery(perPage, Some("_"), None)) <==> u in users && u.name != []
  {
    forall u: User {
      UnderscoreFilterMatchesNonEmpty(u.name);
    }
  }

  /** A name filter without wildcards lists exactly the users whose name
      contains it, ignoring the case of ASCII letters. */
  lemma PlainFilterListsContaining(users: seq<User>, perPage: int, name: string)
    requires Plain(name)
    ensures forall u :: u in ListUsers(users, UserQuery(perPage, Some(name), None)) <==>
      u in users && Contains(Folded(u.name), Folded(name))
  {
    forall u: User {
      PlainFilterContains(u.name, name);
    }
  }

  /** Without filled filters every user is listed, in order, and the page size is 10. */
  lemma {:induction false} UnfilteredListsAll(users: seq<User>, params: map<string, string>)
    requires !Filled(params, "name") && !Filled(params, "email") && "per_page" !in params
    ensures ListUsers(users, UserQueryOf(params)) == users
    ensures UserQueryOf(params).perPage == 10
  {
    if users != [] {
      UnfilteredListsAll(users[1..], params);
      assert [users[0]] + users[1..] == users;
    }
  }

  /** A blank filter (only spaces, tabs, line breaks) filters nothing. */
  lemma BlankFilterIgnored(params: map<string, string>)
    requires "name" in params && forall i :: 0 <= i < |params["name"]| ==> params["name"][i] in PhpTrimmed
    ensures UserQueryOf(params).name == None
  {
  }

  // ---------------------------------------------------------------------
  // Update and deletion

  /** The validated fields of an update; absent ones are left as they are. */
  datatype UserPatch = UserPatch(name: Option<string>, email: Option<string>, password: Option<string>)

  function Patched(u: User, p: UserPatch): (u': User)
    ensures u'.id == u.id
    ensures u'.name == (if p.name.Some? then p.name.value else u.name)
    ensures u'.email == (if p.email.Some? then p.email.value else u.email)
    ensures p.password.None? ==> u'.password == u.password
    ensures p.password.Some? ==> u'.password == HashOf(p.password.value)
  {
    User(u.id,
         if p.name.Some? then p.name.value else u.name,
         if p.email.Some? then p.email.value else u.email,
         if p.password.Some? then HashOf(p.password.value) else u.password)
  }

  function UserId(x: User): nat { x.id }

  datatype Outcome<T> = Done(response: Response<T>) | Thrown(error: ExceptionHandler.Throwable)

  const UserModel := "App\\Models\\User"
  const SelfDeletionMessage := "Cannot delete your own account"

  /** The users table. */
  class UserTable {
    var users: seq<User>

    constructor (initial: seq<User>)
      ensures users == initial
    {
      users := initial;
    }

    /** PUT /users/{id}: route model binding, then `update($request->validated())`. */
    method Update(id: nat, patch: UserPatch) returns (r: Outcome<User>)
      modifies this
      ensures IndexOfId(old(users), UserId, id).None? ==>
        users == old(users) && r == Thrown(ExceptionHandler.ModelNotFoundException(UserModel, ""))
      ensures IndexOfId(old(users), UserId, id).Some? ==>
        var i := IndexOfId(old(users), UserId, id).value;
        && users == old(users)[i := Patched(old(users)[i], patch)]
        && r == Done(Success(Some(users[i]), "Success"))
    {
      var found := IndexOfId(users, UserId, id);
      if found.None? {
        return Thrown(ExceptionHandler.ModelNotFoundException(UserModel, ""));
      }
      var i := found.value;
      users := users[i := Patched(users[i], patch)];
      r := Done(Success(Some(users[i]), "Success"));
    }

    /** DELETE /users/{id} by the signed-in user `authId`: refused with 403 for
        one's own account; otherwise the row is deleted and the reply is 204. */
    method Destroy(id: nat, authId: nat) returns (r: Outcome<User>)
      modifies this
      ensures IndexOfId(old(users), UserId, id).None? ==>
        users == old(users) && r == Thrown(ExceptionHandler.ModelNotFoundException(UserModel, ""))
      ensures IndexOfId(old(users), UserId, id).Some? && id == authId ==>
        users == old(users) && r == Thrown(ExceptionHandler.HttpException(403, SelfDeletionMessage))
      ensures IndexOfId(old(users), UserId, id).Some? && id != authId ==>
        var i := IndexOfId(old(users), UserId, id).value;
        && users == old(users)[..i] + old(users)[i + 1..]
        && r == Done(NoContent())
    {
      var found := IndexOfId(users, UserId, id);
      if found.None? {
        return Thrown(ExceptionHandler.ModelNotFoundException(UserModel, ""));
      }
      if id == authId {
        return Thrown(ExceptionHandler.HttpException(403, SelfDeletionMessage));
      }
      var i := found.value;
      users := users[..i] + users[i + 1..];
      r := Done(NoContent());
    }
  }

  /** Deleting another user removes exactly that user, when ids are unique. */
  lemma DestroyRemovesOnlyTarget(users: seq<User>, i: nat)
    requires i < |users|
    requires forall j, k :: 0 <= j < k < |users| ==> users[j].id != users[k].id
    ensures forall u :: u in users[..i] + users[i + 1..] <==> u in users && u.id != users[i].id
  {
    var rest := users[..i] + users[i + 1..];
    forall u | u in users && u.id != users[i].id ensures u in rest {
      var k :| 0 <= k < |users| && users[k] == u;
      if k < i { assert rest[k] == u; } else { assert rest[k - 1] == u; }
    }
    forall u | u in rest ensures u in users && u.id != users[i].id {
      var k :| 0 <= k < |rest| && rest[k] == u;
      if k < i { assert u == users[k]; } else { assert u == users[k + 1]; }
    }
  }

  /** The self-deletion refusal renders as a 403 envelope carrying the message and no data. */
  lemma SelfDeletionRendered()
    ensures var r := ExceptionHandler.RenderApiException(ExceptionHandler.HttpException(403, SelfDeletionMessage));
            Status(r) == 403 && r.body.message == SelfDeletionMessage && r.body.data == None
  {
    ExceptionHandler.OwnMessageKept(ExceptionHandler.HttpException(403, SelfDeletionMessage));
  }
}
