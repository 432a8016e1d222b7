/** The sidebar's user menu (frontend/src/components/nav-user.tsx): the avatar
    initials, the guarded logout, and the profile fetch that keeps the stored
    user fresh. Navigation is recorded as the route last navigated to. */
module NavUser {
  import opened Common
  import AuthStore

  const LoginRoute := "/login"

  /** The UTF-16 code unit `n[0]` reads from a word that starts with `c`:
      `c` itself inside the Basic Multilingual Plane, and otherwise the high
      surrogate of its pair, which is half a character. */
  function LeadUnit(c: char): (u: int)
    ensures 0 <= u < 0x1_0000
    ensures u == c as int <==> c as int < 0x1_0000
    ensures c as int >= 0x1_0000 ==> 0xD800 <= u < 0xDC00
  {
    if c as int < 0x1_0000 then c as int else 0xD800 + (c as int - 0x1_0000) / 0x400
  }

  /** `toUpperCase` on one code unit, for the ASCII letters; a lone
      surrogate is left as it is. */
  function UpperUnit(u: int): (v: int)
    ensures 0 <= u < 0x1_0000 ==> 0 <= v < 0x1_0000
    ensures (0 <= u < 0xD800 || 0xE000 <= u < 0x1_0000) ==> v == UpperChar(u as char) as int
    ensures 0xD800 <= u < 0xE000 ==> v == u
  {
    if 'a' as int <= u <= 'z' as int then u - 32 else u
  }

  /** `map((n) => n[0]).join("")`, as UTF-16 code units: the first unit of
      each word; an empty word gives `undefined`, which `join` writes as
      nothing. */
  function FirstUnits(words: seq<string>): (r: seq<int>)
    ensures |r| == |NonEmpty(words)|
    ensures forall k :: 0 <= k < |r| ==> r[k] == LeadUnit(NonEmpty(words)[k][0])
  {
    if words == [] then []
    else
      var rest := FirstUnits(words[1..]);
      if words[0] == "" then rest
      else
        assert NonEmpty(words) == [words[0]] + NonEmpty(words[1..]);
        [LeadUnit(words[0][0])] + rest
  }

  /** `getUserInitials`, as UTF-16 code units: the upper-cased first units
      of the non-empty space-separated words, cut to two units by `slice`. */
  function Initials(name: string): (r: seq<int>)
    ensures var words := NonEmpty(Split(name, ' '));
      && |r| == (if |words| < 2 then |words| else 2)
      && forall k :: 0 <= k < |r| ==> r[k] == UpperUnit(LeadUnit(words[k][0]))
  {
    var all := seq(|FirstUnits(Split(name, ' '))|, k requires 0 <= k < |FirstUnits(Split(name, ' '))| =>
      UpperUnit(FirstUnits(Split(name, ' '))[k]));
    if |all| < 2 then all else all[..2]
  }

  /** A two-word name gives the upper-cased first units of both words,
      however many spaces separate them; for words that start inside the
      Basic Multilingual Plane these are their two capitals. */
  lemma InitialsOfTwoWords(first: string, gap: nat, last: string)
    requires first != "" && last != "" && ' ' !in first && ' ' !in last
    ensures Initials(first + Spaces(gap + 1) + last) == [UpperUnit(LeadUnit(first[0])), UpperUnit(LeadUnit(last[0]))]
    ensures first[0] as int < 0x1_0000 && last[0] as int < 0x1_0000 ==>
      Initials(first + Spaces(gap + 1) + last) == [UpperChar(first[0]) as int, UpperChar(last[0]) as int]
  {
    var name := first + Spaces(gap + 1) + last;
    SplitSpaces(first, gap, last);
    assert NonEmpty(Split(name, ' ')) == [first, last] by {
      NonEmptyOfGap(first, gap, last);
    }
  }

  /** A name whose first word starts outside the Basic Multilingual Plane
      gets half a surrogate pair as its first initial: "\U{1F600} Bob" gives
      the lone unit 0xD83D followed by 'B'. */
  lemma AstralInitialIsHalfPair()
    ensures Initials("\U{1F600} Bob") == [0xD83D, 'B' as int]
  {
    InitialsOfTwoWords("\U{1F600}", 0, "Bob");
  }

  function Spaces(n: nat): (s: string)
    ensures |s| == n && forall k :: 0 <= k < n ==> s[k] == ' '
  {
    if n == 0 then [] else [' '] + Spaces(n - 1)
  }

  function Blanks(n: nat): (r: seq<string>)
    ensures |r| == n && forall k :: 0 <= k < n ==> r[k] == ""
  {
    if n == 0 then [] else [""] + Blanks(n - 1)
  }

  /** Splitting at a run of n + 1 spaces leaves n empty words in between. */
  lemma SplitSpaces(first: string, gap: nat, last: string)
    requires ' ' !in first && ' ' !in last
    ensures Split(first + Spaces(gap + 1) + last, ' ') == [first] + Blanks(gap) + [last]
  {
    SplitWithoutSep(first, ' ');
    SplitLeadingSpaces(gap, last);
    SpacesRegroup(first, gap, last);
    JoinWords(first, Spaces(gap) + last, Blanks(gap), last);
  }

  lemma SpacesRegroup(first: string, gap: nat, last: string)
    ensures first + Spaces(gap + 1) + last == first + [' '] + (Spaces(gap) + last)
  {
    assert Spaces(gap + 1) == [' '] + Spaces(gap);
  }

  lemma JoinWords(first: string, s: string, blanks: seq<string>, last: string)
    requires Split(first, ' ') == [first] && Split(s, ' ') == blanks + [last]
    ensures Split(first + [' '] + s, ' ') == [first] + blanks + [last]
  {
    SplitConcat(first, s, ' ');
  }

  /** Each leading space splits off one empty word. */
  lemma {:induction false} SplitLeadingSpaces(gap: nat, last: string)
    requires ' ' !in last
    ensures Split(Spaces(gap) + last, ' ') == Blanks(gap) + [last]
    decreases gap
  {
    if gap == 0 {
      SplitWithoutSep(last, ' ');
      assert Spaces(0) + last == last;
    } else {
      SplitLeadingSpaces(gap - 1, last);
      assert Spaces(gap) + last == [' '] + (Spaces(gap - 1) + last);
      SplitConsSep(Spaces(gap - 1) + last, ' ');
      assert Blanks(gap) + [last] == [""] + (Blanks(gap - 1) + [last]);
    }
  }

  lemma {:induction false} NonEmptyOfGap(first: string, gap: nat, last: string)
    requires first != "" && last != ""
    ensures NonEmpty([first] + Blanks(gap) + [last]) == [first, last]
  {
    var s := [first] + Blanks(gap) + [last];
    assert s[1..] == Blanks(gap) + [last];
    NonEmptyOfBlanks(gap, last);
  }

  lemma {:induction false} NonEmptyOfBlanks(gap: nat, last: string)
    requires last != ""
    ensures NonEmpty(Blanks(gap) + [last]) == [last]
    decreases gap
  {
    if gap > 0 {
      assert (Blanks(gap) + [last])[1..] == Blanks(gap - 1) + [last];
      NonEmptyOfBlanks(gap - 1, last);
    } else {
      assert Blanks(0) + [last] == [last];
    }
  }

  /** The component's own state: the logout guard, the fetch-in-progress ref,
      and what it asked of the server and the router. */
  class Menu {
    var isLoggingOut: bool
    var isFetching: bool
    var serverLogouts: nat
    var profileRequests: nat
    var navigatedTo: Option<string>

    constructor ()
      ensures !isLoggingOut && !isFetching && serverLogouts == 0 && profileRequests == 0 && navigatedTo.None?
    {
      isLoggingOut := false;
      isFetching := false;
      serverLogouts := 0;
      profileRequests := 0;
      navigatedTo := None;
    }

    /** `handleLogout`: ignored while a logout is under way; otherwise the
        server is asked to log out and, whether or not that fails, the store
        is signed out and the router goes to the login page. The flag is
        never cleared: the component leaves the page. */
    method HandleLogout(store: AuthStore.Store, serverFails: bool) returns (handled: bool)
      modifies this, store
      ensures handled <==> !old(isLoggingOut)
      ensures handled ==>
        && isLoggingOut && serverLogouts == old(serverLogouts) + 1
        && store.token.None? && !store.isAuthenticated && store.user.None?
        && navigatedTo == Some(LoginRoute)
      ensures !handled ==>
        && isLoggingOut == old(isLoggingOut) && serverLogouts == old(serverLogouts)
        && store.token == old(store.token) && store.isAuthenticated == old(store.isAuthenticated)
        && store.user == old(store.user) && navigatedTo == old(navigatedTo)
      ensures isFetching == old(isFetching) && profileRequests == old(profileRequests)
    {
      if isLoggingOut {
        return false;
      }
      isLoggingOut := true;
      serverLogouts := serverLogouts + 1;
      store.Logout();
      navigatedTo := Some(LoginRoute);
      return true;
    }

    /** The effect's guard: the profile is requested only with a truthy token
        and no request outstanding. */
    method StartProfileFetch(store: AuthStore.Store) returns (started: bool)
      modifies this
      ensures started <==> Truthy(store.token) && !old(isFetching)
      ensures started ==> isFetching && profileRequests == old(profileRequests) + 1
      ensures !started ==> isFetching == old(isFetching) && profileRequests == old(profileRequests)
      ensures isLoggingOut == old(isLoggingOut) && serverLogouts == old(serverLogouts)
      ensures navigatedTo == old(navigatedTo)
    {
      if !Truthy(store.token) || isFetching {
        return false;
      }
      isFetching := true;
      profileRequests := profileRequests + 1;
      return true;
    }

    /** The request settles: the user is stored, or, when it failed, the
        store is signed out and the router goes to the login page. The
        in-progress ref is cleared either way. */
    method FinishProfileFetch(store: AuthStore.Store, fetched: Option<AuthStore.AuthUser>)
      requires isFetching
      modifies this, store
      ensures !isFetching
      ensures fetched.Some? ==>
        && store.user == fetched && store.token == old(store.token)
        && store.isAuthenticated == old(store.isAuthenticated) && navigatedTo == old(navigatedTo)
      ensures fetched.None? ==>
        store.token.None? && !store.isAuthenticated && store.user.None? && navigatedTo == Some(LoginRoute)
      ensures isLoggingOut == old(isLoggingOut) && serverLogouts == old(serverLogouts)
      ensures profileRequests == old(profileRequests)
    {
      if fetched.Some? {
        store.SetUser(fetched.value);
      } else {
        store.Logout();
        navigatedTo := Some(LoginRoute);
      }
      isFetching := false;
    }
  }

  /** A second logout click while the first is running sends nothing more. */
  method DoubleClickLogout(store: AuthStore.Store) returns (requests: nat)
    modifies store
    ensures requests == 1
  {
    var menu := new Menu();
    var first := menu.HandleLogout(store, false);
    var second := menu.HandleLogout(store, true);
    requests := menu.serverLogouts;
  }
}
