/** The browser-side token store: the login response is read in one of two shapes,
    its tokens and user are written to `localStorage` and the access token to the
    `auth-token` cookie the route guard checks; signing out removes them again. */
module AuthStorage {
  import opened Wrappers
  import RouteGuard

  const ACCESS_TOKEN_KEY: string := "accessToken"
  const REFRESH_TOKEN_KEY: string := "refreshToken"
  const CURRENT_USER_KEY: string := "currentUser"

  /** The cookie the route guard reads, and the one holding the refresh token. */
  const AUTH_COOKIE: string := RouteGuard.AUTH_COOKIE
  const REFRESH_COOKIE: string := REFRESH_TOKEN_KEY

  /** Cookie lifetimes in seconds: one day and one week. */
  const AUTH_MAX_AGE: nat := 86400
  const REFRESH_MAX_AGE: nat := 604800

  /** `{ token }` in the nested shape; a missing token is `None`. */
  datatype TokenRef = TokenRef(token: Option<string>)

  /** `tokens: { access, refresh }` in the nested shape. */
  datatype TokenBundle = TokenBundle(access: Option<TokenRef>, refresh: Option<TokenRef>)

  /** The login response as far as `saveAuth` looks at it: the flat fields, the nested
      `tokens`, and the user, kept as its JSON text. A missing field is `None`. */
  datatype AuthResponse = AuthResponse(
    accessToken: Option<string>,
    refreshToken: Option<string>,
    user: Option<string>,
    tokens: Option<TokenBundle>)

  /** A string-or-undefined value taken as a condition. */
  predicate Truthy(v: Option<string>) {
    v.Some? && v.value != ""
  }

  /** `${v}` in a template literal: a missing value is written as `undefined`. */
  function TemplateText(v: Option<string>): (t: string)
    ensures v.Some? ==> t == v.value
    ensures v.None? ==> t == "undefined"
  {
    match v
    case Some(s) => s
    case None => "undefined"
  }

  /** The access token, refresh token and user `saveAuth` settles on. */
  datatype Credentials = Credentials(access: Option<string>, refresh: Option<string>, user: Option<string>)

  /** The two response shapes: the flat one when its access token is set, else the
      nested one when `tokens.access` is there (a missing `tokens.refresh` giving an
      empty refresh token), else nothing usable. */
  function CredentialsOf(data: AuthResponse): (c: Credentials)
    ensures Truthy(data.accessToken) ==> c == Credentials(data.accessToken, data.refreshToken, data.user)
    ensures !Truthy(data.accessToken) && data.tokens.Some? && data.tokens.value.access.Some? ==>
      && c.access == data.tokens.value.access.value.token
      && c.user == data.user
      && c.refresh == (match data.tokens.value.refresh case Some(r) => r.token case None => Some(""))
    ensures Truthy(c.access) ==>
      Truthy(data.accessToken) || (data.tokens.Some? && data.tokens.value.access.Some?)
  {
    if Truthy(data.accessToken) then
      Credentials(data.accessToken, data.refreshToken, data.user)
    else if data.tokens.Some? && data.tokens.value.access.Some? then
      var tokens := data.tokens.value;
      Credentials(tokens.access.value.token,
        if tokens.refresh.Some? then tokens.refresh.value.token else Some(""),
        data.user)
    else
      Credentials(Some(""), Some(""), None)
  }

  /** The first half of `saveAuth`: the locals assigned from whichever shape the
      response has. */
  method ReadCredentials(data: AuthResponse) returns (accessToken: Option<string>, refreshToken: Option<string>, user: Option<string>)
    ensures Credentials(accessToken, refreshToken, user) == CredentialsOf(data)
  {
    accessToken := Some("");
    refreshToken := Some("");
    user := None;
    if Truthy(data.accessToken) {
      accessToken := data.accessToken;
      refreshToken := data.refreshToken;
      user := data.user;
    } else if data.tokens.Some? && data.tokens.value.access.Some? {
      accessToken := data.tokens.value.access.value.token;
      refreshToken := if data.tokens.value.refresh.Some? then data.tokens.value.refresh.value.token else Some("");
      user := data.user;
    }
  }

  /** When the flat access token is set, the nested shape is not looked at. */
  lemma FlatShapeFirst(data: AuthResponse, tokens: Option<TokenBundle>)
    requires Truthy(data.accessToken)
    ensures CredentialsOf(data.(tokens := tokens)) == CredentialsOf(data)
  {
  }

  /** A nested response without `tokens.refresh` yields an empty refresh token, which
      is not stored. */
  lemma NestedWithoutRefresh(data: AuthResponse)
    requires !Truthy(data.accessToken) && data.tokens.Some? && data.tokens.value.access.Some?
    requires data.tokens.value.refresh.None?
    ensures CredentialsOf(data).refresh == Some("") && !Truthy(CredentialsOf(data).refresh)
  {
  }

  /** A cookie's value and `max-age`. */
  datatype Cookie = Cookie(value: string, maxAge: nat)

  /** `localStorage` and `document.cookie` as one store; `hasWindow` is false when the
      code runs on the server, where every operation does nothing. */
  class AuthStore {
    const hasWindow: bool
    var storage: map<string, string>
    var cookies: map<string, Cookie>

    constructor(hasWindow: bool, storage: map<string, string>, cookies: map<string, Cookie>)
      ensures this.hasWindow == hasWindow && this.storage == storage && this.cookies == cookies
    {
      this.hasWindow := hasWindow;
      this.storage := storage;
      this.cookies := cookies;
    }

    /** `localStorage.getItem(key)`, or null without a window. */
    function Item(key: string): (r: Option<string>)
      reads this
      ensures r.Some? <==> hasWindow && key in storage
      ensures r.Some? ==> r.value == storage[key]
    {
      if hasWindow && key in storage then Some(storage[key]) else None
    }

    /** `getAccessToken`. */
    function AccessToken(): (r: Option<string>)
      reads this
      ensures r.Some? <==> hasWindow && ACCESS_TOKEN_KEY in storage
      ensures r.Some? ==> r.value == storage[ACCESS_TOKEN_KEY]
    {
      Item(ACCESS_TOKEN_KEY)
    }

    /** `getRefreshToken`. */
    function RefreshToken(): (r: Option<string>)
      reads this
      ensures r.Some? <==> hasWindow && REFRESH_TOKEN_KEY in storage
      ensures r.Some? ==> r.value == storage[REFRESH_TOKEN_KEY]
    {
      Item(REFRESH_TOKEN_KEY)
    }

    /** `getCurrentUser`: the stored user, or null when it is absent, empty, or not
      JSON; `parses` says which texts `JSON.parse` accepts. */
    function CurrentUser(parses: string -> bool): (r: Option<string>)
      reads this
      ensures r.Some? <==> Truthy(Item(CURRENT_USER_KEY)) && parses(storage[CURRENT_USER_KEY])
      ensures r.Some? ==> r.value == storage[CURRENT_USER_KEY]
    {
      match Item(CURRENT_USER_KEY)
      case None => None
      case Some(raw) => if raw == "" then None else if parses(raw) then Some(raw) else None
    }

    /** The `auth-token` cookie the next request carries to the route guard. */
    function AuthCookie(): (r: Option<string>)
      reads this
      ensures r.Some? <==> AUTH_COOKIE in cookies
      ensures r.Some? ==> r.value == cookies[AUTH_COOKIE].value
    {
      if AUTH_COOKIE in cookies then Some(cookies[AUTH_COOKIE].value) else None
    }

    /** `saveAuth`: with a usable access token, it is stored and set as the auth cookie
        for a day; the refresh token is stored only when not empty, the user only when
        present, and the refresh cookie is set for a week whatever the refresh token
        is. Without a usable access token, or without a window, nothing changes. */
    method SaveAuth(data: AuthResponse)
      modifies this
      ensures var c := CredentialsOf(data);
        !(hasWindow && Truthy(c.access)) ==> storage == old(storage) && cookies == old(cookies)
      ensures var c := CredentialsOf(data);
        hasWindow && Truthy(c.access) ==>
          && storage == (
               var withAccess := old(storage)[ACCESS_TOKEN_KEY := c.access.value];
               var withRefresh := if Truthy(c.refresh) then withAccess[REFRESH_TOKEN_KEY := c.refresh.value] else withAccess;
               if c.user.Some? then withRefresh[CURRENT_USER_KEY := c.user.value] else withRefresh)
          && cookies == old(cookies)[AUTH_COOKIE := Cookie(c.access.value, AUTH_MAX_AGE)]
               [REFRESH_COOKIE := Cookie(TemplateText(c.refresh), REFRESH_MAX_AGE)]
      ensures var c := CredentialsOf(data);
        hasWindow && Truthy(c.access) ==>
          && AccessToken() == c.access
          && RefreshToken() == (if Truthy(c.refresh) then c.refresh else old(RefreshToken()))
          && RouteGuard.IsAuthenticated(AuthCookie())
    {
      if !hasWindow {
        return;
      }
      var accessToken, refreshToken, user := ReadCredentials(data);
      if Truthy(accessToken) {
        storage := storage[ACCESS_TOKEN_KEY := accessToken.value];
        if Truthy(refreshToken) {
          storage := storage[REFRESH_TOKEN_KEY := refreshToken.value];
        }
        if user.Some? {
          storage := storage[CURRENT_USER_KEY := user.value];
        }
        cookies := cookies[AUTH_COOKIE := Cookie(accessToken.value, AUTH_MAX_AGE)];
        cookies := cookies[REFRESH_COOKIE := Cookie(TemplateText(refreshToken), REFRESH_MAX_AGE)];
      }
    }

    /** `clearAuth`: the three items are removed and both cookies expired; afterwards
        every getter returns null and the route guard sees no token. Without a window
        nothing changes. */
    method ClearAuth()
      modifies this
      ensures !hasWindow ==> storage == old(storage) && cookies == old(cookies)
      ensures hasWindow ==>
        && storage == old(storage) - {ACCESS_TOKEN_KEY, REFRESH_TOKEN_KEY, CURRENT_USER_KEY}
        && cookies == old(cookies) - {AUTH_COOKIE, REFRESH_COOKIE}
        && !RouteGuard.IsAuthenticated(AuthCookie())
      ensures AccessToken().None? && RefreshToken().None?
      ensures forall parses: string -> bool :: CurrentUser(parses).None?
    {
      if !hasWindow {
        return;
      }
      storage := storage - {ACCESS_TOKEN_KEY};
      storage := storage - {REFRESH_TOKEN_KEY};
      storage := storage - {CURRENT_USER_KEY};
      cookies := cookies - {AUTH_COOKIE};
      cookies := cookies - {REFRESH_COOKIE};
    }
  }

  /** Without a window every getter returns null. */
  lemma ServerSideReadsNothing(store: AuthStore, parses: string -> bool)
    requires !store.hasWindow
    ensures store.AccessToken().None? && store.RefreshToken().None? && store.CurrentUser(parses).None?
  {
  }
}
