/** The session service of services/auth.ts: the signed-in user, its listeners,
    and the order in which the token and the user are written to secure
    storage and handed to the API client. Storage is a key-to-text map; the
    API's answers are given to each operation. */
module Auth {
  import opened Wrappers
  import opened ApiTypes
  import opened Listeners
  import Api

  const TokenKey := "auth_token"
  const UserKey := "user_data"

  // ---------------------------------------------------------------------------
  // The stored form of a user: `JSON.stringify(user)` and `JSON.parse`

  /** The characters of a JSON string literal's body (section 7 of RFC 8259):
      quotation mark and reverse solidus are escaped. */
  function Escape(s: string): (r: string)
    ensures |r| >= |s|
  {
    if s == [] then []
    else if s[0] == '"' || s[0] == '\\' then ['\\', s[0]] + Escape(s[1..])
    else [s[0]] + Escape(s[1..])
  }

  /** Reads a string literal's body up to its closing quotation mark: the text
      it denotes and what follows the quotation mark. */
  function ParseStringBody(s: string): (r: Option<(string, string)>)
    ensures r.Some? ==> |r.value.1| < |s|
  {
    if s == [] then None
    else if s[0] == '"' then Some(([], s[1..]))
    else if s[0] == '\\' then
      if |s| >= 2 && (s[1] == '"' || s[1] == '\\') then
        match ParseStringBody(s[2..])
        case Some((v, rest)) => Some(([s[1]] + v, rest))
        case None => None
      else None
    else
      match ParseStringBody(s[1..])
      case Some((v, rest)) => Some(([s[0]] + v, rest))
      case None => None
  }

  lemma {:induction false} ParseEscaped(v: string, rest: string)
    ensures ParseStringBody(Escape(v) + "\"" + rest) == Some((v, rest))
  {
    var s := Escape(v) + "\"" + rest;
    if v == [] {
      assert s == ['"'] + rest;
    } else {
      var t := Escape(v[1..]) + "\"" + rest;
      ParseEscaped(v[1..], rest);
      var k := if v[0] == '"' || v[0] == '\\' then 2 else 1;
      assert s[k - 1] == v[0] && s[k..] == t by {
        if k == 2 {
          assert s == ['\\', v[0]] + t;
        } else {
          assert s == [v[0]] + t;
        }
      }
      ParseStep(s, k, v[0], v[1..], rest);
      assert [v[0]] + v[1..] == v;
    }
  }

  /** One step of `ParseStringBody`: a plain character (`k == 1`) or an escape
      (`k == 2`) at the head of `s`, then the rest of the body. */
  lemma ParseStep(s: string, k: nat, c: char, v: string, rest: string)
    requires k == 1 || k == 2
    requires k <= |s| && s[k - 1] == c
    requires k == 2 <==> s[0] == '\\'
    requires k == 2 ==> c == '"' || c == '\\'
    requires k == 1 ==> c != '"'
    requires ParseStringBody(s[k..]) == Some((v, rest))
    ensures ParseStringBody(s) == Some(([c] + v, rest))
  {
  }

  lemma {:induction false} ParsedIsEscaped(s: string)
    requires ParseStringBody(s).Some?
    ensures var (v, rest) := ParseStringBody(s).value; s == Escape(v) + "\"" + rest
  {
    if s[0] != '"' {
      var k := if s[0] == '\\' then 2 else 1;
      var c := s[k - 1];
      ParsedIsEscaped(s[k..]);
      var (v, rest) := ParseStringBody(s[k..]).value;
      ParseStep(s, k, c, v, rest);
      EscapeStep(c, v, rest, s, k);
    }
  }

  /** The escaped form of `[c] + v`, followed by the closing quotation mark and
      `rest`, is the escaped `c` followed by the rest. */
  lemma EscapeStep(c: char, v: string, rest: string, s: string, k: nat)
    requires k == 1 || k == 2
    requires k <= |s| && s[k - 1] == c
    requires k == 2 <==> s[0] == '\\'
    requires k == 2 ==> c == '"' || c == '\\'
    requires k == 1 ==> c != '"' && c != '\\'
    requires s[k..] == Escape(v) + "\"" + rest
    ensures s == Escape([c] + v) + "\"" + rest
  {
    assert ([c] + v)[1..] == v;
    if k == 2 {
      assert s == [s[0], s[1]] + s[2..];
    } else {
      assert s == [s[0]] + s[1..];
    }
  }

  /** What follows `p` at the head of `s`. */
  function AfterPrefix(p: string, s: string): (r: Option<string>)
    ensures r.Some? <==> |p| <= |s| && s[..|p|] == p
    ensures r.Some? ==> s == p + r.value
  {
    if |p| <= |s| && s[..|p|] == p then Some(s[|p|..]) else None
  }

  /** A member of the stored object: its opening text, then a string literal. */
  function ParseMember(opening: string, s: string): Option<(string, string)> {
    match AfterPrefix(opening, s)
    case Some(r) => ParseStringBody(r)
    case None => None
  }

  const IdOpening := "{\"id\":\""
  const EmailOpening := ",\"email\":\""
  const NameOpening := ",\"name\":\""

  /** `JSON.stringify(user)` for a user whose members are in the order id, email, name. */
  function EncodeUser(u: User): string {
    EncodeMember(IdOpening, u.id, EncodeMember(EmailOpening, u.email, EncodeMember(NameOpening, u.name, "}")))
  }

  /** A member's opening text and string literal, then the text that follows. */
  function EncodeMember(opening: string, v: string, rest: string): string {
    opening + (Escape(v) + "\"" + rest)
  }

  /** `JSON.parse` of a stored user; text of any other form is `None`. */
  function DecodeUser(s: string): Option<User> {
    match ParseMember(IdOpening, s)
    case None => None
    case Some((id, r1)) =>
      match ParseMember(EmailOpening, r1)
      case None => None
      case Some((email, r2)) =>
        match ParseMember(NameOpening, r2)
        case None => None
        case Some((name, r3)) =>
          if r3 == "}" then Some(User(id, email, name)) else None
  }

  lemma ParseMemberOf(opening: string, v: string, rest: string)
    ensures ParseMember(opening, EncodeMember(opening, v, rest)) == Some((v, rest))
  {
    ParseEscaped(v, rest);
  }

  /** What `setUser` stores, `getStoredUser` reads back. */
  lemma UserRoundTrip(u: User)
    ensures DecodeUser(EncodeUser(u)) == Some(u)
  {
    var tail2 := EncodeMember(NameOpening, u.name, "}");
    var tail1 := EncodeMember(EmailOpening, u.email, tail2);
    ParseMemberOf(IdOpening, u.id, tail1);
    ParseMemberOf(EmailOpening, u.email, tail2);
    ParseMemberOf(NameOpening, u.name, "}");
    DecodeMembers(EncodeUser(u), u, tail1, tail2);
  }

  lemma DecodeMembers(s: string, u: User, tail1: string, tail2: string)
    requires ParseMember(IdOpening, s) == Some((u.id, tail1))
    requires ParseMember(EmailOpening, tail1) == Some((u.email, tail2))
    requires ParseMember(NameOpening, tail2) == Some((u.name, "}"))
    ensures DecodeUser(s) == Some(u)
  {
  }

  lemma ParsedMember(opening: string, s: string)
    requires ParseMember(opening, s).Some?
    ensures var (v, rest) := ParseMember(opening, s).value; s == EncodeMember(opening, v, rest)
  {
    var r := AfterPrefix(opening, s).value;
    ParsedIsEscaped(r);
  }

  /** Only the text `setUser` would have stored for a user reads back as that user. */
  lemma DecodedIsEncoded(s: string)
    requires DecodeUser(s).Some?
    ensures s == EncodeUser(DecodeUser(s).value)
  {
    ParsedMember(IdOpening, s);
    var (id, r1) := ParseMember(IdOpening, s).value;
    ParsedMember(EmailOpening, r1);
    var (email, r2) := ParseMember(EmailOpening, r1).value;
    ParsedMember(NameOpening, r2);
    var (name, r3) := ParseMember(NameOpening, r2).value;
    assert DecodeUser(s).value == User(id, email, name) && r3 == "}";
    EncodeMembers(s, User(id, email, name), r1, r2);
  }

  lemma EncodeMembers(s: string, u: User, r1: string, r2: string)
    requires s == EncodeMember(IdOpening, u.id, r1)
    requires r1 == EncodeMember(EmailOpening, u.email, r2)
    requires r2 == EncodeMember(NameOpening, u.name, "}")
    ensures s == EncodeUser(u)
  {
  }

  /** `getStoredUser` on what storage holds under `UserKey`: nothing or the empty
      text gives null, and so does text that does not parse. */
  function ReadStoredUser(data: Option<string>): (u: Option<User>)
    ensures data.None? || data.value == "" ==> u.None?
    ensures u.Some? ==> data == Some(EncodeUser(u.value))
  {
    if data.None? || data.value == "" then None
    else
      var r := DecodeUser(data.value);
      assert r.Some? ==> data.value == EncodeUser(r.value) by {
        if r.Some? { DecodedIsEncoded(data.value); }
      }
      r
  }

  /** A stored user reads back as itself. */
  lemma StoredUserRoundTrip(u: User)
    ensures ReadStoredUser(Some(EncodeUser(u))) == Some(u)
  {
    UserRoundTrip(u);
  }

  /** Text cut short in the middle of a stored user is not valid JSON, so
      `JSON.parse` throws and the `catch` gives null. */
  lemma TruncatedUserIsNull(u: User, k: nat)
    requires k < |EncodeUser(u)|
    ensures ReadStoredUser(Some(EncodeUser(u)[..k])) == None
  {
    UserRoundTrip(u);
    NoProperPrefixDecodes(EncodeUser(u), k);
  }

  /** No proper prefix of readable user text is readable. */
  lemma NoProperPrefixDecodes(whole: string, k: nat)
    requires DecodeUser(whole).Some? && k < |whole|
    ensures DecodeUser(whole[..k]).None?
  {
    var p, q := whole[..k], whole[k..];
    assert whole == p + q;
    if DecodeUser(p).Some? {
      DecodeExtended(p, q);
    }
  }

  /** Reading a string literal's body does not look past its closing quotation
      mark: more text after it only lengthens what follows. */
  lemma {:induction false} ParseExtended(s: string, q: string)
    requires ParseStringBody(s).Some?
    ensures ParseStringBody(s + q) == Some((ParseStringBody(s).value.0, ParseStringBody(s).value.1 + q))
  {
    var sq := s + q;
    if s[0] == '"' {
      assert sq[0] == '"' && sq[1..] == s[1..] + q;
    } else {
      var k := if s[0] == '\\' then 2 else 1;
      var c := s[k - 1];
      var v, rest := ParseStringBody(s[k..]).value.0, ParseStringBody(s[k..]).value.1;
      ParseStep(s, k, c, v, rest);
      ParseExtended(s[k..], q);
      assert sq[0] == s[0] && sq[k - 1] == c && sq[k..] == s[k..] + q;
      ParseStep(sq, k, c, v, rest + q);
    }
  }

  lemma MemberExtended(opening: string, s: string, q: string)
    requires ParseMember(opening, s).Some?
    ensures var (v, rest) := ParseMember(opening, s).value; ParseMember(opening, s + q) == Some((v, rest + q))
  {
    var r := AfterPrefix(opening, s).value;
    assert (s + q)[..|opening|] == opening;
    assert (s + q)[|opening|..] == r + q;
    ParseExtended(r, q);
    assert ParseMember(opening, s) == ParseStringBody(r);
    assert ParseMember(opening, s + q) == ParseStringBody(r + q);
  }

  /** No stored user is followed by more text in another one's encoding: text
      after the closing brace makes the whole unreadable. */
  lemma DecodeExtended(s: string, q: string)
    requires DecodeUser(s).Some? && q != []
    ensures DecodeUser(s + q).None?
  {
    MemberExtended(IdOpening, s, q);
    var (id, r1) := ParseMember(IdOpening, s).value;
    MemberExtended(EmailOpening, r1, q);
    var (email, r2) := ParseMember(EmailOpening, r1).value;
    MemberExtended(NameOpening, r2, q);
    var (name, r3) := ParseMember(NameOpening, r2).value;
    assert r3 == "}";
    assert |r3 + q| > 1;
  }

  // ---------------------------------------------------------------------------
  // The service

  /** The effects of the service, in the order they happen. */
  datatype Effect =
    | TokenStored(token: string)
    | TokenDeleted
    | ApiTokenSet(token: string)
    | ApiTokenCleared
    | UserAssigned(user: Option<User>)
    | UserStored(stored: User)
    | UserDeleted
    | ListenersTold(user: Option<User>)

  class AuthService {
    var currentUser: Option<User>
    var listeners: seq<ListenerId>
    /** Secure store or local storage: key to text. */
    var storage: map<string, string>
    /** Every callback call made so far, with the user it was given. */
    var notifications: seq<(ListenerId, Option<User>)>
    /** Every effect so far, in order. */
    var effects: seq<Effect>
    const api: Api.ApiService

    constructor (client: Api.ApiService, persisted: map<string, string>)
      ensures api == client && storage == persisted
      ensures currentUser == None && listeners == [] && notifications == [] && effects == []
    {
      api := client;
      storage := persisted;
      currentUser := None;
      listeners := [];
      notifications := [];
      effects := [];
    }

    /** `getToken`: the stored token, or null. */
    function StoredToken(): Option<string>
      reads this
    {
      if TokenKey in storage then Some(storage[TokenKey]) else None
    }

    /** `getStoredUser` */
    function StoredUser(): Option<User>
      reads this
    {
      ReadStoredUser(if UserKey in storage then Some(storage[UserKey]) else None)
    }

    function GetCurrentUser(): Option<User>
      reads this
    {
      currentUser
    }

    /** `isLoggedIn` */
    function IsLoggedIn(): (b: bool)
      reads this
      ensures b <==> currentUser != None
    {
      currentUser.Some?
    }

    method AddListener(cb: ListenerId)
      modifies this`listeners
      ensures listeners == old(listeners) + [cb]
    {
      listeners := listeners + [cb];
    }

    /** The function `addListener` returns. */
    method Unsubscribe(cb: ListenerId)
      modifies this`listeners
      ensures listeners == Without(old(listeners), cb)
    {
      listeners := Without(listeners, cb);
    }

    /** Calls each listener once, in registration order. */
    method NotifyListeners(user: Option<User>)
      modifies this`notifications, this`effects
      ensures notifications == old(notifications) + Deliveries(listeners, user)
      ensures effects == old(effects) + [ListenersTold(user)]
    {
      var i := 0;
      while i < |listeners|
        invariant 0 <= i <= |listeners|
        invariant notifications == old(notifications) + Deliveries(listeners[..i], user)
        invariant effects == old(effects)
      {
        assert Deliveries(listeners[..i + 1], user) == Deliveries(listeners[..i], user) + [(listeners[i], user)];
        notifications := notifications + [(listeners[i], user)];
        i := i + 1;
      }
      assert listeners[..i] == listeners;
      effects := effects + [ListenersTold(user)];
    }

    /** `setToken`: storage first, then the API client. */
    method SetToken(token: string)
      modifies this`storage, this`effects, api`token
      ensures storage == old(storage)[TokenKey := token]
      ensures api.token == Some(token)
      ensures effects == old(effects) + [TokenStored(token), ApiTokenSet(token)]
    {
      storage := storage[TokenKey := token];
      effects := effects + [TokenStored(token)];
      api.SetToken(token);
      effects := effects + [ApiTokenSet(token)];
    }

    /** `removeToken`: storage first, then the API client. */
    method RemoveToken()
      modifies this`storage, this`effects, api`token
      ensures storage == old(storage) - {TokenKey}
      ensures api.token == None
      ensures effects == old(effects) + [TokenDeleted, ApiTokenCleared]
    {
      storage := storage - {TokenKey};
      effects := effects + [TokenDeleted];
      api.ClearToken();
      effects := effects + [ApiTokenCleared];
    }

    /** `setUser`: the user becomes current, is stored, and every listener is
        told once with it. */
    method SetUser(u: User)
      modifies this`currentUser, this`storage, this`notifications, this`effects
      ensures currentUser == Some(u)
      ensures storage == old(storage)[UserKey := EncodeUser(u)]
      ensures StoredUser() == Some(u)
      ensures notifications == old(notifications) + Deliveries(listeners, Some(u))
      ensures effects == old(effects) + [UserAssigned(Some(u)), UserStored(u), ListenersTold(Some(u))]
    {
      currentUser := Some(u);
      effects := effects + [UserAssigned(Some(u))];
      storage := storage[UserKey := EncodeUser(u)];
      effects := effects + [UserStored(u)];
      StoredUserRoundTrip(u);
      NotifyListeners(Some(u));
    }

    /** `removeUser`: nobody is current, the stored user is deleted, and every
        listener is told once with null. */
    method RemoveUser()
      modifies this`currentUser, this`storage, this`notifications, this`effects
      ensures currentUser == None
      ensures storage == old(storage) - {UserKey}
      ensures StoredUser() == None
      ensures notifications == old(notifications) + Deliveries(listeners, None)
      ensures effects == old(effects) + [UserAssigned(None), UserDeleted, ListenersTold(None)]
    {
      currentUser := None;
      effects := effects + [UserAssigned(None)];
      storage := storage - {UserKey};
      effects := effects + [UserDeleted];
      NotifyListeners(None);
    }

    /** `login` and `register` once the API has answered: the token is stored and
        handed to the client before the user is set. A failed call changes
        nothing and is passed on. */
    method SignIn(response: Result<AuthResponse, Api.ApiError>) returns (failure: Option<Api.ApiError>)
      modifies this`currentUser, this`storage, this`notifications, this`effects, api`token
      ensures response.Err? ==>
        && failure == Some(response.error)
        && currentUser == old(currentUser) && storage == old(storage) && api.token == old(api.token)
        && notifications == old(notifications) && effects == old(effects)
      ensures response.Ok? ==>
        var AuthResponse(token, u) := response.value;
        && failure == None
        && currentUser == Some(u)
        && storage == old(storage)[TokenKey := token][UserKey := EncodeUser(u)]
        && api.token == Some(token)
        && notifications == old(notifications) + Deliveries(listeners, Some(u))
        && effects == old(effects) + [TokenStored(token), ApiTokenSet(token), UserAssigned(Some(u)), UserStored(u), ListenersTold(Some(u))]
    {
      if response.Err? {
        return Some(response.error);
      }
      SetToken(response.value.accessToken);
      SetUser(response.value.user);
      failure := None;
    }

    /** `logout`: the token goes first (storage, then the client), then the user. */
    method Logout()
      modifies this`currentUser, this`storage, this`notifications, this`effects, api`token
      ensures currentUser == None && api.token == None
      ensures storage == old(storage) - {TokenKey, UserKey}
      ensures StoredToken() == None && StoredUser() == None
      ensures notifications == old(notifications) + Deliveries(listeners, None)
      ensures effects == old(effects) + [TokenDeleted, ApiTokenCleared, UserAssigned(None), UserDeleted, ListenersTold(None)]
    {
      RemoveToken();
      RemoveUser();
      assert storage == old(storage) - {TokenKey} - {UserKey};
    }

    /** `initialize`: with a non-empty stored token the client takes it and the
        profile is fetched (`profile` is its answer); a fetched user is set, a
        failure logs out. Without a token nothing changes. */
    method Initialize(profile: Result<User, Api.ApiError>) returns (user: Option<User>)
      modifies this`currentUser, this`storage, this`notifications, this`effects, api`token
      ensures var t := old(StoredToken());
        if t.None? || t.value == "" then
          && user == None
          && currentUser == old(currentUser) && storage == old(storage) && api.token == old(api.token)
          && notifications == old(notifications) && effects == old(effects)
        else if profile.Ok? then
          && user == Some(profile.value) && currentUser == user
          && api.token == t
          && storage == old(storage)[UserKey := EncodeUser(profile.value)]
          && notifications == old(notifications) + Deliveries(listeners, user)
          && effects == old(effects) + [ApiTokenSet(t.value), UserAssigned(user), UserStored(profile.value), ListenersTold(user)]
        else
          && user == None && currentUser == None && api.token == None
          && storage == old(storage) - {TokenKey, UserKey}
          && notifications == old(notifications) + Deliveries(listeners, None)
          && effects == old(effects) + [ApiTokenSet(t.value), TokenDeleted, ApiTokenCleared, UserAssigned(None), UserDeleted, ListenersTold(None)]
    {
      var t := StoredToken();
      if t.None? || t.value == "" {
        return None;
      }
      api.SetToken(t.value);
      effects := effects + [ApiTokenSet(t.value)];
      if profile.Ok? {
        SetUser(profile.value);
        user := Some(profile.value);
      } else {
        Logout();
        user := None;
      }
    }
  }
}
