/**
 * The federation resolver: `OAuth2UserInfo` with its Google and Naver
 * readers, and `CustomOAuth2UserService.loadUser`, which turns a provider's
 * attribute map into a local account. Fetching the attributes from the
 * provider is outside the model: they arrive as a parameter.
 */
module OAuth2 {
  import opened Wrappers
  import opened Entity
  import opened Exceptions
  import opened Directory

  /** A JSON value of the attribute map, as far as the readers can tell
      values apart: a string, a nested object, null, or anything else. */
  datatype AttrValue = Text(text: string) | Object(fields: map<string, AttrValue>) | Null | OtherValue

  type Attributes = map<string, AttrValue>

  /** `(String) map.get(key)`: an absent key or a JSON null reads as null;
      a value that is not a string makes the cast throw. */
  function ReadString(attrs: Attributes, key: string): (r: Result<Option<string>, Exc>)
    ensures r.Success? && r.value.Some? <==> key in attrs && attrs[key].Text?
    ensures r.Success? && r.value.Some? ==> attrs[key] == Text(r.value.value)
    ensures r.Failure? ==> r.error == LibraryFault(ClassCast)
    ensures key !in attrs || attrs[key] == Null ==> r == Success(None)
    ensures r.Failure? <==> key in attrs && !attrs[key].Text? && !attrs[key].Null?
  {
    if key !in attrs then Success(None)
    else
      match attrs[key]
      case Text(s) => Success(Some(s))
      case Null => Success(None)
      case _ => Failure(LibraryFault(ClassCast))
  }

  /** The provider payload: which reader applies to the attribute map. */
  datatype UserInfo = Google(attributes: Attributes) | Naver(attributes: Attributes)

  /** One field of the payload. Google keeps the fields at top level; Naver
      nests them under "response", whose absence (or null) dereferences null
      and whose non-object value fails the cast to `Map`. */
  function Read(info: UserInfo, key: string): Result<Option<string>, Exc>
  {
    match info
    case Google(attrs) => ReadString(attrs, key)
    case Naver(attrs) =>
      if "response" !in attrs then Failure(LibraryFault(NullPointer))
      else
        match attrs["response"]
        case Object(response) => ReadString(response, key)
        case Null => Failure(LibraryFault(NullPointer))
        case _ => Failure(LibraryFault(ClassCast))
  }

  /** `getId`: Google's "sub", Naver's "response.id". */
  function Id(info: UserInfo): Result<Option<string>, Exc> {
    Read(info, if info.Google? then "sub" else "id")
  }

  function Name(info: UserInfo): Result<Option<string>, Exc> {
    Read(info, "name")
  }

  function Email(info: UserInfo): Result<Option<string>, Exc> {
    Read(info, "email")
  }

  /** `AuthProvider.valueOf(registrationId.toUpperCase())`. */
  function ProviderOf(info: UserInfo): (p: AuthProvider)
    ensures p != LOCAL
  {
    if info.Google? then GOOGLE else NAVER
  }

  /** Naver nests under "response" the layout Google keeps at top level:
      a Naver payload reads its name and email exactly as a Google payload
      made of its "response" object would, and its id from the key "id"
      where Google uses "sub". A Google read can only fail a cast. */
  lemma NaverNestsGoogleLayout(top: Attributes, response: Attributes)
    requires "response" in top && top["response"] == Object(response)
    ensures Name(Naver(top)) == Name(Google(response))
    ensures Email(Naver(top)) == Email(Google(response))
    ensures Id(Naver(top)) == Read(Google(response), "id")
    ensures Id(Google(top)).Failure? ==> Id(Google(top)).error == LibraryFault(ClassCast)
  {
  }

  /** The Naver reader sees only the "response" entry: payloads that agree
      on it read the same, whatever their top-level id, name or email. */
  lemma NaverIgnoresTopLevel(a: Attributes, b: Attributes, key: string)
    requires ("response" in a <==> "response" in b)
    requires "response" in a ==> a["response"] == b["response"]
    ensures Read(Naver(a), key) == Read(Naver(b), key)
  {
  }

  const UnsupportedPrefix: string := "Unsupported OAuth2 provider: "
  const EmailNotFoundCode: string := "Email not found from OAuth2 provider"

  /** `getOAuth2UserInfo`: an exact, case-sensitive match on the client
      registration id. */
  function UserInfoFor(registrationId: string, attrs: Attributes): (r: Result<UserInfo, Exc>)
    ensures r.Success? <==> registrationId in {"google", "naver"}
    ensures r.Success? ==> r.value.attributes == attrs && ProviderOf(r.value) == (if registrationId == "google" then GOOGLE else NAVER)
    ensures r.Failure? ==> r.error == OAuth2Failure(UnsupportedPrefix + registrationId)
  {
    if registrationId == "google" then Success(Google(attrs))
    else if registrationId == "naver" then Success(Naver(attrs))
    else Failure(OAuth2Failure(UnsupportedPrefix + registrationId))
  }

  /** The signed-in principal and the directory after the save. */
  datatype Resolved = Resolved(dir: Directory, principal: User)

  /** The known account at row `i` was renamed in place: every other row,
      and every other column of this one but the modification time, is as
      before. */
  ghost predicate RenamedInPlace(d: Directory, res: Resolved, i: nat) {
    && i < |d.rows| && |res.dir.rows| == |d.rows| && res.dir.nextId == d.nextId
    && res.dir.rows == d.rows[i := res.dir.rows[i]]
    && res.principal == d.rows[i].(name := res.principal.name)
    && res.dir.rows[i].(updatedAt := d.rows[i].updatedAt) == res.principal
  }

  /** A new federated account was appended for `email`. */
  ghost predicate CreatedFor(d: Directory, res: Resolved, email: string) {
    && res.dir.rows == d.rows + [res.principal]
    && res.dir.nextId == d.nextId + 1
    && res.principal.id == d.nextId
    && res.principal.email == email
    && res.principal.password == "" && res.principal.role == USER
  }

  /**
   * `loadUser`. The provider must supply a non-empty email. The account is
   * keyed by (provider, provider id), never by email: a known account only
   * gets the provider's current name, and keeps its stored email; an
   * unknown one is created with an empty password and role USER. Creating
   * fails when a row already holds the email, because the email column is
   * unique.
   */
  function LoadUser(d: Directory, registrationId: string, attrs: Attributes, now: nat): (r: Result<Resolved, Exc>)
    ensures registrationId !in {"google", "naver"} ==> r == Failure(OAuth2Failure(UnsupportedPrefix + registrationId))
    ensures r.Success? ==>
      var info := UserInfoFor(registrationId, attrs).value;
      && Email(info).Success? && Email(info).value.Some? && |Email(info).value.value| > 0
      && r.value.principal.provider == ProviderOf(info)
      && Id(info) == Success(r.value.principal.providerId)
      && Name(info) == Success(Some(r.value.principal.name))
      && ((exists i :: 0 <= i < |d.rows| && RenamedInPlace(d, r.value, i))
          || CreatedFor(d, r.value, Email(info).value.value))
    ensures r.Success? && Valid(d) ==> Valid(r.value.dir)
    ensures UserInfoFor(registrationId, attrs).Success? ==>
      var email := Email(UserInfoFor(registrationId, attrs).value);
      email == Success(None) || email == Success(Some("")) ==> r == Failure(OAuth2Failure(EmailNotFoundCode))
  {
    var info :- UserInfoFor(registrationId, attrs);
    var email :- Email(info);
    if email.None? || |email.value| == 0 then Failure(OAuth2Failure(EmailNotFoundCode))
    else
      var provider := ProviderOf(info);
      var id :- Id(info);
      match FindByProviderAndProviderId(d, provider, id)
      case NonUnique => Failure(LibraryFault(IncorrectResultSize))
      case Found(i, stored) =>
        var name :- Name(info);
        if name.None? then Failure(LibraryFault(DataIntegrityViolation))
        else
          var renamed := stored.(name := name.value);
          var saved :- Update(d, i, renamed, now);
          assert RenamedInPlace(d, Resolved(saved.dir, renamed), i);
          Success(Resolved(saved.dir, renamed))
      case NotFound =>
        var name :- Name(info);
        if name.None? then Failure(LibraryFault(DataIntegrityViolation))
        else
          var saved :- Insert(d, NewUser(email.value, "", name.value, USER, provider, id), now);
          Success(Resolved(saved.dir, saved.user))
  }

  /** Find-before-create keeps (provider, provider id) unique among
      federated accounts, which the schema itself does not enforce. */
  lemma {:induction false} FederatedUniquePreserved(d: Directory, registrationId: string, attrs: Attributes, now: nat)
    requires FederatedUnique(d)
    requires LoadUser(d, registrationId, attrs, now).Success?
    ensures FederatedUnique(LoadUser(d, registrationId, attrs, now).value.dir)
  {
    var res := LoadUser(d, registrationId, attrs, now).value;
    var info := UserInfoFor(registrationId, attrs).value;
    if exists i :: 0 <= i < |d.rows| && RenamedInPlace(d, res, i) {
      var i :| 0 <= i < |d.rows| && RenamedInPlace(d, res, i);
      assert forall j :: 0 <= j < |d.rows| ==>
        res.dir.rows[j].provider == d.rows[j].provider && res.dir.rows[j].providerId == d.rows[j].providerId;
    } else {
      assert CreatedFor(d, res, Email(info).value.value);
      assert FindByProviderAndProviderId(d, ProviderOf(info), res.principal.providerId).NotFound?;
      assert forall j :: 0 <= j < |d.rows| ==> res.dir.rows[j] == d.rows[j];
    }
  }

  /** A payload whose (provider, provider id) finds row `k` of a valid
      table resolves to that account and adds no row: the rename cannot
      clash, since the row keeps its own email. */
  lemma KnownAccountResolves(d: Directory, registrationId: string, attrs: Attributes, now: nat, k: nat)
    requires Valid(d)
    requires UserInfoFor(registrationId, attrs).Success?
    requires var info := UserInfoFor(registrationId, attrs).value;
      && Email(info).Success? && Email(info).value.Some? && |Email(info).value.value| > 0
      && Id(info).Success? && Name(info).Success? && Name(info).value.Some?
      && FindByProviderAndProviderId(d, ProviderOf(info), Id(info).value).Found?
      && FindByProviderAndProviderId(d, ProviderOf(info), Id(info).value).index == k
    ensures LoadUser(d, registrationId, attrs, now).Success?
    ensures |LoadUser(d, registrationId, attrs, now).value.dir.rows| == |d.rows|
    ensures LoadUser(d, registrationId, attrs, now).value.principal.id == d.rows[k].id
  {
    var info := UserInfoFor(registrationId, attrs).value;
    var found := FindByProviderAndProviderId(d, ProviderOf(info), Id(info).value);
    assert found.user == d.rows[k];
    var renamed := d.rows[k].(name := Name(info).value.value);
    assert forall j :: 0 <= j < |d.rows| && j != k ==> d.rows[j].email != renamed.email;
    assert Update(d, k, renamed, now).Success?;
  }

  /** Signing in again with the same provider payload finds the account the
      first sign-in left, resolves to the same account id and adds no row. */
  lemma {:induction false} RepeatSignInAddsNoAccount(d: Directory, registrationId: string, attrs: Attributes, t1: nat, t2: nat)
    requires Valid(d) && FederatedUnique(d)
    requires LoadUser(d, registrationId, attrs, t1).Success?
    ensures var first := LoadUser(d, registrationId, attrs, t1).value;
      && LoadUser(first.dir, registrationId, attrs, t2).Success?
      && |LoadUser(first.dir, registrationId, attrs, t2).value.dir.rows| == |first.dir.rows|
      && LoadUser(first.dir, registrationId, attrs, t2).value.principal.id == first.principal.id
  {
    var first := LoadUser(d, registrationId, attrs, t1).value;
    var d1 := first.dir;
    FederatedUniquePreserved(d, registrationId, attrs, t1);
    var info := UserInfoFor(registrationId, attrs).value;
    var k: nat;
    if exists i :: 0 <= i < |d.rows| && RenamedInPlace(d, first, i) {
      k :| 0 <= k < |d.rows| && RenamedInPlace(d, first, k);
    } else {
      k := |d.rows|;
    }
    assert d1.rows[k].provider == ProviderOf(info) && d1.rows[k].providerId == first.principal.providerId;
    assert d1.rows[k].id == first.principal.id;
    FindFederatedUnique(d1, ProviderOf(info), first.principal.providerId);
    var found := FindByProviderAndProviderId(d1, ProviderOf(info), first.principal.providerId);
    assert found.Found? && found.index == k;
    KnownAccountResolves(d1, registrationId, attrs, t2, k);
  }

  /** The `OAuth2User` the sign-in hands on shows the provider's current
      name, and none of the provider's payload: its attribute map is empty
      although the payload was not. */
  lemma PrincipalView(d: Directory, registrationId: string, attrs: Attributes, now: nat)
    requires LoadUser(d, registrationId, attrs, now).Success?
    ensures var p := LoadUser(d, registrationId, attrs, now).value.principal;
      && Name(UserInfoFor(registrationId, attrs).value) == Success(Some(DisplayName(p)))
      && |Entity.Attributes(p)| == 0 < |attrs|
  {
    var info := UserInfoFor(registrationId, attrs).value;
    if info.Google? {
      assert "email" in attrs;
    } else {
      assert "response" in attrs;
    }
  }

  /** A first sign-in whose email already belongs to another account (a
      local one, say) is refused by the unique email column: accounts are
      never linked by email. */
  lemma FirstSignInEmailTaken(d: Directory, registrationId: string, attrs: Attributes, now: nat, email: string)
    requires UserInfoFor(registrationId, attrs).Success?
    requires var info := UserInfoFor(registrationId, attrs).value;
      && Email(info) == Success(Some(email)) && |email| > 0
      && Id(info).Success? && Name(info).Success? && Name(info).value.Some?
      && FindByProviderAndProviderId(d, ProviderOf(info), Id(info).value).NotFound?
    requires ExistsByEmail(d, email)
    ensures LoadUser(d, registrationId, attrs, now) == Failure(LibraryFault(DataIntegrityViolation))
  {
  }

  /** A Google payload whose "email" is missing, null or empty is refused
      before any lookup, whatever the table holds. */
  lemma MissingEmailRejected(d: Directory, attrs: Attributes, now: nat)
    requires "email" !in attrs || attrs["email"] == Null || attrs["email"] == Text("")
    ensures LoadUser(d, "google", attrs, now) == Failure(OAuth2Failure(EmailNotFoundCode))
  {
  }

  /** A Naver payload without its "response" object fails on the null
      dereference, before any lookup. */
  lemma NaverPayloadWithoutResponse(d: Directory, attrs: Attributes, now: nat)
    requires "response" !in attrs
    ensures LoadUser(d, "naver", attrs, now) == Failure(LibraryFault(NullPointer))
  {
  }
}
