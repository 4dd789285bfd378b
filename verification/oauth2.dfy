/** OAuth2 login: `CustomOAuth2UserService` reads a uniform user description out of
    each provider's attribute shape and builds the member's username from it;
    `CustomOAuth2LoginSuccessHandler` picks the post-login redirect from the
    `state` parameter. */
module OAuth2 {
  import opened Types
  import opened Text

  /** An attribute value as the provider sent it: text, a nested object, or anything else. */
  datatype Attribute = TextValue(s: string) | ObjectValue(entries: map<string, Attribute>) | OtherValue

  type Attributes = map<string, Attribute>

  /** What every provider is reduced to. */
  datatype UserInfo = UserInfo(oauthUserId: string, nickname: Option<string>, profileImgUrl: Option<string>)

  /** `attributes[key] as? String`: absent or not text gives `null`. */
  function TextOf(attributes: Attributes, key: string): (r: Option<string>)
    ensures r.Some? <==> key in attributes && attributes[key].TextValue?
    ensures r.Some? ==> attributes[key] == TextValue(r.value)
  {
    if key in attributes && attributes[key].TextValue? then Some(attributes[key].s) else None
  }

  /** `attributes[key] as? Map<String, Any>`. */
  function ObjectOf(attributes: Attributes, key: string): (r: Option<Attributes>)
    ensures r.Some? <==> key in attributes && attributes[key].ObjectValue?
    ensures r.Some? ==> attributes[key] == ObjectValue(r.value)
  {
    if key in attributes && attributes[key].ObjectValue? then Some(attributes[key].entries) else None
  }

  function UnsupportedProvider(providerType: string): string {
    "지원하지 않는 OAuth 제공자입니다: " + providerType
  }

  /** `extractUserInfo`: dispatch on the provider. KAKAO reads `properties`, NAVER
      reads `response` (each must be an object, else the login fails), GOOGLE reads
      the top level; any other provider fails with a message naming it. Missing or
      non-text nickname and image become `null`. */
  function ExtractUserInfo(principalName: string, attributes: Attributes, providerType: string)
    : (r: Result<UserInfo, string>)
    ensures providerType != "KAKAO" && providerType != "GOOGLE" && providerType != "NAVER" ==>
              r == Err(UnsupportedProvider(providerType))
    ensures providerType == "KAKAO" ==>
              match ObjectOf(attributes, "properties")
              case None => r.Err?
              case Some(props) =>
                r == Ok(UserInfo(principalName, TextOf(props, "nickname"), TextOf(props, "profile_image")))
    ensures providerType == "GOOGLE" ==>
              r == Ok(UserInfo(principalName, TextOf(attributes, "name"), TextOf(attributes, "picture")))
    ensures providerType == "NAVER" ==>
              match ObjectOf(attributes, "response")
              case None => r.Err?
              case Some(resp) =>
                r == Ok(UserInfo(TextOf(resp, "id").OrElse(principalName),
                                 TextOf(resp, "nickname"), TextOf(resp, "profile_image")))
  {
    if providerType == "KAKAO" then
      match ObjectOf(attributes, "properties")
      case None => Err("Kakao 사용자 정보가 없습니다")
      case Some(props) =>
        Ok(UserInfo(principalName, TextOf(props, "nickname"), TextOf(props, "profile_image")))
    else if providerType == "GOOGLE" then
      Ok(UserInfo(principalName, TextOf(attributes, "name"), TextOf(attributes, "picture")))
    else if providerType == "NAVER" then
      match ObjectOf(attributes, "response")
      case None => Err("Naver 사용자 정보가 없습니다")
      case Some(resp) =>
        Ok(UserInfo(TextOf(resp, "id").OrElse(principalName),
                    TextOf(resp, "nickname"), TextOf(resp, "profile_image")))
    else
      Err(UnsupportedProvider(providerType))
  }

  /** Extraction succeeds exactly for GOOGLE, for KAKAO with a `properties`
      object, and for NAVER with a `response` object. */
  lemma ExtractUserInfoSucceeds(principalName: string, attributes: Attributes, providerType: string)
    ensures ExtractUserInfo(principalName, attributes, providerType).Ok? <==>
              || providerType == "GOOGLE"
              || (providerType == "KAKAO" && "properties" in attributes && attributes["properties"].ObjectValue?)
              || (providerType == "NAVER" && "response" in attributes && attributes["response"].ObjectValue?)
  {
  }

  /** With the principal name held fixed, only the attributes a provider's branch
      names are read: changing any other top-level attribute changes nothing. */
  lemma ExtractUserInfoReadsOnlyNamedAttributes(principalName: string, attributes: Attributes,
                                                providerType: string, key: string, value: Attribute)
    requires key != "properties" && key != "name" && key != "picture" && key != "response"
    ensures ExtractUserInfo(principalName, attributes[key := value], providerType)
         == ExtractUserInfo(principalName, attributes, providerType)
  {
    var changed := attributes[key := value];
    assert ObjectOf(changed, "properties") == ObjectOf(attributes, "properties");
    assert ObjectOf(changed, "response") == ObjectOf(attributes, "response");
    assert TextOf(changed, "name") == TextOf(attributes, "name");
    assert TextOf(changed, "picture") == TextOf(attributes, "picture");
  }

  /** The provider's user id is the principal name, except that NAVER supplies its
      own when its `response` carries a text `id`. */
  lemma OAuthUserIdSource(principalName: string, attributes: Attributes, providerType: string)
    ensures var r := ExtractUserInfo(principalName, attributes, providerType);
            r.Ok? && r.value.oauthUserId != principalName ==>
              providerType == "NAVER" && "response" in attributes && attributes["response"].ObjectValue?
              && var resp := attributes["response"].entries;
                 "id" in resp && resp["id"] == TextValue(r.value.oauthUserId)
  {
  }

  /** What `loadUser` hands to the member service: the username built from the
      provider and the provider's user id, an empty password, and the profile. */
  datatype JoinRequest = JoinRequest(username: string, password: string, nickname: Option<string>,
                                     profileImgUrl: Option<string>)

  /** The username `<PROVIDER>__<provider user id>`. */
  function OAuthUsername(providerType: string, oauthUserId: string): string {
    providerType + "__" + oauthUserId
  }

  /** `loadUser` up to the member-service call: upper-case the registration id,
      extract the user info, and build the username. */
  function LoadUser(registrationId: string, principalName: string, attributes: Attributes)
    : (r: Result<JoinRequest, string>)
    ensures var info := ExtractUserInfo(principalName, attributes, AsciiUpper(registrationId));
            r.Ok? <==> info.Ok?
    ensures var info := ExtractUserInfo(principalName, attributes, AsciiUpper(registrationId));
            r.Ok? ==> r.value.username == OAuthUsername(AsciiUpper(registrationId), info.value.oauthUserId)
                      && r.value.password == ""
                      && r.value.nickname == info.value.nickname
                      && r.value.profileImgUrl == info.value.profileImgUrl
  {
    var providerType := AsciiUpper(registrationId);
    match ExtractUserInfo(principalName, attributes, providerType)
    case Err(msg) => Err(msg)
    case Ok(info) => Ok(JoinRequest(OAuthUsername(providerType, info.oauthUserId), "", info.nickname, info.profileImgUrl))
  }

  /** The provider and the provider's user id can be read back from the username:
      the provider is the text before the first `_`, the id everything after `__`. */
  lemma UsernameRoundTrip(providerType: string, oauthUserId: string)
    requires providerType == "KAKAO" || providerType == "GOOGLE" || providerType == "NAVER"
    ensures var u := OAuthUsername(providerType, oauthUserId);
            Split(u, '_', 2)[0] == providerType && u[|providerType| + 2..] == oauthUserId
  {
    var u := OAuthUsername(providerType, oauthUserId);
    var n := |providerType|;
    assert u[..n] == providerType && u[n] == '_' && u[n + 2..] == oauthUserId;
    assert '_' !in providerType;
    SplitAt(u, '_', 2, n);
  }

  /** A lower-case `google` registration id is accepted and upper-cased. */
  lemma RegistrationIdCaseIgnored(principalName: string, attributes: Attributes)
    ensures LoadUser("google", principalName, attributes).Ok?
    ensures LoadUser("google", principalName, attributes).value.username == "GOOGLE__" + principalName
  {
    assert AsciiUpper("google") == "GOOGLE";
  }

  // ---------------------------------------------------------------------------
  // Post-login redirect

  /** `extractRedirectUrl`: without a `state` parameter, or when it does not decode
      (base64url, then UTF-8; the decoder is an input), `/`; otherwise the decoded
      text before its first `#`. */
  function ExtractRedirectUrl(state: Option<string>, decodeState: string -> Option<string>): (r: string)
    ensures state.None? ==> r == "/"
    ensures state.Some? && decodeState(state.value).None? ==> r == "/"
    ensures state.Some? && decodeState(state.value).Some? ==>
              var decoded := decodeState(state.value).value;
              '#' !in r && StartsWith(decoded, r) && ('#' !in decoded ==> r == decoded)
  {
    match state
    case None => "/"
    case Some(s) =>
      match decodeState(s)
      case None => "/"
      case Some(decoded) =>
        SplitFirstPiece(decoded, '#', 2);
        Split(decoded, '#', 2)[0]
  }

  /** A state that decodes to `<url>#<anything>` redirects to `<url>`; one that
      decodes to empty text redirects to the empty URL, not to `/`. */
  lemma RedirectDropsFragment(state: string, decodeState: string -> Option<string>, url: string, fragment: string)
    requires '#' !in url
    requires decodeState(state) == Some(url + "#" + fragment)
    ensures ExtractRedirectUrl(Some(state), decodeState) == url
  {
    var decoded := url + "#" + fragment;
    assert decoded[..|url|] == url && decoded[|url|] == '#';
    SplitAt(decoded, '#', 2, |url|);
  }

  lemma EmptyStateRedirectsToEmpty(state: string, decodeState: string -> Option<string>)
    requires decodeState(state) == Some("")
    ensures ExtractRedirectUrl(Some(state), decodeState) == ""
  {
  }
}
