/** `MemberWithUsernameDto`: the member view with defaults filled in. */
module MemberDto {
  import opened Types
  import opened Members

  /** The DTO without its two timestamps. */
  datatype MemberWithUsernameDto = MemberWithUsernameDto(
    id: int,
    isAdmin: bool,
    username: string,
    name: string,
    profileImageUrl: string)

  /** The projection from a member; `None` stands for the `NullPointerException`
      of `member.id!!` or `member.username!!`. */
  function FromMember(m: Member): (r: Option<MemberWithUsernameDto>)
    ensures r.Some? <==> m.id.Some? && m.username.Some?
    ensures r.Some? ==> Some(r.value.id) == m.id && Some(r.value.username) == m.username
    ensures r.Some? ==> r.value.isAdmin == IsAdmin(m)
    ensures r.Some? ==> r.value.profileImageUrl == ProfileImgUrlOrDefault(m)
    ensures r.Some? && m.name.Some? ==> r.value.name == m.name.value
    ensures r.Some? && m.name.None? ==> r.value.name == ""
  {
    if m.id.None? || m.username.None? then None
    else
      Some(MemberWithUsernameDto(
        m.id.value,
        IsAdmin(m),
        m.username.value,
        m.name.OrElse(""),
        ProfileImgUrlOrDefault(m)))
  }

  /** The view follows the profile mutator and ignores the API-key mutator: after
      `modify`, name and image are the new ones (with their defaults) and the rest
      is unchanged; after `modifyApiKey` the view is the same. */
  lemma DtoTracksMutators(m: Member, nickname: Option<string>, url: Option<string>, key: Option<string>)
    ensures FromMember(ModifyApiKey(m, key)) == FromMember(m)
    ensures FromMember(Modify(m, nickname, url)).Some? <==> FromMember(m).Some?
    ensures FromMember(m).Some? ==>
              FromMember(Modify(m, nickname, url))
              == Some(FromMember(m).value.(name := nickname.OrElse(""),
                                           profileImageUrl := url.OrElse(DEFAULT_PROFILE_IMG_URL)))
  {
  }

  /** Two members with the same id and username have the same view exactly when
      they agree on name and image; password and API key never show. */
  lemma DtoHidesCredentials(a: Member, b: Member)
    requires a.id.Some? && a.id == b.id && a.username == b.username && a.username.Some?
    ensures FromMember(a) == FromMember(b) <==>
              a.name.OrElse("") == b.name.OrElse("")
              && ProfileImgUrlOrDefault(a) == ProfileImgUrlOrDefault(b)
  {
  }

  /** A member without a profile image shows the placeholder; an admin is flagged. */
  lemma DtoDefaults(id: int, username: string)
    ensures var r := FromMember(WithIdentity(id, Some(username), None));
            r.Some? && r.value.name == "" && r.value.profileImageUrl == DEFAULT_PROFILE_IMG_URL
            && (r.value.isAdmin <==> username == "system" || username == "admin")
  {
  }
}
