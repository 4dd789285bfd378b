/** The `Member` entity: nullable profile fields, the derived admin flag and
    authorities, the profile-image default, and its targeted mutators. */
module Members {
  import opened Types
  import Entities

  const DEFAULT_PROFILE_IMG_URL: string := "https://placehold.co/600x600?text=U_U"
  const ADMIN_USERNAMES: seq<string> := ["system", "admin"]
  const ROLE_ADMIN: string := "ROLE_ADMIN"

  datatype Member = Member(
    id: Option<int>,
    username: Option<string>,
    password: Option<string>,
    name: Option<string>,
    apiKey: Option<string>,
    profileImgUrl: Option<string>)
  {
    /** The member as a `BaseEntity`. */
    function Ref(): Entities.EntityRef {
      Entities.EntityRef(Entities.MemberClass, id)
    }
  }

  /** `BaseEntity.equals` between two members: same id. */
  predicate SameMember(a: Member, b: Member) {
    Entities.Equals(a.Ref(), Some(b.Ref()))
  }

  lemma SameMemberIffSameId(a: Member, b: Member)
    ensures SameMember(a, b) <==> a.id == b.id
  {
  }

  /** The `(id, username, nickname)` constructor: a lightweight identity. */
  function WithIdentity(id: int, username: Option<string>, nickname: Option<string>): (m: Member)
    ensures m.id == Some(id) && m.username == username && m.name == nickname
    ensures m.password.None? && m.apiKey.None? && m.profileImgUrl.None?
  {
    Member(Some(id), username, None, nickname, None, None)
  }

  /** The `(username, password, nickname, profileImgUrl)` constructor of a new,
      unsaved member. The random UUID it draws is the `freshApiKey` argument. */
  function NewMember(username: Option<string>, password: Option<string>, nickname: Option<string>,
                     profileImgUrl: Option<string>, freshApiKey: string): (m: Member)
    ensures m.id.None?
    ensures m.apiKey == Some(freshApiKey)
    ensures m.username == username && m.password == password && m.name == nickname
    ensures m.profileImgUrl == profileImgUrl
  {
    Member(None, username, password, nickname, Some(freshApiKey), profileImgUrl)
  }

  /** `isAdmin`: the username is one of the reserved names. */
  predicate IsAdmin(m: Member) {
    m.username.Some? && m.username.value in ADMIN_USERNAMES
  }

  /** `authorities`: the single role `ROLE_ADMIN` for an admin, none otherwise. */
  function Authorities(m: Member): (r: seq<string>)
    ensures IsAdmin(m) <==> ROLE_ADMIN in r
    ensures |r| <= 1
    ensures forall i :: 0 <= i < |r| ==> r[i] == ROLE_ADMIN
  {
    if IsAdmin(m) then [ROLE_ADMIN] else []
  }

  /** `modifyApiKey`: only the API key changes. */
  function ModifyApiKey(m: Member, apiKey: Option<string>): (r: Member)
    ensures r.apiKey == apiKey
    ensures r.id == m.id && r.username == m.username && r.password == m.password
    ensures r.name == m.name && r.profileImgUrl == m.profileImgUrl
  {
    m.(apiKey := apiKey)
  }

  /** `modify`: only the display name and the profile image change. */
  function Modify(m: Member, nickname: Option<string>, profileImgUrl: Option<string>): (r: Member)
    ensures r.name == nickname && r.profileImgUrl == profileImgUrl
    ensures r.id == m.id && r.username == m.username && r.password == m.password
    ensures r.apiKey == m.apiKey
  {
    m.(name := nickname, profileImgUrl := profileImgUrl)
  }

  /** Neither mutator changes who the member is, nor whether it is an admin. */
  lemma MutatorsKeepIdentity(m: Member, nickname: Option<string>, url: Option<string>, key: Option<string>)
    ensures SameMember(m, Modify(m, nickname, url)) && SameMember(m, ModifyApiKey(m, key))
    ensures IsAdmin(Modify(m, nickname, url)) == IsAdmin(m)
    ensures IsAdmin(ModifyApiKey(m, key)) == IsAdmin(m)
  {
  }

  /** `profileImgUrlOrDefault`: the stored URL, or the placeholder when there is none. */
  function ProfileImgUrlOrDefault(m: Member): (r: string)
    ensures m.profileImgUrl.Some? ==> r == m.profileImgUrl.value
    ensures m.profileImgUrl.None? ==> r == DEFAULT_PROFILE_IMG_URL
  {
    m.profileImgUrl.OrElse(DEFAULT_PROFILE_IMG_URL)
  }
}
