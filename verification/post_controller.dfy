/** `ApiV1PostController`: the post endpoints as transformers of an in-memory post
    store keyed by post id. Each endpoint receives the already resolved actor. */
module PostController {
  import opened Types
  import opened Text
  import opened Members
  import opened Posts
  import opened Exceptions
  import opened ResultEnvelope

  type Store = map<int, Post>

  /** The store's primary key is the post's own id. */
  predicate StoreInv(store: Store) {
    forall k :: k in store ==> store[k].id == Some(k)
  }

  /** Why an endpoint did not complete: a `ServiceException`, or a request body that
      failed bean validation (reported with result code `400-1`). */
  datatype Failure = Thrown(e: ServiceException) | InvalidBody {
    function ResultCode(): string {
      match this
      case Thrown(e) => e.resultCode
      case InvalidBody => "400-1"
    }
  }

  /** `@NotBlank @Size(min = 2, max = n)`: something is left after `trim()`, and
      the size, counted in UTF-16 units, is in range. */
  predicate ValidField(s: string, maxLength: nat) {
    !TrimsToEmpty(s) && 2 <= Utf16Length(s) <= maxLength
  }

  /** The write and modify request bodies: title of 2..100, content of 2..5000. */
  predicate ValidBody(title: string, content: string) {
    ValidField(title, 100) && ValidField(content, 5000)
  }

  /** An empty title is refused. */
  lemma EmptyTitleInvalid(content: string)
    ensures !ValidBody("", content)
  {
  }

  /** For text in the Basic Multilingual Plane the size limits count characters:
      a field is valid exactly when it has between 2 and `maxLength` characters
      and at least one above U+0020. */
  lemma ValidFieldInPlane(s: string, maxLength: nat)
    requires forall i :: 0 <= i < |s| ==> s[i] as int <= 0xFFFF
    ensures ValidField(s, maxLength) <==> 2 <= |s| <= maxLength && exists i :: 0 <= i < |s| && s[i] > ' '
  {
  }

  /** Whatever the characters, a valid field has between 1 and `maxLength`
      characters; a single character passes only when it lies outside the Basic
      Multilingual Plane, where it takes two UTF-16 units. */
  lemma ValidFieldCharCount(s: string, maxLength: nat)
    ensures ValidField(s, maxLength) ==> 1 <= |s| <= maxLength
    ensures |s| == 1 ==> (ValidField(s, maxLength) <==> s[0] as int > 0xFFFF && 2 <= maxLength)
  {
    if |s| == 1 {
      assert Utf16Units(s) == Utf16Units(s[..0]) + CharUnits(s[0]);
    }
  }

  /** `@NotBlank` is not Kotlin's `isBlank`: no-break spaces are blank to
      `isBlank` but content to `trim()`. */
  lemma NoBreakSpacesAreContent()
    ensures IsBlank("\U{A0}\U{A0}") && ValidField("\U{A0}\U{A0}", 100)
  {
    var s := "\U{A0}\U{A0}";
    assert |s| == 2 && s[0] == '\U{A0}' && s[1] == '\U{A0}';
    assert Utf16Length(s) == 2;
  }

  /** ...and control characters below the tab are content to `isBlank` but
      blank to `trim()`. */
  lemma ControlCharactersAreBlank()
    ensures !IsBlank("\U{0}\U{0}") && !ValidField("\U{0}\U{0}", 100)
  {
    var s := "\U{0}\U{0}";
    assert |s| == 2 && s[0] == '\U{0}' && s[1] == '\U{0}';
    assert !IsWhitespace(s[0]);
  }

  function NotFound(id: int): ServiceException {
    ServiceException("404-1", FormatInt(id) + "번 글을 찾을 수 없습니다.")
  }

  /** `getItem`: the post with that id, or `404-1` naming the id. */
  function GetItem(store: Store, id: int): (r: Result<Post, Failure>)
    ensures r.Ok? <==> id in store
    ensures r.Ok? ==> r.value == store[id]
    ensures r.Err? ==> r.error == Thrown(NotFound(id)) && r.error.ResultCode() == "404-1"
  {
    if id in store then Ok(store[id]) else Err(Thrown(NotFound(id)))
  }

  /** `delete`: a missing post is `404-1` whoever asks; a present one is removed for
      its author (`200-1`) and left in place for anyone else (`403-2`). */
  function Delete(store: Store, actor: Member, id: int): (r: Result<(Store, RsData<()>), Failure>)
    ensures id !in store ==> r == Err(Thrown(NotFound(id)))
    ensures r.Ok? <==> id in store && store[id].author.id == actor.id
    ensures id in store && store[id].author.id != actor.id ==>
              r.Err? && r.error.Thrown? && r.error.e.resultCode == "403-2"
    ensures r.Ok? ==> r.value.0.Keys == store.Keys - {id}
    ensures r.Ok? ==> forall k :: k in r.value.0 ==> r.value.0[k] == store[k]
    ensures r.Ok? ==> r.value.1.resultCode == "200-1" && r.value.1.statusCode == 200
    ensures r.Ok? ==> r.value.1.msg == FormatInt(id) + "번 글이 삭제되었습니다."
  {
    if id !in store then Err(Thrown(NotFound(id)))
    else
      var post := store[id];
      match CheckActorCanDelete(post, actor)
      case Err(e) => Err(Thrown(e))
      case Ok(_) =>
        Ok((store - {id}, Known("200-1", FormatInt(id) + "번 글이 삭제되었습니다.", None)))
  }

  /** The `201-1` envelope announcing a written post, with the post as data. */
  function Written(post: Post): (r: RsData<Post>)
    ensures r.resultCode == "201-1" && r.statusCode == 201 && r.data == Some(post)
    ensures r.msg == OptionText(post.id) + "번 글이 작성되었습니다."
  {
    Known("201-1", OptionText(post.id) + "번 글이 작성되었습니다.", Some(post))
  }

  /** `write`: after validation, a new post by the actor with the given title and
      content is stored under the id the database assigns (`newId`), and `201-1`
      names that id. */
  function Write(store: Store, actor: Member, title: string, content: string, newId: int)
    : (r: Result<(Store, RsData<Post>), Failure>)
    requires newId !in store
    ensures r.Ok? <==> ValidBody(title, content)
    ensures r.Err? ==> r.error == InvalidBody
    ensures r.Ok? ==> newId in r.value.0 && r.value.0 == store[newId := r.value.0[newId]]
    ensures r.Ok? ==> var p := r.value.0[newId];
              p.id == Some(newId) && p.author == actor && p.title == title && p.content == content
              && p.comments == []
    ensures r.Ok? ==> r.value.1.resultCode == "201-1" && r.value.1.statusCode == 201
    ensures r.Ok? ==> r.value.1.msg == FormatInt(newId) + "번 글이 작성되었습니다."
    ensures r.Ok? ==> r.value.1.data == Some(r.value.0[newId])
  {
    if !ValidBody(title, content) then Err(InvalidBody)
    else
      var post := Post(Some(newId), actor, title, content, []);
      var stored := store[newId := post];
      assert stored.Keys == store.Keys + {newId} && stored[newId] == post;
      Ok((stored, Written(post)))
  }

  /** `modify`: validation first (`400-1`), then existence (`404-1`), then ownership
      (`403-1`); the author's post gets the new title and content and nothing else
      in the store changes (`200-1`). */
  function Modify(store: Store, actor: Member, id: int, title: string, content: string)
    : (r: Result<(Store, RsData<()>), Failure>)
    ensures !ValidBody(title, content) ==> r == Err(InvalidBody)
    ensures ValidBody(title, content) && id !in store ==> r == Err(Thrown(NotFound(id)))
    ensures ValidBody(title, content) && id in store && store[id].author.id != actor.id ==>
              r.Err? && r.error.Thrown? && r.error.e.resultCode == "403-1"
    ensures r.Ok? <==> ValidBody(title, content) && id in store && store[id].author.id == actor.id
    ensures r.Ok? ==> id in r.value.0 && r.value.0 == store[id := r.value.0[id]]
    ensures r.Ok? ==> var p := r.value.0[id];
              p.title == title && p.content == content && p.id == store[id].id
              && p.author == store[id].author && p.comments == store[id].comments
    ensures r.Ok? ==> r.value.1.resultCode == "200-1" && r.value.1.statusCode == 200
    ensures r.Ok? ==> r.value.1.msg == OptionText(store[id].id) + "번 글이 수정되었습니다."
  {
    if !ValidBody(title, content) then Err(InvalidBody)
    else if id !in store then Err(Thrown(NotFound(id)))
    else
      var post := store[id];
      match CheckActorCanModify(post, actor)
      case Err(e) => Err(Thrown(e))
      case Ok(_) =>
        Ok((store[id := Posts.Modify(post, title, content)],
            Known("200-1", OptionText(post.id) + "번 글이 수정되었습니다.", None)))
  }

  /** `write` and `modify` keep every post stored under its own id. */
  lemma EndpointsPreserveStoreInv(store: Store, actor: Member, id: int, title: string, content: string)
    requires StoreInv(store)
    ensures id !in store ==> var r := Write(store, actor, title, content, id);
                             r.Ok? ==> StoreInv(r.value.0)
    ensures var r := Modify(store, actor, id, title, content);
            r.Ok? ==> StoreInv(r.value.0)
    ensures var r := Delete(store, actor, id);
            r.Ok? ==> StoreInv(r.value.0)
  {
  }

  /** A written post is then found under its id. */
  lemma WriteThenGetItem(store: Store, actor: Member, title: string, content: string, newId: int)
    requires newId !in store && ValidBody(title, content)
    ensures var r := Write(store, actor, title, content, newId);
            r.Ok? && GetItem(r.value.0, newId) == Ok(r.value.1.data.value)
  {
  }

  /** A deleted post is no longer found, and deleting it again is `404-1`. */
  lemma DeleteThenGetItem(store: Store, actor: Member, id: int)
    requires id in store && store[id].author.id == actor.id
    ensures var r := Delete(store, actor, id);
            r.Ok? && GetItem(r.value.0, id).Err?
            && Delete(r.value.0, actor, id) == Err(Thrown(NotFound(id)))
  {
  }

  /** A non-empty set of ids has a member. */
  lemma NonEmptyHasElement(ids: set<int>)
    requires ids != {}
    ensures exists x :: x in ids
  {
    if forall x :: x !in ids {
      assert false;
    }
  }

  /** The largest id of a non-empty set. */
  ghost function Largest(ids: set<int>): (m: int)
    requires ids != {}
    ensures m in ids && forall k :: k in ids ==> k <= m
    decreases ids
  {
    NonEmptyHasElement(ids);
    var x :| x in ids;
    assert forall k :: k in ids ==> k == x || k in ids - {x};
    if ids - {x} == {} then x
    else
      var m := Largest(ids - {x});
      if x > m then x else m
  }

  /** The ids of a set, from largest to smallest, each exactly once. */
  method DescendingIds(keys: set<int>) returns (ids: seq<int>)
    ensures |ids| == |keys|
    ensures forall i :: 0 <= i < |ids| ==> ids[i] in keys
    ensures forall k :: k in keys ==> k in ids
    ensures forall i, j :: 0 <= i < j < |ids| ==> ids[i] > ids[j]
  {
    var remaining := keys;
    ids := [];
    while remaining != {}
      invariant remaining <= keys
      invariant |ids| + |remaining| == |keys|
      invariant forall i :: 0 <= i < |ids| ==> ids[i] in keys - remaining
      invariant forall k :: k in keys - remaining ==> k in ids
      invariant forall i, j :: 0 <= i < j < |ids| ==> ids[i] > ids[j]
      invariant forall i, k :: 0 <= i < |ids| && k in remaining ==> ids[i] > k
      decreases remaining
    {
      ghost var largest := Largest(remaining);
      var m :| m in remaining && forall k :: k in remaining ==> k <= m;
      ids := ids + [m];
      remaining := remaining - {m};
    }
  }

  /** `getItems`: every stored post exactly once, by id from newest (largest) to oldest. */
  method GetItems(store: Store) returns (items: seq<Post>)
    requires StoreInv(store)
    ensures |items| == |store|
    ensures forall i :: 0 <= i < |items| ==> items[i].id.Some? && items[i].id.value in store
                                              && store[items[i].id.value] == items[i]
    ensures forall k :: k in store ==> store[k] in items
    ensures forall i, j :: 0 <= i < j < |items| ==> items[i].id.value > items[j].id.value
  {
    var ids := DescendingIds(store.Keys);
    items := seq(|ids|, i requires 0 <= i < |ids| => store[ids[i]]);
    forall i | 0 <= i < |items|
      ensures items[i] == store[ids[i]] && items[i].id == Some(ids[i])
    {
      var k := ids[i];
      assert k in store;
      assert store[k].id == Some(k);
    }
    forall k | k in store
      ensures store[k] in items
    {
      var i :| 0 <= i < |ids| && ids[i] == k;
      assert items[i] == store[k];
    }
    assert |store.Keys| == |store|;
  }
}
