/** The `Post` aggregate: an author, a title, a content, and the ordered list of
    its comments, with the author-only modify and delete checks. */
module Posts {
  import opened Types
  import opened Text
  import opened Members
  import Entities
  import opened Exceptions

  /** A comment. Its reference to the owning post is that post's id. */
  datatype PostComment = PostComment(id: Option<int>, author: Member, postId: Option<int>, content: string) {
    function Ref(): Entities.EntityRef {
      Entities.EntityRef(Entities.PostCommentClass, id)
    }
  }

  datatype Post = Post(id: Option<int>, author: Member, title: string, content: string, comments: seq<PostComment>) {
    function Ref(): Entities.EntityRef {
      Entities.EntityRef(Entities.PostClass, id)
    }
  }

  /** `comments`: a copy of the comment list, element for element in order. */
  function Comments(p: Post): (r: seq<PostComment>)
    ensures |r| == |p.comments|
    ensures forall i :: 0 <= i < |r| ==> r[i] == p.comments[i]
  {
    p.comments[..]
  }

  /** `modify`: title and content replaced; id, author and comments untouched. */
  function Modify(p: Post, title: string, content: string): (r: Post)
    ensures r.title == title && r.content == content
    ensures r.id == p.id && r.author == p.author && r.comments == p.comments
  {
    p.(title := title, content := content)
  }

  /** `addComment`: a new, unsaved comment by `author` on this post is appended and returned. */
  function AddComment(p: Post, author: Member, content: string): (r: (Post, PostComment))
    ensures r.0.comments == p.comments + [r.1]
    ensures r.1.author == author && r.1.postId == p.id && r.1.content == content && r.1.id.None?
    ensures r.0.id == p.id && r.0.author == p.author && r.0.title == p.title && r.0.content == p.content
  {
    var c := PostComment(None, author, p.id, content);
    (p.(comments := p.comments + [c]), c)
  }

  /** `findCommentById`: the first comment whose (non-null) id is `id`, or empty. */
  method FindCommentById(p: Post, id: int) returns (r: Option<PostComment>)
    ensures r.None? <==> forall i :: 0 <= i < |p.comments| ==> p.comments[i].id != Some(id)
    ensures r.Some? ==> exists i :: 0 <= i < |p.comments| && p.comments[i] == r.value
                                 && p.comments[i].id == Some(id)
                                 && forall j :: 0 <= j < i ==> p.comments[j].id != Some(id)
  {
    var i := 0;
    while i < |p.comments|
      invariant 0 <= i <= |p.comments|
      invariant forall j :: 0 <= j < i ==> p.comments[j].id != Some(id)
    {
      if p.comments[i].id == Some(id) {
        return Some(p.comments[i]);
      }
      i := i + 1;
    }
    return None;
  }

  /** `List.remove` position: the first comment equal to `target` under entity equality. */
  function FirstEqual(s: seq<PostComment>, target: PostComment): (r: Option<nat>)
    ensures r.None? <==> forall i :: 0 <= i < |s| ==> !Entities.Equals(target.Ref(), Some(s[i].Ref()))
    ensures r.Some? ==> r.value < |s| && Entities.Equals(target.Ref(), Some(s[r.value].Ref()))
    ensures r.Some? ==> forall j :: 0 <= j < r.value ==> !Entities.Equals(target.Ref(), Some(s[j].Ref()))
  {
    if |s| == 0 then None
    else if Entities.Equals(target.Ref(), Some(s[0].Ref())) then Some(0)
    else
      match FirstEqual(s[1..], target)
      case None => None
      case Some(i) => Some(i + 1)
  }

  /** The first equal position is fixed by any equal comment with none before it. */
  lemma {:induction false} FirstEqualAt(s: seq<PostComment>, target: PostComment, i: nat)
    requires i < |s| && Entities.Equals(target.Ref(), Some(s[i].Ref()))
    requires forall j :: 0 <= j < i ==> !Entities.Equals(target.Ref(), Some(s[j].Ref()))
    ensures FirstEqual(s, target) == Some(i)
  {
    if i > 0 {
      FirstEqualAt(s[1..], target, i - 1);
    }
  }

  /** `deleteComment`: with `null` nothing happens and the answer is false; otherwise
      the first comment equal to the argument (same id) is removed, and the answer
      says whether there was one. */
  function DeleteComment(p: Post, c: Option<PostComment>): (r: (Post, bool))
    ensures c.None? ==> r == (p, false)
    ensures r.1 <==> c.Some? && exists i :: 0 <= i < |p.comments| && p.comments[i].id == c.value.id
    ensures !r.1 ==> r.0 == p
    ensures r.1 ==> |r.0.comments| == |p.comments| - 1
    ensures r.1 ==> exists i :: 0 <= i < |p.comments| && p.comments[i].id == c.value.id
                      && r.0.comments == p.comments[..i] + p.comments[i + 1..]
                      && forall j :: 0 <= j < i ==> p.comments[j].id != c.value.id
    ensures r.0.id == p.id && r.0.author == p.author && r.0.title == p.title && r.0.content == p.content
  {
    match c
    case None => (p, false)
    case Some(target) =>
      match FirstEqual(p.comments, target)
      case None => (p, false)
      case Some(i) => (p.(comments := p.comments[..i] + p.comments[i + 1..]), true)
  }

  /** Deleting the comment just added to a post whose comments are all saved gives the post back. */
  lemma AddThenDeleteComment(p: Post, author: Member, content: string)
    requires forall i :: 0 <= i < |p.comments| ==> p.comments[i].id.Some?
    ensures var (q, c) := AddComment(p, author, content);
            DeleteComment(q, Some(c)) == (p, true)
  {
    var (q, c) := AddComment(p, author, content);
    var n := |p.comments|;
    assert q.comments == p.comments + [c];
    FirstEqualAt(q.comments, c, n);
    assert q.comments[..n] + q.comments[n + 1..] == p.comments;
    assert q.(comments := p.comments) == p;
  }

  /** A comment found by id is the one `deleteComment` removes. */
  lemma FoundCommentIsDeleted(p: Post, id: int, i: nat)
    requires i < |p.comments| && p.comments[i].id == Some(id)
    requires forall j :: 0 <= j < i ==> p.comments[j].id != Some(id)
    ensures DeleteComment(p, Some(p.comments[i])).0.comments == p.comments[..i] + p.comments[i + 1..]
  {
    FirstEqualAt(p.comments, p.comments[i], i);
  }

  /** The message naming the post in an ownership error. */
  function DeniedMessage(id: Option<int>, action: string): string {
    OptionText(id) + "번 글 " + action + "권한이 없습니다."
  }

  /** `checkActorCanModify`: passes exactly for the author; anyone else gets `403-1`. */
  function CheckActorCanModify(p: Post, actor: Member): (r: Result<(), ServiceException>)
    ensures r.Ok? <==> p.author.id == actor.id
    ensures r.Err? ==> r.error == ServiceException("403-1", DeniedMessage(p.id, "수정"))
  {
    if !SameMember(p.author, actor) then Err(ServiceException("403-1", DeniedMessage(p.id, "수정")))
    else Ok(())
  }

  /** `checkActorCanDelete`: passes exactly for the author; anyone else gets `403-2`. */
  function CheckActorCanDelete(p: Post, actor: Member): (r: Result<(), ServiceException>)
    ensures r.Ok? <==> p.author.id == actor.id
    ensures r.Err? ==> r.error == ServiceException("403-2", DeniedMessage(p.id, "삭제"))
  {
    if !SameMember(p.author, actor) then Err(ServiceException("403-2", DeniedMessage(p.id, "삭제")))
    else Ok(())
  }

  /** Both checks apply one predicate. */
  lemma OwnershipChecksAgree(p: Post, actor: Member)
    ensures CheckActorCanModify(p, actor).Ok? <==> CheckActorCanDelete(p, actor).Ok?
  {
  }

  /** A refused check becomes an error envelope with HTTP status 403. */
  lemma OwnershipRefusalIs403(e: ServiceException)
    requires e.resultCode == "403-1" || e.resultCode == "403-2"
    ensures GetRsData(e).Some? && GetRsData(e).value.statusCode == 403
  {
    ResultEnvelope.StatusOfThreeDigitCode(e.resultCode);
  }
}
