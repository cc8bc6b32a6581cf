/** The Post collection (src/models/Post.js): a post with its required title and
    creator, its typed media list and its engagement lists, and the collection keyed by
    id. Engagement lists are only ever grown by add-if-absent, so they hold no
    duplicates. */
module PostModel {
  import opened Prelude

  type PostId = nat
  type UserRef = nat

  /** The schema's media type enum. */
  datatype MediaType = Image | Video | Document

  datatype MediaItem = MediaItem(kind: MediaType, url: string)

  datatype Post = Post(
    title: string,
    description: Option<string>,
    postLink: Option<string>,
    url: Option<string>,
    media: seq<MediaItem>,
    likes: seq<UserRef>,
    shares: seq<UserRef>,
    repost: seq<UserRef>,
    createdBy: UserRef)

  /** What validation demands of a saved post: a non-empty title (`required: true`
      rejects ""). createdBy is always present by its type. */
  predicate Schema(p: Post) {
    p.title != ""
  }

  /** Reading `post[path]` for a string path: the declared string paths give their value,
      any other path (such as `content` or `picture`) reads as `undefined`. */
  function PostField(p: Post, path: string): Option<string> {
    if path == "title" then Some(p.title)
    else if path == "description" then p.description
    else if path == "postLink" then p.postLink
    else if path == "url" then p.url
    else None
  }

  /** A post as created: no engagement yet and no link fields. */
  function NewPost(title: string, description: Option<string>, media: seq<MediaItem>,
                   createdBy: UserRef): (p: Post)
    ensures p.likes == [] && p.shares == [] && p.repost == []
  {
    Post(title, description, None, None, media, [], [], [], createdBy)
  }

  predicate NoDup(s: seq<UserRef>) {
    forall i, j :: 0 <= i < j < |s| ==> s[i] != s[j]
  }

  /** `if (!list.includes(x)) list.push(x)`, which is also what `$addToSet` does: the
      list is extended at its end by x only when x is absent. */
  function AddToSet(s: seq<UserRef>, x: UserRef): (r: seq<UserRef>)
    ensures x in r
    ensures forall y :: y in r <==> y in s || y == x
    ensures |r| == if x in s then |s| else |s| + 1
    ensures r[..|s|] == s
    ensures NoDup(s) ==> NoDup(r)
  {
    if x in s then s else s + [x]
  }

  /** Liking or sharing twice is the same as once. */
  lemma AddToSetIdempotent(s: seq<UserRef>, x: UserRef)
    ensures AddToSet(AddToSet(s, x), x) == AddToSet(s, x)
  {
  }

  /** The order in which two users engage does not change who has engaged. */
  lemma AddToSetSameMembers(s: seq<UserRef>, x: UserRef, y: UserRef)
    ensures forall z :: z in AddToSet(AddToSet(s, x), y) <==> z in AddToSet(AddToSet(s, y), x)
  {
  }

  /** The engagement lists of a stored post hold no duplicates. */
  predicate Engagement(p: Post) {
    NoDup(p.likes) && NoDup(p.shares)
  }

  class PostCollection {
    var posts: map<PostId, Post>
    var nextId: nat

    ghost predicate Valid()
      reads this
    {
      forall id :: id in posts ==> id < nextId && Schema(posts[id]) && Engagement(posts[id])
    }

    constructor ()
      ensures Valid() && posts == map[] && nextId == 0
    {
      posts := map[];
      nextId := 0;
    }

    /** `new Post(p).save()` for a post that passes validation: stored under a fresh id. */
    method Insert(p: Post) returns (id: PostId)
      requires Valid() && Schema(p) && Engagement(p)
      modifies this
      ensures Valid()
      ensures id == old(nextId) && id !in old(posts)
      ensures posts == old(posts)[id := p] && nextId == old(nextId) + 1
    {
      id := nextId;
      posts := posts[id := p];
      nextId := nextId + 1;
    }

    /** `post.save()` of a loaded post, holding `p` now. */
    method Replace(id: PostId, p: Post)
      requires Valid() && id in posts && Schema(p) && Engagement(p)
      modifies this
      ensures Valid()
      ensures posts == old(posts)[id := p] && nextId == old(nextId)
    {
      posts := posts[id := p];
    }

    /** `post.deleteOne()`. */
    method Remove(id: PostId)
      requires Valid()
      modifies this
      ensures Valid()
      ensures posts == old(posts) - {id} && nextId == old(nextId)
    {
      posts := posts - {id};
    }
  }
}
