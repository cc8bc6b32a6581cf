/** The post handlers (src/controller/post.controller.js): media classification, the
    upload and removal loops against the storage bucket, createPost, updatePost's media
    reconciliation, deletePost, the like and share set-adds, and the LinkedIn share body
    built by postToLinkedIn. */
module PostController {
  import opened Prelude
  import opened Text
  import opened PostModel
  import UserModel

  // ---------------------------------------------------------------------------------
  // Media classification and storage paths

  /** The media type recorded for an upload, from its mimetype. */
  function Classify(mimetype: string): (t: MediaType)
    ensures t == Image <==> StartsWith(mimetype, "image")
    ensures t == Video <==> !StartsWith(mimetype, "image") && StartsWith(mimetype, "video")
    ensures t == Document <==> !StartsWith(mimetype, "image") && !StartsWith(mimetype, "video")
  {
    if StartsWith(mimetype, "image") then Image
    else if StartsWith(mimetype, "video") then Video
    else Document
  }

  /** The prefix test has no slash: any mimetype beginning with the letters "image" is an
      Image, and everything that is neither image nor video is a Document. */
  lemma ClassifyExamples()
    ensures Classify("image/png") == Image
    ensures Classify("video/mp4") == Video
    ensures Classify("application/pdf") == Document
    ensures Classify("imagery/x") == Image
    ensures Classify("") == Document
  {
    assert "image/png"[..5] == "image";
    assert "video/mp4"[..5] != "image" && "video/mp4"[..5] == "video";
    assert "application/pdf"[..5] != "image" && "application/pdf"[..5] != "video";
    assert "imagery/x"[..5] == "image";
  }

  datatype UploadFile = UploadFile(originalname: string, mimetype: string)

  /** What a public URL of the "media" bucket carries before the object's path. */
  const Marker: string := "/storage/v1/object/public/media/"

  /** `posts/${uuid}.${ext}` where ext is the text after the last "." of the file name. */
  function UploadPath(uuid: string, originalname: string): (p: string)
    ensures StartsWith(p, "posts/") && |p| > |"posts/" + uuid| && p[6..6 + |uuid|] == uuid
    ensures LastField(p, '.') == LastField(originalname, '.')
  {
    var ext := LastField(originalname, '.');
    LastFieldAfter("posts/" + uuid, '.', ext);
    "posts/" + uuid + "." + ext
  }

  /** The storage service's public URL of an object of the "media" bucket; `base` is the
      deployment's storage URL. */
  function PublicUrl(base: string, path: string): string {
    base + Marker + path
  }

  /** `url.split(Marker)[1]` when it is truthy: the object path removal is attempted for. */
  function StoragePath(url: string): Option<string> {
    match SecondField(url, Marker)
    case Some(p) => if p != "" then Some(p) else None
    case None => None
  }

  /** A removal path is attempted only for a url holding the marker; the path is
      non-empty and holds no marker itself. */
  lemma StoragePathSpec(url: string)
    ensures StoragePath(url).Some? ==> StoragePath(url).value != "" && Free(StoragePath(url).value, Marker)
    ensures Free(url, Marker) ==> StoragePath(url).None?
  {
    SecondFieldSpec(url, Marker);
  }

  /** The path extracted from an object's public URL is the path it was stored under,
      when the deployment URL hides no marker and the path holds none. */
  lemma StoragePathOfPublicUrl(base: string, path: string)
    requires CleanBefore(base, Marker)
    requires path != "" && Free(path, Marker)
    ensures StoragePath(PublicUrl(base, path)) == Some(path)
  {
    SecondFieldOfJoin(base, Marker, path);
  }

  // ---------------------------------------------------------------------------------
  // Uploads: the loop over req.files shared by createPost and updatePost

  /** The storage path the i-th file of a request is uploaded under; `uuid(i)` is the
      random name generated for it. */
  function FilePath(files: seq<UploadFile>, uuid: nat -> string, i: nat): string
    requires i < |files|
  {
    UploadPath(uuid(i), files[i].originalname)
  }

  function UploadedItem(f: UploadFile, uuid: string, base: string): MediaItem {
    MediaItem(Classify(f.mimetype), PublicUrl(base, UploadPath(uuid, f.originalname)))
  }

  /** The media entries pushed for `files`, in upload order. */
  function UploadedItems(files: seq<UploadFile>, uuid: nat -> string, base: string): (r: seq<MediaItem>)
    ensures |r| == |files|
    ensures forall i :: 0 <= i < |files| ==>
      r[i].kind == Classify(files[i].mimetype) && r[i].url == PublicUrl(base, FilePath(files, uuid, i))
  {
    seq(|files|, i requires 0 <= i < |files| => UploadedItem(files[i], uuid(i), base))
  }

  function UploadedPaths(files: seq<UploadFile>, uuid: nat -> string): (r: seq<string>)
    ensures |r| == |files|
    ensures forall i :: 0 <= i < |files| ==> r[i] == FilePath(files, uuid, i)
  {
    seq(|files|, i requires 0 <= i < |files| => FilePath(files, uuid, i))
  }

  /** How many of `paths` the bucket stores before it rejects one. */
  function AcceptedPrefix(paths: seq<string>, accepts: string -> bool): (n: nat)
    ensures n <= |paths|
    ensures forall j :: 0 <= j < n ==> accepts(paths[j])
    ensures n < |paths| ==> !accepts(paths[n])
  {
    if paths == [] || !accepts(paths[0]) then 0
    else 1 + AcceptedPrefix(paths[1..], accepts)
  }

  /** The number of files stored before the first rejected upload (all of them when
      none is rejected). */
  function Accepted(files: seq<UploadFile>, uuid: nat -> string, accepts: string -> bool): nat {
    AcceptedPrefix(UploadedPaths(files, uuid), accepts)
  }

  // ---------------------------------------------------------------------------------
  // updatePost's media reconciliation

  function Urls(ms: seq<MediaItem>): set<string> {
    set m | m in ms :: m.url
  }

  /** `post.media.filter(m => !keep.find(k => k.url === m.url))`: the old entries whose
      url no kept entry has, in their old order. */
  function MediaToDelete(prev: seq<MediaItem>, keep: seq<MediaItem>): (r: seq<MediaItem>)
    ensures |r| <= |prev|
    ensures forall m :: m in r <==> m in prev && m.url !in Urls(keep)
  {
    if prev == [] then []
    else if prev[0].url in Urls(keep) then MediaToDelete(prev[1..], keep)
    else [prev[0]] + MediaToDelete(prev[1..], keep)
  }

  /** The complementary filter: the old entries some kept entry names by url. */
  function MediaRetained(prev: seq<MediaItem>, keep: seq<MediaItem>): (r: seq<MediaItem>)
    ensures forall m :: m in r <==> m in prev && m.url in Urls(keep)
  {
    if prev == [] then []
    else if prev[0].url in Urls(keep) then [prev[0]] + MediaRetained(prev[1..], keep)
    else MediaRetained(prev[1..], keep)
  }

  /** Every old entry is either retained by url or deleted, never both and never lost:
      the two filters split the old list as a multiset. */
  lemma {:induction false} MediaPartition(prev: seq<MediaItem>, keep: seq<MediaItem>)
    ensures multiset(MediaToDelete(prev, keep)) + multiset(MediaRetained(prev, keep)) == multiset(prev)
    ensures |MediaToDelete(prev, keep)| + |MediaRetained(prev, keep)| == |prev|
    ensures forall m :: !(m in MediaToDelete(prev, keep) && m in MediaRetained(prev, keep))
  {
    if prev != [] {
      MediaPartition(prev[1..], keep);
      assert prev == [prev[0]] + prev[1..];
    }
  }

  /** The deletion filter keeps the old order: filtering a concatenation filters each part. */
  lemma {:induction false} MediaToDeleteAppend(a: seq<MediaItem>, b: seq<MediaItem>, keep: seq<MediaItem>)
    ensures MediaToDelete(a + b, keep) == MediaToDelete(a, keep) + MediaToDelete(b, keep)
  {
    if a != [] {
      assert (a + b)[1..] == a[1..] + b;
      MediaToDeleteAppend(a[1..], b, keep);
    } else {
      assert a + b == b;
    }
  }

  /** Keeping an entry for every old url deletes nothing. */
  lemma {:induction false} MediaToDeleteAllKept(prev: seq<MediaItem>, keep: seq<MediaItem>)
    requires forall m :: m in prev ==> m.url in Urls(keep)
    ensures MediaToDelete(prev, keep) == []
  {
    if prev != [] {
      assert prev[0] in prev;
      MediaToDeleteAllKept(prev[1..], keep);
    }
  }

  /** Keeping nothing deletes every old entry, in order. */
  lemma {:induction false} MediaToDeleteNoneKept(prev: seq<MediaItem>)
    ensures MediaToDelete(prev, []) == prev
  {
    if prev != [] {
      MediaToDeleteNoneKept(prev[1..]);
      assert prev == [prev[0]] + prev[1..];
    }
  }

  /** The storage path each entry's url yields, if any, in entry order. */
  function EntryPaths(ms: seq<MediaItem>): (r: seq<Option<string>>)
    ensures |r| == |ms|
  {
    seq(|ms|, i requires 0 <= i < |ms| => StoragePath(ms[i].url))
  }

  /** The paths present in a list of optional paths, in order. */
  function Present(ps: seq<Option<string>>): (r: seq<string>)
    ensures |r| <= |ps|
  {
    if ps == [] then []
    else
      var last := ps[|ps| - 1];
      assert ps == ps[..|ps| - 1] + [last];
      Present(ps[..|ps| - 1]) + if last.Some? then [last.value] else []
  }

  /** A path is present exactly when some entry holds it. */
  lemma {:induction false} PresentMembers(ps: seq<Option<string>>)
    ensures forall p :: p in Present(ps) <==> Some(p) in ps
    decreases |ps|
  {
    if ps != [] {
      PresentMembers(ps[..|ps| - 1]);
      assert ps == ps[..|ps| - 1] + [ps[|ps| - 1]];
    }
  }

  lemma {:induction false} PresentAppend(ps: seq<Option<string>>, qs: seq<Option<string>>)
    ensures Present(ps + qs) == Present(ps) + Present(qs)
    decreases |qs|
  {
    if qs == [] {
      assert ps + qs == ps;
    } else {
      var init := qs[..|qs| - 1];
      assert (ps + qs)[..|ps + qs| - 1] == ps + init;
      PresentAppend(ps, init);
    }
  }

  lemma {:induction false} PresentAllSome(ps: seq<Option<string>>, paths: seq<string>)
    requires |ps| == |paths|
    requires forall i :: 0 <= i < |ps| ==> ps[i] == Some(paths[i])
    ensures Present(ps) == paths
    decreases |ps|
  {
    if ps != [] {
      PresentAllSome(ps[..|ps| - 1], paths[..|paths| - 1]);
      assert paths == paths[..|paths| - 1] + [paths[|paths| - 1]];
    }
  }

  /** The storage paths whose removal the loop over `ms` requests, in order: one for each
      entry whose url yields a path. */
  function RemovalPaths(ms: seq<MediaItem>): (r: seq<string>)
    ensures |r| <= |ms|
  {
    Present(EntryPaths(ms))
  }

  /** A removal is requested exactly for the paths some entry's url yields. */
  lemma RemovalPathsMembers(ms: seq<MediaItem>)
    ensures forall p :: p in RemovalPaths(ms) <==> exists i :: 0 <= i < |ms| && StoragePath(ms[i].url) == Some(p)
  {
    var ps := EntryPaths(ms);
    PresentMembers(ps);
    forall p
      ensures Some(p) in ps <==> exists i :: 0 <= i < |ms| && StoragePath(ms[i].url) == Some(p)
    {
      if Some(p) in ps {
        var i :| 0 <= i < |ps| && ps[i] == Some(p);
        assert StoragePath(ms[i].url) == Some(p);
      }
      if exists i :: 0 <= i < |ms| && StoragePath(ms[i].url) == Some(p) {
        var i :| 0 <= i < |ms| && StoragePath(ms[i].url) == Some(p);
        assert ps[i] == Some(p);
      }
    }
  }

  /** The removal requests of a concatenation are those of each part, in order. */
  lemma RemovalPathsAppend(a: seq<MediaItem>, b: seq<MediaItem>)
    ensures RemovalPaths(a + b) == RemovalPaths(a) + RemovalPaths(b)
  {
    assert EntryPaths(a + b) == EntryPaths(a) + EntryPaths(b);
    PresentAppend(EntryPaths(a), EntryPaths(b));
  }

  /** Entries whose urls are public urls of marker-free paths request the removal of
      exactly those paths, in order. */
  lemma RemovalPathsOfPublicUrls(ms: seq<MediaItem>, base: string, paths: seq<string>)
    requires |ms| == |paths| && CleanBefore(base, Marker)
    requires forall i :: 0 <= i < |ms| ==>
      ms[i].url == PublicUrl(base, paths[i]) && paths[i] != "" && Free(paths[i], Marker)
    ensures RemovalPaths(ms) == paths
  {
    var ps := EntryPaths(ms);
    forall i | 0 <= i < |ps|
      ensures ps[i] == Some(paths[i])
    {
      StoragePathOfPublicUrl(base, paths[i]);
    }
    PresentAllSome(ps, paths);
  }

  /** Removing the media of a post whose entries all came from one upload batch requests
      removal of exactly the objects that batch stored, in the same order. */
  lemma RemovalPathsOfUploads(files: seq<UploadFile>, uuid: nat -> string, base: string)
    requires CleanBefore(base, Marker)
    requires forall i :: 0 <= i < |files| ==> Free(FilePath(files, uuid, i), Marker)
    ensures RemovalPaths(UploadedItems(files, uuid, base)) == UploadedPaths(files, uuid)
  {
    var paths := UploadedPaths(files, uuid);
    RemovalPathsOfPublicUrls(UploadedItems(files, uuid, base), base, paths);
  }

  // ---------------------------------------------------------------------------------
  // The storage bucket

  /** The "media" bucket of the storage service, seen through what the handlers ask of
      it: the paths stored by successful uploads and the paths whose removal was
      requested, each in order. A removal's own outcome is only logged by the source, so
      it is not recorded. */
  class Storage {
    var uploads: seq<string>
    var removals: seq<string>

    constructor ()
      ensures uploads == [] && removals == []
    {
      uploads := [];
      removals := [];
    }

    /** The upload loop: each file goes to `posts/<uuid>.<ext>` and its media entry is
        pushed; the first rejected upload ends the loop with `ok` false, the files before
        it staying stored. */
    method Upload(files: seq<UploadFile>, uuid: nat -> string, accepts: string -> bool, base: string)
      returns (items: seq<MediaItem>, ok: bool)
      modifies this
      ensures var n := Accepted(files, uuid, accepts);
        && items == UploadedItems(files, uuid, base)[..n]
        && (ok <==> n == |files|)
        && uploads == old(uploads) + UploadedPaths(files, uuid)[..n]
      ensures removals == old(removals)
    {
      ghost var all := UploadedItems(files, uuid, base);
      ghost var paths := UploadedPaths(files, uuid);
      items := [];
      var i := 0;
      while i < |files|
        invariant 0 <= i <= |files|
        invariant forall j :: 0 <= j < i ==> accepts(paths[j])
        invariant items == all[..i]
        invariant uploads == old(uploads) + paths[..i]
        invariant removals == old(removals)
      {
        var path := UploadPath(uuid(i), files[i].originalname);
        var item := MediaItem(Classify(files[i].mimetype), PublicUrl(base, path));
        UploadStep(files, uuid, base, i);
        if !accepts(path) {
          AcceptedPrefixAt(paths, accepts, i);
          return items, false;
        }
        uploads := uploads + [path];
        items := items + [item];
        i := i + 1;
      }
      AcceptedPrefixAt(paths, accepts, i);
      assert all[..i] == all && paths[..i] == paths;
      ok := true;
    }

    /** The removal loop: for each entry whose URL yields a storage path, removal of that
        path is requested; a failed removal is only logged, so it never stops the loop. */
    method RemoveEach(ms: seq<MediaItem>)
      modifies this
      ensures removals == old(removals) + RemovalPaths(ms)
      ensures uploads == old(uploads)
    {
      ghost var ps := EntryPaths(ms);
      var i := 0;
      while i < |ms|
        invariant 0 <= i <= |ms|
        invariant removals == old(removals) + Present(ps[..i])
        invariant uploads == old(uploads)
      {
        var path := StoragePath(ms[i].url);
        assert ps[..i + 1][..i] == ps[..i] && ps[..i + 1][i] == path;
        if path.Some? {
          removals := removals + [path.value];
        }
        i := i + 1;
      }
      assert ps[..i] == ps;
    }
  }

  /** One turn of the upload loop extends both prefixes by the i-th path and entry. */
  lemma UploadStep(files: seq<UploadFile>, uuid: nat -> string, base: string, i: nat)
    requires i < |files|
    ensures var path := UploadPath(uuid(i), files[i].originalname);
      && UploadedPaths(files, uuid)[..i + 1] == UploadedPaths(files, uuid)[..i] + [path]
      && UploadedItems(files, uuid, base)[..i + 1] == UploadedItems(files, uuid, base)[..i]
           + [MediaItem(Classify(files[i].mimetype), PublicUrl(base, path))]
  {
    var paths := UploadedPaths(files, uuid);
    var all := UploadedItems(files, uuid, base);
    assert paths[..i + 1] == paths[..i] + [paths[i]];
    assert all[..i + 1] == all[..i] + [all[i]];
  }

  /** The prefix count is pinned down by where the first rejection stands. */
  lemma {:induction false} AcceptedPrefixAt(paths: seq<string>, accepts: string -> bool, i: nat)
    requires i <= |paths|
    requires forall j :: 0 <= j < i ==> accepts(paths[j])
    requires i < |paths| ==> !accepts(paths[i])
    ensures AcceptedPrefix(paths, accepts) == i
  {
    if i > 0 {
      assert accepts(paths[0]);
      AcceptedPrefixAt(paths[1..], accepts, i - 1);
    }
  }

  // ---------------------------------------------------------------------------------
  // Handlers

  /** createPost: a truthy title and at least one file are required before anything is
      uploaded; a rejected upload answers 500 and saves no post (the files already
      stored stay in the bucket); otherwise the post is saved with the uploaded media in
      upload order. */
  method CreatePost(posts: PostCollection, storage: Storage, title: Option<string>,
                    description: Option<string>, createdBy: UserRef, files: seq<UploadFile>,
                    uuid: nat -> string, accepts: string -> bool, base: string)
    returns (r: Reply<PostId>)
    requires posts.Valid()
    modifies posts, storage
    ensures posts.Valid()
    ensures storage.removals == old(storage.removals)
    ensures !Truthy(title) ==>
      r == Err(400, "Title is required") && posts.posts == old(posts.posts) && storage.uploads == old(storage.uploads)
    ensures Truthy(title) && files == [] ==>
      r == Err(400, "At least one media file is required") && posts.posts == old(posts.posts)
      && storage.uploads == old(storage.uploads)
    ensures Truthy(title) && files != [] ==>
      var n := Accepted(files, uuid, accepts);
      && storage.uploads == old(storage.uploads) + UploadedPaths(files, uuid)[..n]
      && (n < |files| ==> r == Err(500, "Failed to upload media") && posts.posts == old(posts.posts))
      && (n == |files| ==>
            && r == Ok(201, old(posts.nextId))
            && posts.posts == old(posts.posts)[old(posts.nextId) :=
                 NewPost(title.value, description, UploadedItems(files, uuid, base), createdBy)])
  {
    if !Truthy(title) {
      return Err(400, "Title is required");
    }
    if |files| == 0 {
      return Err(400, "At least one media file is required");
    }
    var items, ok := storage.Upload(files, uuid, accepts, base);
    if !ok {
      return Err(500, "Failed to upload media");
    }
    assert items == UploadedItems(files, uuid, base);
    var id := posts.Insert(NewPost(title.value, description, items, createdBy));
    r := Ok(201, id);
  }

  /** The parsed `existingMedia` field of an update request. */
  datatype MediaJson = Malformed | Parsed(items: seq<MediaItem>)

  /** The list updatePost keeps: [] unless a truthy existingMedia parsed. */
  function KeptMedia(existingMedia: Option<MediaJson>): seq<MediaItem> {
    match existingMedia
    case Some(Parsed(items)) => items
    case _ => []
  }

  /** The post updatePost saves: title and description overwritten only by truthy values,
      media replaced, everything else untouched. */
  function Revised(p: Post, title: Option<string>, description: Option<string>,
                   media: seq<MediaItem>): (q: Post)
    ensures q.title == (if Truthy(title) then title.value else p.title)
    ensures q.description == (if Truthy(description) then description else p.description)
    ensures q.media == media
    ensures q.likes == p.likes && q.shares == p.shares && q.repost == p.repost
    ensures q.createdBy == p.createdBy && q.url == p.url && q.postLink == p.postLink
  {
    p.(title := if Truthy(title) then title.value else p.title,
       description := if Truthy(description) then description else p.description,
       media := media)
  }

  /** updatePost: 400 without an id, 404 for an unknown post, 400 for unparseable
      existingMedia (nothing removed or saved). Otherwise the old entries whose url no
      kept entry has are removed from storage, and the post is saved with the kept list
      followed by the fresh uploads in upload order. A rejected upload answers 500 after
      the removals and saves nothing. */
  method UpdatePost(posts: PostCollection, storage: Storage, postId: Option<PostId>,
                    title: Option<string>, description: Option<string>,
                    existingMedia: Option<MediaJson>, files: seq<UploadFile>,
                    uuid: nat -> string, accepts: string -> bool, base: string)
    returns (r: Reply<Post>)
    requires posts.Valid()
    modifies posts, storage
    ensures posts.Valid() && posts.nextId == old(posts.nextId)
    ensures postId.None? ==>
      r == Err(400, "Post ID is required") && posts.posts == old(posts.posts)
      && storage.uploads == old(storage.uploads) && storage.removals == old(storage.removals)
    ensures postId.Some? && postId.value !in old(posts.posts) ==>
      r == Err(404, "Post not found") && posts.posts == old(posts.posts)
      && storage.uploads == old(storage.uploads) && storage.removals == old(storage.removals)
    ensures postId.Some? && postId.value in old(posts.posts) && existingMedia == Some(Malformed) ==>
      r == Err(400, "Invalid existingMedia format") && posts.posts == old(posts.posts)
      && storage.uploads == old(storage.uploads) && storage.removals == old(storage.removals)
    ensures postId.Some? && postId.value in old(posts.posts) && existingMedia != Some(Malformed) ==>
      var p := old(posts.posts)[postId.value];
      var keep := KeptMedia(existingMedia);
      var n := Accepted(files, uuid, accepts);
      && storage.removals == old(storage.removals) + RemovalPaths(MediaToDelete(p.media, keep))
      && storage.uploads == old(storage.uploads) + UploadedPaths(files, uuid)[..n]
      && (n < |files| ==> r == Err(500, "Failed to upload media") && posts.posts == old(posts.posts))
      && (n == |files| ==>
            var q := Revised(p, title, description, keep + UploadedItems(files, uuid, base));
            r == Ok(200, q) && posts.posts == old(posts.posts)[postId.value := q])
  {
    if postId.None? {
      return Err(400, "Post ID is required");
    }
    var id := postId.value;
    if id !in posts.posts {
      return Err(404, "Post not found");
    }
    var p := posts.posts[id];
    var q := Revised(p, title, description, p.media);
    var keep: seq<MediaItem> := [];
    if existingMedia.Some? {
      match existingMedia.value {
        case Malformed => return Err(400, "Invalid existingMedia format");
        case Parsed(items) => keep := items;
      }
    }
    storage.RemoveEach(MediaToDelete(p.media, keep));
    q := q.(media := keep);
    if |files| > 0 {
      var added, ok := storage.Upload(files, uuid, accepts, base);
      if !ok {
        return Err(500, "Failed to upload media");
      }
      assert added == UploadedItems(files, uuid, base);
      q := q.(media := q.media + added);
    } else {
      assert UploadedItems(files, uuid, base) == [] && UploadedPaths(files, uuid)[..0] == [];
      assert keep + [] == keep;
    }
    posts.Replace(id, q);
    r := Ok(200, q);
  }

  /** deletePost: 400 without an id, 404 for an unknown post; otherwise removal of every
      media object is requested and the post is deleted. */
  method DeletePost(posts: PostCollection, storage: Storage, postId: Option<PostId>)
    returns (r: Reply<()>)
    requires posts.Valid()
    modifies posts, storage
    ensures posts.Valid() && storage.uploads == old(storage.uploads)
    ensures postId.None? ==>
      r == Err(400, "Post ID is required") && posts.posts == old(posts.posts) && storage.removals == old(storage.removals)
    ensures postId.Some? && postId.value !in old(posts.posts) ==>
      r == Err(404, "Post not found") && posts.posts == old(posts.posts) && storage.removals == old(storage.removals)
    ensures postId.Some? && postId.value in old(posts.posts) ==>
      && r == Ok(200, ())
      && storage.removals == old(storage.removals) + RemovalPaths(old(posts.posts)[postId.value].media)
      && posts.posts == old(posts.posts) - {postId.value}
  {
    if postId.None? {
      return Err(400, "Post ID is required");
    }
    var id := postId.value;
    if id !in posts.posts {
      return Err(404, "Post not found");
    }
    storage.RemoveEach(posts.posts[id].media);
    posts.Remove(id);
    r := Ok(200, ());
  }

  /** The engagement list a handler grows. */
  datatype Reaction = Like | Share

  function Engaged(p: Post, e: Reaction): seq<UserRef> {
    match e
    case Like => p.likes
    case Share => p.shares
  }

  /** The post after `user` engaged: added to the list only when absent. */
  function EngagedBy(p: Post, e: Reaction, user: UserRef): (q: Post)
    ensures Engaged(q, e) == AddToSet(Engaged(p, e), user)
    ensures e == Like ==> q.shares == p.shares
    ensures e == Share ==> q.likes == p.likes
    ensures q.(likes := p.likes, shares := p.shares) == p
  {
    match e
    case Like => p.(likes := AddToSet(p.likes, user))
    case Share => p.(shares := AddToSet(p.shares, user))
  }

  /** likePost and sharePost: 404 for a missing or unknown post id (the id comes from the
      route parameter), 500 when the request carries no user; otherwise the caller is
      added to the list if absent and the list length is reported. */
  method Engage(posts: PostCollection, postId: Option<PostId>, user: Option<UserRef>, e: Reaction)
    returns (r: Reply<nat>)
    requires posts.Valid()
    modifies posts
    ensures posts.Valid() && posts.nextId == old(posts.nextId)
    ensures postId.None? || postId.value !in old(posts.posts) ==>
      r == Err(404, "Post not found") && posts.posts == old(posts.posts)
    ensures postId.Some? && postId.value in old(posts.posts) && user.None? ==>
      r.Status() == 500 && posts.posts == old(posts.posts)
    ensures postId.Some? && postId.value in old(posts.posts) && user.Some? ==>
      var q := EngagedBy(old(posts.posts)[postId.value], e, user.value);
      posts.posts == old(posts.posts)[postId.value := q] && r == Ok(200, |Engaged(q, e)|)
  {
    if postId.None? || postId.value !in posts.posts {
      return Err(404, "Post not found");
    }
    if user.None? {
      return Err(500, "Cannot read properties of null (reading '_id')");
    }
    var q := EngagedBy(posts.posts[postId.value], e, user.value);
    posts.Replace(postId.value, q);
    r := Ok(200, |Engaged(q, e)|);
  }

  /** Engaging twice in a row leaves the post as engaging once did. */
  lemma EngageIdempotent(p: Post, e: Reaction, user: UserRef)
    ensures EngagedBy(EngagedBy(p, e, user), e, user) == EngagedBy(p, e, user)
  {
    AddToSetIdempotent(Engaged(p, e), user);
  }

  /** pushShare: `$addToSet` on shares by id. An absent id becomes a fresh ObjectId that
      matches no post; an unknown id updates nothing; both give null. */
  method PushShare(posts: PostCollection, postId: Option<PostId>, user: UserRef)
    returns (r: Option<Post>)
    requires posts.Valid()
    modifies posts
    ensures posts.Valid() && posts.nextId == old(posts.nextId)
    ensures postId.None? || postId.value !in old(posts.posts) ==>
      r.None? && posts.posts == old(posts.posts)
    ensures postId.Some? && postId.value in old(posts.posts) ==>
      var q := EngagedBy(old(posts.posts)[postId.value], Share, user);
      r == Some(q) && posts.posts == old(posts.posts)[postId.value := q]
  {
    if postId.None? || postId.value !in posts.posts {
      return None;
    }
    var q := EngagedBy(posts.posts[postId.value], Share, user);
    posts.Replace(postId.value, q);
    r := Some(q);
  }

  // ---------------------------------------------------------------------------------
  // postToLinkedIn

  datatype ShareCategory = IMAGE | ARTICLE | NONE

  /** One entry of a share's media list: an uploaded asset or an original URL. */
  datatype ShareMedia = ShareMedia(status: string, media: Option<string>, originalUrl: Option<string>,
                                   description: Option<string>, title: Option<string>)

  /** The ugcPosts request body. */
  datatype UgcPost = UgcPost(author: string, lifecycleState: string, commentary: string,
                             category: ShareCategory, media: seq<ShareMedia>, visibility: string)

  const DefaultCommentary: string := "Check out this post!"

  function PersonUrn(id: string): string {
    "urn:li:person:" + id
  }

  /** The LinkedIn replies postToLinkedIn depends on: the userinfo `sub`, the asset of the
      image upload (None when one of its three requests failed; "" when the reply named no
      asset) and whether ugcPosts accepted the share. */
  datatype LinkedInReplies = LinkedInReplies(personId: Option<string>, imageAsset: Option<string>,
                                             published: bool)

  /** Only the first media item is looked at, and only an Image is uploaded. */
  predicate FirstIsImage(p: Post) {
    |p.media| > 0 && p.media[0].kind == Image
  }

  /** The share body for a post, given the person id and the uploaded asset URN, if any. */
  function LinkedInBody(post: Post, personId: string, mediaUrn: Option<string>): (b: UgcPost)
    ensures b.author == PersonUrn(personId) && b.lifecycleState == "PUBLISHED" && b.visibility == "PUBLIC"
    ensures b.commentary == OrElse(post.description, DefaultCommentary)
    ensures |b.media| <= 1
  {
    var initial := UgcPost(PersonUrn(personId), "PUBLISHED", OrElse(post.description, DefaultCommentary),
                           if |post.media| > 0 then IMAGE else ARTICLE, [], "PUBLIC");
    if Truthy(mediaUrn) then
      initial.(media := [ShareMedia("READY", mediaUrn, None, post.description, Some(post.title))])
    else if Truthy(post.url) then
      initial.(category := ARTICLE,
               media := [ShareMedia("READY", None, post.url, post.description, Some(post.title))])
    else initial
  }

  /** postToLinkedIn up to the publish call: fails without a person id, when the image
      upload fails, or when the share is refused; otherwise gives the body it posted. */
  function PostToLinkedIn(post: Post, replies: LinkedInReplies): (r: Option<UgcPost>)
    ensures r.Some? <==> Truthy(replies.personId) && (FirstIsImage(post) ==> replies.imageAsset.Some?)
                         && replies.published
    ensures r.Some? ==> r.value.commentary == OrElse(post.description, DefaultCommentary)
    ensures r.Some? ==> r.value.author == PersonUrn(replies.personId.value)
  {
    if !Truthy(replies.personId) then None
    else if FirstIsImage(post) && replies.imageAsset.None? then None
    else if !replies.published then None
    else
      var urn := if FirstIsImage(post) then replies.imageAsset else None;
      Some(LinkedInBody(post, replies.personId.value, urn))
  }

  /** What the posted body carries: an asset entry exactly when the first media item is
      an Image whose upload named an asset; otherwise an article entry exactly when the
      post has a truthy url; the category is IMAGE exactly when the post has media and
      no article entry replaced it, and never NONE. */
  lemma LinkedInBodyShape(post: Post, replies: LinkedInReplies)
    requires PostToLinkedIn(post, replies).Some?
    ensures var b := PostToLinkedIn(post, replies).value;
      var asset := FirstIsImage(post) && Truthy(replies.imageAsset);
      && (asset ==> b.media == [ShareMedia("READY", replies.imageAsset, None, post.description, Some(post.title))]
                    && b.category == IMAGE)
      && (!asset && Truthy(post.url) ==>
            b.media == [ShareMedia("READY", None, post.url, post.description, Some(post.title))]
            && b.category == ARTICLE)
      && (!asset && !Truthy(post.url) ==> b.media == [])
      && (b.category == IMAGE <==> |post.media| > 0 && (asset || !Truthy(post.url)))
      && b.category != NONE
  {
  }

  /** A post whose first media item is a video or document and that has no url is shared
      with category IMAGE and an empty media list. */
  lemma NonImageFirstMediaGivesEmptyImageShare(post: Post, replies: LinkedInReplies)
    requires |post.media| > 0 && post.media[0].kind != Image && !Truthy(post.url)
    requires Truthy(replies.personId) && replies.published
    ensures PostToLinkedIn(post, replies).Some?
    ensures PostToLinkedIn(post, replies).value.category == IMAGE
    ensures PostToLinkedIn(post, replies).value.media == []
  {
  }

  /** The post a client sends to be shared: its copy of the post and, if it has one, the
      id of the stored post. */
  datatype ClientPost = ClientPost(id: Option<PostId>, post: Post)

  /** createLinkedInPost: 500 when the request carries no user; 400 when the user has no
      LinkedIn token or no post is sent; 500 when postToLinkedIn fails; otherwise the body
      was posted and the user is added to the stored post's shares if absent. */
  method CreateLinkedInPost(posts: PostCollection, user: Option<UserModel.Stored>,
                            post: Option<ClientPost>, replies: LinkedInReplies)
    returns (r: Reply<UgcPost>)
    requires posts.Valid()
    modifies posts
    ensures posts.Valid() && posts.nextId == old(posts.nextId)
    ensures user.None? ==> r == Err(500, "Failed to post to LinkedIn") && posts.posts == old(posts.posts)
    ensures user.Some? && (!Truthy(user.value.doc.linkedinToken) || post.None?) ==>
      r == Err(400, "accessToken and post are required") && posts.posts == old(posts.posts)
    ensures user.Some? && Truthy(user.value.doc.linkedinToken) && post.Some? ==>
      var body := PostToLinkedIn(post.value.post, replies);
      var id := post.value.id;
      && (body.None? ==> r == Err(500, "Failed to post to LinkedIn") && posts.posts == old(posts.posts))
      && (body.Some? ==>
            && r == Ok(200, body.value)
            && (id.None? || id.value !in old(posts.posts) ==> posts.posts == old(posts.posts))
            && (id.Some? && id.value in old(posts.posts) ==>
                  posts.posts == old(posts.posts)[id.value := EngagedBy(old(posts.posts)[id.value], Share, user.value.id)]))
  {
    if user.None? {
      return Err(500, "Failed to post to LinkedIn");
    }
    if !Truthy(user.value.doc.linkedinToken) || post.None? {
      return Err(400, "accessToken and post are required");
    }
    var body := PostToLinkedIn(post.value.post, replies);
    if body.None? {
      return Err(500, "Failed to post to LinkedIn");
    }
    var _ := PushShare(posts, post.value.id, user.value.id);
    r := Ok(200, body.value);
  }
}
