/** The image migrator: posts of a category fetched page by page, the document library's
    folders and documents (a store updated in place), and `process_posts`, which gives every
    post with images a folder per category and a subfolder per post and uploads its images. */
module Documents {
  import opened Wrappers
  import opened Text
  import opened Paging
  import opened FolderNames
  import opened ImageUrls
  import opened Categories

  const PostsPerPage: nat := 100

  /** A WordPress post as the image migrator reads it (rendered title and content). */
  datatype Post = Post(id: int, title: string, content: string)

  /** `get_posts_by_category` from page `page` on: a page that raises ends the loop with
      what was gathered, and a page shorter than 100 items is the last one. */
  function UntilShortPage<T>(src: PageSource<T>, page: nat): Fetched<T>
    requires page >= 1
    decreases |src| + 1 - page
  {
    match Request(src, page)
    case ConnectionFailed => Fetched([], 1)
    case Reply(status, items, _) =>
      if RaisesForStatus(status) then Fetched([], 1)
      else if |items| < PostsPerPage then Fetched(items, 1)
      else
        var rest := UntilShortPage(src, page + 1);
        Fetched(items + rest.items, rest.requests + 1)
  }

  /** A page that neither raises nor stops the loop. */
  predicate FullPage<T>(r: Reply<seq<T>>)
  {
    r.Reply? && !RaisesForStatus(r.status) && |r.body| >= PostsPerPage
  }

  /** Full pages `p` .. `k` contribute their items in order, one request each. */
  lemma {:induction false} UntilShortPageFull<T>(src: PageSource<T>, p: nat, k: nat)
    requires 1 <= p <= k + 1 && k <= |src|
    requires forall i :: p - 1 <= i < k ==> FullPage(src[i])
    ensures UntilShortPage(src, p)
            == Fetched(Flatten(Bodies(src[p - 1..k])) + UntilShortPage(src, k + 1).items,
                       UntilShortPage(src, k + 1).requests + (k + 1 - p))
    decreases k + 1 - p
  {
    if p <= k {
      UntilShortPageFull(src, p + 1, k);
      FlattenBodiesFront(src, p, k);
      var body, rest := src[p - 1].body, UntilShortPage(src, p + 1);
      assert UntilShortPage(src, p) == Fetched(body + rest.items, rest.requests + 1);
      assert (body + Flatten(Bodies(src[p..k]))) + rest.items == body + (Flatten(Bodies(src[p..k])) + rest.items);
    }
  }

  /** After full pages, the first short page is the last one requested. */
  lemma ShortPageStops<T>(src: PageSource<T>, k: nat)
    requires k < |src|
    requires forall i :: 0 <= i < k ==> FullPage(src[i])
    requires src[k].Reply? && !RaisesForStatus(src[k].status) && |src[k].body| < PostsPerPage
    ensures UntilShortPage(src, 1) == Fetched(Flatten(Bodies(src[..k + 1])), k + 1)
  {
    UntilShortPageFull(src, 1, k);
    var tail := UntilShortPage(src, k + 1);
    assert tail == Fetched(src[k].body, 1);
    assert src[..k + 1] == src[..k] + [src[k]];
    assert Bodies(src[..k + 1]) == Bodies(src[..k]) + Bodies([src[k]]) by {
      BodiesAppend(src[..k], [src[k]]);
    }
    FlattenAppend(Bodies(src[..k]), Bodies([src[k]]));
    assert Flatten(Bodies([src[k]])) == src[k].body;
  }

  /** After full pages, a failed request ends the loop without raising: what was gathered
      before it is returned. */
  lemma ErrorPageStops<T>(src: PageSource<T>, k: nat)
    requires k <= |src|
    requires forall i :: 0 <= i < k ==> FullPage(src[i])
    requires k < |src| ==> src[k].ConnectionFailed? || RaisesForStatus(src[k].status)
    ensures UntilShortPage(src, 1) == Fetched(Flatten(Bodies(src[..k])), k + 1)
  {
    UntilShortPageFull(src, 1, k);
  }

  lemma {:induction false} BodiesAppend<T>(a: seq<Reply<seq<T>>>, b: seq<Reply<seq<T>>>)
    ensures Bodies(a + b) == Bodies(a) + Bodies(b)
  {
    if a != [] {
      assert (a + b)[0] == a[0];
      assert (a + b)[1..] == a[1..] + b;
      BodiesAppend(a[1..], b);
    } else {
      assert a + b == b;
    }
  }

  /** Pages of 100, 100 and 37 posts give 237 posts in three requests. */
  lemma ThreePagesExample(a: seq<Post>, b: seq<Post>, c: seq<Post>)
    requires |a| == 100 && |b| == 100 && |c| == 37
    ensures var f := UntilShortPage([Reply(200, a, None), Reply(200, b, None), Reply(200, c, None)], 1);
            f.items == a + b + c && |f.items| == 237 && f.requests == 3
  {
    var src: PageSource<Post> := [Reply(200, a, None), Reply(200, b, None), Reply(200, c, None)];
    ShortPageStops(src, 2);
    assert src[..3] == src;
    assert Bodies(src) == [a, b, c];
    assert Flatten([a, b, c]) == a + b + c by {
      assert [a, b, c][1..] == [b, c];
      assert [b, c][1..] == [c];
      assert [c][1..] == [];
      assert Flatten([c]) == c + Flatten([]);
      assert Flatten([b, c]) == b + Flatten([c]);
      assert Flatten([a, b, c]) == a + Flatten([b, c]);
    }
  }

  /** `get_posts_by_category`: requests page after page, extending the list of posts. */
  method GetPostsByCategory(src: PageSource<Post>) returns (posts: seq<Post>, requests: nat)
    ensures Fetched(posts, requests) == UntilShortPage(src, 1)
  {
    posts, requests := [], 0;
    var page: nat := 1;
    while true
      invariant 1 <= page <= |src| + 1
      invariant UntilShortPage(src, 1)
                == Fetched(posts + UntilShortPage(src, page).items, requests + UntilShortPage(src, page).requests)
      decreases |src| + 1 - page
    {
      var reply := Request(src, page);
      requests := requests + 1;
      if reply.ConnectionFailed? || RaisesForStatus(reply.status) {
        assert posts + [] == posts;
        break;
      }
      var rest := UntilShortPage(src, page + 1);
      assert |reply.body| >= PostsPerPage ==> posts + UntilShortPage(src, page).items
                                                == (posts + reply.body) + rest.items;
      posts := posts + reply.body;
      if |reply.body| < PostsPerPage {
        break;
      }
      page := page + 1;
    }
  }

  /** A folder of the document library; `parent` is `None` for a folder at the site's root. */
  datatype Folder = Folder(id: nat, name: string, parent: Option<nat>)

  datatype Document = Document(id: nat, folderId: nat, title: string, contentUrl: string)

  /** The first folder under `parent` called `name`, as a scan of the folder listing finds it. */
  function FindFolder(fs: seq<Folder>, parent: Option<nat>, name: string): (r: Option<nat>)
    ensures r.None? <==> forall i :: 0 <= i < |fs| ==> !(fs[i].parent == parent && fs[i].name == name)
    ensures r.Some? ==> exists i :: 0 <= i < |fs| && fs[i].parent == parent && fs[i].name == name
                                 && fs[i].id == r.value
  {
    if fs == [] then None
    else if fs[0].parent == parent && fs[0].name == name then Some(fs[0].id)
    else FindFolder(fs[1..], parent, name)
  }

  lemma {:induction false} FindFolderAppend(fs: seq<Folder>, f: Folder, parent: Option<nat>, name: string)
    ensures FindFolder(fs + [f], parent, name)
            == if FindFolder(fs, parent, name).Some? then FindFolder(fs, parent, name)
               else if f.parent == parent && f.name == name then Some(f.id)
               else None
  {
    if fs == [] {
      assert [] + [f] == [f];
    } else {
      assert (fs + [f])[1..] == fs[1..] + [f];
      FindFolderAppend(fs[1..], f, parent, name);
    }
  }

  /** The names of the folders directly under `parent`. */
  function ChildNames(fs: seq<Folder>, parent: nat): set<string>
  {
    set f | f in fs && f.parent == Some(parent) :: f.name
  }

  /** The content URL of the first document in `folderId` titled `title`. */
  function FindDocument(ds: seq<Document>, folderId: nat, title: string): (r: Option<string>)
    ensures r.None? <==> forall i :: 0 <= i < |ds| ==> !(ds[i].folderId == folderId && ds[i].title == title)
  {
    if ds == [] then None
    else if ds[0].folderId == folderId && ds[0].title == title then Some(ds[0].contentUrl)
    else FindDocument(ds[1..], folderId, title)
  }

  lemma {:induction false} FindDocumentAppend(ds: seq<Document>, d: Document, folderId: nat, title: string)
    ensures FindDocument(ds + [d], folderId, title)
            == if FindDocument(ds, folderId, title).Some? then FindDocument(ds, folderId, title)
               else if d.folderId == folderId && d.title == title then Some(d.contentUrl)
               else None
  {
    if ds == [] {
      assert [] + [d] == [d];
    } else {
      assert (ds + [d])[1..] == ds[1..] + [d];
      FindDocumentAppend(ds[1..], d, folderId, title);
    }
  }

  /** The content URL the library gives a new document. */
  function DocumentUrl(id: nat): (u: string)
    ensures u != []
  {
    "/documents/" + NatToString(id)
  }

  /** Documents with different identifiers get different URLs. */
  lemma DocumentUrlDistinct(a: nat, b: nat)
    requires a != b
    ensures DocumentUrl(a) != DocumentUrl(b)
  {
    assert DocumentUrl(a)[11..] == NatToString(a);
    assert DocumentUrl(b)[11..] == NatToString(b);
    ParseNatToString(a);
    ParseNatToString(b);
  }

  /** The folder title given to a post whose title is blank. */
  const Untitled: string := "SEM TITULO"

  /** The title a post's subfolder starts from: a blank post title becomes `SEM TITULO`. */
  function SubfolderTitle(postTitle: string): (t: string)
    ensures t != []
  {
    if Strip(postTitle) == [] then Untitled else postTitle
  }

  /** A snapshot of the document library and the migrator's two counters. */
  datatype LibraryState = LibraryState(folders: seq<Folder>, documents: seq<Document>, nextId: nat,
                                       online: bool, foldersCreated: nat, imagesUploaded: nat)

  /** The library once `create_or_get_folder_in_liferay` has succeeded for the sanitised
      name `name`: unchanged when a root folder of that name exists, otherwise with one
      more root folder, counted. */
  function WithCategoryFolder(s: LibraryState, name: string): LibraryState
  {
    if FindFolder(s.folders, None, name).Some? then s
    else s.(folders := s.folders + [Folder(s.nextId, name, None)], nextId := s.nextId + 1,
            foldersCreated := s.foldersCreated + 1)
  }

  /** The identifier that call returns. */
  function CategoryFolder(s: LibraryState, name: string): nat
  {
    match FindFolder(s.folders, None, name)
    case Some(id) => id
    case None => s.nextId
  }

  /** The file names of the images a post's migration uploads: those of the accepted URLs
      whose file name is not empty and whose download succeeds, in order. */
  function Uploadable(valid: seq<string>, downloads: string -> bool): (names: seq<string>)
    ensures |names| <= |valid|
    ensures forall n :: n in names ==> n != []
  {
    if valid == [] then []
    else
      var u := valid[|valid| - 1];
      Uploadable(valid[..|valid| - 1], downloads) + (if Fetches(u, downloads) then [Basename(u)] else [])
  }

  /** The image at `u` has a file name and downloads. */
  predicate Fetches(u: string, downloads: string -> bool)
  {
    Basename(u) != [] && downloads(ResolveUrl(u))
  }

  /** Removing the last URL removes at most its own file name. */
  lemma UploadableStep(valid: seq<string>, downloads: string -> bool, n: string)
    requires valid != []
    ensures n in Uploadable(valid, downloads) <==>
              n in Uploadable(valid[..|valid| - 1], downloads)
              || (Fetches(valid[|valid| - 1], downloads) && Basename(valid[|valid| - 1]) == n)
  {
  }

  /** The file name of every URL that downloads is uploaded. */
  lemma {:induction false} UploadableComplete(valid: seq<string>, downloads: string -> bool, i: nat, n: string)
    requires i < |valid| && Fetches(valid[i], downloads) && Basename(valid[i]) == n
    ensures n in Uploadable(valid, downloads)
  {
    var init := valid[..|valid| - 1];
    UploadableStep(valid, downloads, n);
    if i < |init| {
      assert init[i] == valid[i];
      UploadableComplete(init, downloads, i, n);
    }
  }

  /** Every uploaded file name is that of a URL that downloads, and is not empty. */
  lemma {:induction false} UploadableSound(valid: seq<string>, downloads: string -> bool, n: string)
    returns (i: nat)
    requires n in Uploadable(valid, downloads)
    ensures i < |valid| && Fetches(valid[i], downloads) && Basename(valid[i]) == n && n != []
  {
    var init := valid[..|valid| - 1];
    UploadableStep(valid, downloads, n);
    if n in Uploadable(init, downloads) {
      i := UploadableSound(init, downloads, n);
      assert init[i] == valid[i];
    } else {
      i := |valid| - 1;
    }
  }

  /** What migrating one post's images does to a library `s` that is reachable, giving
      `t`: the category folder is got or created, one new subfolder under it takes the
      first free variant of the post's title, and then the uploadable images are
      uploaded into that subfolder. */
  ghost predicate ImagesMigrated(s: LibraryState, t: LibraryState, categoryTitle: string, postTitle: string,
                                 valid: seq<string>, downloads: string -> bool)
  {
    && categoryTitle != []
    && MigratedInto(s, t, Sanitize(categoryTitle).value, Sanitize(SubfolderTitle(postTitle)).value,
                    Uploadable(valid, downloads))
  }

  /** The same, for the sanitised category folder name `name`, the sanitised subfolder
      title `base` and the file names `names` uploaded. */
  ghost predicate MigratedInto(s: LibraryState, t: LibraryState, name: string, base: string, names: seq<string>)
  {
    var folder := CategoryFolder(s, name);
    var m := WithCategoryFolder(s, name);
    var subfolder := m.nextId;
    && |t.folders| == |m.folders| + 1 && t.folders[..|m.folders|] == m.folders
    && t.folders[|m.folders|].id == subfolder && t.folders[|m.folders|].parent == Some(folder)
    && t.folders[|m.folders|].name == FirstFreeName(base, ChildNames(m.folders, folder))
    && Uploaded(m.(folders := t.folders, nextId := subfolder + 1), t, subfolder, names)
  }

  /** From `s` to `t` the images `names` were uploaded into `folderId`: each is counted and
      has a document there, the only new documents are in that folder, each took the next
      identifier, and the folders are untouched. */
  ghost predicate Uploaded(s: LibraryState, t: LibraryState, folderId: nat, names: seq<string>)
  {
    && t.folders == s.folders && t.online == s.online && t.foldersCreated == s.foldersCreated
    && t.imagesUploaded == s.imagesUploaded + |names|
    && s.documents <= t.documents
    && (forall k :: |s.documents| <= k < |t.documents| ==> t.documents[k].folderId == folderId)
    && t.nextId == s.nextId + (|t.documents| - |s.documents|)
    && (forall n :: n in names ==> FindDocument(t.documents, folderId, n).Some?)
  }

  /** What one successful `upload_image_to_liferay` does, as its contract states it. */
  ghost predicate UploadedOnce(s: LibraryState, t: LibraryState, folderId: nat, title: string)
  {
    && t.folders == s.folders && t.online == s.online && t.foldersCreated == s.foldersCreated
    && t.imagesUploaded == s.imagesUploaded + 1
    && ((t.documents == s.documents && t.nextId == s.nextId && FindDocument(s.documents, folderId, title).Some?)
        || (t.documents == s.documents + [Document(s.nextId, folderId, title, DocumentUrl(s.nextId))]
            && t.nextId == s.nextId + 1))
  }

  /** One more upload extends what was uploaded. */
  lemma UploadedStep(s0: LibraryState, s1: LibraryState, s2: LibraryState, folderId: nat,
                     names: seq<string>, title: string)
    requires Uploaded(s0, s1, folderId, names) && UploadedOnce(s1, s2, folderId, title)
    ensures Uploaded(s0, s2, folderId, names + [title])
  {
    if s2.documents != s1.documents {
      var d := Document(s1.nextId, folderId, title, DocumentUrl(s1.nextId));
      forall n | n in names + [title] ensures FindDocument(s2.documents, folderId, n).Some? {
        FindDocumentAppend(s1.documents, d, folderId, n);
      }
      assert s0.documents <= s2.documents by {
        assert s2.documents[..|s1.documents|] == s1.documents;
      }
    }
  }

  /** After a migration the category folder is found under its name, the counters grew by
      the uploads and by the folders created, and the library holds one more folder than
      it created. */
  lemma MigratedCounts(s: LibraryState, t: LibraryState, categoryTitle: string, postTitle: string,
                       valid: seq<string>, downloads: string -> bool)
    requires ImagesMigrated(s, t, categoryTitle, postTitle, valid, downloads)
    ensures FindFolder(t.folders, None, Sanitize(categoryTitle).value)
            == Some(CategoryFolder(s, Sanitize(categoryTitle).value))
    ensures t.imagesUploaded == s.imagesUploaded + |Uploadable(valid, downloads)|
    ensures t.foldersCreated <= s.foldersCreated + 1
    ensures |t.folders| + s.foldersCreated == |s.folders| + t.foldersCreated + 1
  {
    MigratedIntoCounts(s, t, Sanitize(categoryTitle).value, Sanitize(SubfolderTitle(postTitle)).value,
                       Uploadable(valid, downloads));
  }

  lemma MigratedIntoCounts(s: LibraryState, t: LibraryState, name: string, base: string, names: seq<string>)
    requires MigratedInto(s, t, name, base, names)
    ensures FindFolder(t.folders, None, name) == Some(CategoryFolder(s, name))
    ensures t.imagesUploaded == s.imagesUploaded + |names|
    ensures t.foldersCreated <= s.foldersCreated + 1
    ensures |t.folders| + s.foldersCreated == |s.folders| + t.foldersCreated + 1
  {
    var m := WithCategoryFolder(s, name);
    CategoryFolderFound(s, name);
    var n := |m.folders|;
    var last := t.folders[n];
    assert last.parent.Some?;
    assert t.folders[n..] == [last];
    assert t.folders == t.folders[..n] + t.folders[n..];
    FindFolderAppend(m.folders, last, None, name);
  }

  /** Getting or creating the category folder leaves it found under its name, with at
      most one folder more, counted. */
  lemma CategoryFolderFound(s: LibraryState, name: string)
    ensures FindFolder(WithCategoryFolder(s, name).folders, None, name) == Some(CategoryFolder(s, name))
    ensures |WithCategoryFolder(s, name).folders| + s.foldersCreated
            == |s.folders| + WithCategoryFolder(s, name).foldersCreated
    ensures WithCategoryFolder(s, name).foldersCreated <= s.foldersCreated + 1
  {
    if FindFolder(s.folders, None, name).None? {
      FindFolderAppend(s.folders, Folder(s.nextId, name, None), None, name);
    }
  }

  /** The document library of the destination site, with the migrator's two counters.
      `online` is false for a server whose every request fails. */
  class DocumentLibrary {
    var folders: seq<Folder>
    var documents: seq<Document>
    var nextId: nat
    var online: bool
    var foldersCreated: nat
    var imagesUploaded: nat

    ghost function State(): LibraryState
      reads this
    {
      LibraryState(folders, documents, nextId, online, foldersCreated, imagesUploaded)
    }

    /** Every identifier in use is below `nextId`. */
    ghost predicate Valid()
      reads this
    {
      && (forall i :: 0 <= i < |folders| ==> folders[i].id < nextId)
      && (forall i :: 0 <= i < |documents| ==> documents[i].id < nextId)
    }

    constructor (folders: seq<Folder>, documents: seq<Document>, nextId: nat, online: bool)
      requires forall i :: 0 <= i < |folders| ==> folders[i].id < nextId
      requires forall i :: 0 <= i < |documents| ==> documents[i].id < nextId
      ensures Valid()
      ensures this.folders == folders && this.documents == documents && this.nextId == nextId
      ensures this.online == online && foldersCreated == 0 && imagesUploaded == 0
    {
      this.folders := folders;
      this.documents := documents;
      this.nextId := nextId;
      this.online := online;
      foldersCreated := 0;
      imagesUploaded := 0;
    }

    /** `create_or_get_folder_in_liferay`: the sanitised title names a root folder; an
        existing one is reused, otherwise exactly one is created and counted. A blank title
        or a failed request raises. */
    method CreateOrGetFolder(title: string) returns (r: Result<nat>)
      requires Valid()
      modifies this
      ensures Valid()
      ensures documents == old(documents) && online == old(online) && imagesUploaded == old(imagesUploaded)
      ensures title == [] || !online ==> r.Failure? && folders == old(folders) && nextId == old(nextId)
                                         && foldersCreated == old(foldersCreated)
      ensures title != [] && online ==>
                var name := Sanitize(title).value;
                match old(FindFolder(folders, None, name))
                case Some(id) =>
                  r == Success(id) && folders == old(folders) && nextId == old(nextId)
                  && foldersCreated == old(foldersCreated)
                case None =>
                  r == Success(old(nextId)) && folders == old(folders) + [Folder(old(nextId), name, None)]
                  && nextId == old(nextId) + 1 && foldersCreated == old(foldersCreated) + 1
      ensures r.Success? ==> FindFolder(folders, None, Sanitize(title).value) == Some(r.value)
    {
      var sanitized := SanitizeFolderTitle(title);
      if sanitized.Failure? {
        return Failure(sanitized.reason);
      }
      if !online {
        return Failure("request to the document library failed");
      }
      r := FindOrCreateRoot(sanitized.value);
    }

    /** The lookup and the creation of a root folder under an already sanitised name. */
    method FindOrCreateRoot(name: string) returns (r: Result<nat>)
      requires Valid() && online
      modifies this
      ensures Valid()
      ensures documents == old(documents) && online == old(online) && imagesUploaded == old(imagesUploaded)
      ensures match old(FindFolder(folders, None, name))
              case Some(id) =>
                r == Success(id) && folders == old(folders) && nextId == old(nextId)
                && foldersCreated == old(foldersCreated)
              case None =>
                r == Success(old(nextId)) && folders == old(folders) + [Folder(old(nextId), name, None)]
                && nextId == old(nextId) + 1 && foldersCreated == old(foldersCreated) + 1
      ensures r.Success? ==> FindFolder(folders, None, name) == Some(r.value)
    {
      match FindFolder(folders, None, name)
      case Some(id) =>
        r := Success(id);
      case None =>
        FindFolderAppend(folders, Folder(nextId, name, None), None, name);
        folders := folders + [Folder(nextId, name, None)];
        r := Success(nextId);
        nextId := nextId + 1;
        foldersCreated := foldersCreated + 1;
    }

    /** `create_or_get_subfolder`: picks a name not used by any sibling, so the lookup by
        that name never matches and every call that reaches the server creates a new
        subfolder. Any failure returns the parent's identifier. */
    method CreateOrGetSubfolder(parent: nat, postTitle: string) returns (id: nat)
      requires Valid()
      modifies this
      ensures Valid()
      ensures documents == old(documents) && online == old(online)
      ensures foldersCreated == old(foldersCreated) && imagesUploaded == old(imagesUploaded)
      ensures !online ==> id == parent && folders == old(folders) && nextId == old(nextId)
      ensures online ==>
                && id == old(nextId) && nextId == old(nextId) + 1
                && |folders| == |old(folders)| + 1 && folders[..|old(folders)|] == old(folders)
                && folders[|old(folders)|].id == id && folders[|old(folders)|].parent == Some(parent)
                && folders[|old(folders)|].name !in ChildNames(old(folders), parent)
                && IsFirstFree(Sanitize(SubfolderTitle(postTitle)).value, ChildNames(old(folders), parent),
                               folders[|old(folders)|].name)
                && folders[|old(folders)|].name
                   == FirstFreeName(Sanitize(SubfolderTitle(postTitle)).value, ChildNames(old(folders), parent))
    {
      var title := postTitle;
      if Strip(postTitle) == [] {
        title := Untitled;
      }
      var sanitized := SanitizeFolderTitle(title);
      var base := sanitized.value;
      if !online {
        return parent;
      }
      id := CreateUniqueSubfolder(parent, base);
    }

    /** The lookup and the creation of a subfolder under the first free variant of an
        already sanitised name. */
    method CreateUniqueSubfolder(parent: nat, base: string) returns (id: nat)
      requires Valid() && online
      modifies this
      ensures Valid()
      ensures documents == old(documents) && online == old(online)
      ensures foldersCreated == old(foldersCreated) && imagesUploaded == old(imagesUploaded)
      ensures && id == old(nextId) && nextId == old(nextId) + 1
              && |folders| == |old(folders)| + 1 && folders[..|old(folders)|] == old(folders)
              && folders[|old(folders)|].id == id && folders[|old(folders)|].parent == Some(parent)
              && folders[|old(folders)|].name !in ChildNames(old(folders), parent)
              && IsFirstFree(base, ChildNames(old(folders), parent), folders[|old(folders)|].name)
              && folders[|old(folders)|].name == FirstFreeName(base, ChildNames(old(folders), parent))
    {
      var existing := ChildNames(folders, parent);
      var unique := GenerateUniqueName(base, existing);
      match FindFolder(folders, Some(parent), unique)
      case Some(found) =>
        id := found;
      case None =>
        folders := folders + [Folder(nextId, unique, Some(parent))];
        id := nextId;
        nextId := nextId + 1;
    }

    /** `upload_image_to_liferay`: a document of the same title in the folder is reused
        (its URL returned, nothing uploaded); otherwise the image is uploaded. Both paths
        count an uploaded image. A failed request raises. */
    method UploadImage(folderId: nat, imageName: string) returns (r: Result<string>)
      requires Valid()
      modifies this
      ensures Valid()
      ensures folders == old(folders) && online == old(online) && foldersCreated == old(foldersCreated)
      ensures !online ==> (r.Failure? && documents == old(documents) && nextId == old(nextId)
                           && imagesUploaded == old(imagesUploaded))
      ensures online ==> imagesUploaded == old(imagesUploaded) + 1
      ensures online ==>
                var existing := old(FindDocument(documents, folderId, imageName));
                if existing.Some? && existing.value != [] then
                  r == Success(existing.value) && documents == old(documents) && nextId == old(nextId)
                else
                  r == Success(DocumentUrl(old(nextId))) && nextId == old(nextId) + 1
                  && documents == old(documents) + [Document(old(nextId), folderId, imageName, DocumentUrl(old(nextId)))]
    {
      if !online {
        return Failure("request to the document library failed");
      }
      var existing := FindDocument(documents, folderId, imageName);
      if existing.Some? && existing.value != [] {
        imagesUploaded := imagesUploaded + 1;
        return Success(existing.value);
      }
      var url := DocumentUrl(nextId);
      documents := documents + [Document(nextId, folderId, imageName, url)];
      nextId := nextId + 1;
      imagesUploaded := imagesUploaded + 1;
      r := Success(url);
    }
  }

  /** Getting or creating the same folder twice gives the same identifier and creates at
      most one folder. */
  method FolderTwice(lib: DocumentLibrary, title: string) returns (first: Result<nat>, second: Result<nat>)
    requires lib.Valid()
    modifies lib
    ensures first.Success? <==> second.Success?
    ensures first.Success? ==> first == second
    ensures |lib.folders| <= |old(lib.folders)| + 1
    ensures lib.foldersCreated <= old(lib.foldersCreated) + 1
  {
    first := lib.CreateOrGetFolder(title);
    second := lib.CreateOrGetFolder(title);
  }

  /** The subfolder operation is not idempotent: two calls with the same parent and title
      on a reachable server create two subfolders with different names. */
  method SubfolderTwice(lib: DocumentLibrary, parent: nat, title: string) returns (first: nat, second: nat)
    requires lib.Valid() && lib.online
    modifies lib
    ensures first != second
    ensures |lib.folders| == |old(lib.folders)| + 2
    ensures lib.folders[|old(lib.folders)|].name != lib.folders[|old(lib.folders)| + 1].name
  {
    first := lib.CreateOrGetSubfolder(parent, title);
    ghost var between := lib.folders;
    second := lib.CreateOrGetSubfolder(parent, title);
    assert lib.folders[..|between|] == between;
    assert between[|old(lib.folders)|] in between;
    assert between[|old(lib.folders)|].name in ChildNames(between, parent);
    assert lib.folders[|old(lib.folders)|] == between[|old(lib.folders)|];
  }

  /** Uploading the same image twice into one folder uploads it at most once and returns
      the same URL twice, unless the folder already holds a document of that title with an
      empty content URL: that one is never reused, so each call uploads again. */
  method UploadTwice(lib: DocumentLibrary, folderId: nat, imageName: string) returns (first: Result<string>, second: Result<string>)
    requires lib.Valid()
    modifies lib
    ensures first.Success? <==> second.Success?
    ensures FindDocument(old(lib.documents), folderId, imageName) != Some([]) ==>
              (first.Success? ==> first == second) && |lib.documents| <= |old(lib.documents)| + 1
    ensures FindDocument(old(lib.documents), folderId, imageName) == Some([]) && old(lib.online) ==>
              first != second && |lib.documents| == |old(lib.documents)| + 2
  {
    first := lib.UploadImage(folderId, imageName);
    if lib.online {
      var existing := FindDocument(old(lib.documents), folderId, imageName);
      if !(existing.Some? && existing.value != []) {
        FindDocumentAppend(old(lib.documents), Document(old(lib.nextId), folderId, imageName, DocumentUrl(old(lib.nextId))), folderId, imageName);
      }
    }
    second := lib.UploadImage(folderId, imageName);
    DocumentUrlDistinct(old(lib.nextId), old(lib.nextId) + 1);
  }

  /** The identifiers of a list of posts. */
  function PostIds(posts: seq<Post>): (ids: seq<int>)
    ensures |ids| == |posts|
    ensures forall i :: 0 <= i < |posts| ==> ids[i] == posts[i].id
  {
    seq(|posts|, i requires 0 <= i < |posts| => posts[i].id)
  }

  lemma PostIdsAppend(a: seq<Post>, b: seq<Post>)
    ensures PostIds(a + b) == PostIds(a) + PostIds(b)
  {
  }

  /** Each identifier once, at its first occurrence. */
  function FirstOccurrences(ids: seq<int>): seq<int>
  {
    if ids == [] then []
    else if ids[|ids| - 1] in ids[..|ids| - 1] then FirstOccurrences(ids[..|ids| - 1])
    else FirstOccurrences(ids[..|ids| - 1]) + [ids[|ids| - 1]]
  }

  predicate Distinct(s: seq<int>)
  {
    forall i, j :: 0 <= i < j < |s| ==> s[i] != s[j]
  }

  /** The first occurrences are distinct and are exactly the identifiers that occur. */
  lemma {:induction false} FirstOccurrencesDistinct(ids: seq<int>)
    ensures Distinct(FirstOccurrences(ids))
    ensures forall x :: x in FirstOccurrences(ids) <==> x in ids
  {
    if ids != [] {
      var init := ids[..|ids| - 1];
      FirstOccurrencesDistinct(init);
      assert ids == init + [ids[|ids| - 1]];
    }
  }

  /** Reading further never changes the order of what was already handled. */
  lemma {:induction false} FirstOccurrencesPrefix(a: seq<int>, b: seq<int>)
    ensures FirstOccurrences(a) <= FirstOccurrences(a + b)
    decreases |b|
  {
    if b != [] {
      var init := b[..|b| - 1];
      assert (a + b)[..|a + b| - 1] == a + init;
      FirstOccurrencesPrefix(a, init);
    } else {
      assert a + b == a;
    }
  }

  /** Reading one more post handles it exactly when its identifier is new. */
  lemma SeenStep(seen: seq<Post>, post: Post)
    ensures PostIds(seen + [post]) == PostIds(seen) + [post.id]
    ensures FirstOccurrences(PostIds(seen + [post]))
            == if post.id in PostIds(seen) then FirstOccurrences(PostIds(seen))
               else FirstOccurrences(PostIds(seen)) + [post.id]
  {
    var ids := PostIds(seen + [post]);
    assert ids[..|ids| - 1] == PostIds(seen);
  }

  /** The bookkeeping for one more post: one already seen changes nothing, a new one
      joins both the set and the list. */
  lemma ProcessedStep(before: seq<Post>, post: Post, processed: set<int>, handled: seq<int>)
    requires forall x :: x in processed <==> x in PostIds(before)
    requires handled == FirstOccurrences(PostIds(before))
    ensures post.id in processed ==>
              (forall x :: x in processed <==> x in PostIds(before + [post]))
              && handled == FirstOccurrences(PostIds(before + [post]))
    ensures post.id !in processed ==>
              (forall x :: x in processed + {post.id} <==> x in PostIds(before + [post]))
              && handled + [post.id] == FirstOccurrences(PostIds(before + [post]))
  {
    SeenStep(before, post);
  }

  /** Every post of every mapped category, category by category, as the pages give them. */
  function AllPosts(mapping: seq<CategoryMapping>, sources: int -> PageSource<Post>): seq<Post>
  {
    if mapping == [] then []
    else AllPosts(mapping[..|mapping| - 1], sources)
         + UntilShortPage(sources(mapping[|mapping| - 1].wordpressId), 1).items
  }

  /** The posts of the first `n` categories are a prefix of all posts. */
  lemma {:induction false} AllPostsPrefix(mapping: seq<CategoryMapping>, sources: int -> PageSource<Post>, n: nat)
    requires n <= |mapping|
    ensures AllPosts(mapping[..n], sources) <= AllPosts(mapping, sources)
    decreases |mapping|
  {
    if n < |mapping| {
      var init := mapping[..|mapping| - 1];
      assert init[..n] == mapping[..n];
      AllPostsPrefix(init, sources, n);
    } else {
      assert mapping[..n] == mapping;
    }
  }

  /** What is handled after the first `n` categories is a prefix of what a full run handles. */
  lemma HandledPrefix(mapping: seq<CategoryMapping>, sources: int -> PageSource<Post>, n: nat)
    requires n <= |mapping|
    ensures FirstOccurrences(PostIds(AllPosts(mapping[..n], sources)))
            <= FirstOccurrences(PostIds(AllPosts(mapping, sources)))
  {
    AllPostsPrefix(mapping, sources, n);
    PrefixHandled(AllPosts(mapping[..n], sources), AllPosts(mapping, sources));
  }

  lemma PrefixHandled(done: seq<Post>, whole: seq<Post>)
    requires done <= whole
    ensures FirstOccurrences(PostIds(done)) <= FirstOccurrences(PostIds(whole))
  {
    var rest := whole[|done|..];
    assert done == whole[..|done|];
    assert done + rest == whole;
    PostIdsAppend(done, rest);
    FirstOccurrencesPrefix(PostIds(done), PostIds(rest));
  }

  /** Posts read up to an abort are a prefix of the category's posts. */
  lemma HandledBeforeAbort(seen: seq<Post>, posts: seq<Post>, j: nat)
    requires j < |posts|
    ensures FirstOccurrences(PostIds(seen + posts[..j + 1])) <= FirstOccurrences(PostIds(seen + posts))
  {
    assert (seen + posts)[..|seen| + j + 1] == seen + posts[..j + 1];
    PrefixHandled(seen + posts[..j + 1], seen + posts);
  }

  /** One more category appends its posts. */
  lemma AllPostsStep(mapping: seq<CategoryMapping>, sources: int -> PageSource<Post>, i: nat)
    requires i < |mapping|
    ensures AllPosts(mapping[..i + 1], sources)
            == AllPosts(mapping[..i], sources) + UntilShortPage(sources(mapping[i].wordpressId), 1).items
  {
    assert mapping[..i + 1][..i] == mapping[..i];
  }

  /** None of the posts has an image URL that passes the filter. */
  ghost predicate NoImages(posts: seq<Post>, extract: string -> seq<string>)
  {
    forall i :: 0 <= i < |posts| ==> ValidUrls(extract(posts[i].content)) == []
  }

  lemma NoImagesAppend(a: seq<Post>, b: seq<Post>, extract: string -> seq<string>)
    ensures NoImages(a + b, extract) <==> NoImages(a, extract) && NoImages(b, extract)
  {
    if NoImages(a, extract) && NoImages(b, extract) {
      forall i | 0 <= i < |a + b| ensures ValidUrls(extract((a + b)[i].content)) == [] {
        if i >= |a| {
          assert (a + b)[i] == b[i - |a|];
        }
      }
    }
    if NoImages(a + b, extract) {
      forall i | 0 <= i < |a| ensures ValidUrls(extract(a[i].content)) == [] {
        assert (a + b)[i] == a[i];
      }
      forall i | 0 <= i < |b| ensures ValidUrls(extract(b[i].content)) == [] {
        assert (a + b)[|a| + i] == b[i];
      }
    }
  }

  lemma NoImagesPrefix(a: seq<Post>, b: seq<Post>, extract: string -> seq<string>)
    requires a <= b && NoImages(b, extract)
    ensures NoImages(a, extract)
  {
    assert forall i :: 0 <= i < |a| ==> a[i] == b[i];
  }

  /** A prefix one post longer has no images exactly when the shorter one has none and
      neither has that post. */
  lemma NoImagesStep(posts: seq<Post>, j: nat, extract: string -> seq<string>)
    requires j < |posts|
    ensures NoImages(posts[..j + 1], extract)
            <==> NoImages(posts[..j], extract) && ValidUrls(extract(posts[j].content)) == []
  {
    assert posts[..j + 1] == posts[..j] + [posts[j]];
    NoImagesAppend(posts[..j], [posts[j]], extract);
  }

  /** The part of `process_posts` for one post that has accepted image URLs: the category
      folder and a post subfolder are got or created, then every image whose file name is
      not empty and whose download succeeds is uploaded (a failure for one image skips
      it). An error while getting or creating the category folder ends the run. */
  method MigratePostImages(lib: DocumentLibrary, category: CategoryMapping, post: Post, valid: seq<string>,
                           downloads: string -> bool, tempFolder: string)
    returns (aborted: bool)
    requires lib.Valid()
    modifies lib
    ensures lib.Valid()
    ensures aborted <==> category.liferayName == [] || !old(lib.online)
    ensures !aborted ==> lib.foldersCreated <= old(lib.foldersCreated) + 1
    ensures aborted ==> lib.State() == old(lib.State())
    ensures !aborted ==> ImagesMigrated(old(lib.State()), lib.State(), category.liferayName, post.title,
                                        valid, downloads)
  {
    ghost var start := lib.State();
    var folder := lib.CreateOrGetFolder(category.liferayName);
    if folder.Failure? {
      return true;
    }
    ghost var name := Sanitize(category.liferayName).value;
    ghost var m := lib.State();
    assert m == WithCategoryFolder(start, name) && folder.value == CategoryFolder(start, name);
    var subfolder := lib.CreateOrGetSubfolder(folder.value, post.title);
    UploadImages(lib, subfolder, valid, downloads, tempFolder);
    aborted := false;
    CategoryFolderFound(start, name);
  }

  /** The image loop of `process_posts` for one post, into the folder `folderId` of a
      reachable library: each image that has a file name and downloads is uploaded. */
  method UploadImages(lib: DocumentLibrary, folderId: nat, valid: seq<string>, downloads: string -> bool,
                      tempFolder: string)
    requires lib.Valid() && lib.online
    modifies lib
    ensures lib.Valid()
    ensures Uploaded(old(lib.State()), lib.State(), folderId, Uploadable(valid, downloads))
  {
    for k := 0 to |valid|
      invariant lib.Valid()
      invariant Uploaded(old(lib.State()), lib.State(), folderId, Uploadable(valid[..k], downloads))
    {
      assert valid[..k + 1][..k] == valid[..k];
      var url := valid[k];
      var imageName := Basename(url);
      var imagePath := Join(tempFolder, imageName);
      if imageName != [] && downloads(ResolveUrl(url)) {
        BasenameOfTempPath(tempFolder, url);
        ghost var before := lib.State();
        var _ := lib.UploadImage(folderId, Basename(imagePath));
        UploadedStep(old(lib.State()), before, lib.State(), folderId, Uploadable(valid[..k], downloads), imageName);
      }
    }
    assert valid[..|valid|] == valid;
  }

  /** Some post of `posts` has identifier `id`. */
  predicate HasId(posts: seq<Post>, id: int)
  {
    posts != [] && (posts[|posts| - 1].id == id || HasId(posts[..|posts| - 1], id))
  }

  lemma {:induction false} HasIdIn(posts: seq<Post>, id: int)
    ensures HasId(posts, id) <==> id in PostIds(posts)
  {
    if posts != [] {
      var init := posts[..|posts| - 1];
      HasIdIn(init, id);
      PostIdsAppend(init, [posts[|posts| - 1]]);
      assert init + [posts[|posts| - 1]] == posts;
    }
  }

  /** The images a run over these posts uploads: each post counts once, at its first
      occurrence, with the uploadable images among its accepted URLs. */
  function UploadTotal(posts: seq<Post>, extract: string -> seq<string>, downloads: string -> bool): nat
  {
    if posts == [] then 0
    else
      var init, post := posts[..|posts| - 1], posts[|posts| - 1];
      UploadTotal(init, extract, downloads)
      + (if HasId(init, post.id) then 0 else |Uploadable(ValidUrls(extract(post.content)), downloads)|)
  }

  /** The post subfolders a run over these posts creates: one for each post, at its first
      occurrence, that has an accepted image URL. */
  function SubfolderTotal(posts: seq<Post>, extract: string -> seq<string>): nat
  {
    if posts == [] then 0
    else
      var init, post := posts[..|posts| - 1], posts[|posts| - 1];
      SubfolderTotal(init, extract)
      + (if HasId(init, post.id) || ValidUrls(extract(post.content)) == [] then 0 else 1)
  }

  /** One more post adds to the totals only when its identifier is new. */
  lemma TotalsStep(before: seq<Post>, post: Post, extract: string -> seq<string>, downloads: string -> bool)
    ensures UploadTotal(before + [post], extract, downloads)
            == UploadTotal(before, extract, downloads)
               + (if HasId(before, post.id) then 0 else |Uploadable(ValidUrls(extract(post.content)), downloads)|)
    ensures SubfolderTotal(before + [post], extract)
            == SubfolderTotal(before, extract)
               + (if HasId(before, post.id) || ValidUrls(extract(post.content)) == [] then 0 else 1)
  {
    assert (before + [post])[..|before|] == before;
  }

  /** Posts without images add nothing to the totals, and a post read again adds nothing. */
  lemma {:induction false} TotalsNoImages(posts: seq<Post>, extract: string -> seq<string>, downloads: string -> bool)
    requires NoImages(posts, extract)
    ensures UploadTotal(posts, extract, downloads) == 0 && SubfolderTotal(posts, extract) == 0
  {
    if posts != [] {
      var init := posts[..|posts| - 1];
      NoImagesPrefix(init, posts, extract);
      TotalsNoImages(init, extract, downloads);
      assert ValidUrls(extract(posts[|posts| - 1].content)) == [];
    }
  }

  /** The inner loop of `process_posts` over one category's posts. `seen` are the posts
      read before, `processed` their identifiers and `handled` those handled so far. */
  method ProcessCategory(lib: DocumentLibrary, category: CategoryMapping, posts: seq<Post>,
                         processed: set<int>, handled: seq<int>, ghost seen: seq<Post>,
                         extract: string -> seq<string>, downloads: string -> bool, tempFolder: string)
    returns (processed': set<int>, handled': seq<int>, aborted: bool)
    requires lib.Valid()
    requires forall x :: x in processed <==> x in PostIds(seen)
    requires handled == FirstOccurrences(PostIds(seen))
    modifies lib
    ensures lib.Valid()
    ensures !aborted ==> (forall x :: x in processed' <==> x in PostIds(seen + posts))
                         && handled' == FirstOccurrences(PostIds(seen + posts))
    ensures handled' <= FirstOccurrences(PostIds(seen + posts))
    ensures NoImages(posts, extract) ==>
              !aborted && lib.folders == old(lib.folders) && lib.documents == old(lib.documents)
              && lib.foldersCreated == old(lib.foldersCreated) && lib.imagesUploaded == old(lib.imagesUploaded)
    ensures !aborted ==>
              lib.imagesUploaded + UploadTotal(seen, extract, downloads)
              == old(lib.imagesUploaded) + UploadTotal(seen + posts, extract, downloads)
    ensures !aborted ==>
              |lib.folders| + old(lib.foldersCreated) + SubfolderTotal(seen, extract)
              == |old(lib.folders)| + lib.foldersCreated + SubfolderTotal(seen + posts, extract)
  {
    processed', handled', aborted := processed, handled, false;
    assert seen + posts[..0] == seen;
    for j := 0 to |posts|
      invariant lib.Valid()
      invariant forall x :: x in processed' <==> x in PostIds(seen + posts[..j])
      invariant handled' == FirstOccurrences(PostIds(seen + posts[..j]))
      invariant CategoryProgress(old(lib.State()), lib.State(), seen, posts[..j], extract, downloads)
    {
      processed', handled', aborted := CategoryPost(lib, category, posts, j, processed', handled', seen,
                                                    old(lib.State()), extract, downloads, tempFolder);
      if aborted {
        HandledBeforeAbort(seen, posts, j);
        return;
      }
    }
    assert posts[..|posts|] == posts;
  }

  /** What the posts `done` of a category, read after `seen`, did to the library from `s0`
      to `s`: nothing when none of them has an image, and the totals grew by theirs. */
  ghost predicate CategoryProgress(s0: LibraryState, s: LibraryState, seen: seq<Post>, done: seq<Post>,
                                   extract: string -> seq<string>, downloads: string -> bool)
  {
    && (NoImages(done, extract) ==>
          s.folders == s0.folders && s.documents == s0.documents
          && s.foldersCreated == s0.foldersCreated && s.imagesUploaded == s0.imagesUploaded)
    && s.imagesUploaded + UploadTotal(seen, extract, downloads)
       == s0.imagesUploaded + UploadTotal(seen + done, extract, downloads)
    && |s.folders| + s0.foldersCreated + SubfolderTotal(seen, extract)
       == |s0.folders| + s.foldersCreated + SubfolderTotal(seen + done, extract)
  }

  /** One more post extends the progress by its own step. */
  lemma CategoryProgressStep(s0: LibraryState, s1: LibraryState, s2: LibraryState, seen: seq<Post>,
                             posts: seq<Post>, j: nat, extract: string -> seq<string>, downloads: string -> bool)
    requires j < |posts|
    requires CategoryProgress(s0, s1, seen, posts[..j], extract, downloads)
    requires ValidUrls(extract(posts[j].content)) == [] ==>
               s2.folders == s1.folders && s2.documents == s1.documents
               && s2.foldersCreated == s1.foldersCreated && s2.imagesUploaded == s1.imagesUploaded
    requires s2.imagesUploaded + UploadTotal(seen + posts[..j], extract, downloads)
             == s1.imagesUploaded + UploadTotal(seen + posts[..j] + [posts[j]], extract, downloads)
    requires |s2.folders| + s1.foldersCreated + SubfolderTotal(seen + posts[..j], extract)
             == |s1.folders| + s2.foldersCreated + SubfolderTotal(seen + posts[..j] + [posts[j]], extract)
    ensures CategoryProgress(s0, s2, seen, posts[..j + 1], extract, downloads)
  {
    NextPrefix(seen, posts, j);
    NoImagesStep(posts, j, extract);
  }

  /** The posts read after one more post of a category. */
  lemma NextPrefix(seen: seq<Post>, posts: seq<Post>, j: nat)
    requires j < |posts|
    ensures seen + posts[..j + 1] == seen + posts[..j] + [posts[j]]
  {
    assert posts[..j + 1] == posts[..j] + [posts[j]];
  }

  /** One turn of that loop, on the category's `j`-th post: what it did to the library
      since `start` extends to the posts read so far. */
  method CategoryPost(lib: DocumentLibrary, category: CategoryMapping, posts: seq<Post>, j: nat,
                      processed: set<int>, handled: seq<int>, ghost seen: seq<Post>, ghost start: LibraryState,
                      extract: string -> seq<string>, downloads: string -> bool, tempFolder: string)
    returns (processed': set<int>, handled': seq<int>, aborted: bool)
    requires lib.Valid() && j < |posts|
    requires forall x :: x in processed <==> x in PostIds(seen + posts[..j])
    requires handled == FirstOccurrences(PostIds(seen + posts[..j]))
    requires CategoryProgress(start, lib.State(), seen, posts[..j], extract, downloads)
    modifies lib
    ensures lib.Valid()
    ensures forall x :: x in processed' <==> x in PostIds(seen + posts[..j + 1])
    ensures handled' == FirstOccurrences(PostIds(seen + posts[..j + 1]))
    ensures aborted ==> !NoImages(posts, extract)
    ensures !aborted ==> CategoryProgress(start, lib.State(), seen, posts[..j + 1], extract, downloads)
  {
    var post := posts[j];
    ghost var before := seen + posts[..j];
    assert seen + posts[..j + 1] == before + [post] by {
      assert posts[..j + 1] == posts[..j] + [post];
    }
    processed', handled', aborted := HandlePost(lib, category, post, processed, handled, before,
                                                extract, downloads, tempFolder);
    if aborted {
      assert !NoImages(posts, extract) by {
        assert posts[j] == post;
      }
    } else {
      CategoryProgressStep(start, old(lib.State()), lib.State(), seen, posts, j, extract, downloads);
    }
  }

  /** One post of that loop: a post already handled is skipped; a new one is recorded,
      and its images are migrated when it has an accepted image URL. */
  method HandlePost(lib: DocumentLibrary, category: CategoryMapping, post: Post,
                    processed: set<int>, handled: seq<int>, ghost before: seq<Post>,
                    extract: string -> seq<string>, downloads: string -> bool, tempFolder: string)
    returns (processed': set<int>, handled': seq<int>, aborted: bool)
    requires lib.Valid()
    requires forall x :: x in processed <==> x in PostIds(before)
    requires handled == FirstOccurrences(PostIds(before))
    modifies lib
    ensures lib.Valid()
    ensures forall x :: x in processed' <==> x in PostIds(before + [post])
    ensures handled' == FirstOccurrences(PostIds(before + [post]))
    ensures ValidUrls(extract(post.content)) == [] ==>
              !aborted && lib.folders == old(lib.folders) && lib.documents == old(lib.documents)
              && lib.foldersCreated == old(lib.foldersCreated) && lib.imagesUploaded == old(lib.imagesUploaded)
    ensures post.id in processed ==> !aborted && lib.State() == old(lib.State())
    ensures post.id !in processed && ValidUrls(extract(post.content)) != [] ==>
              && (aborted <==> category.liferayName == [] || !old(lib.online))
              && (aborted ==> lib.State() == old(lib.State()))
              && (!aborted ==> ImagesMigrated(old(lib.State()), lib.State(), category.liferayName, post.title,
                                              ValidUrls(extract(post.content)), downloads))
    ensures !aborted ==>
              lib.imagesUploaded + UploadTotal(before, extract, downloads)
              == old(lib.imagesUploaded) + UploadTotal(before + [post], extract, downloads)
    ensures !aborted ==>
              |lib.folders| + old(lib.foldersCreated) + SubfolderTotal(before, extract)
              == |old(lib.folders)| + lib.foldersCreated + SubfolderTotal(before + [post], extract)
  {
    ProcessedStep(before, post, processed, handled);
    TotalsStep(before, post, extract, downloads);
    HasIdIn(before, post.id);
    processed', handled', aborted := processed, handled, false;
    if post.id in processed {
      return;
    }
    processed' := processed + {post.id};
    handled' := handled + [post.id];
    var valid := FilterValidImageUrls(extract(post.content));
    if valid == [] {
      return;
    }
    aborted := MigratePostImages(lib, category, post, valid, downloads, tempFolder);
    if !aborted {
      MigratedCounts(old(lib.State()), lib.State(), category.liferayName, post.title, valid, downloads);
    }
  }

  /** `process_posts`. For each mapped category its posts are fetched; a post already
      handled under an earlier category is skipped; a post without an accepted image URL
      gets no folder; otherwise its images are migrated. An error while getting or
      creating a category folder ends the run (`aborted`).
      `sources` gives each WordPress category's pages, `extract` stands for the `<img>`
      pattern match, `downloads` says which resolved URLs download. */
  method ProcessPosts(lib: DocumentLibrary, mapping: seq<CategoryMapping>,
                      sources: int -> PageSource<Post>, extract: string -> seq<string>,
                      downloads: string -> bool, tempFolder: string)
    returns (handled: seq<int>, aborted: bool)
    requires lib.Valid()
    modifies lib
    ensures lib.Valid()
    ensures Distinct(handled)
    ensures !aborted ==> handled == FirstOccurrences(PostIds(AllPosts(mapping, sources)))
    ensures handled <= FirstOccurrences(PostIds(AllPosts(mapping, sources)))
    ensures NoImages(AllPosts(mapping, sources), extract) ==>
              !aborted && lib.folders == old(lib.folders) && lib.documents == old(lib.documents)
              && lib.foldersCreated == old(lib.foldersCreated) && lib.imagesUploaded == old(lib.imagesUploaded)
    ensures !aborted ==>
              lib.imagesUploaded == old(lib.imagesUploaded) + UploadTotal(AllPosts(mapping, sources), extract, downloads)
    ensures !aborted ==>
              |lib.folders| + old(lib.foldersCreated)
              == |old(lib.folders)| + lib.foldersCreated + SubfolderTotal(AllPosts(mapping, sources), extract)
  {
    handled, aborted := [], false;
    var processed: set<int> := {};
    ghost var seen: seq<Post> := [];
    for i := 0 to |mapping|
      invariant lib.Valid()
      invariant seen == AllPosts(mapping[..i], sources)
      invariant forall x :: x in processed <==> x in PostIds(seen)
      invariant handled == FirstOccurrences(PostIds(seen))
      invariant NoImages(seen, extract) ==>
                  lib.folders == old(lib.folders) && lib.documents == old(lib.documents)
                  && lib.foldersCreated == old(lib.foldersCreated) && lib.imagesUploaded == old(lib.imagesUploaded)
      invariant lib.imagesUploaded == old(lib.imagesUploaded) + UploadTotal(seen, extract, downloads)
      invariant |lib.folders| + old(lib.foldersCreated)
                == |old(lib.folders)| + lib.foldersCreated + SubfolderTotal(seen, extract)
    {
      var category := mapping[i];
      var posts, _ := GetPostsByCategory(sources(category.wordpressId));
      AllPostsStep(mapping, sources, i);
      NoImagesAppend(seen, posts, extract);
      processed, handled, aborted := ProcessCategory(lib, category, posts, processed, handled, seen,
                                                     extract, downloads, tempFolder);
      seen := seen + posts;
      if aborted {
        AbortedRun(mapping, sources, extract, i + 1, handled);
        return;
      }
    }
    assert mapping[..|mapping|] == mapping;
    FirstOccurrencesDistinct(PostIds(seen));
  }

  /** A run that ended after reading the first `n` categories handled a prefix of what a
      full run handles, and some post it read had images. */
  lemma AbortedRun(mapping: seq<CategoryMapping>, sources: int -> PageSource<Post>,
                   extract: string -> seq<string>, n: nat, handled: seq<int>)
    requires n <= |mapping|
    requires handled <= FirstOccurrences(PostIds(AllPosts(mapping[..n], sources)))
    requires !NoImages(AllPosts(mapping[..n], sources), extract)
    ensures Distinct(handled)
    ensures handled <= FirstOccurrences(PostIds(AllPosts(mapping, sources)))
    ensures !NoImages(AllPosts(mapping, sources), extract)
  {
    var done := AllPosts(mapping[..n], sources);
    AllPostsPrefix(mapping, sources, n);
    if NoImages(AllPosts(mapping, sources), extract) {
      NoImagesPrefix(done, AllPosts(mapping, sources), extract);
    }
    HandledPrefix(mapping, sources, n);
    FirstOccurrencesDistinct(PostIds(done));
    HandledDistinct(handled, FirstOccurrences(PostIds(done)));
  }

  /** A prefix of a list without repetitions has none either. */
  lemma HandledDistinct(a: seq<int>, b: seq<int>)
    requires a <= b && Distinct(b)
    ensures Distinct(a)
  {
    assert forall i :: 0 <= i < |a| ==> a[i] == b[i];
  }
}
