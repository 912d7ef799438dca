/** The news migrator: fetches the WordPress posts of the mapped categories, creates one
    structured content per post on the destination site (logging the old and the new URL
    of each), then rewrites the internal links of every created content with the full
    log. */
module NewsRun {
  import opened Wrappers
  import opened Text
  import opened Paging
  import opened Categories
  import opened NewsText

  /** A WordPress post as the REST API returns it; `None` marks a key that is absent (for
      `excerpt`, also a `rendered` that is absent). */
  datatype NewsPost = NewsPost(title: Option<string>, content: Option<string>, link: Option<string>,
                               dateGmt: Option<string>, excerpt: Option<string>, categories: seq<int>)

  /** The old URL logged for a post that has no `link`. */
  const NoOldUrl: string := "URL antiga não encontrada"

  // ---------------------------------------------------------------------------------------
  // Category identifiers of a post

  /** The destination identifiers the mapping gives one WordPress category, in mapping
      order. */
  function MatchingIds(mapping: seq<CategoryMapping>, wpId: int): seq<int>
  {
    if mapping == [] then []
    else MatchingIds(mapping[..|mapping| - 1], wpId)
         + (if mapping[|mapping| - 1].wordpressId == wpId then [mapping[|mapping| - 1].liferayId] else [])
  }

  /** Whether some mapping entry pairs WordPress category `wpId` with identifier `x`. */
  predicate PairedBy(mapping: seq<CategoryMapping>, wpId: int, x: int)
  {
    exists k :: 0 <= k < |mapping| && mapping[k].wordpressId == wpId && mapping[k].liferayId == x
  }

  /** An identifier is matched exactly when some mapping entry pairs it with the category. */
  lemma {:induction false} MatchingIdsMembers(mapping: seq<CategoryMapping>, wpId: int, x: int)
    ensures x in MatchingIds(mapping, wpId) <==> PairedBy(mapping, wpId, x)
  {
    if mapping != [] {
      var init := mapping[..|mapping| - 1];
      MatchingIdsMembers(init, wpId, x);
      if exists k :: 0 <= k < |mapping| && mapping[k].wordpressId == wpId && mapping[k].liferayId == x {
        var k :| 0 <= k < |mapping| && mapping[k].wordpressId == wpId && mapping[k].liferayId == x;
        if k < |init| {
          assert init[k] == mapping[k];
        }
      }
    }
  }

  /** The category list of the payload: the matches of each post category in turn. */
  function LiferayCategoryIds(mapping: seq<CategoryMapping>, cats: seq<int>): seq<int>
  {
    if cats == [] then []
    else LiferayCategoryIds(mapping, cats[..|cats| - 1]) + MatchingIds(mapping, cats[|cats| - 1])
  }

  /** The list is built in post-category order: the categories' matches concatenated. */
  lemma {:induction false} LiferayCategoryIdsAppend(mapping: seq<CategoryMapping>, a: seq<int>, b: seq<int>)
    ensures LiferayCategoryIds(mapping, a + b) == LiferayCategoryIds(mapping, a) + LiferayCategoryIds(mapping, b)
    decreases |b|
  {
    if b == [] {
      assert a + b == a;
    } else {
      var init := b[..|b| - 1];
      assert (a + b)[..|a + b| - 1] == a + init;
      assert (a + b)[|a + b| - 1] == b[|b| - 1];
      LiferayCategoryIdsAppend(mapping, a, init);
      var x, y, z := LiferayCategoryIds(mapping, a), LiferayCategoryIds(mapping, init), MatchingIds(mapping, b[|b| - 1]);
      assert (x + y) + z == x + (y + z);
    }
  }

  /** A category without an entry in the mapping contributes nothing. */
  lemma UnmatchedCategory(mapping: seq<CategoryMapping>, cats: seq<int>, c: int)
    requires forall k :: 0 <= k < |mapping| ==> mapping[k].wordpressId != c
    ensures LiferayCategoryIds(mapping, cats + [c]) == LiferayCategoryIds(mapping, cats)
  {
    assert (cats + [c])[..|cats|] == cats;
    if MatchingIds(mapping, c) != [] {
      MatchingIdsMembers(mapping, c, MatchingIds(mapping, c)[0]);
    }
  }

  /** Some category of `cats + [last]` pairs `x` exactly when one of `cats` or `last` does. */
  lemma SomePairedSnoc(mapping: seq<CategoryMapping>, cats: seq<int>, last: int, x: int)
    ensures (exists j :: 0 <= j < |cats + [last]| && PairedBy(mapping, (cats + [last])[j], x))
            <==> (exists j :: 0 <= j < |cats| && PairedBy(mapping, cats[j], x)) || PairedBy(mapping, last, x)
  {
    var all := cats + [last];
    if exists j :: 0 <= j < |all| && PairedBy(mapping, all[j], x) {
      var j :| 0 <= j < |all| && PairedBy(mapping, all[j], x);
      if j < |cats| {
        assert all[j] == cats[j];
      }
    }
    if exists j :: 0 <= j < |cats| && PairedBy(mapping, cats[j], x) {
      var j :| 0 <= j < |cats| && PairedBy(mapping, cats[j], x);
      assert all[j] == cats[j];
    }
    assert all[|cats|] == last;
  }

  /** An identifier is in the list exactly when some entry pairs it with some category of the
      post. */
  lemma {:induction false} LiferayCategoryIdsMembers(mapping: seq<CategoryMapping>, cats: seq<int>, x: int)
    ensures x in LiferayCategoryIds(mapping, cats) <==> exists j :: 0 <= j < |cats| && PairedBy(mapping, cats[j], x)
  {
    if cats != [] {
      var init := cats[..|cats| - 1];
      var last := cats[|cats| - 1];
      LiferayCategoryIdsMembers(mapping, init, x);
      MatchingIdsMembers(mapping, last, x);
      SomePairedSnoc(mapping, init, last, x);
      assert cats == init + [last];
    }
  }

  /** The loop of `process_post` that extends the list category by category. */
  method CategoryIds(mapping: seq<CategoryMapping>, cats: seq<int>) returns (ids: seq<int>)
    ensures ids == LiferayCategoryIds(mapping, cats)
  {
    ids := [];
    for j := 0 to |cats|
      invariant ids == LiferayCategoryIds(mapping, cats[..j])
    {
      assert cats[..j + 1][..j] == cats[..j];
      var matching := MatchingIds(mapping, cats[j]);
      ids := ids + matching;
    }
    assert cats[..|cats|] == cats;
  }

  // ---------------------------------------------------------------------------------------
  // The payload of a new structured content

  datatype ContentField = ContentField(name: string, data: string)

  datatype Payload = Payload(structureId: string, title: string, friendlyUrlPath: string,
                             dateCreated: Option<string>, taxonomyCategoryIds: seq<int>,
                             contentFields: seq<ContentField>)

  /** What every payload of a run shares: the category mapping, the content structure and
      the transliteration to ASCII. */
  datatype Config = Config(mapping: seq<CategoryMapping>, structureId: string, translit: string -> Ascii)

  /** The payload `process_post` posts; a missing title and a malformed date raise. */
  function BuildPayload(post: NewsPost, urlMapping: seq<UrlMapping>, cfg: Config): Result<Payload>
  {
    if post.title.None? then Failure("KeyError: 'title'")
    else
      match DateCreated(post)
      case Failure(e) => Failure(e)
      case Success(date) =>
        Success(Payload(cfg.structureId, post.title.value, FriendlyUrl(post.title.value, cfg.translit), date,
                        LiferayCategoryIds(cfg.mapping, post.categories), PayloadFields(post, urlMapping)))
  }

  /** The `dateCreated` of the payload: absent without a `date_gmt`, and the formatted
      date otherwise; a malformed date raises. */
  function DateCreated(post: NewsPost): Result<Option<string>>
  {
    if post.dateGmt.None? then Success(None)
    else
      match FormatDate(post.dateGmt.value)
      case Failure(e) => Failure(e)
      case Success(d) => Success(Some(d))
  }

  /** The `contentFields` of the payload: the rewritten content, then the excerpt. */
  function PayloadFields(post: NewsPost, urlMapping: seq<UrlMapping>): seq<ContentField>
  {
    [ContentField("TextoMateria", ApplyMapping(post.content.GetOr(""), urlMapping))] + ExcerptField(post)
  }

  /** The `Chamada` field, present when the excerpt is non-empty. */
  function ExcerptField(post: NewsPost): seq<ContentField>
  {
    if post.excerpt.Some? && post.excerpt.value != [] then [ContentField("Chamada", post.excerpt.value)] else []
  }

  /** A payload is built exactly when the post has a title and its date, if any, parses.
      Its first field is the rewritten content; a `Chamada` field follows exactly when
      the excerpt is non-empty; the creation date is absent exactly when the post has
      none, and a zero-padded date is passed on, separator in upper case, with `.000Z`
      appended. */
  lemma PayloadShape(post: NewsPost, urlMapping: seq<UrlMapping>, cfg: Config)
    ensures BuildPayload(post, urlMapping, cfg).Success?
            <==> post.title.Some? && (post.dateGmt.Some? ==> FormatDate(post.dateGmt.value).Success?)
    ensures post.dateGmt.Some? && ParseTimestamp(post.dateGmt.value).None? ==>
              BuildPayload(post, urlMapping, cfg).Failure?
    ensures BuildPayload(post, urlMapping, cfg).Success? ==>
              var p := BuildPayload(post, urlMapping, cfg).value;
              && p.title == post.title.value
              && p.structureId == cfg.structureId
              && p.friendlyUrlPath == FriendlyUrl(post.title.value, cfg.translit)
              && p.taxonomyCategoryIds == LiferayCategoryIds(cfg.mapping, post.categories)
              && 1 <= |p.contentFields| <= 2
              && p.contentFields[0] == ContentField("TextoMateria", ApplyMapping(post.content.GetOr(""), urlMapping))
              && (|p.contentFields| == 2 <==> post.excerpt.Some? && post.excerpt.value != [])
              && (|p.contentFields| == 2 ==> p.contentFields[1] == ContentField("Chamada", post.excerpt.value))
              && (p.dateCreated.None? <==> post.dateGmt.None?)
              && (post.dateGmt.Some? ==> p.dateCreated == Some(UpperSeparator(post.dateGmt.value) + ".000Z"))
  {
    if post.dateGmt.Some? && ParseTimestamp(post.dateGmt.value).Some? {
      FormatDateCanonical(post.dateGmt.value);
    }
  }

  // ---------------------------------------------------------------------------------------
  // Fetching the posts

  /** The pages of one category from `page` on: a page with status 200 is appended, and the
      loop ends once `page` reaches the reported number of pages (1 when the header is
      absent); any other reply raises. */
  function UntilTotalPages(src: PageSource<NewsPost>, page: nat): Result<seq<NewsPost>>
    requires page >= 1
    decreases |src| + 1 - page
  {
    match Request(src, page)
    case ConnectionFailed => Failure("request raised")
    case Reply(status, items, total) =>
      if status != 200 then Failure("Erro ao acessar o JSON")
      else if page >= total.GetOr(1) then Success(items)
      else Prepend(items, UntilTotalPages(src, page + 1))
  }

  /** The posts of the categories in turn, duplicates kept; one failing category makes the
      whole fetch fail. */
  function AllCategoryPosts(cats: seq<int>, sources: int -> PageSource<NewsPost>): Result<seq<NewsPost>>
  {
    if cats == [] then Success([])
    else match AllCategoryPosts(cats[..|cats| - 1], sources)
      case Failure(e) => Failure(e)
      case Success(before) =>
        match UntilTotalPages(sources(cats[|cats| - 1]), 1)
        case Failure(e) => Failure(e)
        case Success(these) => Success(before + these)
  }

  /** `fetch_posts`: without categories, a single request for the first 100 posts. */
  function FetchedPosts(cats: seq<int>, unfiltered: Reply<seq<NewsPost>>, sources: int -> PageSource<NewsPost>): Result<seq<NewsPost>>
  {
    if cats == [] then
      (if IsOk(unfiltered) then Success(unfiltered.body) else Failure("Erro ao acessar o JSON"))
    else AllCategoryPosts(cats, sources)
  }

  /** Pages with status 200 before the last reported page are all appended, in order. */
  lemma {:induction false} UntilTotalPagesRun(src: PageSource<NewsPost>, p: nat, k: nat)
    requires 1 <= p <= k + 1 && k <= |src|
    requires forall i :: p - 1 <= i < k ==> IsOk(src[i]) && i + 1 < src[i].totalPages.GetOr(1)
    ensures UntilTotalPages(src, p) == Prepend(Flatten(Bodies(src[p - 1..k])), UntilTotalPages(src, k + 1))
    decreases k + 1 - p
  {
    if p <= k {
      UntilTotalPagesRun(src, p + 1, k);
      FlattenBodiesFront(src, p, k);
      PrependTwice(src[p - 1].body, Flatten(Bodies(src[p..k])), UntilTotalPages(src, k + 1));
    } else {
      assert src[p - 1..k] == [];
      PrependNothing(UntilTotalPages(src, k + 1));
    }
  }

  /** Paging stops at the first page whose number reaches the reported total, and the
      pages up to it are the category's posts. */
  lemma TotalPagesStop(src: PageSource<NewsPost>, k: nat)
    requires k < |src|
    requires forall i :: 0 <= i < k ==> IsOk(src[i]) && i + 1 < src[i].totalPages.GetOr(1)
    requires IsOk(src[k]) && k + 1 >= src[k].totalPages.GetOr(1)
    ensures UntilTotalPages(src, 1) == Success(Flatten(Bodies(src[..k + 1])))
  {
    UntilTotalPagesSpan(src, 1, k);
    assert src[0..k + 1] == src[..k + 1];
  }

  /** From page `p` on, up to the page `k + 1` that reaches the reported total, every page
      is appended. */
  lemma {:induction false} UntilTotalPagesSpan(src: PageSource<NewsPost>, p: nat, k: nat)
    requires 1 <= p <= k + 1 && k < |src|
    requires forall i :: p - 1 <= i < k ==> IsOk(src[i]) && i + 1 < src[i].totalPages.GetOr(1)
    requires IsOk(src[k]) && k + 1 >= src[k].totalPages.GetOr(1)
    ensures UntilTotalPages(src, p) == Success(Flatten(Bodies(src[p - 1..k + 1])))
    decreases k + 1 - p
  {
    FlattenBodiesFront(src, p, k + 1);
    if p <= k {
      UntilTotalPagesSpan(src, p + 1, k);
    } else {
      assert src[p..k + 1] == [];
      assert Flatten(Bodies(src[p..k + 1])) == [];
      assert src[k].body + [] == src[k].body;
    }
  }

  /** A reply other than 200 raises, whatever pages came before it. */
  lemma NonOkPageRaises(src: PageSource<NewsPost>, k: nat)
    requires k <= |src|
    requires forall i :: 0 <= i < k ==> IsOk(src[i]) && i + 1 < src[i].totalPages.GetOr(1)
    requires k < |src| ==> !IsOk(src[k])
    ensures UntilTotalPages(src, 1).Failure?
  {
    UntilTotalPagesRun(src, 1, k);
  }

  /** Fetching the categories of a concatenation fetches each part in turn. */
  lemma {:induction false} AllCategoryPostsAppend(a: seq<int>, b: seq<int>, sources: int -> PageSource<NewsPost>)
    requires AllCategoryPosts(a, sources).Success? && AllCategoryPosts(b, sources).Success?
    ensures AllCategoryPosts(a + b, sources)
            == Success(AllCategoryPosts(a, sources).value + AllCategoryPosts(b, sources).value)
    decreases |b|
  {
    if b == [] {
      assert a + b == a;
      assert AllCategoryPosts(a, sources).value + [] == AllCategoryPosts(a, sources).value;
    } else {
      var init := b[..|b| - 1];
      assert (a + b)[..|a + b| - 1] == a + init;
      assert (a + b)[|a + b| - 1] == b[|b| - 1];
      AllCategoryPostsAppend(a, init, sources);
      var x := AllCategoryPosts(a, sources).value;
      var y := AllCategoryPosts(init, sources).value;
      var z := UntilTotalPages(sources(b[|b| - 1]), 1).value;
      assert (x + y) + z == x + (y + z);
    }
  }

  /** A category listed twice has its posts fetched twice. */
  lemma RepeatedCategoryKeepsDuplicates(c: int, sources: int -> PageSource<NewsPost>)
    requires UntilTotalPages(sources(c), 1).Success?
    ensures AllCategoryPosts([c, c], sources)
            == Success(UntilTotalPages(sources(c), 1).value + UntilTotalPages(sources(c), 1).value)
  {
    var these := UntilTotalPages(sources(c), 1).value;
    assert [c, c][..1] == [c];
    assert [c][..0] == [];
    assert AllCategoryPosts([c], sources) == Success([] + these);
    assert [] + these == these;
  }

  /** `fetch_posts`: the nested loops over the categories and their pages. */
  method FetchPosts(cats: seq<int>, unfiltered: Reply<seq<NewsPost>>, sources: int -> PageSource<NewsPost>)
    returns (r: Result<seq<NewsPost>>, requests: nat)
    ensures r == FetchedPosts(cats, unfiltered, sources)
    ensures cats == [] ==> requests == 1
    ensures r.Success? ==> requests >= |cats|
  {
    if cats == [] {
      requests := 1;
      if IsOk(unfiltered) {
        return Success(unfiltered.body), requests;
      }
      return Failure("Erro ao acessar o JSON"), requests;
    }
    var posts: seq<NewsPost> := [];
    requests := 0;
    for j := 0 to |cats|
      invariant AllCategoryPosts(cats[..j], sources) == Success(posts)
      invariant requests >= j
    {
      assert cats[..j + 1][..j] == cats[..j];
      assert cats[..j + 1][j] == cats[j];
      var these, n := CategoryPages(sources(cats[j]));
      requests := requests + n;
      if these.Failure? {
        FailureExtends(cats, j, sources);
        return Failure(these.reason), requests;
      }
      posts := posts + these.value;
    }
    assert cats[..|cats|] == cats;
    r := Success(posts);
  }

  /** A category that fails makes every longer list fail. */
  lemma FailureExtends(cats: seq<int>, j: nat, sources: int -> PageSource<NewsPost>)
    requires j < |cats| && AllCategoryPosts(cats[..j], sources).Success?
    requires UntilTotalPages(sources(cats[j]), 1).Failure?
    ensures AllCategoryPosts(cats, sources) == UntilTotalPages(sources(cats[j]), 1)
  {
    var pre := cats[..j + 1];
    assert pre[..|pre| - 1] == cats[..j];
    assert pre[|pre| - 1] == cats[j];
    assert AllCategoryPosts(pre, sources) == UntilTotalPages(sources(cats[j]), 1);
    FailurePersists(cats, j + 1, sources);
  }

  lemma {:induction false} FailurePersists(cats: seq<int>, n: nat, sources: int -> PageSource<NewsPost>)
    requires n <= |cats| && AllCategoryPosts(cats[..n], sources).Failure?
    ensures AllCategoryPosts(cats, sources) == AllCategoryPosts(cats[..n], sources)
    decreases |cats| - n
  {
    if n == |cats| {
      assert cats[..n] == cats;
    } else {
      assert cats[..n + 1][..n] == cats[..n];
      FailurePersists(cats, n + 1, sources);
    }
  }

  /** The `while True` loop of `fetch_posts` for one category. */
  method CategoryPages(src: PageSource<NewsPost>) returns (r: Result<seq<NewsPost>>, requests: nat)
    ensures r == UntilTotalPages(src, 1)
    ensures requests >= 1
  {
    var gathered: seq<NewsPost> := [];
    var page: nat := 1;
    requests := 0;
    match UntilTotalPages(src, 1) {
      case Failure(_) =>
      case Success(all) => assert [] + all == all;
    }
    while true
      invariant 1 <= page <= |src| + 1
      invariant requests == page - 1
      invariant UntilTotalPages(src, 1) == Prepend(gathered, UntilTotalPages(src, page))
      decreases |src| + 1 - page
    {
      var reply := Request(src, page);
      requests := requests + 1;
      if reply.ConnectionFailed? {
        return Failure("request raised"), requests;
      }
      if reply.status != 200 {
        return Failure("Erro ao acessar o JSON"), requests;
      }
      if page >= reply.totalPages.GetOr(1) {
        return Success(gathered + reply.body), requests;
      }
      match UntilTotalPages(src, page + 1) {
        case Failure(_) =>
        case Success(rest) => assert gathered + (reply.body + rest) == (gathered + reply.body) + rest;
      }
      gathered := gathered + reply.body;
      page := page + 1;
    }
  }

  // ---------------------------------------------------------------------------------------
  // The URL mapping log and the destination site

  /** `url_mapping.json`: `None` while the file does not exist. */
  class UrlMappingLog {
    var file: Option<seq<UrlMapping>>

    constructor(initial: Option<seq<UrlMapping>>)
      ensures file == initial
    {
      file := initial;
    }

    /** The entries the file holds: none while it does not exist. */
    function Entries(): seq<UrlMapping>
      reads this
    {
      file.GetOr([])
    }

    /** `load_url_mapping`. */
    method Load() returns (entries: seq<UrlMapping>)
      ensures file.None? ==> entries == []
      ensures file.Some? ==> entries == file.value
    {
      match file {
        case None => entries := [];
        case Some(logged) => entries := logged;
      }
    }

    /** `save_new_url_mapping`: reads the list (an absent file reads as `[]`), appends one
        entry and writes the list back; the entries already logged are kept as they were. */
    method Save(originalUrl: string, newUrl: string)
      modifies this
      ensures file == Some(old(Entries()) + [UrlMapping(originalUrl, newUrl)])
      ensures |Entries()| == |old(Entries())| + 1
      ensures Entries()[..|old(Entries())|] == old(Entries())
      ensures Entries()[|old(Entries())|] == UrlMapping(originalUrl, newUrl)
    {
      var logged := Load();
      logged := logged + [UrlMapping(originalUrl, newUrl)];
      file := Some(logged);
    }
  }

  datatype StructuredContent = StructuredContent(id: int, payload: Payload)

  /** A `contentFields` update of one content: its identifier and the new `TextoMateria`. */
  datatype Patch = Patch(id: int, html: string)

  /** The identifier of the first content whose friendly URL is `slug`. */
  function FirstWithPath(contents: seq<StructuredContent>, slug: string): (r: Option<int>)
    ensures r.None? <==> forall k :: 0 <= k < |contents| ==> contents[k].payload.friendlyUrlPath != slug
    ensures r.Some? ==>
              exists k :: 0 <= k < |contents| && contents[k].payload.friendlyUrlPath == slug
                          && contents[k].id == r.value
                          && forall i :: 0 <= i < k ==> contents[i].payload.friendlyUrlPath != slug
  {
    if contents == [] then None
    else if contents[0].payload.friendlyUrlPath == slug then Some(contents[0].id)
    else
      var r := FirstWithPath(contents[1..], slug);
      assert forall k :: 1 <= k < |contents| ==> contents[k] == contents[1..][k - 1];
      r
  }

  /** The structured contents of the destination site, as far as the migrator sees them. */
  class ContentServer {
    var contents: seq<StructuredContent>
    var patches: seq<Patch>
    var nextId: int
    /** When false, every request raises a connection error. */
    var online: bool
    /** The status the site answers a creation with. */
    var createStatus: int

    constructor(online: bool, createStatus: int, firstId: int)
      ensures contents == [] && patches == [] && nextId == firstId
      ensures this.online == online && this.createStatus == createStatus
    {
      contents := [];
      patches := [];
      nextId := firstId;
      this.online := online;
      this.createStatus := createStatus;
    }

    /** Whether a creation is answered with 200 or 201. */
    predicate Accepts()
      reads this
    {
      online && (createStatus == 200 || createStatus == 201)
    }

    /** The POST of `process_post`: an accepted content is stored under the next identifier
        and its friendly URL is answered back. */
    method Create(p: Payload) returns (path: Option<string>)
      modifies this
      ensures old(Accepts()) ==> path == Some(p.friendlyUrlPath)
                                 && contents == old(contents) + [StructuredContent(old(nextId), p)]
                                 && nextId == old(nextId) + 1
      ensures !old(Accepts()) ==> path == None && contents == old(contents) && nextId == old(nextId)
      ensures patches == old(patches) && online == old(online) && createStatus == old(createStatus)
    {
      if !online {
        return None;
      }
      if createStatus == 200 || createStatus == 201 {
        contents := contents + [StructuredContent(nextId, p)];
        nextId := nextId + 1;
        return Some(p.friendlyUrlPath);
      }
      path := None;
    }

    /** `get_content_id_by_friendly_url`. */
    method FindBySlug(slug: string) returns (id: Option<int>)
      ensures id == (if online then FirstWithPath(contents, slug) else None)
      ensures id.Some? ==> exists k :: 0 <= k < |contents| && contents[k].id == id.value
                                       && contents[k].payload.friendlyUrlPath == slug
    {
      if !online {
        return None;
      }
      id := FirstWithPath(contents, slug);
    }

    /** `update_content_in_liferay`: the PATCH is recorded unless the connection fails. */
    method Update(id: int, html: string)
      modifies this
      ensures patches == if old(online) then old(patches) + [Patch(id, html)] else old(patches)
      ensures contents == old(contents) && nextId == old(nextId)
      ensures online == old(online) && createStatus == old(createStatus)
    {
      if online {
        patches := patches + [Patch(id, html)];
      }
    }
  }

  // ---------------------------------------------------------------------------------------
  // First pass: creating the contents

  /** What creating one post leaves behind: its old URL and the payload that was posted. */
  datatype Created = Created(originalUrl: string, payload: Payload)

  /** Whether one of the attempts raised. */
  predicate AnyFailure<T>(rs: seq<Result<T>>)
  {
    rs != [] && (AnyFailure(rs[..|rs| - 1]) || rs[|rs| - 1].Failure?)
  }

  /** The results of the attempts made before one raised: a loop that stops at the first
      exception keeps exactly these. */
  function PrefixOk<T>(rs: seq<Result<T>>): seq<T>
  {
    if rs == [] then []
    else if AnyFailure(rs[..|rs| - 1]) || rs[|rs| - 1].Failure? then PrefixOk(rs[..|rs| - 1])
    else PrefixOk(rs[..|rs| - 1]) + [rs[|rs| - 1].value]
  }

  /** An attempt raised exactly when some attempt is a failure. */
  lemma {:induction false} AnyFailureExists<T>(rs: seq<Result<T>>)
    ensures AnyFailure(rs) <==> exists j :: 0 <= j < |rs| && rs[j].Failure?
  {
    if rs != [] {
      var init := rs[..|rs| - 1];
      AnyFailureExists(init);
      if exists j :: 0 <= j < |rs| && rs[j].Failure? {
        var j :| 0 <= j < |rs| && rs[j].Failure?;
        if j < |init| {
          assert init[j] == rs[j];
        }
      }
    }
  }

  /** Without a failure every result is kept, in order. */
  lemma {:induction false} PrefixOkAll<T>(rs: seq<Result<T>>)
    requires !AnyFailure(rs)
    ensures |PrefixOk(rs)| == |rs|
    ensures forall j :: 0 <= j < |rs| ==> rs[j].Success? && PrefixOk(rs)[j] == rs[j].value
  {
    if rs != [] {
      var init := rs[..|rs| - 1];
      PrefixOkAll(init);
      assert forall j :: 0 <= j < |init| ==> rs[j] == init[j];
    }
  }

  /** After a failure nothing more is kept, and the whole run counts as raised. */
  lemma {:induction false} FailureStops<T>(rs: seq<Result<T>>, n: nat)
    requires n <= |rs| && AnyFailure(rs[..n])
    ensures AnyFailure(rs) && PrefixOk(rs) == PrefixOk(rs[..n])
    decreases |rs| - n
  {
    if n == |rs| {
      assert rs[..n] == rs;
    } else {
      assert rs[..n + 1][..n] == rs[..n];
      FailureStops(rs, n + 1);
    }
  }

  /** The results before the first failure are the ones kept. */
  lemma FirstFailure<T>(rs: seq<Result<T>>, f: nat)
    requires f < |rs| && rs[f].Failure? && !AnyFailure(rs[..f])
    ensures AnyFailure(rs) && PrefixOk(rs) == PrefixOk(rs[..f])
  {
    assert rs[..f + 1][..f] == rs[..f];
    FailureStops(rs, f + 1);
    assert PrefixOk(rs[..f + 1]) == PrefixOk(rs[..f]);
  }

  /** What `process_post` amounts to for one post: the payload, or the exception it raises. */
  function Attempt(post: NewsPost, urlMapping: seq<UrlMapping>, cfg: Config): Result<Created>
  {
    match BuildPayload(post, urlMapping, cfg)
    case Failure(e) => Failure(e)
    case Success(p) => Success(Created(post.link.GetOr(NoOldUrl), p))
  }

  /** `outcome` tells for every post what `process_post` amounts to. The loops below are
      proved against such a value rather than against `Attempt` itself, so that their proofs
      do not unfold how a payload is built. */
  ghost predicate DescribesAttempt(outcome: NewsPost -> Result<Created>, urlMapping: seq<UrlMapping>, cfg: Config)
  {
    forall p {:trigger Attempt(p, urlMapping, cfg)} :: outcome(p) == Attempt(p, urlMapping, cfg)
  }

  /** The outcome of each post, when none is stopped by an earlier one. */
  function Outcomes<T>(posts: seq<NewsPost>, outcome: NewsPost -> Result<T>): (rs: seq<Result<T>>)
    ensures |rs| == |posts|
  {
    if posts == [] then []
    else Outcomes(posts[..|posts| - 1], outcome) + [outcome(posts[|posts| - 1])]
  }

  lemma {:induction false} OutcomesAt<T>(posts: seq<NewsPost>, outcome: NewsPost -> Result<T>, k: nat)
    requires k < |posts|
    ensures Outcomes(posts, outcome)[k] == outcome(posts[k])
  {
    var init := posts[..|posts| - 1];
    if k < |init| {
      OutcomesAt(init, outcome, k);
    }
  }

  lemma OutcomesSnoc<T>(posts: seq<NewsPost>, outcome: NewsPost -> Result<T>, j: nat)
    requires j < |posts|
    ensures Outcomes(posts[..j + 1], outcome) == Outcomes(posts[..j], outcome) + [outcome(posts[j])]
  {
    assert posts[..j + 1][..j] == posts[..j];
  }

  /** The attempt for each post of the first pass. */
  function CreationAttempts(posts: seq<NewsPost>, urlMapping: seq<UrlMapping>, cfg: Config): seq<Result<Created>>
  {
    Outcomes(posts, p => Attempt(p, urlMapping, cfg))
  }

  /** Any value describing `Attempt` gives the attempts of the first pass. */
  lemma {:induction false} OutcomesAgree(posts: seq<NewsPost>, outcome: NewsPost -> Result<Created>,
                                         urlMapping: seq<UrlMapping>, cfg: Config)
    requires DescribesAttempt(outcome, urlMapping, cfg)
    ensures Outcomes(posts, outcome) == CreationAttempts(posts, urlMapping, cfg)
  {
    if posts != [] {
      var last := posts[|posts| - 1];
      OutcomesAgree(posts[..|posts| - 1], outcome, urlMapping, cfg);
      assert outcome(last) == Attempt(last, urlMapping, cfg);
    }
  }

  /** The posts created by the first pass, with their payloads. */
  function CreatedPosts(posts: seq<NewsPost>, urlMapping: seq<UrlMapping>, cfg: Config): seq<Created>
  {
    PrefixOk(CreationAttempts(posts, urlMapping, cfg))
  }

  /** The contents the site stores for created posts, numbered from `firstId`. */
  function Stored(created: seq<Created>, firstId: int): (r: seq<StructuredContent>)
    ensures |r| == |created|
  {
    if created == [] then []
    else
      var init := created[..|created| - 1];
      Stored(init, firstId) + [StructuredContent(firstId + |init|, created[|init|].payload)]
  }

  /** The `k`-th stored content is the `k`-th created post's payload under `firstId + k`. */
  lemma {:induction false} StoredAt(created: seq<Created>, firstId: int, k: nat)
    requires k < |created|
    ensures Stored(created, firstId)[k] == StructuredContent(firstId + k, created[k].payload)
  {
    var init := created[..|created| - 1];
    if k < |init| {
      StoredAt(init, firstId, k);
    }
  }

  /** The log entries of created posts: old URL and the friendly URL the site answered. */
  function Logged(created: seq<Created>): (r: seq<UrlMapping>)
    ensures |r| == |created|
  {
    if created == [] then []
    else
      var init := created[..|created| - 1];
      Logged(init) + [UrlMapping(created[|init|].originalUrl, created[|init|].payload.friendlyUrlPath)]
  }

  /** The `k`-th log entry pairs the `k`-th created post's old URL with its friendly URL. */
  lemma {:induction false} LoggedAt(created: seq<Created>, k: nat)
    requires k < |created|
    ensures Logged(created)[k] == UrlMapping(created[k].originalUrl, created[k].payload.friendlyUrlPath)
  {
    var init := created[..|created| - 1];
    if k < |init| {
      LoggedAt(init, k);
    }
  }

  lemma StoredSnoc(created: seq<Created>, c: Created, firstId: int)
    ensures Stored(created + [c], firstId) == Stored(created, firstId) + [StructuredContent(firstId + |created|, c.payload)]
  {
    assert (created + [c])[..|created|] == created;
  }

  lemma LoggedSnoc(created: seq<Created>, c: Created)
    ensures Logged(created + [c]) == Logged(created) + [UrlMapping(c.originalUrl, c.payload.friendlyUrlPath)]
  {
    assert (created + [c])[..|created|] == created;
  }

  /** When no payload fails to build, the first pass creates every post in order, each
      with the payload built from the log it was given. */
  lemma CreatedPostsAll(posts: seq<NewsPost>, urlMapping: seq<UrlMapping>, cfg: Config)
    requires forall j :: 0 <= j < |posts| ==> BuildPayload(posts[j], urlMapping, cfg).Success?
    ensures |CreatedPosts(posts, urlMapping, cfg)| == |posts|
    ensures forall j :: 0 <= j < |posts| ==>
              CreatedPosts(posts, urlMapping, cfg)[j]
              == Created(posts[j].link.GetOr(NoOldUrl), BuildPayload(posts[j], urlMapping, cfg).value)
  {
    var rs := CreationAttempts(posts, urlMapping, cfg);
    forall k | 0 <= k < |posts| ensures rs[k] == Attempt(posts[k], urlMapping, cfg) {
      OutcomesAt(posts, p => Attempt(p, urlMapping, cfg), k);
    }
    AnyFailureExists(rs);
    PrefixOkAll(rs);
  }

  /** A successful attempt after a run without failure extends what is kept. */
  lemma SuccessStep<T>(before: seq<Result<T>>, c: T)
    requires !AnyFailure(before)
    ensures !AnyFailure(before + [Success(c)])
    ensures PrefixOk(before + [Success(c)]) == PrefixOk(before) + [c]
  {
    assert (before + [Success(c)])[..|before|] == before;
  }

  /** The contents after one more post of the first pass: one more stored content when
      the site accepts posts, the same contents otherwise. */
  lemma StoreStep(contents0: seq<StructuredContent>, before: seq<StructuredContent>, after: seq<StructuredContent>,
                  created: seq<Created>, c: Created, firstId: int, accepts: bool)
    requires before == contents0 + (if accepts then Stored(created, firstId) else [])
    requires after == if accepts then before + [StructuredContent(firstId + |created|, c.payload)] else before
    ensures after == contents0 + (if accepts then Stored(created + [c], firstId) else [])
  {
    if accepts {
      StoredSnoc(created, c, firstId);
      var b, x := Stored(created, firstId), StructuredContent(firstId + |created|, c.payload);
      assert (contents0 + b) + [x] == contents0 + (b + [x]);
    }
  }

  /** The log after one more post of the first pass, in the same way. */
  lemma LogStep(entries0: seq<UrlMapping>, before: seq<UrlMapping>, after: seq<UrlMapping>,
                created: seq<Created>, c: Created, accepts: bool)
    requires before == entries0 + (if accepts then Logged(created) else [])
    requires after == if accepts then before + [UrlMapping(c.originalUrl, c.payload.friendlyUrlPath)] else before
    ensures after == entries0 + (if accepts then Logged(created + [c]) else [])
  {
    if accepts {
      LoggedSnoc(created, c);
      var b, x := Logged(created), UrlMapping(c.originalUrl, c.payload.friendlyUrlPath);
      assert (entries0 + b) + [x] == entries0 + (b + [x]);
    }
  }

  /** A failing outcome for post `j`, after none failed, ends the first pass. */
  lemma OutcomesStop<T>(posts: seq<NewsPost>, outcome: NewsPost -> Result<T>, j: nat)
    requires j < |posts| && outcome(posts[j]).Failure?
    requires !AnyFailure(Outcomes(posts[..j], outcome))
    ensures AnyFailure(Outcomes(posts, outcome))
    ensures PrefixOk(Outcomes(posts, outcome)) == PrefixOk(Outcomes(posts[..j], outcome))
  {
    var rs := Outcomes(posts, outcome);
    OutcomesAt(posts, outcome, j);
    assert rs[..j] == Outcomes(posts[..j], outcome) by {
      forall k | 0 <= k < j ensures rs[..j][k] == Outcomes(posts[..j], outcome)[k] {
        OutcomesAt(posts, outcome, k);
        OutcomesAt(posts[..j], outcome, k);
      }
    }
    FirstFailure(rs, j);
  }

  /** The first half of `process_post`: the payload, assembled as the source assembles it. */
  method AssemblePayload(post: NewsPost, urlMapping: seq<UrlMapping>, cfg: Config) returns (r: Result<Payload>)
    ensures r == BuildPayload(post, urlMapping, cfg)
  {
    var categoryIds := CategoryIds(cfg.mapping, post.categories);
    if post.title.None? {
      return Failure("KeyError: 'title'");
    }
    var title := post.title.value;
    var friendlyUrl := FriendlyUrl(title, cfg.translit);
    var dateCreated := FormatDateCreated(post);
    if dateCreated.Failure? {
      return Failure(dateCreated.reason);
    }
    var contentHtml := ReplaceUrls(post.content.GetOr(""), urlMapping);
    var fields := ContentFields(post, contentHtml);
    r := Success(Payload(cfg.structureId, title, friendlyUrl, dateCreated.value, categoryIds, fields));
  }

  /** The date of the payload, formatted only when the post has one. */
  method FormatDateCreated(post: NewsPost) returns (date: Result<Option<string>>)
    ensures date == DateCreated(post)
  {
    date := Success(None);
    if post.dateGmt.Some? {
      var formatted := FormatDate(post.dateGmt.value);
      if formatted.Failure? {
        return Failure(formatted.reason);
      }
      date := Success(Some(formatted.value));
    }
  }

  /** The `contentFields` of the payload: the rewritten content, then the excerpt when it
      is non-empty. */
  method ContentFields(post: NewsPost, contentHtml: string) returns (fields: seq<ContentField>)
    ensures fields == [ContentField("TextoMateria", contentHtml)] + ExcerptField(post)
  {
    fields := [ContentField("TextoMateria", contentHtml)];
    if post.excerpt.Some? && post.excerpt.value != [] {
      fields := fields + [ContentField("Chamada", post.excerpt.value)];
    } else {
      assert fields + ExcerptField(post) == fields;
    }
  }

  /** `process_post`: builds the payload (a missing title or a malformed date raises) and
      posts it; when the site accepts it, the old URL and the friendly URL the site answered
      are logged. */
  method ProcessPost(server: ContentServer, log: UrlMappingLog, post: NewsPost,
                     urlMapping: seq<UrlMapping>, cfg: Config, ghost outcome: NewsPost -> Result<Created>)
    returns (r: Result<bool>)
    requires DescribesAttempt(outcome, urlMapping, cfg)
    modifies server, log
    ensures r.Failure? <==> outcome(post).Failure?
    ensures r.Success? ==> (r.value <==> old(server.Accepts()))
    ensures r.Success? && r.value ==>
              var c := outcome(post).value;
              && server.contents == old(server.contents) + [StructuredContent(old(server.nextId), c.payload)]
              && server.nextId == old(server.nextId) + 1
              && log.file == Some(old(log.Entries()) + [UrlMapping(c.originalUrl, c.payload.friendlyUrlPath)])
    ensures !(r.Success? && r.value) ==>
              server.contents == old(server.contents) && server.nextId == old(server.nextId)
              && log.file == old(log.file)
    ensures server.patches == old(server.patches) && server.online == old(server.online)
    ensures server.createStatus == old(server.createStatus)
  {
    ghost var expected := Attempt(post, urlMapping, cfg);
    var built := AssemblePayload(post, urlMapping, cfg);
    if built.Failure? {
      return Failure(built.reason);
    }
    var payload := built.value;
    var path := server.Create(payload);
    if path.None? {
      return Success(false);
    }
    log.Save(post.link.GetOr(NoOldUrl), path.value);
    r := Success(true);
  }

  /** Where the first pass started: the site's contents and next identifier, the log file,
      and whether the site accepts creations. */
  datatype Start = Start(contents: seq<StructuredContent>, nextId: int, file: Option<seq<UrlMapping>>, accepts: bool)

  /** The site and the log once the first pass has created `created` since `start`. */
  ghost predicate Progressed(server: ContentServer, log: UrlMappingLog, start: Start, created: seq<Created>)
    reads server, log
  {
    && server.Accepts() == start.accepts
    && server.contents == start.contents + (if start.accepts then Stored(created, start.nextId) else [])
    && server.nextId == start.nextId + (if start.accepts then |created| else 0)
    && log.Entries() == start.file.GetOr([]) + (if start.accepts then Logged(created) else [])
    && (!start.accepts ==> log.file == start.file)
  }

  /** The first loop of `main`: every post is processed with the log loaded before the
      loop, so entries logged during the loop are not used in it; an exception ends it. */
  method CreateAll(server: ContentServer, log: UrlMappingLog, posts: seq<NewsPost>,
                   urlMapping: seq<UrlMapping>, cfg: Config, ghost outcome: NewsPost -> Result<Created>)
    returns (raised: bool)
    requires DescribesAttempt(outcome, urlMapping, cfg)
    modifies server, log
    ensures raised == AnyFailure(Outcomes(posts, outcome))
    ensures old(server.Accepts()) ==>
              var created := PrefixOk(Outcomes(posts, outcome));
              && server.contents == old(server.contents) + Stored(created, old(server.nextId))
              && server.nextId == old(server.nextId) + |created|
              && log.Entries() == old(log.Entries()) + Logged(created)
    ensures !old(server.Accepts()) ==>
              server.contents == old(server.contents) && server.nextId == old(server.nextId)
              && log.file == old(log.file)
    ensures server.patches == old(server.patches) && server.online == old(server.online)
    ensures server.createStatus == old(server.createStatus)
  {
    ghost var start := Start(server.contents, server.nextId, log.file, server.Accepts());
    ghost var created: seq<Created> := [];
    var j := 0;
    while j < |posts|
      invariant 0 <= j <= |posts|
      invariant !AnyFailure(Outcomes(posts[..j], outcome))
      invariant created == PrefixOk(Outcomes(posts[..j], outcome))
      invariant Progressed(server, log, start, created)
      invariant server.online == old(server.online) && server.createStatus == old(server.createStatus)
      invariant server.patches == old(server.patches)
      decreases |posts| - j
    {
      OutcomesSnoc(posts, outcome, j);
      var r := CreateNext(server, log, posts[j], urlMapping, cfg, outcome, start, created);
      if r.Failure? {
        OutcomesStop(posts, outcome, j);
        return true;
      }
      SuccessStep(Outcomes(posts[..j], outcome), outcome(posts[j]).value);
      created := created + [outcome(posts[j]).value];
      j := j + 1;
    }
    assert posts[..|posts|] == posts;
    raised := false;
  }

  /** One post of that loop, stated against everything the loop has created so far. */
  method CreateNext(server: ContentServer, log: UrlMappingLog, post: NewsPost, urlMapping: seq<UrlMapping>,
                    cfg: Config, ghost outcome: NewsPost -> Result<Created>, ghost start: Start,
                    ghost created: seq<Created>)
    returns (r: Result<bool>)
    requires DescribesAttempt(outcome, urlMapping, cfg)
    requires Progressed(server, log, start, created)
    modifies server, log
    ensures r.Failure? <==> outcome(post).Failure?
    ensures r.Success? ==> Progressed(server, log, start, created + [outcome(post).value])
    ensures r.Failure? ==>
              server.contents == old(server.contents) && server.nextId == old(server.nextId)
              && log.file == old(log.file)
    ensures server.online == old(server.online) && server.createStatus == old(server.createStatus)
    ensures server.patches == old(server.patches)
  {
    ghost var contentsBefore, entriesBefore := server.contents, log.Entries();
    r := ProcessPost(server, log, post, urlMapping, cfg, outcome);
    if r.Success? {
      ghost var c := outcome(post).value;
      StoreStep(start.contents, contentsBefore, server.contents, created, c, start.nextId, start.accepts);
      LogStep(start.file.GetOr([]), entriesBefore, log.Entries(), created, c, start.accepts);
    }
  }

  // ---------------------------------------------------------------------------------------
  // Second pass: rewriting internal links

  /** What the body of the second loop of `main` does with one post, given the contents the
      site holds: `Success(None)` when no PATCH is sent, the PATCH when one is, or the
      exception raised (`post_data["title"]` and `post_data["content"]` are indexed). A
      content found under identifier 0 is skipped, as `if content_id:` is false for it. */
  function PatchStep(post: NewsPost, log: seq<UrlMapping>, contents: seq<StructuredContent>,
                     online: bool, translit: string -> Ascii): Result<Option<Patch>>
  {
    if post.title.None? then Failure("KeyError: 'title'")
    else
      var id := if online then FirstWithPath(contents, FriendlyUrl(post.title.value, translit)) else None;
      if id.None? || id.value == 0 then Success(None)
      else if post.content.None? then Failure("KeyError: 'content'")
      else
        var updated := ApplyMapping(post.content.value, log);
        if updated == post.content.value then Success(None) else Success(Some(Patch(id.value, updated)))
  }

  /** A PATCH is sent only for a post with a title and a content whose friendly URL finds a
      content with a non-zero identifier, and it carries exactly the content with every
      logged URL replaced, which differs from the content; the step raises exactly when the
      title is missing, or when such a content is found and the post has no content. */
  lemma PatchStepShape(post: NewsPost, log: seq<UrlMapping>, contents: seq<StructuredContent>,
                       online: bool, translit: string -> Ascii)
    ensures PatchStep(post, log, contents, online, translit).Failure? <==>
              post.title.None?
              || (online && post.content.None?
                  && var id := FirstWithPath(contents, FriendlyUrl(post.title.value, translit));
                     id.Some? && id.value != 0)
    ensures PatchStep(post, log, contents, online, translit).Success?
            && PatchStep(post, log, contents, online, translit).value.Some? ==>
              var q := PatchStep(post, log, contents, online, translit).value.value;
              && online && post.title.Some? && post.content.Some?
              && q.id != 0
              && FirstWithPath(contents, FriendlyUrl(post.title.value, translit)) == Some(q.id)
              && q.html == ApplyMapping(post.content.value, log)
              && q.html != post.content.value
    ensures PatchStep(post, log, contents, online, translit).Success?
            && PatchStep(post, log, contents, online, translit).value.Some? ==>
              exists k :: 0 <= k < |contents| && contents[k].id == PatchStep(post, log, contents, online, translit).value.value.id
                          && contents[k].payload.friendlyUrlPath == FriendlyUrl(post.title.value, translit)
  {
  }

  /** With no logged URL occurring in a post's content, no PATCH is sent for it. */
  lemma NoLoggedUrlNoPatch(post: NewsPost, log: seq<UrlMapping>, contents: seq<StructuredContent>,
                           online: bool, translit: string -> Ascii)
    requires post.content.Some?
    requires forall m :: 0 <= m < |log| ==> !Occurs(post.content.value, log[m].originalUrl)
    ensures PatchStep(post, log, contents, online, translit).Failure?
            || PatchStep(post, log, contents, online, translit).value.None?
  {
    ApplyMappingAbsent(post.content.value, log);
  }

  /** While the site cannot be reached, the step sends nothing. */
  lemma OfflineNoPatch(post: NewsPost, log: seq<UrlMapping>, contents: seq<StructuredContent>,
                       translit: string -> Ascii)
    requires post.title.Some?
    ensures PatchStep(post, log, contents, false, translit) == Success(None)
  {
  }

  /** `outcome` tells for every post what the second loop does with it. */
  ghost predicate DescribesPatch(outcome: NewsPost -> Result<Option<Patch>>, log: seq<UrlMapping>,
                                 contents: seq<StructuredContent>, online: bool, translit: string -> Ascii)
  {
    forall p {:trigger PatchStep(p, log, contents, online, translit)} ::
      outcome(p) == PatchStep(p, log, contents, online, translit)
  }

  /** The step for each post of the second pass. */
  function PatchAttempts(posts: seq<NewsPost>, log: seq<UrlMapping>, contents: seq<StructuredContent>,
                         online: bool, translit: string -> Ascii): seq<Result<Option<Patch>>>
  {
    Outcomes(posts, p => PatchStep(p, log, contents, online, translit))
  }

  /** The values present in a sequence of options, in order. */
  function Present<T>(xs: seq<Option<T>>): seq<T>
  {
    if xs == [] then []
    else Present(xs[..|xs| - 1]) + (if xs[|xs| - 1].Some? then [xs[|xs| - 1].value] else [])
  }

  lemma {:induction false} PresentMembers<T>(xs: seq<Option<T>>, x: T)
    ensures x in Present(xs) <==> exists k :: 0 <= k < |xs| && xs[k] == Some(x)
  {
    if xs != [] {
      var init := xs[..|xs| - 1];
      PresentMembers(init, x);
      if exists k :: 0 <= k < |xs| && xs[k] == Some(x) {
        var k :| 0 <= k < |xs| && xs[k] == Some(x);
        if k < |init| {
          assert init[k] == xs[k];
        }
      }
    }
  }

  lemma PresentSnoc<T>(xs: seq<Option<T>>, o: Option<T>)
    ensures Present(xs + [o]) == Present(xs) + (if o.Some? then [o.value] else [])
  {
    assert (xs + [o])[..|xs|] == xs;
  }

  /** Every value kept before the first failure is the value of some attempt. */
  lemma {:induction false} PrefixOkMembers<T>(rs: seq<Result<T>>, x: T)
    requires x in PrefixOk(rs)
    ensures exists k :: 0 <= k < |rs| && rs[k] == Success(x)
  {
    var init := rs[..|rs| - 1];
    if x in PrefixOk(init) {
      PrefixOkMembers(init, x);
      var k :| 0 <= k < |init| && init[k] == Success(x);
      assert rs[k] == init[k];
    }
  }

  /** The PATCHes the second pass sends, in order: those of the posts before the first one
      that raises. */
  function PatchesSent(posts: seq<NewsPost>, log: seq<UrlMapping>, contents: seq<StructuredContent>,
                       online: bool, translit: string -> Ascii): seq<Patch>
  {
    Present(PrefixOk(PatchAttempts(posts, log, contents, online, translit)))
  }

  /** Every PATCH of the second pass rewrites the content of one of the posts with the whole
      log: it replaces the logged URLs, changes the content, and addresses a non-zero
      identifier the site found under that post's friendly URL. */
  lemma PatchesSentRewrite(posts: seq<NewsPost>, log: seq<UrlMapping>, contents: seq<StructuredContent>,
                           online: bool, translit: string -> Ascii, q: Patch)
    requires q in PatchesSent(posts, log, contents, online, translit)
    ensures q.id != 0
    ensures exists k :: 0 <= k < |posts| && posts[k].title.Some? && posts[k].content.Some?
                        && q.html == ApplyMapping(posts[k].content.value, log)
                        && q.html != posts[k].content.value
                        && FirstWithPath(contents, FriendlyUrl(posts[k].title.value, translit)) == Some(q.id)
  {
    var rs := PatchAttempts(posts, log, contents, online, translit);
    PresentMembers(PrefixOk(rs), q);
    var i :| 0 <= i < |PrefixOk(rs)| && PrefixOk(rs)[i] == Some(q);
    PrefixOkMembers(rs, Some(q));
    var k :| 0 <= k < |rs| && rs[k] == Success(Some(q));
    OutcomesAt(posts, p => PatchStep(p, log, contents, online, translit), k);
    PatchStepShape(posts[k], log, contents, online, translit);
  }

  /** When no logged URL occurs in any post's content, the second pass sends nothing. */
  lemma NoLoggedUrlsNoPatches(posts: seq<NewsPost>, log: seq<UrlMapping>, contents: seq<StructuredContent>,
                              online: bool, translit: string -> Ascii)
    requires forall k, m :: 0 <= k < |posts| && 0 <= m < |log| && posts[k].content.Some? ==>
               !Occurs(posts[k].content.value, log[m].originalUrl)
    ensures PatchesSent(posts, log, contents, online, translit) == []
  {
    var sent := PatchesSent(posts, log, contents, online, translit);
    if sent != [] {
      var q := sent[0];
      PatchesSentRewrite(posts, log, contents, online, translit, q);
      var k :| 0 <= k < |posts| && posts[k].title.Some? && posts[k].content.Some?
               && q.html == ApplyMapping(posts[k].content.value, log) && q.html != posts[k].content.value;
      ApplyMappingAbsent(posts[k].content.value, log);
    }
  }

  /** Functions that agree on every post give the same outcomes. */
  lemma {:induction false} OutcomesExt<T>(posts: seq<NewsPost>, f: NewsPost -> Result<T>, g: NewsPost -> Result<T>)
    requires forall p :: f(p) == g(p)
    ensures Outcomes(posts, f) == Outcomes(posts, g)
  {
    if posts != [] {
      OutcomesExt(posts[..|posts| - 1], f, g);
    }
  }

  lemma PatchOutcomesAgree(posts: seq<NewsPost>, outcome: NewsPost -> Result<Option<Patch>>, log: seq<UrlMapping>,
                           contents: seq<StructuredContent>, online: bool, translit: string -> Ascii)
    requires DescribesPatch(outcome, log, contents, online, translit)
    ensures Outcomes(posts, outcome) == PatchAttempts(posts, log, contents, online, translit)
  {
    var g := p => PatchStep(p, log, contents, online, translit);
    forall p ensures outcome(p) == g(p) {
      assert g(p) == PatchStep(p, log, contents, online, translit);
    }
    OutcomesExt(posts, outcome, g);
  }

  /** The body of the second loop of `main` for one post: finds the content by the post's
      friendly URL and, when the rewritten content differs, sends it as a PATCH. */
  method PatchPost(server: ContentServer, post: NewsPost, log: seq<UrlMapping>, translit: string -> Ascii,
                   ghost contents: seq<StructuredContent>, ghost online: bool,
                   ghost outcome: NewsPost -> Result<Option<Patch>>) returns (r: Result<bool>)
    requires server.contents == contents && server.online == online
    requires DescribesPatch(outcome, log, contents, online, translit)
    modifies server
    ensures r.Failure? <==> outcome(post).Failure?
    ensures r.Success? ==> (r.value <==> outcome(post).value.Some?)
    ensures server.patches == if r.Success? && r.value then old(server.patches) + [outcome(post).value.value]
                              else old(server.patches)
    ensures server.contents == old(server.contents) && server.nextId == old(server.nextId)
    ensures server.online == old(server.online) && server.createStatus == old(server.createStatus)
  {
    ghost var expected := PatchStep(post, log, contents, online, translit);
    if post.title.None? {
      return Failure("KeyError: 'title'");
    }
    var slug := FriendlyUrl(post.title.value, translit);
    var id := server.FindBySlug(slug);
    if id.None? || id.value == 0 {
      return Success(false);
    }
    if post.content.None? {
      return Failure("KeyError: 'content'");
    }
    var html := post.content.value;
    var updated := ReplaceUrls(html, log);
    if updated == html {
      return Success(false);
    }
    server.Update(id.value, updated);
    r := Success(true);
  }

  /** The PATCHes after one more post of the second pass. */
  lemma PatchesStep(patches0: seq<Patch>, before: seq<Patch>, after: seq<Patch>, sent: seq<Patch>, o: Option<Patch>)
    requires before == patches0 + sent
    requires after == if o.Some? then before + [o.value] else before
    ensures after == patches0 + (sent + (if o.Some? then [o.value] else []))
  {
    if o.Some? {
      assert (patches0 + sent) + [o.value] == patches0 + (sent + [o.value]);
    } else {
      assert sent + [] == sent;
    }
  }

  /** The second loop of `main`: every post is looked up and patched with the log reloaded
      after the first loop; an exception ends it. */
  method PatchAll(server: ContentServer, posts: seq<NewsPost>, log: seq<UrlMapping>, translit: string -> Ascii,
                  ghost outcome: NewsPost -> Result<Option<Patch>>) returns (raised: bool)
    requires DescribesPatch(outcome, log, server.contents, server.online, translit)
    modifies server
    ensures raised == AnyFailure(Outcomes(posts, outcome))
    ensures server.patches == old(server.patches) + Present(PrefixOk(Outcomes(posts, outcome)))
    ensures server.contents == old(server.contents) && server.nextId == old(server.nextId)
    ensures server.online == old(server.online) && server.createStatus == old(server.createStatus)
  {
    ghost var contents, online := server.contents, server.online;
    assert DescribesPatch(outcome, log, contents, online, translit);
    var j := 0;
    assert posts[..0] == [];
    while j < |posts|
      invariant 0 <= j <= |posts|
      invariant !AnyFailure(Outcomes(posts[..j], outcome))
      invariant server.patches == old(server.patches) + Present(PrefixOk(Outcomes(posts[..j], outcome)))
      invariant server.contents == old(server.contents) && server.nextId == old(server.nextId)
      invariant server.online == old(server.online) && server.createStatus == old(server.createStatus)
      decreases |posts| - j
    {
      ghost var before := Outcomes(posts[..j], outcome);
      ghost var patchesBefore := server.patches;
      OutcomesSnoc(posts, outcome, j);
      var r := PatchPost(server, posts[j], log, translit, contents, online, outcome);
      if r.Failure? {
        OutcomesStop(posts, outcome, j);
        return true;
      }
      ghost var o := outcome(posts[j]).value;
      SuccessStep(before, o);
      PresentSnoc(PrefixOk(before), o);
      PatchesStep(old(server.patches), patchesBefore, server.patches, Present(PrefixOk(before)), o);
      j := j + 1;
    }
    assert posts[..|posts|] == posts;
    raised := false;
  }

  // ---------------------------------------------------------------------------------------
  // The whole run

  /** `main`'s `wordpress_categories`: the WordPress identifier of every mapping entry. */
  function WordPressIds(mapping: seq<CategoryMapping>): seq<int>
  {
    seq(|mapping|, i requires 0 <= i < |mapping| => mapping[i].wordpressId)
  }

  /** `main`: loads the category mapping (a missing file reads as `[]`), fetches the posts,
      creates them with the log as it was before the first loop, then reloads the log and
      patches the internal links with it. `fetch_posts` raising, or any post raising in the
      first loop, ends the run before the second loop; `completed` is false whenever an
      exception ended `main`. */
  method MigrateNews(categoriesFile: Option<seq<CategoryMapping>>, unfiltered: Reply<seq<NewsPost>>,
                     sources: int -> PageSource<NewsPost>, structureId: string, translit: string -> Ascii,
                     server: ContentServer, log: UrlMappingLog) returns (completed: bool)
    modifies server, log
    ensures FetchedPosts(WordPressIds(categoriesFile.GetOr([])), unfiltered, sources).Failure? ==>
              !completed && server.contents == old(server.contents) && server.nextId == old(server.nextId)
              && server.patches == old(server.patches) && log.file == old(log.file)
    ensures FetchedPosts(WordPressIds(categoriesFile.GetOr([])), unfiltered, sources).Success? ==>
              var posts := FetchedPosts(WordPressIds(categoriesFile.GetOr([])), unfiltered, sources).value;
              var cfg := Config(categoriesFile.GetOr([]), structureId, translit);
              var created := CreatedPosts(posts, old(log.Entries()), cfg);
              && (old(server.Accepts()) ==>
                    server.contents == old(server.contents) + Stored(created, old(server.nextId))
                    && log.Entries() == old(log.Entries()) + Logged(created))
              && (!old(server.Accepts()) ==>
                    server.contents == old(server.contents) && log.file == old(log.file))
              && (AnyFailure(CreationAttempts(posts, old(log.Entries()), cfg)) ==>
                    !completed && server.patches == old(server.patches))
              && (!AnyFailure(CreationAttempts(posts, old(log.Entries()), cfg)) ==>
                    server.patches == old(server.patches)
                                      + PatchesSent(posts, log.Entries(), server.contents, server.online, translit)
                    && completed == !AnyFailure(PatchAttempts(posts, log.Entries(), server.contents, server.online, translit)))
    ensures server.online == old(server.online) && server.createStatus == old(server.createStatus)
  {
    var mapping := categoriesFile.GetOr([]);
    var fetched, requests := FetchPosts(WordPressIds(mapping), unfiltered, sources);
    if fetched.Failure? {
      return false;
    }
    completed := MigratePosts(fetched.value, Config(mapping, structureId, translit), server, log);
  }

  /** What `main` does once the posts are fetched: the first loop with the log as loaded
      before it and, unless a post raised, the second loop with the log reloaded. */
  method MigratePosts(posts: seq<NewsPost>, cfg: Config, server: ContentServer, log: UrlMappingLog)
    returns (completed: bool)
    modifies server, log
    ensures var created := CreatedPosts(posts, old(log.Entries()), cfg);
            && (old(server.Accepts()) ==>
                  server.contents == old(server.contents) + Stored(created, old(server.nextId))
                  && log.Entries() == old(log.Entries()) + Logged(created))
            && (!old(server.Accepts()) ==>
                  server.contents == old(server.contents) && log.file == old(log.file))
    ensures AnyFailure(CreationAttempts(posts, old(log.Entries()), cfg)) ==>
              !completed && server.patches == old(server.patches)
    ensures !AnyFailure(CreationAttempts(posts, old(log.Entries()), cfg)) ==>
              server.patches == old(server.patches)
                                + PatchesSent(posts, log.Entries(), server.contents, server.online, cfg.translit)
              && completed == !AnyFailure(PatchAttempts(posts, log.Entries(), server.contents, server.online, cfg.translit))
    ensures server.online == old(server.online) && server.createStatus == old(server.createStatus)
  {
    var urlMapping := log.Load();
    var raised := CreatePass(server, log, posts, urlMapping, cfg);
    if raised {
      return false;
    }
    urlMapping := log.Load();
    raised := PatchPass(server, posts, urlMapping, cfg.translit);
    completed := !raised;
  }

  /** The first loop of `main`, stated against the creation attempts themselves. */
  method CreatePass(server: ContentServer, log: UrlMappingLog, posts: seq<NewsPost>,
                    urlMapping: seq<UrlMapping>, cfg: Config) returns (raised: bool)
    modifies server, log
    ensures raised == AnyFailure(CreationAttempts(posts, urlMapping, cfg))
    ensures old(server.Accepts()) ==>
              var created := CreatedPosts(posts, urlMapping, cfg);
              && server.contents == old(server.contents) + Stored(created, old(server.nextId))
              && server.nextId == old(server.nextId) + |created|
              && log.Entries() == old(log.Entries()) + Logged(created)
    ensures !old(server.Accepts()) ==>
              server.contents == old(server.contents) && server.nextId == old(server.nextId)
              && log.file == old(log.file)
    ensures server.patches == old(server.patches) && server.online == old(server.online)
    ensures server.createStatus == old(server.createStatus)
  {
    ghost var attempt := p => Attempt(p, urlMapping, cfg);
    raised := CreateAll(server, log, posts, urlMapping, cfg, attempt);
    OutcomesAgree(posts, attempt, urlMapping, cfg);
  }

  /** The second loop of `main`, stated against the patch attempts themselves. */
  method PatchPass(server: ContentServer, posts: seq<NewsPost>, urlMapping: seq<UrlMapping>,
                   translit: string -> Ascii) returns (raised: bool)
    modifies server
    ensures raised == AnyFailure(PatchAttempts(posts, urlMapping, old(server.contents), old(server.online), translit))
    ensures server.patches == old(server.patches)
                              + PatchesSent(posts, urlMapping, old(server.contents), old(server.online), translit)
    ensures server.contents == old(server.contents) && server.nextId == old(server.nextId)
    ensures server.online == old(server.online) && server.createStatus == old(server.createStatus)
  {
    ghost var contents, online := server.contents, server.online;
    ghost var patchOf := p => PatchStep(p, urlMapping, contents, online, translit);
    raised := PatchAll(server, posts, urlMapping, translit, patchOf);
    PatchOutcomesAgree(posts, patchOf, urlMapping, contents, online, translit);
  }
}
