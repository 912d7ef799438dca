/** Image URLs found in a post: which ones are migrated, how a relative one is resolved
    against the source site, and the file name an image is stored under. */
module ImageUrls {
  import opened Text

  /** The host of the WordPress site the images come from. */
  const SourceHost: string := "https://www2.tc.df.gov.br"

  /** The prefixes `filter_valid_image_urls` accepts. */
  predicate IsValidImageUrl(u: string)
  {
    StartsWith(u, SourceHost) || StartsWith(u, "/wp-content") || StartsWith(u, "/wp-conteudo")
  }

  /** The accepted URLs, in their original order (duplicates kept). */
  function ValidUrls(urls: seq<string>): seq<string>
  {
    if urls == [] then []
    else ValidUrls(urls[..|urls| - 1]) + (if IsValidImageUrl(urls[|urls| - 1]) then [urls[|urls| - 1]] else [])
  }

  /** A URL is kept exactly when it is in the input and carries one of the prefixes. */
  lemma {:induction false} ValidUrlsMembers(urls: seq<string>, u: string)
    ensures u in ValidUrls(urls) <==> u in urls && IsValidImageUrl(u)
  {
    if urls != [] {
      var init := urls[..|urls| - 1];
      ValidUrlsMembers(init, u);
      assert urls == init + [urls[|urls| - 1]];
    }
  }

  /** Filtering a concatenation filters each part and keeps their order. */
  lemma {:induction false} ValidUrlsAppend(a: seq<string>, b: seq<string>)
    ensures ValidUrls(a + b) == ValidUrls(a) + ValidUrls(b)
    decreases |b|
  {
    if b == [] {
      assert a + b == a;
    } else {
      var init := b[..|b| - 1];
      assert (a + b)[..|a + b| - 1] == a + init;
      ValidUrlsAppend(a, init);
    }
  }

  /** A list of accepted URLs passes unchanged. */
  lemma {:induction false} ValidUrlsKeepsValid(urls: seq<string>)
    requires forall i :: 0 <= i < |urls| ==> IsValidImageUrl(urls[i])
    ensures ValidUrls(urls) == urls
  {
    if urls != [] {
      ValidUrlsKeepsValid(urls[..|urls| - 1]);
    }
  }

  /** Of a site URL, an upload path and a foreign URL, only the first two pass. */
  lemma ValidUrlsExample()
    ensures ValidUrls(["https://www2.tc.df.gov.br/a.jpg", "/wp-content/b.png", "https://evil.com/c.jpg"])
            == ["https://www2.tc.df.gov.br/a.jpg", "/wp-content/b.png"]
  {
    var urls := ["https://www2.tc.df.gov.br/a.jpg", "/wp-content/b.png", "https://evil.com/c.jpg"];
    assert IsValidImageUrl(urls[0]);
    assert IsValidImageUrl(urls[1]);
    assert !IsValidImageUrl(urls[2]) by {
      assert |urls[2]| < |SourceHost|;
      assert urls[2][0] != '/';
    }
    assert urls[..2][..1] == urls[..1];
    assert urls[..1][..0] == [];
    assert ValidUrls(urls[..1]) == [urls[0]];
    assert ValidUrls(urls[..2]) == [urls[0], urls[1]];
    assert ValidUrls(urls) == ValidUrls(urls[..2]);
  }

  /** `filter_valid_image_urls`: appends each accepted URL to the result. */
  method FilterValidImageUrls(urls: seq<string>) returns (valid: seq<string>)
    ensures valid == ValidUrls(urls)
    ensures forall u :: u in valid <==> u in urls && IsValidImageUrl(u)
  {
    valid := [];
    for i := 0 to |urls|
      invariant valid == ValidUrls(urls[..i])
    {
      assert urls[..i + 1][..i] == urls[..i];
      if IsValidImageUrl(urls[i]) {
        valid := valid + [urls[i]];
      }
    }
    assert urls[..|urls|] == urls;
    forall u ensures u in valid <==> u in urls && IsValidImageUrl(u) {
      ValidUrlsMembers(urls, u);
    }
  }

  /** The URL `download_image` requests: a URL starting with `/` gets the source host. */
  function ResolveUrl(u: string): string
  {
    if StartsWith(u, "/") then SourceHost + u else u
  }

  /** Every accepted URL resolves to an address on the source host. */
  lemma ResolvedOnSourceHost(u: string)
    requires IsValidImageUrl(u)
    ensures StartsWith(ResolveUrl(u), SourceHost)
  {
    if StartsWith(u, "/") {
      assert (SourceHost + u)[..|SourceHost|] == SourceHost;
    }
  }

  /** Resolving twice is resolving once: a resolved URL never starts with `/`. */
  lemma ResolveIdempotent(u: string)
    ensures ResolveUrl(ResolveUrl(u)) == ResolveUrl(u)
  {
    if StartsWith(u, "/") {
      assert (SourceHost + u)[0] == 'h';
    }
  }

  /** Python's `os.path.basename`: what follows the last `/`. */
  function Basename(p: string): (b: string)
    ensures '/' !in b
    ensures EndsWith(p, b)
    ensures |b| < |p| ==> p[|p| - |b| - 1] == '/'
  {
    if p == [] then []
    else if p[|p| - 1] == '/' then []
    else Basename(p[..|p| - 1]) + [p[|p| - 1]]
  }

  /** Python's `os.path.join(dir, name)` for two parts. */
  function Join(dir: string, name: string): string
  {
    if StartsWith(name, "/") then name
    else if dir == [] || EndsWith(dir, "/") then dir + name
    else dir + "/" + name
  }

  lemma {:induction false} BasenameAfterSlash(d: string, b: string)
    requires d == [] || d[|d| - 1] == '/'
    requires '/' !in b
    ensures Basename(d + b) == b
    decreases |b|
  {
    if b == [] {
      assert d + b == d;
    } else {
      var init := b[..|b| - 1];
      assert (d + b)[..|d + b| - 1] == d + init;
      assert (d + b)[|d + b| - 1] == b[|b| - 1];
      assert b[|b| - 1] in b;
      BasenameAfterSlash(d, init);
      assert b == init + [b[|b| - 1]];
    }
  }

  /** The temporary file for an image URL keeps the URL's file name, which is the title
      the image is uploaded and looked up under. */
  lemma BasenameOfTempPath(dir: string, url: string)
    ensures Basename(Join(dir, Basename(url))) == Basename(url)
  {
    var b := Basename(url);
    if dir == [] {
      BasenameAfterSlash([], b);
      assert [] + b == b;
    } else if EndsWith(dir, "/") {
      assert dir[|dir| - 1] == dir[|dir| - 1..][0];
      BasenameAfterSlash(dir, b);
    } else {
      BasenameAfterSlash(dir + "/", b);
    }
  }
}
