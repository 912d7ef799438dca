/** The category mapper: reads every WordPress category, gets or creates the `Categorias`
    vocabulary on the destination site, matches each WordPress category with a destination
    category by its trimmed, lower-cased name (creating the missing ones) and saves the
    resulting mapping. */
module Categories {
  import opened Wrappers
  import opened Text
  import opened Paging

  const VocabularyName: string := "Categorias"

  datatype WordPressCategory = WordPressCategory(id: int, name: string)

  /** A destination category or vocabulary as listed: its identifier and its name. */
  datatype Named = Named(id: int, name: string)

  /** One entry of the saved mapping. */
  datatype CategoryMapping = CategoryMapping(wordpressId: int, wordpressName: string, liferayId: int, liferayName: string)

  /** Both pagination loops of the mapper: a page with status 200 is appended and an empty
      one ends the loop; any other status ends it with what was gathered; a request that
      raises ends the script. */
  function UntilEmptyPage<T>(src: PageSource<T>, page: nat): Result<seq<T>>
    requires page >= 1
    decreases |src| + 1 - page
  {
    match Request(src, page)
    case ConnectionFailed => Failure("request raised")
    case Reply(status, items, _) =>
      if status != 200 || items == [] then Success([])
      else Prepend(items, UntilEmptyPage(src, page + 1))
  }

  /** A page the loops append and go past. */
  predicate NonEmptyOkPage<T>(r: Reply<seq<T>>)
  {
    IsOk(r) && r.body != []
  }

  /** Non-empty pages `p` .. `k` are appended in order, whatever their length. */
  lemma {:induction false} UntilEmptyPageNonEmpty<T>(src: PageSource<T>, p: nat, k: nat)
    requires 1 <= p <= k + 1 && k <= |src|
    requires forall i :: p - 1 <= i < k ==> NonEmptyOkPage(src[i])
    ensures UntilEmptyPage(src, p) == Prepend(Flatten(Bodies(src[p - 1..k])), UntilEmptyPage(src, k + 1))
    decreases k + 1 - p
  {
    if p <= k {
      UntilEmptyPageNonEmpty(src, p + 1, k);
      FlattenBodiesFront(src, p, k);
      assert UntilEmptyPage(src, p) == Prepend(src[p - 1].body, UntilEmptyPage(src, p + 1));
      PrependTwice(src[p - 1].body, Flatten(Bodies(src[p..k])), UntilEmptyPage(src, k + 1));
    } else {
      assert src[p - 1..k] == [];
      PrependNothing(UntilEmptyPage(src, k + 1));
    }
  }

  /** The loop ends at the first page that is empty or has a status other than 200, and
      returns the pages before it. */
  lemma StopPageEnds<T>(src: PageSource<T>, k: nat)
    requires k < |src|
    requires forall i :: 0 <= i < k ==> NonEmptyOkPage(src[i])
    requires src[k].Reply? && (src[k].status != 200 || src[k].body == [])
    ensures UntilEmptyPage(src, 1) == Success(Flatten(Bodies(src[..k])))
  {
    UntilEmptyPageNonEmpty(src, 1, k);
    assert Flatten(Bodies(src[..k])) + [] == Flatten(Bodies(src[..k]));
  }

  /** A request that raises ends the script, however many pages came before. */
  lemma RaisingPageFails<T>(src: PageSource<T>, k: nat)
    requires k <= |src|
    requires forall i :: 0 <= i < k ==> NonEmptyOkPage(src[i])
    requires k < |src| ==> src[k].ConnectionFailed?
    ensures UntilEmptyPage(src, 1).Failure?
  {
    UntilEmptyPageNonEmpty(src, 1, k);
  }

  /** A short page does not end the loop: pages of 100 and 37 categories followed by an
      empty page give all 137. */
  lemma ShortPageContinuesExample(a: seq<WordPressCategory>, b: seq<WordPressCategory>)
    requires |a| == 100 && |b| == 37
    ensures UntilEmptyPage([Reply(200, a, None), Reply(200, b, None), Reply(200, [], None)], 1) == Success(a + b)
  {
    var src: PageSource<WordPressCategory> := [Reply(200, a, None), Reply(200, b, None), Reply(200, [], None)];
    StopPageEnds(src, 2);
    assert src[..2] == [src[0], src[1]];
    assert Bodies(src[..2]) == [a, b];
    assert Flatten([a, b]) == a + b by {
      assert [a, b][1..] == [b];
      assert [b][1..] == [];
      assert Flatten([b]) == b + Flatten([]);
      assert Flatten([a, b]) == a + Flatten([b]);
    }
  }

  /** `get_all_categories`, and the loop of `get_liferay_categories`. */
  method GetAllPages<T>(src: PageSource<T>) returns (r: Result<seq<T>>)
    ensures r == UntilEmptyPage(src, 1)
  {
    var gathered: seq<T> := [];
    var page: nat := 1;
    match UntilEmptyPage(src, 1) {
      case Failure(_) =>
      case Success(all) => assert [] + all == all;
    }
    while true
      invariant 1 <= page <= |src| + 1
      invariant UntilEmptyPage(src, 1) == Prepend(gathered, UntilEmptyPage(src, page))
      decreases |src| + 1 - page
    {
      var reply := Request(src, page);
      if reply.ConnectionFailed? {
        return Failure("request raised");
      }
      if reply.status != 200 {
        break;
      }
      match UntilEmptyPage(src, page + 1) {
        case Failure(_) =>
        case Success(rest) => assert gathered + (reply.body + rest) == (gathered + reply.body) + rest;
      }
      gathered := gathered + reply.body;
      if reply.body == [] {
        break;
      }
      page := page + 1;
    }
    assert gathered + [] == gathered;
    r := Success(gathered);
  }

  /** The lookup key of a category name: trimmed and lower-cased. */
  function Normalize(name: string): string
  {
    Lower(Strip(name))
  }

  /** The dictionary built from the destination categories: key to identifier, a later
      category overriding an earlier one with the same key. */
  function NameIndex(cats: seq<Named>): map<string, int>
  {
    if cats == [] then map[]
    else NameIndex(cats[..|cats| - 1])[Normalize(cats[|cats| - 1].name) := cats[|cats| - 1].id]
  }

  /** The keys of the dictionary are exactly the normalised names. */
  lemma {:induction false} NameIndexKeys(cats: seq<Named>, key: string)
    ensures key in NameIndex(cats) <==> exists i :: 0 <= i < |cats| && Normalize(cats[i].name) == key
  {
    if cats != [] {
      var init := cats[..|cats| - 1];
      var last := cats[|cats| - 1];
      NameIndexKeys(init, key);
      assert key in NameIndex(cats) <==> key in NameIndex(init) || key == Normalize(last.name);
      if key in NameIndex(init) {
        var i :| 0 <= i < |init| && Normalize(init[i].name) == key;
        assert cats[i] == init[i];
      }
      if exists i :: 0 <= i < |cats| && Normalize(cats[i].name) == key {
        var i :| 0 <= i < |cats| && Normalize(cats[i].name) == key;
        if i < |init| {
          assert init[i] == cats[i];
        } else {
          assert cats[i] == last;
        }
      }
    }
  }

  /** A key maps to the identifier of the last category with that key. */
  lemma {:induction false} NameIndexLastWins(cats: seq<Named>, i: nat)
    requires i < |cats|
    requires forall j :: i < j < |cats| ==> Normalize(cats[j].name) != Normalize(cats[i].name)
    ensures Normalize(cats[i].name) in NameIndex(cats)
    ensures NameIndex(cats)[Normalize(cats[i].name)] == cats[i].id
  {
    if i < |cats| - 1 {
      var init := cats[..|cats| - 1];
      assert init[i] == cats[i];
      NameIndexLastWins(init, i);
    }
  }

  /** Two destination categories `Notícias` and ` notícias ` share one key; the later wins. */
  lemma NameIndexCollisionExample()
    ensures NameIndex([Named(1, "Notícias"), Named(2, " notícias ")]) == map["notícias" := 2]
  {
    var cats := [Named(1, "Notícias"), Named(2, " notícias ")];
    NoticiasKeys();
    assert cats[..1] == [cats[0]];
    assert [cats[0]][..0] == [];
  }

  lemma NoticiasKeys()
    ensures Normalize("Notícias") == "notícias" && Normalize(" notícias ") == "notícias"
  {
    assert Strip("Notícias") == "Notícias";
    assert Strip(" notícias ") == "notícias";
    var l, m := Lower("Notícias"), Lower("notícias");
    assert l[0] == 'n';
    assert forall i :: 1 <= i < |l| ==> l[i] == "Notícias"[i];
    assert forall i :: 0 <= i < |m| ==> m[i] == "notícias"[i];
  }

  /** `get_liferay_categories`: every page of the vocabulary's categories, then the
      dictionary from normalised names to identifiers. */
  method GetLiferayCategories(src: PageSource<Named>) returns (r: Result<map<string, int>>)
    ensures UntilEmptyPage(src, 1).Failure? <==> r.Failure?
    ensures UntilEmptyPage(src, 1).Success? ==> r == Success(NameIndex(UntilEmptyPage(src, 1).value))
  {
    var cats := GetAllPages(src);
    if cats.Failure? {
      return Failure(cats.reason);
    }
    r := Success(NameIndex(cats.value));
  }

  /** `create_liferay_category`'s result: the new identifier on status 201, `None` on any
      other status; a request that raises ends the script. */
  function CreationResult(reply: Reply<int>): Result<Option<int>>
  {
    match reply
    case ConnectionFailed => Failure("request raised")
    case Reply(status, id, _) => if status == 201 then Success(Some(id)) else Success(None)
  }

  /** The mapping entry for one WordPress category: the dictionary's identifier when its
      key is present, otherwise the identifier of the category created for it, or no entry
      when the creation gave nothing (or the falsy identifier 0). */
  function Entry(c: WordPressCategory, i: nat, index: map<string, int>, create: (nat, string) -> Reply<int>): (r: Result<Option<CategoryMapping>>)
    ensures r.Success? && r.value.Some? ==>
              r.value.value.wordpressId == c.id && r.value.value.wordpressName == c.name
              && r.value.value.liferayName == c.name
    ensures Normalize(c.name) in index ==>
              r == Success(Some(CategoryMapping(c.id, c.name, index[Normalize(c.name)], c.name)))
    ensures Normalize(c.name) !in index ==>
              (r.Failure? <==> create(i, c.name).ConnectionFailed?)
              && (r.Success? && r.value.Some? <==>
                    create(i, c.name).Reply? && create(i, c.name).status == 201 && create(i, c.name).body != 0)
              && (r.Success? && r.value.Some? ==> r.value.value.liferayId == create(i, c.name).body)
  {
    var key := Normalize(c.name);
    if key in index then Success(Some(CategoryMapping(c.id, c.name, index[key], c.name)))
    else
      match CreationResult(create(i, c.name))
      case Failure(e) => Failure(e)
      case Success(created) =>
        if created.Some? && created.value != 0 then Success(Some(CategoryMapping(c.id, c.name, created.value, c.name)))
        else Success(None)
  }

  /** The entry of a category whose creation did not raise. */
  function EntryOption(c: WordPressCategory, i: nat, index: map<string, int>, create: (nat, string) -> Reply<int>): Option<CategoryMapping>
  {
    var e := Entry(c, i, index, create); if e.Success? then e.value else None
  }

  /** The entries of a list of WordPress categories, in order. */
  function Mapped(cats: seq<WordPressCategory>, index: map<string, int>, create: (nat, string) -> Reply<int>): seq<CategoryMapping>
  {
    if cats == [] then []
    else
      var o := EntryOption(cats[|cats| - 1], |cats| - 1, index, create);
      Mapped(cats[..|cats| - 1], index, create) + (if o.Some? then [o.value] else [])
  }

  /** Some creation request raises, which ends the script before anything is saved. */
  predicate Raises(cats: seq<WordPressCategory>, index: map<string, int>, create: (nat, string) -> Reply<int>)
  {
    exists i :: 0 <= i < |cats| && Entry(cats[i], i, index, create).Failure?
  }

  /** `map_and_create_categories`' result. */
  function MapAll(cats: seq<WordPressCategory>, index: map<string, int>, create: (nat, string) -> Reply<int>): Result<seq<CategoryMapping>>
  {
    if Raises(cats, index, create) then Failure("request raised") else Success(Mapped(cats, index, create))
  }

  /** The positions of the categories that get an entry, in increasing order. */
  function Kept(cats: seq<WordPressCategory>, index: map<string, int>, create: (nat, string) -> Reply<int>): seq<nat>
  {
    if cats == [] then []
    else
      Kept(cats[..|cats| - 1], index, create)
      + (if EntryOption(cats[|cats| - 1], |cats| - 1, index, create).Some? then [|cats| - 1] else [])
  }

  /** The mapping holds, in input order and at most once each, exactly the categories that
      get an entry: the `k`-th entry is that of the `k`-th kept position. */
  lemma {:induction false} MappedKept(cats: seq<WordPressCategory>, index: map<string, int>, create: (nat, string) -> Reply<int>)
    ensures |Mapped(cats, index, create)| == |Kept(cats, index, create)| <= |cats|
    ensures forall k :: 0 <= k < |Kept(cats, index, create)| ==>
              Kept(cats, index, create)[k] < |cats|
              && EntryOption(cats[Kept(cats, index, create)[k]], Kept(cats, index, create)[k], index, create) == Some(Mapped(cats, index, create)[k])
  {
    if cats != [] {
      var init := cats[..|cats| - 1];
      MappedKept(init, index, create);
      var ks, ms := Kept(cats, index, create), Mapped(cats, index, create);
      var ki, mi := Kept(init, index, create), Mapped(init, index, create);
      forall k | 0 <= k < |ks|
        ensures ks[k] < |cats| && EntryOption(cats[ks[k]], ks[k], index, create) == Some(ms[k])
      {
        if k < |ki| {
          assert ks[k] == ki[k] && ms[k] == mi[k];
          assert cats[ki[k]] == init[ki[k]];
        }
      }
    }
  }

  lemma {:induction false} KeptIncreasing(cats: seq<WordPressCategory>, index: map<string, int>, create: (nat, string) -> Reply<int>)
    ensures forall k :: 0 <= k < |Kept(cats, index, create)| ==> Kept(cats, index, create)[k] < |cats|
    ensures forall k, l :: 0 <= k < l < |Kept(cats, index, create)| ==> Kept(cats, index, create)[k] < Kept(cats, index, create)[l]
  {
    if cats != [] {
      KeptIncreasing(cats[..|cats| - 1], index, create);
    }
  }

  lemma {:induction false} KeptComplete(cats: seq<WordPressCategory>, index: map<string, int>, create: (nat, string) -> Reply<int>, i: nat)
    requires i < |cats| && EntryOption(cats[i], i, index, create).Some?
    ensures i in Kept(cats, index, create)
  {
    var init := cats[..|cats| - 1];
    if i < |init| {
      assert init[i] == cats[i];
      KeptComplete(init, index, create, i);
    }
  }

  /** The names for which a creation is requested: those whose key is not in the
      dictionary, in input order. The dictionary is never updated, so repeated keys are
      requested repeatedly. */
  function CreationRequests(cats: seq<WordPressCategory>, index: map<string, int>): seq<string>
  {
    if cats == [] then []
    else
      CreationRequests(cats[..|cats| - 1], index)
      + (if Normalize(cats[|cats| - 1].name) in index then [] else [cats[|cats| - 1].name])
  }

  lemma {:induction false} CreationRequestsMembers(cats: seq<WordPressCategory>, index: map<string, int>, name: string)
    ensures name in CreationRequests(cats, index) <==>
              exists i :: 0 <= i < |cats| && cats[i].name == name && Normalize(name) !in index
  {
    if cats != [] {
      var init := cats[..|cats| - 1];
      var last := cats[|cats| - 1];
      CreationRequestsMembers(init, index, name);
      assert name in CreationRequests(cats, index) <==>
               name in CreationRequests(init, index) || (last.name == name && Normalize(name) !in index);
      if exists i :: 0 <= i < |cats| && cats[i].name == name && Normalize(name) !in index {
        var i :| 0 <= i < |cats| && cats[i].name == name && Normalize(name) !in index;
        if i < |init| {
          assert init[i] == cats[i];
        } else {
          assert cats[i] == last;
        }
      }
      if name in CreationRequests(init, index) {
        var i :| 0 <= i < |init| && init[i].name == name && Normalize(name) !in index;
        assert cats[i] == init[i];
      }
    }
  }

  lemma CategoriaKeys()
    ensures Normalize("Categoria") == "categoria" && Normalize("categoria ") == "categoria"
  {
    assert Strip("Categoria") == "Categoria";
    assert Strip("categoria ") == "categoria";
    var l, m := Lower("Categoria"), Lower("categoria");
    assert l[0] == 'c';
    assert forall i :: 1 <= i < |l| ==> l[i] == "Categoria"[i];
    assert forall i :: 0 <= i < |m| ==> m[i] == "categoria"[i];
  }

  /** `Categoria` and `categoria ` share a key that is not in the dictionary: both are
      requested, each under its own spelling. */
  lemma RepeatedKeyExample(index: map<string, int>, a: int, b: int)
    requires "categoria" !in index
    ensures CreationRequests([WordPressCategory(a, "Categoria"), WordPressCategory(b, "categoria ")], index)
            == ["Categoria", "categoria "]
  {
    var cats := [WordPressCategory(a, "Categoria"), WordPressCategory(b, "categoria ")];
    CategoriaKeys();
    assert cats[..1] == [cats[0]];
    assert [cats[0]][..0] == [];
    assert CreationRequests([cats[0]], index) == ["Categoria"];
    assert CreationRequests(cats, index) == CreationRequests(cats[..1], index) + ["categoria "];
  }

  /** Two WordPress categories of one name send two creation requests, and each is
      answered on its own: here the first is created and the second rejected. */
  lemma RepeatedNameAnsweredApart(create: (nat, string) -> Reply<int>)
    requires create(0, "Esportes") == Reply(201, 77, None)
    requires create(1, "Esportes") == Reply(400, 0, None)
    ensures MapAll([WordPressCategory(5, "Esportes"), WordPressCategory(9, "Esportes")], map[], create)
            == Success([CategoryMapping(5, "Esportes", 77, "Esportes")])
  {
    var cats := [WordPressCategory(5, "Esportes"), WordPressCategory(9, "Esportes")];
    assert cats[..1] == [cats[0]];
    assert [cats[0]][..0] == [];
    assert EntryOption(cats[0], 0, map[], create) == Some(CategoryMapping(5, "Esportes", 77, "Esportes"));
    assert EntryOption(cats[1], 1, map[], create) == None;
    assert Mapped([cats[0]], map[], create) == [CategoryMapping(5, "Esportes", 77, "Esportes")];
    assert Mapped(cats, map[], create) == Mapped(cats[..1], map[], create);
    assert !Raises(cats, map[], create) by {
      forall i | 0 <= i < |cats| ensures !Entry(cats[i], i, map[], create).Failure? {
      }
    }
  }

  /** `map_and_create_categories`: the dictionary of the vocabulary's categories, then one
      pass that reuses a present key or requests a creation. */
  method MapAndCreateCategories(wordpress: seq<WordPressCategory>, liferay: PageSource<Named>,
                                create: (nat, string) -> Reply<int>)
    returns (r: Result<seq<CategoryMapping>>, requested: seq<string>)
    ensures UntilEmptyPage(liferay, 1).Failure? ==> r.Failure? && requested == []
    ensures UntilEmptyPage(liferay, 1).Success? ==>
              var index := NameIndex(UntilEmptyPage(liferay, 1).value);
              r == MapAll(wordpress, index, create)
              && (r.Success? ==> requested == CreationRequests(wordpress, index))
  {
    requested := [];
    var found := GetLiferayCategories(liferay);
    if found.Failure? {
      return Failure(found.reason), requested;
    }
    var index := found.value;
    var mapping: seq<CategoryMapping> := [];
    for i := 0 to |wordpress|
      invariant !Raises(wordpress[..i], index, create)
      invariant mapping == Mapped(wordpress[..i], index, create)
      invariant requested == CreationRequests(wordpress[..i], index)
    {
      var c := wordpress[i];
      ghost var done := wordpress[..i + 1];
      assert done[..i] == wordpress[..i];
      assert done[i] == c;
      var key := Normalize(c.name);
      if key in index {
        mapping := mapping + [CategoryMapping(c.id, c.name, index[key], c.name)];
      } else {
        requested := requested + [c.name];
        var created := CreationResult(create(i, c.name));
        if created.Failure? {
          assert Entry(wordpress[i], i, index, create).Failure?;
          return Failure(created.reason), requested;
        }
        if created.value.Some? && created.value.value != 0 {
          mapping := mapping + [CategoryMapping(c.id, c.name, created.value.value, c.name)];
        }
      }
      assert !Raises(done, index, create) by {
        forall j | 0 <= j < i + 1 ensures !Entry(done[j], j, index, create).Failure? {
          if j < i {
            assert done[j] == wordpress[..i][j];
          }
        }
      }
    }
    assert wordpress[..|wordpress|] == wordpress;
    r := Success(mapping);
  }

  /** The vocabulary selection: the identifier of the first vocabulary whose name is
      exactly `Categorias` (the comparison is case-sensitive). */
  function FindVocabulary(vs: seq<Named>): (r: Option<int>)
    ensures r.None? <==> forall i :: 0 <= i < |vs| ==> vs[i].name != VocabularyName
    ensures r.Some? ==> exists i :: 0 <= i < |vs| && vs[i].name == VocabularyName && vs[i].id == r.value
                                    && forall j :: 0 <= j < i ==> vs[j].name != VocabularyName
  {
    if vs == [] then None
    else if vs[0].name == VocabularyName then Some(vs[0].id)
    else
      var r := FindVocabulary(vs[1..]);
      assert r.Some? ==> exists i :: 0 <= i < |vs[1..]| && vs[1..][i].name == VocabularyName && vs[1..][i].id == r.value
                                    && forall j :: 0 <= j < i ==> vs[1..][j].name != VocabularyName;
      assert r.Some? ==> exists i :: 1 <= i < |vs| && vs[i].name == VocabularyName && vs[i].id == r.value
                                    && forall j :: 1 <= j < i ==> vs[j].name != VocabularyName;
      r
  }

  /** A vocabulary named `categorias` is not the one looked for. */
  lemma CaseSensitiveExample()
    ensures FindVocabulary([Named(7, "categorias")]) == None
  {
    assert "categorias"[0] != VocabularyName[0];
  }

  /** `create_taxonomy_vocabulary`'s result: the identifier on status 200 only. */
  function VocabularyCreation(reply: Reply<int>): Result<Option<int>>
  {
    match reply
    case ConnectionFailed => Failure("request raised")
    case Reply(status, id, _) => if status == 200 then Success(Some(id)) else Success(None)
  }

  /** `get_taxonomy_vocabulary`: a listing with status other than 200 gives `None`; otherwise
      the first vocabulary named `Categorias`, and when there is none the result of creating
      it (that request is made only then). */
  function GetTaxonomyVocabulary(listing: Reply<seq<Named>>, creation: Reply<int>): (r: Result<Option<int>>)
    ensures listing.Reply? && listing.status != 200 ==> r == Success(None)
    ensures IsOk(listing) && FindVocabulary(listing.body).Some? ==> r == Success(FindVocabulary(listing.body))
    ensures IsOk(listing) && FindVocabulary(listing.body).None? ==>
              (r.Success? && r.value.Some? <==> IsOk(creation))
    ensures r.Success? && r.value.Some? ==>
              IsOk(listing) && (FindVocabulary(listing.body) == r.value || (IsOk(creation) && creation.body == r.value.value))
  {
    match listing
    case ConnectionFailed => Failure("request raised")
    case Reply(status, vs, _) =>
      if status != 200 then Success(None)
      else
        match FindVocabulary(vs)
        case Some(id) => Success(Some(id))
        case None => VocabularyCreation(creation)
  }

  /** Python's truthiness of a vocabulary identifier: present and non-zero. */
  predicate Truthy(id: Option<int>)
  {
    id.Some? && id.value != 0
  }

  /** The script's top level. The WordPress categories are read, the vocabulary is got or
      created twice, and only when both give an identifier is the mapping built (against
      the second identifier) and saved. `saved` is the content of the mapping file, `None`
      when nothing is written; `Failure` stands for a request that raised.
      `liferayCategories` and `createIn` give each vocabulary's category pages and
      creation replies. */
  method RunCategoryMapper(wordpress: PageSource<WordPressCategory>,
                           firstListing: Reply<seq<Named>>, firstCreation: Reply<int>,
                           secondListing: Reply<seq<Named>>, secondCreation: Reply<int>,
                           liferayCategories: int -> PageSource<Named>,
                           createIn: (int, nat, string) -> Reply<int>)
    returns (saved: Result<Option<seq<CategoryMapping>>>)
    ensures saved.Success? && saved.value.Some? ==>
              && UntilEmptyPage(wordpress, 1).Success?
              && GetTaxonomyVocabulary(firstListing, firstCreation).Success?
              && Truthy(GetTaxonomyVocabulary(firstListing, firstCreation).value)
              && GetTaxonomyVocabulary(secondListing, secondCreation).Success?
              && Truthy(GetTaxonomyVocabulary(secondListing, secondCreation).value)
              && (var vocabulary := GetTaxonomyVocabulary(secondListing, secondCreation).value.value;
                  && UntilEmptyPage(liferayCategories(vocabulary), 1).Success?
                  && MapAll(UntilEmptyPage(wordpress, 1).value,
                            NameIndex(UntilEmptyPage(liferayCategories(vocabulary), 1).value),
                            (i: nat, name: string) => createIn(vocabulary, i, name))
                     == Success(saved.value.value))
    ensures (UntilEmptyPage(wordpress, 1).Success? && GetTaxonomyVocabulary(firstListing, firstCreation).Success?
             && !Truthy(GetTaxonomyVocabulary(firstListing, firstCreation).value)) ==> saved == Success(None)
    ensures (UntilEmptyPage(wordpress, 1).Success? && GetTaxonomyVocabulary(firstListing, firstCreation).Success?
             && Truthy(GetTaxonomyVocabulary(firstListing, firstCreation).value)
             && GetTaxonomyVocabulary(secondListing, secondCreation).Success?
             && !Truthy(GetTaxonomyVocabulary(secondListing, secondCreation).value)) ==> saved == Success(None)
    ensures (UntilEmptyPage(wordpress, 1).Success? && GetTaxonomyVocabulary(firstListing, firstCreation).Success?
             && Truthy(GetTaxonomyVocabulary(firstListing, firstCreation).value)
             && GetTaxonomyVocabulary(secondListing, secondCreation).Success?
             && Truthy(GetTaxonomyVocabulary(secondListing, secondCreation).value)
             && (var vocabulary := GetTaxonomyVocabulary(secondListing, secondCreation).value.value;
                 UntilEmptyPage(liferayCategories(vocabulary), 1).Success?
                 && MapAll(UntilEmptyPage(wordpress, 1).value,
                           NameIndex(UntilEmptyPage(liferayCategories(vocabulary), 1).value),
                           (i: nat, name: string) => createIn(vocabulary, i, name)).Success?)) ==>
              var vocabulary := GetTaxonomyVocabulary(secondListing, secondCreation).value.value;
              saved == Success(Some(MapAll(UntilEmptyPage(wordpress, 1).value,
                                           NameIndex(UntilEmptyPage(liferayCategories(vocabulary), 1).value),
                                           (i: nat, name: string) => createIn(vocabulary, i, name)).value))
    ensures (|| UntilEmptyPage(wordpress, 1).Failure?
             || GetTaxonomyVocabulary(firstListing, firstCreation).Failure?
             || (GetTaxonomyVocabulary(firstListing, firstCreation).Success?
                 && Truthy(GetTaxonomyVocabulary(firstListing, firstCreation).value)
                 && GetTaxonomyVocabulary(secondListing, secondCreation).Failure?)
             || (GetTaxonomyVocabulary(firstListing, firstCreation).Success?
                 && Truthy(GetTaxonomyVocabulary(firstListing, firstCreation).value)
                 && GetTaxonomyVocabulary(secondListing, secondCreation).Success?
                 && Truthy(GetTaxonomyVocabulary(secondListing, secondCreation).value)
                 && (var vocabulary := GetTaxonomyVocabulary(secondListing, secondCreation).value.value;
                     || UntilEmptyPage(liferayCategories(vocabulary), 1).Failure?
                     || (UntilEmptyPage(wordpress, 1).Success?
                         && MapAll(UntilEmptyPage(wordpress, 1).value,
                                   NameIndex(UntilEmptyPage(liferayCategories(vocabulary), 1).value),
                                   (i: nat, name: string) => createIn(vocabulary, i, name)).Failure?)))) ==> saved.Failure?
  {
    var categories := GetAllPages(wordpress);
    if categories.Failure? {
      return Failure(categories.reason);
    }
    var first := GetTaxonomyVocabulary(firstListing, firstCreation);
    if first.Failure? {
      return Failure(first.reason);
    }
    if !Truthy(first.value) {
      return Success(None);
    }
    var second := GetTaxonomyVocabulary(secondListing, secondCreation);
    if second.Failure? {
      return Failure(second.reason);
    }
    if !Truthy(second.value) {
      return Success(None);
    }
    var vocabulary := second.value.value;
    var mapping, _ := MapAndCreateCategories(categories.value, liferayCategories(vocabulary), (i: nat, name: string) => createIn(vocabulary, i, name));
    if mapping.Failure? {
      return Failure(mapping.reason);
    }
    saved := Success(Some(mapping.value));
  }
}
