# migrador, modelled in Dafny

`migrador` moves a WordPress news site to Liferay in three scripts:

- **The category mapper** (`get_categories_wordpress.py`):
  - reads every WordPress category and gets or creates the `Categorias` taxonomy vocabulary;
  - indexes the vocabulary's categories by trimmed, lower-cased name;
  - reuses or creates one Liferay category per WordPress category;
  - saves the resulting mapping file.
- **The image migrator** (`create_folders.py`), for every mapped category:
  - pages through the category's posts and skips posts already handled;
  - keeps the `<img>` URLs of the source site;
  - gets or creates a document folder named after the category, and a fresh subfolder named after the post;
  - uploads each image, or reuses a document of the same name.
- **The news migrator** (`create_news.py`):
  - fetches the posts of the mapped categories;
  - creates one structured content per post, with a slug, a formatted date, the mapped category identifiers and the text with image URLs rewritten, and logs each post's old and new URL;
  - in a second pass, rewrites the internal links of every created content with the full log.

Remote services are modelled in two ways:

- **Read-only listings** are finite sequences of page replies. A request past the end fails like a dropped connection.
- **Category creations** are answered by a function of the category's position in the WordPress list and its name, so two requests for one name can be answered differently.
- **Stores the scripts change** (the document library, the structured contents, the URL mapping file) are classes whose methods update their fields. An `online` flag stands for a server whose every request fails.

A raised Python exception is modelled as `Failure` of the `Result` type in `wrappers.dfy`.

Modules:

| module | file | contents |
|---|---|---|
| `Wrappers` | `wrappers.dfy` | `Option` and `Result` |
| `Text` | `text.dfy` | Python's `str.replace`, `strip`, `lower` and decimal rendering |
| `Paging` | `paging.dfy` | page sources and the concatenation of pages |
| `FolderNames` | `folder_names.dfy` | the folder-name sanitiser and the unique-name probe |
| `ImageUrls` | `image_urls.dfy` | URL filtering, resolution and `basename` |
| `Documents` | `documents.dfy` | the image migrator |
| `NewsText` | `news_text.dfy` | URL rewriting, the slug and the date |
| `NewsRun` | `news_run.dfy` | the news migrator |
| `Categories` | `categories.dfy` | the category mapper |

## Model

| member | source | states |
|---|---|---|
| Text.ReplaceAllAbsent | create_news.py:67 | replacing a pattern that does not occur leaves the text unchanged |
| Text.ReplaceAllSelf | create_news.py:67 | replacing a non-empty pattern by itself leaves the text unchanged |
| Text.RemoveChars | create_folders.py:69-71 | deleting a set of characters never lengthens the text, leaves none of them, and introduces no new character |
| Text.ReplaceCharRemoves | create_folders.py:70-71 | one `replace(char, "")` step of the loop deletes exactly one more character from the set |
| Text.RemoveCharsNone | create_folders.py:69-71 | a text with none of the characters is unchanged |
| Text.RemoveCharsAll | create_folders.py:69-71 | a text made only of those characters becomes empty |
| Text.StripStartShape | get_categories_wordpress.py:131 | `lstrip` removes exactly the leading whitespace: a suffix whose first character is not a space |
| Text.StripEndShape | get_categories_wordpress.py:131 | `rstrip` removes exactly the trailing whitespace: a prefix whose last character is not a space |
| Text.StripEmpty | create_folders.py:290 | `strip()` gives the empty text exactly when the text is all whitespace |
| Text.LowerChar | get_categories_wordpress.py:131 | `lower` maps ASCII capitals to small letters and leaves other ASCII characters alone |
| Text.LowerCharIdempotent | get_categories_wordpress.py:131 | a lower-cased character is unchanged by lower-casing it again, and a character is ASCII exactly when its lower case is |
| Text.LowerIdempotent | get_categories_wordpress.py:131 | lower-casing twice gives what lower-casing once gives, and a string is ASCII exactly when its lower case is |
| Text.LowerAppend | create_folders.py:81 | lower-casing distributes over concatenation |
| Text.NatToString | create_folders.py:273 | the decimal rendering of a counter is a non-empty string of digits |
| Text.ParseNatToString | create_folders.py:273 | reading the rendering back gives the number |
| Text.NatToStringInjective | create_folders.py:273 | distinct counters render differently |
| Paging.FlattenAppend | create_folders.py:249 | extending by the pages of two runs is extending by each in turn |
| FolderNames.ListedContains | create_folders.py:81 | the scan of the reserved list finds a name exactly when the list holds it |
| FolderNames.ReservedShort | create_folders.py:58-62 | every reserved device name has 3 or 4 characters |
| FolderNames.DropDotSequencesNoop | create_folders.py:78 | once `/` is gone, removing `../` and `/...` changes nothing |
| FolderNames.StemHasNoInvalidChars | create_folders.py:69-78 | the title after the character loop and the `..` trim holds none of `< > : " / \ \| ? *` |
| FolderNames.MarkReservedSafe | create_folders.py:81-82 | the `_safe` step appends at most `_safe` and introduces no forbidden character |
| FolderNames.Sanitize | create_folders.py:56-85 | reference definition of `sanitize_folder_title`: a blank title raises; otherwise the character deletion, the dot trim, the `_safe` mark and the 255-character cut, in that order; stated by `SanitizeSafe` and `SanitizeReserved` |
| FolderNames.SanitizeSafe | create_folders.py:56-85 | the sanitiser raises exactly on the empty title; any output has at most 255 characters and no forbidden character |
| FolderNames.SanitizeReserved | create_folders.py:74-85 | when the trimmed title lowers to a reserved name the output is that title plus `_safe`, otherwise it is the trimmed title cut to 255 characters |
| FolderNames.ConStemIsReserved | create_folders.py:58-62 | `CON` survives the character loop and lowers to a reserved name |
| FolderNames.SanitizeConExample | create_folders.py:81-82 | `CON` becomes `CON_safe` |
| FolderNames.SanitizeOnlyInvalid | create_folders.py:69-71 | a non-empty title made only of forbidden characters becomes the empty name, with no error |
| FolderNames.SanitizeFolderTitle | create_folders.py:56-85 | the sanitiser with its loop over the forbidden characters: raises exactly on the empty title; the name it returns is at most 255 long and has no forbidden character |
| FolderNames.RemoveInvalidChars | create_folders.py:69-71 | the loop deletes every forbidden character and nothing else |
| FolderNames.ProbeInjective | create_folders.py:273 | distinct counters give distinct candidate names |
| FolderNames.ProbedMembers | create_folders.py:271-274 | the first n candidates are exactly those with counter below n |
| FolderNames.ProbedSize | create_folders.py:271-274 | the first n candidates are n distinct names |
| FolderNames.FreeProbeExists | create_folders.py:272-274 | among the first \|existing\|+1 candidates one is free, so the probe loop ends |
| FolderNames.ProbedInside | create_folders.py:271-274 | each of the first n candidates is the candidate of some counter below n |
| FolderNames.FirstFreeUnique | create_folders.py:268-275 | the first free candidate is unique |
| FolderNames.FirstFreeExample | create_folders.py:268-275 | with `Foo` and `Foo_1` taken, the name chosen is `Foo_2` |
| FolderNames.FreeFromIs | create_folders.py:271-274 | probing from a counter whose earlier candidates are all taken ends at the first free candidate |
| FolderNames.FirstFreeNameIs | create_folders.py:268-275 | `FirstFreeName` is the first free candidate, and any first free candidate is `FirstFreeName` |
| FolderNames.GenerateUniqueName | create_folders.py:268-275 | the result is never taken; a free base is kept; otherwise the result is `base_N` for the least free N; the loop computes `FirstFreeName` |
| ImageUrls.ValidUrlsMembers | create_folders.py:219-228 | a URL is kept exactly when it is in the input and starts with the site host, `/wp-content` or `/wp-conteudo` |
| ImageUrls.ValidUrlsAppend | create_folders.py:221-227 | the filter works URL by URL and keeps the input order |
| ImageUrls.ValidUrlsKeepsValid | create_folders.py:219-228 | a list of accepted URLs passes unchanged |
| ImageUrls.ValidUrlsExample | create_folders.py:222-226 | a site URL and an upload path pass; a foreign URL does not |
| ImageUrls.FilterValidImageUrls | create_folders.py:219-228 | the appending loop gives the accepted URLs in input order, and only those |
| ImageUrls.ResolvedOnSourceHost | create_folders.py:199-200 | every accepted URL resolves to an address on the source host |
| ImageUrls.ResolveIdempotent | create_folders.py:199-200 | resolving a resolved URL changes nothing |
| ImageUrls.Basename | create_folders.py:428 | `basename` is the slash-free tail after the last `/` |
| ImageUrls.BasenameOfTempPath | create_folders.py:428-429 | the upload's file name, taken from the temporary path, is the URL's file name |
| Documents.UntilShortPage | create_folders.py:238-263 | reference definition of the short-page rule of `get_posts_by_category`: full pages of 100 are gathered until a shorter page or a failing request; stated by `UntilShortPageFull`, `ShortPageStops` and `ErrorPageStops` |
| Documents.UntilShortPageFull | create_folders.py:238-259 | full pages are concatenated in order and each costs one request |
| Documents.ShortPageStops | create_folders.py:255-257 | after full pages, a page shorter than 100 is the last one requested, and its posts are kept |
| Documents.ErrorPageStops | create_folders.py:261-263 | after full pages, a failing request ends the loop without raising and keeps what was gathered |
| Documents.ThreePagesExample | create_folders.py:238-263 | pages of 100, 100 and 37 posts give 237 posts in 3 requests |
| Documents.GetPostsByCategory | create_folders.py:231-266 | the paging loop returns the posts and the request count of the short-page rule |
| Documents.FindFolder | create_folders.py:107-112 | the folder lookup fails exactly when no folder has that parent and name, and otherwise returns such a folder |
| Documents.FindFolderAppend | create_folders.py:107-129 | a folder just created is found under its name; the lookup of any other name does not change |
| Documents.FindDocument | create_folders.py:152-157 | the document scan fails exactly when no document in the folder has that title |
| Documents.FindDocumentAppend | create_folders.py:152-157 | an uploaded document is found under its title; lookups of other titles do not change |
| Documents.DocumentUrl | create_folders.py:186 | an uploaded document has a non-empty content URL |
| Documents.DocumentUrlDistinct | create_folders.py:186 | distinct documents get distinct content URLs |
| Documents.SubfolderTitle | create_folders.py:290-291 | a blank post title becomes `SEM TITULO`, so the subfolder title is never empty |
| Documents.DocumentLibrary.constructor | create_folders.py:35-36 | a library starts with both counters at zero |
| Documents.DocumentLibrary.CreateOrGetFolder | create_folders.py:88-137 | an empty title or a failed request raises and changes nothing; an existing root folder with the sanitised name is returned and nothing is created; otherwise exactly one folder is created and `folders_created` grows by one |
| Documents.DocumentLibrary.FindOrCreateRoot | create_folders.py:106-129 | the lookup and creation of a root folder, with the same outcomes, after which the folder is found under its name |
| Documents.DocumentLibrary.CreateOrGetSubfolder | create_folders.py:289-373 | on failure the parent is returned; otherwise exactly one new subfolder is created, named by the first free variant of the sanitised title, whose name differs from every sibling's |
| Documents.DocumentLibrary.CreateUniqueSubfolder | create_folders.py:308-333 | the lookup under the unique name never matches: one subfolder is created under the first free name |
| Documents.DocumentLibrary.UploadImage | create_folders.py:164-192 | a document of that title with a non-empty URL is reused and nothing is uploaded; otherwise one document is uploaded; both paths count one image; a failed request raises and changes nothing |
| Documents.FolderTwice | create_folders.py:88-129 | getting a folder twice is idempotent: the same result, and at most one folder created |
| Documents.SubfolderTwice | create_folders.py:308-333 | getting a subfolder twice is not idempotent: two different subfolders with different names |
| Documents.UploadTwice | create_folders.py:168-174 | a second upload reuses the first one, except for a document whose URL is empty, which is uploaded again |
| Documents.FirstOccurrencesDistinct | create_folders.py:382-403 | the handled post identifiers are distinct and are exactly the identifiers met |
| Documents.FirstOccurrencesPrefix | create_folders.py:395-403 | reading more posts only extends the handled identifiers |
| Documents.SeenStep | create_folders.py:398-403 | a post is handled exactly when its identifier was not met before |
| Documents.ProcessedStep | create_folders.py:398-403 | the set of processed identifiers and the list of handled ones advance together |
| Documents.AllPostsPrefix | create_folders.py:384-393 | the posts read for the first categories are a prefix of all posts read |
| Documents.UploadableComplete | create_folders.py:425-434 | the file name of an accepted URL that has a name and downloads is among the uploadable names |
| Documents.UploadableSound | create_folders.py:425-434 | every uploadable name is the non-empty file name of an accepted URL that downloads |
| Documents.UploadedStep | create_folders.py:164-192 | one more upload into a folder, reused or new, extends the effect of the uploads before it: one more image counted, its title found in the folder, nothing outside the folder's documents changed |
| Documents.UploadImages | create_folders.py:424-440 | the image loop uploads exactly the uploadable images into the subfolder: the image counter grows by their number, each of their names has a document in the subfolder, new documents go only there, and folders are untouched |
| Documents.MigratedCounts | create_folders.py:419-437 | after a migration the category folder is found under its name, the image counter grows by the number of uploadable images, and one subfolder plus at most one category folder are added |
| Documents.MigratePostImages | create_folders.py:419-440 | a post with images aborts the run exactly when the category folder cannot be got (blank name or failed request), and then nothing changes; otherwise the category folder is the one `create_or_get_folder_in_liferay` gives, one subfolder is added under it with the first free variant of the sanitised post title, and every uploadable image is uploaded into it and counted |
| Documents.HasIdIn | create_folders.py:398-403 | the recursive identifier test agrees with membership in the identifiers met |
| Documents.TotalsStep | create_folders.py:395-437 | one more post adds its uploadable images and one subfolder to the totals only when its identifier is new and it has an accepted URL |
| Documents.TotalsNoImages | create_folders.py:413-415 | posts without accepted image URLs add nothing to either total |
| Documents.CategoryProgressStep | create_folders.py:395-437 | the effect of a category's posts so far extends by the effect of one more post |
| Documents.CategoryPost | create_folders.py:395-437 | one turn of the post loop keeps the processed set and handled list in step with the posts read, and extends the library's effect by that post's; it aborts only for a category that has a post with images |
| Documents.ProcessCategory | create_folders.py:395-440 | one category's posts are de-duplicated against those met earlier; posts without images change nothing; without an abort the image counter grows by the uploadable images of the posts met for the first time, and one subfolder is added for each such post with an accepted URL |
| Documents.HandlePost | create_folders.py:396-440 | a post met before is skipped and the library, counters included, is unchanged; a post without accepted image URLs changes nothing in the library; a new post with accepted URLs aborts exactly when the category folder cannot be got, and otherwise has its images migrated as `MigratePostImages` states; the totals grow by that post's share |
| Documents.ProcessPosts | create_folders.py:375-443 | each post identifier is handled at most once, in order of first occurrence across categories; a run with no image changes nothing; an aborted run has handled a prefix of them; a full run uploads and counts exactly the uploadable images of the posts at their first occurrence, and adds one subfolder per such post with an accepted URL |
| Documents.AbortedRun | create_folders.py:448-451 | the posts handled before an abort are distinct and a prefix of those a full run handles |
| Categories.UntilEmptyPage | get_categories_wordpress.py:26-46 | reference definition of the empty-page rule: pages are gathered until an empty page or a non-200 status, and a raised request fails; stated by `UntilEmptyPageNonEmpty`, `StopPageEnds` and `RaisingPageFails` |
| Categories.UntilEmptyPageNonEmpty | get_categories_wordpress.py:30-40 | non-empty 200 pages are concatenated in order, whatever their length |
| Categories.StopPageEnds | get_categories_wordpress.py:32-43 | an empty page or a non-200 status ends the loop with the items gathered |
| Categories.RaisingPageFails | get_categories_wordpress.py:31 | a request that raises ends the script |
| Categories.ShortPageContinuesExample | get_categories_wordpress.py:38-40 | pages of 100 and 37 items are followed by one more request; both pages are kept |
| Categories.GetAllPages | get_categories_wordpress.py:26-46 | the paging loop returns the empty-page rule's result |
| Categories.NameIndex | get_categories_wordpress.py:107 | reference definition of the dict comprehension from normalised names to identifiers; stated by `NameIndexKeys` and `NameIndexLastWins` |
| Categories.NameIndexKeys | get_categories_wordpress.py:107 | the dictionary's keys are exactly the trimmed, lower-cased names |
| Categories.NameIndexLastWins | get_categories_wordpress.py:107 | among names that normalise alike, the last one's identifier is kept |
| Categories.NameIndexCollisionExample | get_categories_wordpress.py:107 | `Notícias` and ` notícias ` share one key, which keeps the second identifier |
| Categories.NoticiasKeys | get_categories_wordpress.py:131 | trimming and lower-casing map `Notícias` and ` notícias ` to one key |
| Categories.GetLiferayCategories | get_categories_wordpress.py:85-107 | the vocabulary's categories, paged until an empty page, indexed by normalised name |
| Categories.Entry | get_categories_wordpress.py:130-152 | a present key reuses the dictionary's identifier; otherwise a creation is requested, answered for that category's position in the list, and the category gets an entry exactly when it answers 201 with a truthy identifier; every entry keeps the WordPress name as its Liferay name |
| Categories.Mapped | get_categories_wordpress.py:129-155 | reference definition of the entries of one pass, in input order, with each creation answered by its own request; stated by `MappedKept`, `KeptIncreasing` and `KeptComplete` |
| Categories.MapAll | get_categories_wordpress.py:124-155 | reference definition of `map_and_create_categories`' result: a failure when any creation raises, otherwise `Mapped`; stated by `MapAndCreateCategories` and `RepeatedNameAnsweredApart` |
| Categories.RepeatedNameAnsweredApart | get_categories_wordpress.py:110-146 | two WordPress categories of one name send two creation requests, answered separately: a first one created with id 77 and a second one rejected give one entry |
| Categories.MappedKept | get_categories_wordpress.py:129-155 | the mapping has at most one entry per WordPress category, each the entry of the category it comes from |
| Categories.KeptIncreasing | get_categories_wordpress.py:129-155 | the entries follow the WordPress input order |
| Categories.KeptComplete | get_categories_wordpress.py:145-152 | every category that got an identifier has its entry |
| Categories.CreationRequestsMembers | get_categories_wordpress.py:131-144 | a creation is requested exactly for categories whose normalised name is not in the dictionary |
| Categories.CategoriaKeys | get_categories_wordpress.py:131 | `Categoria` and `categoria ` normalise alike |
| Categories.RepeatedKeyExample | get_categories_wordpress.py:134-144 | the dictionary is not updated after a creation, so two categories that normalise alike both request one |
| Categories.MapAndCreateCategories | get_categories_wordpress.py:124-155 | the mapping is built from the dictionary in one pass; it requests exactly the creations stated above; a listing or creation that raises ends it |
| Categories.FindVocabulary | get_categories_wordpress.py:55-58 | the first vocabulary named exactly `Categorias` is chosen; absent when none is |
| Categories.CaseSensitiveExample | get_categories_wordpress.py:56 | a vocabulary named `categorias` is not selected |
| Categories.GetTaxonomyVocabulary | get_categories_wordpress.py:49-82 | a non-200 listing gives no identifier; a found vocabulary gives its identifier; otherwise the creation decides, and gives one only on status 200 |
| Categories.RunCategoryMapper | get_categories_wordpress.py:162-183 | the mapping is saved only when both vocabulary fetches give a truthy identifier, and it is the mapping against the second, each creation being answered on its own; otherwise nothing is written; when every step succeeds the saved mapping is the one `map_and_create_categories` builds; any failing request (WordPress listing, either vocabulary call, Liferay listing, a category creation) makes the run fail |
| NewsText.ApplyMapping | create_news.py:61-68 | reference definition of the `str.replace` loop over the URL log, in log order; stated by `ApplyMappingAppend`, `ApplyMappingAbsent`, `ApplyMappingSkipsAbsent` and `ApplyMappingIdentity` |
| NewsText.ApplyMappingAppend | create_news.py:193-196 | the rewrite is a left fold: the entries are applied one after the other, in list order |
| NewsText.ApplyMappingAbsent | create_news.py:64-67 | content holding none of the old URLs is unchanged |
| NewsText.ApplyMappingSkipsAbsent | create_news.py:64-67 | an entry whose old URL does not occur in the current content changes nothing |
| NewsText.ApplyMappingIdentity | create_news.py:64-67 | entries that map a URL to itself change nothing |
| NewsText.ReplaceUrls | create_news.py:61-68 | the replacement loop of `replace_image_urls` (and of the identical `replace_internal_links`) computes the in-order fold |
| NewsText.Slug | create_news.py:78-81 | reference definition of the two substitutions, `lower()` and `strip("-")`; stated by `SlugShape`, `SlugNoop` and `SlugOfTwoWords` |
| NewsText.FriendlyUrl | create_news.py:70-81 | reference definition of `generate_friendly_url`: the transliteration, then `Slug`; stated by `FriendlyUrlShape` and `FriendlyUrlIdempotent` |
| NewsText.KeepSlugChars | create_news.py:78 | only word characters, whitespace and `-` are kept; ASCII input stays ASCII |
| NewsText.CollapseSpacesChars | create_news.py:79 | each whitespace run becomes a single `-`; other characters are kept |
| NewsText.TrimDashStart | create_news.py:81 | stripping leading dashes leaves a suffix that does not start with `-` |
| NewsText.TrimDashEnd | create_news.py:81 | stripping trailing dashes leaves a prefix that does not end with `-` |
| NewsText.LoweredSlugChars | create_news.py:78-80 | after the two substitutions and lower-casing, an ASCII title holds only small letters, digits, `_` and `-` |
| NewsText.StripDashesChars | create_news.py:81 | `strip("-")` keeps only slug characters and leaves no dash at either end |
| NewsText.SlugShape | create_news.py:78-81 | a slug has only small letters, digits, `_` and `-`, no whitespace, and no dash at either end |
| NewsText.FriendlyUrlShape | create_news.py:70-81 | the same holds of every friendly URL, whatever the transliteration gives |
| NewsText.KeepSlugCharsNoop | create_news.py:78 | text already made of kept characters passes unchanged |
| NewsText.CollapseSpacesNoop | create_news.py:79 | text without whitespace passes unchanged |
| NewsText.StripDashesNoop | create_news.py:81 | text without a dash at either end passes unchanged |
| NewsText.FriendlyUrlIdempotent | create_news.py:70-81 | the friendly URL of a friendly URL is itself, when transliteration leaves it alone |
| NewsText.SlugNoop | create_news.py:78-81 | a string already in slug form is its own slug |
| NewsText.LowerSlugNoop | create_news.py:80 | slug characters are unchanged by lower-casing |
| NewsText.KeepSlugCharsDrops | create_news.py:78 | punctuation is removed entirely |
| NewsText.CollapseSpacesRun | create_news.py:79 | a run of whitespace before a word becomes one `-` |
| NewsText.CollapseWordsApart | create_news.py:79 | two words separated by whitespace are joined by one `-` |
| NewsText.KeepWordsDropPunct | create_news.py:78 | words and spaces followed by punctuation keep the words and spaces |
| NewsText.LowerJoin | create_news.py:80-81 | two words joined by `-` are lower-cased separately and keep their dash |
| NewsText.SlugOfTwoWords | create_news.py:77-81 | two words, whitespace and trailing punctuation give `word1-word2` in lower case; with an ASCII transliteration, `Notícia Importante!` gives `noticia-importante` |
| NewsText.FormatDate | create_news.py:199-206 | reference definition of `format_date_for_liferay`: the parsed timestamp rendered back with `.000Z`, and a failure where `strptime` raises; stated by `FormatDateCanonical`, `ParseRender`, `SeparatorCaseIgnored` and `LeapDay` |
| NewsText.ParseTimestamp | create_news.py:203 | a timestamp that parses denotes a valid calendar instant (month lengths and leap years checked); the `T` separator is matched in either case |
| NewsText.SeparatorCaseIgnored | create_news.py:203-204 | `strptime` matches the format ignoring case, so a lower-case `t` separator parses and formats like `T` |
| NewsText.Pad | create_news.py:204 | zero padding gives exactly `width` digits |
| NewsText.RenderTimestamp | create_news.py:204 | `strftime` of a valid instant has 19 characters |
| NewsText.PadParse | create_news.py:203-204 | reading a digit string and padding it back gives the same string |
| NewsText.ParsePad | create_news.py:203-204 | padding a number that fits and reading it back gives the number |
| NewsText.RenderFields | create_news.py:203-204 | rendering the fields read from a well-formed timestamp gives the timestamp, with its separator in upper case |
| NewsText.RenderFieldsUpper | create_news.py:203-204 | a well-formed timestamp with a `T` separator is rendered as itself |
| NewsText.FormatDateCanonical | create_news.py:199-206 | a well-formed zero-padded timestamp becomes the same string, separator in upper case, followed by `.000Z`; one with a `T` separator becomes exactly itself followed by `.000Z` |
| NewsText.FieldsOfRender | create_news.py:204 | reading the fields of a rendered instant gives the instant |
| NewsText.ParseRender | create_news.py:203-204 | parsing a rendered instant gives the instant back |
| NewsText.LeapDay | create_news.py:203 | the 29th of February is accepted exactly in leap years, and is then passed on, separator in upper case, with `.000Z` |
| NewsRun.MatchingIdsMembers | create_news.py:219-223 | the identifiers for one WordPress category are exactly the Liferay identifiers paired with it |
| NewsRun.LiferayCategoryIdsAppend | create_news.py:218-224 | the list is built category by category in post-category order |
| NewsRun.UnmatchedCategory | create_news.py:219-224 | a category without a mapping entry contributes nothing |
| NewsRun.LiferayCategoryIdsMembers | create_news.py:217-224 | an identifier is in the list exactly when some category of the post is paired with it; every one comes from the mapping |
| NewsRun.CategoryIds | create_news.py:217-224 | the `extend` loop builds that list |
| NewsRun.BuildPayload | create_news.py:215-256 | reference definition of the payload `process_post` builds, or its raise on a missing title or a date that does not parse; stated by `PayloadShape` and `AssemblePayload` |
| NewsRun.PayloadShape | create_news.py:226-256 | a payload is built exactly when the post has a title and its date, if any, parses; `contentFields` is the rewritten text plus `Chamada` exactly when the excerpt is non-empty; `dateCreated` is null exactly when `date_gmt` is absent |
| NewsRun.UntilTotalPages | create_news.py:107-126 | reference definition of one category's paging by `X-WP-TotalPages`; stated by `UntilTotalPagesRun`, `TotalPagesStop`, `UntilTotalPagesSpan` and `NonOkPageRaises` |
| NewsRun.UntilTotalPagesRun | create_news.py:108-123 | pages before the last one announced are concatenated in order |
| NewsRun.TotalPagesStop | create_news.py:119-122 | paging stops at the first page with `page >= X-WP-TotalPages` (1 when the header is absent), keeping that page |
| NewsRun.UntilTotalPagesSpan | create_news.py:108-123 | the posts of a category are the pages up to and including the last one |
| NewsRun.NonOkPageRaises | create_news.py:124-126 | a non-200 page raises |
| NewsRun.AllCategoryPosts | create_news.py:106-126 | reference definition of the category loop: each category's pages in turn, and the first failure ends it; stated by `AllCategoryPostsAppend`, `FailureExtends` and `FailurePersists` |
| NewsRun.AllCategoryPostsAppend | create_news.py:106-126 | categories are fetched one after the other and their posts concatenated in order |
| NewsRun.RepeatedCategoryKeepsDuplicates | create_news.py:106-115 | a category listed twice contributes its posts twice |
| NewsRun.FetchedPosts | create_news.py:83-129 | reference definition of `fetch_posts`' result: one unpaginated request for an empty category list, otherwise `AllCategoryPosts`; stated by `FetchPosts` |
| NewsRun.FetchPosts | create_news.py:83-129 | an empty category list makes one unpaginated request; otherwise each category is paged as above, and any failure raises |
| NewsRun.FailureExtends | create_news.py:124-126 | a failing category ends the whole fetch with its failure |
| NewsRun.FailurePersists | create_news.py:106-126 | once a prefix of the categories fails, later categories change nothing |
| NewsRun.CategoryPages | create_news.py:107-126 | the paging loop of one category gives the total-pages rule's result |
| NewsRun.UrlMappingLog.constructor | create_news.py:22 | a log starts as the mapping file is, possibly absent |
| NewsRun.UrlMappingLog.Load | create_news.py:26-32 | an absent file loads as `[]`, a present one as its entries |
| NewsRun.UrlMappingLog.Save | create_news.py:34-46 | saving is append-only: the old entries (none if the file is absent) followed by the new one |
| NewsRun.FirstWithPath | create_news.py:169-177 | the search by friendly URL finds the first content with that path, and none exactly when no content has it |
| NewsRun.ContentServer.constructor | create_news.py:24 | a site starts with no contents and no patches |
| NewsRun.ContentServer.Create | create_news.py:261-271 | a creation answered with 200 or 201 adds one content and returns its path; otherwise nothing is added |
| NewsRun.ContentServer.FindBySlug | create_news.py:162-183 | the lookup returns the first content with the path, or none if the request fails |
| NewsRun.ContentServer.Update | create_news.py:131-160 | a PATCH that reaches the site records one update; a failed one is only logged |
| NewsRun.Attempt | create_news.py:208-273 | reference definition of one post's creation attempt: the payload and the post's old link, or the raise; stated by `ProcessPost`, `StoredAt` and `LoggedAt` |
| NewsRun.AnyFailureExists | create_news.py:293-294 | a pass raises exactly when some post raises |
| NewsRun.PrefixOkAll | create_news.py:293-294 | a pass in which no post raises handles every post |
| NewsRun.FailureStops | create_news.py:293-294 | once a post raises, later posts are not handled |
| NewsRun.FirstFailure | create_news.py:293-294 | a pass handles exactly the posts before the first one that raises |
| NewsRun.StoredAt | create_news.py:261-266 | the k-th content created gets the k-th identifier and the k-th payload |
| NewsRun.LoggedAt | create_news.py:267-271 | the k-th logged entry pairs the k-th post's link with its new path |
| NewsRun.CreatedPostsAll | create_news.py:293-294 | when every payload can be built, every post is created, in order |
| NewsRun.AssemblePayload | create_news.py:217-256 | the payload-building statements of `process_post` build that payload |
| NewsRun.FormatDateCreated | create_news.py:231-233 | `dateCreated` is null without `date_gmt` and the formatted date otherwise |
| NewsRun.ContentFields | create_news.py:243-256 | `contentFields` is `TextoMateria`, then `Chamada` for a non-empty excerpt |
| NewsRun.ProcessPost | create_news.py:208-275 | a post raises exactly when its payload cannot be built; otherwise, when the site accepts it, one content is created and one URL entry logged, and nothing happens when it does not |
| NewsRun.CreateAll | create_news.py:293-294 | the first loop creates and logs the posts before the first one that raises, in order, with the URL mapping loaded before the loop |
| NewsRun.CreateNext | create_news.py:294 | one step of the first loop extends the created contents and the log by one post |
| NewsRun.PatchStep | create_news.py:300-312 | reference definition of one step of the second loop: the PATCH to send, none, or the raise; stated by `PatchStepShape`, `NoLoggedUrlNoPatch`, `OfflineNoPatch` and `PatchPost` |
| NewsRun.PatchStepShape | create_news.py:300-312 | a PATCH is sent only for a post whose slug finds a content with a truthy identifier, and only when the rewritten HTML differs; it carries that HTML; the step raises exactly on a missing title, or a found content and missing content |
| NewsRun.NoLoggedUrlNoPatch | create_news.py:308-312 | content holding none of the logged URLs is not updated |
| NewsRun.OfflineNoPatch | create_news.py:304-306 | when the search fails, no update is sent |
| NewsRun.PatchesSentRewrite | create_news.py:300-312 | every update sent is the rewrite of some post's content, addressed to a content with its slug |
| NewsRun.NoLoggedUrlsNoPatches | create_news.py:298-312 | when no post mentions a logged URL, the second loop sends nothing |
| NewsRun.PatchPost | create_news.py:301-312 | one step of the second loop sends that PATCH, or nothing |
| NewsRun.PatchAll | create_news.py:300-312 | the second loop sends, in post order, the updates of the posts before the first one that raises |
| NewsRun.MigrateNews | create_news.py:277-317 | a failed fetch changes nothing; otherwise the first pass uses the log as loaded before it; a post that raises ends `main` before the second pass; the second pass uses the reloaded log and patches only changed content |
| NewsRun.MigratePosts | create_news.py:291-312 | the two passes over the fetched posts, with those outcomes |
| NewsRun.CreatePass | create_news.py:291-294 | the first pass over all posts |
| NewsRun.PatchPass | create_news.py:298-312 | the second pass over all posts, with the reloaded log |

## Left out

- HTTP requests, basic authentication, the REST endpoints and the multipart upload are not modelled as such. The remote listings are finite sequences of replies and the stores are the classes above. A reply's status and body are parameters, and a raised request is `ConnectionFailed` or `online == false`.
- File I/O is reduced to values:
  - the category and URL mapping files are `Option` values (`None` for a missing file);
  - JSON encoding and decoding, `os.remove` and the temporary folder are not modelled;
  - an image's download is the oracle `downloads`.
- Configuration from `.env` is not modelled. The structure identifier and the site host are parameters or constants.
- Logging, `print` and `time.sleep` are not modelled; they have no effect on the results.
- The `<img>` regular expression of `extract_image_urls` (create_folders.py:213-216) is the parameter `extract`. The regex engine is not modelled.
- `unidecode` is the parameter `translit`, which returns ASCII text; it is a foreign library.
- `Text.Lower`: only ASCII and the Latin-1 letters are lower-cased, as in `str.lower`. Other Unicode case mappings are not modelled.
- `Paging.Request`: a request for a page past the end of a modelled listing is answered as `ConnectionFailed`. This is a convention of the model: a real server would answer such a page with a reply of its own.
- `Documents.DocumentUrl`: a new document's `contentUrl` is modelled as a non-empty path unique to each document (`/documents/<id>`). The URL the server actually answers with (create_folders.py:186) is not modelled.
- `Documents.ProcessCategory`: over a category, and in `Documents.ProcessPosts` over a run, only the counters and the number of folders are lifted from the per-post effect. Which subfolder holds which images is stated for one post, by `Documents.HandlePost`.
- `Documents.UploadImages`: an image's upload failing as a request (an exception caught by the image loop) is not modelled. The library is online for the whole loop, so every uploadable image is uploaded.
- `Documents.MigratePostImages`: the library has one `online` flag, so once the category folder has been got, the subfolder request cannot fail. The path where `create_or_get_subfolder` gives back the parent folder (create_folders.py:367,373) and the images are then uploaded straight into the category folder (create_folders.py:423-435) is not modelled. `Documents.ImagesMigrated` always describes one new subfolder.
- `NewsText.ParseTimestamp`: only fields zero-padded in ASCII digits parse, with a `T` or `t` separator. `strptime` also accepts unpadded fields (`2024-1-5T…`), space-padded fields (`%d` takes ` 5`) and any Unicode decimal digit; the model treats those inputs as raising, so `NewsText.FormatDate` fails on them.
- `NewsText.FormatDateCanonical`: the year is always rendered with four digits. With glibc, `strftime` writes years below 1000 without padding (`999`, not `0999`), so for those years the source's output differs from the model's.
- `NewsRun.ContentServer.Create`: the site answers with the payload's own friendly URL. The path the real site echoes back, and the fallback text for a missing `friendlyUrlPath`, are not modelled.
- `NewsRun.ContentServer.Create`: a site answers every creation of a run with the same status (`createStatus`). A run in which some posts are accepted and others are rejected is not modelled; the source decides for each POST (create_news.py:262-273), logs a rejected post and goes on. So `NewsRun.CreateAll`, `NewsRun.CreatePass`, `NewsRun.MigratePosts` and `NewsRun.MigrateNews` are stated only for a site that accepts every creation and for one that rejects every creation.
- `NewsRun.ContentServer.Update`: a PATCH is recorded as a `Patch`. Its effect on the stored content is not modelled, and neither is a non-200 answer; both are only logged by the source.
- `NewsRun.ContentServer.FindBySlug`: the content search's status handling is reduced to the `online` flag. A non-200 answer, a raised request and an empty result all give `None`.
- `NewsRun.FetchPosts`: a malformed `X-WP-TotalPages` header, which would make `int()` raise, is not modelled. The header is an optional integer.
- The JSON structure of each reply (missing `items` or `id` keys) is not modelled, except where the code indexes post fields.
- `Documents.DocumentLibrary.CreateOrGetSubfolder`: the retry branch (create_folders.py:335-367) is modelled only by its final outcome. It re-lists the siblings and re-posts; against the in-memory library the first attempt already succeeds.
- `generate_unique_folder_name` (create_folders.py:278-287) is not modelled; no code calls it.
- main.py is not modelled: it only calls `process_posts` and `main` in turn inside `try`.
- The ghost `outcome` functions of the loops in `NewsRun` are a proof device. Each is tied to its specification function by `DescribesAttempt` and `DescribesPatch`.
