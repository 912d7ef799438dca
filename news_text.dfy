/** The text transformations of the news migrator: rewriting old URLs in post content by
    the URL mapping log, the friendly URL (slug) made from a post title, and the creation
    date reformatted for the destination site. */
module NewsText {
  import opened Wrappers
  import opened Text

  /** One entry of the URL mapping log: an old page or image URL and its replacement. */
  datatype UrlMapping = UrlMapping(originalUrl: string, newUrl: string)

  /** The content after each entry's replacement is applied in list order, each to the
      result of the ones before it. */
  function ApplyMapping(content: string, mapping: seq<UrlMapping>): string
  {
    if mapping == [] then content
    else ReplaceAll(ApplyMapping(content, mapping[..|mapping| - 1]),
                    mapping[|mapping| - 1].originalUrl, mapping[|mapping| - 1].newUrl)
  }

  /** Applying two lists one after the other is applying their concatenation. */
  lemma {:induction false} ApplyMappingAppend(content: string, a: seq<UrlMapping>, b: seq<UrlMapping>)
    ensures ApplyMapping(content, a + b) == ApplyMapping(ApplyMapping(content, a), b)
    decreases |b|
  {
    if b == [] {
      assert a + b == a;
    } else {
      assert (a + b)[..|a + b| - 1] == a + b[..|b| - 1];
      ApplyMappingAppend(content, a, b[..|b| - 1]);
    }
  }

  /** Content in which no entry's original URL occurs is left unchanged. An empty original
      URL occurs everywhere, so this does not cover it. */
  lemma {:induction false} ApplyMappingAbsent(content: string, mapping: seq<UrlMapping>)
    requires forall k :: 0 <= k < |mapping| ==> !Occurs(content, mapping[k].originalUrl)
    ensures ApplyMapping(content, mapping) == content
  {
    if mapping != [] {
      var init := mapping[..|mapping| - 1];
      ApplyMappingAbsent(content, init);
      ReplaceAllAbsent(content, mapping[|mapping| - 1].originalUrl, mapping[|mapping| - 1].newUrl);
    }
  }

  /** An entry whose original URL does not occur in the content reached so far changes
      nothing. */
  lemma ApplyMappingSkipsAbsent(content: string, mapping: seq<UrlMapping>, m: UrlMapping)
    requires !Occurs(ApplyMapping(content, mapping), m.originalUrl)
    ensures ApplyMapping(content, mapping + [m]) == ApplyMapping(content, mapping)
  {
    assert (mapping + [m])[..|mapping|] == mapping;
    ReplaceAllAbsent(ApplyMapping(content, mapping), m.originalUrl, m.newUrl);
  }

  /** Entries that map a non-empty URL to itself change nothing. */
  lemma {:induction false} ApplyMappingIdentity(content: string, mapping: seq<UrlMapping>)
    requires forall k :: 0 <= k < |mapping| ==> mapping[k].newUrl == mapping[k].originalUrl != []
    ensures ApplyMapping(content, mapping) == content
  {
    if mapping != [] {
      ApplyMappingIdentity(content, mapping[..|mapping| - 1]);
      ReplaceAllSelf(content, mapping[|mapping| - 1].originalUrl);
    }
  }

  /** `replace_image_urls` and `replace_internal_links`, which have the same body: the
      content is reassigned once per entry. */
  method ReplaceUrls(content: string, mapping: seq<UrlMapping>) returns (r: string)
    ensures r == ApplyMapping(content, mapping)
  {
    r := content;
    for k := 0 to |mapping|
      invariant r == ApplyMapping(content, mapping[..k])
    {
      assert mapping[..k + 1][..k] == mapping[..k];
      r := ReplaceAll(r, mapping[k].originalUrl, mapping[k].newUrl);
    }
    assert mapping[..|mapping|] == mapping;
  }

  /** A word character of a regular expression on ASCII text. */
  predicate IsWordChar(c: char)
  {
    'A' <= c <= 'Z' || 'a' <= c <= 'z' || '0' <= c <= '9' || c == '_'
  }

  /** The characters a friendly URL is made of. */
  predicate IsSlugChar(c: char)
  {
    'a' <= c <= 'z' || '0' <= c <= '9' || c == '_' || c == '-'
  }

  /** The first substitution: every character that is not a word character, whitespace or
      `-` is removed. */
  function KeepSlugChars(s: string): (r: string)
    ensures forall i :: 0 <= i < |r| ==> IsWordChar(r[i]) || IsSpace(r[i]) || r[i] == '-'
    ensures forall i :: 0 <= i < |r| ==> r[i] < '\U{80}' || !IsAscii(s)
  {
    if s == [] then []
    else (if IsWordChar(s[0]) || IsSpace(s[0]) || s[0] == '-' then [s[0]] else []) + KeepSlugChars(s[1..])
  }

  /** The second substitution: every maximal run of whitespace becomes one `-`. */
  function CollapseSpaces(s: string): string
    decreases |s|
  {
    if s == [] then []
    else if IsSpace(s[0]) then
      StripStartShape(s[1..]);
      "-" + CollapseSpaces(StripStart(s[1..]))
    else [s[0]] + CollapseSpaces(s[1..])
  }

  /** Collapsing brings in no character but `-`, and leaves no whitespace. */
  lemma {:induction false} CollapseSpacesChars(s: string)
    ensures forall i :: 0 <= i < |CollapseSpaces(s)| ==>
              CollapseSpaces(s)[i] == '-' || (CollapseSpaces(s)[i] in s && !IsSpace(CollapseSpaces(s)[i]))
    decreases |s|
  {
    if s == [] {
    } else if IsSpace(s[0]) {
      StripStartShape(s[1..]);
      var rest := StripStart(s[1..]);
      CollapseSpacesChars(rest);
      forall c | c in rest ensures c in s {
        var j :| 0 <= j < |rest| && rest[j] == c;
        assert s[1..][|s[1..]| - |rest| + j] == c;
      }
    } else {
      CollapseSpacesChars(s[1..]);
    }
  }

  function TrimDashStart(s: string): (r: string)
    ensures |r| <= |s| && r == s[|s| - |r|..]
    ensures r != [] ==> r[0] != '-'
  {
    if s != [] && s[0] == '-' then TrimDashStart(s[1..]) else s
  }

  function TrimDashEnd(s: string): (r: string)
    ensures |r| <= |s| && r == s[..|r|]
    ensures r != [] ==> r[|r| - 1] != '-'
  {
    if s != [] && s[|s| - 1] == '-' then TrimDashEnd(s[..|s| - 1]) else s
  }

  /** `strip("-")`. */
  function StripDashes(s: string): string
  {
    TrimDashEnd(TrimDashStart(s))
  }

  /** The slug of an already transliterated title. */
  function Slug(t: string): string
  {
    StripDashes(Lower(CollapseSpaces(KeepSlugChars(t))))
  }

  /** `generate_friendly_url`: `translit` stands for the transliteration to ASCII. */
  function FriendlyUrl(title: string, translit: string -> Ascii): string
  {
    Slug(translit(title))
  }

  /** The characters of a slug before the ends are trimmed. */
  lemma LoweredSlugChars(t: Ascii)
    ensures forall i :: 0 <= i < |Lower(CollapseSpaces(KeepSlugChars(t)))| ==>
              IsSlugChar(Lower(CollapseSpaces(KeepSlugChars(t)))[i])
  {
    var k := KeepSlugChars(t);
    var c := CollapseSpaces(k);
    CollapseSpacesChars(k);
    forall i | 0 <= i < |c| ensures IsWordChar(c[i]) || c[i] == '-' {
      if c[i] != '-' {
        var j :| 0 <= j < |k| && k[j] == c[i];
      }
    }
  }

  lemma SlugCharNotSpace(c: char)
    requires IsSlugChar(c)
    ensures !IsSpace(c)
  {
  }

  /** Trimming the start keeps a suffix, so only characters that were there. */
  lemma TrimDashStartChars(s: string)
    requires forall i :: 0 <= i < |s| ==> IsSlugChar(s[i])
    ensures forall i :: 0 <= i < |TrimDashStart(s)| ==> IsSlugChar(TrimDashStart(s)[i])
  {
    var a := TrimDashStart(s);
    forall i | 0 <= i < |a| ensures IsSlugChar(a[i]) {
      assert a[i] == s[|s| - |a| + i];
    }
  }

  /** Trimming the end keeps a prefix, so only characters that were there. */
  lemma TrimDashEndChars(s: string)
    requires forall i :: 0 <= i < |s| ==> IsSlugChar(s[i])
    ensures forall i :: 0 <= i < |TrimDashEnd(s)| ==> IsSlugChar(TrimDashEnd(s)[i])
  {
    var b := TrimDashEnd(s);
    forall i | 0 <= i < |b| ensures IsSlugChar(b[i]) {
      assert b[i] == s[i];
    }
  }

  /** Trimming the ends keeps only characters that were there, and leaves no `-` at
      either end. */
  lemma StripDashesChars(s: string)
    requires forall i :: 0 <= i < |s| ==> IsSlugChar(s[i])
    ensures forall i :: 0 <= i < |StripDashes(s)| ==>
              IsSlugChar(StripDashes(s)[i]) && !IsSpace(StripDashes(s)[i])
    ensures StripDashes(s) != [] ==> StripDashes(s)[0] != '-' && StripDashes(s)[|StripDashes(s)| - 1] != '-'
  {
    var a := TrimDashStart(s);
    TrimDashStartChars(s);
    var b := TrimDashEnd(a);
    TrimDashEndChars(a);
    forall i | 0 <= i < |b| ensures !IsSpace(b[i]) {
      SlugCharNotSpace(b[i]);
    }
    if b != [] {
      assert b[0] == a[0];
    }
  }

  /** The slug of ASCII text consists of lower-case ASCII letters, digits, `_` and `-` only
      (so it has no whitespace), and it neither starts nor ends with `-`. */
  lemma SlugShape(t: Ascii)
    ensures forall i :: 0 <= i < |Slug(t)| ==> IsSlugChar(Slug(t)[i]) && !IsSpace(Slug(t)[i])
    ensures Slug(t) != [] ==> Slug(t)[0] != '-' && Slug(t)[|Slug(t)| - 1] != '-'
  {
    var s := Lower(CollapseSpaces(KeepSlugChars(t)));
    LoweredSlugChars(t);
    StripDashesChars(s);
    assert Slug(t) == StripDashes(s);
  }

  /** A friendly URL has the shape of a slug, whatever the title. */
  lemma FriendlyUrlShape(title: string, translit: string -> Ascii)
    ensures forall i :: 0 <= i < |FriendlyUrl(title, translit)| ==>
              IsSlugChar(FriendlyUrl(title, translit)[i]) && !IsSpace(FriendlyUrl(title, translit)[i])
    ensures FriendlyUrl(title, translit) != [] ==>
              FriendlyUrl(title, translit)[0] != '-'
              && FriendlyUrl(title, translit)[|FriendlyUrl(title, translit)| - 1] != '-'
  {
    SlugShape(translit(title));
  }

  lemma {:induction false} KeepSlugCharsNoop(s: string)
    requires forall i :: 0 <= i < |s| ==> IsWordChar(s[i]) || IsSpace(s[i]) || s[i] == '-'
    ensures KeepSlugChars(s) == s
  {
    if s != [] {
      KeepSlugCharsNoop(s[1..]);
      assert s == [s[0]] + s[1..];
    }
  }

  lemma {:induction false} CollapseSpacesNoop(s: string)
    requires forall i :: 0 <= i < |s| ==> !IsSpace(s[i])
    ensures CollapseSpaces(s) == s
  {
    if s != [] {
      CollapseSpacesNoop(s[1..]);
      assert s == [s[0]] + s[1..];
    }
  }

  lemma {:induction false} KeepSlugCharsAppend(a: string, b: string)
    ensures KeepSlugChars(a + b) == KeepSlugChars(a) + KeepSlugChars(b)
  {
    if a != [] {
      assert (a + b)[1..] == a[1..] + b;
      KeepSlugCharsAppend(a[1..], b);
    } else {
      assert a + b == b;
    }
  }

  /** Text without whitespace passes through the collapsing step unchanged in front of
      whatever follows it. */
  lemma {:induction false} CollapseSpacesWord(w: string, rest: string)
    requires forall i :: 0 <= i < |w| ==> !IsSpace(w[i])
    ensures CollapseSpaces(w + rest) == w + CollapseSpaces(rest)
  {
    if w != [] {
      assert (w + rest)[1..] == w[1..] + rest;
      CollapseSpacesWord(w[1..], rest);
    } else {
      assert w + rest == rest;
    }
  }

  lemma StripDashesNoop(s: string)
    requires s != [] ==> s[0] != '-' && s[|s| - 1] != '-'
    ensures StripDashes(s) == s
  {
  }

  /** A friendly URL is its own friendly URL, given a transliteration that leaves ASCII
      text alone (as `unidecode` does). */
  lemma FriendlyUrlIdempotent(title: string, translit: string -> Ascii)
    requires translit(FriendlyUrl(title, translit)) == FriendlyUrl(title, translit)
    ensures FriendlyUrl(FriendlyUrl(title, translit), translit) == FriendlyUrl(title, translit)
  {
    var r := FriendlyUrl(title, translit);
    FriendlyUrlShape(title, translit);
    SlugNoop(r);
  }

  /** A string of slug characters without spaces and without a dash at either end is its
      own slug. */
  lemma SlugNoop(r: string)
    requires forall i :: 0 <= i < |r| ==> IsSlugChar(r[i]) && !IsSpace(r[i])
    requires r != [] ==> r[0] != '-' && r[|r| - 1] != '-'
    ensures Slug(r) == r
  {
    forall i | 0 <= i < |r| ensures IsWordChar(r[i]) || IsSpace(r[i]) || r[i] == '-' {
    }
    KeepSlugCharsNoop(r);
    CollapseSpacesNoop(r);
    LowerSlugNoop(r);
    StripDashesNoop(r);
  }

  /** Lower-casing leaves slug characters alone. */
  lemma LowerSlugNoop(r: string)
    requires forall i :: 0 <= i < |r| ==> IsSlugChar(r[i])
    ensures Lower(r) == r
  {
    forall i | 0 <= i < |r| ensures Lower(r)[i] == r[i] {
    }
  }

  lemma {:induction false} KeepSlugCharsDrops(s: string)
    requires forall i :: 0 <= i < |s| ==> !(IsWordChar(s[i]) || IsSpace(s[i]) || s[i] == '-')
    ensures KeepSlugChars(s) == []
  {
    if s != [] {
      KeepSlugCharsDrops(s[1..]);
    }
  }

  lemma {:induction false} StripStartSpaces(sp: string, w: string)
    requires forall i :: 0 <= i < |sp| ==> IsSpace(sp[i])
    requires w == [] || !IsSpace(w[0])
    ensures StripStart(sp + w) == w
  {
    if sp == [] {
      assert sp + w == w;
    } else {
      assert (sp + w)[1..] == sp[1..] + w;
      StripStartSpaces(sp[1..], w);
    }
  }

  /** A run of whitespace in front of a word collapses to one `-`. */
  lemma CollapseSpacesRun(sp: string, b: string)
    requires sp != [] && b != []
    requires forall i :: 0 <= i < |b| ==> !IsSpace(b[i])
    requires forall i :: 0 <= i < |sp| ==> IsSpace(sp[i])
    ensures CollapseSpaces(sp + b) == "-" + b
  {
    var t := sp + b;
    assert t[0] == sp[0];
    assert t[1..] == sp[1..] + b;
    StripStartSpaces(sp[1..], b);
    CollapseSpacesNoop(b);
  }

  lemma CollapseWordsApart(a: string, sp: string, b: string)
    requires b != [] && sp != []
    requires forall i :: 0 <= i < |a| ==> !IsSpace(a[i])
    requires forall i :: 0 <= i < |b| ==> !IsSpace(b[i])
    requires forall i :: 0 <= i < |sp| ==> IsSpace(sp[i])
    ensures CollapseSpaces(a + sp + b) == a + "-" + b
  {
    assert a + sp + b == a + (sp + b);
    CollapseSpacesWord(a, sp + b);
    CollapseSpacesRun(sp, b);
    assert a + ("-" + b) == a + "-" + b;
  }

  lemma KeepWordsDropPunct(text: string, punct: string)
    requires forall i :: 0 <= i < |text| ==> IsWordChar(text[i]) || IsSpace(text[i])
    requires forall i :: 0 <= i < |punct| ==> !(IsWordChar(punct[i]) || IsSpace(punct[i]) || punct[i] == '-')
    ensures KeepSlugChars(text + punct) == text
  {
    KeepSlugCharsAppend(text, punct);
    KeepSlugCharsDrops(punct);
    KeepSlugCharsNoop(text);
  }

  lemma LowerJoin(a: string, b: string)
    requires a != [] && b != []
    requires forall i :: 0 <= i < |a| ==> IsWordChar(a[i])
    requires forall i :: 0 <= i < |b| ==> IsWordChar(b[i])
    ensures StripDashes(Lower(a + "-" + b)) == Lower(a) + "-" + Lower(b)
  {
    var l := Lower(a + "-" + b);
    LowerAppend(a + "-", b);
    LowerAppend(a, "-");
    assert Lower("-") == "-";
    assert l == Lower(a) + "-" + Lower(b);
    assert l[0] == LowerChar(a[0]) && l[|l| - 1] == LowerChar(b[|b| - 1]);
    StripDashesNoop(l);
  }

  /** Two words separated by a run of whitespace and followed by punctuation have the two
      lower-cased words joined by one `-` as their slug (`Noticia Importante!` gives
      `noticia-importante`). */
  lemma SlugOfTwoWords(a: string, sp: string, b: string, punct: string)
    requires a != [] && b != [] && sp != []
    requires forall i :: 0 <= i < |a| ==> IsWordChar(a[i])
    requires forall i :: 0 <= i < |b| ==> IsWordChar(b[i])
    requires forall i :: 0 <= i < |sp| ==> IsSpace(sp[i])
    requires forall i :: 0 <= i < |punct| ==> !(IsWordChar(punct[i]) || IsSpace(punct[i]) || punct[i] == '-')
    ensures Slug(a + sp + b + punct) == Lower(a) + "-" + Lower(b)
  {
    var text := a + sp + b;
    forall i | 0 <= i < |text| ensures IsWordChar(text[i]) || IsSpace(text[i]) {
      if i < |a| {
        assert text[i] == a[i];
      } else if i < |a| + |sp| {
        assert text[i] == sp[i - |a|];
      } else {
        assert text[i] == b[i - |a| - |sp|];
      }
    }
    KeepWordsDropPunct(text, punct);
    CollapseWordsApart(a, sp, b);
    LowerJoin(a, b);
  }

  /** A timestamp as `datetime.strptime` reads it. */
  datatype DateTime = DateTime(year: int, month: int, day: int, hour: int, minute: int, second: int)

  predicate IsLeapYear(y: int)
  {
    y % 4 == 0 && (y % 100 != 0 || y % 400 == 0)
  }

  function DaysInMonth(y: int, m: int): int
  {
    if m == 2 then (if IsLeapYear(y) then 29 else 28)
    else if m == 4 || m == 6 || m == 9 || m == 11 then 30
    else 31
  }

  /** The values a `datetime` accepts. */
  predicate ValidDateTime(d: DateTime)
  {
    && 1 <= d.year <= 9999 && 1 <= d.month <= 12 && 1 <= d.day <= DaysInMonth(d.year, d.month)
    && 0 <= d.hour < 24 && 0 <= d.minute < 60 && 0 <= d.second < 60
  }

  predicate IsDigits(s: string)
  {
    forall i :: 0 <= i < |s| ==> '0' <= s[i] <= '9'
  }

  /** Shape of the format `%Y-%m-%dT%H:%M:%S` with every field zero-padded in ASCII digits.
      The format is matched ignoring case, so the separator may also be `t`. */
  predicate CanonicalShape(s: string)
  {
    && |s| == 19 && s[4] == '-' && s[7] == '-' && (s[10] == 'T' || s[10] == 't') && s[13] == ':' && s[16] == ':'
    && IsDigits(s[0..4]) && IsDigits(s[5..7]) && IsDigits(s[8..10])
    && IsDigits(s[11..13]) && IsDigits(s[14..16]) && IsDigits(s[17..19])
  }

  function Fields(s: string): DateTime
    requires |s| == 19
  {
    DateTime(ParseDigits(s[0..4]), ParseDigits(s[5..7]), ParseDigits(s[8..10]),
             ParseDigits(s[11..13]), ParseDigits(s[14..16]), ParseDigits(s[17..19]))
  }

  /** `datetime.strptime(s, "%Y-%m-%dT%H:%M:%S")` on input whose fields are zero-padded
      ASCII digits: `None` where it raises. */
  function ParseTimestamp(s: string): (r: Option<DateTime>)
    ensures r.Some? ==> ValidDateTime(r.value)
  {
    if CanonicalShape(s) && ValidDateTime(Fields(s)) then Some(Fields(s)) else None
  }

  /** The format is matched ignoring case: a lower-case separator parses and formats as
      the upper-case one. */
  lemma SeparatorCaseIgnored(s: string)
    requires |s| == 19
    ensures ParseTimestamp(s[10 := 't']) == ParseTimestamp(s[10 := 'T'])
    ensures FormatDate(s[10 := 't']) == FormatDate(s[10 := 'T'])
  {
    var l, u := s[10 := 't'], s[10 := 'T'];
    assert l[0..4] == u[0..4] && l[5..7] == u[5..7] && l[8..10] == u[8..10];
    assert l[11..13] == u[11..13] && l[14..16] == u[14..16] && l[17..19] == u[17..19];
  }

  /** The decimal digits of `v`, zero-padded to `width`. */
  function Pad(v: nat, width: nat): (r: string)
    ensures |r| == width && IsDigits(r)
  {
    if width == 0 then [] else Pad(v / 10, width - 1) + [DigitChar(v % 10)]
  }

  /** `strftime("%Y-%m-%dT%H:%M:%S")`. */
  function RenderTimestamp(d: DateTime): (r: string)
    requires ValidDateTime(d)
    ensures |r| == 19
  {
    Pad(d.year, 4) + "-" + Pad(d.month, 2) + "-" + Pad(d.day, 2) + "T"
    + Pad(d.hour, 2) + ":" + Pad(d.minute, 2) + ":" + Pad(d.second, 2)
  }

  /** `format_date_for_liferay`: the parsed timestamp written back with `.000Z` appended;
      input that does not match the format raises. */
  function FormatDate(s: string): Result<string>
  {
    match ParseTimestamp(s)
    case None => Failure("time data does not match format '%Y-%m-%dT%H:%M:%S'")
    case Some(d) => Success(RenderTimestamp(d) + ".000Z")
  }

  function Pow10(n: nat): nat
  {
    if n == 0 then 1 else 10 * Pow10(n - 1)
  }

  /** Padding a digit string's value gives the digit string back. */
  lemma {:induction false} PadParse(t: string)
    requires IsDigits(t)
    ensures ParseDigits(t) >= 0
    ensures Pad(ParseDigits(t), |t|) == t
  {
    if t != [] {
      var init := t[..|t| - 1];
      PadParse(init);
      var v := ParseDigits(t);
      var d := t[|t| - 1] as int - 48;
      assert v == ParseDigits(init) * 10 + d && 0 <= d < 10;
      assert v / 10 == ParseDigits(init) && v % 10 == d;
      assert DigitChar(d) == t[|t| - 1];
      assert t == init + [t[|t| - 1]];
    }
  }

  /** Reading a padded value back gives the value. */
  lemma {:induction false} ParsePad(v: nat, width: nat)
    requires v < Pow10(width)
    ensures ParseDigits(Pad(v, width)) == v
  {
    if width > 0 {
      ParsePad(v / 10, width - 1);
      var p := Pad(v, width);
      assert p[..|p| - 1] == Pad(v / 10, width - 1);
    }
  }

  /** The timestamp with its date and time separator written as `strftime` writes it. */
  function UpperSeparator(s: string): (r: string)
    ensures |r| == |s|
  {
    if |s| > 10 then s[10 := 'T'] else s
  }

  /** The fields read from a zero-padded timestamp render as the same text, with the
      separator in upper case. */
  lemma RenderFields(s: string)
    requires CanonicalShape(s) && ValidDateTime(Fields(s))
    ensures RenderTimestamp(Fields(s)) == UpperSeparator(s)
  {
    var u := UpperSeparator(s);
    assert u[0..4] == s[0..4] && u[5..7] == s[5..7] && u[8..10] == s[8..10];
    assert u[11..13] == s[11..13] && u[14..16] == s[14..16] && u[17..19] == s[17..19];
    RenderFieldsUpper(u);
  }

  /** The same for a timestamp whose separator is already `T`. */
  lemma RenderFieldsUpper(s: string)
    requires CanonicalShape(s) && s[10] == 'T' && ValidDateTime(Fields(s))
    ensures RenderTimestamp(Fields(s)) == s
  {
    PadParse(s[0..4]);
    PadParse(s[5..7]);
    PadParse(s[8..10]);
    PadParse(s[11..13]);
    PadParse(s[14..16]);
    PadParse(s[17..19]);
    assert s[0..5] == s[0..4] + "-";
    assert s[0..7] == s[0..5] + s[5..7];
    assert s[0..8] == s[0..7] + "-";
    assert s[0..10] == s[0..8] + s[8..10];
    assert s[0..11] == s[0..10] + "T";
    assert s[0..13] == s[0..11] + s[11..13];
    assert s[0..14] == s[0..13] + ":";
    assert s[0..16] == s[0..14] + s[14..16];
    assert s[0..17] == s[0..16] + ":";
    assert s == s[0..17] + s[17..19];
  }

  /** A well-formed zero-padded timestamp is reformatted as itself, with an upper-case
      separator, followed by `.000Z`. */
  lemma FormatDateCanonical(s: string)
    requires ParseTimestamp(s).Some?
    ensures FormatDate(s) == Success(UpperSeparator(s) + ".000Z")
    ensures s[10] == 'T' ==> FormatDate(s) == Success(s + ".000Z")
  {
    RenderFields(s);
    if s[10] == 'T' {
      assert UpperSeparator(s) == s;
    }
  }

  /** The six fields of a written timestamp sit where the format puts them. */
  lemma RenderSlices(d: DateTime)
    requires ValidDateTime(d)
    ensures var r := RenderTimestamp(d);
            && r[0..4] == Pad(d.year, 4) && r[5..7] == Pad(d.month, 2) && r[8..10] == Pad(d.day, 2)
            && r[11..13] == Pad(d.hour, 2) && r[14..16] == Pad(d.minute, 2) && r[17..19] == Pad(d.second, 2)
            && r[4] == '-' && r[7] == '-' && r[10] == 'T' && r[13] == ':' && r[16] == ':'
  {
  }

  /** The fields read from a written timestamp are the fields written. */
  lemma FieldsOfRender(d: DateTime)
    requires ValidDateTime(d)
    ensures Fields(RenderTimestamp(d)) == d
  {
    RenderSlices(d);
    PaddedFields(d);
  }

  /** Each field of a valid timestamp fits its width, so it reads back from its padding. */
  lemma PaddedFields(d: DateTime)
    requires ValidDateTime(d)
    ensures && ParseDigits(Pad(d.year, 4)) == d.year && ParseDigits(Pad(d.month, 2)) == d.month
            && ParseDigits(Pad(d.day, 2)) == d.day && ParseDigits(Pad(d.hour, 2)) == d.hour
            && ParseDigits(Pad(d.minute, 2)) == d.minute && ParseDigits(Pad(d.second, 2)) == d.second
  {
    assert Pow10(2) == 100 && Pow10(4) == 10000;
    assert d.day <= 31;
    ParsePad(d.year, 4);
    ParsePad(d.month, 2);
    ParsePad(d.day, 2);
    ParsePad(d.hour, 2);
    ParsePad(d.minute, 2);
    ParsePad(d.second, 2);
  }

  /** A written timestamp has the zero-padded shape. */
  lemma RenderShape(d: DateTime)
    requires ValidDateTime(d)
    ensures CanonicalShape(RenderTimestamp(d))
  {
    RenderSlices(d);
  }

  /** Writing a valid timestamp and reading it back gives the same timestamp. */
  lemma ParseRender(d: DateTime)
    requires ValidDateTime(d)
    ensures ParseTimestamp(RenderTimestamp(d)) == Some(d)
  {
    FieldsOfRender(d);
    RenderShape(d);
  }

  /** A zero-padded timestamp on 29 February is accepted exactly in leap years. */
  lemma LeapDay(s: string)
    requires CanonicalShape(s) && Fields(s).month == 2 && Fields(s).day == 29
    requires 1 <= Fields(s).year <= 9999 && 0 <= Fields(s).hour < 24
    requires 0 <= Fields(s).minute < 60 && 0 <= Fields(s).second < 60
    ensures FormatDate(s).Success? <==> IsLeapYear(Fields(s).year)
    ensures IsLeapYear(Fields(s).year) ==> FormatDate(s) == Success(UpperSeparator(s) + ".000Z")
  {
    if IsLeapYear(Fields(s).year) {
      FormatDateCanonical(s);
    }
  }
}
