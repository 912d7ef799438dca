/** Folder names for the document library: the sanitiser applied to every folder title
    and the numeric-suffix probe that picks a sibling name not already taken. */
module FolderNames {
  import opened Text
  import opened Wrappers

  /** Device names that cannot name a folder. */
  const ReservedNames: seq<string> := [
    "null", "con", "prn", "aux", "nul", "com1", "com2", "com3", "com4", "com5",
    "com6", "com7", "com8", "com9", "lpt1", "lpt2", "lpt3", "lpt4", "lpt5",
    "lpt6", "lpt7", "lpt8", "lpt9"
  ]

  /** The characters removed from a title, in the order the sanitiser removes them. The
      source writes them as a raw string in which the backslash appears twice. */
  const InvalidChars: string := "<>:\"/\\\\|?*"

  const MaxLength: nat := 255

  /** Drops one trailing `..`. */
  function TrimTrailingDots(t: string): string
  {
    if EndsWith(t, "..") then t[..|t| - 2] else t
  }

  /** Removes the sequences `../` and `/...`. */
  function DropDotSequences(t: string): string
  {
    ReplaceAll(ReplaceAll(t, "../", ""), "/...", "")
  }

  /** Whether `n` is one of `names`, compared element by element as Python's `in` does. */
  predicate Listed(n: string, names: seq<string>)
  {
    names != [] && (names[0] == n || Listed(n, names[1..]))
  }

  lemma {:induction false} ListedContains(n: string, names: seq<string>)
    ensures Listed(n, names) <==> n in names
  {
    if names != [] {
      ListedContains(n, names[1..]);
      assert names == [names[0]] + names[1..];
    }
  }

  /** Whether a lower-cased name is a device name. */
  predicate IsReserved(n: string)
  {
    Listed(n, ReservedNames)
  }

  /** Every device name has three or four characters. */
  lemma ReservedShort(n: string)
    ensures IsReserved(n) ==> 3 <= |n| <= 4
  {
    ListedContains(n, ReservedNames);
  }

  function MarkReserved(t: string): string
  {
    if IsReserved(Lower(t)) then t + "_safe" else t
  }

  /** Python's `t[:255]`. */
  function Truncate(t: string): string
  {
    if |t| <= MaxLength then t else t[..MaxLength]
  }

  /** The title after the forbidden characters are stripped and the trailing `..` trimmed. */
  function Stem(title: string): string
  {
    TrimTrailingDots(RemoveChars(title, InvalidChars))
  }

  /** `sanitize_folder_title`: an empty title raises; otherwise the four steps in order. */
  function Sanitize(title: string): Result<string>
  {
    if title == [] then Failure("folder name cannot be blank")
    else Success(Truncate(MarkReserved(DropDotSequences(Stem(title)))))
  }

  predicate NoInvalidChars(t: string)
  {
    forall i :: 0 <= i < |t| ==> t[i] !in InvalidChars
  }

  /** Once `/` is gone, the sequences step has nothing to remove. */
  lemma DropDotSequencesNoop(t: string)
    requires NoInvalidChars(t)
    ensures DropDotSequences(t) == t
  {
    assert '/' in InvalidChars;
    forall i | 0 <= i <= |t| ensures !StartsWith(t[i..], "../") && !StartsWith(t[i..], "/...") {
      if |t[i..]| >= 3 {
        assert t[i..][2] == t[i + 2];
      }
      if |t[i..]| >= 4 {
        assert t[i..][0] == t[i];
      }
    }
    ReplaceAllAbsent(t, "../", "");
    ReplaceAllAbsent(t, "/...", "");
  }

  lemma StemHasNoInvalidChars(title: string)
    ensures NoInvalidChars(Stem(title))
  {
    var t := RemoveChars(title, InvalidChars);
    assert Stem(title) == t || Stem(title) == t[..|t| - 2];
  }

  /** The `_safe` suffix brings in no forbidden character. */
  lemma MarkReservedSafe(t: string)
    requires NoInvalidChars(t)
    ensures NoInvalidChars(MarkReserved(t))
    ensures MarkReserved(t) == t || MarkReserved(t) == t + "_safe"
  {
    var m := MarkReserved(t);
    if m != t {
      forall i | 0 <= i < |m| ensures m[i] !in InvalidChars {
        if i >= |t| {
          assert m[i] == "_safe"[i - |t|];
        }
      }
    }
  }

  /** Every successful result is at most 255 characters long and contains none of the
      forbidden characters; the empty title is the only one that raises. */
  lemma SanitizeSafe(title: string)
    ensures Sanitize(title).Failure? <==> title == []
    ensures Sanitize(title).Success? ==>
              |Sanitize(title).value| <= MaxLength && NoInvalidChars(Sanitize(title).value)
  {
    if title != [] {
      var stem := Stem(title);
      StemHasNoInvalidChars(title);
      DropDotSequencesNoop(stem);
      MarkReservedSafe(stem);
    }
  }

  /** A stem whose lower-case form is a device name gets `_safe`; any other stem is only
      truncated, so no `_safe` is added. */
  lemma SanitizeReserved(title: string)
    requires title != []
    ensures IsReserved(Lower(Stem(title))) ==> Sanitize(title) == Success(Stem(title) + "_safe")
    ensures !IsReserved(Lower(Stem(title))) ==> Sanitize(title) == Success(Truncate(Stem(title)))
  {
    var stem := Stem(title);
    StemHasNoInvalidChars(title);
    DropDotSequencesNoop(stem);
    ReservedShort(Lower(stem));
  }

  lemma ConHasNoInvalidChars()
    ensures RemoveChars("CON", InvalidChars) == "CON"
  {
    var con := "CON";
    forall c | c in con ensures c !in InvalidChars {
      assert c == con[0] || c == con[1] || c == con[2];
    }
    RemoveCharsNone(con, InvalidChars);
  }

  lemma LowerCon()
    ensures Lower("CON") == "con"
  {
    var l := Lower("CON");
    assert l[0] == 'c' && l[1] == 'o' && l[2] == 'n';
  }

  lemma ConStemIsReserved()
    ensures Stem("CON") == "CON" && IsReserved(Lower("CON"))
  {
    ConHasNoInvalidChars();
    assert !EndsWith("CON", "..");
    LowerCon();
    assert ReservedNames[1] == "con";
    ListedContains("con", ReservedNames);
  }

  /** `CON` becomes `CON_safe`. */
  lemma SanitizeConExample()
    ensures Sanitize("CON") == Success("CON_safe")
  {
    var t := "CON";
    ConStemIsReserved();
    SanitizeReserved(t);
    assert t + "_safe" == "CON_safe";
  }

  /** A non-empty title made only of forbidden characters sanitises to the empty name. */
  lemma SanitizeOnlyInvalid(title: string)
    requires title != []
    requires forall i :: 0 <= i < |title| ==> title[i] in InvalidChars
    ensures Sanitize(title) == Success("")
  {
    RemoveCharsAll(title, InvalidChars);
    assert Stem(title) == [];
    SanitizeReserved(title);
    assert Lower([]) == [];
    ReservedShort([]);
  }

  /** `sanitize_folder_title` as the source writes it: a loop that removes the forbidden
      characters one at a time, then the trims, the reserved-name check and the cap. */
  method SanitizeFolderTitle(title: string) returns (r: Result<string>)
    ensures r == Sanitize(title)
    ensures r.Failure? <==> title == []
    ensures r.Success? ==> |r.value| <= MaxLength && NoInvalidChars(r.value)
  {
    SanitizeSafe(title);
    if title == [] {
      return Failure("folder name cannot be blank");
    }
    var t := RemoveInvalidChars(title);
    if EndsWith(t, "..") {
      t := t[..|t| - 2];
    }
    t := ReplaceAll(ReplaceAll(t, "../", ""), "/...", "");
    if IsReserved(Lower(t)) {
      t := t + "_safe";
    }
    r := Success(if |t| <= MaxLength then t else t[..MaxLength]);
  }

  /** The loop of `sanitize_folder_title` that removes the forbidden characters one at a
      time, in the order they are listed. */
  method RemoveInvalidChars(title: string) returns (t: string)
    ensures t == RemoveChars(title, InvalidChars)
  {
    t := title;
    RemoveCharsNone(title, []);
    for k := 0 to |InvalidChars|
      invariant t == RemoveChars(title, InvalidChars[..k])
    {
      ReplaceCharRemoves(title, InvalidChars[..k], InvalidChars[k]);
      assert InvalidChars[..k + 1] == InvalidChars[..k] + [InvalidChars[k]];
      t := ReplaceAll(t, [InvalidChars[k]], "");
    }
    assert InvalidChars[..|InvalidChars|] == InvalidChars;
  }

  /** The `k`-th name the probe tries: `base`, then `base_1`, `base_2`, ... */
  function Probe(base: string, k: nat): string
  {
    if k == 0 then base else base + "_" + NatToString(k)
  }

  lemma ProbeInjective(base: string, j: nat, k: nat)
    requires Probe(base, j) == Probe(base, k)
    ensures j == k
  {
    if j != 0 && k != 0 {
      assert Probe(base, j)[|base| + 1..] == NatToString(j);
      assert Probe(base, k)[|base| + 1..] == NatToString(k);
      NatToStringInjective(j, k);
    }
  }

  /** The names tried by the first `n` probes. */
  ghost function Probed(base: string, n: nat): set<string>
  {
    if n == 0 then {} else Probed(base, n - 1) + {Probe(base, n - 1)}
  }

  lemma {:induction false} ProbedMembers(base: string, n: nat, k: nat)
    ensures Probe(base, k) in Probed(base, n) <==> k < n
  {
    if n > 0 {
      ProbedMembers(base, n - 1, k);
      if Probe(base, k) == Probe(base, n - 1) {
        ProbeInjective(base, k, n - 1);
      }
    }
  }

  lemma {:induction false} ProbedSize(base: string, n: nat)
    ensures |Probed(base, n)| == n
  {
    if n > 0 {
      ProbedSize(base, n - 1);
      ProbedMembers(base, n - 1, n - 1);
    }
  }

  /** The probe terminates: among the first `|existing| + 1` probes one is free. */
  lemma FreeProbeExists(base: string, existing: set<string>)
    ensures exists n :: 0 <= n <= |existing| && Probe(base, n) !in existing
  {
    var all := Probed(base, |existing| + 1);
    ProbedSize(base, |existing| + 1);
    assert |all - existing| >= 1 by {
      assert |existing - all| == |existing| - |existing * all|;
      assert all * existing == existing * all;
    }
    var x :| x in all - existing;
    ProbedInside(base, |existing| + 1, x);
  }

  lemma {:induction false} ProbedInside(base: string, n: nat, x: string)
    requires x in Probed(base, n)
    ensures exists k :: 0 <= k < n && x == Probe(base, k)
  {
    if x != Probe(base, n - 1) {
      ProbedInside(base, n - 1, x);
    }
  }

  /** `name` is what the probe returns: the first of `base`, `base_1`, ... not taken. */
  ghost predicate IsFirstFree(base: string, existing: set<string>, name: string)
  {
    exists n: nat :: name == Probe(base, n) && name !in existing
                     && forall k :: 0 <= k < n ==> Probe(base, k) in existing
  }

  /** The first free name is determined by the base and the taken names. */
  lemma FirstFreeUnique(base: string, existing: set<string>, x: string, y: string)
    requires IsFirstFree(base, existing, x) && IsFirstFree(base, existing, y)
    ensures x == y
  {
    var m: nat :| x == Probe(base, m) && x !in existing
                  && forall k :: 0 <= k < m ==> Probe(base, k) in existing;
    var n: nat :| y == Probe(base, n) && y !in existing
                  && forall k :: 0 <= k < n ==> Probe(base, k) in existing;
  }

  /** The first name the probe tries from its `k`-th try on that is not taken, when the
      earlier tries are all taken. */
  function FreeFrom(base: string, existing: set<string>, k: nat): string
    requires Probed(base, k) <= existing
    decreases |existing - Probed(base, k)|
  {
    if Probe(base, k) !in existing then Probe(base, k)
    else
      ProbedMembers(base, k, k);
      assert existing - Probed(base, k + 1) < existing - Probed(base, k);
      FreeFrom(base, existing, k + 1)
  }

  /** The name the probe returns. */
  function FirstFreeName(base: string, existing: set<string>): string
  {
    assert Probed(base, 0) == {};
    FreeFrom(base, existing, 0)
  }

  lemma {:induction false} FreeFromIs(base: string, existing: set<string>, k: nat)
    requires Probed(base, k) <= existing
    ensures IsFirstFree(base, existing, FreeFrom(base, existing, k))
    decreases |existing - Probed(base, k)|
  {
    if Probe(base, k) !in existing {
      forall j | 0 <= j < k ensures Probe(base, j) in existing {
        ProbedMembers(base, k, j);
      }
    } else {
      ProbedMembers(base, k, k);
      assert existing - Probed(base, k + 1) < existing - Probed(base, k);
      FreeFromIs(base, existing, k + 1);
    }
  }

  /** The function is the probe: its name is the first free one, and the first free name
      is that name. */
  lemma FirstFreeNameIs(base: string, existing: set<string>, name: string)
    ensures IsFirstFree(base, existing, FirstFreeName(base, existing))
    ensures IsFirstFree(base, existing, name) <==> name == FirstFreeName(base, existing)
  {
    assert Probed(base, 0) == {};
    FreeFromIs(base, existing, 0);
    if IsFirstFree(base, existing, name) {
      FirstFreeUnique(base, existing, name, FirstFreeName(base, existing));
    }
  }

  /** `Foo` with `Foo` and `Foo_1` taken gives `Foo_2`. */
  lemma FirstFreeExample(name: string)
    requires IsFirstFree("Foo", {"Foo", "Foo_1"}, name)
    ensures name == "Foo_2"
  {
    assert Probe("Foo", 1) == "Foo_1";
    assert Probe("Foo", 2) == "Foo_2";
    assert IsFirstFree("Foo", {"Foo", "Foo_1"}, "Foo_2") by {
      assert forall k :: 0 <= k < 2 ==> Probe("Foo", k) in {"Foo", "Foo_1"};
    }
    FirstFreeUnique("Foo", {"Foo", "Foo_1"}, name, "Foo_2");
  }

  /** `generate_unique_name`: tries `base`, `base_1`, `base_2`, ... and returns the first one
      that is not taken. */
  method GenerateUniqueName(base: string, existing: set<string>) returns (name: string)
    ensures name !in existing
    ensures base !in existing ==> name == base
    ensures IsFirstFree(base, existing, name)
    ensures name == FirstFreeName(base, existing)
  {
    var counter: nat := 1;
    name := base;
    while name in existing
      invariant counter >= 1
      invariant name == Probe(base, counter - 1)
      invariant Probed(base, counter - 1) <= existing
      decreases |existing - Probed(base, counter - 1)|
    {
      ProbedMembers(base, counter - 1, counter - 1);
      assert existing - Probed(base, counter) < existing - Probed(base, counter - 1);
      name := base + "_" + NatToString(counter);
      counter := counter + 1;
    }
    forall k | 0 <= k < counter - 1 ensures Probe(base, k) in existing {
      ProbedMembers(base, counter - 1, k);
    }
    FirstFreeNameIs(base, existing, name);
  }
}
