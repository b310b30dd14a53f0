/** Where an upload ends up: cleaned path components and an unused file name. */
module UploadNames {
  import opened Results
  import Paths

  /** Which characters are letters or digits; a separator is neither. */
  type Alphanumeric = char -> bool

  const MAX_COMPONENTS: nat := 11

  // ----- Cleaning names -----

  /** Letters, digits, dots, hyphens and underscores are kept; everything else becomes an underscore. */
  function CleanCharacter(c: char, alphanumeric: Alphanumeric): char {
    if alphanumeric(c) || c == '.' || c == '-' || c == '_' then c else '_'
  }

  predicate OnlyDots(s: string) {
    forall c <- s :: c == '.'
  }

  /** A name that cannot escape the directory it is put in. */
  predicate SafeComponent(s: string) {
    s != "" && s != "." && s != ".." && '/' !in s
  }

  /** Cleaned character by character, or a made-up name exactly when there is nothing in it but dots. */
  predicate CleanedTo(name: string, s: string, alphanumeric: Alphanumeric, random: string) {
    if OnlyDots(name) then s == "uploaded_file_" + random + ".bin"
    else |s| == |name| && forall i :: 0 <= i < |s| ==> s[i] == CleanCharacter(name[i], alphanumeric)
  }

  function SanitizeFilename(name: string, alphanumeric: Alphanumeric, random: string): (s: string)
    requires !alphanumeric('/') && '/' !in random
    ensures SafeComponent(s)
    ensures CleanedTo(name, s, alphanumeric, random)
  {
    var cleaned := seq(|name|, i requires 0 <= i < |name| => CleanCharacter(name[i], alphanumeric));
    assert forall i :: 0 <= i < |name| ==> (cleaned[i] == '.' <==> name[i] == '.') && cleaned[i] != '/';
    assert OnlyDots(cleaned) <==> OnlyDots(name) by {
      assert forall i :: 0 <= i < |name| ==> cleaned[i] in cleaned && name[i] in name;
    }
    if OnlyDots(cleaned) then
      "uploaded_file_" + random + ".bin"
    else
      assert OnlyDots("") && OnlyDots(".") && OnlyDots("..");
      cleaned
  }

  // ----- Subdirectories -----

  /** The components of a relative name that count. */
  function Meaningful(components: seq<string>): (r: seq<string>)
    ensures |r| <= |components|
    ensures forall c <- r :: c != "" && c != "." && c != ".."
  {
    if components == [] then []
    else
      var rest := Meaningful(components[1..]);
      if components[0] == "" || components[0] == "." || components[0] == ".." then rest else [components[0]] + rest
  }

  /** Each component counts or not by itself, and those that do keep their order. */
  lemma {:induction false} MeaningfulAppend(a: seq<string>, b: seq<string>)
    ensures Meaningful(a + b) == Meaningful(a) + Meaningful(b)
    ensures forall c :: Meaningful([c]) == if c in ["", ".", ".."] then [] else [c]
  {
    if a == [] {
      assert a + b == b;
    } else {
      assert (a + b)[1..] == a[1..] + b;
      MeaningfulAppend(a[1..], b);
    }
    forall c ensures Meaningful([c]) == if c in ["", ".", ".."] then [] else [c] {
      assert Meaningful([c][1..]) == [];
    }
  }

  /** A random part for every component. */
  type Randomness = nat -> string

  ghost predicate Harmless(alphanumeric: Alphanumeric, random: Randomness) {
    !alphanumeric('/') && forall i: nat :: '/' !in random(i)
  }

  ghost function SanitizeAll(names: seq<string>, alphanumeric: Alphanumeric, random: Randomness): (r: seq<string>)
    requires Harmless(alphanumeric, random)
    ensures |r| == |names| && forall c <- r :: SafeComponent(c)
    ensures forall i :: 0 <= i < |names| ==> CleanedTo(names[i], r[i], alphanumeric, random(i))
  {
    if names == [] then []
    else
      var last := |names| - 1;
      SanitizeAll(names[..last], alphanumeric, random) + [SanitizeFilename(names[last], alphanumeric, random(last))]
  }

  datatype Target = Target(directories: seq<string>, name: string)

  /**
   * The directory and name for an upload, unless its path is nested too deeply: the name is the last meaningful component,
   * cleaned, and the directories are the cleaned others in order; a path without meaningful components is cleaned whole.
   */
  ghost function TargetOf(rawName: string, alphanumeric: Alphanumeric, random: Randomness): (t: Option<Target>)
    requires Harmless(alphanumeric, random)
    ensures t.Some? ==> |t.value.directories| + 1 <= MAX_COMPONENTS
    ensures t.Some? ==> SafeComponent(t.value.name) && forall d <- t.value.directories :: SafeComponent(d)
    ensures t.None? <==> '/' in rawName && |Meaningful(Paths.Split(rawName, '/'))| > MAX_COMPONENTS
    ensures t.Some? ==>
      var components := if '/' in rawName then Meaningful(Paths.Split(rawName, '/')) else [rawName];
      if components == [] then t.value.directories == [] && CleanedTo(rawName, t.value.name, alphanumeric, random(0))
      else
        && |t.value.directories| == |components| - 1
        && (forall i :: 0 <= i < |components| - 1 ==>
              CleanedTo(components[i], t.value.directories[i], alphanumeric, random(i)))
        && CleanedTo(components[|components| - 1], t.value.name, alphanumeric, random(|components| - 1))
  {
    if '/' !in rawName then Some(Target([], SanitizeFilename(rawName, alphanumeric, random(0))))
    else
      var components := Meaningful(Paths.Split(rawName, '/'));
      if |components| > MAX_COMPONENTS then None
      else if components == [] then Some(Target([], SanitizeFilename(rawName, alphanumeric, random(0))))
      else
        var names := SanitizeAll(components, alphanumeric, random);
        assert names[|names| - 1] in names;
        Some(Target(names[..|names| - 1], names[|names| - 1]))
  }

  // ----- Numbered names -----

  function Decimal(n: nat): (s: string)
    ensures s != ""
  {
    var digit := ['0' + (n % 10) as char];
    if n < 10 then digit else Decimal(n / 10) + digit
  }

  function NumberOf(s: string): int {
    if s == "" then 0 else 10 * NumberOf(s[..|s| - 1]) + (s[|s| - 1] as int - '0' as int)
  }

  /** Printing in decimal loses nothing. */
  lemma {:induction false} DecimalReadsBack(n: nat)
    ensures NumberOf(Decimal(n)) == n
  {
    var s := Decimal(n);
    if n < 10 {
      assert s[..0] == "";
    } else {
      DecimalReadsBack(n / 10);
      assert s[..|s| - 1] == Decimal(n / 10);
    }
  }

  function Numbered(stem: string, k: nat, ext: string): string {
    stem + " (" + Decimal(k) + ")" + ext
  }

  /** Distinct counters give distinct names. */
  lemma NumberedIsInjective(stem: string, i: nat, j: nat, ext: string)
    requires Numbered(stem, i, ext) == Numbered(stem, j, ext)
    ensures i == j
  {
    var a, b := Decimal(i), Decimal(j);
    var s := Numbered(stem, i, ext);
    assert |a| == |b|;
    assert s[|stem| + 2..|stem| + 2 + |a|] == a;
    assert Numbered(stem, j, ext)[|stem| + 2..|stem| + 2 + |b|] == b;
    DecimalReadsBack(i);
    DecimalReadsBack(j);
  }

  /** The name before its last dot and the rest from the dot on; a leading dot does not count. */
  function LastDot(name: string): (i: int)
    ensures -1 <= i < |name|
  {
    if name == "" then -1
    else if name[|name| - 1] == '.' then |name| - 1
    else LastDot(name[..|name| - 1])
  }

  function Stem(name: string): string {
    if LastDot(name) <= 0 then name else name[..LastDot(name)]
  }

  function Extension(name: string): string {
    if LastDot(name) <= 0 then "" else name[LastDot(name)..]
  }

  lemma {:induction false} LastDotIs(name: string)
    ensures LastDot(name) >= 0 ==> name[LastDot(name)] == '.'
    ensures '.' !in name[LastDot(name) + 1..]
  {
    if name != "" && name[|name| - 1] != '.' {
      var shorter := name[..|name| - 1];
      LastDotIs(shorter);
      var i, last := LastDot(name) + 1, name[|name| - 1];
      assert name == shorter + [last];
      assert name[i..] == shorter[i..] + [last];
    }
  }

  /** A name is cut before its last dot, unless that is its first character or there is none. */
  lemma StemAndExtension(name: string)
    ensures var stem, ext := Stem(name), Extension(name);
            && stem + ext == name && (name != "" ==> stem != "")
            && (ext != "" ==> ext[0] == '.' && '.' !in ext[1..])
            && (ext == "" <==> forall i :: 1 <= i < |name| ==> name[i] != '.')
  {
    LastDotIs(name);
    var dot := LastDot(name);
    if dot > 0 {
      assert Extension(name)[1..] == name[dot + 1..];
    } else {
      forall i | 1 <= i < |name| ensures name[i] != '.' {
        assert name[dot + 1..][i - dot - 1] == name[i];
      }
    }
  }

  /** All names with counters below `n` are taken. */
  predicate TakenBelow(existing: set<string>, stem: string, ext: string, n: nat) {
    forall k :: 1 <= k < n ==> Numbered(stem, k, ext) in existing
  }

  predicate IsFirstFree(existing: set<string>, name: string, k: nat, chosen: string) {
    chosen == Numbered(Stem(name), k, Extension(name)) && TakenBelow(existing, Stem(name), Extension(name), k)
  }

  /** So a directory has at least that many entries. */
  lemma {:induction false} TakenBound(existing: set<string>, stem: string, ext: string, n: nat)
    requires n > 0 && TakenBelow(existing, stem, ext, n)
    ensures n - 1 <= |existing|
  {
    if n > 1 {
      var last := Numbered(stem, n - 1, ext);
      forall k | 1 <= k < n - 1 ensures Numbered(stem, k, ext) in existing - {last} {
        if Numbered(stem, k, ext) == last {
          NumberedIsInjective(stem, k, n - 1, ext);
        }
      }
      TakenBound(existing - {last}, stem, ext, n - 1);
    }
  }

  lemma {:induction false} DecimalHasNoSlash(n: nat)
    ensures '/' !in Decimal(n)
  {
    if n >= 10 {
      DecimalHasNoSlash(n / 10);
    }
  }

  lemma NumberedIsSafe(name: string, k: nat)
    requires SafeComponent(name)
    ensures SafeComponent(Numbered(Stem(name), k, Extension(name)))
  {
    DecimalHasNoSlash(k);
    assert |Numbered(Stem(name), k, Extension(name))| > 2;
  }

  /** The loop finds an unused name in any finite directory: the given one, or the first free numbered one. */
  method ChooseName(name: string, existing: set<string>) returns (chosen: string)
    requires SafeComponent(name)
    ensures chosen !in existing && SafeComponent(chosen)
    ensures name !in existing ==> chosen == name
    ensures name in existing ==> exists k :: 1 <= k <= |existing| + 1 && IsFirstFree(existing, name, k, chosen)
  {
    chosen := name;
    if name in existing {
      var stem, ext := Stem(name), Extension(name);
      var counter := 1;
      chosen := Numbered(stem, counter, ext);
      while chosen in existing
        invariant counter >= 1 && chosen == Numbered(stem, counter, ext) && TakenBelow(existing, stem, ext, counter)
        decreases |existing| + 1 - counter
      {
        TakenBound(existing, stem, ext, counter + 1);
        counter := counter + 1;
        chosen := Numbered(stem, counter, ext);
      }
      TakenBound(existing, stem, ext, counter);
      NumberedIsSafe(name, counter);
      assert IsFirstFree(existing, name, counter, chosen);
    }
  }

  // ----- Received files -----

  /** The daemon tries 999 numbers and then falls back to a name with the time, whether that is free or not. */
  method ResolveCollision(name: string, existing: set<string>, seconds: nat) returns (chosen: string)
    ensures var fallback := Stem(name) + "_" + Decimal(seconds) + Extension(name);
            chosen !in existing <==>
              || name !in existing
              || fallback !in existing
              || exists k :: 1 <= k <= 999 && Numbered(Stem(name), k, Extension(name)) !in existing
    ensures name !in existing ==> chosen == name
    ensures name in existing ==>
      || (exists k :: 1 <= k <= 999 && IsFirstFree(existing, name, k, chosen) && chosen !in existing)
      || (TakenBelow(existing, Stem(name), Extension(name), 1000)
          && chosen == Stem(name) + "_" + Decimal(seconds) + Extension(name))
  {
    if name !in existing {
      return name;
    }
    var stem, ext := Stem(name), Extension(name);
    for i := 1 to 1000
      invariant TakenBelow(existing, stem, ext, i)
    {
      var candidate := Numbered(stem, i, ext);
      if candidate !in existing {
        assert IsFirstFree(existing, name, i, candidate);
        return candidate;
      }
    }
    return stem + "_" + Decimal(seconds) + ext;
  }
}
