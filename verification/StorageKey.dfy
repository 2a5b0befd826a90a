/** The storage key of a repository archive, built from the slugs of the owner and the repository name. */
module StorageKey {
  import opened PyText

  // The characters [a-z0-9._-].
  predicate IsSafe(c: char) {
    ('a' <= c <= 'z') || ('0' <= c <= '9') || c == '.' || c == '_' || c == '-'
  }

  predicate AllSafe(s: string) {
    forall c :: c in s ==> IsSafe(c)
  }

  /** Any lower-casing of strings that leaves safe strings alone, as every one does. */
  ghost predicate Lowers(lower: string -> string) {
    forall s :: AllSafe(s) ==> lower(s) == s
  }

  function UnsafeRun(s: string): (n: nat)
    ensures n <= |s| && (n < |s| ==> IsSafe(s[n]))
    ensures s != "" && !IsSafe(s[0]) ==> n > 0
  {
    if s == "" || IsSafe(s[0]) then 0 else 1 + UnsafeRun(s[1..])
  }

  /** `re.sub("[^a-z0-9._-]+", "-", s)`: each maximal run of other characters becomes one hyphen. */
  function Hyphenate(s: string): (r: string)
    ensures AllSafe(r)
    decreases |s|
  {
    if s == "" then ""
    else if IsSafe(s[0]) then [s[0]] + Hyphenate(s[1..])
    else "-" + Hyphenate(s[UnsafeRun(s)..])
  }

  function Slug(lower: string -> string, s: string): string {
    var stripped := Strip(Hyphenate(lower(s)), '-');
    if stripped != "" then stripped else "unknown"
  }

  function ObjectKey(lower: string -> string, owner: string, repo: string): string {
    "repos/" + Slug(lower, owner) + "/" + Slug(lower, repo) + ".tar.gz"
  }

  /** What slugs look like: not empty, safe characters only, no hyphen at either end. */
  predicate IsSlug(s: string) {
    s != "" && AllSafe(s) && s[0] != '-' && s[|s| - 1] != '-'
  }

  lemma {:induction false} SafeIsKept(s: string)
    requires AllSafe(s)
    ensures Hyphenate(s) == s
    decreases |s|
  {
    if s != "" {
      assert s[0] in s;
      SafeIsKept(s[1..]);
      assert s == [s[0]] + s[1..];
    }
  }

  lemma {:induction false} StripLeftSafe(s: string, c: char)
    requires AllSafe(s)
    ensures AllSafe(StripLeft(s, c))
    decreases |s|
  {
    if s != "" && s[0] == c {
      StripLeftSafe(s[1..], c);
    }
  }

  /** Every slug has the shape of one, whatever the string. */
  lemma SlugHasShape(lower: string -> string, s: string)
    ensures IsSlug(Slug(lower, s))
  {
    var text := Hyphenate(lower(s));
    StripLeftSafe(text, '-');
    assert Strip(text, '-') <= StripLeft(text, '-');
  }

  /** The strings the slug leaves alone are exactly those with the shape of a slug. */
  lemma FixedIff(lower: string -> string, s: string)
    requires Lowers(lower)
    ensures Slug(lower, s) == s <==> IsSlug(s)
  {
    SlugHasShape(lower, s);
    if IsSlug(s) {
      SafeIsKept(s);
    }
  }

  /** Taking the slug twice changes nothing. */
  lemma SlugIsIdempotent(lower: string -> string, s: string)
    requires Lowers(lower)
    ensures Slug(lower, Slug(lower, s)) == Slug(lower, s)
  {
    SlugHasShape(lower, s);
    FixedIff(lower, Slug(lower, s));
  }

  lemma NoSlashSplits(a: string, b: string, x: string, y: string)
    requires '/' !in a && '/' !in b && a + "/" + x == b + "/" + y
    ensures a == b && x == y
  {
    var s := a + "/" + x;
    assert forall k :: 0 <= k < |a| ==> s[k] == a[k];
    assert forall k :: 0 <= k < |b| ==> s[k] == b[k];
    assert s[|a|] == '/' && s[|b|] == '/';
    assert |a| == |b|;
    assert a == s[..|a|] == b;
    assert x == s[|a| + 1..] == y;
  }

  lemma EndingCancels(x: string, y: string, ending: string)
    requires x + ending == y + ending
    ensures x == y
  {
    assert |x| == |y|;
    assert x == (x + ending)[..|x|];
    assert y == (y + ending)[..|y|];
  }

  lemma KeyTail(o: string, r: string)
    ensures ("repos/" + o + "/" + r + ".tar.gz")[6..] == o + "/" + (r + ".tar.gz")
  {
  }

  /** Two repositories share a key if and only if both their slugs coincide. */
  lemma KeyDeterminesSlugs(lower: string -> string, owner: string, repo: string, owner': string, repo': string)
    ensures ObjectKey(lower, owner, repo) == ObjectKey(lower, owner', repo')
       <==> (Slug(lower, owner) == Slug(lower, owner') && Slug(lower, repo) == Slug(lower, repo'))
  {
    if ObjectKey(lower, owner, repo) == ObjectKey(lower, owner', repo') {
      var o, r, o', r' := Slug(lower, owner), Slug(lower, repo), Slug(lower, owner'), Slug(lower, repo');
      SlugHasShape(lower, owner);
      SlugHasShape(lower, owner');
      KeyTail(o, r);
      KeyTail(o', r');
      NoSlashSplits(o, o', r + ".tar.gz", r' + ".tar.gz");
      EndingCancels(r, r', ".tar.gz");
    }
  }

  /** Names that already have the shape of a slug never share a key. */
  lemma SlugNamesNeverCollide(lower: string -> string, owner: string, repo: string, owner': string, repo': string)
    requires Lowers(lower) && IsSlug(owner) && IsSlug(repo) && IsSlug(owner') && IsSlug(repo')
    ensures ObjectKey(lower, owner, repo) == ObjectKey(lower, owner', repo') <==> (owner == owner' && repo == repo')
  {
    KeyDeterminesSlugs(lower, owner, repo, owner', repo');
    FixedIff(lower, owner);
    FixedIff(lower, repo);
    FixedIff(lower, owner');
    FixedIff(lower, repo');
  }

  lemma {:induction false} LowerTextKeepsSafe(s: string)
    requires AllSafe(s)
    ensures LowerText(s) == s
  {
    forall i | 0 <= i < |s| ensures LowerText(s)[i] == s[i] {
      assert s[i] in s;
    }
  }

  /** Lower-casing the letters A to Z is such a lower-casing. */
  lemma LowerTextLowers()
    ensures Lowers(LowerText)
  {
    forall s | AllSafe(s) ensures LowerText(s) == s { LowerTextKeepsSafe(s); }
  }

  /** Any name shares its key with its own slug; so a name that is not a slug collides with another name. */
  lemma NameCollidesWithItsSlug(lower: string -> string, owner: string, repo: string)
    requires Lowers(lower)
    ensures ObjectKey(lower, owner, repo) == ObjectKey(lower, owner, Slug(lower, repo))
    ensures Slug(lower, repo) != repo <==> !IsSlug(repo)
  {
    SlugIsIdempotent(lower, repo);
    FixedIff(lower, repo);
  }

  /** The names a repository may be created with. */
  predicate IsRepositoryName(s: string) {
    1 <= |s| <= 100 && forall c :: c in s ==> IsSafe(LowerChar(c))
  }

  // A name without regard to case and to hyphens at its ends.
  function Core(s: string): string {
    Strip(LowerText(s), '-')
  }

  /**
   Two repositories of one owner share a key if and only if their names differ at most in case and in
   outer hyphens, where a name of hyphens only counts as "unknown".
   */
  lemma RepositoryNamesCollideIff(owner: string, a: string, b: string)
    requires IsRepositoryName(a) && IsRepositoryName(b)
    ensures ObjectKey(LowerText, owner, a) == ObjectKey(LowerText, owner, b)
       <==> Core(a) == Core(b) || (Core(a) == "" && Core(b) == "unknown") || (Core(a) == "unknown" && Core(b) == "")
  {
    hide Slug, ObjectKey, Core;
    KeyDeterminesSlugs(LowerText, owner, a, owner, b);
    SlugOfName(a);
    SlugOfName(b);
  }

  lemma SlugOfName(s: string)
    requires IsRepositoryName(s)
    ensures Slug(LowerText, s) == if Core(s) != "" then Core(s) else "unknown"
  {
    LoweredNameIsSafe(s);
  }

  lemma LoweredNameIsSafe(s: string)
    requires IsRepositoryName(s)
    ensures Hyphenate(LowerText(s)) == LowerText(s)
  {
    forall c | c in LowerText(s) ensures IsSafe(c) {
      var i :| 0 <= i < |s| && LowerText(s)[i] == c;
      assert s[i] in s;
    }
    SafeIsKept(LowerText(s));
  }

  /** "Repo" and "repo" are two names a repository may have, and share a key. */
  lemma DifferentNamesCollide(owner: string)
    ensures IsRepositoryName("Repo") && IsRepositoryName("repo")
    ensures ObjectKey(LowerText, owner, "Repo") == ObjectKey(LowerText, owner, "repo")
  {
    assert LowerText("Repo") == "repo" == LowerText("repo");
    RepositoryNamesCollideIff(owner, "Repo", "repo");
  }
  // ----- What a slug keeps of a name -----

  predicate NoneSafe(s: string) {
    forall c :: c in s ==> !IsSafe(c)
  }

  lemma {:induction false} UnsafeRunOf(run: string, rest: string)
    requires NoneSafe(run) && (rest == "" || IsSafe(rest[0]))
    ensures UnsafeRun(run + rest) == |run|
    decreases |run|
  {
    if run == "" {
      assert run + rest == rest;
    } else {
      assert run[0] in run && (run + rest)[1..] == run[1..] + rest;
      UnsafeRunOf(run[1..], rest);
    }
  }

  /** Safe characters are kept, and each run of others becomes one hyphen. */
  lemma {:induction false} RunsBecomeHyphens(safe: string, run: string, rest: string)
    requires AllSafe(safe) && NoneSafe(run) && run != "" && (rest == "" || IsSafe(rest[0]))
    ensures Hyphenate(safe + (run + rest)) == safe + ("-" + Hyphenate(rest))
    decreases |safe|
  {
    var s := safe + (run + rest);
    if safe == "" {
      assert s == run + rest && run[0] in run;
      UnsafeRunOf(run, rest);
      assert s[|run|..] == rest;
    } else {
      assert safe[0] in safe && s[1..] == safe[1..] + (run + rest);
      RunsBecomeHyphens(safe[1..], run, rest);
      assert [safe[0]] + (safe[1..] + ("-" + Hyphenate(rest))) == safe + ("-" + Hyphenate(rest));
    }
  }

  // The safe characters by code point: hyphen, dot, digits, underscore and the letters a to z.
  lemma SafeCharacters(c: char)
    ensures var n := c as int; IsSafe(c) <==> n in {45, 46, 95} || 48 <= n <= 57 || 97 <= n <= 122
  {
    assert '-' as int == 45 && '.' as int == 46 && '_' as int == 95;
  }

  /** Hyphens at the ends are cut off, and a name of which nothing is left is called "unknown". */
  lemma SlugIsStripped(lower: string -> string, s: string) returns (i: nat, j: nat)
    ensures var text := Hyphenate(lower(s));
      && i <= j <= |text| && (forall k :: 0 <= k < i || j <= k < |text| ==> text[k] == '-')
      && Slug(lower, s) == if i == j then "unknown" else text[i..j]
  {
    i, j := StripCuts(Hyphenate(lower(s)), '-');
  }

  /** The key of names that are slugs. */
  lemma KeyOfSlugs(lower: string -> string, owner: string, repo: string)
    requires Lowers(lower) && IsSlug(owner) && IsSlug(repo)
    ensures ObjectKey(lower, owner, repo) == "repos/" + owner + "/" + repo + ".tar.gz"
  {
    FixedIff(lower, owner);
    FixedIff(lower, repo);
  }
}
