/** What lib/server-code/publisher.js puts into the deployment archive: the closure of the package
    dependencies, and the pattern list it feeds. */
module Publisher {
  import opened Options
  import opened Sequences
  import opened FilePatterns

  /** The dependency keys of each package.json that can be read under node_modules. */
  type Installed = map<string, seq<string>>

  const EXCLUDE_MODULES := ["backendless-coderunner"]

  const BASE_PATTERNS := ["**", "!node_modules/**", "!deploy.zip"]

  function Pattern(name: string): string {
    "node_modules/" + name + "/**"
  }

  function Dependencies(installed: Installed, name: string): seq<string> {
    if name in installed then installed[name] else []
  }

  /** A chain of dependencies from the root package.json, through packages that are not excluded. */
  ghost predicate Chain(installed: Installed, root: seq<string>, path: seq<string>) {
    && path != [] && path[0] in root
    && (forall i | 0 <= i < |path| :: path[i] !in EXCLUDE_MODULES)
    && forall i | 0 <= i < |path| - 1 :: path[i + 1] in Dependencies(installed, path[i])
  }

  ghost predicate Reachable(installed: Installed, root: seq<string>, name: string) {
    exists path :: Chain(installed, root, path) && path[|path| - 1] == name
  }

  lemma ReachableRoot(installed: Installed, root: seq<string>, name: string)
    requires name in root && name !in EXCLUDE_MODULES
    ensures Reachable(installed, root, name)
  {
    assert Chain(installed, root, [name]);
  }

  lemma ReachableNext(installed: Installed, root: seq<string>, name: string, next: string)
    requires Reachable(installed, root, name) && next in Dependencies(installed, name) && next !in EXCLUDE_MODULES
    ensures Reachable(installed, root, next)
  {
    var path :| Chain(installed, root, path) && path[|path| - 1] == name;
    var longer := path + [next];
    assert forall i | 0 <= i < |path| :: longer[i] == path[i];
    assert Chain(installed, root, longer) && longer[|longer| - 1] == next;
  }

  /** What is reachable, by its rules: the runner itself never, the other packages the root names, and those
      a reachable package names; their patterns are directories under node_modules. */
  lemma ReachableRules(installed: Installed, root: seq<string>, name: string)
    ensures Reachable(installed, root, name) <==>
      && name != "backendless-coderunner"
      && (|| name in root
          || exists r :: Reachable(installed, root, r) && r in installed && name in installed[r])
    ensures Pattern(name) == "node_modules/" + name + "/**"
  {
    if Reachable(installed, root, name) {
      var path :| Chain(installed, root, path) && path[|path| - 1] == name;
      if |path| > 1 {
        var shorter := path[..|path| - 1];
        var r := shorter[|shorter| - 1];
        assert path[|path| - 2 + 1] in Dependencies(installed, r);
        assert Chain(installed, root, shorter);
        assert Reachable(installed, root, r);
      }
    }
    if name != "backendless-coderunner" {
      if name in root { ReachableRoot(installed, root, name); }
      if r :| Reachable(installed, root, r) && r in installed && name in installed[r] {
        ReachableNext(installed, root, r, name);
      }
    }
  }

  lemma PatternNames(name: string, other: string)
    requires Pattern(name) == Pattern(other)
    ensures name == other
  {
    assert Pattern(name)[13..13 + |name|] == name;
    assert Pattern(other)[13..13 + |other|] == other;
    assert |Pattern(name)| == 13 + |name| + 3 && |Pattern(other)| == 13 + |other| + 3;
  }

  /** Every package named anywhere: the walk has no other names to try. */
  function Names(installed: Installed, root: seq<string>): set<string> {
    (set n | n in root) + set m, n | m in installed && n in installed[m] :: n
  }

  function Untried(installed: Installed, root: seq<string>, out: seq<string>): set<string> {
    set n | n in Names(installed, root) && Pattern(n) !in out
  }

  /** `out` lists the pattern of a reachable package at every place, and none twice. */
  ghost predicate Sound(installed: Installed, root: seq<string>, out: seq<string>) {
    && NoDup(out)
    && forall p | p in out :: exists n :: p == Pattern(n) && Reachable(installed, root, n)
  }

  /** All that was added since `before` has had its own dependencies looked at. */
  ghost predicate Closed(installed: Installed, before: seq<string>, out: seq<string>) {
    && before <= out
    && forall n, d | Pattern(n) in out && Pattern(n) !in before && d in Dependencies(installed, n) ::
         d in EXCLUDE_MODULES || Pattern(d) in out
  }

  class DependencyWalk {
    const installed: Installed
    const root: seq<string>
    var out: seq<string>

    constructor (installed: Installed, root: seq<string>)
      ensures this.installed == installed && this.root == root && out == []
    {
      this.installed := installed;
      this.root := root;
      out := [];
    }

    method AddDependencies(names: seq<string>)
      requires Sound(installed, root, out)
      requires forall n | n in names :: n in Names(installed, root)
      requires forall n | n in names && n !in EXCLUDE_MODULES :: Reachable(installed, root, n)
      modifies this
      ensures Sound(installed, root, out) && Closed(installed, old(out), out)
      ensures forall n | n in names :: n in EXCLUDE_MODULES || Pattern(n) in out
      decreases |Untried(installed, root, out)|, 1
    {
      for i := 0 to |names|
        invariant Sound(installed, root, out) && Closed(installed, old(out), out)
        invariant forall j | 0 <= j < i :: names[j] in EXCLUDE_MODULES || Pattern(names[j]) in out
      {
        ghost var now := out;
        UntriedShrinks(installed, root, old(out), now);
        AddDependency(names[i]);
        ClosedTrans(installed, old(out), now, out);
      }
    }

    method AddDependency(name: string)
      requires Sound(installed, root, out) && name in Names(installed, root)
      requires name !in EXCLUDE_MODULES ==> Reachable(installed, root, name)
      modifies this
      ensures Sound(installed, root, out) && Closed(installed, old(out), out)
      ensures name in EXCLUDE_MODULES || Pattern(name) in out
      decreases |Untried(installed, root, out)|, 0
    {
      hide Sound, Reachable, Names, Untried, Pattern;
      ghost var before := out;
      var pattern := Pattern(name);
      if name !in EXCLUDE_MODULES && pattern !in out {
        out := out + [pattern];
        Tried(installed, root, before, name);
        SoundPushed(installed, root, before, name);
        ghost var pushed := out;
        if name in installed {
          NextNames(installed, root, name);
          AddDependencies(installed[name]);
        }
        NameClosed(installed, before, name, pushed, out);
        assert out[|before|] == pattern;
      }
    }

    /** dependencyPatterns: one pattern for each reachable package, and no other. */
    method DependencyPatterns()
      requires out == []
      modifies this
      ensures NoDup(out)
      ensures forall p :: p in out <==> exists n :: p == Pattern(n) && Reachable(installed, root, n)
    {
      forall n | n in root && n !in EXCLUDE_MODULES ensures Reachable(installed, root, n) {
        ReachableRoot(installed, root, n);
      }
      AddDependencies(root);
      forall n | Reachable(installed, root, n) ensures Pattern(n) in out {
        var path :| Chain(installed, root, path) && path[|path| - 1] == n;
        AllListed(installed, root, out, path);
      }
    }
  }

  lemma SoundPushed(installed: Installed, root: seq<string>, out: seq<string>, name: string)
    requires Sound(installed, root, out) && Pattern(name) !in out && Reachable(installed, root, name)
    ensures Sound(installed, root, out + [Pattern(name)])
  {
    hide Reachable, Pattern;
  }

  lemma NextNames(installed: Installed, root: seq<string>, name: string)
    requires name in installed && Reachable(installed, root, name)
    ensures forall d | d in installed[name] :: d in Names(installed, root)
    ensures forall d | d in installed[name] && d !in EXCLUDE_MODULES :: Reachable(installed, root, d)
  {
    hide Reachable;
    forall d | d in installed[name] && d !in EXCLUDE_MODULES ensures Reachable(installed, root, d) {
      ReachableNext(installed, root, name, d);
    }
  }

  lemma UntriedShrinks(installed: Installed, root: seq<string>, before: seq<string>, out: seq<string>)
    requires before <= out
    ensures |Untried(installed, root, out)| <= |Untried(installed, root, before)|
  {
    assert forall p | p in before :: p in out;
    SubsetCard(Untried(installed, root, out), Untried(installed, root, before));
  }

  lemma SubsetCard(a: set<string>, b: set<string>)
    requires a <= b
    ensures |a| <= |b| && (a != b ==> |a| < |b|)
  {
    assert b == a + (b - a) && |b| == |a| + |b - a|;
  }

  lemma Tried(installed: Installed, root: seq<string>, before: seq<string>, name: string)
    requires name in Names(installed, root) && Pattern(name) !in before
    ensures |Untried(installed, root, before + [Pattern(name)])| < |Untried(installed, root, before)|
  {
    var a, b := Untried(installed, root, before + [Pattern(name)]), Untried(installed, root, before);
    assert name in b;
    assert Pattern(name) in before + [Pattern(name)];
    assert name !in a && a <= b;
    SubsetCard(a, b);
  }

  lemma ClosedTrans(installed: Installed, a: seq<string>, b: seq<string>, c: seq<string>)
    requires Closed(installed, a, b) && Closed(installed, b, c)
    ensures Closed(installed, a, c)
  {
    assert forall p | p in b :: p in c;
  }

  /** When the walk below `name` is done, `name` itself has been looked at too. */
  lemma NameClosed(installed: Installed, before: seq<string>, name: string, pushed: seq<string>, out: seq<string>)
    requires pushed == before + [Pattern(name)] && pushed <= out
    requires if name in installed then Closed(installed, pushed, out) else out == pushed
    requires forall d | d in Dependencies(installed, name) :: d in EXCLUDE_MODULES || Pattern(d) in out
    ensures Closed(installed, before, out)
  {
    forall n, d | Pattern(n) in out && Pattern(n) !in before && d in Dependencies(installed, n)
      ensures d in EXCLUDE_MODULES || Pattern(d) in out
    {
      if Pattern(n) == Pattern(name) {
        PatternNames(n, name);
      } else {
        assert Pattern(n) !in pushed;
      }
    }
  }

  lemma {:induction false} AllListed(installed: Installed, root: seq<string>, out: seq<string>, path: seq<string>)
    requires Chain(installed, root, path) && Closed(installed, [], out)
    requires forall n | n in root :: n in EXCLUDE_MODULES || Pattern(n) in out
    ensures Pattern(path[|path| - 1]) in out
    decreases |path|
  {
    if |path| > 1 {
      var shorter := path[..|path| - 1];
      AllListed(installed, root, out, shorter);
      assert path[|path| - 2 + 1] in Dependencies(installed, path[|path| - 2]);
    }
  }

  // ----- the archive

  function Exclusions(exclude: seq<string>): seq<string> {
    seq(|exclude|, i requires 0 <= i < |exclude| => "!" + exclude[i])
  }

  /** The files `file.expand` finds for the pattern list of `zip`. */
  method ArchiveFiles(
    root: Option<seq<string>>, installed: Installed, exclude: seq<string>, find: string -> seq<string>)
    returns (files: seq<string>)
    ensures NoDup(files)
    ensures forall f :: f in files <==> Archived(if root.Some? then root.value else [], installed, exclude, find, f)
  {
    var names := if root.Some? then root.value else [];
    var walk := new DependencyWalk(installed, names);
    if root.Some? {
      walk.DependencyPatterns();
    }
    files := ProcessPatterns(BASE_PATTERNS + walk.out + Exclusions(exclude), find);
    forall f ensures f in files <==> Archived(names, installed, exclude, find, f) {
      forall n ensures Reachable(installed, names, n) ==> Pattern(n) in walk.out {
        if Reachable(installed, names, n) && root.None? { NothingReachable(installed, n); }
      }
      forall p | p in walk.out ensures exists n :: p == Pattern(n) && Reachable(installed, names, n) {}
      ArchivedIs(names, installed, exclude, find, f, walk.out);
    }
  }

  lemma NothingReachable(installed: Installed, name: string)
    ensures !Reachable(installed, [], name)
  {
  }

  /** What the archive holds: project files, and the files of the packages that are reachable, unless the
      user excludes them; never the last archive itself. */
  ghost predicate Archived(
    root: seq<string>, installed: Installed, exclude: seq<string>, find: string -> seq<string>, file: string)
  {
    && (forall e | e in exclude :: file !in find(e))
    && (|| (file in find("**") && file !in find("node_modules/**") && file !in find("deploy.zip"))
        || exists n :: Reachable(installed, root, n) && file in find(Pattern(n)))
  }

  lemma PatternIncludes(name: string)
    ensures !Excludes(Pattern(name)) && Bare(Pattern(name)) == Pattern(name)
  {
  }

  /** The pattern list of `zip`, part by part. */
  ghost predicate Lists(root: seq<string>, installed: Installed, exclude: seq<string>, out: seq<string>,
                        patterns: seq<string>)
  {
    && |patterns| == 3 + |out| + |exclude|
    && !Excludes(patterns[0]) && Bare(patterns[0]) == "**"
    && Excludes(patterns[1]) && Bare(patterns[1]) == "node_modules/**"
    && Excludes(patterns[2]) && Bare(patterns[2]) == "deploy.zip"
    && (forall i | 3 <= i < 3 + |out| :: !Excludes(patterns[i]) && Bare(patterns[i]) == out[i - 3])
    && (forall i | 3 + |out| <= i < |patterns| ::
          Excludes(patterns[i]) && Bare(patterns[i]) == exclude[i - 3 - |out|])
  }

  lemma PatternsAre(root: seq<string>, installed: Installed, exclude: seq<string>, out: seq<string>)
    requires forall p | p in out :: exists n :: p == Pattern(n) && Reachable(installed, root, n)
    ensures Lists(root, installed, exclude, out, BASE_PATTERNS + out + Exclusions(exclude))
  {
    hide Reachable;
    var patterns := BASE_PATTERNS + out + Exclusions(exclude);
    assert forall i | 0 <= i < 3 :: patterns[i] == BASE_PATTERNS[i];
    BaseIs(patterns);
    forall i | 3 <= i < 3 + |out| ensures !Excludes(patterns[i]) && Bare(patterns[i]) == out[i - 3] {
      assert patterns[i] == out[i - 3] && out[i - 3] in out;
      var n :| out[i - 3] == Pattern(n) && Reachable(installed, root, n);
      PatternIncludes(n);
    }
    forall i | 3 + |out| <= i < |patterns|
      ensures Excludes(patterns[i]) && Bare(patterns[i]) == exclude[i - 3 - |out|]
    {
      assert patterns[i] == "!" + exclude[i - 3 - |out|];
      assert ("!" + exclude[i - 3 - |out|])[1..] == exclude[i - 3 - |out|];
    }
  }

  lemma SelectedIsArchived(
    root: seq<string>, installed: Installed, exclude: seq<string>, find: string -> seq<string>, file: string,
    out: seq<string>, patterns: seq<string>)
    requires Lists(root, installed, exclude, out, patterns) && Selected(find, patterns, file)
    requires forall p | p in out :: exists n :: p == Pattern(n) && Reachable(installed, root, n)
    ensures Archived(root, installed, exclude, find, file)
  {
    hide Reachable, Pattern, Excludes, Bare;
    var i :| 0 <= i < |patterns| && !Excludes(patterns[i]) && Matches(find, patterns[i], file)
      && forall j | i < j < |patterns| :: Excludes(patterns[j]) ==> !Matches(find, patterns[j], file);
    assert i < 3 + |out|;
    forall e | e in exclude ensures file !in find(e) {
      var j :| 0 <= j < |exclude| && exclude[j] == e;
      assert !Matches(find, patterns[3 + |out| + j], file);
    }
    if i >= 3 {
      assert out[i - 3] in out;
    } else {
      assert i == 0 && !Matches(find, patterns[1], file) && !Matches(find, patterns[2], file);
    }
  }

  lemma ArchivedIsSelected(
    root: seq<string>, installed: Installed, exclude: seq<string>, find: string -> seq<string>, file: string,
    out: seq<string>, patterns: seq<string>)
    requires Lists(root, installed, exclude, out, patterns) && Archived(root, installed, exclude, find, file)
    requires forall n :: Reachable(installed, root, n) ==> Pattern(n) in out
    ensures Selected(find, patterns, file)
  {
    hide Reachable, Pattern, Excludes, Bare;
    forall j | 3 + |out| <= j < |patterns| ensures !Matches(find, patterns[j], file) {
      assert exclude[j - 3 - |out|] in exclude;
    }
    if n :| Reachable(installed, root, n) && file in find(Pattern(n)) {
      var i :| 0 <= i < |out| && out[i] == Pattern(n);
      assert Matches(find, patterns[3 + i], file) && !Excludes(patterns[3 + i]);
    } else {
      assert Matches(find, patterns[0], file);
      assert !Matches(find, patterns[1], file) && !Matches(find, patterns[2], file);
    }
  }

  lemma ArchivedIs(
    root: seq<string>, installed: Installed, exclude: seq<string>, find: string -> seq<string>, file: string,
    out: seq<string>)
    requires forall n :: Reachable(installed, root, n) ==> Pattern(n) in out
    requires forall p | p in out :: exists n :: p == Pattern(n) && Reachable(installed, root, n)
    ensures Selected(find, BASE_PATTERNS + out + Exclusions(exclude), file) <==>
            Archived(root, installed, exclude, find, file)
  {
    hide Reachable, Pattern, Selected, Archived, Lists;
    var patterns := BASE_PATTERNS + out + Exclusions(exclude);
    PatternsAre(root, installed, exclude, out);
    if Selected(find, patterns, file) { SelectedIsArchived(root, installed, exclude, find, file, out, patterns); }
    if Archived(root, installed, exclude, find, file) {
      ArchivedIsSelected(root, installed, exclude, find, file, out, patterns);
    }
  }

  lemma BaseIs(patterns: seq<string>)
    requires |patterns| >= 3 && forall i | 0 <= i < 3 :: patterns[i] == BASE_PATTERNS[i]
    ensures !Excludes(patterns[0]) && Bare(patterns[0]) == "**"
    ensures Excludes(patterns[1]) && Bare(patterns[1]) == "node_modules/**"
    ensures Excludes(patterns[2]) && Bare(patterns[2]) == "deploy.zip"
  {
    assert BASE_PATTERNS[0] == "**" && BASE_PATTERNS[1] == "!node_modules/**" && BASE_PATTERNS[2] == "!deploy.zip";
    assert "!node_modules/**"[1..] == "node_modules/**";
    assert "!deploy.zip"[1..] == "deploy.zip";
  }

  lemma {:induction false} ReachableIsNamed(installed: Installed, root: seq<string>, name: string)
    requires Reachable(installed, root, name)
    ensures name in Names(installed, root)
  {
    var path :| Chain(installed, root, path) && path[|path| - 1] == name;
    if |path| > 1 {
      var last := path[|path| - 2];
      assert path[|path| - 2 + 1] in Dependencies(installed, last);
      assert last in installed && name in installed[last];
    }
  }

  /** Of the packages named anywhere, the matcher takes `file` to lie in the directory of `name` only. */
  ghost predicate BelongsTo(
    find: string -> seq<string>, installed: Installed, root: seq<string>, file: string, name: string)
  {
    && file in find("node_modules/**") && file in find(Pattern(name))
    && forall n | n in Names(installed, root) && file in find(Pattern(n)) :: n == name
  }

  /** A file of an installed package is archived exactly when the package is reachable through packages
      that are not excluded, and no user pattern excludes the file. */
  lemma PackageFileArchived(
    root: seq<string>, installed: Installed, exclude: seq<string>, find: string -> seq<string>,
    file: string, name: string)
    requires BelongsTo(find, installed, root, file, name)
    ensures Archived(root, installed, exclude, find, file) <==>
            Reachable(installed, root, name) && forall e | e in exclude :: file !in find(e)
  {
    hide Reachable, Pattern, Names;
    if n :| Reachable(installed, root, n) && file in find(Pattern(n)) {
      ReachableIsNamed(installed, root, n);
    }
  }
}
