/** processPatterns of lib/util/file.js: an ordered list of inclusions and '!' exclusions over what a
    matcher finds. */
module FilePatterns {
  import opened Sequences

  predicate Excludes(pattern: string) {
    pattern != [] && pattern[0] == '!'
  }

  /** The pattern handed to the matcher. */
  function Bare(pattern: string): string {
    if Excludes(pattern) then pattern[1..] else pattern
  }

  predicate Matches(find: string -> seq<string>, pattern: string, file: string) {
    file in find(Bare(pattern))
  }

  /** Some inclusion names the file and no exclusion behind it does. */
  ghost predicate Selected(find: string -> seq<string>, patterns: seq<string>, file: string) {
    exists i :: 0 <= i < |patterns| && !Excludes(patterns[i]) && Matches(find, patterns[i], file)
      && forall j | i < j < |patterns| :: Excludes(patterns[j]) ==> !Matches(find, patterns[j], file)
  }

  lemma SelectedStep(find: string -> seq<string>, patterns: seq<string>, k: nat, file: string)
    requires k < |patterns|
    ensures Selected(find, patterns[..k + 1], file) <==>
            if Matches(find, patterns[k], file) then !Excludes(patterns[k]) else Selected(find, patterns[..k], file)
  {
    hide Matches, Excludes;
    var now, next := patterns[..k], patterns[..k + 1];
    assert forall i | 0 <= i < k :: next[i] == now[i];
    assert next[k] == patterns[k];
    if Selected(find, next, file) {
      var i :| 0 <= i < |next| && !Excludes(next[i]) && Matches(find, next[i], file)
        && forall j | i < j < |next| :: Excludes(next[j]) ==> !Matches(find, next[j], file);
      assert i < k ==> Matches(find, now[i], file);
    }
    if Selected(find, now, file) {
      var i :| 0 <= i < |now| && !Excludes(now[i]) && Matches(find, now[i], file)
        && forall j | i < j < |now| :: Excludes(now[j]) ==> !Matches(find, now[j], file);
      assert Matches(find, next[i], file);
    }
  }

  /** `result.indexOf(file)`, or the length when it is not there. */
  method IndexOf(result: seq<string>, file: string) returns (pos: nat)
    ensures pos <= |result| && (pos < |result| ==> result[pos] == file)
    ensures pos == |result| ==> file !in result
  {
    pos := 0;
    while pos < |result| && result[pos] != file
      invariant pos <= |result| && forall i | 0 <= i < pos :: result[i] != file
    {
      pos := pos + 1;
    }
  }

  lemma Spliced(s: seq<string>, pos: nat)
    requires NoDup(s) && pos < |s|
    ensures NoDup(s[..pos] + s[pos + 1..])
    ensures forall f :: f in s[..pos] + s[pos + 1..] <==> f in s && f != s[pos]
  {
    var r := s[..pos] + s[pos + 1..];
    assert forall i | 0 <= i < |r| :: r[i] == s[if i < pos then i else i + 1];
    forall f | f in s && f != s[pos] ensures f in r {
      var i :| 0 <= i < |s| && s[i] == f;
      assert r[if i < pos then i else i - 1] == f;
    }
  }

  lemma Pushed(s: seq<string>, file: string)
    requires NoDup(s) && file !in s
    ensures NoDup(s + [file])
    ensures forall f :: f in s + [file] <==> f in s || f == file
  {
  }

  /** The files found, each once: those with an inclusion that no later exclusion undoes. */
  method ProcessPatterns(patterns: seq<string>, find: string -> seq<string>) returns (result: seq<string>)
    ensures NoDup(result)
    ensures forall file :: file in result <==> Selected(find, patterns, file)
  {
    result := [];
    for k := 0 to |patterns|
      invariant NoDup(result)
      invariant forall file :: file in result <==> Selected(find, patterns[..k], file)
    {
      var exclusion := Excludes(patterns[k]);
      var matches := find(Bare(patterns[k]));
      ghost var before := result;
      for m := 0 to |matches|
        invariant NoDup(result)
        invariant forall file :: file in result <==> if file in matches[..m] then !exclusion else file in before
      {
        var file := matches[m];
        assert matches[..m + 1] == matches[..m] + [file];
        var pos := IndexOf(result, file);
        if pos < |result| && exclusion {
          Spliced(result, pos);
          result := result[..pos] + result[pos + 1..];
        } else if pos == |result| && !exclusion {
          Pushed(result, file);
          result := result + [file];
        }
      }
      assert matches[..|matches|] == matches;
      forall file ensures file in result <==> Selected(find, patterns[..k + 1], file) {
        SelectedStep(find, patterns, k, file);
      }
    }
    assert patterns[..|patterns|] == patterns;
  }
}
