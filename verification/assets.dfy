/** Expansion of the comma-separated asset patterns into the list of files to
    upload. Glob matching and the `is_file` test belong to the host and are
    passed in: `glob` gives, per pattern, either a compile error or the
    sequence of match entries in the order the iterator yields them. */
module Assets {

  import opened Wrappers
  import opened Errors

  /** One item of glob's iterator: a path, or an error reading a directory. */
  datatype Entry = Path(path: string) | Unreadable

  datatype GlobResult = BadPattern | Matches(entries: seq<Entry>)

  /** The pattern compiled and every match entry is a path. */
  predicate Clean(g: GlobResult) {
    g.Matches? && forall k :: 0 <= k < |g.entries| ==> g.entries[k].Path?
  }

  predicate AllClean(patterns: seq<string>, glob: string -> GlobResult) {
    forall i :: 0 <= i < |patterns| ==> Clean(glob(patterns[i]))
  }

  /** Pattern `i` is the first one whose expansion fails. */
  predicate FirstUnclean(patterns: seq<string>, glob: string -> GlobResult, i: int) {
    && 0 <= i < |patterns|
    && (forall j :: 0 <= j < i ==> Clean(glob(patterns[j])))
    && !Clean(glob(patterns[i]))
  }

  /** The failure a non-clean expansion of `pattern` reports. */
  function GlobFailure(pattern: string, g: GlobResult): Error {
    if g.BadPattern? then GlobInvalid(pattern) else GlobEntryFailed(pattern)
  }

  // ---------------------------------------------------------------------------
  // Reference definition: concatenation of per-pattern regular files

  /** The paths among `entries` that are regular files, in match order. */
  function FilesOf(entries: seq<Entry>, isFile: string -> bool): (files: seq<string>)
    ensures forall k :: 0 <= k < |files| ==> isFile(files[k])
    decreases |entries|
  {
    if entries == [] then []
    else
      var head := if entries[0].Path? && isFile(entries[0].path) then [entries[0].path] else [];
      head + FilesOf(entries[1..], isFile)
  }

  /** The files of every pattern, in pattern order, duplicates kept. */
  function Expected(patterns: seq<string>, glob: string -> GlobResult, isFile: string -> bool): (files: seq<string>)
    ensures forall k :: 0 <= k < |files| ==> isFile(files[k])
    decreases |patterns|
  {
    if patterns == [] then []
    else
      var g := glob(patterns[0]);
      (if g.Matches? then FilesOf(g.entries, isFile) else []) + Expected(patterns[1..], glob, isFile)
  }

  /** Expansion distributes over concatenation of pattern lists, so nothing
      found for one pattern is dropped because another found it too. */
  lemma {:induction false} ExpectedAppend(p: seq<string>, q: seq<string>, glob: string -> GlobResult, isFile: string -> bool)
    ensures Expected(p + q, glob, isFile) == Expected(p, glob, isFile) + Expected(q, glob, isFile)
    decreases |p|
  {
    if p == [] {
      assert p + q == q;
    } else {
      assert (p + q)[0] == p[0];
      assert (p + q)[1..] == p[1..] + q;
      ExpectedAppend(p[1..], q, glob, isFile);
    }
  }

  /** A pattern listed twice contributes its files twice. */
  lemma RepeatedPatternRepeatsFiles(pattern: string, glob: string -> GlobResult, isFile: string -> bool)
    ensures Expected([pattern, pattern], glob, isFile)
      == Expected([pattern], glob, isFile) + Expected([pattern], glob, isFile)
  {
    ExpectedAppend([pattern], [pattern], glob, isFile);
  }

  // ---------------------------------------------------------------------------
  // The loop of `main`: push each regular file as it is matched

  /** The inner loop: walk the entries, aborting on an unreadable one and
      pushing each regular file onto `acc`. */
  function PushMatches(entries: seq<Entry>, isFile: string -> bool, acc: seq<string>): (r: Option<seq<string>>)
    ensures r.Some? ==> |acc| <= |r.value| && r.value[..|acc|] == acc
    ensures r.Some? ==> forall k :: |acc| <= k < |r.value| ==> isFile(r.value[k])
    decreases |entries|
  {
    if entries == [] then Some(acc)
    else match entries[0]
      case Unreadable => None
      case Path(p) => PushMatches(entries[1..], isFile, if isFile(p) then acc + [p] else acc)
  }

  /** The outer loop: compile each pattern in turn and run the inner loop. */
  function CollectFrom(patterns: seq<string>, glob: string -> GlobResult, isFile: string -> bool, acc: seq<string>): (r: Result<seq<string>, Error>)
    ensures r.Success? ==> |acc| <= |r.value| && r.value[..|acc|] == acc
    ensures r.Success? ==> forall k :: |acc| <= k < |r.value| ==> isFile(r.value[k])
    decreases |patterns|
  {
    if patterns == [] then Success(acc)
    else match glob(patterns[0])
      case BadPattern => Failure(GlobInvalid(patterns[0]))
      case Matches(entries) =>
        match PushMatches(entries, isFile, acc)
        case None => Failure(GlobEntryFailed(patterns[0]))
        case Some(acc') => CollectFrom(patterns[1..], glob, isFile, acc')
  }

  lemma {:induction false} PushMatchesSpec(entries: seq<Entry>, isFile: string -> bool, acc: seq<string>)
    ensures Clean(Matches(entries)) ==> PushMatches(entries, isFile, acc) == Some(acc + FilesOf(entries, isFile))
    ensures !Clean(Matches(entries)) ==> PushMatches(entries, isFile, acc).None?
    decreases |entries|
  {
    if entries == [] {
      assert acc + [] == acc;
    } else {
      var rest := entries[1..];
      assert Clean(Matches(entries)) <==> entries[0].Path? && Clean(Matches(rest)) by {
        if entries[0].Path? && Clean(Matches(rest)) {
          forall k | 0 <= k < |entries| ensures entries[k].Path? {
            if k > 0 { assert entries[k] == rest[k - 1]; }
          }
        }
        if Clean(Matches(entries)) {
          forall k | 0 <= k < |rest| ensures rest[k].Path? {
            assert rest[k] == entries[k + 1];
          }
        }
      }
      if entries[0].Path? {
        var p := entries[0].path;
        var acc' := if isFile(p) then acc + [p] else acc;
        PushMatchesSpec(rest, isFile, acc');
        assert acc' + FilesOf(rest, isFile) == acc + FilesOf(entries, isFile);
      }
    }
  }

  lemma {:induction false} CollectFromSpec(patterns: seq<string>, glob: string -> GlobResult, isFile: string -> bool, acc: seq<string>)
    ensures AllClean(patterns, glob) ==>
      CollectFrom(patterns, glob, isFile, acc) == Success(acc + Expected(patterns, glob, isFile))
    ensures forall i :: FirstUnclean(patterns, glob, i) ==>
      CollectFrom(patterns, glob, isFile, acc) == Failure(GlobFailure(patterns[i], glob(patterns[i])))
    decreases |patterns|
  {
    if patterns == [] {
      assert acc + [] == acc;
    } else {
      var g := glob(patterns[0]);
      var rest := patterns[1..];
      assert forall j :: 0 <= j < |rest| ==> rest[j] == patterns[j + 1];
      if g.Matches? {
        PushMatchesSpec(g.entries, isFile, acc);
        if Clean(g) {
          var acc' := acc + FilesOf(g.entries, isFile);
          CollectFromSpec(rest, glob, isFile, acc');
          if AllClean(patterns, glob) {
            assert AllClean(rest, glob);
            assert acc' + Expected(rest, glob, isFile) == acc + Expected(patterns, glob, isFile);
          }
          forall i | FirstUnclean(patterns, glob, i)
            ensures FirstUnclean(rest, glob, i - 1)
          {
            assert i != 0;
          }
        }
      }
    }
  }

  /** Every pattern is unclean or clean, so failure has a first culprit. */
  lemma {:induction false} SomeFirstUnclean(patterns: seq<string>, glob: string -> GlobResult)
    requires !AllClean(patterns, glob)
    ensures exists i :: FirstUnclean(patterns, glob, i)
    decreases |patterns|
  {
    if Clean(glob(patterns[0])) {
      var rest := patterns[1..];
      assert !AllClean(rest, glob) by {
        var i :| 0 <= i < |patterns| && !Clean(glob(patterns[i]));
        assert rest[i - 1] == patterns[i];
      }
      SomeFirstUnclean(rest, glob);
      var i :| FirstUnclean(rest, glob, i);
      assert FirstUnclean(patterns, glob, i + 1) by {
        forall j | 0 <= j < i + 1 ensures Clean(glob(patterns[j])) {
          if j > 0 { assert patterns[j] == rest[j - 1]; }
        }
      }
    } else {
      assert FirstUnclean(patterns, glob, 0);
    }
  }

  /** The asset list of a run: the regular files each pattern matches, in
      pattern order and then match order, with nothing removed; or the failure
      of the first pattern that does not compile or yields an unreadable entry. */
  function CollectAssets(patterns: seq<string>, glob: string -> GlobResult, isFile: string -> bool): (r: Result<seq<string>, Error>)
    ensures r.Success? <==> AllClean(patterns, glob)
    ensures r.Success? ==> r.value == Expected(patterns, glob, isFile)
    ensures r.Failure? ==> exists i :: FirstUnclean(patterns, glob, i) && r.error == GlobFailure(patterns[i], glob(patterns[i]))
  {
    CollectFromSpec(patterns, glob, isFile, []);
    assert !AllClean(patterns, glob) ==> exists i :: FirstUnclean(patterns, glob, i) by {
      if !AllClean(patterns, glob) { SomeFirstUnclean(patterns, glob); }
    }
    assert [] + Expected(patterns, glob, isFile) == Expected(patterns, glob, isFile);
    CollectFrom(patterns, glob, isFile, [])
  }
}
