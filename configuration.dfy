/** The configuration of the log aggregator once deserialized: source
    descriptors, pattern lists, the error type, and the validation that runs on
    a freshly loaded configuration (non-empty, named sources, deduplication by
    name, per-source access checks). */
module Configuration {
  import opened Results
  import opened Text

  type Path = string

  datatype SourceKind =
    | File(path: Path)
    | Command(command: string, args: seq<string>)

  datatype SourceConfig = SourceConfig(name: string, kind: SourceKind)

  /** The `io::ErrorKind` of a failed metadata query, as far as validation
      tells kinds apart. */
  datatype IoErrorKind = NotFound | PermissionDenied | Other

  /** What `fs::metadata` reports about an existing path. */
  datatype Metadata = Metadata(isFile: bool)

  /** The file system as validation sees it: `fs::metadata` on every path. */
  type MetadataOracle = Path -> Result<Metadata, IoErrorKind>

  /** The configuration errors. The underlying `io::Error` / YAML error causes
      are reduced to the error kind where validation looks at it.
      `InvalidRegex` is the error filter construction reports for a pattern of
      the `kind` list ("include" or "exclude") that does not compile. */
  datatype ConfigError =
    | Io(path: string)
    | Parse(path: string)
    | Invalid(message: string)
    | SourceFileNotFound(name: string, path: string)
    | SourceNotAFile(name: string, path: string)
    | SourceCommandEmpty(name: string)
    | SourceIo(name: string, path: string, cause: IoErrorKind)
    | SourceSpawn(name: string, command: string)
    | InvalidRegex(kind: string, pattern: string)

  const NoSourcesMessage: string := "At least one log source must be specified."
  const EmptyNameMessage: string := "Source name cannot be empty."

  // ---------------------------------------------------------------------------
  // Names and deduplication

  /** The set of names used by a list of sources. */
  function Names(s: seq<SourceConfig>): (r: set<string>)
  {
    set i | 0 <= i < |s| :: s[i].name
  }

  /** No name occurs at an earlier index than `i`. */
  predicate FirstOccurrence(s: seq<SourceConfig>, i: int)
    requires 0 <= i < |s|
  {
    forall j :: 0 <= j < i ==> s[j].name != s[i].name
  }

  predicate UniqueNames(s: seq<SourceConfig>)
  {
    forall i, j :: 0 <= i < j < |s| ==> s[i].name != s[j].name
  }

  predicate HasBlankName(s: seq<SourceConfig>)
  {
    exists i :: 0 <= i < |s| && IsBlank(s[i].name)
  }

  /** `idx` lists, in increasing order, the positions in `s` of the elements of `t`. */
  ghost predicate Embedding(t: seq<SourceConfig>, s: seq<SourceConfig>, idx: seq<int>)
  {
    && |idx| == |t|
    && (forall k :: 0 <= k < |idx| ==> 0 <= idx[k] < |s| && t[k] == s[idx[k]])
    && (forall k, l :: 0 <= k < l < |idx| ==> idx[k] < idx[l])
  }

  ghost predicate IsSubsequence(t: seq<SourceConfig>, s: seq<SourceConfig>)
  {
    exists idx :: Embedding(t, s, idx)
  }

  /** What `retain` with a set of seen names leaves of `s`: an element survives
      when its name was not seen among the elements before it. */
  function Dedup(s: seq<SourceConfig>): (r: seq<SourceConfig>)
    ensures |r| <= |s|
  {
    if s == [] then []
    else
      var init, last := s[..|s| - 1], s[|s| - 1];
      if last.name in Names(init) then Dedup(init) else Dedup(init) + [last]
  }

  lemma DedupSnoc(s: seq<SourceConfig>, x: SourceConfig)
    ensures Dedup(s + [x]) == if x.name in Names(s) then Dedup(s) else Dedup(s) + [x]
  {
    assert (s + [x])[..|s|] == s;
  }

  lemma NamesSnoc(s: seq<SourceConfig>, x: SourceConfig)
    ensures Names(s + [x]) == Names(s) + {x.name}
  {
    var t := s + [x];
    assert forall i :: 0 <= i < |s| ==> t[i] == s[i];
    assert t[|s|] == x;
  }

  lemma {:induction false} DedupPreservesNames(s: seq<SourceConfig>)
    ensures Names(Dedup(s)) == Names(s)
  {
    if s != [] {
      var init, last := s[..|s| - 1], s[|s| - 1];
      assert s == init + [last];
      DedupPreservesNames(init);
      NamesSnoc(init, last);
      if last.name !in Names(init) {
        NamesSnoc(Dedup(init), last);
      }
    }
  }

  lemma {:induction false} DedupUniqueNames(s: seq<SourceConfig>)
    ensures UniqueNames(Dedup(s))
  {
    if s != [] {
      var init, last := s[..|s| - 1], s[|s| - 1];
      DedupUniqueNames(init);
      DedupPreservesNames(init);
      var d := Dedup(init);
      if last.name !in Names(init) {
        var r := d + [last];
        forall i, j | 0 <= i < j < |r| ensures r[i].name != r[j].name {
          if j == |d| {
            assert r[i] == d[i];
            assert d[i].name in Names(d);
          } else {
            assert r[i] == d[i] && r[j] == d[j];
          }
        }
      }
    }
  }

  lemma {:induction false} DedupIsSubsequence(s: seq<SourceConfig>)
    ensures IsSubsequence(Dedup(s), s)
  {
    if s == [] {
      assert Embedding([], s, []);
    } else {
      var init, last := s[..|s| - 1], s[|s| - 1];
      DedupIsSubsequence(init);
      var d := Dedup(init);
      var idx :| Embedding(d, init, idx);
      if last.name in Names(init) {
        assert Embedding(Dedup(s), s, idx);
      } else {
        var idx' := idx + [|s| - 1];
        var r := d + [last];
        forall k | 0 <= k < |idx'| ensures 0 <= idx'[k] < |s| && r[k] == s[idx'[k]] {
          if k < |idx| {
            assert r[k] == d[k] && idx'[k] == idx[k];
          }
        }
        assert Embedding(r, s, idx');
      }
    }
  }

  /** Every first occurrence survives deduplication. */
  lemma {:induction false} DedupKeepsFirstOccurrences(s: seq<SourceConfig>)
    ensures forall i :: 0 <= i < |s| && FirstOccurrence(s, i) ==> s[i] in Dedup(s)
  {
    if s != [] {
      var init, last := s[..|s| - 1], s[|s| - 1];
      DedupKeepsFirstOccurrences(init);
      forall i | 0 <= i < |s| && FirstOccurrence(s, i) ensures s[i] in Dedup(s) {
        if i < |s| - 1 {
          assert s[i] == init[i];
          assert FirstOccurrence(init, i) by {
            forall j | 0 <= j < i ensures init[j].name != init[i].name {
              assert init[j] == s[j];
            }
          }
        } else {
          assert last.name !in Names(init) by {
            forall j | 0 <= j < |init| ensures init[j].name != last.name {
              assert init[j] == s[j];
            }
          }
        }
      }
    }
  }

  /** First occurrence wins: for any name, the entry that survives
      deduplication is the lowest-index input entry with that name. */
  lemma DedupSurvivorIsFirstOccurrence(s: seq<SourceConfig>, k: int, i: int)
    requires 0 <= k < |Dedup(s)| && 0 <= i < |s|
    requires FirstOccurrence(s, i) && s[i].name == Dedup(s)[k].name
    ensures Dedup(s)[k] == s[i]
  {
    DedupKeepsFirstOccurrences(s);
    DedupUniqueNames(s);
    var r := Dedup(s);
    var k' :| 0 <= k' < |r| && r[k'] == s[i];
    assert k' == k;
  }

  lemma {:induction false} DedupOfUniqueIsIdentity(s: seq<SourceConfig>)
    requires UniqueNames(s)
    ensures Dedup(s) == s
  {
    if s != [] {
      var init, last := s[..|s| - 1], s[|s| - 1];
      assert UniqueNames(init) by {
        forall i, j | 0 <= i < j < |init| ensures init[i].name != init[j].name {
          assert init[i] == s[i] && init[j] == s[j];
        }
      }
      DedupOfUniqueIsIdentity(init);
      assert last.name !in Names(init) by {
        forall j | 0 <= j < |init| ensures init[j].name != last.name {
          assert init[j] == s[j];
        }
      }
      assert s == init + [last];
    }
  }

  lemma DedupIdempotent(s: seq<SourceConfig>)
    ensures Dedup(Dedup(s)) == Dedup(s)
  {
    DedupUniqueNames(s);
    DedupOfUniqueIsIdentity(Dedup(s));
  }

  lemma NamesUpdateSameName(s: seq<SourceConfig>, j: int, x: SourceConfig)
    requires 0 <= j < |s| && x.name == s[j].name
    ensures Names(s[j := x]) == Names(s)
  {
    var s' := s[j := x];
    assert forall w :: 0 <= w < |s| ==> s'[w].name == s[w].name;
  }

  /** Replacing an entry that is not a first occurrence by any entry of the same
      name does not change what deduplication keeps. */
  lemma {:induction false} DedupIgnoresLaterDuplicate(s: seq<SourceConfig>, j: int, x: SourceConfig)
    requires 0 <= j < |s| && !FirstOccurrence(s, j) && x.name == s[j].name
    ensures Dedup(s[j := x]) == Dedup(s)
  {
    var init, last := s[..|s| - 1], s[|s| - 1];
    var w :| 0 <= w < j && s[w].name == s[j].name;
    assert s == init + [last];
    if j == |s| - 1 {
      assert s[j := x] == init + [x];
      assert init[w].name in Names(init);
      DedupSnoc(init, x);
      DedupSnoc(init, last);
    } else {
      var init' := init[j := x];
      assert s[j := x] == init' + [last];
      assert init[w] == s[w] && init[j] == s[j];
      DedupIgnoresLaterDuplicate(init, j, x);
      NamesUpdateSameName(init, j, x);
      DedupSnoc(init', last);
      DedupSnoc(init, last);
    }
  }

  // ---------------------------------------------------------------------------
  // Per-source checks

  /** A source passes its access check: a file path names an existing regular
      file; a command is not blank. */
  predicate SourceOk(s: SourceConfig, metadata: MetadataOracle)
  {
    match s.kind
    case File(path) => metadata(path) == Ok(Metadata(true))
    case Command(command, _) => !IsBlank(command)
  }

  /** The error the check of one source reports, if any. */
  function SourceError(s: SourceConfig, metadata: MetadataOracle): (e: Option<ConfigError>)
    ensures e.None? <==> SourceOk(s, metadata)
  {
    match s.kind
    case File(path) =>
      (match metadata(path)
       case Err(NotFound) => Some(SourceFileNotFound(s.name, path))
       case Err(kind) => Some(SourceIo(s.name, path, kind))
       case Ok(meta) => if !meta.isFile then Some(SourceNotAFile(s.name, path)) else None)
    case Command(command, _) =>
      if IsBlank(command) then Some(SourceCommandEmpty(s.name)) else None
  }

  /** Which error a failing source reports: a missing file, any other
      metadata failure, an existing path that is not a regular file, or a blank
      command; each names the source and, for a file, its path. */
  lemma SourceErrorKinds(s: SourceConfig, metadata: MetadataOracle)
    ensures var e := SourceError(s, metadata);
      && (e.Some? && e.value.SourceFileNotFound? <==>
          s.kind.File? && metadata(s.kind.path) == Err(NotFound))
      && (e.Some? && e.value.SourceIo? <==>
          s.kind.File? && metadata(s.kind.path).Err? && metadata(s.kind.path).error != NotFound)
      && (e.Some? && e.value.SourceNotAFile? <==>
          s.kind.File? && metadata(s.kind.path) == Ok(Metadata(false)))
      && (e.Some? && e.value.SourceCommandEmpty? <==>
          s.kind.Command? && IsBlank(s.kind.command))
      && (e.Some? ==>
          && (e.value.SourceFileNotFound? || e.value.SourceNotAFile? || e.value.SourceIo? || e.value.SourceCommandEmpty?)
          && e.value.name == s.name)
      && (e.Some? && s.kind.File? ==> e.value.path == s.kind.path)
      && (e.Some? && e.value.SourceIo? ==> s.kind.File? && e.value.cause == metadata(s.kind.path).error)
  {
  }

  /** Source `i` is the first in list order to fail its check. */
  predicate FirstFailing(s: seq<SourceConfig>, i: int, metadata: MetadataOracle)
    requires 0 <= i < |s|
  {
    !SourceOk(s[i], metadata) && forall j :: 0 <= j < i ==> SourceOk(s[j], metadata)
  }

  /** What `validate_sources` returns: the sources are checked in order and the
      error of the first one that fails is reported. */
  function SourcesOutcome(s: seq<SourceConfig>, metadata: MetadataOracle): (r: Result<(), ConfigError>)
    ensures r.Ok? <==> forall i :: 0 <= i < |s| ==> SourceOk(s[i], metadata)
    ensures forall i :: 0 <= i < |s| && FirstFailing(s, i, metadata) ==>
      r == Err(SourceError(s[i], metadata).value)
  {
    if s == [] then Ok(())
    else
      match SourceError(s[0], metadata)
      case Some(e) => Err(e)
      case None =>
        var r := SourcesOutcome(s[1..], metadata);
        assert forall i :: 1 <= i < |s| && FirstFailing(s, i, metadata) ==>
          FirstFailing(s[1..], i - 1, metadata) && s[1..][i - 1] == s[i];
        r
  }

  // ---------------------------------------------------------------------------
  // The whole validation

  /** What `validate` returns for a configuration whose sources are `s`. */
  function ValidateOutcome(s: seq<SourceConfig>, metadata: MetadataOracle): (r: Result<(), ConfigError>)
    ensures s == [] ==> r == Err(Invalid(NoSourcesMessage))
    ensures s != [] && HasBlankName(s) ==> r == Err(Invalid(EmptyNameMessage))
    ensures r.Ok? ==>
      s != [] && !HasBlankName(s) && forall k :: 0 <= k < |Dedup(s)| ==> SourceOk(Dedup(s)[k], metadata)
    ensures s != [] && !HasBlankName(s) && (forall k :: 0 <= k < |Dedup(s)| ==> SourceOk(Dedup(s)[k], metadata))
      ==> r.Ok?
    ensures s != [] && !HasBlankName(s) ==>
      forall k :: 0 <= k < |Dedup(s)| && FirstFailing(Dedup(s), k, metadata) ==>
        r == Err(SourceError(Dedup(s)[k], metadata).value)
  {
    if s == [] then Err(Invalid(NoSourcesMessage))
    else if HasBlankName(s) then Err(Invalid(EmptyNameMessage))
    else
      SourcesOutcome(Dedup(s), metadata)
  }

  /** The sources of a configuration that validation accepted. */
  ghost predicate ValidSources(s: seq<SourceConfig>, metadata: MetadataOracle)
  {
    && s != []
    && (forall i :: 0 <= i < |s| ==> !IsBlank(s[i].name))
    && UniqueNames(s)
    && (forall i :: 0 <= i < |s| ==> s[i].kind.File? ==> metadata(s[i].kind.path) == Ok(Metadata(true)))
    && (forall i :: 0 <= i < |s| ==> s[i].kind.Command? ==> !IsBlank(s[i].kind.command))
  }

  /** A validated configuration is non-empty, has non-blank distinct names,
      regular files for its file sources and non-blank commands. */
  lemma ValidateSound(s: seq<SourceConfig>, metadata: MetadataOracle)
    requires ValidateOutcome(s, metadata).Ok?
    ensures ValidSources(Dedup(s), metadata)
  {
    var d := Dedup(s);
    assert s != [] && !HasBlankName(s);
    assert forall k :: 0 <= k < |d| ==> SourceOk(d[k], metadata);
    DedupUniqueNames(s);
    DedupIsSubsequence(s);
    var idx :| Embedding(d, s, idx);
    forall k | 0 <= k < |d|
      ensures !IsBlank(d[k].name)
      ensures d[k].kind.File? ==> metadata(d[k].kind.path) == Ok(Metadata(true))
      ensures d[k].kind.Command? ==> !IsBlank(d[k].kind.command)
    {
      assert d[k] == s[idx[k]];
      assert SourceOk(d[k], metadata);
    }
    assert d != [] by {
      DedupKeepsFirstOccurrences(s);
      assert FirstOccurrence(s, 0);
      assert s[0] in d;
    }
  }

  /** A duplicate that deduplication drops cannot make validation fail: the
      outcome is the same whatever kind (path, command) it carries. */
  lemma ValidateIgnoresLaterDuplicate(s: seq<SourceConfig>, j: int, kind: SourceKind, metadata: MetadataOracle)
    requires 0 <= j < |s| && !FirstOccurrence(s, j)
    ensures ValidateOutcome(s[j := SourceConfig(s[j].name, kind)], metadata) == ValidateOutcome(s, metadata)
  {
    var x := SourceConfig(s[j].name, kind);
    var s' := s[j := x];
    DedupIgnoresLaterDuplicate(s, j, x);
    assert forall w :: 0 <= w < |s| ==> s'[w].name == s[w].name;
    assert HasBlankName(s') == HasBlankName(s);
  }

  // ---------------------------------------------------------------------------
  // The deserialized configuration

  /** A loaded configuration. `validate` rewrites `sources` in place; the other
      fields are never changed after loading. */
  class Config {
    /** Declared, but not read by the modelled code. */
    const follow: bool
    const includes: seq<string>
    const excludes: seq<string>
    var sources: seq<SourceConfig>

    constructor (follow: bool, includes: seq<string>, excludes: seq<string>, sources: seq<SourceConfig>)
      ensures this.follow == follow && this.includes == includes && this.excludes == excludes
      ensures this.sources == sources
    {
      this.follow := follow;
      this.includes := includes;
      this.excludes := excludes;
      this.sources := sources;
    }

    /** `dedup_sources_by_name`: `retain` the sources whose name the set of seen
        names did not hold yet, inserting each name as it goes. */
    method DedupSourcesByName()
      modifies this
      ensures sources == Dedup(old(sources))
    {
      var all := sources;
      var seen: set<string> := {};
      var kept: seq<SourceConfig> := [];
      var i := 0;
      while i < |all|
        invariant 0 <= i <= |all|
        invariant seen == Names(all[..i])
        invariant kept == Dedup(all[..i])
      {
        var s := all[i];
        var inserted := s.name !in seen;
        seen := seen + {s.name};
        if inserted {
          kept := kept + [s];
        }
        assert all[..i + 1] == all[..i] + [s];
        NamesSnoc(all[..i], s);
        i := i + 1;
      }
      assert all[..i] == all;
      sources := kept;
    }

    /** `validate_sources`: checks each source in list order and returns the
        error of the first one that fails; reads only. */
    method ValidateSources(metadata: MetadataOracle) returns (r: Result<(), ConfigError>)
      ensures r == SourcesOutcome(sources, metadata)
    {
      var i := 0;
      while i < |sources|
        invariant 0 <= i <= |sources|
        invariant forall j :: 0 <= j < i ==> SourceOk(sources[j], metadata)
      {
        var e := SourceError(sources[i], metadata);
        if e.Some? {
          assert FirstFailing(sources, i, metadata);
          return Err(e.value);
        }
        i := i + 1;
      }
      assert SourcesOutcome(sources, metadata).Ok? && SourcesOutcome(sources, metadata).value == ();
      return Ok(());
    }

    /** `validate`: rejects an empty source list, then any blank name (all
        entries, duplicates included), then deduplicates the sources in place
        and checks what is left. */
    method Validate(metadata: MetadataOracle) returns (r: Result<(), ConfigError>)
      modifies this
      ensures r == ValidateOutcome(old(sources), metadata)
      ensures sources == if old(sources) != [] && !HasBlankName(old(sources))
                         then Dedup(old(sources)) else old(sources)
    {
      ghost var loaded := sources;
      if |sources| == 0 {
        return Err(Invalid(NoSourcesMessage));
      }
      var i := 0;
      while i < |sources|
        invariant 0 <= i <= |sources| && sources == loaded
        invariant forall j :: 0 <= j < i ==> !IsBlank(sources[j].name)
      {
        if IsBlank(sources[i].name) {
          assert HasBlankName(loaded);
          return Err(Invalid(EmptyNameMessage));
        }
        i := i + 1;
      }
      assert !HasBlankName(loaded);
      DedupSourcesByName();
      r := ValidateSources(metadata);
    }
  }
}
