/** The filter engine: include/exclude pattern lists compiled once from the
    configuration, and the classification of each line against them. Regular
    expressions are not interpreted: whether a pattern compiles and whether a
    compiled expression matches a line are oracles passed in as functions. */
module FilterEngine {
  import opened Results
  import opened Configuration

  /** A compiled regular expression, known by the pattern it was compiled from. */
  datatype Regex = Regex(pattern: string)

  /** `Regex::new` succeeds on this pattern. */
  type CompileOracle = string -> bool

  /** `Regex::is_match`: the compiled expression matches somewhere in the line. */
  type MatchOracle = (Regex, string) -> bool

  datatype Filters = Filters(includes: seq<Regex>, excludes: seq<Regex>)

  datatype FilterDecision =
    | Excluded               // matched an exclude pattern; counted as excluded
    | Included               // matched an include pattern
    | Passed                 // the include list is empty and no exclude pattern matched
    | DroppedNoIncludeMatch  // matched none of a non-empty include list

  /** Some expression of the list matches the line. */
  ghost predicate SomeMatch(res: seq<Regex>, line: string, isMatch: MatchOracle)
  {
    exists i :: 0 <= i < |res| && isMatch(res[i], line)
  }

  /** `res.iter().any(|re| re.is_match(line))`, tried in list order. */
  function AnyMatch(res: seq<Regex>, line: string, isMatch: MatchOracle): (r: bool)
    ensures r <==> SomeMatch(res, line, isMatch)
  {
    if res == [] then false
    else if isMatch(res[0], line) then true
    else
      var r := AnyMatch(res[1..], line, isMatch);
      assert forall i :: 1 <= i < |res| ==> res[1..][i - 1] == res[i];
      r
  }

  /** `Filters::classify`: exclusion first, then an empty include list passes
      everything, else a line must match an include pattern. */
  function Classify(f: Filters, line: string, isMatch: MatchOracle): (d: FilterDecision)
    ensures SomeMatch(f.excludes, line, isMatch) ==> d == Excluded
    ensures d == Excluded ==> SomeMatch(f.excludes, line, isMatch)
    ensures d == Passed <==> !SomeMatch(f.excludes, line, isMatch) && f.includes == []
    ensures d == Included ==> !SomeMatch(f.excludes, line, isMatch) && SomeMatch(f.includes, line, isMatch)
    ensures !SomeMatch(f.excludes, line, isMatch) && SomeMatch(f.includes, line, isMatch) ==> d == Included
    ensures d == DroppedNoIncludeMatch ==>
      !SomeMatch(f.excludes, line, isMatch) && f.includes != [] && !SomeMatch(f.includes, line, isMatch)
    ensures !SomeMatch(f.excludes, line, isMatch) && f.includes != [] && !SomeMatch(f.includes, line, isMatch) ==>
      d == DroppedNoIncludeMatch
    ensures f.includes == [] ==> d != DroppedNoIncludeMatch && d != Included
    ensures f.includes != [] ==> d != Passed
  {
    if AnyMatch(f.excludes, line, isMatch) then Excluded
    else if |f.includes| == 0 then Passed
    else if AnyMatch(f.includes, line, isMatch) then Included
    else DroppedNoIncludeMatch
  }

  /** `Filters::matches`: whether the line is to be printed. */
  function Matches(f: Filters, line: string, isMatch: MatchOracle): (r: bool)
    ensures r <==> Classify(f, line, isMatch) == Included || Classify(f, line, isMatch) == Passed
    ensures !r <==> Classify(f, line, isMatch) == Excluded || Classify(f, line, isMatch) == DroppedNoIncludeMatch
    ensures r ==> !SomeMatch(f.excludes, line, isMatch)
    ensures !SomeMatch(f.excludes, line, isMatch) && f.includes == [] ==> r
  {
    match Classify(f, line, isMatch)
    case Included | Passed => true
    case _ => false
  }

  /** Every pattern of the list compiles. */
  ghost predicate AllCompile(patterns: seq<string>, compiles: CompileOracle)
  {
    forall i :: 0 <= i < |patterns| ==> compiles(patterns[i])
  }

  /** Pattern `k` is the first of the list that does not compile. */
  ghost predicate FirstBad(patterns: seq<string>, k: int, compiles: CompileOracle)
    requires 0 <= k < |patterns|
  {
    !compiles(patterns[k]) && forall j :: 0 <= j < k ==> compiles(patterns[j])
  }

  /** `res` holds, index for index, the expressions compiled from `patterns`. */
  ghost predicate CompiledFrom(res: seq<Regex>, patterns: seq<string>)
  {
    |res| == |patterns| && forall i :: 0 <= i < |res| ==> res[i] == Regex(patterns[i])
  }

  /** `Filters::from_config`: compiles every include pattern, then every
      exclude pattern, in order, and stops at the first that does not compile. */
  method FromConfig(cfg: Config, compiles: CompileOracle) returns (r: Result<Filters, ConfigError>)
    ensures r.Ok? ==> AllCompile(cfg.includes, compiles) && AllCompile(cfg.excludes, compiles)
    ensures AllCompile(cfg.includes, compiles) && AllCompile(cfg.excludes, compiles) ==> r.Ok?
    ensures r.Ok? ==> CompiledFrom(r.value.includes, cfg.includes) && CompiledFrom(r.value.excludes, cfg.excludes)
    ensures forall k :: 0 <= k < |cfg.includes| && FirstBad(cfg.includes, k, compiles) ==>
      r == Err(InvalidRegex("include", cfg.includes[k]))
    ensures AllCompile(cfg.includes, compiles) ==>
      forall k :: 0 <= k < |cfg.excludes| && FirstBad(cfg.excludes, k, compiles) ==>
        r == Err(InvalidRegex("exclude", cfg.excludes[k]))
  {
    var includes: seq<Regex> := [];
    var excludes: seq<Regex> := [];

    for i := 0 to |cfg.includes|
      invariant CompiledFrom(includes, cfg.includes[..i])
      invariant AllCompile(cfg.includes[..i], compiles)
    {
      var pattern := cfg.includes[i];
      if !compiles(pattern) {
        assert FirstBad(cfg.includes, i, compiles) by {
          assert forall j :: 0 <= j < i ==> cfg.includes[..i][j] == cfg.includes[j];
        }
        return Err(InvalidRegex("include", pattern));
      }
      includes := includes + [Regex(pattern)];
      assert cfg.includes[..i + 1] == cfg.includes[..i] + [pattern];
    }
    assert cfg.includes[..|cfg.includes|] == cfg.includes;

    for i := 0 to |cfg.excludes|
      invariant CompiledFrom(excludes, cfg.excludes[..i])
      invariant AllCompile(cfg.excludes[..i], compiles)
    {
      var pattern := cfg.excludes[i];
      if !compiles(pattern) {
        assert FirstBad(cfg.excludes, i, compiles) by {
          assert forall j :: 0 <= j < i ==> cfg.excludes[..i][j] == cfg.excludes[j];
        }
        return Err(InvalidRegex("exclude", pattern));
      }
      excludes := excludes + [Regex(pattern)];
      assert cfg.excludes[..i + 1] == cfg.excludes[..i] + [pattern];
    }
    assert cfg.excludes[..|cfg.excludes|] == cfg.excludes;

    return Ok(Filters(includes, excludes));
  }

  // ---------------------------------------------------------------------------
  // Worked examples

  /** `needle` occurs in `line`. A pattern without regular-expression
      metacharacters matches exactly the lines that contain it. */
  predicate Contains(line: string, needle: string)
    decreases |line|
  {
    needle <= line || (line != [] && Contains(line[1..], needle))
  }

  /** The match oracle for patterns made of plain letters, spaces and colons. */
  predicate LiteralMatch(re: Regex, line: string)
  {
    Contains(line, re.pattern)
  }

  /** A line that lacks the first character of `needle` does not contain it. */
  lemma {:induction false} MissingFirstCharNotContained(line: string, needle: string)
    requires needle != [] && forall i :: 0 <= i < |line| ==> line[i] != needle[0]
    ensures !Contains(line, needle)
  {
    if line != [] {
      assert line[0] != needle[0];
      assert forall i :: 0 <= i < |line| - 1 ==> line[1..][i] == line[i + 1];
      MissingFirstCharNotContained(line[1..], needle);
    }
  }

  /** Exclude "DEBUG" and include "ERROR": the exclusion wins on a line with both. */
  lemma DebugErrorExample()
    ensures Classify(Filters([Regex("ERROR")], [Regex("DEBUG")]), "DEBUG ERROR", LiteralMatch) == Excluded
  {
    var f := Filters([Regex("ERROR")], [Regex("DEBUG")]);
    assert LiteralMatch(f.excludes[0], "DEBUG ERROR");
  }

  /** Exclude "DEBUG" and include "ERROR": a line with only "ERROR" is included. */
  lemma ErrorOccurredExample()
    ensures Classify(Filters([Regex("ERROR")], [Regex("DEBUG")]), "ERROR occurred", LiteralMatch) == Included
  {
    var f := Filters([Regex("ERROR")], [Regex("DEBUG")]);
    MissingFirstCharNotContained("ERROR occurred", "DEBUG");
    assert !SomeMatch(f.excludes, "ERROR occurred", LiteralMatch);
    assert LiteralMatch(f.includes[0], "ERROR occurred");
  }

  /** Exclude "DEBUG" and include "ERROR": a line with neither is dropped. */
  lemma TraceExample()
    ensures Classify(Filters([Regex("ERROR")], [Regex("DEBUG")]), "trace", LiteralMatch) == DroppedNoIncludeMatch
  {
    var f := Filters([Regex("ERROR")], [Regex("DEBUG")]);
    MissingFirstCharNotContained("trace", "DEBUG");
    MissingFirstCharNotContained("trace", "ERROR");
    assert !SomeMatch(f.excludes, "trace", LiteralMatch);
    assert !SomeMatch(f.includes, "trace", LiteralMatch);
  }

  /** Include ["error", "warn"]: "error: x" is printed. */
  lemma IncludedLineExample()
    ensures Classify(Filters([Regex("error"), Regex("warn")], []), "error: x", LiteralMatch) == Included
    ensures Matches(Filters([Regex("error"), Regex("warn")], []), "error: x", LiteralMatch)
  {
    var a := Filters([Regex("error"), Regex("warn")], []);
    assert LiteralMatch(a.includes[0], "error: x");
  }

  /** Include ["error", "warn"]: "info: y" matches neither and is dropped. */
  lemma DroppedLineExample()
    ensures Classify(Filters([Regex("error"), Regex("warn")], []), "info: y", LiteralMatch) == DroppedNoIncludeMatch
    ensures !Matches(Filters([Regex("error"), Regex("warn")], []), "info: y", LiteralMatch)
  {
    var a := Filters([Regex("error"), Regex("warn")], []);
    var line := "info: y";
    MissingFirstCharNotContained(line, a.includes[0].pattern);
    MissingFirstCharNotContained(line, a.includes[1].pattern);
    assert !SomeMatch(a.includes, line, LiteralMatch) by {
      assert forall i :: 0 <= i < |a.includes| ==> !LiteralMatch(a.includes[i], line);
    }
  }
}
