# logscout — a Dafny model of its line filter, configuration validation and statistics

logscout is a command-line log aggregator. It reads lines from several sources
(files, or the standard output of commands), classifies each line against
include and exclude patterns, and counts the lines it sees. This project models
three sequential parts of it and proves their properties:

- **The filter engine** (`filters.dfy`, module `FilterEngine`). `Filters` holds
  the compiled include list and exclude list. `Classify` gives each line one of
  four decisions:
  - `Excluded`: some exclude pattern matches. Exclusion is checked first.
  - `Passed`: no exclude pattern matches and the include list is empty.
  - `Included`: no exclude pattern matches and some include pattern matches.
  - `DroppedNoIncludeMatch`: nothing above applies.

  `Matches` says whether a line is printed. `FromConfig` compiles the
  configuration's patterns in order: all include patterns first, then all
  exclude patterns. It stops at the first pattern that does not compile.
- **Configuration validation** (`configuration.dfy`, module `Configuration`,
  class `Config`). It starts from a configuration that is already loaded.
  `Validate` runs these steps in order and stops at the first failure:
  1. reject an empty source list;
  2. reject a source whose name is blank after trimming. Every entry is
     checked, duplicates included;
  3. deduplicate the sources by exact name, in place, keeping each name's first
     occurrence;
  4. check each remaining source in order. A file must exist and be a regular
     file. A command must not be blank.
- **Statistics** (`stats.dfy`, module `Statistics`, class `Stats`). Three
  unsigned 64-bit counters: `total`, `included` and `excluded`. They start at
  0 and are incremented one at a time. `Snapshot` reads them all.

The supporting modules are small:
- `Text` (`text.dfy`) models Rust's `char::is_whitespace` and `str::trim`.
- `Results` (`results.dfy`) holds the `Result` and `Option` types.

The behaviour the model cannot see is passed in as function parameters:
- `compiles: string -> bool` says whether `Regex::new` accepts a pattern.
- `isMatch: (Regex, string) -> bool` is `Regex::is_match`.
- `metadata: Path -> Result<Metadata, IoErrorKind>` is `fs::metadata` over a
  fixed file system.

The code and its own types disagree in one place:
- `src/filters.rs:34-47` builds `ConfigError::InvalidRegex { kind, pattern,
  source }`.
- The `ConfigError` enum in `src/config.rs:51-94` has no such variant.
- The model adds `InvalidRegex(kind, pattern)` to `ConfigError`, where `kind`
  is `"include"` or `"exclude"`.

The Rust fields `include` and `exclude` are named `includes` and `excludes`
here, because `include` is a Dafny keyword.

## Model

| member | source | states |
|---|---|---|
| FilterEngine.AnyMatch | src/filters.rs:63 | `iter().any(is_match)` over a pattern list is true exactly when some expression of the list matches the line |
| FilterEngine.Classify | src/filters.rs:61-77 | A matching exclude pattern gives `Excluded`, whatever the include list holds, and `Excluded` only comes from such a match. `Passed` holds iff no exclude matches and the include list is empty. With no exclude match, `Included` holds iff some include matches, and `DroppedNoIncludeMatch` holds iff the include list is non-empty and none matches. An empty include list never gives `Included` or `DroppedNoIncludeMatch`. A non-empty one never gives `Passed` |
| FilterEngine.Matches | src/filters.rs:80-85 | True exactly for `Included` and `Passed`; false exactly for `Excluded` and `DroppedNoIncludeMatch`. A printed line matches no exclude pattern. With no exclude match and no include patterns, the line is printed |
| FilterEngine.FromConfig | src/filters.rs:29-52 | Succeeds iff every include and every exclude pattern compiles. On success, each list has the configuration list's length and holds at each index the expression compiled from that pattern. Otherwise the error is `InvalidRegex("include", p)` for the first failing include `p`. If every include compiles, it is `InvalidRegex("exclude", p)` for the first failing exclude `p` |
| FilterEngine.DebugErrorExample | src/filters.rs:62-65 | Exclude "DEBUG", include "ERROR": "DEBUG ERROR" is `Excluded`, although an include pattern matches too |
| FilterEngine.ErrorOccurredExample | src/filters.rs:72-73 | Exclude "DEBUG", include "ERROR": "ERROR occurred" is `Included` |
| FilterEngine.TraceExample | src/filters.rs:74-76 | Exclude "DEBUG", include "ERROR": "trace" is `DroppedNoIncludeMatch` |
| FilterEngine.IncludedLineExample | src/filters.rs:72-85 | Include "error" and "warn": "error: x" is `Included` and printed |
| FilterEngine.DroppedLineExample | src/filters.rs:74-85 | Include "error" and "warn": "info: y" is `DroppedNoIncludeMatch` and not printed |
| Text.TrimStart | src/config.rs:125 | The result is a suffix of the input. Everything removed is whitespace. The result does not start with whitespace |
| Text.TrimEnd | src/config.rs:125 | The result is a prefix of the input. Everything removed is whitespace. The result does not end with whitespace |
| Text.Trim | src/config.rs:125 | The result is no longer than the input and neither starts nor ends with whitespace. It is empty iff every character of the input is whitespace |
| Text.TrimIsSlice | src/config.rs:125 | The result of `trim` is the slice of the input between its leading and its trailing whitespace: some `a` exists such that the result is `s[a..a + |Trim(s)|]`, everything before `a` is whitespace and everything after the slice is whitespace |
| Text.BlankAllWhitespace | src/config.rs:185 | `IsBlank(s)`, the test validation applies to names and commands, holds iff each character of `s` satisfies `IsWhitespace`. `IsWhitespace` is Rust's `char::is_whitespace`: U+0009 to U+000D, space, U+0085, U+00A0, U+1680, U+2000 to U+200A, U+2028, U+2029, U+202F, U+205F and U+3000, the Unicode White_Space characters |
| Text.TrimEmptyIffBlank | src/config.rs:125 | `s.trim().is_empty()` holds exactly for blank strings, the emptiness test that validation writes as `IsBlank` |
| Configuration.Dedup | src/config.rs:137-141 | Deduplication never lengthens the list |
| Configuration.DedupPreservesNames | src/config.rs:137-141 | Every name of the input is still present after deduplication, and no other name is |
| Configuration.DedupUniqueNames | src/config.rs:137-141 | After deduplication the names are pairwise distinct |
| Configuration.DedupIsSubsequence | src/config.rs:140 | The result is a subsequence of the input, in the original order, given by strictly increasing indices |
| Configuration.DedupKeepsFirstOccurrences | src/config.rs:139-140 | Every source whose name has no earlier occurrence survives |
| Configuration.DedupSurvivorIsFirstOccurrence | src/config.rs:139-140 | For each name, the surviving entry is the input entry of lowest index with that name. Names are compared exactly, untrimmed |
| Configuration.DedupOfUniqueIsIdentity | src/config.rs:140 | On a list whose names are already distinct, deduplication changes nothing |
| Configuration.DedupIdempotent | src/config.rs:140 | Deduplicating twice gives the same list as deduplicating once |
| Configuration.DedupIgnoresLaterDuplicate | src/config.rs:140 | Replacing an entry that is not a first occurrence by any entry with the same name does not change the deduplicated list |
| Configuration.Config.DedupSourcesByName | src/config.rs:137-141 | The `retain` loop with its set of seen names leaves exactly the deduplicated list in `sources` |
| Configuration.SourceError | src/config.rs:148-191 | A source reports no error exactly when it passes its check: an existing regular file, or a non-blank command |
| Configuration.SourceErrorKinds | src/config.rs:154-189 | A missing file gives `SourceFileNotFound`. Any other metadata failure, permission denied included, gives `SourceIo` carrying that error kind. An existing non-regular file gives `SourceNotAFile`. A blank command gives `SourceCommandEmpty`. Each iff, each naming the source and, for a file, its path |
| Configuration.SourcesOutcome | src/config.rs:144-195 | `Ok` iff every source passes its check. Otherwise the error is that of the first failing source in list order |
| Configuration.Config.ValidateSources | src/config.rs:144-195 | The loop over `sources` returns what `SourcesOutcome` gives for them, and changes nothing |
| Configuration.ValidateOutcome | src/config.rs:115-134 | An empty list fails with `Invalid("At least one log source must be specified.")`. Otherwise, any blank name, duplicates included, fails with `Invalid("Source name cannot be empty.")`. Otherwise the outcome is `Ok` iff every deduplicated source passes its check. On failure, the first failing deduplicated source decides the error |
| Configuration.Config.Validate | src/config.rs:115-134 | Returns `ValidateOutcome` of the loaded sources. `sources` becomes the deduplicated list when the first two checks pass, and is untouched when they fail |
| Configuration.ValidateSound | src/config.rs:115-195 | After a successful validation, the sources are non-empty and have non-blank, pairwise distinct names. Every file source is a regular file and every command is non-blank |
| Configuration.ValidateIgnoresLaterDuplicate | src/config.rs:130-131 | A duplicate that deduplication drops cannot change the outcome, whatever path or command it carries |
| Configuration.Config.constructor | src/config.rs:11-25 | A deserialized configuration holds the given `follow` flag, pattern lists and sources |
| Statistics.WrappingIncrement | src/stats.rs:24-34 | Below 2^64-1 the counter grows by exactly one. At 2^64-1 it wraps to 0 |
| Statistics.Stats.constructor | src/stats.rs:16-22 | All three counters start at 0 |
| Statistics.Stats.IncTotal | src/stats.rs:24-26 | `total` takes one wrapping step and `included` and `excluded` are unchanged |
| Statistics.Stats.IncIncluded | src/stats.rs:28-30 | `included` takes one wrapping step and the other counters are unchanged |
| Statistics.Stats.IncExcluded | src/stats.rs:32-34 | `excluded` takes one wrapping step and the other counters are unchanged |
| Statistics.Stats.Snapshot | src/stats.rs:36-42 | Returns `(total, included, excluded)` in that order and modifies nothing |
| Statistics.RunCounts | src/stats.rs:24-34 | Without wrap-around, each counter ends exactly as many steps higher as the run had increments of it |
| Statistics.RunMonotone | src/stats.rs:24-34 | Without wrap-around, no counter decreases between two observations |

## Left out

- `Config::from_file` (src/config.rs:98-113) is not modelled: it reads a file and parses YAML, both foreign calls. The `Io` and `Parse` error variants are declared but never produced.
- `src/reader.rs` is not modelled: it is threads, file and process I/O and a channel, with no decision logic.
- `src/main.rs` is not modelled: it is argument reading and printing.
- `src/logline.rs` is not modelled: it is a plain record with a clock timestamp.
- logscout has no loop that consumes lines yet: `main.rs` only loads and prints the configuration (src/main.rs:15-34), so the `total ≥ included + excluded` accounting has nothing to be stated about.
- Regular expressions are not interpreted. Compiling and matching are the `compiles` and `isMatch` parameters. The examples use literal substring matching, which is how plain-letter patterns behave.
- `fs::metadata` is the `metadata` parameter: one fixed snapshot of the file system. A file changing between two checks is not modelled.
- `io::ErrorKind` is reduced to `NotFound`, `PermissionDenied` and `Other`. The `io::Error`, `regex::Error` and YAML error values carried as sources are dropped, so `SourceIo` keeps only the kind and `InvalidRegex` keeps no cause.
- Paths are strings, standing for `path.display().to_string()`.
- `SourceSpawn` is declared but never produced: the code marks it unused.
- The `follow` flag is kept in `Config`, but nothing reads it.
- `Ordering::Relaxed` and the thread safety of the atomics are not modelled. Each increment is one sequential field update.
- Statistics.RunCounts: holds only while no counter passes 2^64-1. The increments themselves are modelled with wrap-around, as `fetch_add` does.
- Statistics.RunMonotone: holds only while no counter passes 2^64-1, for the same reason.
- Configuration.Config.DedupSourcesByName: the model builds the kept list and assigns it. It does not reproduce `retain` moving elements within the vector's own buffer.
- Filters has no mutable state, so it is a datatype rather than a class.
