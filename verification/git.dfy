/**
 The two read-only git operations of `git_tool.py`, `git_status` and
 `git_log_recent`, with the run of the git executable abstracted as a
 `ProcessOutcome` value given to them.
 */
module Git {

  import opened Wrappers
  import opened Strings
  import opened Lines
  import opened Seqs

  /** The field delimiter `%x1f` of the log format: ASCII unit separator. */
  const UnitSeparator: char := '\U{001F}'

  /** The command the tool asks git to run. `LogCommand` carries the
      requested commit count, which only git itself acts on. */
  datatype Command =
    | StatusCommand(repoPath: string)
    | LogCommand(repoPath: string, count: int)

  /** What one run of the git executable came to. `output` is the captured
      text, standard error merged into standard output; `description` is
      the text of the exception Python raised (`str(e)`), left opaque. */
  datatype ProcessOutcome =
    | Completed(output: string)
      // git exited with status 0
    | ProcessError(output: string, description: string)
      // git exited with a non-zero status (CalledProcessError)
    | OtherError(description: string)
      // anything else: no git executable, the 10-second timeout,
      // undecodable output. A missing directory or a non-repository is a
      // ProcessError: the path goes to git through -C and git exits non-zero.

  datatype Commit = Commit(hash: string, author: string, date: string, message: string)

  /** Result of `git_status`: the dict `{"status_lines": [...]}` or `{"error": ...}`. */
  datatype StatusResult =
    | StatusLines(lines: seq<string>)
    | StatusError(error: string)

  /** One dict of the list `git_log_recent` returns: a commit record, or
      the single `{"error": ...}` entry of a failed run. */
  datatype LogEntry =
    | CommitEntry(commit: Commit)
    | ErrorEntry(error: string)

  predicate FieldsFree(c: Commit, ch: char)
  {
    ch !in c.hash && ch !in c.author && ch !in c.date && ch !in c.message
  }

  /** The line git prints for `c` under `--pretty=format:%H%x1f%an%x1f%ad%x1f%s`. */
  function FormatLine(c: Commit): string
  {
    Join([c.hash, c.author, c.date, c.message], UnitSeparator)
  }

  /** One line of log output: split on the unit separator; with at least
      four fields it becomes a commit of the first four, otherwise it is
      dropped. */
  function ParseLine(line: string): (r: Option<Commit>)
    ensures r.Some? <==> Count(line, UnitSeparator) >= 3
  {
    SplitCount(line, UnitSeparator);
    var parts := Split(line, UnitSeparator);
    if |parts| >= 4 then Some(Commit(parts[0], parts[1], parts[2], parts[3])) else None
  }

  /** The commits of a list of log lines, in line order. */
  function ParseCommits(lines: seq<string>): seq<Commit>
  {
    FilterMap(lines, ParseLine)
  }

  /** The parse loop of `git_log_recent`: one record appended per line that
      has at least four fields. */
  method CollectCommits(lines: seq<string>) returns (commits: seq<Commit>)
    ensures commits == ParseCommits(lines)
  {
    commits := [];
    var i := 0;
    while i < |lines|
      invariant 0 <= i <= |lines|
      invariant commits == ParseCommits(lines[..i])
    {
      assert lines[..i + 1] == lines[..i] + [lines[i]];
      FilterMapAppend(lines[..i], [lines[i]], ParseLine);
      FilterMapLast([lines[i]], ParseLine);
      var parsed := ParseLine(lines[i]);
      if parsed.Some? {
        commits := commits + [parsed.value];
      }
      i := i + 1;
    }
    assert lines[..i] == lines;
  }

  /** `git_status`: the output's lines on success, the captured output on a
      non-zero exit, the exception text on any other failure. */
  function GitStatus(outcome: ProcessOutcome): (r: StatusResult)
    ensures r.StatusLines? <==> outcome.Completed?
    ensures outcome.ProcessError? ==> r.error == outcome.output
    ensures outcome.OtherError? ==> r.error == outcome.description
    ensures r.StatusLines? ==>
      && |r.lines| <= |outcome.output|
      && forall k :: 0 <= k < |r.lines| ==> NoBreak(r.lines[k])
  {
    match outcome
    case Completed(out) => StatusLines(SplitLines(out))
    case ProcessError(out, _) => StatusError(out)
    case OtherError(msg) => StatusError(msg)
  }

  /** `git_log_recent`: one commit entry per well-formed output line on
      success; on any failure, a non-zero exit included, a list holding
      exactly one error entry with the exception text. */
  function GitLogRecent(outcome: ProcessOutcome): (r: seq<LogEntry>)
    ensures outcome.Completed? ==>
      && |r| <= |SplitLines(outcome.output)|
      && forall k :: 0 <= k < |r| ==> r[k].CommitEntry?
    ensures !outcome.Completed? ==> r == [ErrorEntry(outcome.description)]
  {
    match outcome
    case Completed(out) =>
      var commits := ParseCommits(SplitLines(out));
      seq(|commits|, k requires 0 <= k < |commits| => CommitEntry(commits[k]))
    case _ => [ErrorEntry(outcome.description)]
  }

  // ---------------------------------------------------------------------
  // Properties of the log-line parser

  /** The fields of a parsed line are exactly its first four
      separator-free pieces: re-joined with the separator they form a prefix
      of the line that ends at the end of the line or at a fourth separator,
      after which everything is discarded. */
  lemma ParseLineFields(line: string)
    requires ParseLine(line).Some?
    ensures var c := ParseLine(line).value;
      var f := FormatLine(c);
      && FieldsFree(c, UnitSeparator)
      && |f| <= |line| && line[..|f|] == f
      && (|f| == |line| || line[|f|] == UnitSeparator)
  {
    var parts := Split(line, UnitSeparator);
    JoinOfSplit(line, UnitSeparator);
    var c := Commit(parts[0], parts[1], parts[2], parts[3]);
    assert parts[..4] == [c.hash, c.author, c.date, c.message];
    if |parts| > 4 {
      JoinAt(parts, 4, UnitSeparator);
    } else {
      assert parts == parts[..4];
    }
  }

  /** The parse keeps, in order and once each, exactly the lines with at
      least three unit separators: the k-th commit is the parse of the k-th
      kept line, and the kept line indices strictly increase. */
  lemma ParseCommitsKeepsWellFormedLines(lines: seq<string>)
    ensures var idx := KeptIndices(lines, ParseLine);
      && |idx| == |ParseCommits(lines)|
      && (forall k :: 0 <= k < |idx| ==>
            idx[k] < |lines| && ParseLine(lines[idx[k]]) == Some(ParseCommits(lines)[k]))
      && (forall k, l :: 0 <= k < l < |idx| ==> idx[k] < idx[l])
      && (forall i :: 0 <= i < |lines| ==>
            (i in idx <==> Count(lines[i], UnitSeparator) >= 3))
  {
    FilterMapSpec(lines, ParseLine);
  }

  /** On success, log returns the commits of the kept output lines and
      nothing else: the k-th entry is the parse of the k-th kept line, kept
      lines come in increasing order, and a line is kept exactly when it has
      at least three unit separators, so a malformed line drops only itself. */
  lemma LogKeepsParsedLines(out: string)
    ensures var lines := SplitLines(out);
      var idx := KeptIndices(lines, ParseLine);
      var r := GitLogRecent(Completed(out));
      && |r| == |idx|
      && (forall k :: 0 <= k < |idx| ==>
            && idx[k] < |lines| && ParseLine(lines[idx[k]]).Some?
            && r[k] == CommitEntry(ParseLine(lines[idx[k]]).value))
      && (forall k, l :: 0 <= k < l < |idx| ==> idx[k] < idx[l])
      && (forall i :: 0 <= i < |lines| ==>
            (i in idx <==> Count(lines[i], UnitSeparator) >= 3))
  {
    ParseCommitsKeepsWellFormedLines(SplitLines(out));
  }

  /** A formatted commit whose fields hold no unit separator parses back
      to itself. */
  lemma ParseFormatLine(c: Commit)
    requires FieldsFree(c, UnitSeparator)
    ensures ParseLine(FormatLine(c)) == Some(c)
  {
    SplitOfJoin([c.hash, c.author, c.date, c.message], UnitSeparator);
  }

  /** Fields past the fourth are discarded: a subject that itself contains
      a unit separator is cut at it. */
  lemma MessageTruncated(c: Commit, extra: string)
    requires FieldsFree(c, UnitSeparator)
    ensures ParseLine(FormatLine(c) + [UnitSeparator] + extra) == Some(c)
  {
    var us := UnitSeparator;
    var fields := [c.hash, c.author, c.date, c.message];
    var parts := Split(extra, us);
    var all := fields + parts;
    JoinAt(all, 4, us);
    assert all[..4] == fields;
    assert all[4..] == parts;
    JoinOfSplit(extra, us);
    SplitOfJoin(all, us);
    assert Split(FormatLine(c) + [us] + extra, us) == all;
  }

  // ---------------------------------------------------------------------
  // End-to-end: what git prints comes back as the same records

  /** The log output's lines, one per commit, in the given order. */
  function FormatLines(commits: seq<Commit>): (lines: seq<string>)
    ensures |lines| == |commits|
    ensures forall k :: 0 <= k < |commits| ==> lines[k] == FormatLine(commits[k])
  {
    if commits == [] then []
    else
      var n := |commits| - 1;
      FormatLines(commits[..n]) + [FormatLine(commits[n])]
  }

  lemma FormatLineNoBreak(c: Commit)
    requires NoBreak(c.hash) && NoBreak(c.author) && NoBreak(c.date) && NoBreak(c.message)
    ensures NoBreak(FormatLine(c)) && FormatLine(c) != ""
  {
    var fields := [c.hash, c.author, c.date, c.message];
    // U+001F is not a line boundary (U+001C..U+001E are)
    assert !IsLineBreak(UnitSeparator);
    NoBreakJoin(fields, UnitSeparator);
    JoinAt(fields, 1, UnitSeparator);
  }

  /** Formatted commits whose fields hold no unit separator parse back to
      the same commits, in the same order. */
  lemma {:induction false} ParseFormatLines(commits: seq<Commit>)
    requires forall k :: 0 <= k < |commits| ==> FieldsFree(commits[k], UnitSeparator)
    ensures ParseCommits(FormatLines(commits)) == commits
  {
    var lines := FormatLines(commits);
    forall k | 0 <= k < |lines|
      ensures ParseLine(lines[k]) == Some(commits[k])
    {
      ParseFormatLine(commits[k]);
    }
    FilterMapAllDefined(lines, commits, ParseLine);
  }

  /** Line splitting recovers the formatted lines from git's output, in
      which they are separated by line feeds. */
  lemma {:induction false} SplitFormattedLog(commits: seq<Commit>)
    requires forall k :: 0 <= k < |commits| ==>
      NoBreak(commits[k].hash) && NoBreak(commits[k].author)
      && NoBreak(commits[k].date) && NoBreak(commits[k].message)
    ensures SplitLines(Join(FormatLines(commits), '\n')) == FormatLines(commits)
  {
    var lines := FormatLines(commits);
    forall k | 0 <= k < |lines|
      ensures NoBreak(lines[k]) && lines[k] != ""
    {
      FormatLineNoBreak(commits[k]);
    }
    SplitLinesOfJoin(lines);
  }

  /** When git succeeds with the lines of the log format, separated by line
      feeds, the tool returns one record per commit, in git's order, with
      every field intact, provided no field contains the unit separator or
      a line boundary. */
  lemma LogRoundTrip(commits: seq<Commit>)
    requires forall k :: 0 <= k < |commits| ==>
      && FieldsFree(commits[k], UnitSeparator)
      && NoBreak(commits[k].hash) && NoBreak(commits[k].author)
      && NoBreak(commits[k].date) && NoBreak(commits[k].message)
    ensures var r := GitLogRecent(Completed(Join(FormatLines(commits), '\n')));
      && |r| == |commits|
      && forall k :: 0 <= k < |r| ==> r[k] == CommitEntry(commits[k])
  {
    SplitFormattedLog(commits);
    ParseFormatLines(commits);
  }

  /** When git succeeds with porcelain entries each ending in a line feed,
      status returns exactly those entries, in order, empty ones included. */
  lemma {:induction false} StatusRoundTrip(lines: seq<string>)
    requires forall k :: 0 <= k < |lines| ==> NoBreak(lines[k])
    ensures GitStatus(Completed(Terminated(lines))) == StatusLines(lines)
  {
    SplitLinesOfTerminated(lines);
  }

}
