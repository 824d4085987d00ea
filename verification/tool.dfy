/**
 The `git_tool` entry point: it folds the action name to lower case and
 routes "status" and "log"; results are the dicts and lists the Python
 functions return, modelled as a small tree of values.
 */
module Tool {

  import opened Ascii
  import opened Git
  import opened Wrappers
  import Lines
  import Seqs
  import Strings

  /** A returned Python value: a string, a list, or a dict with string keys. */
  datatype Value =
    | Str(text: string)
    | List(items: seq<Value>)
    | Dict(fields: map<string, Value>)

  /** The one failure `git_tool` lets escape. */
  datatype ToolError = ValueError(message: string)

  /** A call of `git_tool` either returns a value or raises. */
  datatype Response =
    | Returned(value: Value)
    | Raised(error: ToolError)

  const UnsupportedAction: string := "Unsupported git action. Use 'status' or 'log'."

  function StrList(lines: seq<string>): Value
  {
    List(seq(|lines|, k requires 0 <= k < |lines| => Str(lines[k])))
  }

  /** The dict `git_status` returns. */
  function StatusValue(r: StatusResult): (v: Value)
    ensures v.Dict?
    ensures r.StatusLines? ==> v.fields == map["status_lines" := StrList(r.lines)]
    ensures r.StatusError? ==> v.fields == map["error" := Str(r.error)]
  {
    match r
    case StatusLines(lines) => Dict(map["status_lines" := StrList(lines)])
    case StatusError(e) => Dict(map["error" := Str(e)])
  }

  /** The dict of one commit record. */
  function CommitValue(c: Commit): (v: Value)
    ensures v.Dict? && v.fields.Keys == {"hash", "author", "date", "message"}
    ensures v.fields == map["hash" := Str(c.hash), "author" := Str(c.author),
                            "date" := Str(c.date), "message" := Str(c.message)]
  {
    Dict(map["hash" := Str(c.hash), "author" := Str(c.author),
             "date" := Str(c.date), "message" := Str(c.message)])
  }

  /** The dict of one entry of the list `git_log_recent` returns. */
  function EntryValue(e: LogEntry): Value
  {
    match e
    case CommitEntry(c) => CommitValue(c)
    case ErrorEntry(msg) => Dict(map["error" := Str(msg)])
  }

  /** The list `git_log_recent` returns. */
  function LogValue(entries: seq<LogEntry>): (v: Value)
    ensures v.List? && |v.items| == |entries|
    ensures forall k :: 0 <= k < |entries| ==> v.items[k] == EntryValue(entries[k])
  {
    List(seq(|entries|, k requires 0 <= k < |entries| => EntryValue(entries[k])))
  }

  /** `git_tool(action, repo_path, n)`, with the git executable given as
      the function `git` from the command run to its outcome. Folding the
      action decides the route; only an unsupported action raises, and then
      with the fixed message whatever the other arguments are. */
  function GitTool(action: string, repoPath: string, n: int,
                   git: Command -> ProcessOutcome): (r: Response)
    ensures r.Raised? <==> ToLower(action) != "status" && ToLower(action) != "log"
    ensures r.Raised? ==> r.error == ValueError(UnsupportedAction)
    ensures ToLower(action) == "status" ==>
      r == Returned(StatusValue(GitStatus(git(StatusCommand(repoPath)))))
    ensures ToLower(action) == "log" ==>
      r == Returned(Dict(map["commits" := LogValue(GitLogRecent(git(LogCommand(repoPath, n))))]))
  {
    var folded := ToLower(action);
    if folded == "status" then
      Returned(StatusValue(GitStatus(git(StatusCommand(repoPath)))))
    else if folded == "log" then
      Returned(Dict(map["commits" := LogValue(GitLogRecent(git(LogCommand(repoPath, n))))]))
    else
      Raised(ValueError(UnsupportedAction))
  }

  // ---------------------------------------------------------------------
  // Properties of the dispatcher

  /** The action is matched without regard to case: any spelling of
      "status" or "log" with capitals behaves like the lower-case name. */
  lemma DispatchIgnoresCase(action: string, repoPath: string, n: int,
                            git: Command -> ProcessOutcome)
    ensures IsCaseVariant(action, "status") ==>
      GitTool(action, repoPath, n, git) == GitTool("status", repoPath, n, git)
    ensures IsCaseVariant(action, "log") ==>
      GitTool(action, repoPath, n, git) == GitTool("log", repoPath, n, git)
  {
    ToLowerMatches(action, "status");
    ToLowerMatches(action, "log");
    ToLowerMatches("status", "status");
    ToLowerMatches("log", "log");
  }

  /** An action that is no spelling of "status" or "log" raises the same
      error for every repository path, count and git behaviour, and git is
      never consulted. */
  lemma UnsupportedActionRaises(action: string, repoPath: string, n: int,
                                git: Command -> ProcessOutcome,
                                repoPath': string, n': int,
                                git': Command -> ProcessOutcome)
    requires !IsCaseVariant(action, "status") && !IsCaseVariant(action, "log")
    ensures GitTool(action, repoPath, n, git) == Raised(ValueError(UnsupportedAction))
    ensures GitTool(action, repoPath, n, git) == GitTool(action, repoPath', n', git')
  {
    ToLowerMatches(action, "status");
    ToLowerMatches(action, "log");
  }

  /** A status call returns a dict with the single key "status_lines" when
      git succeeds and the single key "error" otherwise; it never raises. */
  lemma StatusShape(repoPath: string, n: int, git: Command -> ProcessOutcome)
    ensures var r := GitTool("status", repoPath, n, git);
      && r.Returned? && r.value.Dict?
      && (git(StatusCommand(repoPath)).Completed? ==> r.value.fields.Keys == {"status_lines"})
      && (!git(StatusCommand(repoPath)).Completed? ==> r.value.fields.Keys == {"error"})
  {
    ToLowerMatches("status", "status");
  }

  /** A log call returns a dict with the single key "commits". When git
      succeeds, every element of that list is a four-key commit record;
      when it fails, the list holds exactly one dict, keyed "error". It
      never raises. */
  lemma LogShape(repoPath: string, n: int, git: Command -> ProcessOutcome)
    ensures var r := GitTool("log", repoPath, n, git);
      && r.Returned? && r.value.Dict? && r.value.fields.Keys == {"commits"}
      && var list := r.value.fields["commits"];
      && list.List?
      && (git(LogCommand(repoPath, n)).Completed? ==>
            forall k :: 0 <= k < |list.items| ==>
              list.items[k].Dict?
              && list.items[k].fields.Keys == {"hash", "author", "date", "message"})
      && (!git(LogCommand(repoPath, n)).Completed? ==>
            |list.items| == 1
            && list.items[0] == Dict(map["error" := Str(git(LogCommand(repoPath, n)).description)]))
  {
    ToLowerMatches("log", "log");
    var entries := GitLogRecent(git(LogCommand(repoPath, n)));
    var list := LogValue(entries);
    if git(LogCommand(repoPath, n)).Completed? {
      forall k | 0 <= k < |list.items|
        ensures list.items[k].Dict?
        ensures list.items[k].fields.Keys == {"hash", "author", "date", "message"}
      {
        assert list.items[k] == EntryValue(entries[k]);
        assert entries[k].CommitEntry?;
      }
    }
  }

  /** When git completes, the k-th dict under "commits" holds the first four
      unit-separated pieces of the k-th kept output line under "hash",
      "author", "date" and "message", and there is one dict per kept line. */
  lemma LogItemsAreParsedLines(repoPath: string, n: int, git: Command -> ProcessOutcome)
    requires git(LogCommand(repoPath, n)).Completed?
    ensures var lines := Lines.SplitLines(git(LogCommand(repoPath, n)).output);
      var idx := Seqs.KeptIndices(lines, ParseLine);
      var r := GitTool("log", repoPath, n, git);
      && r.Returned? && r.value.Dict? && "commits" in r.value.fields
      && var list := r.value.fields["commits"];
      && list.List? && |list.items| == |idx|
      && forall k :: 0 <= k < |idx| ==>
           && idx[k] < |lines|
           && var p := Strings.Split(lines[idx[k]], UnitSeparator);
           && |p| >= 4
           && list.items[k] == Dict(map["hash" := Str(p[0]), "author" := Str(p[1]),
                                        "date" := Str(p[2]), "message" := Str(p[3])])
  {
    ToLowerMatches("log", "log");
    var out := git(LogCommand(repoPath, n)).output;
    LogKeepsParsedLines(out);
    var lines := Lines.SplitLines(out);
    var idx := Seqs.KeptIndices(lines, ParseLine);
    var entries := GitLogRecent(git(LogCommand(repoPath, n)));
    var list := LogValue(entries);
    forall k | 0 <= k < |idx|
      ensures var p := Strings.Split(lines[idx[k]], UnitSeparator);
        && |p| >= 4
        && list.items[k] == Dict(map["hash" := Str(p[0]), "author" := Str(p[1]),
                                     "date" := Str(p[2]), "message" := Str(p[3])])
    {
      var p := Strings.Split(lines[idx[k]], UnitSeparator);
      assert ParseLine(lines[idx[k]]) == Some(Commit(p[0], p[1], p[2], p[3]));
      assert entries[k] == CommitEntry(Commit(p[0], p[1], p[2], p[3]));
    }
  }

  /** The two operations report a failed run in different shapes: status
      as `{"error": ...}`, log as `{"commits": [{"error": ...}]}`. For a
      non-zero exit the texts differ in origin too: status carries git's
      captured output, log the exception's description. */
  lemma ErrorShapesDiffer(repoPath: string, n: int, git: Command -> ProcessOutcome)
    requires !git(StatusCommand(repoPath)).Completed?
    requires !git(LogCommand(repoPath, n)).Completed?
    ensures var s := GitTool("status", repoPath, n, git);
      var st := git(StatusCommand(repoPath));
      s == Returned(Dict(map["error" := Str(if st.ProcessError? then st.output else st.description)]))
    ensures var l := GitTool("log", repoPath, n, git);
      l == Returned(Dict(map["commits" :=
             List([Dict(map["error" := Str(git(LogCommand(repoPath, n)).description)])])]))
    ensures GitTool("status", repoPath, n, git) != GitTool("log", repoPath, n, git)
  {
    ToLowerMatches("status", "status");
    ToLowerMatches("log", "log");
    var l := GitTool("log", repoPath, n, git);
    assert LogValue(GitLogRecent(git(LogCommand(repoPath, n)))).items
        == [Dict(map["error" := Str(git(LogCommand(repoPath, n)).description)])];
    assert "commits" in l.value.fields;
    assert "commits" !in GitTool("status", repoPath, n, git).value.fields;
  }
}
