# git_tool in Dafny

A model of `git_tool.py`, a small tool that exposes two read-only git
operations to an agent framework. `git_status` reports the repository's
porcelain status lines. `git_log_recent` reports recent commits as
`{hash, author, date, message}` records. The `git_tool` entry point folds
the action name to lower case and routes `"status"` and `"log"` to those two
operations. Failures of the git run come back as data. Only an unsupported
action raises.

The git executable is not modelled. Each run is a `ProcessOutcome` value:
- `Completed(output)`: exit status 0.
- `ProcessError(output, description)`: a non-zero exit, raised by Python as
  `CalledProcessError`. It carries the captured text and the exception's own
  text, because status reports the first and log the second. A missing
  directory or a directory that is not a repository lands here: the path
  goes to git through `-C`, and git itself exits non-zero.
- `OtherError(description)`: any other exception, such as a missing git
  executable, the 10-second timeout or a decoding error.

The entry point receives git as a function `git: Command -> ProcessOutcome`.
This keeps visible which command (status or log, with which repository path
and count) each route asks for.

Modules, one file each:
- `wrappers.dfy`: `Option`.
- `strings.dfy`: `str.split(sep)` for a one-character separator, and `sep.join`.
- `lines.dfy`: `str.splitlines()`, with Python's full set of line boundaries.
- `seqs.dfy`: a generic order-preserving filter-map, and the lemmas about it.
- `ascii.dfy`: case folding of the action name.
- `git.dfy`: commit records, the log-line parser, `git_status` and
  `git_log_recent`.
- `tool.dfy`: the returned dicts and lists as a small value tree, and the
  `git_tool` dispatcher.

Two consequences of the code worth stating:
- `split` is called without a limit and only `parts[0..3]` are read, so a
  subject containing U+001F is cut there (`Git.MessageTruncated`).
- A timeout raises `TimeoutExpired`, which the generic `except Exception`
  branch handles, so it is an `OtherError`.

## Model

| member | source | states |
|---|---|---|
| Strings.Split | git_tool.py:44 | `line.split("\x1f")` gives at least one piece, and no piece contains the separator |
| Strings.SplitCount | git_tool.py:44-45 | splitting gives exactly one more piece than there are separators, so `len(parts) >= 4` means at least three separators |
| Strings.JoinOfSplit | git_tool.py:44 | joining the pieces back with the separator gives the original line, so splitting loses nothing |
| Strings.SplitOfJoin | git_tool.py:44 | separator-free pieces joined with the separator split back into exactly those pieces |
| Lines.SplitLines | git_tool.py:20 | `splitlines()` gives no more lines than the text has characters, none for empty text, and no line contains a line boundary |
| Lines.SplitLinesOfTerminated | git_tool.py:20 | text whose lines each end in a line feed splits back into exactly those lines, in order, empty ones included |
| Lines.SplitLinesOfJoin | git_tool.py:43 | lines separated by line feeds split back into the same lines when the last one is non-empty |
| Git.ParseLine | git_tool.py:44-46 | a log line yields a commit exactly when it contains at least three unit separators; otherwise it is dropped |
| Git.ParseLineFields | git_tool.py:44-46 | a parsed record's fields contain no separator, and re-joined they are a prefix of the line that ends at the line's end or at a fourth separator: hash, author, date and message are fields 0-3 in that order |
| Git.MessageTruncated | git_tool.py:44-46 | anything from a fourth separator on is dropped, so a subject that contains the separator is truncated there |
| Git.ParseFormatLine | git_tool.py:40-46 | a line printed with the format `%H%x1f%an%x1f%ad%x1f%s` parses back to the same commit when no field contains the separator |
| Git.CollectCommits | git_tool.py:42-47 | the append loop over the lines builds exactly the filter-map `ParseCommits` of the lines |
| Git.ParseCommitsKeepsWellFormedLines | git_tool.py:42-47 | the k-th commit is the parse of the k-th kept line; kept line indices strictly increase, so nothing is reordered or duplicated; a line is kept exactly when it has at least three separators |
| Seqs.FilterMapSpec | git_tool.py:43-46 | a filter-map keeps, in order and once each, exactly the elements whose conversion is defined |
| Seqs.FilterMapAppend | git_tool.py:43-46 | the parse is line-local: parsing two line lists one after the other gives the two commit lists one after the other (the parse loop's step uses it) |
| Seqs.FilterMapAllDefined | git_tool.py:43-46 | when every line converts, the result is the plain element-wise map |
| Git.ParseFormatLines | git_tool.py:42-47 | formatted commits parse back to the same commits in the same order |
| Git.SplitFormattedLog | git_tool.py:41-43 | line splitting recovers the formatted lines from git's line-feed-separated log output |
| Git.GitStatus | git_tool.py:18-25 | status gives lines exactly when git completed; a non-zero exit gives the captured output as the error, and any other failure gives the exception text; the lines contain no boundaries and are no more than the output's length |
| Git.StatusRoundTrip | git_tool.py:19-21 | when git prints porcelain entries each ending in a line feed, status returns exactly those entries, in order |
| Git.GitLogRecent | git_tool.py:39-49 | on success every entry is a commit, and there are no more entries than output lines; on any failure, a non-zero exit included, the result is exactly one error entry holding the exception text |
| Git.LogKeepsParsedLines | git_tool.py:42-47 | on success the k-th entry is the commit parsed from the k-th kept output line, kept lines in increasing order, and a line is kept exactly when it has at least three separators: one malformed line drops only itself |
| Git.LogRoundTrip | git_tool.py:40-47 | when git prints the log format for some commits, log returns one record per commit, in git's order, with every field intact, if no field contains the separator or a line boundary |
| Ascii.ToLowerMatches | git_tool.py:65 | folding gives the lower-case word `t` exactly when the action spells `t` with any letters in capitals |
| Tool.StatusValue | git_tool.py:21-25 | the status dict is `{status_lines: <the lines, in order>}` on success and `{error: <the message>}` on failure |
| Tool.CommitValue | git_tool.py:46 | a commit dict has exactly the keys `hash`, `author`, `date` and `message`, holding the commit's hash, author, date and message respectively |
| Tool.LogValue | git_tool.py:47-49 | the returned list has one dict per log entry, in the same order, each the dict of that entry |
| Tool.LogItemsAreParsedLines | git_tool.py:42-46 | when git completes, the k-th dict under `commits` is `{hash: p[0], author: p[1], date: p[2], message: p[3]}` with `p` the pieces of the k-th kept output line, and there is one dict per kept line |
| Tool.GitTool | git_tool.py:65-70 | raises exactly when the folded action is neither `status` nor `log`, and then raises `ValueError` with the fixed message; `status` returns the status dict of the status command on the given path; `log` returns `{commits: ...}` from the log command with the given path and count |
| Tool.DispatchIgnoresCase | git_tool.py:65-69 | any spelling of `status` or `log` with capitals behaves like the lower-case name |
| Tool.UnsupportedActionRaises | git_tool.py:65-70 | an action that spells neither name raises the same error for every repository path, count and git behaviour |
| Tool.StatusShape | git_tool.py:18-25 | a status call never raises; it returns a dict keyed only `status_lines` when git completes and only `error` otherwise |
| Tool.LogShape | git_tool.py:39-49 | a log call never raises; it returns a dict keyed only `commits`; on success every element is a four-key commit dict; on failure the list holds exactly one `{error: ...}` dict |
| Tool.ErrorShapesDiffer | git_tool.py:22-49 | a failed run gives `{error: ...}` from status but `{commits: [{error: ...}]}` from log, so the two results always differ; on a non-zero exit status carries git's output and log the exception text |

## Left out

- Running git is not modelled. This covers the argument vector, the `-C`
  path handling, `--porcelain`, `--date=iso`, the 10-second timeout,
  merging stderr into stdout, and decoding bytes to text. Each run is the
  `ProcessOutcome` a `Command` is mapped to, given as a parameter.
- Newline translation is part of that decoding. With `universal_newlines=True`,
  Python turns `\r\n` and `\r` into `\n` while reading. The model accepts
  any output text, and its `SplitLines` handles `\r` and `\r\n` as
  `splitlines` does.
- The cap of `n` commits is enforced by git's `-n` option and not by the
  parser, so no bound in terms of `n` is claimed. The count only travels
  inside `LogCommand`.
- The default `n = 5` of `git_tool` and `git_log_recent` is a calling
  convention. `Tool.GitTool` takes the count explicitly.
- The texts of exceptions (`str(e)`) and of captured output (`e.output`) are
  opaque strings carried by the outcome.
- Ascii.ToLowerMatches: only ASCII letters are folded, while Python's
  `str.lower` folds all of Unicode. This never changes the route. Every
  non-ASCII character lowers to non-ASCII text, or to an ASCII letter
  outside "status" and "log" (KELVIN SIGN lowers to `k`; CAPITAL I WITH DOT
  lowers to `i` plus a combining dot). So no non-ASCII action folds to
  either name.
- The `@mcp.tool()` registration decorator is plumbing for the host
  framework. `mcp` is not even imported in the file.
- Dict key order (Python dicts keep insertion order) is not modelled.
  `Tool.Value` dicts are maps.
- Passing a non-string `action` (which would raise `AttributeError` at
  `.lower()`) is ruled out by the model's types.
