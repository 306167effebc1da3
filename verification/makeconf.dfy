/** The settings `configure_base_system` appends to `/etc/portage/make.conf` in a live run:
    `MAKEOPTS`, `EMERGE_DEFAULT_OPTS`, `FEATURES` when parallel fetching is enabled, and
    `ACCEPT_LICENSE`. The processor count and the `GENTOO_ACCEPT_LICENSE` environment value
    are parameters. The source ends each setting with the two characters `\` and `n`
    instead of a newline; `AppendedAsWritten` models that, `Appended` the evident intent. */
module MakeConf {
  import opened Wrappers
  import opened Text
  import opened Config

  /** `f"{i}"` for any integer. */
  function IntToString(i: int): (s: string)
    ensures s != [] && NoSpace(s)
  {
    if i < 0 then "-" + NatToString(-i) else NatToString(i)
  }

  /** `cfg.makeopts_jobs or (os.cpu_count() or 2)`: zero and `None` both fall through. */
  function Jobs(c: InstallConfig, cpus: Option<nat>): (j: int)
    ensures c.makeoptsJobs.Some? && c.makeoptsJobs.value != 0 ==> j == c.makeoptsJobs.value
    ensures (c.makeoptsJobs.None? || c.makeoptsJobs.value == 0) ==> j > 0
  {
    if c.makeoptsJobs.Some? && c.makeoptsJobs.value != 0 then c.makeoptsJobs.value
    else if cpus.Some? && cpus.value != 0 then cpus.value
    else 2
  }

  /** The `EMERGE_DEFAULT_OPTS` words. */
  function EmergeOpts(c: InstallConfig, jobs: int): seq<string> {
    ["--jobs=" + IntToString(jobs), "--load-average=" + IntToString(jobs)]
      + (if c.emergeKeepGoing then ["--keep-going"] else [])
  }

  /** The settings in the order they are written, without terminators. */
  function Settings(c: InstallConfig, cpus: Option<nat>, license: string): (lines: seq<string>)
    ensures |lines| == if c.featuresParallelFetch then 4 else 3
  {
    var jobs := Jobs(c, cpus);
    [Assignment("MAKEOPTS", "-j" + IntToString(jobs)),
     Assignment("EMERGE_DEFAULT_OPTS", Join(EmergeOpts(c, jobs), " "))]
      + (if c.featuresParallelFetch then [Assignment("FEATURES", "parallel-fetch")] else [])
      + [Assignment("ACCEPT_LICENSE", license)]
  }

  /** `KEY="value"`. */
  function Assignment(key: string, value: string): string {
    key + "=\"" + value + "\""
  }

  /** Each line followed by `term`. */
  function Terminated(lines: seq<string>, term: string): string
    decreases |lines|
  {
    if lines == [] then "" else lines[0] + term + Terminated(lines[1..], term)
  }

  /** The text the source appends: every setting followed by a backslash and an `n`. */
  function AppendedAsWritten(c: InstallConfig, cpus: Option<nat>, license: string): string {
    Terminated(Settings(c, cpus, license), "\\n")
  }

  /** The text evidently intended: every setting on a line of its own. */
  function Appended(c: InstallConfig, cpus: Option<nat>, license: string): string {
    Terminated(Settings(c, cpus, license), "\n")
  }

  lemma SettingsNoLineBreak(c: InstallConfig, cpus: Option<nat>, license: string)
    requires NoLineBreak(license)
    ensures forall i :: 0 <= i < |Settings(c, cpus, license)| ==> NoLineBreak(Settings(c, cpus, license)[i])
  {
    var jobs := Jobs(c, cpus);
    var j := IntToString(jobs);
    WordNoLineBreak(j);
    NoLineBreakConcat("-j", j);
    AssignmentNoLineBreak("MAKEOPTS", "-j" + j);
    EmergeOptsNoLineBreak(c, jobs);
    AssignmentNoLineBreak("EMERGE_DEFAULT_OPTS", Join(EmergeOpts(c, jobs), " "));
    AssignmentNoLineBreak("FEATURES", "parallel-fetch");
    AssignmentNoLineBreak("ACCEPT_LICENSE", license);
  }

  lemma EmergeOptsNoLineBreak(c: InstallConfig, jobs: int)
    ensures NoLineBreak(Join(EmergeOpts(c, jobs), " "))
  {
    var j := IntToString(jobs);
    WordNoLineBreak(j);
    NoLineBreakConcat("--jobs=", j);
    NoLineBreakConcat("--load-average=", j);
    var opts := EmergeOpts(c, jobs);
    assert forall i :: 0 <= i < |opts| ==> NoLineBreak(opts[i]);
    JoinNoLineBreak(opts, " ");
  }

  lemma AssignmentNoLineBreak(key: string, value: string)
    requires NoLineBreak(key) && NoLineBreak(value)
    ensures NoLineBreak(Assignment(key, value))
  {
    NoLineBreakConcat(key, "=\"");
    NoLineBreakConcat(key + "=\"", value);
    NoLineBreakConcat(key + "=\"" + value, "\"");
  }

  lemma {:induction false} TerminatedNoLineBreak(lines: seq<string>, term: string)
    requires forall i :: 0 <= i < |lines| ==> NoLineBreak(lines[i])
    requires NoLineBreak(term)
    ensures NoLineBreak(Terminated(lines, term))
    decreases |lines|
  {
    if lines != [] {
      TerminatedNoLineBreak(lines[1..], term);
      NoLineBreakConcat(lines[0], term);
      NoLineBreakConcat(lines[0] + term, Terminated(lines[1..], term));
    }
  }

  lemma {:induction false} TerminatedIsJoin(lines: seq<string>)
    requires lines != []
    ensures Terminated(lines, "\n") == Join(lines, "\n") + "\n"
    decreases |lines|
  {
    if |lines| > 1 {
      TerminatedIsJoin(lines[1..]);
    }
  }

  /** As written, the appended text holds no line break at all: the three or four settings
      become one line, which also runs into whatever is appended next. */
  lemma AppendedAsWrittenIsOneLine(c: InstallConfig, cpus: Option<nat>, license: string)
    requires NoLineBreak(license)
    ensures SplitLines(AppendedAsWritten(c, cpus, license)) == [AppendedAsWritten(c, cpus, license)]
    ensures |SplitLines(AppendedAsWritten(c, cpus, license))| < |Settings(c, cpus, license)|
  {
    var lines := Settings(c, cpus, license);
    SettingsNoLineBreak(c, cpus, license);
    TerminatedNoLineBreak(lines, "\\n");
    SplitLinesOfLine(AppendedAsWritten(c, cpus, license));
  }

  /** Corrected, reading `make.conf`'s appended part back line by line gives each setting
      on a line of its own. */
  lemma AppendedLines(c: InstallConfig, cpus: Option<nat>, license: string)
    requires NoLineBreak(license)
    ensures SplitLines(Appended(c, cpus, license)) == Settings(c, cpus, license)
  {
    var lines := Settings(c, cpus, license);
    SettingsNoLineBreak(c, cpus, license);
    TerminatedIsJoin(lines);
    SplitLinesOfJoin(lines);
  }
}
