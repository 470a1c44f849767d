/**
  How the hook classifies a shell command and decides on it
  (internal/hook/classify.go, internal/hook/decide.go, internal/guard/guard.go).
 */
module HookRules {
  import opened Wrappers
  import opened ShellLexer

  // ---- words ----------------------------------------------------------------------------

  const LEADING_RESERVED: set<string> := {"do", "then", "else", "elif", "if", "while", "until", "!", "{", "time"}

  const UNSURE_STARTERS: set<string> := {"case", "select", "function", "coproc"}

  const WRAPPERS: set<string> := {
    "eval", "exec", "command", "builtin", "env", "sudo", "doas", "su", "nohup", "nice", "ionice", "timeout",
    "xargs", "find", "parallel", "watch", "stdbuf", "chroot", "unshare", "flock", "strace", "script", "time",
    "busybox", "sh", "bash", "zsh", "dash", "ksh", "fish", "source", "."}

  /** The position of the first `=`, or the length. */
  function FirstEquals(tok: string): (n: nat)
    ensures n <= |tok| && (n < |tok| ==> tok[n] == '=') && '=' !in tok[..n]
  {
    if |tok| == 0 || tok[0] == '=' then 0
    else
      var n := 1 + FirstEquals(tok[1..]);
      assert tok[..n] == [tok[0]] + tok[1..][..n - 1];
      n
  }

  /** A leading variable assignment. */
  predicate IsAssignment(tok: string) {
    var i := FirstEquals(tok);
    0 < i < |tok| && '/' !in tok[..i] && '-' !in tok[..i] && '.' !in tok[..i]
  }

  function TrimSlashes(s: string): string {
    if |s| > 0 && s[|s| - 1] == '/' then TrimSlashes(s[..|s| - 1]) else s
  }

  function AfterLastSlash(s: string): string {
    if |s| == 0 || s[|s| - 1] == '/' then "" else AfterLastSlash(s[..|s| - 1]) + [s[|s| - 1]]
  }

  /** The last element of a path. */
  function Base(path: string): string {
    if |path| == 0 then "."
    else if TrimSlashes(path) == "" then "/"
    else AfterLastSlash(TrimSlashes(path))
  }

  predicate HasExpansion(tok: string) {
    '$' in tok || '*' in tok || '?' in tok || '[' in tok
  }

  /** The segment from its command word on. */
  function Stripped(seg: seq<string>): seq<string>
    decreases |seg|
  {
    if |seg| > 0 && (IsAssignment(seg[0]) || seg[0] in LEADING_RESERVED) then
      if seg[0] == "time" && |seg| > 1 && seg[1] == "-p" then Stripped(seg[2..]) else Stripped(seg[1..])
    else seg
  }

  /** An assignment, a reserved word, or a `-p` right after `time`. */
  predicate IsDropped(seg: seq<string>, i: nat)
    requires i < |seg|
  {
    IsAssignment(seg[i]) || seg[i] in LEADING_RESERVED || (i > 0 && seg[i] == "-p" && seg[i - 1] == "time")
  }

  /** Nothing else is dropped before the command word, and no word left in front is an
      assignment or reserved. */
  lemma {:induction false} StripsToCommandWord(seg: seq<string>)
    ensures var rest := Stripped(seg);
            && |rest| <= |seg| && rest == seg[|seg| - |rest|..]
            && (|rest| > 0 ==> !IsAssignment(rest[0]) && rest[0] !in LEADING_RESERVED)
            && forall i :: 0 <= i < |seg| - |rest| ==> IsDropped(seg, i)
    decreases |seg|
  {
    hide IsAssignment;
    if |seg| > 0 && (IsAssignment(seg[0]) || seg[0] in LEADING_RESERVED) {
      var n := if seg[0] == "time" && |seg| > 1 && seg[1] == "-p" then 2 else 1;
      StripsToCommandWord(seg[n..]);
      assert Stripped(seg) == Stripped(seg[n..]);
      forall i | 0 <= i < |seg| - |Stripped(seg)|
        ensures IsDropped(seg, i)
      {
        if i >= n {
          assert IsDropped(seg[n..], i - n);
          assert seg[n..][i - n] == seg[i];
        }
      }
    }
  }

  /** The command word may run something the segment does not show. */
  predicate Doubtful(word: string) {
    Base(word) in WRAPPERS || word in UNSURE_STARTERS || HasExpansion(word)
  }

  function Commands(raw: seq<seq<string>>): seq<seq<string>> {
    if |raw| == 0 then []
    else
      var seg := Stripped(raw[|raw| - 1]);
      Commands(raw[..|raw| - 1]) + if |seg| > 0 then [seg] else []
  }

  predicate AnyDoubtful(segs: seq<seq<string>>) {
    exists i :: 0 <= i < |segs| && |segs[i]| > 0 && Doubtful(segs[i][0])
  }

  function AnalysisOf(cmd: string): Lexed {
    var raw := LexOf(cmd);
    var segs := Commands(raw.segs);
    Lexed(segs, raw.subst, raw.unsure || AnyDoubtful(segs))
  }

  lemma {:induction false} CommandsAreNotEmpty(raw: seq<seq<string>>)
    ensures forall i :: 0 <= i < |Commands(raw)| ==> |Commands(raw)[i]| > 0
  {
    if |raw| > 0 {
      CommandsAreNotEmpty(raw[..|raw| - 1]);
    }
  }

  /** Lex, then strip each segment to its command word. */
  method Analyze(cmd: string) returns (segs: seq<seq<string>>, subst: bool, unsure: bool)
    ensures Lexed(segs, subst, unsure) == AnalysisOf(cmd)
    ensures forall i :: 0 <= i < |segs| ==> |segs[i]| > 0
  {
    hide LexOf, Stripped, Doubtful, AnyDoubtful, Base;
    var raw;
    raw, subst, unsure := Lex(cmd);
    segs := [];
    ghost var lexUnsure := unsure;
    NoDoubtYet();
    var i := 0;
    while i < |raw|
      invariant 0 <= i <= |raw|
      invariant segs == Commands(raw[..i])
      invariant unsure == (lexUnsure || AnyDoubtful(segs))
    {
      assert raw[..i + 1][..i] == raw[..i];
      var seg := StripSegment(raw[i]);
      if |seg| > 0 {
        ghost var before := segs;
        if Doubtful(seg[0]) {
          unsure := true;
        }
        segs := segs + [seg];
        MoreDoubt(before, seg);
      }
      i := i + 1;
    }
    assert raw[..i] == raw;
    CommandsAreNotEmpty(raw);
  }

  lemma NoDoubtYet()
    ensures !AnyDoubtful([])
  {}

  lemma MoreDoubt(segs: seq<seq<string>>, seg: seq<string>)
    requires |seg| > 0
    ensures AnyDoubtful(segs + [seg]) <==> AnyDoubtful(segs) || Doubtful(seg[0])
  {
    hide Doubtful;
    var more := segs + [seg];
    if i :| 0 <= i < |segs| && |segs[i]| > 0 && Doubtful(segs[i][0]) {
      assert more[i] == segs[i];
    }
    if Doubtful(seg[0]) {
      assert more[|segs|] == seg;
    }
  }

  /** Drop assignments and reserved words until the command word. */
  method StripSegment(raw: seq<string>) returns (seg: seq<string>)
    ensures seg == Stripped(raw)
  {
    hide IsAssignment;
    seg := raw;
    while |seg| > 0 && (IsAssignment(seg[0]) || seg[0] in LEADING_RESERVED)
      invariant Stripped(seg) == Stripped(raw)
      decreases |seg|
    {
      if seg[0] == "time" && |seg| > 1 && seg[1] == "-p" {
        assert seg[1..][1..] == seg[2..];
        seg := seg[1..];
      }
      seg := seg[1..];
    }
  }

  // ---- pawl-only commands ------------------------------------------------------------------

  predicate PawlOnly(cmd: string) {
    var a := AnalysisOf(cmd);
    |a.segs| > 0 && !a.subst && !a.unsure
    && forall i :: 0 <= i < |a.segs| && |a.segs[i]| > 0 ==> Base(a.segs[i][0]) == "pawl" || Base(a.segs[i][0]) == "cd"
  }

  method IsPawlOnlyCommand(cmd: string) returns (only: bool)
    ensures only == PawlOnly(cmd)
  {
    hide AnalysisOf, Base;
    var segs, subst, unsure := Analyze(cmd);
    if |segs| == 0 || subst || unsure {
      return false;
    }
    var i := 0;
    while i < |segs|
      invariant 0 <= i <= |segs|
      invariant forall k :: 0 <= k < i ==> Base(segs[k][0]) == "pawl" || Base(segs[k][0]) == "cd"
    {
      if Base(segs[i][0]) != "pawl" && Base(segs[i][0]) != "cd" {
        return false;
      }
      i := i + 1;
    }
    only := true;
  }

  // ---- version control ------------------------------------------------------------------------

  const GIT_VALUE_OPTS: set<string> := {"-C", "-c", "--git-dir", "--work-tree", "--namespace"}

  const GIT_READ_ONLY: set<string> := {
    "status", "log", "diff", "show", "rev-parse", "ls-files", "ls-tree", "ls-remote", "blame", "grep", "describe",
    "cat-file", "for-each-ref", "merge-base", "shortlog", "name-rev", "count-objects", "help", "version"}

  const GIT_CONFIG_READ: set<string> := {"--get", "--get-all", "--get-regexp", "--get-urlmatch", "--list", "-l"}

  const LIST_FLAGS: set<string> := {
    "-l", "--list", "-a", "--all", "-r", "--remotes", "-v", "-vv", "--verbose", "--show-current", "--contains",
    "--no-contains", "--merged", "--no-merged", "--points-at", "--format", "--sort", "--column", "--no-column",
    "--color", "--no-color"}

  const LIST_VALUE_FLAGS: set<string> := {"--contains", "--no-contains", "--points-at", "--format", "--sort"}

  const JJ_VALUE_OPTS: set<string> := {
    "-R", "--repository", "--at-op", "--at-operation", "--color", "--config", "--config-toml", "--config-file"}

  const JJ_READ_ONLY: set<string> := {
    "log", "st", "status", "diff", "show", "evolog", "obslog", "root", "help", "interdiff", "version"}

  const JJ_READ_ONLY_SUB: map<string, set<string>> := map[
    "file" := {"show", "list", "annotate", "search"},
    "op" := {"log", "show", "diff"},
    "operation" := {"log", "show", "diff"},
    "workspace" := {"root", "list"},
    "bookmark" := {"list", "l"},
    "b" := {"list", "l"},
    "config" := {"get", "list", "path"},
    "tag" := {"list", "l"}]

  predicate IsOption(arg: string) {
    |arg| > 0 && arg[0] == '-'
  }

  function StripGlobal(args: seq<string>, withValue: set<string>): seq<string>
    decreases |args|
  {
    if |args| > 0 && IsOption(args[0]) then
      if args[0] in withValue && |args| > 1 then StripGlobal(args[2..], withValue)
      else StripGlobal(args[1..], withValue)
    else args
  }

  predicate HelpOnly(args: seq<string>) {
    |args| >= 2 && (args[1] == "--help" || args[1] == "-h")
  }

  /** `-n` or `-n<num>`. */
  predicate IsNCountFlag(name: string) {
    |name| >= 2 && name[0] == '-' && name[1] == 'n' && forall i :: 2 <= i < |name| ==> '0' <= name[i] <= '9'
  }

  /** Listing or changing branches and tags, from position i on. */
  predicate BranchMutatesFrom(tag: bool, rest: seq<string>, i: nat, sawList: bool)
    decreases |rest| - i
  {
    if i >= |rest| then false
    else if !IsOption(rest[i]) then !sawList || BranchMutatesFrom(tag, rest, i + 1, sawList)
    else
      var name := rest[i][..FirstEquals(rest[i])];
      var saw := sawList || name == "-l" || name == "--list";
      if tag && IsNCountFlag(name) then BranchMutatesFrom(tag, rest, i + 1, saw)
      else if name !in LIST_FLAGS then true
      else if name in LIST_VALUE_FLAGS && '=' !in rest[i] && i + 1 < |rest| then BranchMutatesFrom(tag, rest, i + 2, saw)
      else BranchMutatesFrom(tag, rest, i + 1, saw)
  }

  /** The option takes the argument after it as its value. */
  predicate TakesValue(arg: string) {
    IsOption(arg) && arg[..FirstEquals(arg)] in LIST_VALUE_FLAGS && '=' !in arg
  }

  /** The argument stands for itself: it is not the value of the option before it. */
  predicate Stands(rest: seq<string>, i: nat)
    requires i <= |rest|
  {
    i == 0 || !(Stands(rest, i - 1) && TakesValue(rest[i - 1]))
  }

  /** An option that changes nothing: one of a listing, or a count of lines for tags. */
  predicate OnlyShows(tag: bool, arg: string) {
    var name := arg[..FirstEquals(arg)];
    name in LIST_FLAGS || (tag && IsNCountFlag(name))
  }

  predicate AsksForList(arg: string) {
    IsOption(arg) && (arg[..FirstEquals(arg)] == "-l" || arg[..FirstEquals(arg)] == "--list")
  }

  ghost predicate ListAskedBefore(rest: seq<string>, i: nat)
    requires i <= |rest|
  {
    exists j :: 0 <= j < i && Stands(rest, j) && AsksForList(rest[j])
  }

  /** An argument that makes the command more than a listing: an option that changes
      something, or a name with no `-l` or `--list` before it. */
  ghost predicate Changes(tag: bool, rest: seq<string>, i: nat)
    requires i < |rest|
  {
    Stands(rest, i) && if IsOption(rest[i]) then !OnlyShows(tag, rest[i]) else !ListAskedBefore(rest, i)
  }

  lemma CountIsNoValueFlag(name: string)
    requires IsNCountFlag(name)
    ensures name !in LIST_VALUE_FLAGS
  {
    assert name[1] == 'n';
    assert "--contains"[1] == '-' && "--no-contains"[1] == '-' && "--points-at"[1] == '-';
    assert "--format"[1] == '-' && "--sort"[1] == '-';
  }

  lemma AskedByOneMore(rest: seq<string>, i: nat)
    requires i < |rest|
    ensures ListAskedBefore(rest, i + 1) <==> ListAskedBefore(rest, i) || (Stands(rest, i) && AsksForList(rest[i]))
  {
    hide AsksForList;
  }

  /** Exactly the invocations with such an argument mutate. */
  lemma {:induction false} MutatesIffSomethingChanges(tag: bool, rest: seq<string>, i: nat, sawList: bool)
    requires i <= |rest| && Stands(rest, i) && (sawList <==> ListAskedBefore(rest, i))
    ensures BranchMutatesFrom(tag, rest, i, sawList) <==> exists k :: i <= k < |rest| && Changes(tag, rest, k)
    decreases |rest| - i
  {
    hide IsNCountFlag, IsOption, FirstEquals, ListAskedBefore;
    if i < |rest| && !Changes(tag, rest, i) {
      var name := rest[i][..FirstEquals(rest[i])];
      if tag && IsNCountFlag(name) {
        CountIsNoValueFlag(name);
      }
      AskedByOneMore(rest, i);
      if TakesValue(rest[i]) && i + 1 < |rest| {
        AskedByOneMore(rest, i + 1);
        assert !Stands(rest, i + 1) && Stands(rest, i + 2) && !Changes(tag, rest, i + 1);
        MutatesIffSomethingChanges(tag, rest, i + 2, sawList || AsksForList(rest[i]));
      } else if i + 1 < |rest| {
        MutatesIffSomethingChanges(tag, rest, i + 1, sawList || AsksForList(rest[i]));
      }
    }
  }

  method BranchOrTagMutates(tag: bool, rest: seq<string>) returns (mutates: bool)
    ensures mutates <==> exists k :: 0 <= k < |rest| && Changes(tag, rest, k)
    ensures mutates == BranchMutatesFrom(tag, rest, 0, false)
  {
    hide IsNCountFlag, Changes;
    MutatesIffSomethingChanges(tag, rest, 0, false);
    var sawList := false;
    var i := 0;
    while i < |rest|
      invariant BranchMutatesFrom(tag, rest, 0, false) == BranchMutatesFrom(tag, rest, i, sawList)
    {
      var a := rest[i];
      if !IsOption(a) {
        if !sawList {
          return true;
        }
      } else {
        var name := a[..FirstEquals(a)];
        if name == "-l" || name == "--list" {
          sawList := true;
        }
        if !(tag && IsNCountFlag(name)) {
          if name !in LIST_FLAGS {
            return true;
          }
          if name in LIST_VALUE_FLAGS && '=' !in a && i + 1 < |rest| {
            i := i + 1;
          }
        }
      }
      i := i + 1;
    }
    mutates := false;
  }

  function AfterVerbose(rest: seq<string>): seq<string> {
    if |rest| > 0 && (rest[0] == "-v" || rest[0] == "--verbose") then AfterVerbose(rest[1..]) else rest
  }

  predicate GitArgsMutate(all: seq<string>) {
    var args := StripGlobal(all, GIT_VALUE_OPTS);
    |args| > 0 && args[0] !in GIT_READ_ONLY &&
    var sub, rest := args[0], args[1..];
    var first := if |rest| > 0 then rest[0] else "";
    if sub == "branch" || sub == "tag" then BranchMutatesFrom(sub == "tag", rest, 0, false)
    else if sub == "stash" then !(first == "list" || first == "show")
    else if sub == "config" then
      (forall k :: 0 <= k < |rest| ==> rest[k] !in GIT_CONFIG_READ) && !(first == "get" || first == "list")
    else if sub == "remote" then
      var tail := AfterVerbose(rest);
      !(|tail| == 0 || tail[0] == "show" || tail[0] == "get-url")
    else if sub == "worktree" then first != "list"
    else if sub == "reflog" then !(first == "" || first == "show")
    else true
  }

  predicate GitMutates(args: seq<string>) {
    !HelpOnly(StripGlobal(args, GIT_VALUE_OPTS)) && GitArgsMutate(args)
  }

  predicate JjArgsMutate(all: seq<string>) {
    var args := StripGlobal(all, JJ_VALUE_OPTS);
    |args| > 0 && args[0] !in JJ_READ_ONLY &&
    if args[0] in JJ_READ_ONLY_SUB then !(|args| > 1 && args[1] in JJ_READ_ONLY_SUB[args[0]])
    else !(args[0] == "git" && |args| > 2 && args[1] == "remote" && args[2] == "list")
  }

  predicate JjMutates(args: seq<string>) {
    !HelpOnly(StripGlobal(args, JJ_VALUE_OPTS)) && JjArgsMutate(args)
  }

  // ---- what only reads -----------------------------------------------------------------------

  /** The argument stands for itself: it is not the value of the global option before it. */
  predicate Standing(args: seq<string>, withValue: set<string>, i: nat)
    requires i <= |args|
  {
    i == 0 || !(Standing(args, withValue, i - 1) && IsOption(args[i - 1]) && args[i - 1] in withValue)
  }

  /** The subcommand: the first argument that is no option and no option's value. */
  predicate SubcommandAt(args: seq<string>, withValue: set<string>, k: nat) {
    k < |args| && Standing(args, withValue, k) && !IsOption(args[k])
    && forall i :: 0 <= i < k ==> IsOption(args[i]) || !Standing(args, withValue, i)
  }

  /** Dropping the global options leaves the subcommand and what follows it, or nothing. */
  lemma {:induction false} StripFindsSubcommand(args: seq<string>, withValue: set<string>, i: nat)
    requires i <= |args| && Standing(args, withValue, i)
    requires forall j :: 0 <= j < i ==> IsOption(args[j]) || !Standing(args, withValue, j)
    ensures var rest := StripGlobal(args[i..], withValue);
            && (|rest| > 0 ==> |rest| <= |args| - i && rest == args[|args| - |rest|..]
                               && SubcommandAt(args, withValue, |args| - |rest|))
            && (|rest| == 0 ==> forall k: nat :: !SubcommandAt(args, withValue, k))
    decreases |args| - i
  {
    hide IsOption;
    if i < |args| && IsOption(args[i]) {
      if args[i] in withValue && i + 1 < |args| {
        assert !Standing(args, withValue, i + 1) && Standing(args, withValue, i + 2);
        assert args[i..][2..] == args[i + 2..];
        StripFindsSubcommand(args, withValue, i + 2);
      } else {
        assert args[i..][1..] == args[i + 1..];
        if i + 1 < |args| {
          StripFindsSubcommand(args, withValue, i + 1);
        }
      }
    }
  }

  /** What a git subcommand must be to change nothing: one that only reads, a listing of
      branches or tags, or the reading form of one that does both. */
  ghost predicate GitReads(sub: string, rest: seq<string>) {
    || sub in GIT_READ_ONLY
    || ((sub == "branch" || sub == "tag") && NothingChanges(sub == "tag", rest))
    || (sub == "stash" && |rest| > 0 && (rest[0] == "list" || rest[0] == "show"))
    || (sub == "config" && ((exists a :: a in rest && a in GIT_CONFIG_READ)
                            || (|rest| > 0 && (rest[0] == "get" || rest[0] == "list"))))
    || (sub == "remote" && exists n :: 0 <= n <= |rest| && Verbose(rest[..n])
                                       && (n == |rest| || rest[n] == "show" || rest[n] == "get-url"))
    || (sub == "worktree" && |rest| > 0 && rest[0] == "list")
    || (sub == "reflog" && (|rest| == 0 || rest[0] == "" || rest[0] == "show"))
  }

  ghost predicate NothingChanges(tag: bool, rest: seq<string>) {
    forall k :: 0 <= k < |rest| ==> !Changes(tag, rest, k)
  }

  predicate Verbose(args: seq<string>) {
    forall i :: 0 <= i < |args| ==> args[i] == "-v" || args[i] == "--verbose"
  }

  lemma {:induction false} AfterVerboseDrops(rest: seq<string>)
    ensures var tail := AfterVerbose(rest);
            |tail| <= |rest| && rest[|rest| - |tail|..] == tail && Verbose(rest[..|rest| - |tail|])
            && (|tail| > 0 ==> tail[0] != "-v" && tail[0] != "--verbose")
  {
    if |rest| > 0 && (rest[0] == "-v" || rest[0] == "--verbose") {
      AfterVerboseDrops(rest[1..]);
    }
  }

  lemma RemoteReads(rest: seq<string>)
    ensures var tail := AfterVerbose(rest);
            |tail| == 0 || tail[0] == "show" || tail[0] == "get-url" <==>
              exists n :: 0 <= n <= |rest| && Verbose(rest[..n])
                          && (n == |rest| || rest[n] == "show" || rest[n] == "get-url")
  {
    AfterVerboseDrops(rest);
    NotVerbose();
    var tail := AfterVerbose(rest);
    var m := |rest| - |tail|;
    forall n | 0 <= n <= |rest| && Verbose(rest[..n])
      ensures n <= m
    {
      VerbosePrefix(rest, n);
      assert |tail| > 0 ==> rest[m..][0] == tail[0];
    }
    VerbosePrefix(rest, m);
  }

  lemma VerbosePrefix(rest: seq<string>, n: nat)
    requires n <= |rest| && Verbose(rest[..n])
    ensures forall i :: 0 <= i < n ==> rest[i] == "-v" || rest[i] == "--verbose"
  {
    assert forall i :: 0 <= i < n ==> rest[..n][i] == rest[i];
  }

  lemma NotVerbose()
    ensures "show" != "-v" && "show" != "--verbose" && "get-url" != "-v" && "get-url" != "--verbose"
  {
    assert "show"[0] != '-' && "get-url"[0] != '-';
  }

  /** By default git mutates: it does not if and only if it has no subcommand, asks for the
      help of one, or the subcommand reads. */
  lemma GitMutatesUnlessItReads(args: seq<string>)
    ensures GitMutates(args) <==>
              exists k: nat :: SubcommandAt(args, GIT_VALUE_OPTS, k) && !GitReads(args[k], args[k + 1..])
                               && !(k + 1 < |args| && (args[k + 1] == "--help" || args[k + 1] == "-h"))
  {
    hide Changes, Verbose, AfterVerbose, IsOption, BranchMutatesFrom;
    assert args[0..] == args;
    StripFindsSubcommand(args, GIT_VALUE_OPTS, 0);
    var rest := StripGlobal(args, GIT_VALUE_OPTS);
    if |rest| > 0 {
      var k := |args| - |rest|;
      assert rest[1..] == args[k + 1..] && rest[0] == args[k];
      SubcommandJudged(rest[0], rest[1..], args);
      OnlySubcommand(args, GIT_VALUE_OPTS, k);
    }
  }

  lemma OnlySubcommand(args: seq<string>, withValue: set<string>, k: nat)
    requires SubcommandAt(args, withValue, k)
    ensures forall j: nat :: SubcommandAt(args, withValue, j) ==> j == k
  {
    hide IsOption, Standing;
  }

  lemma SubcommandJudged(sub: string, rest: seq<string>, all: seq<string>)
    requires StripGlobal(all, GIT_VALUE_OPTS) == [sub] + rest
    ensures GitArgsMutate(all) <==> !GitReads(sub, rest)
  {
    hide Changes, Verbose, AfterVerbose, IsOption, BranchMutatesFrom, StripGlobal;
    assert ([sub] + rest)[1..] == rest;
    RemoteReads(rest);
    if sub == "branch" || sub == "tag" {
      ListingJudged(sub == "tag", rest);
    }
    SubcommandsDiffer();
  }

  lemma ListingJudged(tag: bool, rest: seq<string>)
    ensures BranchMutatesFrom(tag, rest, 0, false) <==> !NothingChanges(tag, rest)
  {
    hide Changes, BranchMutatesFrom;
    MutatesIffSomethingChanges(tag, rest, 0, false);
  }

  lemma SubcommandsDiffer()
    ensures |{"branch", "tag", "stash", "config", "remote", "worktree", "reflog"}| == 7
  {
    assert "branch"[0] == 'b' && "tag"[0] == 't' && "stash"[0] == 's' && "config"[0] == 'c';
    assert |"remote"| == 6 && |"worktree"| == 8 && "reflog"[2] == 'f' && "remote"[2] == 'm';
  }

  /** What a jj subcommand must be to change nothing. */
  predicate JjReads(sub: string, rest: seq<string>) {
    || sub in JJ_READ_ONLY
    || (sub in JJ_READ_ONLY_SUB && |rest| > 0 && rest[0] in JJ_READ_ONLY_SUB[sub])
    || (sub == "git" && sub !in JJ_READ_ONLY_SUB && |rest| > 1 && rest[0] == "remote" && rest[1] == "list")
  }

  lemma JjMutatesUnlessItReads(args: seq<string>)
    ensures JjMutates(args) <==>
              exists k: nat :: SubcommandAt(args, JJ_VALUE_OPTS, k) && !JjReads(args[k], args[k + 1..])
                               && !(k + 1 < |args| && (args[k + 1] == "--help" || args[k + 1] == "-h"))
  {
    hide IsOption;
    assert args[0..] == args;
    StripFindsSubcommand(args, JJ_VALUE_OPTS, 0);
    var rest := StripGlobal(args, JJ_VALUE_OPTS);
    if |rest| > 0 {
      var k := |args| - |rest|;
      assert rest[1..] == args[k + 1..] && rest[0] == args[k];
      assert |rest| > 1 ==> rest[1] == args[k + 1..][0];
      assert |rest| > 2 ==> rest[2] == args[k + 1..][1];
      OnlySubcommand(args, JJ_VALUE_OPTS, k);
    }
  }

  predicate SegmentMutates(seg: seq<string>) {
    |seg| > 0 && ((Base(seg[0]) == "git" && GitMutates(seg[1..])) || (Base(seg[0]) == "jj" && JjMutates(seg[1..])))
  }

  /** What separates the tokens of a command the lexer cannot vouch for. */
  predicate RawSeparator(c: char) {
    c <= ' ' || c in {';', '&', '|', '(', ')', '<', '>', '`', '$', '#', '{', '}', ',', '=', '!'}
  }

  /** Quotes and backslashes removed, split at separators; `word` is the token so far. */
  function RawTokensFrom(word: string, cmd: string): seq<string>
    decreases |cmd|
  {
    if |cmd| == 0 then if word == "" then [] else [word]
    else if cmd[0] == '\'' || cmd[0] == '"' || cmd[0] == '\\' then RawTokensFrom(word, cmd[1..])
    else if RawSeparator(cmd[0]) then (if word == "" then [] else [word]) + RawTokensFrom("", cmd[1..])
    else RawTokensFrom(word + [cmd[0]], cmd[1..])
  }

  predicate NoSeparator(cmd: string) {
    forall i :: 0 <= i < |cmd| ==> !RawSeparator(cmd[i])
  }

  function Unquoted(cmd: string): string {
    if |cmd| == 0 then ""
    else (if cmd[0] == '\'' || cmd[0] == '"' || cmd[0] == '\\' then "" else [cmd[0]]) + Unquoted(cmd[1..])
  }

  /** A text up to a separator is one token, its quotes and backslashes taken out; and the
      tokens after the separator are those of what follows it. */
  lemma {:induction false} RawTokensSplit(word: string, text: string, sep: char, rest: string)
    requires NoSeparator(text) && RawSeparator(sep)
    ensures RawTokensFrom(word, text) == if word + Unquoted(text) == "" then [] else [word + Unquoted(text)]
    ensures RawTokensFrom(word, text + [sep] + rest) == RawTokensFrom(word, text) + RawTokensFrom("", rest)
    decreases |text|
  {
    var all := text + [sep] + rest;
    if |text| == 0 {
      assert all == [sep] + rest && all[1..] == rest && word + "" == word;
      assert sep != '\'' && sep != '"' && sep != '\\';
    } else {
      assert all[0] == text[0] && all[1..] == text[1..] + [sep] + rest;
      if text[0] == '\'' || text[0] == '"' || text[0] == '\\' {
        RawTokensSplit(word, text[1..], sep, rest);
        assert word + ("" + Unquoted(text[1..])) == word + Unquoted(text[1..]);
      } else {
        RawTokensSplit(word + [text[0]], text[1..], sep, rest);
        assert word + [text[0]] + Unquoted(text[1..]) == word + ([text[0]] + Unquoted(text[1..]));
      }
    }
  }

  predicate RawMutates(cmd: string) {
    var toks := RawTokensFrom("", cmd);
    exists i :: 0 <= i < |toks| &&
      ((Base(toks[i]) == "git" && GitArgsMutate(toks[i + 1..])) || (Base(toks[i]) == "jj" && JjArgsMutate(toks[i + 1..])))
  }

  predicate VcsMutation(cmd: string) {
    var a := AnalysisOf(cmd);
    if a.subst || a.unsure then RawMutates(cmd)
    else exists i :: 0 <= i < |a.segs| && SegmentMutates(a.segs[i])
  }

  method IsVCSMutation(cmd: string) returns (mutates: bool)
    ensures mutates == VcsMutation(cmd)
  {
    hide AnalysisOf, Base, GitMutates, JjMutates, RawMutates;
    var segs, subst, unsure := Analyze(cmd);
    if subst || unsure {
      return RawMutates(cmd);
    }
    var i := 0;
    while i < |segs|
      invariant 0 <= i <= |segs|
      invariant forall k :: 0 <= k < i ==> !SegmentMutates(segs[k])
    {
      if SegmentMutates(segs[i]) {
        return true;
      }
      i := i + 1;
    }
    mutates := false;
  }

  // ---- guards -------------------------------------------------------------------------------

  /** A guard denies what its pattern matches, except while a step it names runs. */
  datatype Guard = Guard(id: string, pattern: string, onlyIn: set<string>)

  /** A live run as the hook sees it. The journal of an unreadable run tells nothing
      of its guards. */
  datatype LiveRun = LiveRun(runId: string, activeSteps: seq<string>, guards: seq<Guard>, guardsBroken: bool,
                             unreadable: bool)

  datatype Decision = Allow | DenyBroken(runId: string) | DenyGuard(runId: string, guard: string) | DenyVcs(runId: string)

  /** Line continuations removed before matching. */
  function JoinLines(cmd: string): string {
    if |cmd| == 0 then ""
    else if |cmd| > 1 && cmd[0] == '\\' && cmd[1] == '\n' then JoinLines(cmd[2..])
    else if |cmd| > 2 && cmd[0] == '\\' && cmd[1] == '\r' && cmd[2] == '\n' then JoinLines(cmd[3..])
    else [cmd[0]] + JoinLines(cmd[1..])
  }

  lemma {:induction false} JoinedUpTo(text: string, more: string)
    requires forall i :: 0 <= i < |text| ==> text[i] != '\\'
    ensures JoinLines(text + more) == text + JoinLines(more)
  {
    if |text| == 0 {
      assert text + more == more;
    } else {
      JoinedUpTo(text[1..], more);
      assert (text + more)[1..] == text[1..] + more;
    }
  }

  /** A pattern is matched against the line that a continued command spells. */
  lemma ContinuationsAreJoined(text: string, rest: string)
    requires forall i :: 0 <= i < |text| ==> text[i] != '\\'
    ensures JoinLines(text) == text
    ensures JoinLines(text + (['\\', '\n'] + rest)) == text + JoinLines(rest)
    ensures JoinLines(text + (['\\', '\r', '\n'] + rest)) == text + JoinLines(rest)
  {
    JoinedUpTo(text, "");
    assert text + "" == text;
    JoinedUpTo(text, ['\\', '\n'] + rest);
    JoinedUpTo(text, ['\\', '\r', '\n'] + rest);
    assert (['\\', '\n'] + rest)[2..] == rest && (['\\', '\r', '\n'] + rest)[3..] == rest;
  }

  /** How patterns match is the regexp library's. */
  type Matcher = (string, string) -> bool

  predicate Hits(m: Matcher, g: Guard, cmd: string) {
    m(g.pattern, JoinLines(cmd))
  }

  predicate Excused(g: Guard, steps: seq<string>) {
    exists i :: 0 <= i < |steps| && steps[i] in g.onlyIn
  }

  predicate Denies(m: Matcher, r: LiveRun, g: Guard, cmd: string) {
    !r.unreadable && Hits(m, g, cmd) && !Excused(g, r.activeSteps)
  }

  /** Some live run's active step permits a guard of this pattern. */
  ghost predicate Permitted(m: Matcher, runs: seq<LiveRun>, pattern: string, cmd: string) {
    exists r, g :: r in runs && g in r.guards && !r.unreadable && g.pattern == pattern && Hits(m, g, cmd)
                   && Excused(g, r.activeSteps)
  }

  /** The union rule: every guard of every live run is either silent or permitted. */
  ghost predicate GuardsAllow(m: Matcher, runs: seq<LiveRun>, cmd: string) {
    forall r, g :: r in runs && g in r.guards && Denies(m, r, g, cmd) ==> Permitted(m, runs, g.pattern, cmd)
  }

  datatype Denial = Denial(run: LiveRun, guard: Guard)

  /** Collect what each guard of the first runs says. */
  ghost predicate Collected(m: Matcher, runs: seq<LiveRun>, cmd: string, denials: seq<Denial>, permitted: set<string>) {
    && (forall d :: d in denials <==> d.run in runs && d.guard in d.run.guards && Denies(m, d.run, d.guard, cmd))
    && (forall p :: p in permitted <==> Permitted(m, runs, p, cmd))
  }

  method DecideGuards(m: Matcher, runs: seq<LiveRun>, cmd: string) returns (d: Decision)
    ensures d.Allow? <==> GuardsAllow(m, runs, cmd)
    ensures !d.Allow? ==>
              exists r, g :: r in runs && g in r.guards && Denies(m, r, g, cmd) && !Permitted(m, runs, g.pattern, cmd)
                             && d == DenyGuard(r.runId, g.id)
  {
    hide Denies, Permitted;
    var denials, permitted := CollectGuards(m, runs, cmd);
    var i := 0;
    while i < |denials|
      invariant 0 <= i <= |denials|
      invariant forall k :: 0 <= k < i ==> denials[k].guard.pattern in permitted
    {
      var one := denials[i];
      if one.guard.pattern !in permitted {
        assert one in denials;
        return DenyGuard(one.run.runId, one.guard.id);
      }
      i := i + 1;
    }
    forall r, g | r in runs && g in r.guards && Denies(m, r, g, cmd)
      ensures Permitted(m, runs, g.pattern, cmd)
    {
      assert Denial(r, g) in denials;
    }
    d := Allow;
  }

  method CollectGuards(m: Matcher, runs: seq<LiveRun>, cmd: string)
    returns (denials: seq<Denial>, permitted: set<string>)
    ensures Collected(m, runs, cmd, denials, permitted)
  {
    denials, permitted := [], {};
    var i := 0;
    while i < |runs|
      invariant 0 <= i <= |runs|
      invariant Collected(m, runs[..i], cmd, denials, permitted)
    {
      var more, allowed := CollectRun(m, runs[i], cmd);
      assert runs[..i + 1] == runs[..i] + [runs[i]];
      denials, permitted := denials + more, permitted + allowed;
      i := i + 1;
    }
    assert runs[..i] == runs;
  }

  /** What the guards of one run say. */
  method CollectRun(m: Matcher, r: LiveRun, cmd: string) returns (denials: seq<Denial>, permitted: set<string>)
    ensures Collected(m, [r], cmd, denials, permitted)
  {
    denials, permitted := [], {};
    if r.unreadable {
      return;
    }
    var j := 0;
    while j < |r.guards|
      invariant 0 <= j <= |r.guards|
      invariant forall d :: d in denials <==> d.run == r && d.guard in r.guards[..j] && Denies(m, r, d.guard, cmd)
      invariant forall p :: p in permitted <==>
                  exists k :: 0 <= k < j && r.guards[k].pattern == p && Hits(m, r.guards[k], cmd)
                              && Excused(r.guards[k], r.activeSteps)
    {
      var g := r.guards[j];
      if Hits(m, g, cmd) {
        if Excused(g, r.activeSteps) {
          permitted := permitted + {g.pattern};
        } else {
          denials := denials + [Denial(r, g)];
        }
      }
      j := j + 1;
    }
    assert r.guards[..j] == r.guards;
    forall p
      ensures p in permitted <==> Permitted(m, [r], p, cmd)
    {
      if Permitted(m, [r], p, cmd) {
        var r', g :| r' in [r] && g in r'.guards && !r'.unreadable && g.pattern == p && Hits(m, g, cmd)
                     && Excused(g, r'.activeSteps);
        var k :| 0 <= k < |r.guards| && r.guards[k] == g;
      }
    }
  }

  // ---- the decision before a command ----------------------------------------------------------

  /** What is allowed before a Bash call: a pawl-only command is exempt from guards and
      from the rule that broken guards deny everything; a subagent never mutates
      version control. */
  ghost predicate PreAllows(m: Matcher, runs: seq<LiveRun>, bash: bool, subagent: bool, cmd: string) {
    |runs| == 0 || !bash
    || ((PawlOnly(cmd) || ((forall r :: r in runs && !r.unreadable ==> !r.guardsBroken) && GuardsAllow(m, runs, cmd)))
        && !(subagent && VcsMutation(cmd)))
  }

  method DecidePre(m: Matcher, runs: seq<LiveRun>, bash: bool, subagent: bool, cmd: string) returns (d: Decision)
    ensures d.Allow? <==> PreAllows(m, runs, bash, subagent, cmd)
    ensures d.DenyBroken? ==> exists r :: r in runs && !r.unreadable && r.guardsBroken && r.runId == d.runId
    ensures d.DenyVcs? ==> subagent && VcsMutation(cmd)
  {
    hide PawlOnly, VcsMutation, GuardsAllow, Denies, Permitted;
    if |runs| == 0 || !bash {
      return Allow;
    }
    var exempt := IsPawlOnlyCommand(cmd);
    if !exempt {
      var i := 0;
      while i < |runs|
        invariant 0 <= i <= |runs|
        invariant forall k :: 0 <= k < i && !runs[k].unreadable ==> !runs[k].guardsBroken
      {
        if !runs[i].unreadable && runs[i].guardsBroken {
          assert runs[i] in runs;
          return DenyBroken(runs[i].runId);
        }
        i := i + 1;
      }
      d := DecideGuards(m, runs, cmd);
      if !d.Allow? {
        return;
      }
    }
    if subagent {
      var mutates := IsVCSMutation(cmd);
      if mutates {
        return DenyVcs(runs[0].runId);
      }
    }
    d := Allow;
  }

  /** What the decision comes to, case by case: outside Bash and without live runs anything
      goes; a subagent's mutation never does, nor, unless it is pawl-only, a command that a
      guard denies or that comes while guards are broken; and nothing else is denied. */
  lemma WhatIsDenied(m: Matcher, runs: seq<LiveRun>, bash: bool, subagent: bool, cmd: string)
    ensures |runs| == 0 || !bash ==> PreAllows(m, runs, bash, subagent, cmd)
    ensures |runs| > 0 && bash && subagent && VcsMutation(cmd) ==> !PreAllows(m, runs, bash, subagent, cmd)
    ensures |runs| > 0 && bash && !PawlOnly(cmd) && !GuardsAllow(m, runs, cmd) ==> !PreAllows(m, runs, bash, subagent, cmd)
    ensures |runs| > 0 && bash && !PawlOnly(cmd) && (exists r :: r in runs && r.guardsBroken && !r.unreadable) ==>
              !PreAllows(m, runs, bash, subagent, cmd)
    ensures PawlOnly(cmd) && !(subagent && VcsMutation(cmd)) ==> PreAllows(m, runs, bash, subagent, cmd)
    ensures GuardsAllow(m, runs, cmd) && (forall r :: r in runs ==> !r.guardsBroken) && !(subagent && VcsMutation(cmd)) ==>
              PreAllows(m, runs, bash, subagent, cmd)
  {
    hide PawlOnly, VcsMutation, GuardsAllow;
  }

  // ---- quoting keeps the driver's own commands allowed -----------------------------------------

  lemma PawlIsCommandWord()
    ensures !IsAssignment("pawl") && "pawl" !in LEADING_RESERVED
  {
    var w := "pawl";
    assert FirstEquals(w) == 4 by { assert w[3] == 'l' && w[2] == 'w' && w[1] == 'a'; }
    assert forall s :: s in LEADING_RESERVED ==> |s| != 4 || s[0] != 'p';
    assert w[0] == 'p' && |w| == 4;
  }

  lemma PawlIsNotDoubtful()
    ensures !Doubtful("pawl") && Base("pawl") == "pawl" && BareWord("pawl")
  {
    hide Base;
    var w := "pawl";
    BaseOfFlat(w);
    PawlIsNoWrapper();
    assert forall s :: s in UNSURE_STARTERS ==> |s| != 4 || s[0] != 'p';
    assert w[0] == 'p' && |w| == 4;
  }

  lemma PawlIsNoWrapper()
    ensures "pawl" !in WRAPPERS
  {
    assert forall s :: s in WRAPPERS ==> |s| != 4 || s[0] != 'p';
    assert "pawl"[0] == 'p' && |"pawl"| == 4;
  }

  lemma {:induction false} FlatIsOwnTail(s: string)
    requires '/' !in s
    ensures AfterLastSlash(s) == s
  {
    if |s| > 0 {
      assert s == s[..|s| - 1] + [s[|s| - 1]];
      FlatIsOwnTail(s[..|s| - 1]);
    }
  }

  lemma BaseOfFlat(s: string)
    requires |s| > 0 && '/' !in s
    ensures Base(s) == s
  {
    FlatIsOwnTail(s);
    assert s[|s| - 1] in s;
  }

  /** A command is known by its name, in whatever directory. */
  lemma NameInDirectory(dir: string, name: string)
    requires |name| > 0 && '/' !in name
    ensures Base(dir + "/" + name) == name && Base(name) == name
  {
    BaseOfFlat(name);
    var path := dir + "/" + name;
    assert path[|path| - 1] == name[|name| - 1] && name[|name| - 1] in name;
    LastElement(dir, name);
  }

  lemma {:induction false} LastElement(dir: string, name: string)
    requires '/' !in name
    ensures AfterLastSlash(dir + "/" + name) == name
  {
    var path := dir + "/" + name;
    if |name| > 0 {
      var shorter := name[..|name| - 1];
      LastElement(dir, shorter);
      assert path[..|path| - 1] == dir + "/" + shorter;
      assert path[|path| - 1] == name[|name| - 1] && name[|name| - 1] in name;
      assert shorter + [name[|name| - 1]] == name;
    } else {
      assert path[|path| - 1] == '/';
    }
  }

  lemma PawlAnalysis(words: seq<string>)
    requires |words| > 0 && words[0] == "pawl"
    ensures Commands([words]) == [words] && !AnyDoubtful([words])
  {
    hide IsAssignment, Doubtful, Base;
    PawlIsCommandWord();
    PawlIsNotDoubtful();
    assert Stripped(words) == words;
    assert [words][..0] == [];
    assert Commands([]) == [];
  }

  /** A line that starts with pawl is one pawl command, whatever its other words
      hold, quoted or bare. */
  lemma PawlLine(tokens: seq<Token>)
    requires |tokens| > 0 && tokens[0] == Bare("pawl") && forall i :: 0 <= i < |tokens| ==> TokenOk(tokens[i])
    ensures AnalysisOf(Line(tokens)) == Lexed([WordsOf(tokens)], false, false)
    ensures PawlOnly(Line(tokens)) && !VcsMutation(Line(tokens))
  {
    hide LexOf, Commands, AnyDoubtful, Doubtful, Base, Line, GitMutates, JjMutates, RawMutates;
    LineRoundTrip(tokens);
    var words := WordsOf(tokens);
    PawlAnalysis(words);
    PawlIsNotDoubtful();
    assert |"pawl"| != |"git"| && |"pawl"| != |"jj"|;
    assert !SegmentMutates(words);
  }

  /** Quoting hides nothing: a git command whose arguments are quoted is judged by
      exactly those arguments. */
  lemma QuotedGitIsJudged(tokens: seq<Token>)
    requires |tokens| > 0 && tokens[0] == Bare("git") && forall i :: 0 <= i < |tokens| ==> TokenOk(tokens[i])
    ensures VcsMutation(Line(tokens)) <==> GitMutates(WordsOf(tokens)[1..])
    ensures !PawlOnly(Line(tokens))
  {
    hide LexOf, Commands, AnyDoubtful, Doubtful, Base, Line, GitMutates, JjMutates, RawMutates;
    LineRoundTrip(tokens);
    var words := WordsOf(tokens);
    GitAnalysis(words);
    var a := AnalysisOf(Line(tokens));
    assert a.segs == [words] && a.segs[0] == words;
    assert |"git"| != |"jj"| && |"git"| != |"pawl"| && |"git"| != |"cd"|;
    assert SegmentMutates(words) <==> GitMutates(words[1..]);
  }

  /** A word that is run as it stands: no assignment, no reserved word, nothing that may run
      something else. */
  predicate PlainCommand(word: string) {
    !IsAssignment(word) && word !in LEADING_RESERVED && !Doubtful(word)
  }

  lemma {:induction false} PlainCommandsStay(raw: seq<seq<string>>)
    requires forall i :: 0 <= i < |raw| ==> |raw[i]| > 0 && PlainCommand(raw[i][0])
    ensures Commands(raw) == raw && !AnyDoubtful(raw)
  {
    hide IsAssignment, Doubtful;
    if |raw| > 0 {
      PlainCommandsStay(raw[..|raw| - 1]);
      assert Stripped(raw[|raw| - 1]) == raw[|raw| - 1];
      assert raw == raw[..|raw| - 1] + [raw[|raw| - 1]];
    }
  }

  /** A script is judged by each of its commands, whatever separates them: it mutates if and
      only if one of them does, and is pawl-only if and only if all are pawl or cd. */
  lemma ScriptIsJudged(lines: seq<seq<Token>>, seps: seq<string>)
    requires |lines| > 0 && |seps| == |lines| - 1 && LinesOk(lines)
    requires (forall i :: 0 <= i < |lines| ==> |lines[i]| > 0) && forall i :: 0 <= i < |seps| ==> IsSeparator(seps[i])
    requires forall i :: 0 <= i < |lines| ==> PlainCommand(lines[i][0].text)
    ensures VcsMutation(Script(lines, seps)) <==>
              exists i :: 0 <= i < |lines| &&
                var name, args := Base(lines[i][0].text), WordsOf(lines[i])[1..];
                (name == "git" && GitMutates(args)) || (name == "jj" && JjMutates(args))
    ensures PawlOnly(Script(lines, seps)) <==>
              forall i :: 0 <= i < |lines| ==> Base(lines[i][0].text) == "pawl" || Base(lines[i][0].text) == "cd"
  {
    hide LexOf, Commands, AnyDoubtful, PlainCommand, Base, Script, GitMutates, JjMutates, RawMutates;
    ScriptRoundTrip(lines, seps);
    var words := WordsOfAll(lines);
    PlainCommandsStay(words);
    var a := AnalysisOf(Script(lines, seps));
    assert a.segs == words && !a.subst && !a.unsure;
    assert forall i :: 0 <= i < |lines| ==> words[i][0] == lines[i][0].text && words[i] == WordsOf(lines[i]);
    if i :| 0 <= i < |lines| && SegmentMutates(words[i]) {
      assert SegmentMutates(a.segs[i]);
    }
  }

  lemma GitAnalysis(words: seq<string>)
    requires |words| > 0 && words[0] == "git"
    ensures Commands([words]) == [words] && !AnyDoubtful([words]) && Base("git") == "git"
  {
    hide IsAssignment, Doubtful, Base;
    GitIsCommandWord();
    BaseOfFlat("git");
    assert Stripped(words) == words;
    assert [words][..0] == [];
    assert Commands([]) == [];
  }

  lemma GitIsCommandWord()
    ensures !IsAssignment("git") && "git" !in LEADING_RESERVED && !Doubtful("git")
  {
    hide Base;
    var w := "git";
    BaseOfFlat(w);
    assert FirstEquals(w) == 3 by { assert w[2] == 't' && w[1] == 'i'; }
    assert forall s :: s in LEADING_RESERVED ==> |s| != 3 || s[0] != 'g';
    assert forall s :: s in WRAPPERS ==> |s| != 3 || s[0] != 'g';
    assert forall s :: s in UNSURE_STARTERS ==> |s| != 3 || s[0] != 'g';
    assert w[0] == 'g' && |w| == 3;
  }

  /** The submit of a result, with any text for the result. */
  function SubmitLine(run: string, step: string, json: string): seq<Token> {
    [Bare("pawl"), Bare("submit"), Bare("--run"), Bare(run), Bare("--step"), Bare(step), Bare("--json"), Quoted(json)]
  }

  lemma BareParts()
    ensures BareWord("pawl") && BareWord("submit") && BareWord("--run") && BareWord("--step") && BareWord("--json")
  {
    assert BareWord("submit");
  }

  /** Whatever bytes the result holds, its submit is a pawl-only command, mutates no
      version control, and is allowed under any live runs and guards. */
  lemma SubmitIsAlwaysAllowed(m: Matcher, runs: seq<LiveRun>, bash: bool, subagent: bool,
                              run: string, step: string, json: string)
    requires BareWord(run) && BareWord(step)
    ensures var cmd := Line(SubmitLine(run, step, json));
            && LexOf(cmd).segs == [["pawl", "submit", "--run", run, "--step", step, "--json", json]]
            && PawlOnly(cmd) && !VcsMutation(cmd) && PreAllows(m, runs, bash, subagent, cmd)
  {
    hide LexOf, PawlOnly, VcsMutation;
    var tokens := SubmitLine(run, step, json);
    BareParts();
    PawlLine(tokens);
    LineRoundTrip(tokens);
    assert WordsOf(tokens) == ["pawl", "submit", "--run", run, "--step", step, "--json", json];
  }
}
