/** The two argument parsers a command for `apiclient exec` passes through.  Behind `--` the
    words reach the command untouched, under a condition proved to be exact. */
module CommandLine {
  import opened Wrappers

  datatype Level = Off | Error | Warn | Info | Debug | Trace

  /** Reads a log level's name. */
  type Levels = string -> Option<Level>

  datatype Globals = Globals(logLevel: Level, socketPath: string)

  const DEFAULT_GLOBALS: Globals := Globals(Info, "/run/api.sock")

  predicate Dashed(arg: string) { arg != "" && arg[0] == '-' }

  const SUBCOMMANDS: set<string> := {"raw", "apply", "exec", "get", "lockdown", "network", "reboot", "report", "set",
                                     "update", "ephemeral-storage"}

  // -------------------------------------------------------------------------- the first parser

  /** What the next argument will be taken for. */
  datatype Expecting = Anything | LogLevel | SocketPath | Words

  datatype Scan = Usage | Scan(globals: Globals, subcommand: Option<string>, args: seq<string>, next: Expecting)

  const START: Scan := Scan(DEFAULT_GLOBALS, None, [], Anything)

  /** One argument of the loop. */
  function ScanArg(levels: Levels, s: Scan, arg: string): Scan {
    if s.Usage? then Usage
    else match s.next
      case Words => s.(args := s.args + [arg])
      case LogLevel =>
        (match levels(arg)
         case None => Usage
         case Some(level) => s.(globals := s.globals.(logLevel := level), next := Anything))
      case SocketPath => s.(globals := s.globals.(socketPath := arg), next := Anything)
      case Anything =>
        if arg == "--" then
          if s.subcommand.None? then Usage
          else if s.subcommand.value == "exec" then s.(next := Words)
          else s.(args := s.args + [arg])
        else if arg == "-h" || arg == "--help" then Usage
        else if arg == "--log-level" then s.(next := LogLevel)
        else if arg == "-v" || arg == "--verbose" then s.(globals := s.globals.(logLevel := Debug))
        else if arg == "-s" || arg == "--socket-path" then s.(next := SocketPath)
        else if arg in SUBCOMMANDS && s.subcommand.None? then s.(subcommand := Some(arg))
        else s.(args := s.args + [arg])
  }

  function ScanAll(levels: Levels, args: seq<string>): Scan {
    if args == [] then START else ScanArg(levels, ScanAll(levels, args[..|args| - 1]), args[|args| - 1])
  }

  /** The arguments for the subcommand, unless an option lacks its value. */
  function Scanned(s: Scan): Scan {
    if s.Scan? && (s.next.LogLevel? || s.next.SocketPath?) then Usage else s
  }

  /** `parse_args` up to the choice of the subcommand's parser. */
  method ScanArgs(levels: Levels, args: seq<string>) returns (s: Scan)
    ensures s == Scanned(ScanAll(levels, args))
  {
    var globals, subcommand, subcommandArgs := DEFAULT_GLOBALS, None, [];
    var i := 0;
    while i < |args|
      invariant i <= |args|
      invariant ScanAll(levels, args[..i]) == Scan(globals, subcommand, subcommandArgs, Anything)
    {
      var arg := args[i];
      ScanNext(levels, args, i);
      i := i + 1;
      if arg == "--" {
        if subcommand.None? {
          UsageStays(levels, args, i);
          return Usage;
        }
        if subcommand.value == "exec" {
          RestIsWords(levels, args, i);
          return Scan(globals, subcommand, subcommandArgs + args[i..], Words);
        }
        subcommandArgs := subcommandArgs + [arg];
      } else if arg == "-h" || arg == "--help" {
        UsageStays(levels, args, i);
        return Usage;
      } else if arg == "--log-level" {
        if i == |args| {
          assert args[..i] == args;
          return Usage;
        }
        ScanNext(levels, args, i);
        var level := levels(args[i]);
        i := i + 1;
        if level.None? {
          UsageStays(levels, args, i);
          return Usage;
        }
        globals := globals.(logLevel := level.value);
      } else if arg == "-v" || arg == "--verbose" {
        globals := globals.(logLevel := Debug);
      } else if arg == "-s" || arg == "--socket-path" {
        if i == |args| {
          assert args[..i] == args;
          return Usage;
        }
        ScanNext(levels, args, i);
        globals := globals.(socketPath := args[i]);
        i := i + 1;
      } else if arg in SUBCOMMANDS && subcommand.None? {
        subcommand := Some(arg);
      } else {
        subcommandArgs := subcommandArgs + [arg];
      }
    }
    assert args[..i] == args;
    s := Scan(globals, subcommand, subcommandArgs, Anything);
  }

  lemma ScanNext(levels: Levels, args: seq<string>, i: nat)
    requires i < |args|
    ensures ScanAll(levels, args[..i + 1]) == ScanArg(levels, ScanAll(levels, args[..i]), args[i])
  {
    assert args[..i + 1][..i] == args[..i];
  }

  lemma {:induction false} UsageStays(levels: Levels, args: seq<string>, i: nat)
    requires i <= |args| && ScanAll(levels, args[..i]).Usage?
    ensures ScanAll(levels, args).Usage?
    decreases |args| - i
  {
    if i == |args| {
      assert args[..i] == args;
    } else {
      ScanNext(levels, args, i);
      UsageStays(levels, args, i + 1);
    }
  }

  lemma {:induction false} RestIsWords(levels: Levels, args: seq<string>, i: nat)
    requires i <= |args| && ScanAll(levels, args[..i]).Scan? && ScanAll(levels, args[..i]).next.Words?
    ensures ScanAll(levels, args) ==
            ScanAll(levels, args[..i]).(args := ScanAll(levels, args[..i]).args + args[i..])
    decreases |args| - i
  {
    var s := ScanAll(levels, args[..i]);
    if i == |args| {
      assert args[..i] == args && s.args + args[i..] == s.args;
    } else {
      ScanNext(levels, args, i);
      RestIsWords(levels, args, i + 1);
      assert s.args + [args[i]] + args[i + 1..] == s.args + args[i..];
    }
  }

  // ------------------------------------------------------------------------- the second parser

  datatype Exec = ExecUsage | Exec(command: seq<string>, target: Option<string>, tty: Option<bool>)

  function ExecArg(e: Exec, arg: string): Exec {
    if e.ExecUsage? then ExecUsage
    else if e.command == [] && (arg == "-t" || arg == "--tty") then e.(tty := Some(true))
    else if e.command == [] && (arg == "-T" || arg == "--no-tty") then e.(tty := Some(false))
    else if e.command == [] && Dashed(arg) then ExecUsage
    else if e.target.None? then e.(target := Some(arg))
    else e.(command := e.command + [arg])
  }

  function ExecAll(args: seq<string>): Exec {
    if args == [] then Exec([], None, None) else ExecArg(ExecAll(args[..|args| - 1]), args[|args| - 1])
  }

  /** A target and a command are required. */
  function ExecDone(e: Exec): Exec {
    if e.Exec? && (e.target.None? || e.command == []) then ExecUsage else e
  }

  /** `parse_exec_args` */
  method ParseExecArgs(args: seq<string>) returns (e: Exec)
    ensures e == ExecDone(ExecAll(args))
  {
    e := Exec([], None, None);
    for i := 0 to |args|
      invariant e == ExecAll(args[..i])
    {
      assert args[..i + 1][..i] == args[..i];
      e := ExecArg(e, args[i]);
    }
    assert args[..|args|] == args;
    if e.Exec? && (e.target.None? || e.command == []) {
      e := ExecUsage;
    }
  }

  /** Once a command has begun, every further word belongs to it. */
  lemma {:induction false} CommandTakesAll(args: seq<string>, words: seq<string>)
    requires ExecAll(args).Exec? && ExecAll(args).target.Some? && ExecAll(args).command != []
    ensures ExecAll(args + words) == ExecAll(args).(command := ExecAll(args).command + words)
  {
    if words == [] {
      assert args + words == args;
    } else {
      var front := words[..|words| - 1];
      CommandTakesAll(args, front);
      assert (args + words)[..|args + words| - 1] == args + front;
      assert ExecAll(args).command + front + [words[|words| - 1]] == ExecAll(args).command + words;
    }
  }

  lemma ExecNext(args: seq<string>, words: seq<string>)
    requires words != []
    ensures ExecAll(args + [words[0]]) == ExecArg(ExecAll(args), words[0])
    ensures args + words == args + [words[0]] + words[1..]
  {
    hide ExecArg;
    assert words == [words[0]] + words[1..];
    var more := args + [words[0]];
    assert more[..|more| - 1] == args && more[|more| - 1] == words[0];
  }

  /** After a target, words make up the command exactly when there are some and the first does
      not begin with a dash. */
  lemma {:induction false} CommandIsWordsIff(args: seq<string>, words: seq<string>)
    requires ExecAll(args).Exec? && ExecAll(args).target.Some? && ExecAll(args).command == []
    ensures ExecDone(ExecAll(args + words)) == ExecAll(args).(command := words)
            <==> words != [] && !Dashed(words[0])
  {
    if words == [] {
      assert args + words == args;
    } else {
      ExecNext(args, words);
      if !Dashed(words[0]) {
        CommandTakesAll(args + [words[0]], words[1..]);
        assert [words[0]] + words[1..] == words;
      } else {
        CommandShorter(args + [words[0]], words[1..]);
      }
    }
  }

  lemma {:induction false} CommandShorter(args: seq<string>, words: seq<string>)
    requires ExecAll(args).Exec? ==> ExecAll(args).command == []
    ensures ExecAll(args + words).Exec? ==> |ExecAll(args + words).command| <= |words|
  {
    if words == [] {
      assert args + words == args;
    } else {
      CommandShorter(args, words[..|words| - 1]);
      assert (args + words)[..|args + words| - 1] == args + words[..|words| - 1];
    }
  }

  // ----------------------------------------------------------------------------- both together

  datatype Parsed = Failed | ParsedExec(globals: Globals, exec: Exec)

  /** Both parsers on a command line for `exec`. */
  function ParseExec(levels: Levels, args: seq<string>): Parsed {
    var s := Scanned(ScanAll(levels, args));
    if s.Scan? && s.subcommand == Some("exec") && ExecDone(ExecAll(s.args)).Exec? then
      ParsedExec(s.globals, ExecDone(ExecAll(s.args)))
    else Failed
  }

  lemma BehindSeparator(levels: Levels, front: seq<string>, words: seq<string>)
    requires var s := ScanAll(levels, front); s.Scan? && s.next.Anything? && s.subcommand == Some("exec")
    ensures var s := ScanAll(levels, front);
            ScanAll(levels, front + ["--"] + words) == s.(args := s.args + words, next := Words)
  {
    var all, n := front + ["--"] + words, |front|;
    assert all[..n] == front && all[n] == "--" && all[n + 1..] == words;
    ScanNext(levels, all, n);
    RestIsWords(levels, all, n + 1);
  }

  /** Whatever options precede, in any order: when the arguments in front of `--` name the exec
      subcommand and a target but no command yet, the words behind it become the command
      unchanged, with the options and the target as they were, exactly when there are words and
      the first does not begin with a dash. */
  lemma WordsPassThroughIff(levels: Levels, front: seq<string>, words: seq<string>)
    requires var s := ScanAll(levels, front);
             && s.Scan? && s.next.Anything? && s.subcommand == Some("exec")
             && var e := ExecAll(s.args); e.Exec? && e.target.Some? && e.command == []
    ensures var s := ScanAll(levels, front);
            ParseExec(levels, front + ["--"] + words) == ParsedExec(s.globals, ExecAll(s.args).(command := words))
            <==> words != [] && !Dashed(words[0])
  {
    BehindSeparator(levels, front, words);
    CommandIsWordsIff(ScanAll(levels, front).args, words);
  }

  // --------------------------------------------------------------------- what the options mean

  /** One piece of a command line in front of `--`. */
  datatype Item =
    | Verbose(long: bool)
    | LogLevelItem(name: string)
    | SocketItem(long: bool, path: string)
    | Plain(word: string)

  function Written(item: Item): seq<string> {
    match item
    case Verbose(long) => [if long then "--verbose" else "-v"]
    case LogLevelItem(name) => ["--log-level", name]
    case SocketItem(long, path) => [if long then "--socket-path" else "-s", path]
    case Plain(word) => [word]
  }

  function Line(items: seq<Item>): seq<string> {
    if items == [] then [] else Line(items[..|items| - 1]) + Written(items[|items| - 1])
  }

  const SPECIAL: set<string> := {"--", "-h", "--help", "--log-level", "-v", "--verbose", "-s", "--socket-path"}

  /** Level names are known, and plain words are not options of the first parser. */
  predicate Proper(levels: Levels, item: Item) {
    match item
    case LogLevelItem(name) => levels(name).Some?
    case Plain(word) => word !in SPECIAL
    case _ => true
  }

  /** The last level asked for; `-v` asks for debug. */
  function LevelOf(levels: Levels, items: seq<Item>): Level
    requires forall item :: item in items ==> Proper(levels, item)
  {
    if items == [] then Info
    else
      var last := items[|items| - 1];
      assert last in items && Proper(levels, last);
      match last
      case Verbose(_) => Debug
      case LogLevelItem(name) => levels(name).value
      case _ => LevelOf(levels, items[..|items| - 1])
  }

  /** The last socket path given. */
  function SocketOf(items: seq<Item>): string {
    if items == [] then "/run/api.sock"
    else if items[|items| - 1].SocketItem? then items[|items| - 1].path
    else SocketOf(items[..|items| - 1])
  }

  function PlainWords(items: seq<Item>): seq<string> {
    if items == [] then []
    else PlainWords(items[..|items| - 1]) + if items[|items| - 1].Plain? then [items[|items| - 1].word] else []
  }

  predicate NamesSubcommand(word: string) {
    || word == "raw" || word == "apply" || word == "exec" || word == "get" || word == "lockdown" || word == "network"
    || word == "reboot" || word == "report" || word == "set" || word == "update" || word == "ephemeral-storage"
  }

  /** The plain words split at the first one that names a subcommand. */
  function SubcommandOf(words: seq<string>): (Option<string>, seq<string>) {
    if words == [] then (None, [])
    else
      var front, last := SubcommandOf(words[..|words| - 1]), words[|words| - 1];
      if front.0.None? && NamesSubcommand(last) then (Some(last), front.1) else (front.0, front.1 + [last])
  }

  lemma ScanOne(levels: Levels, args: seq<string>, arg: string)
    ensures ScanAll(levels, args + [arg]) == ScanArg(levels, ScanAll(levels, args), arg)
  {
    hide ScanArg;
    var all := args + [arg];
    assert all[..|all| - 1] == args && all[|all| - 1] == arg;
  }

  lemma ScanTwo(levels: Levels, args: seq<string>, a: string, b: string)
    ensures ScanAll(levels, args + [a, b]) == ScanArg(levels, ScanArg(levels, ScanAll(levels, args), a), b)
  {
    hide ScanArg;
    ScanOne(levels, args, a);
    ScanOne(levels, args + [a], b);
    assert args + [a] + [b] == args + [a, b];
  }

  function AfterItem(levels: Levels, s: Scan, item: Item): Scan
    requires s.Scan? && Proper(levels, item)
  {
    match item
    case Verbose(_) => s.(globals := s.globals.(logLevel := Debug))
    case LogLevelItem(name) => s.(globals := s.globals.(logLevel := levels(name).value))
    case SocketItem(_, path) => s.(globals := s.globals.(socketPath := path))
    case Plain(word) =>
      if NamesSubcommand(word) && s.subcommand.None? then s.(subcommand := Some(word)) else s.(args := s.args + [word])
  }

  lemma SubcommandIff(word: string)
    ensures word in SUBCOMMANDS <==> NamesSubcommand(word)
  {
  }

  lemma ItemScanned(levels: Levels, args: seq<string>, item: Item, s: Scan)
    requires s == ScanAll(levels, args) && s.Scan? && s.next.Anything? && Proper(levels, item)
    ensures ScanAll(levels, args + Written(item)) == AfterItem(levels, s, item)
  {
    hide ScanAll;
    match item {
      case Verbose(long) => ScanOne(levels, args, Written(item)[0]);
      case LogLevelItem(name) => ScanTwo(levels, args, "--log-level", name);
      case SocketItem(long, path) => ScanTwo(levels, args, Written(item)[0], path);
      case Plain(word) =>
        SubcommandIff(word);
        hide NamesSubcommand;
        ScanOne(levels, args, word);
    }
  }

  lemma NothingScanned(levels: Levels)
    ensures ScanAll(levels, []) == START && SubcommandOf([]) == (None, []) && PlainWords([]) == []
    ensures LevelOf(levels, []) == Info && SocketOf([]) == "/run/api.sock" && Line([]) == []
  {
  }

  lemma WordSplit(words: seq<string>, word: string)
    ensures var front := SubcommandOf(words);
            SubcommandOf(words + [word]) ==
            if front.0.None? && NamesSubcommand(word) then (Some(word), front.1) else (front.0, front.1 + [word])
  {
    var all := words + [word];
    assert all[..|all| - 1] == words;
  }

  /** Options may stand anywhere among the plain words, and the last of a kind counts. */
  lemma {:induction false} OptionsMeaning(levels: Levels, items: seq<Item>)
    requires forall item :: item in items ==> Proper(levels, item)
    ensures var words := SubcommandOf(PlainWords(items));
            ScanAll(levels, Line(items)) ==
            Scan(Globals(LevelOf(levels, items), SocketOf(items)), words.0, words.1, Anything)
  {
    hide ScanAll, SubcommandOf, NamesSubcommand;
    NothingScanned(levels);
    if items != [] {
      var front, last := items[..|items| - 1], items[|items| - 1];
      assert last in items;
      OptionsMeaning(levels, front);
      ItemScanned(levels, Line(front), last, ScanAll(levels, Line(front)));
      if last.Plain? {
        WordSplit(PlainWords(front), last.word);
      } else {
        assert PlainWords(front) + [] == PlainWords(front);
      }
    }
  }

  /** What a line leaves the parser in, all else aside. */
  lemma LineScanned(levels: Levels, items: seq<Item>) returns (s: Scan)
    requires forall item :: item in items ==> Proper(levels, item)
    ensures s == ScanAll(levels, Line(items)) && s.Scan? && s.next.Anything?
    ensures s.subcommand == SubcommandOf(PlainWords(items)).0 && s.args == SubcommandOf(PlainWords(items)).1
  {
    hide *;
    OptionsMeaning(levels, items);
    s := ScanAll(levels, Line(items));
  }

  /** Lines the first parser refuses, whatever follows: help, and a separator with no subcommand. */
  lemma RefusedWords(levels: Levels, items: seq<Item>, word: string, rest: seq<string>)
    requires forall item :: item in items ==> Proper(levels, item)
    requires word == "-h" || word == "--help" || (word == "--" && SubcommandOf(PlainWords(items)).0.None?)
    ensures ScanAll(levels, Line(items) + [word] + rest).Usage?
  {
    hide ScanAll, Line, PlainWords, SubcommandOf, Proper;
    var s := LineScanned(levels, items);
    ScanOne(levels, Line(items), word);
    UsageAfter(levels, Line(items) + [word], rest);
  }

  /** And a level that is not known. */
  lemma RefusedLevel(levels: Levels, items: seq<Item>, name: string, rest: seq<string>)
    requires forall item :: item in items ==> Proper(levels, item)
    requires levels(name).None?
    ensures ScanAll(levels, Line(items) + ["--log-level", name] + rest).Usage?
  {
    hide ScanAll, Line, PlainWords, SubcommandOf, Proper;
    var s := LineScanned(levels, items);
    ScanTwo(levels, Line(items), "--log-level", name);
    UsageAfter(levels, Line(items) + ["--log-level", name], rest);
  }

  /** For a subcommand other than exec the separator is a word like any other. */
  lemma SeparatorElsewhere(levels: Levels, items: seq<Item>)
    requires forall item :: item in items ==> Proper(levels, item)
    requires SubcommandOf(PlainWords(items)).0.Some? && SubcommandOf(PlainWords(items)).0 != Some("exec")
    ensures var s := ScanAll(levels, Line(items));
            s.Scan? && ScanAll(levels, Line(items) + ["--"]) == s.(args := SubcommandOf(PlainWords(items)).1 + ["--"])
  {
    hide ScanAll, Line, PlainWords, SubcommandOf, Proper;
    var s := LineScanned(levels, items);
    ScanOne(levels, Line(items), "--");
  }

  /** And an option without its value at the end. */
  lemma ValueMissing(levels: Levels, items: seq<Item>, option: string)
    requires forall item :: item in items ==> Proper(levels, item)
    requires option in {"--log-level", "-s", "--socket-path"}
    ensures Scanned(ScanAll(levels, Line(items) + [option])).Usage?
  {
    hide ScanAll, Line, PlainWords, SubcommandOf, Proper;
    var s := LineScanned(levels, items);
    ScanOne(levels, Line(items), option);
  }

  lemma UsageAfter(levels: Levels, args: seq<string>, rest: seq<string>)
    ensures ScanAll(levels, args).Usage? ==> ScanAll(levels, args + rest).Usage?
  {
    if ScanAll(levels, args).Usage? {
      assert (args + rest)[..|args|] == args;
      UsageStays(levels, args + rest, |args|);
    }
  }

  // ------------------------------------------------------------------ a whole exec command line

  predicate TtyFlag(arg: string) { arg in {"-t", "--tty", "-T", "--no-tty"} }

  /** The last flag counts; without one the choice is left open. */
  function TtyOf(flags: seq<string>): Option<bool> {
    if flags == [] then None else Some(flags[|flags| - 1] in {"-t", "--tty"})
  }

  lemma ExecOne(args: seq<string>, arg: string)
    ensures ExecAll(args + [arg]) == ExecArg(ExecAll(args), arg)
  {
    hide ExecArg;
    var all := args + [arg];
    assert all[..|all| - 1] == args && all[|all| - 1] == arg;
  }

  lemma FlagTaken(e: Exec, flag: string)
    requires e.Exec? && e.command == [] && TtyFlag(flag)
    ensures ExecArg(e, flag) == e.(tty := Some(flag in {"-t", "--tty"}))
  {
  }

  /** Flags set the terminal choice and nothing else. */
  lemma {:induction false} FlagsMeaning(args: seq<string>, flags: seq<string>)
    requires ExecAll(args).Exec? && ExecAll(args).command == []
    requires forall flag :: flag in flags ==> TtyFlag(flag)
    ensures ExecAll(args + flags) ==
            if flags == [] then ExecAll(args) else ExecAll(args).(tty := TtyOf(flags))
  {
    hide ExecAll, ExecArg, TtyFlag;
    if flags == [] {
      assert args + flags == args;
    } else {
      var front, last := flags[..|flags| - 1], flags[|flags| - 1];
      assert last in flags;
      FlagsMeaning(args, front);
      ExecOne(args + front, last);
      assert args + front + [last] == args + flags;
      FlagTaken(ExecAll(args + front), last);
    }
  }

  /** What the second parser makes of flags around a target. */
  lemma TargetMeaning(before: seq<string>, target: string, after: seq<string>)
    requires !Dashed(target)
    requires forall flag :: flag in before + after ==> TtyFlag(flag)
    ensures ExecAll(before + [target] + after) == Exec([], Some(target), TtyOf(before + after))
  {
    hide ExecAll, ExecArg, TtyFlag, Dashed;
    assert forall flag :: flag in before ==> flag in before + after;
    assert forall flag :: flag in after ==> flag in before + after;
    NothingParsed();
    FlagsMeaning([], before);
    assert [] + before == before;
    TargetTaken(ExecAll(before), target);
    ExecOne(before, target);
    FlagsMeaning(before + [target], after);
    LastFlag(before, after);
  }

  lemma NothingParsed()
    ensures ExecAll([]) == Exec([], None, None)
  {
  }

  lemma TargetTaken(e: Exec, target: string)
    requires e.Exec? && e.command == [] && e.target.None? && !Dashed(target)
    ensures ExecArg(e, target) == e.(target := Some(target))
  {
  }

  lemma LastFlag(before: seq<string>, after: seq<string>)
    ensures TtyOf(before + after) == if after == [] then TtyOf(before) else TtyOf(after)
  {
    if after == [] {
      assert before + after == before;
    } else {
      assert (before + after)[|before + after| - 1] == after[|after| - 1];
    }
  }

  /** For every exec command line, with options of the first parser anywhere, flags around the target
      and words behind `--`: the level and the socket are those of the last such option, the target
      is that word, the terminal choice is what the last flag says, and the words are the command. */
  lemma ExecLineMeaning(levels: Levels, items: seq<Item>, before: seq<string>, target: string, after: seq<string>,
                        words: seq<string>)
    requires forall item :: item in items ==> Proper(levels, item)
    requires PlainWords(items) == ["exec"] + (before + [target] + after)
    requires !Dashed(target) && forall flag :: flag in before + after ==> TtyFlag(flag)
    requires words != [] && !Dashed(words[0])
    ensures ParseExec(levels, Line(items) + ["--"] + words) ==
            ParsedExec(Globals(LevelOf(levels, items), SocketOf(items)),
                       Exec(words, Some(target), TtyOf(before + after)))
  {
    OptionsMeaning(levels, items);
    ExecChosen(before + [target] + after);
    TargetMeaning(before, target, after);
    hide *;
    WordsPassThroughIff(levels, Line(items), words);
  }

  /** The first plain word being `exec`, the others are for its parser. */
  lemma {:induction false} ExecChosen(words: seq<string>)
    ensures SubcommandOf(["exec"] + words) == (Some("exec"), words)
  {
    if words == [] {
      assert SubcommandOf([]) == (None, []);
      WordSplit([], "exec");
      assert [] + ["exec"] == ["exec"] + words;
    } else {
      var front, last := words[..|words| - 1], words[|words| - 1];
      ExecChosen(front);
      WordSplit(["exec"] + front, last);
      assert ["exec"] + front + [last] == ["exec"] + words && front + [last] == words;
    }
  }

  lemma ControlScanned(levels: Levels)
    ensures ScanAll(levels, ["exec", "control"]) == Scan(DEFAULT_GLOBALS, Some("exec"), ["control"], Anything)
  {
    var front := ["exec", "control"];
    assert front[..1] == ["exec"] && ["exec"][..0] == [];
    assert ScanAll(levels, ["exec"]) == Scan(DEFAULT_GLOBALS, Some("exec"), [], Anything);
  }

  lemma ControlParsed()
    ensures ExecAll(["control", "-x"]) == ExecUsage
  {
    ExecNext([], ["control"]);
    ExecNext(["control"], ["-x"]);
    assert [] + ["control"] == ["control"] && ["control"] + ["-x"] == ["control", "-x"];
  }

  /** A first word with a dash is taken for an option of `exec` itself. */
  lemma DashedWordRefused(levels: Levels)
    ensures ParseExec(levels, ["exec", "control", "--", "-x"]) == Failed
  {
    hide ScanArg, ScanAll, ExecArg, ExecAll;
    ControlScanned(levels);
    BehindSeparator(levels, ["exec", "control"], ["-x"]);
    assert ["exec", "control"] + ["--"] + ["-x"] == ["exec", "control", "--", "-x"];
    assert ["control"] + ["-x"] == ["control", "-x"];
    ControlParsed();
  }
}
