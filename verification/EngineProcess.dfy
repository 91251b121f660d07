/** Which of the processes that look like an engine is this console's own? The answer is read off
    process lines, and decides who gets a signal. */
module EngineProcess {
  import opened Prelude
  import opened Text

  const ENGINE_RUN := ["engine", "run"]
  const CONFIG_DIR := "--config-dir"
  const CONFIG_DIR_EQ := "--config-dir="
  const SESSION_FILE := "--session-file"

  /** `engineArgs`. */
  function EngineArgs(configDir: string, sessionFile: string): seq<string> {
    var args := if Blank(sessionFile) then ENGINE_RUN else [SESSION_FILE, sessionFile] + ENGINE_RUN;
    if Blank(configDir) then args else [CONFIG_DIR, configDir] + args
  }

  /** The line `pgrep -a` prints for a process. */
  function ProcessLine(pid: nat, binary: string, args: seq<string>): string {
    Decimal(pid) + " " + Command(binary, args)
  }

  function Command(binary: string, args: seq<string>): string { Join([binary] + args) }

  // ---- reading a line -------------------------------------------------------------------------------

  /** The regular expression `tossctl( .*)? engine run`. */
  predicate LooksLikeAnEngine(command: string) {
    exists i, j | 0 <= i <= |command| && 0 <= j <= |command| :: EngineAt(command, i, j)
  }

  predicate EngineAt(command: string, i: int, j: int) {
    && OccursAt(command, "tossctl", i) && OccursAt(command, " engine run", j)
    && (j == i + 7 || (j > i + 7 && command[i + 7] == ' ' && '\n' !in command[i + 7..j]))
  }

  /** `strings.Cut(_, " ")`. */
  function CutAtSpace(s: string): Option<(string, string)>
    decreases |s|
  {
    if s == [] then None
    else if s[0] == ' ' then Some(([], s[1..]))
    else
      match CutAtSpace(s[1..])
      case None => None
      case Some((before, after)) => Some(([s[0]] + before, after))
  }

  /** `splitProcessLine`: the pid and the command line, or nothing that anybody can vouch for. */
  function SplitProcessLine(line: string): (r: Option<(nat, string)>)
    ensures r.Some? ==> r.value.0 > 0 && r.value.1 != []
  {
    match CutAtSpace(TrimSpace(line))
    case None => None
    case Some((number, rest)) =>
      match Atoi(number)
      case None => None
      case Some(pid) =>
        var command := TrimSpace(rest);
        if pid <= 0 || command == [] then None else Some((pid, command))
  }

  /** The first field that names a profile, in either spelling; empty when none does. */
  function ConfigDirIn(fields: seq<string>): string
    decreases |fields|
  {
    if fields == [] then ""
    else if fields[0] == CONFIG_DIR && |fields| > 1 then fields[1]
    else if CONFIG_DIR_EQ <= fields[0] then fields[0][|CONFIG_DIR_EQ|..]
    else ConfigDirIn(fields[1..])
  }

  method CommandConfigDir(command: string) returns (dir: string)
    ensures dir == ConfigDirIn(Fields(command))
  {
    var fields := Fields(command);
    for i := 0 to |fields|
      invariant ConfigDirIn(fields[i..]) == ConfigDirIn(fields)
    {
      var field := fields[i];
      assert fields[i..][1..] == fields[i + 1..];
      if field == CONFIG_DIR && i + 1 < |fields| {
        return fields[i + 1];
      }
      if CONFIG_DIR_EQ <= field {
        return field[|CONFIG_DIR_EQ|..];
      }
    }
    dir := "";
  }

  // ---- whose process is it --------------------------------------------------------------------------

  /** The console's view: its journal directory, the default one, and how a path is cleaned. */
  datatype Profile = Profile(journal: string, fallback: string, clean: string -> string)

  function Owned(p: Profile, configDir: string): string {
    if Blank(configDir) then p.fallback else configDir
  }

  predicate Owns(p: Profile, dir: string) { !Blank(dir) && p.clean(dir) == p.clean(p.journal) }

  /** What one line contributes. */
  function Kept(p: Profile, line: string): seq<nat> {
    match SplitProcessLine(line)
    case None => []
    case Some((pid, command)) =>
      if LooksLikeAnEngine(command) && Owns(p, Owned(p, ConfigDirIn(Fields(command)))) then [pid] else []
  }

  function KeptAll(p: Profile, lines: seq<string>): seq<nat>
    decreases |lines|
  {
    if lines == [] then [] else Kept(p, lines[0]) + KeptAll(p, lines[1..])
  }

  /** `enginePIDsForJournal`, with the loop of `pidsOwnedBy`. */
  method EnginePIDsForJournal(p: Profile, lines: seq<string>) returns (pids: seq<nat>)
    ensures pids == if Blank(p.journal) then [] else KeptAll(p, lines)
  {
    pids := [];
    if Blank(p.journal) {
      return;
    }
    for k := 0 to |lines|
      invariant pids == KeptAll(p, lines[..k])
    {
      pids := KeepLine(p, pids, lines[k]);
      OneMoreLine(p, lines, k);
    }
    assert lines[..|lines|] == lines;
  }

  lemma OneMoreLine(p: Profile, lines: seq<string>, k: nat)
    requires k < |lines|
    ensures KeptAll(p, lines[..k + 1]) == KeptAll(p, lines[..k]) + KeptAll(p, [lines[k]])
  {
    assert lines[..k] + [lines[k]] == lines[..k + 1];
    KeptConcat(p, lines[..k], [lines[k]]);
  }

  /** The body of that loop: unprovable lines are dropped. */
  method KeepLine(p: Profile, pids: seq<nat>, line: string) returns (kept: seq<nat>)
    ensures kept == pids + KeptAll(p, [line])
  {
    OneLine(p, line);
    var split := SplitProcessLine(line);
    if split.None? || !LooksLikeAnEngine(split.value.1) {
      return pids;
    }
    var dir := CommandConfigDir(split.value.1);
    var owned := if Blank(dir) then p.fallback else dir;
    if Blank(owned) || p.clean(owned) != p.clean(p.journal) {
      return pids;
    }
    kept := pids + [split.value.0];
  }

  // ---- what is kept ---------------------------------------------------------------------------------------

  /** What the pattern asks of a command: `tossctl`, then ` engine run` at once, or behind a space and anything
      that stays on the line. */
  lemma LooksLikeAnEngineIff(command: string)
    ensures LooksLikeAnEngine(command) <==> exists a, middle, b :: IsEngineCommand(command, a, middle, b)
  {
    if LooksLikeAnEngine(command) {
      var i, j :| 0 <= i <= |command| && 0 <= j <= |command| && EngineAt(command, i, j);
      EngineAtSplits(command, i, j);
    }
    if exists a, middle, b :: IsEngineCommand(command, a, middle, b) {
      var a, middle, b :| IsEngineCommand(command, a, middle, b);
      SplitIsEngineAt(command, a, middle, b);
    }
  }

  lemma EngineAtSplits(command: string, i: int, j: int)
    requires EngineAt(command, i, j)
    ensures IsEngineCommand(command, command[..i], command[i + 7..j], command[j + 11..])
  {
    assert command[..i] + command[i..i + 7] == command[..i + 7];
    assert command[..i + 7] + command[i + 7..j] == command[..j];
    assert command[..j] + command[j..j + 11] == command[..j + 11];
    assert command[..j + 11] + command[j + 11..] == command;
  }

  lemma SplitIsEngineAt(command: string, a: string, middle: string, b: string)
    requires IsEngineCommand(command, a, middle, b)
    ensures EngineAt(command, |a|, |a| + 7 + |middle|)
  {
    var i, j := |a|, |a| + 7 + |middle|;
    assert command[i..i + 7] == "tossctl";
    assert command[i + 7..j] == middle;
    assert command[j..j + 11] == " engine run";
    if middle != [] { assert command[i + 7] == middle[0]; }
  }

  predicate IsEngineCommand(command: string, a: string, middle: string, b: string) {
    && command == a + "tossctl" + middle + " engine run" + b
    && (middle == "" || (middle[0] == ' ' && '\n' !in middle))
  }

  lemma {:induction false} CutMeans(s: string)
    ensures CutAtSpace(s).Some? ==>
              var (before, after) := CutAtSpace(s).value;
              s == before + " " + after && ' ' !in before
    ensures CutAtSpace(s).None? <==> ' ' !in s
    decreases |s|
  {
    if s != [] && s[0] != ' ' {
      CutMeans(s[1..]);
      assert s == [s[0]] + s[1..];
    }
  }

  /** A line is vouched for if and only if, trimmed, it is a positive number, a space and a command that is
      not blank. */
  lemma SplitProcessLineIff(line: string)
    ensures
      var cut := CutAtSpace(TrimSpace(line));
      if cut.None? then SplitProcessLine(line).None?
      else
        var number, command := cut.value.0, TrimSpace(cut.value.1);
        && TrimSpace(line) == number + " " + cut.value.1 && ' ' !in number
        && (if Atoi(number).Some? && Atoi(number).value > 0 && command != ""
            then SplitProcessLine(line) == Some((Atoi(number).value, command))
            else SplitProcessLine(line).None?)
  {
    CutMeans(TrimSpace(line));
  }

  /** A line contributes its pid if and only if it is vouched for, is an engine's command, and the directory of
      its profile, or the default one when it names none, is not blank and cleans to the console's journal
      directory; otherwise nothing. */
  lemma KeptIff(p: Profile, line: string)
    ensures
      match SplitProcessLine(line)
      case None => Kept(p, line) == []
      case Some((pid, command)) =>
        var named := ConfigDirIn(Fields(command));
        var dir := if Blank(named) then p.fallback else named;
        var own := !Blank(dir) && p.clean(dir) == p.clean(p.journal);
        Kept(p, line) == if (exists a, middle, b :: IsEngineCommand(command, a, middle, b)) && own then [pid] else []
  {
    if SplitProcessLine(line).Some? {
      LooksLikeAnEngineIff(SplitProcessLine(line).value.1);
    }
  }

  // ---- the console recognises its own engine ----------------------------------------------------------

  /** An absolute binary path without spaces that ends in tossctl, as `binstamp.SelfPath` returns it. */
  predicate OwnBinary(binary: string) {
    Word(binary) && binary[0] == '/' && |binary| >= 7 && binary[|binary| - 7..] == "tossctl"
  }

  predicate Path(s: string) { s == [] || Word(s) }

  /** A session file named like the profile flag. */
  predicate PosesAsProfile(sessionFile: string) {
    sessionFile == CONFIG_DIR || CONFIG_DIR_EQ < sessionFile
  }

  lemma WordsAreNotBlank(s: string)
    requires Path(s)
    ensures Blank(s) <==> s == []
  {
    if s != [] { assert !IsSpace(s[0]); }
  }

  lemma ArgsAreWords(configDir: string, sessionFile: string, binary: string)
    requires Path(configDir) && Path(sessionFile) && OwnBinary(binary)
    ensures AllWords([binary] + EngineArgs(configDir, sessionFile))
  {
    WordsAreNotBlank(configDir);
    WordsAreNotBlank(sessionFile);
    FlagsAreWords();
    var args := if sessionFile == [] then ENGINE_RUN else [SESSION_FILE, sessionFile] + ENGINE_RUN;
    assert AllWords(args);
    assert AllWords([CONFIG_DIR, configDir] + args) || configDir == [];
  }

  lemma FlagsAreWords()
    ensures Word("engine") && Word("run") && Word(CONFIG_DIR) && Word(SESSION_FILE)
  {
  }

  lemma FieldsAreTheArgs(configDir: string, sessionFile: string, binary: string)
    requires Path(configDir) && Path(sessionFile) && OwnBinary(binary)
    ensures Fields(Command(binary, EngineArgs(configDir, sessionFile))) == [binary] + EngineArgs(configDir, sessionFile)
  {
    ArgsAreWords(configDir, sessionFile, binary);
    FieldsOfJoin([binary] + EngineArgs(configDir, sessionFile));
  }

  /** What the parser reads in the arguments themselves. */
  lemma ConfigDirOfArgs(configDir: string, sessionFile: string, binary: string)
    requires Path(configDir) && Path(sessionFile) && OwnBinary(binary)
    ensures ConfigDirIn([binary] + EngineArgs(configDir, sessionFile)) == configDir
            <==> configDir != [] || !PosesAsProfile(sessionFile)
  {
    WordsAreNotBlank(configDir);
    WordsAreNotBlank(sessionFile);
    var args := EngineArgs(configDir, sessionFile);
    SkipsField(binary, args);
    if configDir == [] {
      if sessionFile == [] {
        NoProfileInEngineRun();
      } else {
        assert args == [SESSION_FILE] + ([sessionFile] + ENGINE_RUN);
        SkipsField(SESSION_FILE, [sessionFile] + ENGINE_RUN);
        SessionFileField(sessionFile);
      }
    }
  }

  lemma SkipsField(field: string, rest: seq<string>)
    requires field != [] && (field[0] != '-' || field == SESSION_FILE)
    ensures ConfigDirIn([field] + rest) == ConfigDirIn(rest)
  {
    assert ([field] + rest)[1..] == rest;
    assert CONFIG_DIR_EQ[0] == '-' && CONFIG_DIR_EQ[2] != SESSION_FILE[2] && CONFIG_DIR[2] != SESSION_FILE[2];
  }

  lemma NoProfileInEngineRun()
    ensures ConfigDirIn(ENGINE_RUN) == ""
  {
    assert ENGINE_RUN == ["engine"] + ["run"] && ["run"] == ["run"] + [];
    SkipsField("engine", ["run"]);
    SkipsField("run", []);
  }

  lemma SessionFileField(sessionFile: string)
    requires sessionFile != []
    ensures ConfigDirIn([sessionFile] + ENGINE_RUN) == "" <==> !PosesAsProfile(sessionFile)
  {
    NoProfileInEngineRun();
    assert ([sessionFile] + ENGINE_RUN)[1..] == ENGINE_RUN;
  }

  /** The command line built from `engineArgs` names the profile it was built from, if and only if a
      profile was given or the session file is not named like the flag that gives one. */
  lemma {:induction false} ProfileRoundTrip(configDir: string, sessionFile: string, binary: string)
    requires Path(configDir) && Path(sessionFile) && OwnBinary(binary)
    ensures ConfigDirIn(Fields(Command(binary, EngineArgs(configDir, sessionFile)))) == configDir
            <==> configDir != [] || !PosesAsProfile(sessionFile)
  {
    FieldsAreTheArgs(configDir, sessionFile, binary);
    ConfigDirOfArgs(configDir, sessionFile, binary);
  }

  lemma {:induction false} CutAfter(word: string, rest: string)
    requires ' ' !in word
    ensures CutAtSpace(word + " " + rest) == Some((word, rest))
    decreases |word|
  {
    var s := word + " " + rest;
    if word == [] {
      assert s[1..] == rest;
    } else {
      assert s[1..] == word[1..] + " " + rest;
      CutAfter(word[1..], rest);
      assert [word[0]] + word[1..] == word;
    }
  }

  lemma {:induction false} OwnCommand(configDir: string, sessionFile: string, binary: string)
    requires Path(configDir) && Path(sessionFile) && OwnBinary(binary)
    ensures
      var command := Command(binary, EngineArgs(configDir, sessionFile));
      && command != [] && command[0] == '/' && command[|command| - 1] == 'n'
      && LooksLikeAnEngine(command)
  {
    var args := EngineArgs(configDir, sessionFile);
    var command := Command(binary, args);
    JoinPrepend(binary, args);
    var head := EndsInEngineRun(configDir, sessionFile);
    assert command == binary + (head + " engine run");
    var i, j := |binary| - 7, |binary| + |head|;
    assert OccursAt(command, "tossctl", i);
    assert OccursAt(command, " engine run", j);
    NoNewlines(configDir, sessionFile, binary);
    Middle(command, i + 7, j);
    if head != [] { assert command[i + 7] == head[0]; }
    assert EngineAt(command, i, j);
  }

  lemma Middle(s: string, i: nat, j: nat)
    requires i <= j <= |s|
    ensures '\n' !in s ==> '\n' !in s[i..j]
  {
  }

  lemma PrependFlag(flag: string, value: string, args: seq<string>, head: string)
    requires args != [] && " " + Join(args) == head + " engine run"
    ensures " " + Join([flag, value] + args) == (" " + flag + " " + value + head) + " engine run"
  {
    JoinPrepend(value, args);
    JoinPrepend(flag, [value] + args);
    assert [flag] + ([value] + args) == [flag, value] + args;
    assert " " + (flag + " " + (value + (" " + Join(args)))) == (" " + flag + " " + value) + (" " + Join(args));
    assert (" " + flag + " " + value) + (head + " engine run") == (" " + flag + " " + value + head) + " engine run";
    assert value + " " + Join(args) == value + (" " + Join(args));
    assert flag + " " + Join([value] + args) == flag + " " + (value + (" " + Join(args)));
  }

  /** The joined arguments end in the subcommand; what comes before it starts with a space. */
  lemma EndsInEngineRun(configDir: string, sessionFile: string) returns (head: string)
    requires Path(configDir) && Path(sessionFile)
    ensures " " + Join(EngineArgs(configDir, sessionFile)) == head + " engine run"
    ensures head == [] || head[0] == ' '
  {
    assert ENGINE_RUN[1..] == ["run"];
    assert " " + Join(ENGINE_RUN) == " engine run";
    head := "";
    var args := ENGINE_RUN;
    if !Blank(sessionFile) {
      PrependFlag(SESSION_FILE, sessionFile, args, head);
      head, args := " " + SESSION_FILE + " " + sessionFile + head, [SESSION_FILE, sessionFile] + args;
    }
    if !Blank(configDir) {
      PrependFlag(CONFIG_DIR, configDir, args, head);
      head, args := " " + CONFIG_DIR + " " + configDir + head, [CONFIG_DIR, configDir] + args;
    }
  }

  lemma NoNewlines(configDir: string, sessionFile: string, binary: string)
    requires Path(configDir) && Path(sessionFile) && OwnBinary(binary)
    ensures '\n' !in Command(binary, EngineArgs(configDir, sessionFile))
  {
    ArgsAreWords(configDir, sessionFile, binary);
    JoinHasNo([binary] + EngineArgs(configDir, sessionFile), '\n');
  }

  /** The process line of an engine parses back to its pid and its command line. */
  lemma {:induction false} LineRoundTrip(pid: nat, configDir: string, sessionFile: string, binary: string)
    requires pid > 0 && Path(configDir) && Path(sessionFile) && OwnBinary(binary)
    ensures
      var args := EngineArgs(configDir, sessionFile);
      SplitProcessLine(ProcessLine(pid, binary, args)) == Some((pid, Command(binary, args)))
  {
    var command := Command(binary, EngineArgs(configDir, sessionFile));
    var number := Decimal(pid);
    OwnCommand(configDir, sessionFile, binary);
    DigitsOfDecimal(pid);
    SplitLine(pid, number, command);
  }

  lemma SplitLine(pid: nat, number: string, command: string)
    requires pid > 0 && number != [] && Digits(number) == Some(pid)
    requires forall k :: 0 <= k < |number| ==> '0' <= number[k] <= '9'
    requires command != [] && !IsSpace(command[0]) && !IsSpace(command[|command| - 1])
    ensures SplitProcessLine(number + " " + command) == Some((pid, command))
  {
    TrimNothing(number + " " + command);
    CutAfter(number, command);
    TrimNothing(command);
    AtoiOfDigits(number);
  }

  lemma AtoiOfDigits(number: string)
    requires number != [] && '0' <= number[0] <= '9' && Digits(number).Some?
    ensures Atoi(number) == Some(Digits(number).value)
  {
  }

  lemma {:induction false} KeptConcat(p: Profile, a: seq<string>, b: seq<string>)
    ensures KeptAll(p, a + b) == KeptAll(p, a) + KeptAll(p, b)
    decreases |a|
  {
    if a == [] {
      assert a + b == b;
    } else {
      assert (a + b)[1..] == a[1..] + b;
      KeptConcat(p, a[1..], b);
    }
  }

  lemma {:induction false} KeptOwn(p: Profile, pid: nat, configDir: string, sessionFile: string, binary: string)
    requires pid > 0 && Path(configDir) && Path(sessionFile) && OwnBinary(binary)
    requires configDir != [] || !PosesAsProfile(sessionFile)
    ensures Kept(p, ProcessLine(pid, binary, EngineArgs(configDir, sessionFile)))
         == if Owns(p, Owned(p, configDir)) then [pid] else []
  {
    LineRoundTrip(pid, configDir, sessionFile, binary);
    ProfileRoundTrip(configDir, sessionFile, binary);
    OwnCommand(configDir, sessionFile, binary);
  }

  /** What a line contributes among any others. */
  lemma {:induction false} KeptAmongOthers(p: Profile, line: string, before: seq<string>, after: seq<string>)
    ensures KeptAll(p, before + [line] + after) == KeptAll(p, before) + Kept(p, line) + KeptAll(p, after)
  {
    KeptConcat(p, before + [line], after);
    KeptConcat(p, before, [line]);
    OneLine(p, line);
  }

  /** Without a profile of its own, an engine whose session file poses as one is taken for its owner. */
  lemma {:induction false} PosingMisleads(pid: nat, sessionFile: string, binary: string) returns (p: Profile)
    requires pid > 0 && Word(sessionFile) && OwnBinary(binary) && PosesAsProfile(sessionFile)
    ensures Kept(p, ProcessLine(pid, binary, EngineArgs("", sessionFile))) == [pid] && !Owns(p, Owned(p, ""))
  {
    var args := EngineArgs("", sessionFile);
    var dir := ConfigDirIn([binary] + args);
    p := Profile(dir, "", (s: string) => s);
    PosingIsParsed(sessionFile, binary);
    LineRoundTrip(pid, "", sessionFile, binary);
    FieldsAreTheArgs("", sessionFile, binary);
    OwnCommand("", sessionFile, binary);
  }

  lemma PosingIsParsed(sessionFile: string, binary: string)
    requires Word(sessionFile) && OwnBinary(binary) && PosesAsProfile(sessionFile)
    ensures !Blank(ConfigDirIn([binary] + EngineArgs("", sessionFile)))
  {
    WordsAreNotBlank(sessionFile);
    var args := EngineArgs("", sessionFile);
    SkipsField(binary, args);
    assert args == [SESSION_FILE] + ([sessionFile] + ENGINE_RUN);
    SkipsField(SESSION_FILE, [sessionFile] + ENGINE_RUN);
    if sessionFile == CONFIG_DIR {
      assert !IsSpace("engine"[0]);
    } else {
      assert sessionFile != CONFIG_DIR && !IsSpace(sessionFile[|CONFIG_DIR_EQ|]);
    }
  }

  /** The line says what its engine's profile is to this console: the pid is kept among any other lines if
      and only if the profile's directory, or the default one when it named none, is the console's own. */
  ghost predicate Recognised(
      p: Profile, pid: nat, configDir: string, line: string, before: seq<string>, after: seq<string>) {
    var dir := if configDir == "" then p.fallback else configDir;
    var own := !Blank(dir) && p.clean(dir) == p.clean(p.journal);
    KeptAll(p, before + [line] + after) == KeptAll(p, before) + (if own then [pid] else []) + KeptAll(p, after)
  }

  /** Every console recognises exactly its own engines among any other lines, if and only if the engine was
      given a profile or its session file is not named like the flag that gives one. */
  lemma {:induction false} RecognisesItsOwn(
      pid: nat, configDir: string, sessionFile: string, binary: string, before: seq<string>, after: seq<string>)
    requires pid > 0 && Path(configDir) && Path(sessionFile) && OwnBinary(binary)
    ensures
      var line := ProcessLine(pid, binary, EngineArgs(configDir, sessionFile));
      (forall p :: Recognised(p, pid, configDir, line, before, after)) <==>
        configDir != [] || !PosesAsProfile(sessionFile)
  {
    var line := ProcessLine(pid, binary, EngineArgs(configDir, sessionFile));
    WordsAreNotBlank(configDir);
    if configDir != [] || !PosesAsProfile(sessionFile) {
      forall p
        ensures Recognised(p, pid, configDir, line, before, after)
      {
        KeptAmongOthers(p, line, before, after);
        KeptOwn(p, pid, configDir, sessionFile, binary);
      }
    } else {
      var p := PosingMisleads(pid, sessionFile, binary);
      KeptAmongOthers(p, line, before, after);
      assert |KeptAll(p, before) + [pid] + KeptAll(p, after)| != |KeptAll(p, before) + [] + KeptAll(p, after)|;
      assert !Recognised(p, pid, configDir, line, before, after);
    }
  }

  lemma OneLine(p: Profile, line: string)
    ensures KeptAll(p, [line]) == Kept(p, line)
  {
    assert [line][1..] == [];
  }
}
