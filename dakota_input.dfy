/**
  The text of the Dakota input file `dakota.in` and of the Dakota command line
  written by the Dakota initializer script.

  Every section is a fixed text shape filled in from a few fields of the
  initializer: whether a restart file was given, whether an explicit driver
  script is used, the number of cores and nodes, the number of design variables
  `nx` of the optimisation problem, and the absolute output directory. The
  sections are written one after the other with Ruby's `puts`, which adds a
  newline only to text that does not already end in one.
*/
module DakotaInput {
  import opened Common

  /** The optimisation problem, of which only the number of design variables is used here. */
  datatype Problem = Problem(nx: int)

  /** The fields of the initializer that the generated text depends on. `problem` is None when
      no problem file was given; `fullRestartFile` is meaningful only when `restartFile` is not
      empty; `dakotaExe` is None when no Dakota executable was found. */
  datatype Initializer = Initializer(
    restartFile: string,
    fullRestartFile: string,
    driver: bool,
    nodes: int,
    cores: int,
    problem: Option<Problem>,
    fullOutDir: string,
    openStudioDir: string,
    dakotaExe: Option<string>)

  // ---------------------------------------------------------------------------
  // Integer#to_s and its inverse
  // ---------------------------------------------------------------------------

  predicate IsDigit(ch: char) {
    '0' <= ch <= '9'
  }

  predicate AllDigits(s: string) {
    forall i :: 0 <= i < |s| ==> IsDigit(s[i])
  }

  function DigitChar(d: nat): (ch: char)
    requires d < 10
    ensures IsDigit(ch)
  {
    ('0' as int + d) as char
  }

  function DigitValue(ch: char): nat
    requires IsDigit(ch)
  {
    ch as int - '0' as int
  }

  /** The decimal digits of `n`, most significant first, without leading zeros. */
  function NatDigits(n: nat): (s: string)
    ensures |s| > 0 && AllDigits(s)
    ensures |s| > 1 ==> s[0] != '0'
  {
    if n < 10 then [DigitChar(n)] else NatDigits(n / 10) + [DigitChar(n % 10)]
  }

  /** Integer#to_s: an optional minus sign followed by the decimal digits. */
  function DecimalString(n: int): string {
    if n < 0 then "-" + NatDigits(-n) else NatDigits(n)
  }

  function ParseNat(s: string): nat
    requires AllDigits(s)
  {
    if s == [] then 0 else ParseNat(s[..|s| - 1]) * 10 + DigitValue(s[|s| - 1])
  }

  /** Reads back a decimal integer with an optional minus sign. */
  function ParseDecimal(s: string): Option<int> {
    if |s| > 1 && s[0] == '-' && AllDigits(s[1..]) then Some(-(ParseNat(s[1..]) as int))
    else if |s| > 0 && AllDigits(s) then Some(ParseNat(s))
    else None
  }

  lemma {:induction false} ParseNatDigits(n: nat)
    ensures ParseNat(NatDigits(n)) == n
  {
    if n >= 10 {
      var s := NatDigits(n);
      assert s[..|s| - 1] == NatDigits(n / 10);
      ParseNatDigits(n / 10);
    }
  }

  /** The text of an integer reads back as that integer. */
  lemma DecimalRoundTrip(n: int)
    ensures ParseDecimal(DecimalString(n)) == Some(n)
  {
    if n < 0 {
      var s := DecimalString(n);
      assert s[1..] == NatDigits(-n);
      ParseNatDigits(-n);
    } else {
      ParseNatDigits(n);
    }
  }

  // ---------------------------------------------------------------------------
  // Text helpers
  // ---------------------------------------------------------------------------

  predicate EndsWith(s: string, suffix: string) {
    |suffix| <= |s| && s[|s| - |suffix|..] == suffix
  }

  predicate StartsWith(s: string, prefix: string) {
    |prefix| <= |s| && s[..|prefix|] == prefix
  }

  predicate EndsWithNewline(s: string) {
    |s| > 0 && s[|s| - 1] == '\n'
  }

  /** What Ruby's `puts` writes for one string: the string, plus a newline unless it ends in one. */
  function Puts(s: string): (written: string)
    ensures EndsWithNewline(written)
    ensures EndsWithNewline(s) ==> written == s
    ensures !EndsWithNewline(s) ==> written == s + "\n"
  {
    if EndsWithNewline(s) then s else s + "\n"
  }

  /** A file name joined onto a directory with the path separator. */
  function JoinPath(dir: string, name: string): (path: string)
    ensures '\n' !in dir && '\n' !in name ==> '\n' !in path
  {
    if dir == [] then name
    else if dir[|dir| - 1] == '/' then dir + name
    else dir + "/" + name
  }

  /** A joined path lies inside its directory and names the file: it starts with the directory,
      ends with the name, and puts exactly one separator between them. */
  lemma JoinPathInDirectory(dir: string, name: string)
    requires dir != []
    ensures StartsWith(JoinPath(dir, name), dir) && EndsWith(JoinPath(dir, name), name)
    ensures JoinPath(dir, name)[..|JoinPath(dir, name)| - |name|] == if dir[|dir| - 1] == '/' then dir else dir + "/"
  {
  }

  predicate NoNewlines(lines: seq<string>) {
    forall i :: 0 <= i < |lines| ==> '\n' !in lines[i]
  }

  /** The text that appending each line followed by a newline builds. */
  function Unlines(lines: seq<string>): (text: string)
    ensures lines != [] ==> EndsWithNewline(text)
  {
    if lines == [] then [] else lines[0] + "\n" + Unlines(lines[1..])
  }

  /** The text of a line: everything before the first newline. */
  function TakeLine(s: string): (line: string)
    ensures '\n' !in line
    ensures |line| <= |s| && s[..|line|] == line
    ensures |line| < |s| ==> s[|line|] == '\n'
  {
    if s == [] || s[0] == '\n' then [] else [s[0]] + TakeLine(s[1..])
  }

  /** The lines of a text; a final newline ends the last line rather than starting a new one. */
  function Lines(s: string): seq<string>
    decreases |s|
  {
    if s == [] then []
    else
      var line := TakeLine(s);
      if |line| == |s| then [line] else [line] + Lines(s[|line| + 1..])
  }

  lemma {:induction false} TakeLineOf(line: string, rest: string)
    requires '\n' !in line
    ensures TakeLine(line + "\n" + rest) == line
  {
    if line != [] {
      assert (line + "\n" + rest)[1..] == line[1..] + "\n" + rest;
      TakeLineOf(line[1..], rest);
    }
  }

  lemma LinesOf(line: string, rest: string)
    requires '\n' !in line
    ensures Lines(line + "\n" + rest) == [line] + Lines(rest)
  {
    var s := line + "\n" + rest;
    TakeLineOf(line, rest);
    assert s[|line| + 1..] == rest;
  }

  /** Splitting the joined lines gives the lines back. */
  lemma {:induction false} LinesOfUnlines(lines: seq<string>)
    requires NoNewlines(lines)
    ensures Lines(Unlines(lines)) == lines
  {
    if lines != [] {
      LinesOf(lines[0], Unlines(lines[1..]));
      LinesOfUnlines(lines[1..]);
    }
  }

  /** The text after `key` on line `index` of `text`, if that line starts with `key`. */
  function LineValue(text: string, index: nat, key: string): (value: Option<string>)
    ensures value.Some? ==> index < |Lines(text)| && Lines(text)[index] == key + value.value
  {
    var lines := Lines(text);
    if index < |lines| && StartsWith(lines[index], key) then Some(lines[index][|key|..]) else None
  }

  // ---------------------------------------------------------------------------
  // The sections of dakota.in
  // ---------------------------------------------------------------------------

  /** 1 for a fresh run, 2 for a run that reads a restart file. */
  function RunNumber(init: Initializer): string {
    if init.restartFile == [] then "1" else "2"
  }

  const HeaderLines: seq<string> := ["# Autogenerated by DakotaInitializer.rb", ""]

  /** A fixed comment line followed by a blank line. */
  function Header(): string {
    Unlines(HeaderLines)
  }

  /** The strategy section: tabular file 1 and a blank line for a fresh run, file 2 without the
      blank line when restarting. */
  function Strategy(init: Initializer): string {
    Unlines(StrategyLines(init))
  }

  const TabularFileKey: string := "        tabular_graphics_file='dakota_tabular_"

  function StrategyLines(init: Initializer): seq<string> {
    ["strategy,",
     "        single_method",
     "        tabular_graphics_data",
     TabularFileKey + RunNumber(init) + ".dat'"]
    + if init.restartFile == [] then [""] else []
  }

  /** The method section is defined by each concrete study; the base initializer raises. */
  function Method(derived: Option<string>): (r: Result<string>)
    ensures derived.None? <==> r == Failure("Derived class must define.")
    ensures derived.Some? ==> r == Success(derived.value)
  {
    if derived.Some? then Success(derived.value) else Failure("Derived class must define.")
  }

  const ModelLines: seq<string> := ["model,", "  single", ""]

  /** The model section, which the input file leaves out. */
  function ModelSection(): string {
    Unlines(ModelLines)
  }

  const ContinuousDesignKey: string := "        continuous_design = "

  /** The variables section declares `nx` continuous design variables; without a problem,
      reading `nx` raises. */
  function Variables(init: Initializer): (r: Result<string>)
    ensures r.Success? <==> init.problem.Some?
  {
    if init.problem.None? then Failure("undefined method `nx' for nil:NilClass")
    else Success(Unlines(["variables,", ContinuousDesignKey + DecimalString(init.problem.value.nx), ""]))
  }

  const EvaluationConcurrencyKey: string := "          evaluation_concurrency = "

  /** The interface section: with a driver, an asynchronous fork running the driver script on
      `cores` evaluations at once; without, a plain fork whose files sit in the output directory. */
  function Interface(init: Initializer): string {
    Unlines(InterfaceLines(init))
  }

  /** The opening of the interface section in both modes. */
  const ForkLines: seq<string> := ["interface,", "        fork"]

  const AsynchronousLine: string := "          asynchronous"

  /** The files the driver exchanges with Dakota, tagged per evaluation, and the closing blank line. */
  const DriverFileLines: seq<string> :=
    ["          parameters_file = 'params.in'", "          results_file    = 'results.out'", "            file_tag", ""]

  function ConcurrencyLine(cores: int): string {
    EvaluationConcurrencyKey + DecimalString(cores)
  }

  function DriverLine(openStudioDir: string): string {
    "          analysis_driver = \"ruby -I'" + openStudioDir + "' dakota_driver.rb\""
  }

  /** The dummy driver, parameters file and results file, each a path in the output directory. */
  function WatchedFileLines(fullOutDir: string): seq<string> {
    ["          analysis_driver = 'ruby " + JoinPath(fullOutDir, "dummy_driver.rb") + "'",
     "          parameters_file = '" + JoinPath(fullOutDir, "params.in") + "'",
     "          results_file = '" + JoinPath(fullOutDir, "results.out") + "'"]
  }

  function InterfaceLines(init: Initializer): seq<string> {
    if init.driver then
      ForkLines + [AsynchronousLine, ConcurrencyLine(init.cores), DriverLine(init.openStudioDir)] + DriverFileLines
    else
      ForkLines + WatchedFileLines(init.fullOutDir) + [""]
  }

  const ResponsesLines: seq<string> :=
    ["responses,", "        num_objective_functions = 1", "        no_gradients", "        no_hessians", ""]

  /** One objective function, no gradients, no hessians, then a blank line. */
  function Responses(): string {
    Unlines(ResponsesLines)
  }

  /** What writing dakota.in leaves in the file, and the message of the exception that cut the
      writing short, if any. */
  datatype Written = Written(text: string, raised: Option<string>)

  /** dakota.in: header, strategy, method, variables, interface and responses, each written with
      `puts`; the model section is not written. An exception stops the writing where it is raised. */
  function InFile(init: Initializer, derivedMethod: Option<string>): Written {
    var opening := Puts(Header()) + Puts(Strategy(init));
    match Method(derivedMethod)
    case Failure(e) => Written(opening, Some(e))
    case Success(methodText) =>
      match Variables(init)
      case Failure(e) => Written(opening + Puts(methodText), Some(e))
      case Success(variables) =>
        Written(opening + Puts(methodText) + Puts(variables) + Puts(Interface(init)) + Puts(Responses()), None)
  }

  // ---------------------------------------------------------------------------
  // The Dakota command line
  // ---------------------------------------------------------------------------

  /** The arguments after `-i`: output and restart files numbered by the run, and for a restart
      the quoted restart file to read. */
  function DakotaCall(init: Initializer): string {
    "dakota.in -o syscall" + RunNumber(init) + ".out -write_restart dakota" + RunNumber(init) + ".rst"
    + if init.restartFile == [] then "" else " -read_restart '" + init.fullRestartFile + "'"
  }

  /** How the run is started: not at all without an executable; with a driver, by a system call
      (through mpirun on more than one node); without, by a script handed to the run manager. */
  datatype KickOff = NoDakota | SystemCall(command: string) | RunManagerScript(script: string)

  function KickOffAction(init: Initializer): (k: KickOff)
    ensures k.NoDakota? <==> init.dakotaExe.None?
    ensures k.SystemCall? <==> init.dakotaExe.Some? && init.driver
  {
    if init.dakotaExe.None? then NoDakota
    else if init.driver then
      if init.nodes > 1 then
        SystemCall("mpirun -np " + DecimalString(init.nodes) + " " + init.dakotaExe.value + " -i " + DakotaCall(init))
      else
        SystemCall(init.dakotaExe.value + " -i " + DakotaCall(init))
    else
      RunManagerScript(Unlines(["system(\"" + init.dakotaExe.value + " -i ../" + DakotaCall(init) + "\")",
                                "puts 'Done.'"]))
  }

  // ---------------------------------------------------------------------------
  // Properties of the generated text
  // ---------------------------------------------------------------------------

  /** Every section ends in a newline, so `puts` writes each one unchanged and the file is the
      plain concatenation of the sections in order. */
  lemma InFileIsSectionsInOrder(init: Initializer, methodText: string)
    requires EndsWithNewline(methodText)
    requires init.problem.Some?
    ensures InFile(init, Some(methodText)) ==
            Written(Header() + Strategy(init) + methodText + Variables(init).value + Interface(init) + Responses(), None)
  {
  }

  /** Without a derived method section, only the header and the strategy reach the file. */
  lemma BaseMethodRaises(init: Initializer)
    ensures InFile(init, None) ==
            Written(Header() + Strategy(init), Some("Derived class must define."))
  {
  }

  lemma HeaderLinesHaveNoNewlines()
    ensures NoNewlines(HeaderLines)
  {
    assert '\n' !in HeaderLines[0];
  }

  lemma ResponsesLinesHaveNoNewlines()
    ensures NoNewlines(ResponsesLines)
  {
    assert '\n' !in ResponsesLines[1];
  }

  /** The header is one comment line and a blank line; the responses section declares one
      objective function, no gradients and no hessians, then a blank line. Neither depends on
      the initializer. */
  lemma FixedSections()
    ensures Lines(Header()) == ["# Autogenerated by DakotaInitializer.rb", ""]
    ensures Lines(Responses())
            == ["responses,", "        num_objective_functions = 1", "        no_gradients", "        no_hessians", ""]
  {
    HeaderLinesHaveNoNewlines();
    LinesOfUnlines(HeaderLines);
    ResponsesLinesHaveNoNewlines();
    LinesOfUnlines(ResponsesLines);
  }

  /** The strategy text splits back into the lines it was built from. */
  lemma StrategyRoundTrip(init: Initializer)
    ensures Lines(Strategy(init)) == StrategyLines(init)
  {
    assert NoNewlines(StrategyLines(init));
    LinesOfUnlines(StrategyLines(init));
  }

  /** A fresh run names tabular file 1 and ends the strategy section with a blank line; a
      restart names tabular file 2 and has no blank line. */
  lemma StrategyTabularFile(init: Initializer)
    ensures var lines := Lines(Strategy(init));
            |lines| >= 4 && lines[..3] == ["strategy,", "        single_method", "        tabular_graphics_data"]
    ensures init.restartFile == [] ==>
              var lines := Lines(Strategy(init));
              |lines| == 5 && lines[3] == TabularFileKey + "1.dat'" && lines[4] == ""
    ensures init.restartFile != [] ==>
              var lines := Lines(Strategy(init));
              |lines| == 4 && lines[3] == TabularFileKey + "2.dat'"
  {
    StrategyRoundTrip(init);
  }

  /** Reads the number of design variables back out of a variables section. */
  function ContinuousDesign(section: string): Option<int> {
    match LineValue(section, 1, ContinuousDesignKey)
    case None => None
    case Some(digits) => ParseDecimal(digits)
  }

  /** The variables section declares exactly the problem's `nx` continuous design variables, and
      is three lines long, the last one blank. */
  lemma VariablesDeclareNx(init: Initializer)
    requires init.problem.Some?
    ensures Variables(init).Success?
    ensures ContinuousDesign(Variables(init).value) == Some(init.problem.value.nx)
    ensures |Lines(Variables(init).value)| == 3 && Lines(Variables(init).value)[2] == ""
  {
    var digits := DecimalString(init.problem.value.nx);
    var lines := ["variables,", ContinuousDesignKey + digits, ""];
    assert NoNewlines(lines);
    LinesOfUnlines(lines);
    assert (ContinuousDesignKey + digits)[|ContinuousDesignKey|..] == digits;
    DecimalRoundTrip(init.problem.value.nx);
  }

  /** Reads the evaluation concurrency back out of an interface section. */
  function EvaluationConcurrency(section: string): Option<int> {
    match LineValue(section, 3, EvaluationConcurrencyKey)
    case None => None
    case Some(digits) => ParseDecimal(digits)
  }

  lemma NoNewlinesConcat(a: seq<string>, b: seq<string>)
    requires NoNewlines(a) && NoNewlines(b)
    ensures NoNewlines(a + b)
  {
    forall i | 0 <= i < |a + b|
      ensures '\n' !in (a + b)[i]
    {
      if i >= |a| {
        assert (a + b)[i] == b[i - |a|];
      }
    }
  }

  lemma ForkLinesHaveNoNewlines()
    ensures NoNewlines(ForkLines) && '\n' !in AsynchronousLine
  {
  }

  lemma DriverFileLinesHaveNoNewlines()
    ensures NoNewlines(DriverFileLines)
  {
    assert '\n' !in DriverFileLines[0];
    assert '\n' !in DriverFileLines[1];
  }

  lemma ConcurrencyLineHasNoNewline(cores: int)
    ensures '\n' !in ConcurrencyLine(cores)
  {
    var digits := DecimalString(cores);
    assert forall i :: 0 <= i < |digits| ==> digits[i] == '-' || IsDigit(digits[i]);
  }

  lemma DriverLineHasNoNewline(openStudioDir: string)
    requires '\n' !in openStudioDir
    ensures '\n' !in DriverLine(openStudioDir)
  {
  }

  lemma WatchedFileLinesHaveNoNewlines(fullOutDir: string)
    requires '\n' !in fullOutDir
    ensures NoNewlines(WatchedFileLines(fullOutDir))
  {
    var lines := WatchedFileLines(fullOutDir);
    assert '\n' !in lines[0];
    assert '\n' !in lines[1];
    assert '\n' !in lines[2];
  }

  /** The driver-mode interface splits back into the lines it was built from. */
  lemma DriverInterfaceRoundTrip(init: Initializer)
    requires init.driver && '\n' !in init.openStudioDir
    ensures Lines(Interface(init)) == InterfaceLines(init)
  {
    ForkLinesHaveNoNewlines();
    ConcurrencyLineHasNoNewline(init.cores);
    DriverLineHasNoNewline(init.openStudioDir);
    DriverFileLinesHaveNoNewlines();
    var middle := [AsynchronousLine, ConcurrencyLine(init.cores), DriverLine(init.openStudioDir)];
    NoNewlinesConcat(ForkLines, middle);
    NoNewlinesConcat(ForkLines + middle, DriverFileLines);
    LinesOfUnlines(InterfaceLines(init));
  }

  /** The interface without a driver splits back into the lines it was built from. */
  lemma NonDriverInterfaceRoundTrip(init: Initializer)
    requires !init.driver && '\n' !in init.fullOutDir
    ensures Lines(Interface(init)) == InterfaceLines(init)
  {
    ForkLinesHaveNoNewlines();
    WatchedFileLinesHaveNoNewlines(init.fullOutDir);
    NoNewlinesConcat(ForkLines, WatchedFileLines(init.fullOutDir));
    NoNewlinesConcat(ForkLines + WatchedFileLines(init.fullOutDir), [""]);
    LinesOfUnlines(InterfaceLines(init));
  }

  /** In driver mode the interface is an asynchronous fork whose evaluation concurrency is exactly
      the number of cores, and whose driver exchanges params.in and results.out tagged per
      evaluation. */
  lemma DriverInterface(init: Initializer)
    requires init.driver && '\n' !in init.openStudioDir
    ensures EvaluationConcurrency(Interface(init)) == Some(init.cores)
    ensures var lines := Lines(Interface(init));
            |lines| == 9 && lines[1] == "        fork" && lines[2] == "          asynchronous"
            && lines[5] == "          parameters_file = 'params.in'"
            && lines[6] == "          results_file    = 'results.out'"
            && lines[7] == "            file_tag" && lines[8] == ""
  {
    DriverInterfaceRoundTrip(init);
    var digits := DecimalString(init.cores);
    assert (EvaluationConcurrencyKey + digits)[|EvaluationConcurrencyKey|..] == digits;
    DecimalRoundTrip(init.cores);
  }

  /** Without a driver the interface runs dummy_driver.rb and exchanges params.in and results.out,
      each a path inside the output directory, and ends with a blank line. */
  lemma NonDriverInterface(init: Initializer)
    requires !init.driver && '\n' !in init.fullOutDir
    ensures var lines := Lines(Interface(init));
            |lines| == 6 && lines[1] == "        fork" && lines[5] == ""
            && lines[2] == "          analysis_driver = 'ruby " + JoinPath(init.fullOutDir, "dummy_driver.rb") + "'"
            && lines[3] == "          parameters_file = '" + JoinPath(init.fullOutDir, "params.in") + "'"
            && lines[4] == "          results_file = '" + JoinPath(init.fullOutDir, "results.out") + "'"
  {
    NonDriverInterfaceRoundTrip(init);
  }

  /** A concatenation starts with its first part and ends with its second. */
  lemma ConcatenationEnds(head: string, tail: string)
    ensures StartsWith(head + tail, head) && EndsWith(head + tail, tail)
  {
    assert (head + tail)[..|head|] == head;
    assert (head + tail)[|head + tail| - |tail|..] == tail;
  }

  /** The command of a driver run: the launcher, then `-i` and the run's arguments. */
  lemma DriverCommandParts(init: Initializer)
    requires init.dakotaExe.Some? && init.driver
    ensures KickOffAction(init).SystemCall?
    ensures KickOffAction(init).command
            == (if init.nodes > 1 then "mpirun -np " + DecimalString(init.nodes) + " " + init.dakotaExe.value
                else init.dakotaExe.value) + (" -i " + DakotaCall(init))
  {
  }

  /** With a driver, Dakota is called on the input file with the run's arguments, through
      `mpirun` with one process per node when there is more than one node and directly otherwise. */
  lemma DriverKickOffCommand(init: Initializer)
    requires init.dakotaExe.Some? && init.driver
    ensures KickOffAction(init).SystemCall?
    ensures EndsWith(KickOffAction(init).command, " -i " + DakotaCall(init))
    ensures init.nodes > 1 ==>
              KickOffAction(init).command
              == "mpirun -np " + DecimalString(init.nodes) + " " + init.dakotaExe.value + " -i " + DakotaCall(init)
    ensures init.nodes > 1 ==>
              StartsWith(KickOffAction(init).command, "mpirun -np " + DecimalString(init.nodes) + " " + init.dakotaExe.value)
    ensures init.nodes <= 1 ==> KickOffAction(init).command == init.dakotaExe.value + " -i " + DakotaCall(init)
  {
    DriverCommandParts(init);
    var head := if init.nodes > 1 then "mpirun -np " + DecimalString(init.nodes) + " " + init.dakotaExe.value
                else init.dakotaExe.value;
    ConcatenationEnds(head, " -i " + DakotaCall(init));
  }

  lemma DakotaCallHasNoNewline(init: Initializer)
    requires '\n' !in init.fullRestartFile
    ensures '\n' !in DakotaCall(init)
  {
  }

  /** Without a driver, the run manager is handed a two-line script that calls Dakota from the
      run directory on the input file one level up, then reports that it is done. */
  lemma ScriptKickOff(init: Initializer)
    requires init.dakotaExe.Some? && !init.driver
    requires '\n' !in init.dakotaExe.value && '\n' !in init.fullRestartFile
    ensures KickOffAction(init).RunManagerScript?
    ensures Lines(KickOffAction(init).script)
            == ["system(\"" + init.dakotaExe.value + " -i ../" + DakotaCall(init) + "\")", "puts 'Done.'"]
  {
    var lines := ["system(\"" + init.dakotaExe.value + " -i ../" + DakotaCall(init) + "\")", "puts 'Done.'"];
    DakotaCallHasNoNewline(init);
    assert '\n' !in lines[0];
    assert '\n' !in lines[1];
    LinesOfUnlines(lines);
  }

  /** The arguments of a fresh run, and of a restart before the restart file it reads. */
  const FreshArguments: string := "dakota.in -o syscall1.out -write_restart dakota1.rst"
  const RestartArguments: string := "dakota.in -o syscall2.out -write_restart dakota2.rst"

  /** The output and restart files of a fresh run, written out. */
  lemma FreshRunArguments()
    ensures "dakota.in -o syscall" + "1" + ".out -write_restart dakota" + "1" + ".rst" == FreshArguments
  {
    assert "dakota.in -o syscall" + "1" == "dakota.in -o syscall1";
    assert "dakota.in -o syscall1" + ".out -write_restart dakota" == "dakota.in -o syscall1.out -write_restart dakota";
    assert "dakota.in -o syscall1.out -write_restart dakota" + "1" == "dakota.in -o syscall1.out -write_restart dakota1";
  }

  /** The output and restart files of a restart, written out. */
  lemma RestartRunArguments()
    ensures "dakota.in -o syscall" + "2" + ".out -write_restart dakota" + "2" + ".rst" == RestartArguments
  {
    assert "dakota.in -o syscall" + "2" == "dakota.in -o syscall2";
    assert "dakota.in -o syscall2" + ".out -write_restart dakota" == "dakota.in -o syscall2.out -write_restart dakota";
    assert "dakota.in -o syscall2.out -write_restart dakota" + "2" == "dakota.in -o syscall2.out -write_restart dakota2";
  }

  lemma FreshCallText(init: Initializer)
    requires init.restartFile == []
    ensures DakotaCall(init) == FreshArguments
  {
    FreshRunArguments();
  }

  lemma RestartCallText(init: Initializer)
    requires init.restartFile != []
    ensures DakotaCall(init) == RestartArguments + " -read_restart '" + init.fullRestartFile + "'"
  {
    RestartRunArguments();
    assert DakotaCall(init) == RestartArguments + (" -read_restart '" + init.fullRestartFile + "'");
  }

  /** The arguments of a fresh run: output file 1, restart file 1 written, none read. */
  lemma FreshCall(init: Initializer)
    requires init.restartFile == []
    ensures DakotaCall(init) == "dakota.in -o syscall1.out -write_restart dakota1.rst"
    ensures DakotaCall(init)[20] == '1' && EndsWith(DakotaCall(init), "1.rst")
  {
    FreshCallText(init);
    assert FreshArguments[20] == '1';
    assert FreshArguments[|FreshArguments| - 5..] == "1.rst";
  }

  /** The arguments of a restart: output file 2, restart file 2 written, the given one read. */
  lemma RestartCall(init: Initializer)
    requires init.restartFile != []
    ensures DakotaCall(init)
            == "dakota.in -o syscall2.out -write_restart dakota2.rst -read_restart '" + init.fullRestartFile + "'"
    ensures DakotaCall(init)[20] == '2'
    ensures EndsWith(DakotaCall(init), " -read_restart '" + init.fullRestartFile + "'")
  {
    RestartCallText(init);
    var restartTail := " -read_restart '" + init.fullRestartFile + "'";
    var r := DakotaCall(init);
    assert r == RestartArguments + restartTail;
    assert r[20] == RestartArguments[20] == '2';
    assert r[|r| - |restartTail|..] == restartTail;
  }

  /** A fresh run writes syscall1.out and dakota1.rst and reads no restart file; a restart writes
      syscall2.out and dakota2.rst and reads the quoted restart file, so it never writes over
      the outputs of the fresh run. */
  lemma FreshAndRestartCallsDiffer(freshRun: Initializer, restartRun: Initializer)
    requires freshRun.restartFile == [] && restartRun.restartFile != []
    ensures DakotaCall(freshRun) == "dakota.in -o syscall1.out -write_restart dakota1.rst"
    ensures DakotaCall(restartRun)
            == "dakota.in -o syscall2.out -write_restart dakota2.rst -read_restart '" + restartRun.fullRestartFile + "'"
    ensures DakotaCall(freshRun)[20] == '1' && DakotaCall(restartRun)[20] == '2'
    ensures DakotaCall(freshRun) != DakotaCall(restartRun)
    ensures EndsWith(DakotaCall(freshRun), "1.rst")
    ensures EndsWith(DakotaCall(restartRun), " -read_restart '" + restartRun.fullRestartFile + "'")
  {
    FreshCall(freshRun);
    RestartCall(restartRun);
  }
}
