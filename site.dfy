/** The web side of the controller (iserver/isite.py): basic-auth checking,
    the manual open / close / close-all endpoints, which leave a one-line
    command in the computer's commands file, and the faucet listing.

    The process environment, the configuration file, the request's
    credentials and the rows of the faucet list are parameters; writing the
    commands file is returned as a value. */
module Site {
  import opened Wrappers
  import opened Text
  import Computer

  const User := "irrigator"
  const PasswordVariable := "IRRIGATOR_PASSWORD"

  /** `check_auth`: only the user `irrigator`, and only with the password
      held in the environment variable; without that variable nobody gets in. */
  function CheckAuth(username: string, password: string, env: map<string, string>): (ok: bool)
    ensures ok <==> username == User && PasswordVariable in env && password == env[PasswordVariable]
  {
    if username != User then false
    else if PasswordVariable in env then
      var pwd := env[PasswordVariable];
      if password != pwd then false else username == User && password == pwd
    else false
  }

  datatype Credentials = Credentials(username: string, password: string)

  /** A reply: body, status code and the headers the handler sets itself. */
  datatype Reply = Reply(body: string, status: int, headers: map<string, string>)

  /** The contents a handler writes to a file, replacing what was there. */
  datatype Write = Write(file: string, contents: string)

  datatype SiteError = KeyError(key: string) | TypeError

  /** What a request leads to: a reply and possibly a file written, or an
      exception out of the handler. */
  datatype Outcome = Outcome(reply: Reply, write: Option<Write>) | Raised(error: SiteError)

  /** `authenticate`: the 401 reply that asks for basic auth. */
  const LoginRequired := Reply("Could not verify your access level for that URL.\nYou have to login with proper credentials",
                               401, map["WWW-Authenticate" := "Basic realm=\"Login Required\""])

  /** The configuration file as its sections, each a map of options. */
  type ConfigFile = map<string, map<string, string>>

  /** `get_manual_file_name`: the commands file of the computer named in the
      `IComputer` section, `commands.txt` when it has no name; a missing
      section raises KeyError. */
  function GetManualFileName(config: ConfigFile): (r: Result<string, SiteError>)
    ensures r.Failure? <==> "IComputer" !in config
    ensures r.Failure? ==> r.error == KeyError("IComputer")
    ensures r.Success? && "computer_name" !in config["IComputer"] ==> r.value == "commands.txt"
    ensures r.Success? && "computer_name" in config["IComputer"] ==>
              |r.value| >= 13 && r.value[|r.value| - 13..] == "_commands.txt" &&
              r.value[..|r.value| - 13] == config["IComputer"]["computer_name"]
  {
    if "IComputer" !in config then Failure(KeyError("IComputer"))
    else if "computer_name" !in config["IComputer"] then Success("commands.txt")
    else Success(config["IComputer"]["computer_name"] + "_commands.txt")
  }

  const FaucetsFileName := "faucet-list.txt"

  // ---------------------------------------------------------------------
  // Endpoints

  datatype Endpoint = ManualOpen(faucet: string) | ManualClose(faucet: string) | CloseAll | GetFaucets

  /** The command word and parameter an endpoint leaves for the computer. */
  function CommandOf(e: Endpoint): (string, string)
    requires !e.GetFaucets?
  {
    match e
    case ManualOpen(f) => ("open", f)
    case ManualClose(f) => ("close", f)
    case CloseAll => ("closeall", "closeall")
  }

  /** The line an endpoint writes: word, tab, parameter, newline. */
  function CommandLine(e: Endpoint): (line: string)
    requires !e.GetFaucets?
    ensures line == CommandOf(e).0 + "\t" + CommandOf(e).1 + "\n"
  {
    match e
    case ManualOpen(f) => "open\t" + f + "\n"
    case ManualClose(f) => "close\t" + f + "\n"
    case CloseAll => "closeall\tcloseall\n"
  }

  /** The text an endpoint replies with once its command is written. */
  function CommandReply(e: Endpoint): string
    requires !e.GetFaucets?
  {
    match e
    case ManualOpen(f) => "opening faucet " + f
    case ManualClose(f) => "closing  faucet " + f
    case CloseAll => "closing all faucets!"
  }

  /** An endpoint run after the credentials were accepted. */
  function Serve(config: ConfigFile, rows: seq<Row>, e: Endpoint): (r: Outcome)
    ensures e.GetFaucets? ==> r == (match ListFaucets(rows)
                                    case Success(list) => Outcome(Reply(list, 200, map[]), None)
                                    case Failure(err) => Raised(err))
    ensures !e.GetFaucets? && "IComputer" !in config ==> r == Raised(KeyError("IComputer"))
    ensures !e.GetFaucets? && "IComputer" in config ==>
              r == Outcome(Reply(CommandReply(e), 200, map[]),
                           Some(Write(GetManualFileName(config).value, CommandLine(e))))
  {
    if e.GetFaucets? then
      match ListFaucets(rows)
      case Success(list) => Outcome(Reply(list, 200, map[]), None)
      case Failure(err) => Raised(err)
    else
      match GetManualFileName(config)
      case Failure(err) => Raised(err)
      case Success(file) => Outcome(Reply(CommandReply(e), 200, map[]), Some(Write(file, CommandLine(e))))
  }

  /** `requires_auth` around an endpoint: without credentials, or with
      credentials `check_auth` refuses, the handler does not run and the
      reply is the 401 challenge. */
  function Handle(auth: Option<Credentials>, env: map<string, string>, config: ConfigFile,
                  rows: seq<Row>, e: Endpoint): (r: Outcome)
    ensures r.Outcome? && r.write.Some? ==>
              auth.Some? && auth.value.username == User && PasswordVariable in env &&
              auth.value.password == env[PasswordVariable]
    ensures (r.Outcome? && r.reply.status == 401) <==> !(auth.Some? && CheckAuth(auth.value.username, auth.value.password, env))
    ensures r.Outcome? && r.reply.status == 401 ==> r == Outcome(LoginRequired, None)
    ensures auth.Some? && CheckAuth(auth.value.username, auth.value.password, env) ==> r == Serve(config, rows, e)
  {
    if auth.None? || !CheckAuth(auth.value.username, auth.value.password, env) then Outcome(LoginRequired, None)
    else Serve(config, rows, e)
  }

  // ---------------------------------------------------------------------
  // The command line as the computer reads it

  /** A faucet name the command line carries through unchanged: not empty,
      no tab, no line break, and not ending in whitespace, which the
      computer's strip would cut off. */
  predicate PlainName(f: string) {
    f != [] && '\t' !in f && '\n' !in f && '\r' !in f && !IsSpace(f[|f| - 1])
  }

  predicate Writable(e: Endpoint) {
    match e
    case ManualOpen(f) => PlainName(f)
    case ManualClose(f) => PlainName(f)
    case CloseAll => true
    case GetFaucets => false
  }

  /** A command word: lower-case letters only. */
  predicate LowerWord(w: string) {
    w != [] && forall i :: 0 <= i < |w| ==> 'a' <= w[i] <= 'z'
  }

  lemma LetterNotSpace(c: char)
    requires 'a' <= c <= 'z'
    ensures !IsSpace(c)
  {
  }

  /** The computer's strip only takes off the final newline. */
  lemma StripCommandLine(word: string, param: string)
    requires LowerWord(word) && PlainName(param)
    ensures Strip(word + "\t" + param + "\n") == word + "\t" + param
  {
    var body := word + "\t" + param;
    var line := body + "\n";
    LetterNotSpace(word[0]);
    assert line[0] == word[0];
    assert StripLeft(line) == line;
    assert body[|body| - 1] == param[|param| - 1];
    assert StripRight(body) == body;
    StripRightSpace(body, '\n');
  }

  /** The tab splits the line into the word and the parameter. */
  lemma SplitCommandLine(word: string, param: string)
    requires LowerWord(word) && PlainName(param)
    ensures Split(word + "\t" + param, '\t') == [word, param]
  {
    assert '\t' !in word by {
      forall i | 0 <= i < |word| ensures word[i] != '\t' {
        assert 'a' <= word[i];
      }
    }
    SplitWithoutSep(param, '\t');
    SplitAtFirst(word, '\t', param);
    assert word + "\t" + param == word + ['\t'] + param;
  }

  /** A word, a tab, a plain parameter and a newline parse back to that
      word and parameter. */
  lemma ParseWordLine(word: string, param: string)
    requires LowerWord(word) && PlainName(param)
    ensures Computer.ParseManualLine(word + "\t" + param + "\n") == Computer.Command(word, param)
  {
    StripCommandLine(word, param);
    SplitCommandLine(word, param);
    assert Lower(word) == word;
  }

  /** The line each command endpoint writes is read by the computer as
      exactly that endpoint's command. */
  lemma CommandLineParses(e: Endpoint)
    requires Writable(e)
    ensures Computer.ParseManualLine(CommandLine(e)) == Computer.Command(CommandOf(e).0, CommandOf(e).1)
  {
    var (word, param) := CommandOf(e);
    assert LowerWord(word);
    assert PlainName(param) by {
      if e.CloseAll? {
        assert param[|param| - 1] == 'l';
      }
    }
    ParseWordLine(word, param);
  }

  /** A commands file holding the line an endpoint wrote performs that
      endpoint's command. */
  lemma CommandReachesComputer(s: Computer.Session, e: Endpoint, durations: map<string, int>, self: string)
    requires Writable(e) && !s.quit
    ensures Computer.Interpret(s, [CommandLine(e)], durations, self)
            == Computer.Perform(s, CommandOf(e).0, CommandOf(e).1, durations, self)
  {
    CommandLineParses(e);
    assert [CommandLine(e)][..0] == [];
  }

  /** What the computer then does: a manual open of a known faucet adds one
      manual timer for it, a manual close closes it and drops its manual
      timers, and close-all closes every faucet and drops every manual timer. */
  lemma CommandEffects(s: Computer.Session, e: Endpoint, durations: map<string, int>, self: string)
    requires Writable(e) && !s.quit
    ensures e.ManualOpen? && e.faucet in durations ==>
              Computer.Interpret(s, [CommandLine(e)], durations, self).timers
              == s.timers + [Computer.ManualTimer(e.faucet, durations[e.faucet])]
    ensures e.ManualClose? && e.faucet in durations ==>
              var r := Computer.Interpret(s, [CommandLine(e)], durations, self);
              && e.faucet in r.closed
              && forall t :: t in r.timers <==> t in s.timers && !(Computer.IsManualSingle(t) && t.faucet == e.faucet)
    ensures e.CloseAll? ==>
              var r := Computer.Interpret(s, [CommandLine(e)], durations, self);
              && durations.Keys <= r.closed
              && forall t :: t in r.timers <==> t in s.timers && !Computer.IsManualSingle(t)
  {
    CommandReachesComputer(s, e, durations, self);
    match e
    case ManualOpen(f) =>
      Computer.ManualOpenAddsOneTimer(s, f, durations, self);
    case ManualClose(f) =>
      if f in durations {
        Computer.ManualCloseRemovesOwnManualTimers(s, f, durations, self);
      }
    case CloseAll =>
      Computer.CloseAllRemovesManualTimers(s, "closeall", durations, self);
  }

  // ---------------------------------------------------------------------
  // The faucet list

  /** A row of the faucet list as `csv.DictReader` yields it: a field the
      header names but the row lacks is `None`. */
  type Row = map<string, Option<string>>

  /** A row `get_faucets` gets past: both columns there, and a name. */
  predicate Listable(row: Row) {
    "faucet_type" in row && "name" in row && row["name"].Some?
  }

  function NameOf(row: Row): string
    requires Listable(row)
  {
    row["name"].value
  }

  /** What `get_faucets` raises on a row it cannot list: KeyError for a
      missing column, TypeError for appending to a missing name. */
  function RowError(row: Row): SiteError {
    if "faucet_type" !in row then KeyError("faucet_type")
    else if "name" !in row then KeyError("name")
    else TypeError
  }

  /** The index of the first row that cannot be listed; the row count when
      there is none. */
  function FirstUnlistable(rows: seq<Row>): (k: nat)
    ensures k <= |rows|
    ensures forall j :: 0 <= j < k ==> Listable(rows[j])
    ensures k < |rows| ==> !Listable(rows[k])
  {
    if rows == [] || !Listable(rows[0]) then 0 else 1 + FirstUnlistable(rows[1..])
  }

  /** The names of listable rows, in order. */
  function NamesOf(rows: seq<Row>): (names: seq<string>)
    requires forall j :: 0 <= j < |rows| ==> Listable(rows[j])
    ensures |names| == |rows|
    ensures forall j :: 0 <= j < |rows| ==> names[j] == NameOf(rows[j])
  {
    if rows == [] then [] else NamesOf(rows[..|rows| - 1]) + [NameOf(rows[|rows| - 1])]
  }

  /** What `get_faucets` answers: every name followed by `;`, or the error
      of the first row it cannot list. */
  function ListFaucets(rows: seq<Row>): Result<string, SiteError> {
    var k := FirstUnlistable(rows);
    if k < |rows| then Failure(RowError(rows[k])) else Success(Terminated(NamesOf(rows), ';'))
  }

  /** `get_faucets` over the rows of the faucet list, one row at a time. */
  method GetFaucetList(rows: seq<Row>) returns (r: Result<string, SiteError>)
    ensures r == ListFaucets(rows)
  {
    var list := "";
    var i := 0;
    while i < |rows|
      invariant 0 <= i <= |rows|
      invariant forall j :: 0 <= j < i ==> Listable(rows[j])
      invariant list == Terminated(NamesOf(rows[..i]), ';')
    {
      var row := rows[i];
      if "faucet_type" !in row {
        return Failure(KeyError("faucet_type"));
      }
      var fname := if "name" in row then row["name"] else None;
      if "name" !in row {
        return Failure(KeyError("name"));
      }
      if fname.None? {
        return Failure(TypeError);
      }
      assert rows[..i + 1] == rows[..i] + [row];
      TerminatedSnoc(NamesOf(rows[..i]), fname.value, ';');
      list := list + fname.value + [';'];
      i := i + 1;
    }
    assert rows[..i] == rows;
    r := Success(list);
  }

  /** A client splitting the answer at `;` gets the names back, with the
      empty field after the last `;`, when no name holds a `;`. */
  lemma ListedNamesSplit(rows: seq<Row>)
    requires ListFaucets(rows).Success?
    requires forall j :: 0 <= j < |rows| ==> ';' !in NamesOf(rows)[j]
    ensures Split(ListFaucets(rows).value, ';') == NamesOf(rows) + [""]
  {
    SplitTerminated(NamesOf(rows), ';');
  }
}
