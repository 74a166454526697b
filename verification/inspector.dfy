/** The inspector's command language: the words for commands and modes,
    the current mode, and which handler a line is dispatched to. Running a
    handler (parsing its arguments, calling the server, printing) is not
    part of this model. */
module Inspector {
  import opened Wrappers

  datatype Cmd = Get | GetAll | Insert | Hide | Edit | Delete

  datatype Mode = Main | Users | Categories | Threads

  datatype State = State(mode: Mode)

  /** The handlers `cmd_handler` can dispatch to. */
  datatype Runner =
    | RunGetUser | RunInsertUser | RunEditUser
    | RunGetCategory | RunGetAllCategories | RunInsertCategory | RunEditCategory | RunHideCategory

  /** A dispatched line: its handler and the words after the command. */
  datatype Action = Action(runner: Runner, args: seq<string>)

  /** What the read loop does with one line. */
  datatype LineOutcome = ModeLine | Dispatched(result: Result<Action, string>)

  // ----- The word tables -----

  function CmdWord(c: Cmd): string {
    match c
    case Get => "get"
    case GetAll => "get-all"
    case Insert => "insert"
    case Hide => "hide"
    case Edit => "edit"
    case Delete => "delete"
  }

  function ModeWord(m: Mode): string {
    match m
    case Main => "main"
    case Users => "users"
    case Categories => "categories"
    case Threads => "threads"
  }

  /** `Cmd::try_from`: a command word, or the error naming the bad word. */
  function ParseCmd(s: string): (r: Result<Cmd, string>)
    ensures r.Ok? ==> CmdWord(r.value) == s
    ensures r.Err? ==> r.error == "Invalid Cmd: '" + s + "'"
  {
    if s == "get" then Ok(Get)
    else if s == "get-all" then Ok(GetAll)
    else if s == "insert" then Ok(Insert)
    else if s == "hide" then Ok(Hide)
    else if s == "edit" then Ok(Edit)
    else if s == "delete" then Ok(Delete)
    else Err("Invalid Cmd: '" + s + "'")
  }

  /** `Mode::try_from`: a mode word, or the error naming the bad word. */
  function ParseMode(s: string): (r: Result<Mode, string>)
    ensures r.Ok? ==> ModeWord(r.value) == s
    ensures r.Err? ==> r.error == "Invalid Mode: '" + s + "'"
  {
    if s == "main" then Ok(Main)
    else if s == "users" then Ok(Users)
    else if s == "categories" then Ok(Categories)
    else if s == "threads" then Ok(Threads)
    else Err("Invalid Mode: '" + s + "'")
  }

  /** Parsing a command's word gives the command back, and only the six
      command words parse. */
  lemma CmdRoundTrip(c: Cmd, s: string)
    ensures ParseCmd(CmdWord(c)) == Ok(c)
    ensures ParseCmd(s).Ok? <==> s in {"get", "get-all", "insert", "hide", "edit", "delete"}
  {
  }

  /** Parsing a mode's word gives the mode back, and only the four mode
      words parse. */
  lemma ModeRoundTrip(m: Mode, s: string)
    ensures ParseMode(ModeWord(m)) == Ok(m)
    ensures ParseMode(s).Ok? <==> s in {"main", "users", "categories", "threads"}
  {
  }

  /** Distinct commands, and distinct modes, display differently. */
  lemma WordsInjective(a: Cmd, b: Cmd, m: Mode, n: Mode)
    ensures CmdWord(a) == CmdWord(b) ==> a == b
    ensures ModeWord(m) == ModeWord(n) ==> m == n
  {
    if CmdWord(a) == CmdWord(b) {
      CmdRoundTrip(a, "");
      CmdRoundTrip(b, "");
    }
    if ModeWord(m) == ModeWord(n) {
      ModeRoundTrip(m, "");
      ModeRoundTrip(n, "");
    }
  }

  // ----- Splitting a line into words -----

  /** `char::is_whitespace`: the Unicode White_Space characters. */
  predicate IsWhitespace(c: char) {
    || ('\U{9}' <= c <= '\U{D}') || c == '\U{20}' || c == '\U{85}' || c == '\U{A0}'
    || c == '\U{1680}' || ('\U{2000}' <= c <= '\U{200A}') || c == '\U{2028}' || c == '\U{2029}'
    || c == '\U{202F}' || c == '\U{205F}' || c == '\U{3000}'
  }

  predicate NoWhitespace(w: string) {
    forall i :: 0 <= i < |w| ==> !IsWhitespace(w[i])
  }

  /** `str::split(char::is_whitespace)`: every whitespace character ends a
      word, so consecutive separators produce empty words, and even the
      empty line has one (empty) word. */
  function Split(s: string): (r: seq<string>)
    ensures |r| >= 1
    decreases |s|
  {
    if |s| == 0 then [""]
    else if IsWhitespace(s[0]) then [""] + Split(s[1..])
    else
      var rest := Split(s[1..]);
      [[s[0]] + rest[0]] + rest[1..]
  }

  /** The first word is the longest whitespace-free prefix of the line. */
  lemma {:induction false} FirstWord(s: string)
    ensures NoWhitespace(Split(s)[0])
    ensures |Split(s)[0]| <= |s| && s[..|Split(s)[0]|] == Split(s)[0]
    ensures |Split(s)[0]| < |s| ==> IsWhitespace(s[|Split(s)[0]|])
    decreases |s|
  {
    if |s| > 0 && !IsWhitespace(s[0]) {
      FirstWord(s[1..]);
      var w := Split(s[1..])[0];
      assert Split(s)[0] == [s[0]] + w;
      assert s[..|w| + 1] == [s[0]] + s[1..][..|w|];
      assert forall i :: 1 <= i < |w| + 1 ==> Split(s)[0][i] == w[i - 1];
    }
  }

  /** A line without whitespace is a single word. */
  lemma {:induction false} SplitWord(w: string)
    requires NoWhitespace(w)
    ensures Split(w) == [w]
    decreases |w|
  {
    if |w| > 0 {
      SplitWord(w[1..]);
      assert [w[0]] + w[1..] == w;
    }
  }

  /** A whitespace character separates the word before it from the words
      after it. */
  lemma {:induction false} SplitAt(a: string, c: char, b: string)
    requires NoWhitespace(a) && IsWhitespace(c)
    ensures Split(a + [c] + b) == [a] + Split(b)
    decreases |a|
  {
    if |a| > 0 {
      SplitAt(a[1..], c, b);
      assert (a + [c] + b)[1..] == a[1..] + [c] + b;
      assert [a[0]] + a[1..] == a;
    } else {
      assert (a + [c] + b)[1..] == b;
    }
  }

  /** The number of whitespace characters in `s`. */
  function Separators(s: string): nat
    decreases |s|
  {
    if |s| == 0 then 0
    else (if IsWhitespace(s[0]) then 1 else 0) + Separators(s[1..])
  }

  /** One word per whitespace character, plus one, and no word holds
      whitespace. */
  lemma {:induction false} SplitWords(s: string)
    ensures |Split(s)| == 1 + Separators(s)
    ensures forall k :: 0 <= k < |Split(s)| ==> NoWhitespace(Split(s)[k])
    decreases |s|
  {
    if |s| > 0 {
      SplitWords(s[1..]);
      FirstWord(s);
    }
  }

  // ----- The state and the dispatch -----

  /** `State::default`. */
  function DefaultState(): (s: State)
    ensures ModeWord(s.mode) == "main"
  {
    State(Main)
  }

  /** The prompt the read loop shows. */
  function Prompt(s: State): string {
    ModeWord(s.mode) + " >> "
  }

  /** `State::try_set_mode`: a valid mode word replaces the mode and the
      previous mode is returned; anything else changes nothing. */
  function TrySetMode(s: State, word: string): (r: (State, Option<Mode>))
    ensures ParseMode(word).Ok? ==> r == (State(ParseMode(word).value), Some(s.mode))
    ensures ParseMode(word).Err? ==> r == (s, None)
    ensures r.1.Some? <==> word in {"main", "users", "categories", "threads"}
  {
    match ParseMode(word)
    case Ok(m) => (State(m), Some(s.mode))
    case Err(_) => (s, None)
  }

  /** The eight implemented (mode, command) pairs. */
  function Route(m: Mode, c: Cmd): Option<Runner> {
    match (m, c)
    case (Users, Get) => Some(RunGetUser)
    case (Users, Insert) => Some(RunInsertUser)
    case (Users, Edit) => Some(RunEditUser)
    case (Categories, Get) => Some(RunGetCategory)
    case (Categories, GetAll) => Some(RunGetAllCategories)
    case (Categories, Insert) => Some(RunInsertCategory)
    case (Categories, Edit) => Some(RunEditCategory)
    case (Categories, Hide) => Some(RunHideCategory)
    case _ => None
  }

  /** The mode and command each handler serves. */
  function Serves(rn: Runner): (Mode, Cmd) {
    match rn
    case RunGetUser => (Users, Get)
    case RunInsertUser => (Users, Insert)
    case RunEditUser => (Users, Edit)
    case RunGetCategory => (Categories, Get)
    case RunGetAllCategories => (Categories, GetAll)
    case RunInsertCategory => (Categories, Insert)
    case RunEditCategory => (Categories, Edit)
    case RunHideCategory => (Categories, Hide)
  }

  /** The dispatch table and the handlers agree: a pair is routed to a
      handler exactly when that handler serves it, so each handler has
      one pair, and nothing is routed in main or threads mode. */
  lemma RouteMatchesServes(m: Mode, c: Cmd, rn: Runner)
    ensures Route(m, c) == Some(rn) <==> Serves(rn) == (m, c)
    ensures m == Main || m == Threads ==> Route(m, c).None?
    ensures c == Delete ==> Route(m, c).None?
  {
  }

  /** `cmd_handler`: the first word picks the command; an unknown word is
      an error before any dispatch, and a pair without a handler is an
      "Unimplemented" error naming both. */
  function CmdHandler(s: State, line: string): (r: Result<Action, string>)
    ensures ParseCmd(Split(line)[0]).Err? ==> r == Err("Invalid Cmd: '" + Split(line)[0] + "'")
    ensures r.Ok? ==> Route(s.mode, ParseCmd(Split(line)[0]).value) == Some(r.value.runner)
    ensures r.Ok? ==> r.value.args == Split(line)[1..]
    ensures ParseCmd(Split(line)[0]).Ok? && Route(s.mode, ParseCmd(Split(line)[0]).value).Some? ==>
      r == Ok(Action(Route(s.mode, ParseCmd(Split(line)[0]).value).value, Split(line)[1..]))
    ensures ParseCmd(Split(line)[0]).Ok? && Route(s.mode, ParseCmd(Split(line)[0]).value).None? ==>
      r == Err("Unimplemented command '" + Split(line)[0] + "' for mode '" + ModeWord(s.mode) + "'")
  {
    var words := Split(line);
    match ParseCmd(words[0])
    case Err(e) => Err(e)
    case Ok(c) =>
      match Route(s.mode, c)
      case Some(rn) => Ok(Action(rn, words[1..]))
      case None => Err("Unimplemented command '" + CmdWord(c) + "' for mode '" + ModeWord(s.mode) + "'")
  }

  /** One turn of the read loop: a line beginning with "mode" only ever
      tries to switch to the mode named by its second word; every other
      line goes to `cmd_handler`. */
  function HandleLine(s: State, line: string): (r: (State, LineOutcome))
    ensures |line| >= 4 && line[..4] == "mode" ==> r.1 == ModeLine
    ensures r.1 == ModeLine && |Split(line)| > 1 ==> r.0 == TrySetMode(s, Split(line)[1]).0
    ensures r.1 == ModeLine && |Split(line)| <= 1 ==> r.0 == s
    ensures !(|line| >= 4 && line[..4] == "mode") ==> r == (s, Dispatched(CmdHandler(s, line)))
  {
    if |line| >= 4 && line[..4] == "mode" then
      var words := Split(line);
      if |words| > 1 then (TrySetMode(s, words[1]).0, ModeLine) else (s, ModeLine)
    else (s, Dispatched(CmdHandler(s, line)))
  }

  /** In main and threads mode every command line is an error. */
  lemma NoCommandsInMainOrThreads(s: State, line: string)
    requires s.mode == Main || s.mode == Threads
    ensures CmdHandler(s, line).Err?
  {
  }

  /** Typing "mode users" at the starting prompt switches to user mode
      and dispatches nothing. */
  lemma SwitchToUsers()
    ensures HandleLine(DefaultState(), "mode users") == (State(Users), ModeLine)
  {
    var line := "mode users";
    assert line == "mode" + [' '] + "users";
    assert line[..4] == "mode";
    SplitWord("users");
    SplitAt("mode", ' ', "users");
    assert Split(line)[1] == "users";
  }
}
