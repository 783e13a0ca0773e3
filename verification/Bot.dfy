/** The chat bot's login dialogue and command confirmation, for any number of users. One event is one update from the
    chat, handled as a whole. */
module Bot {
  import opened Wrappers
  import Commands

  datatype Stage = Login | Password

  /** A command waiting behind the yes/no buttons: its sender, its name and its whole text. */
  datatype Pending = Pending(owner: int, command: string, text: string)

  /** promptSent: whether the chat accepts the confirmation prompt, should one be sent; credentials: the login and
      password pairs in the database at that moment. */
  datatype Event =
    | Start(user: int)
    | Help(user: int)
    | Text(user: int, text: string, promptSent: bool, credentials: set<(string, string)>)
    | Button(user: int, yes: bool)

  datatype Outcome =
    | AskedLogin
    | ShowedHelp
    | Ignored
    | Prompted(prompt: Pending)
    | PromptFailed
    | UnknownCommand
    | NotAuthorised
    | LoginEntered(login: string)
    | Checked(login: string, password: string, ok: bool)
    | Unexpected
    | NoButtons
    | NotForYou
    | Executed(what: Pending)
    | Cancelled

  /** authorised is one flag for the whole bot, and so is the login entered last. */
  datatype State = State(userState: map<int, Stage>, userLogin: string, userPassword: string, authorised: bool,
                         buttons: Option<Pending>)

  const FRESH: State := State(map[], "", "", false, None)

  const COMMANDS: set<string> :=
    {"/status", "/metric", "/list_metric", "/scale", "/restart", "/rollback", "/history", "/operations", "/list_pods",
     "/revisions", "/ai_help", "/alerts"}

  predicate IsCommand(text: string) { text != "" && text[0] == '/' }

  function CommandName(text: string): string { Commands.SplitN(text, ' ', 2)[0] }

  function Handle(s: State, e: Event): (State, Outcome) {
    match e
    case Start(user) => (s.(userState := s.userState[user := Login]), AskedLogin)
    case Help(_) => (s, ShowedHelp)
    case Text(user, text, promptSent, credentials) =>
      if IsCommand(text) then
        if user in s.userState then (s, Ignored)
        else if !s.authorised then (s, NotAuthorised)
        else if CommandName(text) !in COMMANDS then (s, UnknownCommand)
        else if !promptSent then (s, PromptFailed)
        else
          var prompt := Pending(user, CommandName(text), text);
          (s.(buttons := Some(prompt)), Prompted(prompt))
      else if user !in s.userState then (s, Unexpected)
      else if s.userState[user] == Login then
        (s.(userState := s.userState[user := Password], userLogin := text), LoginEntered(text))
      else
        var ok := (s.userLogin, text) in credentials;
        (s.(userState := s.userState - {user}, userPassword := text, authorised := ok), Checked(s.userLogin, text, ok))
    case Button(user, yes) =>
      if s.buttons.None? then (s, NoButtons)
      else if user != s.buttons.value.owner then (s, NotForYou)
      else if yes then (s, Executed(s.buttons.value)) else (s, Cancelled)
  }

  // ---------- the closures ----------

  /** The variables of main captured by the closures, and the handlers registered for the two buttons. */
  class Session {
    var userState: map<int, Stage>
    var userLogin: string
    var userPassword: string
    var userStatusAuthorization: bool
    var yes: Option<Pending>
    var no: Option<Pending>

    predicate Valid()
      reads this
    { yes == no }

    function Abs(): State
      reads this
    { State(userState, userLogin, userPassword, userStatusAuthorization, yes) }

    constructor ()
      ensures Valid() && Abs() == FRESH
    {
      userState, userLogin, userPassword, userStatusAuthorization := map[], "", "", false;
      yes, no := None, None;
    }

    method OnStart(user: int) returns (outcome: Outcome)
      requires Valid()
      modifies this
      ensures Valid() && (Abs(), outcome) == Handle(old(Abs()), Start(user))
    {
      userState := userState[user := Login];
      return AskedLogin;
    }

    method WithConfirmation(user: int, command: string, text: string, promptSent: bool) returns (outcome: Outcome)
      requires Valid()
      modifies this
      ensures Valid()
      ensures outcome == if promptSent then Prompted(Pending(user, command, text)) else PromptFailed
      ensures Abs() == if promptSent then old(Abs()).(buttons := Some(Pending(user, command, text))) else old(Abs())
    {
      if !promptSent {
        return PromptFailed;
      }
      yes := Some(Pending(user, command, text));
      no := Some(Pending(user, command, text));
      return Prompted(Pending(user, command, text));
    }

    method OnText(user: int, text: string, promptSent: bool, credentials: set<(string, string)>)
      returns (outcome: Outcome)
      requires Valid()
      modifies this
      ensures Valid() && (Abs(), outcome) == Handle(old(Abs()), Text(user, text, promptSent, credentials))
    {
      if text != "" && text[0] == '/' {
        if user in userState {
          return Ignored;
        }
        if userStatusAuthorization {
          var parts := Commands.SplitN(text, ' ', 2);
          var cmd := parts[0];
          if cmd in COMMANDS {
            outcome := WithConfirmation(user, cmd, text, promptSent);
            return;
          }
          return UnknownCommand;
        } else {
          return NotAuthorised;
        }
      }
      if user !in userState {
        return Unexpected;
      }
      match userState[user] {
        case Login =>
          userState := userState[user := Password];
          userLogin := text;
          return LoginEntered(text);
        case Password =>
          userState := userState - {user};
          userPassword := text;
          userStatusAuthorization := (userLogin, userPassword) in credentials;
          return Checked(userLogin, userPassword, userStatusAuthorization);
      }
    }

    method OnButton(user: int, isYes: bool) returns (outcome: Outcome)
      requires Valid()
      ensures (Abs(), outcome) == Handle(Abs(), Button(user, isYes))
    {
      var handler := if isYes then yes else no;
      if handler.None? {
        return NoButtons;
      }
      if user != handler.value.owner {
        return NotForYou;
      }
      return if isYes then Executed(handler.value) else Cancelled;
    }
  }

  // ---------- history ----------

  datatype Entry = Entry(event: Event, outcome: Outcome)

  function StateAfter(events: seq<Event>): State {
    if events == [] then FRESH else Handle(StateAfter(events[..|events| - 1]), events[|events| - 1]).0
  }

  /** What has happened, one entry an update. */
  function History(events: seq<Event>): (log: seq<Entry>)
    ensures |log| == |events|
  {
    if events == [] then []
    else
      var k := |events| - 1;
      History(events[..k]) + [Entry(events[k], Handle(StateAfter(events[..k]), events[k]).1)]
  }

  /** Position of the latest entry of a kind. */
  function Latest(log: seq<Entry>, kind: Entry -> bool): (r: Option<nat>)
    ensures r.Some? ==> r.value < |log| && kind(log[r.value]) && forall j :: r.value < j < |log| ==> !kind(log[j])
    ensures r.None? ==> forall j :: 0 <= j < |log| ==> !kind(log[j])
  {
    if log == [] then None
    else if kind(log[|log| - 1]) then Some(|log| - 1)
    else Latest(log[..|log| - 1], kind)
  }

  predicate IsPrompt(e: Entry) { e.outcome.Prompted? }

  predicate IsLogin(e: Entry) { e.outcome.LoginEntered? }

  predicate IsCheck(e: Entry) { e.outcome.Checked? }

  function LatestPrompt(log: seq<Entry>): Option<nat> { Latest(log, IsPrompt) }

  function LatestLogin(log: seq<Entry>): Option<nat> { Latest(log, IsLogin) }

  function LatestCheck(log: seq<Entry>): Option<nat> { Latest(log, IsCheck) }

  function IsDialogueStep(user: int): Entry -> bool {
    (e: Entry) => e.event.user == user && (e.outcome.AskedLogin? || e.outcome.LoginEntered? || e.outcome.Checked?)
  }

  /** What the user's login dialogue waits for: the login after it was opened, then the password, then nothing. */
  function StageOf(log: seq<Entry>, user: int): Option<Stage> {
    match Latest(log, IsDialogueStep(user))
    case None => None
    case Some(i) =>
      if log[i].outcome.AskedLogin? then Some(Login)
      else if log[i].outcome.LoginEntered? then Some(Password)
      else None
  }

  predicate InDialogue(log: seq<Entry>, user: int) { StageOf(log, user).Some? }

  /** What each kind of entry owes to the entries before it. */
  ghost predicate EntryOk(log: seq<Entry>, k: nat)
    requires k < |log|
  {
    var before, e := log[..k], log[k];
    match e.outcome
    case Checked(login, password, ok) =>
      && e.event.Text? && password == e.event.text && (ok <==> (login, password) in e.event.credentials)
      && LatestLogin(before).Some? && before[LatestLogin(before).value].outcome.login == login
    case Prompted(prompt) =>
      && e.event.Text? && e.event.promptSent
      && prompt == Pending(e.event.user, CommandName(e.event.text), e.event.text) && prompt.command in COMMANDS
      && !InDialogue(before, e.event.user)
      && LatestCheck(before).Some? && before[LatestCheck(before).value].outcome.ok
    case Executed(what) =>
      && e.event.Button? && e.event.yes && e.event.user == what.owner
      && LatestPrompt(before).Some? && before[LatestPrompt(before).value].outcome.prompt == what
    case _ => true
  }

  /** Somebody's latest password step succeeded. */
  predicate Authorised(log: seq<Entry>) {
    LatestCheck(log).Some? && log[LatestCheck(log).value].outcome.ok
  }

  /** The text is the command, or goes on after it with a blank. */
  predicate FirstWord(text: string, command: string) { text == command || command + " " <= text }

  const KNOWN: set<string> :=
    {"/alerts", "/ai_help", "/history", "/list_metric", "/list_pods", "/metric", "/operations", "/restart",
     "/revisions", "/rollback", "/scale", "/status"}

  predicate KnownCommand(text: string) { exists command :: command in KNOWN && FirstWord(text, command) }

  /** What the bot answers to an update, from what has happened before alone. */
  predicate Decided(before: seq<Entry>, e: Event, outcome: Outcome) {
    match e
    case Start(_) => outcome == AskedLogin
    case Help(_) => outcome == ShowedHelp
    case Text(user, text, promptSent, credentials) =>
      if text != "" && text[0] == '/' then
        if StageOf(before, user).Some? then outcome == Ignored
        else if !Authorised(before) then outcome == NotAuthorised
        else if !KnownCommand(text) then outcome == UnknownCommand
        else if !promptSent then outcome == PromptFailed
        else
          && outcome.Prompted? && outcome.prompt.owner == user && outcome.prompt.text == text
          && outcome.prompt.command in KNOWN && FirstWord(text, outcome.prompt.command)
      else
        (match StageOf(before, user)
         case None => outcome == Unexpected
         case Some(Login) => outcome == LoginEntered(text)
         case Some(Password) =>
           && LatestLogin(before).Some?
           && var login := before[LatestLogin(before).value].outcome.login;
              outcome == Checked(login, text, (login, text) in credentials))
    case Button(user, yes) =>
      match LatestPrompt(before)
      case None => outcome == NoButtons
      case Some(i) =>
        var prompt := before[i].outcome.prompt;
        if user != prompt.owner then outcome == NotForYou
        else outcome == if yes then Executed(prompt) else Cancelled
  }

  /** The state in terms of the history: the buttons belong to the latest prompt, ... */
  ghost predicate ButtonsAgree(log: seq<Entry>, s: State) {
    && (s.buttons.Some? <==> LatestPrompt(log).Some?)
    && (s.buttons.Some? ==> log[LatestPrompt(log).value].outcome.prompt == s.buttons.value)
  }

  /** ... the flag is the verdict of the latest password step, and the login the latest one entered, ... */
  ghost predicate LoginAgrees(log: seq<Entry>, s: State) {
    && (s.authorised <==> LatestCheck(log).Some? && log[LatestCheck(log).value].outcome.ok)
    && (LatestLogin(log).Some? ==> log[LatestLogin(log).value].outcome.login == s.userLogin)
    && (forall u :: u in s.userState && s.userState[u] == Password ==> LatestLogin(log).Some?)
  }

  /** ... and userState lists the users inside a dialogue, with its stage. */
  ghost predicate DialoguesAgree(log: seq<Entry>, s: State) {
    forall u :: StageOf(log, u) == if u in s.userState then Some(s.userState[u]) else None
  }

  ghost predicate Agrees(log: seq<Entry>, s: State) {
    ButtonsAgree(log, s) && LoginAgrees(log, s) && DialoguesAgree(log, s)
  }

  lemma LatestSnoc(log: seq<Entry>, e: Entry, kind: Entry -> bool)
    ensures Latest(log + [e], kind) == if kind(e) then Some(|log|) else Latest(log, kind)
  {
    assert (log + [e])[..|log|] == log;
  }

  lemma DialogueSnoc(log: seq<Entry>, e: Entry, user: int)
    ensures StageOf(log + [e], user)
            == if e.event.user == user && e.outcome.AskedLogin? then Some(Login)
               else if e.event.user == user && e.outcome.LoginEntered? then Some(Password)
               else if e.event.user == user && e.outcome.Checked? then None
               else StageOf(log, user)
  {
    LatestSnoc(log, e, IsDialogueStep(user));
  }

  /** The entry a step adds to the history. */
  function NewEntry(s: State, event: Event): Entry { Entry(event, Handle(s, event).1) }

  lemma StepButtons(log: seq<Entry>, s: State, event: Event)
    requires ButtonsAgree(log, s)
    ensures ButtonsAgree(log + [NewEntry(s, event)], Handle(s, event).0)
  {
    hide CommandName;
    hide Latest;
    LatestSnoc(log, NewEntry(s, event), IsPrompt);
  }

  lemma StepLogin(log: seq<Entry>, s: State, event: Event)
    requires LoginAgrees(log, s)
    ensures LoginAgrees(log + [NewEntry(s, event)], Handle(s, event).0)
  {
    hide CommandName;
    hide Latest;
    LatestSnoc(log, NewEntry(s, event), IsLogin);
    LatestSnoc(log, NewEntry(s, event), IsCheck);
  }

  lemma StepDialogues(log: seq<Entry>, s: State, event: Event)
    requires DialoguesAgree(log, s)
    ensures DialoguesAgree(log + [NewEntry(s, event)], Handle(s, event).0)
  {
    hide CommandName;
    hide StageOf;
    var s' := Handle(s, event).0;
    forall u
      ensures StageOf(log + [NewEntry(s, event)], u) == if u in s'.userState then Some(s'.userState[u]) else None
    {
      DialogueSnoc(log, NewEntry(s, event), u);
    }
  }

  lemma StepEntryOk(log: seq<Entry>, s: State, event: Event)
    requires Agrees(log, s)
    ensures EntryOk(log + [NewEntry(s, event)], |log|)
  {
    hide CommandName;
    assert (log + [NewEntry(s, event)])[..|log|] == log;
  }

  lemma FirstWordIsName(text: string, command: string)
    requires ' ' !in command
    ensures CommandName(text) == command <==> FirstWord(text, command)
  {
    if command + " " <= text {
      var rest := text[|command| + 1..];
      assert text == command + [' '] + rest;
      Commands.SplitAt(command, ' ', rest, 2);
    } else if text == command {
      Commands.SplitTwo(text, ' ');
    }
    Commands.SplitTwo(text, ' ');
    if ' ' in text {
      assert Commands.SplitN(text, ' ', 2)[0] + " " <= text;
    }
  }

  lemma KnownCommands()
    ensures KNOWN == COMMANDS
  {
  }

  lemma NoBlanks(command: string)
    requires command in KNOWN
    ensures ' ' !in command
  {
  }

  lemma KnownMeaning(text: string)
    ensures CommandName(text) in COMMANDS <==> KnownCommand(text)
  {
    KnownCommands();
    hide KNOWN;
    hide COMMANDS;
    hide CommandName;
    hide FirstWord;
    forall command | command in KNOWN ensures CommandName(text) == command <==> FirstWord(text, command) {
      NoBlanks(command);
      FirstWordIsName(text, command);
    }
  }

  /** The handlers decide as the history says. */
  lemma StepDecided(log: seq<Entry>, s: State, event: Event)
    requires Agrees(log, s)
    ensures Decided(log, event, Handle(s, event).1)
  {
    hide CommandName;
    hide KnownCommand;
    hide StageOf;
    hide Latest;
    if event.Text? {
      KnownMeaning(event.text);
      if CommandName(event.text) in COMMANDS {
        NameIsKnown(event.text);
      }
    }
    hide FirstWord;
  }

  lemma NameIsKnown(text: string)
    requires CommandName(text) in COMMANDS
    ensures CommandName(text) in KNOWN && FirstWord(text, CommandName(text))
  {
    KnownCommands();
    hide KNOWN;
    hide COMMANDS;
    hide CommandName;
    NoBlanks(CommandName(text));
    FirstWordIsName(text, CommandName(text));
  }

  /** Over every run of updates from any number of users, every answer of the bot is the one decided by what happened
      before. */
  lemma {:induction false} HistoryDecides(events: seq<Event>, k: nat)
    requires k < |events|
    ensures Decided(History(events)[..k], events[k], History(events)[k].outcome)
  {
    hide Decided;
    var n := |events| - 1;
    if k < n {
      HistoryDecides(events[..n], k);
      assert History(events)[..k] == History(events[..n])[..k];
    } else {
      HistoryOk(events[..n]);
      StepDecided(History(events[..n]), StateAfter(events[..n]), events[n]);
      assert History(events)[..n] == History(events[..n]);
    }
  }

  lemma {:induction false} HistoryOk(events: seq<Event>)
    ensures Agrees(History(events), StateAfter(events))
    ensures forall k :: 0 <= k < |events| ==> EntryOk(History(events), k)
  {
    if events != [] {
      var n := |events| - 1;
      var log, s := History(events[..n]), StateAfter(events[..n]);
      HistoryOk(events[..n]);
      StepButtons(log, s, events[n]);
      StepLogin(log, s, events[n]);
      StepDialogues(log, s, events[n]);
      StepEntryOk(log, s, events[n]);
      hide Agrees;
      hide EntryOk;
      forall k | 0 <= k < n ensures EntryOk(History(events), k) {
        OldEntryOk(log, NewEntry(s, events[n]), k);
      }
    }
  }

  lemma OldEntryOk(log: seq<Entry>, e: Entry, k: nat)
    requires k < |log| && EntryOk(log, k)
    ensures EntryOk(log + [e], k)
  {
    hide LatestLogin;
    hide LatestPrompt;
    hide LatestCheck;
    hide StageOf;
    hide CommandName;
    assert (log + [e])[..k] == log[..k];
  }

  /** Between two positions no entry is of the kind. */
  predicate NoneBetween(log: seq<Entry>, i: int, k: int, kind: Entry -> bool) {
    forall j :: i < j < k && 0 <= j < |log| ==> !kind(log[j])
  }

  /** Entry k runs a command that was prompted for at i, authorised by the password step p, for the login entered
      at q. */
  ghost predicate Justified(log: seq<Entry>, k: nat, i: nat, p: nat, q: nat)
    requires k < |log|
  {
    && q < p < i < k
    && log[k].outcome.Executed? && log[k].event.Button? && log[k].event.yes
    && log[i].outcome == Prompted(log[k].outcome.what) && NoneBetween(log, i, k, IsPrompt)
    && log[i].event.user == log[k].event.user && !InDialogue(log[..i], log[i].event.user)
    && IsCheck(log[p]) && log[p].outcome.ok && NoneBetween(log, p, i, IsCheck)
    && IsLogin(log[q]) && log[q].outcome.login == log[p].outcome.login && NoneBetween(log, q, p, IsLogin)
    && log[p].event.Text? && (log[p].outcome.login, log[p].event.text) in log[p].event.credentials
  }

  /** Over every run of updates from any number of users: a command handler runs only on a "yes" from the sender of the
      latest command whose prompt was sent; that command was not sent inside its sender's login dialogue; and the
      latest password step before it had authenticated the login entered last before that step. */
  lemma {:induction false} ExecutedIsJustified(events: seq<Event>, k: nat)
    requires k < |events| && History(events)[k].outcome.Executed?
    ensures exists i, p, q :: Justified(History(events), k, i, p, q)
  {
    var log := History(events);
    HistoryOk(events);
    var i := PromptBehind(log, k);
    var p := CheckBehind(log, i);
    var q := LoginBehind(log, p);
    assert Justified(log, k, i, p, q);
  }

  lemma {:induction false} PromptBehind(log: seq<Entry>, k: nat) returns (i: nat)
    requires k < |log| && EntryOk(log, k) && log[k].outcome.Executed?
    ensures i < k && log[i].outcome == Prompted(log[k].outcome.what) && NoneBetween(log, i, k, IsPrompt)
    ensures log[k].event.Button? && log[k].event.yes && log[k].event.user == log[k].outcome.what.owner
  {
    i := LatestPrompt(log[..k]).value;
    assert forall j :: i <= j < k ==> log[j] == log[..k][j];
  }

  lemma {:induction false} CheckBehind(log: seq<Entry>, i: nat) returns (p: nat)
    requires i < |log| && EntryOk(log, i) && log[i].outcome.Prompted?
    ensures p < i && IsCheck(log[p]) && log[p].outcome.ok && NoneBetween(log, p, i, IsCheck)
    ensures log[i].event.user == log[i].outcome.prompt.owner && !InDialogue(log[..i], log[i].event.user)
  {
    hide CommandName;
    hide StageOf;
    p := LatestCheck(log[..i]).value;
    assert forall j :: p <= j < i ==> log[j] == log[..i][j];
  }

  lemma {:induction false} LoginBehind(log: seq<Entry>, p: nat) returns (q: nat)
    requires p < |log| && EntryOk(log, p) && IsCheck(log[p]) && log[p].outcome.ok
    ensures q < p && IsLogin(log[q]) && log[q].outcome.login == log[p].outcome.login && NoneBetween(log, q, p, IsLogin)
    ensures log[p].event.Text? && (log[p].outcome.login, log[p].event.text) in log[p].event.credentials
  {
    q := LatestLogin(log[..p]).value;
    assert forall j :: q <= j < p ==> log[j] == log[..p][j];
  }
}
