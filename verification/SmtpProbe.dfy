/**
 src/modules/admin-app-settings/admin-app-settings.service.ts: the SMTP probe. A splitter cuts the received text into
 lines (section 4.2.1 of RFC 5321), and a step machine answers replies through EHLO, an optional STARTTLS upgrade
 (section 4 of RFC 3207) and AUTH LOGIN. Sockets are inputs: text received, errors, the end of the stream, the timer.
 */
module SmtpProbe {
  import opened Prelude

  // ----- lines

  function Find(s: string, c: char): (i: nat)
    ensures i <= |s|
    ensures forall j | 0 <= j < i :: s[j] != c
    ensures i < |s| ==> s[i] == c
  {
    if s == "" || s[0] == c then 0 else 1 + Find(s[1..], c)
  }

  function DropReturn(s: string): string {
    if s != "" && s[|s| - 1] == '\r' then s[..|s| - 1] else s
  }

  // `split(/\r?\n/)`: the complete lines and what follows the last of them.
  function Lines(s: string): seq<string>
    decreases |s|
  {
    var i := Find(s, '\n');
    if i == |s| then [] else [DropReturn(s[..i])] + Lines(s[i + 1..])
  }

  function Rest(s: string): string
    decreases |s|
  {
    var i := Find(s, '\n');
    if i == |s| then s else Rest(s[i + 1..])
  }

  lemma {:induction false} FindIn(s: string, t: string, c: char)
    ensures Find(s, c) < |s| ==> Find(s + t, c) == Find(s, c)
  {
    if s != "" && s[0] != c {
      assert (s + t)[1..] == s[1..] + t;
      FindIn(s[1..], t, c);
    }
  }

  // Cutting a text in two anywhere, even inside a line end, gives the same lines when the rest of the first part is
  // put before the second.
  lemma {:induction false} SplitInTwo(s: string, t: string)
    ensures Lines(s + t) == Lines(s) + Lines(Rest(s) + t)
    ensures Rest(s + t) == Rest(Rest(s) + t)
    decreases |s|
  {
    hide Find, DropReturn;
    var i := Find(s, '\n');
    if i < |s| {
      FindIn(s, t, '\n');
      assert (s + t)[..i] == s[..i] && (s + t)[i + 1..] == s[i + 1..] + t;
      SplitInTwo(s[i + 1..], t);
    }
  }

  // ----- the step machine

  datatype Step = Banner | Ehlo1 | StartTls | Ehlo2 | Auth | User | Pass | Quit

  datatype Action = SendEhlo | SendStartTls | Upgrade | SendAuth | SendUser | SendPassword | SendQuit

  datatype Outcome = Pending | Resolved | Rejected(why: string)

  // `code` is none when the first three characters are not a number; `more` marks a continuation `250-`.
  datatype Reply = Reply(code: Option<int>, more: bool)

  datatype State = State(step: Step, outcome: Outcome, log: seq<Action>)

  datatype Options = Options(startTls: bool, username: string)

  function ReplyOf(number: string -> Option<int>, line: string): Reply {
    Reply(number(line[..Min(3, |line|)]), "250-" <= line)
  }

  function Start(): State {
    State(Banner, Pending, [])
  }

  // Only the first settlement counts.
  function Settle(s: State, outcome: Outcome): State {
    if s.outcome.Pending? then s.(outcome := outcome) else s
  }

  function Go(s: State, step: Step, actions: seq<Action>): State {
    s.(step := step, log := s.log + actions)
  }

  function AfterEhlo(o: Options, s: State): State {
    if o.username != "" then Go(s, Auth, [SendAuth]) else Settle(Go(s, Quit, [SendQuit]), Resolved)
  }

  function Fail(s: State, why: string): State {
    Settle(s, Rejected(why))
  }

  function OnReply(o: Options, s: State, r: Reply): State {
    if r.code.None? then s
    else
      var code := r.code.value;
      match s.step
      case Banner => if code != 220 then Fail(s, "banner") else Go(s, Ehlo1, [SendEhlo])
      case Ehlo1 =>
        if code != 250 then Fail(s, "ehlo") else if r.more then s
        else if o.startTls then Go(s, StartTls, [SendStartTls]) else AfterEhlo(o, s)
      case StartTls => if code != 220 then Fail(s, "starttls") else Go(s, Ehlo2, [Upgrade, SendEhlo])
      case Ehlo2 => if code != 250 then Fail(s, "ehlo after tls") else if r.more then s else AfterEhlo(o, s)
      case Auth => if code != 334 then Fail(s, "auth") else Go(s, User, [SendUser])
      case User => if code != 334 then Fail(s, "username") else Go(s, Pass, [SendPassword])
      case Pass => if code != 235 then Fail(s, "password") else Settle(Go(s, Quit, [SendQuit]), Resolved)
      case Quit => s
  }

  function OnReplies(o: Options, s: State, replies: seq<Reply>): State
    decreases |replies|
  {
    if replies == [] then s else OnReplies(o, OnReply(o, s, replies[0]), replies[1..])
  }

  // ----- the dialogue as a table

  // One exchange: the code awaited, whether continuation lines may come before it, and what is sent then.
  datatype Exchange = Exchange(code: int, multi: bool, actions: seq<Action>)

  function Confirm(): seq<Exchange> {
    [Exchange(235, false, [SendQuit])]
  }

  function SayPassword(): seq<Exchange> {
    [Exchange(334, false, [SendPassword])] + Confirm()
  }

  function Login(): seq<Exchange> {
    [Exchange(334, false, [SendUser])] + SayPassword()
  }

  // After the EHLO that counts: log in, or leave when there is no user name.
  function Greeted(o: Options): seq<Exchange> {
    if o.username == "" then [Exchange(250, true, [SendQuit])] else [Exchange(250, true, [SendAuth])] + Login()
  }

  function Secure(o: Options): seq<Exchange> {
    [Exchange(220, false, [Upgrade, SendEhlo])] + Greeted(o)
  }

  function Script(o: Options): seq<Exchange> {
    [Exchange(220, false, [SendEhlo])] +
    if o.startTls then [Exchange(250, true, [SendStartTls])] + Secure(o) else Greeted(o)
  }

  predicate Completes(x: Exchange, r: Reply) {
    r.code == Some(x.code) && !(x.multi && r.more)
  }

  // What the table says of a sequence of replies: the first unexpected code rejects, the last exchange resolves.
  datatype Verdict = Open | Accepted | Refused

  function Talk(script: seq<Exchange>, replies: seq<Reply>): Verdict
    decreases |replies|
  {
    if script == [] then Accepted
    else if replies == [] then Open
    else
      var r := replies[0];
      if r.code.Some? && r.code.value != script[0].code then Refused
      else Talk(if Completes(script[0], r) then script[1..] else script, replies[1..])
  }

  // What is left of the table after replies, when unexpected ones are passed over.
  function Left(script: seq<Exchange>, replies: seq<Reply>): seq<Exchange>
    decreases |replies|
  {
    if script == [] || replies == [] then script
    else Left(if Completes(script[0], replies[0]) then script[1..] else script, replies[1..])
  }

  function ActionsOf(script: seq<Exchange>): seq<Action> {
    if script == [] then [] else script[0].actions + ActionsOf(script[1..])
  }

  // The part of the table that a step still has before it.
  function Remaining(o: Options, step: Step): seq<Exchange> {
    match step
    case Banner => Script(o)
    case Ehlo1 => if o.startTls then [Exchange(250, true, [SendStartTls])] + Secure(o) else Greeted(o)
    case StartTls => Secure(o)
    case Ehlo2 => Greeted(o)
    case Auth => Login()
    case User => SayPassword()
    case Pass => Confirm()
    case Quit => []
  }

  predicate Reachable(o: Options, step: Step) {
    && (step.StartTls? || step.Ehlo2? ==> o.startTls)
    && (step.Auth? || step.User? || step.Pass? ==> o.username != "")
  }

  predicate Follows(o: Options, s: State, r: Reply, t: State) {
    var script := Remaining(o, s.step);
    if script == [] then t == s
    else if Completes(script[0], r) then
      && Remaining(o, t.step) == script[1..] && t.log == s.log + script[0].actions
      && t.outcome == if script[1..] == [] then Settle(s, Resolved).outcome else s.outcome
    else
      && t.step == s.step && t.log == s.log
      && (r.code.None? || r.code.value == script[0].code ==> t.outcome == s.outcome)
      && (r.code.Some? && r.code.value != script[0].code && s.outcome.Pending? ==> t.outcome.Rejected?)
      && (!s.outcome.Pending? ==> t.outcome == s.outcome)
  }

  lemma TailOfCons(x: Exchange, rest: seq<Exchange>)
    ensures ([x] + rest)[1..] == rest && ([x] + rest)[0] == x && [x] + rest != []
  {
  }

  lemma FirstAndRest(o: Options, step: Step)
    requires !step.Quit?
    ensures Remaining(o, step) != []
    ensures Remaining(o, step)[0] == Awaited(o, step)
    ensures Remaining(o, step)[1..] == match step
      case Banner => Remaining(o, Ehlo1)
      case Ehlo1 => if o.startTls then Secure(o) else if o.username == "" then [] else Login()
      case StartTls => Greeted(o)
      case Ehlo2 => if o.username == "" then [] else Login()
      case Auth => SayPassword()
      case User => Confirm()
      case _ => []
  {
    TailOfCons(Awaited(o, step), Remaining(o, step)[1..]);
  }

  // The exchange a step waits in.
  function Awaited(o: Options, step: Step): Exchange
    requires !step.Quit?
  {
    match step
    case Banner => Exchange(220, false, [SendEhlo])
    case Ehlo1 =>
      Exchange(250, true, if o.startTls then [SendStartTls] else if o.username == "" then [SendQuit] else [SendAuth])
    case StartTls => Exchange(220, false, [Upgrade, SendEhlo])
    case Ehlo2 => Exchange(250, true, if o.username == "" then [SendQuit] else [SendAuth])
    case Auth => Exchange(334, false, [SendUser])
    case User => Exchange(334, false, [SendPassword])
    case Pass => Exchange(235, false, [SendQuit])
  }

  lemma PartsNonempty(o: Options)
    ensures Secure(o) != [] && Greeted(o) != [] && Login() != [] && SayPassword() != [] && Confirm() != []
  {
  }

  // One step follows the table.
  lemma StepFollowsTable(o: Options, s: State, r: Reply)
    requires Reachable(o, s.step)
    ensures Reachable(o, OnReply(o, s, r).step) && Follows(o, s, r, OnReply(o, s, r))
    ensures s.step.Quit? <==> Remaining(o, s.step) == []
  {
    hide Script, Greeted, Secure, Login, SayPassword, Confirm;
    PartsNonempty(o);
    if !s.step.Quit? {
      FirstAndRest(o, s.step);
    }
  }

  predicate Decides(outcome: Outcome, verdict: Verdict) {
    match verdict
    case Open => outcome.Pending?
    case Accepted => outcome.Resolved?
    case Refused => outcome.Rejected?
  }

  lemma {:induction false} SettledStays(o: Options, s: State, replies: seq<Reply>)
    requires !s.outcome.Pending?
    ensures OnReplies(o, s, replies).outcome == s.outcome
    decreases |replies|
  {
    if replies != [] {
      SettledStays(o, OnReply(o, s, replies[0]), replies[1..]);
    }
  }

  // The machine settles as the table says: it resolves exactly on the accepted dialogue, and is rejected exactly by the
  // first unexpected code before that.
  lemma {:induction false} OutcomeIsTable(o: Options, s: State, replies: seq<Reply>)
    requires Reachable(o, s.step) && s.outcome.Pending? && !s.step.Quit?
    ensures Decides(OnReplies(o, s, replies).outcome, Talk(Remaining(o, s.step), replies))
    decreases |replies|
  {
    hide OnReply, Remaining, Reachable;
    StepFollowsTable(o, s, Reply(None, false));
    if replies != [] {
      var t := OnReply(o, s, replies[0]);
      StepFollowsTable(o, s, replies[0]);
      StepFollowsTable(o, t, Reply(None, false));
      if t.outcome.Pending? {
        OutcomeIsTable(o, t, replies[1..]);
      } else {
        SettledStays(o, t, replies[1..]);
      }
    }
  }

  lemma ProbeDecides(o: Options, replies: seq<Reply>)
    ensures Decides(OnReplies(o, Start(), replies).outcome, Talk(Script(o), replies))
  {
    OutcomeIsTable(o, Start(), replies);
  }

  // What is sent, settled or not, is the table's list of actions up to the exchange reached.
  lemma {:induction false} LogIsTable(o: Options, s: State, replies: seq<Reply>)
    requires Reachable(o, s.step)
    ensures var script := Remaining(o, s.step);
      OnReplies(o, s, replies).log + ActionsOf(Left(script, replies)) == s.log + ActionsOf(script)
    decreases |replies|
  {
    hide OnReply, Remaining, Reachable;
    if replies != [] {
      StepFollowsTable(o, s, replies[0]);
      LogIsTable(o, OnReply(o, s, replies[0]), replies[1..]);
    }
  }

  lemma RunIsTable(o: Options, replies: seq<Reply>)
    ensures var log, all := OnReplies(o, Start(), replies).log, ActionsOf(Script(o));
      && log + ActionsOf(Left(Script(o), replies)) == all
      && log <= all && log == all[..|log|]
  {
    hide OnReplies, ActionsOf, Left, Script;
    LogIsTable(o, Start(), replies);
    assert [] + ActionsOf(Script(o)) == ActionsOf(Script(o));
  }

  function Expecting(script: seq<Exchange>, code: int): nat {
    if script == [] then 0 else Expecting(script[1..], code) + if script[0].code == code then 1 else 0
  }

  function Received(replies: seq<Reply>, code: int): nat {
    if replies == [] then 0 else Received(replies[1..], code) + if replies[0].code == Some(code) then 1 else 0
  }

  // Each exchange done took a reply of its code.
  lemma {:induction false} RepliesTaken(script: seq<Exchange>, replies: seq<Reply>, code: int)
    ensures Expecting(script, code) <= Expecting(Left(script, replies), code) + Received(replies, code)
    decreases |replies|
  {
    if script != [] && replies != [] {
      RepliesTaken(if Completes(script[0], replies[0]) then script[1..] else script, replies[1..], code);
    }
  }

  predicate IsSuffix(t: seq<Exchange>, s: seq<Exchange>) {
    |t| <= |s| && t == s[|s| - |t|..]
  }

  lemma SuffixOfTail(t: seq<Exchange>, s: seq<Exchange>)
    requires s != [] && IsSuffix(t, s[1..])
    ensures IsSuffix(t, s)
  {
    assert s[1..][|s| - 1 - |t|..] == s[|s| - |t|..];
  }

  lemma WholeIsSuffix(s: seq<Exchange>)
    ensures IsSuffix(s, s)
  {
  }

  lemma {:induction false} LeftIsSuffix(script: seq<Exchange>, replies: seq<Reply>)
    ensures IsSuffix(Left(script, replies), script)
    decreases |replies|
  {
    hide IsSuffix, Completes;
    if script == [] || replies == [] {
      WholeIsSuffix(script);
    } else {
      LeftIsSuffix(if Completes(script[0], replies[0]) then script[1..] else script, replies[1..]);
      if Completes(script[0], replies[0]) {
        SuffixOfTail(Left(script, replies), script);
      }
    }
  }

  lemma ScriptActions(o: Options)
    ensures var opening := if o.startTls then [SendEhlo, SendStartTls, Upgrade, SendEhlo] else [SendEhlo];
      ActionsOf(Script(o)) ==
        opening + if o.username == "" then [SendQuit] else [SendAuth, SendUser, SendPassword, SendQuit]
    ensures Expecting(Script(o), 334) == if o.username == "" then 0 else 2
  {
    LoginActions();
    ActionsCons(Exchange(250, true, [SendAuth]), Login());
    ActionsCons(Exchange(250, true, [SendQuit]), []);
    assert [Exchange(250, true, [SendQuit])] + [] == [Exchange(250, true, [SendQuit])];
    hide ActionsOf, Expecting, Login;
    ActionsCons(Exchange(220, false, [Upgrade, SendEhlo]), Greeted(o));
    ActionsCons(Exchange(250, true, [SendStartTls]), Secure(o));
    ActionsCons(Exchange(220, false, [SendEhlo]), Remaining(o, Ehlo1));
  }

  lemma ActionsCons(x: Exchange, rest: seq<Exchange>)
    ensures ActionsOf([x] + rest) == x.actions + ActionsOf(rest)
    ensures Expecting([x] + rest, 334) == Expecting(rest, 334) + if x.code == 334 then 1 else 0
    ensures ActionsOf([]) == [] && Expecting([], 334) == 0
  {
    assert ([x] + rest)[1..] == rest;
  }

  lemma LoginActions()
    ensures ActionsOf(Login()) == [SendUser, SendPassword, SendQuit] && Expecting(Login(), 334) == 2
    ensures ActionsOf(SayPassword()) == [SendPassword, SendQuit] && Expecting(Confirm(), 334) == 0
  {
  }

  lemma {:induction false} ActionsSplit(a: seq<Exchange>, b: seq<Exchange>)
    ensures ActionsOf(a + b) == ActionsOf(a) + ActionsOf(b)
  {
    if a == [] {
      assert a + b == b;
    } else {
      assert a + b == [a[0]] + (a[1..] + b);
      ActionsSplit(a[1..], b);
    }
  }

  // Everything sent over a run, even after the probe settled, is a prefix of the one list of actions: with STARTTLS,
  // AUTH comes after the upgrade and the second EHLO, and the user name and password after AUTH.
  lemma SentInOrder(o: Options, replies: seq<Reply>)
    ensures var log := OnReplies(o, Start(), replies).log;
      && log <= ActionsOf(Script(o))
      && (o.startTls && SendAuth in log ==> [SendEhlo, SendStartTls, Upgrade, SendEhlo, SendAuth] <= log)
      && (SendUser in log || SendPassword in log ==> SendAuth in log)
  {
    hide OnReplies, ActionsOf, Script, Expecting;
    var log := OnReplies(o, Start(), replies).log;
    RunIsTable(o, replies);
    ScriptActions(o);
    if SendUser in log || SendPassword in log {
      var k := if o.startTls then 4 else 1;
      assert |log| > k + 1 && log[k] == SendAuth;
    }
  }

  // The password goes out only after two 334 replies.
  lemma PasswordAfterTwoPrompts(o: Options, replies: seq<Reply>)
    ensures SendPassword in OnReplies(o, Start(), replies).log ==> Received(replies, 334) >= 2
  {
    hide OnReplies, ActionsOf, Script, Expecting, Left, Login, SayPassword, Confirm;
    var log, left := OnReplies(o, Start(), replies).log, Left(Script(o), replies);
    RunIsTable(o, replies);
    ScriptActions(o);
    LeftIsSuffix(Script(o), replies);
    RepliesTaken(Script(o), replies, 334);
    if SendPassword in log {
      assert SendPassword in ActionsOf(Script(o));
      PasswordLeft(o, left);
      assert ActionsOf(Script(o)) == log + ActionsOf(left);
      assert SendPassword !in ActionsOf(left) by {
        OnlyOnce(o, log, ActionsOf(left));
      }
    }
  }

  lemma OnlyOnce(o: Options, a: seq<Action>, b: seq<Action>)
    requires a + b == ActionsOf(Script(o)) && SendPassword in a
    ensures SendPassword !in b
  {
    hide ActionsOf, Script, Expecting;
    ScriptActions(o);
    var i :| 0 <= i < |a| && a[i] == SendPassword;
    assert (a + b)[i] == SendPassword;
    assert forall j | 0 <= j < |b| :: b[j] == (a + b)[|a| + j];
  }

  // While a 334 is awaited the password is still to be sent.
  lemma PasswordLeft(o: Options, left: seq<Exchange>)
    requires IsSuffix(left, Script(o)) && o.username != ""
    ensures SendPassword in ActionsOf(left) || Expecting(left, 334) == 0
  {
  }

  // Success means the whole dialogue took place.
  lemma {:induction false} AcceptedMeansDone(script: seq<Exchange>, replies: seq<Reply>)
    requires Talk(script, replies) == Accepted
    ensures Left(script, replies) == []
    decreases |replies|
  {
    if script != [] && replies != [] {
      AcceptedMeansDone(if Completes(script[0], replies[0]) then script[1..] else script, replies[1..]);
    }
  }

  lemma ResolvedMeansDone(o: Options, replies: seq<Reply>)
    requires OnReplies(o, Start(), replies).outcome.Resolved?
    ensures OnReplies(o, Start(), replies).log == ActionsOf(Script(o))
    ensures forall code :: Expecting(Script(o), code) <= Received(replies, code)
  {
    hide OnReplies, ActionsOf, Script, Talk, Expecting, Received;
    ProbeDecides(o, replies);
    AcceptedMeansDone(Script(o), replies);
    RunIsTable(o, replies);
    NothingExpected();
    forall code ensures Expecting(Script(o), code) <= Received(replies, code) {
      RepliesTaken(Script(o), replies, code);
    }
    assert ActionsOf([]) == [];
  }

  lemma NothingExpected()
    ensures ActionsOf([]) == [] && forall code :: Expecting([], code) == 0
  {
  }

  // ----- events

  datatype Event = Data(chunk: string) | SocketError(why: string) | End | Timeout

  datatype Session = Session(state: State, buffer: string)

  function OnLine(o: Options, number: string -> Option<int>, s: State, line: string): State {
    if Trim(line) != "" then OnReply(o, s, ReplyOf(number, Trim(line))) else s
  }

  function OnLines(o: Options, number: string -> Option<int>, s: State, lines: seq<string>): State
    decreases |lines|
  {
    if lines == [] then s else OnLines(o, number, OnLine(o, number, s, lines[0]), lines[1..])
  }

  function OnEvent(o: Options, number: string -> Option<int>, x: Session, e: Event): Session {
    match e
    case Data(chunk) => Session(OnLines(o, number, x.state, Lines(x.buffer + chunk)), Rest(x.buffer + chunk))
    case SocketError(why) => x.(state := Fail(x.state, why))
    case End => x.(state := Fail(x.state, "closed"))
    case Timeout => x.(state := Fail(x.state, "timed out"))
  }

  function Run(o: Options, number: string -> Option<int>, events: seq<Event>): Session {
    if events == [] then Session(Start(), "")
    else OnEvent(o, number, Run(o, number, events[..|events| - 1]), events[|events| - 1])
  }

  // All text received.
  function Text(events: seq<Event>): string {
    if events == [] then ""
    else Text(events[..|events| - 1]) + if events[|events| - 1].Data? then events[|events| - 1].chunk else ""
  }

  // The replies in lines: blank lines are none.
  function Replies(number: string -> Option<int>, lines: seq<string>): seq<Reply> {
    if lines == [] then []
    else (if Trim(lines[0]) != "" then [ReplyOf(number, Trim(lines[0]))] else []) + Replies(number, lines[1..])
  }

  lemma {:induction false} LinesAreReplies(o: Options, number: string -> Option<int>, s: State, lines: seq<string>)
    ensures OnLines(o, number, s, lines) == OnReplies(o, s, Replies(number, lines))
    decreases |lines|
  {
    hide OnReply, Trim, ReplyOf;
    if lines != [] {
      var t := OnLine(o, number, s, lines[0]);
      LinesAreReplies(o, number, t, lines[1..]);
      var rest := Replies(number, lines[1..]);
      if Trim(lines[0]) != "" {
        assert Replies(number, lines)[1..] == rest;
      } else {
        assert Replies(number, lines) == rest;
      }
    }
  }

  lemma {:induction false} RepliesSplit(number: string -> Option<int>, a: seq<string>, b: seq<string>)
    ensures Replies(number, a + b) == Replies(number, a) + Replies(number, b)
  {
    hide Trim, ReplyOf;
    if a == [] {
      assert a + b == b;
    } else {
      assert (a + b)[1..] == a[1..] + b;
      RepliesSplit(number, a[1..], b);
    }
  }

  lemma {:induction false} OnRepliesSplit(o: Options, s: State, a: seq<Reply>, b: seq<Reply>)
    ensures OnReplies(o, s, a + b) == OnReplies(o, OnReplies(o, s, a), b)
    decreases |a|
  {
    hide OnReply;
    if a == [] {
      assert a + b == b;
    } else {
      assert (a + b)[1..] == a[1..] + b;
      OnRepliesSplit(o, OnReply(o, s, a[0]), a[1..], b);
    }
  }

  predicate SameTalk(s: State, t: State) {
    s.step == t.step && s.log == t.log
  }

  lemma {:induction false} SettlingChangesNothingElse(o: Options, s: State, t: State, replies: seq<Reply>)
    requires SameTalk(s, t)
    ensures SameTalk(OnReplies(o, s, replies), OnReplies(o, t, replies))
    decreases |replies|
  {
    if replies != [] {
      OneReplySame(o, s, t, replies[0]);
      hide OnReply;
      SettlingChangesNothingElse(o, OnReply(o, s, replies[0]), OnReply(o, t, replies[0]), replies[1..]);
    }
  }

  lemma OneReplySame(o: Options, s: State, t: State, r: Reply)
    requires SameTalk(s, t)
    ensures SameTalk(OnReply(o, s, r), OnReply(o, t, r))
  {
  }

  // The replies in the complete lines of all text received.
  function Heard(number: string -> Option<int>, events: seq<Event>): seq<Reply> {
    Replies(number, Lines(Text(events)))
  }

  lemma HeardMore(number: string -> Option<int>, events: seq<Event>)
    requires events != []
    ensures var before, e := events[..|events| - 1], events[|events| - 1];
      if e.Data? then
        && Rest(Text(events)) == Rest(Rest(Text(before)) + e.chunk)
        && Heard(number, events) == Heard(number, before) + Replies(number, Lines(Rest(Text(before)) + e.chunk))
      else Text(events) == Text(before) && Heard(number, events) == Heard(number, before)
  {
    hide Lines, Rest, Replies;
    var before, e := events[..|events| - 1], events[|events| - 1];
    if e.Data? {
      SplitInTwo(Text(before), e.chunk);
      RepliesSplit(number, Lines(Text(before)), Lines(Rest(Text(before)) + e.chunk));
    }
  }

  // What is dispatched and sent depends only on the text received, not on how it was cut into chunks nor on when the
  // probe settled.
  lemma {:induction false} ChunksDoNotMatter(o: Options, number: string -> Option<int>, events: seq<Event>)
    ensures var x := Run(o, number, events);
      && x.buffer == Rest(Text(events))
      && SameTalk(x.state, OnReplies(o, Start(), Heard(number, events)))
  {
    if events != [] {
      var before, e := events[..|events| - 1], events[|events| - 1];
      ChunksDoNotMatter(o, number, before);
      HeardMore(number, events);
      if e.Data? {
        var x := Run(o, number, before);
        var lines := Lines(x.buffer + e.chunk);
        LinesAreReplies(o, number, x.state, lines);
        OnRepliesSplit(o, Start(), Heard(number, before), Replies(number, lines));
        SettlingChangesNothingElse(o, x.state, OnReplies(o, Start(), Heard(number, before)), Replies(number, lines));
      }
    }
  }

  // The first settlement stands, whatever happens later.
  lemma {:induction false} SettledOnce(o: Options, number: string -> Option<int>, events: seq<Event>, later: seq<Event>)
    requires !Run(o, number, events).state.outcome.Pending?
    ensures Run(o, number, events + later).state.outcome == Run(o, number, events).state.outcome
  {
    hide OnReplies, Lines, Rest, Replies;
    if later == [] {
      assert events + later == events;
    } else {
      var before, e := later[..|later| - 1], later[|later| - 1];
      SettledOnce(o, number, events, before);
      assert (events + later)[..|events + later| - 1] == events + before;
      if e.Data? {
        var x := Run(o, number, events + before);
        LinesAreReplies(o, number, x.state, Lines(x.buffer + e.chunk));
        SettledStays(o, x.state, Replies(number, Lines(x.buffer + e.chunk)));
      }
    }
  }

  lemma {:induction false} TalkSplits(script: seq<Exchange>, a: seq<Reply>, b: seq<Reply>)
    ensures Talk(script, a + b) == if Talk(script, a).Open? then Talk(Left(script, a), b) else Talk(script, a)
    decreases |a|
  {
    if a == [] {
      assert a + b == b;
    } else if script != [] {
      assert (a + b)[1..] == a[1..] + b;
      TalkSplits(if Completes(script[0], a[0]) then script[1..] else script, a[1..], b);
    }
  }

  lemma {:induction false} StepIsLeft(o: Options, s: State, replies: seq<Reply>)
    requires Reachable(o, s.step)
    ensures var t := OnReplies(o, s, replies);
      Reachable(o, t.step) && Remaining(o, t.step) == Left(Remaining(o, s.step), replies)
    decreases |replies|
  {
    hide OnReply, Remaining, Reachable;
    if replies != [] {
      StepFollowsTable(o, s, replies[0]);
      StepIsLeft(o, OnReply(o, s, replies[0]), replies[1..]);
    }
  }

  predicate Heeds(outcome: Outcome, verdict: Verdict) {
    && (outcome.Pending? ==> verdict.Open?)
    && (outcome.Resolved? ==> verdict.Accepted?)
  }

  lemma TalkMore(o: Options, number: string -> Option<int>, x: Session, heard: seq<Reply>, lines: seq<string>)
    requires SameTalk(x.state, OnReplies(o, Start(), heard)) && Heeds(x.state.outcome, Talk(Script(o), heard))
    ensures var all := heard + Replies(number, lines);
      && Heeds(OnLines(o, number, x.state, lines).outcome, Talk(Script(o), all))
      && (x.state.outcome.Pending? ==> Decides(OnLines(o, number, x.state, lines).outcome, Talk(Script(o), all)))
      && (!x.state.outcome.Pending? ==> OnLines(o, number, x.state, lines).outcome == x.state.outcome)
  {
    hide OnReplies, Replies, Talk, Left, Script, OnLines;
    var more := Replies(number, lines);
    LinesAreReplies(o, number, x.state, lines);
    TalkSplits(Script(o), heard, more);
    if x.state.outcome.Pending? {
      StepIsLeft(o, Start(), heard);
      StepFollowsTable(o, x.state, Reply(None, false));
      if !x.state.step.Quit? {
        OutcomeIsTable(o, x.state, more);
      } else {
        OpenHasLeft(Script(o), heard);
      }
    } else {
      SettledStays(o, x.state, more);
    }
  }

  lemma {:induction false} OpenHasLeft(script: seq<Exchange>, replies: seq<Reply>)
    requires Talk(script, replies).Open?
    ensures Left(script, replies) != []
    decreases |replies|
  {
    if replies != [] {
      OpenHasLeft(if Completes(script[0], replies[0]) then script[1..] else script, replies[1..]);
    }
  }

  predicate OnlyData(events: seq<Event>) {
    forall e | e in events :: e.Data?
  }

  // Over any events the probe resolves only when the complete lines received so far are an accepted dialogue; when only
  // text arrives it settles exactly as the table does.
  lemma {:induction false} ResolvesOnlyOnDialogue(o: Options, number: string -> Option<int>, events: seq<Event>)
    ensures Heeds(Run(o, number, events).state.outcome, Talk(Script(o), Heard(number, events)))
    ensures OnlyData(events) ==> Decides(Run(o, number, events).state.outcome, Talk(Script(o), Heard(number, events)))
  {
    hide Lines, Rest, Replies, OnReplies, OnLines, Script, Talk;
    if events == [] {
      NothingHeard(o, number);
    } else {
      var before, e := events[..|events| - 1], events[|events| - 1];
      ResolvesOnlyOnDialogue(o, number, before);
      ChunksDoNotMatter(o, number, before);
      HeardMore(number, events);
      if e.Data? {
        var x := Run(o, number, before);
        TalkMore(o, number, x, Heard(number, before), Lines(x.buffer + e.chunk));
        TalkSplits(Script(o), Heard(number, before), Replies(number, Lines(x.buffer + e.chunk)));
      }
    }
  }

  lemma NothingHeard(o: Options, number: string -> Option<int>)
    ensures Talk(Script(o), Heard(number, [])).Open?
  {
  }

  // ----- what arrives behind the reply to STARTTLS

  lemma LineFirst(line: string, behind: string)
    requires '\n' !in line
    ensures Lines(line + "\n" + behind) == [DropReturn(line)] + Lines(behind)
    ensures Rest(line + "\n" + behind) == Rest(behind)
  {
    var s := line + "\n" + behind;
    assert s[|line|] == '\n' && forall j | 0 <= j < |line| :: s[j] == line[j];
    assert Find(s, '\n') == |line|;
    assert s[..|line|] == line && s[|line| + 1..] == behind;
  }

  function Upgraded(s: State): State {
    Go(s, Ehlo2, [Upgrade, SendEhlo])
  }

  // A reply that does not move the machine while it waits for the second EHLO's reply.
  predicate Idle(s: State, r: Reply) {
    r.code.None? || if r.code == Some(250) then r.more else !s.outcome.Pending?
  }

  lemma {:induction false} LogGrows(o: Options, s: State, replies: seq<Reply>)
    ensures s.log <= OnReplies(o, s, replies).log
    decreases |replies|
  {
    if replies != [] {
      LogGrows(o, OnReply(o, s, replies[0]), replies[1..]);
    }
  }

  lemma {:induction false} UnmovedByIdle(o: Options, s: State, replies: seq<Reply>)
    requires s.step.Ehlo2?
    ensures OnReplies(o, s, replies) == s <==> forall r | r in replies :: Idle(s, r)
    decreases |replies|
  {
    if replies != [] {
      var t := OnReply(o, s, replies[0]);
      assert t == s <==> Idle(s, replies[0]);
      if t == s {
        UnmovedByIdle(o, s, replies[1..]);
      } else if t.log == s.log {
        SettledStays(o, t, replies[1..]);
      } else {
        LogGrows(o, t, replies[1..]);
      }
    }
  }

  // The dialogue over the upgraded connection starts with the text received on it exactly when the text received with
  // the reply to STARTTLS ends behind that line, but for lines without a code and continuation lines.
  lemma UpgradeStartsAfresh(o: Options, number: string -> Option<int>, x: Session, chunk: string, line: string,
                            behind: string)
    requires x.state.step.StartTls? && x.buffer + chunk == line + "\n" + behind && '\n' !in line
    requires Trim(DropReturn(line)) != "" && ReplyOf(number, Trim(DropReturn(line))).code == Some(220)
    ensures var t := OnEvent(o, number, x, Data(chunk));
      t == Session(Upgraded(x.state), "") <==>
      Rest(behind) == "" && forall r | r in Replies(number, Lines(behind)) :: Idle(x.state, r)
  {
    hide Lines, Rest, Trim, DropReturn, ReplyOf, Replies, OnReplies;
    LineFirst(line, behind);
    var lines := Lines(line + "\n" + behind);
    assert lines[0] == DropReturn(line) && lines[1..] == Lines(behind);
    assert OnLine(o, number, x.state, lines[0]) == Upgraded(x.state);
    LinesAreReplies(o, number, Upgraded(x.state), Lines(behind));
    UnmovedByIdle(o, Upgraded(x.state), Replies(number, Lines(behind)));
    assert forall r :: Idle(x.state, r) <==> Idle(Upgraded(x.state), r);
  }

  // A probe without a user name resolves on two replies of one chunk, with nothing received after the upgrade.
  lemma ResolvesAcrossUpgrade(o: Options, number: string -> Option<int>, x: Session)
    requires x.state.step.StartTls? && x.state.outcome.Pending? && x.buffer == "" && o.username == ""
    requires number("220") == Some(220) && number("250") == Some(250)
    ensures OnEvent(o, number, x, Data("220 go\r\n250 ok\r\n")).state.outcome.Resolved?
  {
    hide Lines, Rest, Trim, ReplyOf;
    var chunk := "220 go\r\n250 ok\r\n";
    TwoLines();
    TwoReplies(number);
    assert x.buffer + chunk == chunk;
    var lines, u := Lines(chunk), Upgraded(x.state);
    assert lines[1..] == ["250 ok"] && lines[1..][1..] == [];
    assert OnLine(o, number, x.state, "220 go") == OnReply(o, x.state, Reply(Some(220), false)) == u;
    assert OnLine(o, number, u, "250 ok") == OnReply(o, u, Reply(Some(250), false));
    assert OnReply(o, u, Reply(Some(250), false)).outcome.Resolved?;
    assert OnLines(o, number, u, lines[1..]) == OnLines(o, number, OnLine(o, number, u, "250 ok"), lines[1..][1..]);
  }

  lemma TwoLines()
    ensures Lines("220 go\r\n250 ok\r\n") == ["220 go", "250 ok"]
  {
    hide Lines, Rest;
    var ready, done := "220 go\r", "250 ok\r";
    assert "220 go\r\n250 ok\r\n" == ready + "\n" + (done + "\n" + "");
    LineFirst(ready, done + "\n" + "");
    LineFirst(done, "");
    NoLines();
    assert DropReturn(ready) == "220 go" && DropReturn(done) == "250 ok";
  }

  lemma TwoReplies(number: string -> Option<int>)
    requires number("220") == Some(220) && number("250") == Some(250)
    ensures Trim("220 go") == "220 go" && ReplyOf(number, "220 go") == Reply(Some(220), false)
    ensures Trim("250 ok") == "250 ok" && ReplyOf(number, "250 ok") == Reply(Some(250), false)
  {
    assert "220 go"[..3] == "220" && "250 ok"[..3] == "250";
    assert "220 go"[1] != "250-"[1] && "250 ok"[3] != "250-"[3];
  }

  lemma NoLines()
    ensures Lines("") == []
  {
  }

  // ----- a reply of several lines

  function Sent(lines: seq<string>): string {
    if lines == [] then "" else lines[0] + "\r\n" + Sent(lines[1..])
  }

  lemma SentFirst(lines: seq<string>)
    requires lines != [] && '\n' !in lines[0]
    ensures Lines(Sent(lines)) == [lines[0]] + Lines(Sent(lines[1..]))
    ensures Rest(Sent(lines)) == Rest(Sent(lines[1..]))
  {
    var line, behind := lines[0] + "\r", Sent(lines[1..]);
    assert Sent(lines) == line + "\n" + behind;
    hide Lines, Rest, Sent;
    LineFirst(line, behind);
  }

  lemma {:induction false} LinesSent(lines: seq<string>)
    requires forall i | 0 <= i < |lines| :: '\n' !in lines[i]
    ensures Lines(Sent(lines)) == lines && Rest(Sent(lines)) == ""
  {
    if lines != [] {
      hide Lines, Rest, Sent;
      LinesSent(lines[1..]);
      SentFirst(lines);
    }
  }

  lemma {:induction false} TrimEndKeeps(s: string, p: string)
    requires p != "" && p <= s && !IsSpace(p[|p| - 1])
    ensures p <= TrimEnd(s) <= s
    decreases |s|
  {
    hide IsSpace;
    if IsSpace(s[|s| - 1]) {
      TrimEndKeeps(s[..|s| - 1], p);
    }
  }

  // What a line of a reply to EHLO is taken for.
  lemma EhloLine(number: string -> Option<int>, line: string)
    requires "250" <= line && number("250") == Some(250)
    ensures Trim(line) != "" && ReplyOf(number, Trim(line)) == Reply(Some(250), "250-" <= line)
  {
    assert TrimStart(line) == line;
    TrimEndKeeps(line, "250");
    if "250-" <= line {
      TrimEndKeeps(line, "250-");
    }
    assert Trim(line)[..3] == "250";
  }

  lemma {:induction false} LinesToCome(o: Options, number: string -> Option<int>, s: State, more: seq<string>,
                                       rest: seq<string>)
    requires (s.step.Ehlo1? || s.step.Ehlo2?) && number("250") == Some(250)
    requires forall i | 0 <= i < |more| :: "250-" <= more[i]
    ensures OnLines(o, number, s, more + rest) == OnLines(o, number, s, rest)
    decreases |more|
  {
    hide Trim, ReplyOf;
    if more == [] {
      assert more + rest == rest;
    } else {
      assert "250" <= more[0];
      EhloLine(number, more[0]);
      LinesToCome(o, number, s, more[1..], rest);
      assert (more + rest)[1..] == more[1..] + rest;
    }
  }

  function AfterReply(o: Options, s: State): State {
    if s.step.Ehlo1? && o.startTls then s.(step := StartTls, log := s.log + [SendStartTls])
    else if o.username != "" then s.(step := Auth, log := s.log + [SendAuth])
    else State(Quit, if s.outcome.Pending? then Resolved else s.outcome, s.log + [SendQuit])
  }

  lemma LastLine(o: Options, number: string -> Option<int>, s: State, last: string)
    requires (s.step.Ehlo1? || s.step.Ehlo2?) && number("250") == Some(250)
    requires "250" <= last && !("250-" <= last)
    ensures OnLines(o, number, s, [last]) == AfterReply(o, s) && OnLines(o, number, s, []) == s
  {
    hide Trim, ReplyOf;
    EhloLine(number, last);
    assert [last][1..] == [];
  }

  // A reply to EHLO counts once its last line is there: lines that begin with 250 and a hyphen only go before it.
  lemma EhloReply(o: Options, number: string -> Option<int>, x: Session, more: seq<string>, last: string)
    requires (x.state.step.Ehlo1? || x.state.step.Ehlo2?) && x.buffer == "" && number("250") == Some(250)
    requires forall i | 0 <= i < |more| :: "250-" <= more[i] && '\n' !in more[i]
    requires "250" <= last && !("250-" <= last) && '\n' !in last
    ensures OnEvent(o, number, x, Data(Sent(more))) == x
    ensures OnEvent(o, number, x, Data(Sent(more + [last]))) == Session(AfterReply(o, x.state), "")
  {
    hide Lines, Rest, Sent, OnLines, AfterReply;
    LinesSent(more);
    LinesSent(more + [last]);
    assert x.buffer + Sent(more) == Sent(more) && x.buffer + Sent(more + [last]) == Sent(more + [last]);
    LinesToCome(o, number, x.state, more, []);
    assert more + [] == more;
    LinesToCome(o, number, x.state, more, [last]);
    LastLine(o, number, x.state, last);
  }

  // ----- the probe

  class Probe {
    const options: Options
    const number: string -> Option<int>
    var step: Step
    var buffer: string
    var outcome: Outcome
    var log: seq<Action>

    constructor (options: Options, number: string -> Option<int>)
      ensures this.options == options && this.number == number && Now() == Run(options, number, [])
    {
      this.options, this.number := options, number;
      step, buffer, outcome, log := Banner, "", Pending, [];
    }

    ghost function Now(): Session
      reads this
    {
      Session(State(step, outcome, log), buffer)
    }

    method Finish(result: Outcome)
      requires !result.Pending?
      modifies `outcome
      ensures Now() == old(Now()).(state := Settle(old(Now()).state, result))
    {
      if !outcome.Pending? {
        return;
      }
      outcome := result;
    }

    method Write(action: Action)
      modifies `log
      ensures log == old(log) + [action]
    {
      log := log + [action];
    }

    method EhloComplete()
      modifies `step, `outcome, `log
      ensures Now() == old(Now()).(state := AfterEhlo(options, old(Now()).state))
    {
      if options.username != "" {
        step := Auth;
        Write(SendAuth);
        return;
      }
      step := Quit;
      Write(SendQuit);
      Finish(Resolved);
    }

    method HandleLine(line: string)
      modifies `step, `outcome, `log
      ensures Now() == old(Now()).(state := OnReply(options, old(Now()).state, ReplyOf(number, line)))
    {
      var code := number(line[..Min(3, |line|)]);
      if code.None? {
        return;
      }
      match step
      case Banner =>
        if code.value != 220 {
          Finish(Rejected("banner"));
          return;
        }
        step := Ehlo1;
        Write(SendEhlo);
      case Ehlo1 =>
        if code.value != 250 {
          Finish(Rejected("ehlo"));
          return;
        }
        if "250-" <= line {
          return;
        }
        if options.startTls {
          step := StartTls;
          Write(SendStartTls);
          return;
        }
        EhloComplete();
      case StartTls =>
        if code.value != 220 {
          Finish(Rejected("starttls"));
          return;
        }
        Write(Upgrade);
        step := Ehlo2;
        Write(SendEhlo);
      case Ehlo2 =>
        if code.value != 250 {
          Finish(Rejected("ehlo after tls"));
          return;
        }
        if "250-" <= line {
          return;
        }
        EhloComplete();
      case Auth =>
        if code.value != 334 {
          Finish(Rejected("auth"));
          return;
        }
        step := User;
        Write(SendUser);
      case User =>
        if code.value != 334 {
          Finish(Rejected("username"));
          return;
        }
        step := Pass;
        Write(SendPassword);
      case Pass =>
        if code.value != 235 {
          Finish(Rejected("password"));
          return;
        }
        step := Quit;
        Write(SendQuit);
        Finish(Resolved);
      case Quit =>
    }

    method HandleData(chunk: string)
      modifies this
      ensures Now() == OnEvent(options, number, old(Now()), Data(chunk))
    {
      hide OnReply, Trim, ReplyOf, Lines, Rest;
      var parts := Lines(buffer + chunk);
      buffer := Rest(buffer + chunk);
      ghost var start := Now().state;
      for i := 0 to |parts|
        invariant buffer == Rest(old(buffer) + chunk)
        invariant OnLines(options, number, Now().state, parts[i..]) == OnLines(options, number, start, parts)
      {
        assert parts[i..][0] == parts[i] && parts[i..][1..] == parts[i + 1..];
        var line := Trim(parts[i]);
        if line != "" {
          HandleLine(line);
        }
      }
    }

    method HandleEvent(e: Event)
      modifies this
      ensures Now() == OnEvent(options, number, old(Now()), e)
    {
      match e
      case Data(chunk) => HandleData(chunk);
      case SocketError(why) => Finish(Rejected(why));
      case End =>
        if outcome.Pending? {
          Finish(Rejected("closed"));
        }
      case Timeout => Finish(Rejected("timed out"));
    }
  }

  method Probing(options: Options, number: string -> Option<int>, events: seq<Event>) returns (probe: Probe)
    ensures fresh(probe) && probe.Now() == Run(options, number, events)
  {
    probe := new Probe(options, number);
    assert events[..0] == [];
    for i := 0 to |events|
      invariant fresh(probe) && probe.options == options && probe.number == number
      invariant probe.Now() == Run(options, number, events[..i])
    {
      assert events[..i + 1][..i] == events[..i];
      probe.HandleEvent(events[i]);
    }
    assert events[..|events|] == events;
  }
}
