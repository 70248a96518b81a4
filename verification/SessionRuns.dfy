/** What holds of a session after any sequence of messages, lines and outside events. */
module SessionRuns {
  import opened Strings
  import opened StringLists
  import opened DataThreads
  import opened Sessions
  import P = Passive

  // The invariant

  predicate Pending(s: Session) {
    s.request.pasv || s.request.port
  }

  function Live(s: Session): nat {
    if s.thread.Some? then 1 else 0
  }

  /** A data thread was given the values that the session still has. */
  predicate Agrees(l: Launch, s: Session) {
    l.protection.relinked == s.relinked && l.protection.usingssl == s.tls.usingssl && l.username == s.username
  }

  predicate Inv(g: Setup, s: Session) {
    && (s.relinked ==> s.phase == Welcomed && s.relinks == 1)
    && (s.relinks > 0 ==> s.relinks == 1 && (s.over || s.relinked) && g.trytorelink)
    && (s.thread.Some? ==> s.phase == Welcomed && Bounces(g, s) && Agrees(s.thread.value, s))
    && (Pending(s) ==> s.phase.Rank() >= PassSent.Rank())
    && (!s.over ==> !s.request.activecon)
    && (s.latch == Stuck ==> s.over)
    && s.counts.created == s.counts.freed + Live(s)
    && s.counts.launched == s.counts.joined + s.counts.unjoined + Live(s)
    && s.counts.launched + (if Pending(s) && !s.over then 1 else 0) <= s.counts.accepted
  }

  /** What only ever goes one way, and what is frozen once the user name is known. */
  predicate Evolves(s: Session, t: Session) {
    && s.phase.Rank() <= t.phase.Rank()
    && (s.relinked ==> t.relinked)
    && s.relinks <= t.relinks
    && (s.phase.Rank() >= UserSent.Rank() ==> t.tls.usingssl == s.tls.usingssl && t.username == s.username)
    && (s.over ==> t.over && t.counts == s.counts && t.request == s.request)
    && (s.latch != Free ==> t.latch != Free)
    && s.counts.launched <= t.counts.launched && s.counts.accepted <= t.counts.accepted
    && (Pending(t) && !Pending(s) ==> s.counts.accepted < t.counts.accepted)
  }

  predicate Keeps(g: Setup, s: Session, t: Session) {
    Inv(g, t) && Evolves(s, t)
  }

  /** The same without a new data thread. */
  predicate StartsNone(g: Setup, s: Session, t: Session) {
    Keeps(g, s, t) && t.counts.launched == s.counts.launched
  }

  /** Two sessions that differ in nothing but what was written and how that ended. */
  ghost predicate Alike(s: Session, t: Session) {
    t == s.(out := t.out, over := t.over, latch := t.latch) && (s.over ==> t.over) && Latches(s, t)
  }

  /** A lock that was left held is never given back, and a thread that waits for itself is lost. */
  predicate Latches(s: Session, t: Session) {
    (s.latch != Free ==> t.latch != Free) && (s.latch != Stuck && t.latch == Stuck ==> t.over)
  }

  lemma {:induction false} PasswordsAlike(g: Setup, s: Session, lines: seq<PasswordLine>)
    ensures Alike(s, Passwords(g, s, lines))
    decreases |lines|
  {
    if !s.over && lines != [] && !lines[0].pass {
      PasswordsAlike(g, Client(g, s, "500 : Command not understood.\r\n", Own, lines[0].answer), lines[1..]);
    }
  }

  lemma AlikeKeeps(g: Setup, s: Session, t: Session)
    requires Inv(g, s) && Alike(s, t)
    ensures StartsNone(g, s, t)
  {
  }

  /** Two sessions that agree on all that the invariant speaks of. */
  predicate Framed(s: Session, t: Session) {
    && t.phase == s.phase && t.relinked == s.relinked && t.relinks == s.relinks && t.tls.usingssl == s.tls.usingssl
    && t.request == s.request && t.username == s.username && t.thread == s.thread && t.counts == s.counts
    && (s.over ==> t.over) && Latches(s, t)
  }

  lemma FramedKeeps(g: Setup, s: Session, t: Session)
    requires Inv(g, s) && Framed(s, t)
    ensures StartsNone(g, s, t)
  {
  }

  lemma ClientAlike(g: Setup, s: Session, text: string, source: Source, r: Sending)
    ensures Alike(s, Client(g, s, text, source, r))
  {
  }

  lemma SiteAlike(s: Session, text: string, r: Sending)
    ensures Alike(s, Site(s, text, r))
  {
  }

  lemma AnsweredAlike(g: Setup, s: Session, own: bool, reply: string, text: string, e: Env)
    ensures Alike(s, Answered(g, s, own, reply, text, e))
  {
  }

  lemma ThenTlsKeeps(g: Setup, s: Session, text: string, source: Source, e: Env)
    requires Inv(g, s) && !s.over && s.phase == FirstCommand
    ensures StartsNone(g, s, TryTls(Client(g, s, text, source, e.first), e))
  {
    ClientAlike(g, s, text, source, e.first);
  }

  lemma BeforeUserKeeps(g: Setup, s: Session, m: SiteMessage, e: Env)
    requires Inv(g, s) && !s.over && s.phase == FirstCommand
    ensures StartsNone(g, s, BeforeUser(g, s, m, e))
  {
    if m.authTls {
      ThenTlsKeeps(g, s, "234 AUTH SSL successful\r\n", Own, e);
      ThenTlsKeeps(g, s, m.text, From(s), e);
    } else if m.authSsl {
      ThenTlsKeeps(g, s.(tls := s.tls.(sslprotp := true)), m.text, From(s), e);
    } else {
      AlikeKeeps(g, s, Client(g, s, m.text, From(s), e.first));
    }
  }

  lemma AskPasswordAlike(g: Setup, s: Session, r: Relinking)
    ensures Alike(s, AskPassword(g, s, r))
  {
    ClientAlike(g, s, "331 Password required.\r\n", Own, r.asked);
    PasswordsAlike(g, Client(g, s, "331 Password required.\r\n", Own, r.asked), r.lines);
  }

  lemma ReconnectAlike(g: Setup, s: Session, r: Relinking)
    requires !s.over
    ensures Alike(s.(relinks := s.relinks + 1), Reconnect(g, s, r))
  {
    ClientAlike(g, s.(relinks := s.relinks + 1), "427 Login failed!\r\n", Own, r.told);
  }

  lemma WelcomeBackResult(g: Setup, s: Session, r: Relinking)
    ensures var t := WelcomeBack(g, s, r);
      && (t.over ==> Alike(s, t)) && (!t.over ==> Alike(s.(relinked := true, phase := Welcomed), t))
  {
    ClientAlike(g, s, "230 user " + s.username + " logged in.\r\n", RelinkLogin, r.welcomed);
  }

  /** A relink ends the session, or makes it a relinked and welcomed one. */
  lemma RelinkResult(g: Setup, s: Session, ask: bool, r: Relinking)
    requires !s.over
    ensures var t := TryRelink(g, s, ask, r);
      && (t.over ==> Alike(s.(relinks := s.relinks + 1), t))
      && (!t.over ==> Alike(s.(relinks := s.relinks + 1, relinked := true, phase := Welcomed), t))
  {
    ReconnectAlike(g, s, r);
    var s1 := Reconnect(g, s, r);
    AskPasswordAlike(g, s1, r);
    var s2 := if ask then AskPassword(g, s1, r) else s1;
    assert Alike(s.(relinks := s.relinks + 1), s2);
    WelcomeBackResult(g, s2, r);
  }

  /** After `Enforce` the session is over, relinked, or as it was. */
  lemma EnforceKeeps(g: Setup, s: Session, e: Env)
    requires Inv(g, s) && !s.over && s.phase == UserSent
    ensures var t := Enforce(g, s, e);
      && StartsNone(g, s, t)
      && (t.over || t.relinked || t == s)
      && (t.over || t.relinked || s.tls.usingssl || !g.enforce_tls || g.use_ssl_exclude)
  {
    RelinkResult(g, s, true, e.relinking);
    ClientAlike(g, s, "427 Use AUTH TLS!\r\n", Own, e.first);
  }

  lemma AfterUserKeeps(g: Setup, s: Session, m: SiteMessage, e: Env)
    requires Inv(g, s) && !s.over && s.phase == UserSent
    ensures StartsNone(g, s, AfterUser(g, s, m, e))
  {
    EnforceKeeps(g, s, e);
    RelinkResult(g, s, true, e.relinking);
    ClientAlike(g, s, m.text, From(s), e.first);
  }

  lemma AfterPassKeeps(g: Setup, s: Session, m: SiteMessage, e: Env)
    requires Inv(g, s) && !s.over && s.phase == PassSent
    ensures StartsNone(g, s, AfterPass(g, s, m, e))
  {
    var s1 := s.(phase := Welcomed);
    assert Keeps(g, s, s1);
    RelinkResult(g, s1, false, e.relinking);
    ClientAlike(g, s, m.text, From(s), e.first);
    ClientAlike(g, s1, m.text, From(s), e.first);
    ClientAlike(g, Client(g, s1, m.text, From(s), e.first), "427 Use AUTH TLS!\r\n", Own, e.second);
    assert (m.end && !m.success && !m.full && g.trytorelink) || Alike(s, AfterPass(g, s, m, e)) || Alike(s1, AfterPass(g, s, m, e));
  }

  lemma MakeRoomResult(g: Setup, s: Session, e: Env)
    requires Inv(g, s.(request := s.request.(activecon := false))) && !s.over
    ensures var t := MakeRoom(s, e);
      && Inv(g, t.(request := t.request.(activecon := false))) && Evolves(s, t) && t.thread.None?
      && t.counts.launched == s.counts.launched && t.counts.accepted == s.counts.accepted
      && Alike(s.(thread := t.thread, counts := t.counts), t)
  {
  }

  lemma CreateThreadKeeps(g: Setup, s: Session, l: Launch, spawn: bool)
    requires Inv(g, s.(request := s.request.(activecon := false))) && !s.over && s.thread.None? && Pending(s)
    requires s.phase == Welcomed && Bounces(g, s) && Agrees(l, s)
    ensures var t := CreateThread(s, l, spawn);
      && Keeps(g, s, Reset(t))
      && Inv(g, t.(over := true))
  {
  }

  /** A last write before the reset. */
  lemma ResetAfterWrite(g: Setup, s: Session, s2: Session, t: Session)
    requires Inv(g, s2.(over := true)) && Keeps(g, s, Reset(s2)) && Evolves(s, s2) && !s2.over && Alike(s2, t)
    ensures Keeps(g, s, Reset(t))
  {
  }

  lemma LaunchPassiveKeeps(g: Setup, s: Session, text: string, e: Env)
    requires Inv(g, s) && !s.over && s.phase == Welcomed && s.request.pasv && Bounces(g, s)
    ensures Keeps(g, s, LaunchPassive(g, s, text, e))
  {
    assert s.(request := s.request.(activecon := false)) == s;
    MakeRoomResult(g, s, e);
    var s1 := MakeRoom(s, e);
    if !s1.over {
      match P.ParsePsvCommand(text)
      case None =>
      case Some((ip, port)) =>
        var newport := NewPort(g, s1, port, e);
        match P.PsvReply(g.advertised.Address(), newport)
        case None =>
        case Some(cmd) => CreateThreadKeeps(g, s1, NewLaunch(s1, ip, "", port, 0, newport, cmd), e.spawn);
    }
  }

  lemma RefusePortKeeps(g: Setup, s: Session, s1: Session, r: Sending)
    requires Inv(g, s1.(request := s1.request.(activecon := false))) && Evolves(s, s1) && !s1.over && s1.thread.None?
    ensures Keeps(g, s, Reset(Client(g, s1, "500 '" + Crcut(s1.request.portcmd) + "': Command not understood.\r\n", Own, r)))
  {
    var text := "500 '" + Crcut(s1.request.portcmd) + "': Command not understood.\r\n";
    ClientAlike(g, s1, text, Own, r);
    ResetAfterWrite(g, s, s1, Client(g, s1, text, Own, r));
  }

  lemma AnswerPortKeeps(g: Setup, s: Session, s1: Session, l: Launch, e: Env)
    requires Inv(g, s1.(request := s1.request.(activecon := false))) && Evolves(s, s1) && !s1.over && s1.thread.None?
    requires s1.phase == Welcomed && Bounces(g, s1) && Agrees(l, s1) && Pending(s1)
    ensures Keeps(g, s, Reset(Client(g, CreateThread(s1, l, e.spawn), "200 PORT command successful.\r\n", Own, e.first)))
  {
    var s2 := CreateThread(s1, l, e.spawn);
    CreateThreadKeeps(g, s1, l, e.spawn);
    ClientAlike(g, s2, "200 PORT command successful.\r\n", Own, e.first);
    ResetAfterWrite(g, s1, s2, Client(g, s2, "200 PORT command successful.\r\n", Own, e.first));
  }

  lemma LaunchActiveKeeps(g: Setup, s: Session, text: string, e: Env)
    requires Inv(g, s) && !s.over && s.phase == Welcomed && s.request.port && Bounces(g, s)
    ensures Keeps(g, s, LaunchActive(g, s, text, e))
  {
    var s0 := s.(request := s.request.(activecon := true));
    assert s0.(request := s0.request.(activecon := false)) == s;
    MakeRoomResult(g, s0, e);
    var s1 := MakeRoom(s0, e);
    if !s1.over {
      match P.ParsePortCommand(s1.request.portcmd)
      case None => RefusePortKeeps(g, s, s1, e.first);
      case Some((activeip, activeport)) =>
        match P.ParsePsvCommand(text)
        case None =>
        case Some((ip, port)) =>
          AnswerPortKeeps(g, s, s1, NewLaunch(s1, ip, activeip, port, activeport, 0, ""), e);
    }
  }

  lemma ForwardKeeps(g: Setup, s: Session, m: SiteMessage, e: Env)
    requires Inv(g, s) && !s.over
    ensures StartsNone(g, s, Forward(g, s, m, e))
  {
    FramedKeeps(g, s, Forward(g, s, m, e));
  }

  lemma LoginReplyKeeps(g: Setup, s: Session, m: SiteMessage, e: Env)
    requires Inv(g, s) && !s.over && (s.phase == FirstCommand || s.phase == UserSent || s.phase == PassSent)
    ensures StartsNone(g, s, LoginReply(g, s, m, e))
  {
    if s.phase == FirstCommand {
      BeforeUserKeeps(g, s, m, e);
    } else if s.phase == UserSent {
      AfterUserKeeps(g, s, m, e);
    } else {
      AfterPassKeeps(g, s, m, e);
    }
  }

  lemma SiteReplyKeeps(g: Setup, s: Session, m: SiteMessage, e: Env)
    requires Inv(g, s) && !s.over
    ensures Keeps(g, s, SiteReply(g, s, m, e))
  {
    if s.phase == FirstCommand || s.phase == UserSent || s.phase == PassSent {
      LoginReplyKeeps(g, s, m, e);
    } else if LaunchesPassive(g, s) {
      LaunchPassiveKeeps(g, s, m.text, e);
    } else if LaunchesActive(g, s) {
      LaunchActiveKeeps(g, s, m.text, e);
    } else {
      ForwardKeeps(g, s, m, e);
    }
  }

  // Lines of the client

  lemma DeleteThreadKeeps(g: Setup, s: Session, join: bool)
    requires Inv(g, s)
    ensures StartsNone(g, s, DeleteThread(s, join))
    ensures var t := DeleteThread(s, join);
      && Alike(s.(thread := t.thread, counts := t.counts), t)
      && t.counts.launched == s.counts.launched && t.counts.accepted == s.counts.accepted
      && (s.over || t.thread.None?)
  {
  }

  lemma AborKeeps(g: Setup, s: Session, e: Env)
    requires Inv(g, s) && !s.over
    ensures StartsNone(g, s, AborLine(g, s, e))
  {
    DeleteThreadKeeps(g, s, e.join);
    var t := if Bounces(g, s) then DeleteThread(s, e.join) else s;
    AlikeKeeps(g, t, Site(t, "ABOR\r\n", e.first));
  }

  lemma ProtFramed(g: Setup, s: Session, on: bool, text: string, e: Env)
    ensures Framed(s, ProtLine(g, s, on, text, e))
  {
    AnsweredAlike(g, s.(tls := s.tls.(sslprotp := on && (s.tls.usingssl || s.tls.sslprotp))), s.relinked || (on && g.translate_nosslfxp),
                  if on then "200 Protection set to Private\r\n" else "200 Protection set to Clear\r\n", text, e);
  }

  lemma ModeFramed(g: Setup, s: Session, line: Line, text: string, e: Env)
    ensures Framed(s, ModeLine(g, s, line, text, e))
  {
    ProtFramed(g, s, line.ProtP?, text, e);
    SiteAlike(s.(mode := s.mode.(transfertype := if line.TypeA? then 1 else 2)), text, e.first);
  }

  lemma AuthKeeps(g: Setup, s: Session, ssl: bool, text: string, e: Env)
    requires Inv(g, s) && !s.over
    ensures StartsNone(g, s, AuthLine(g, s, ssl, text, e))
  {
  }

  lemma EarlyLineKeeps(g: Setup, s: Session, line: Line, text: string, e: Env)
    requires Inv(g, s) && !s.over && Early(line)
    ensures StartsNone(g, s, EarlyLine(g, s, line, text, e))
  {
    if line.Idnt? {
      AlikeKeeps(g, s, Client(g, s, NotUnderstood(text), Own, e.first));
    } else if line.Abor? {
      AborKeeps(g, s, e);
    } else if line.AuthTls? || line.AuthSsl? {
      AuthKeeps(g, s, line.AuthSsl?, text, e);
    } else {
      ModeFramed(g, s, line, text, e);
      FramedKeeps(g, s, ModeLine(g, s, line, text, e));
    }
  }

  lemma LoginLineKeeps(g: Setup, s: Session, line: Line, text: string, e: Env)
    requires Inv(g, s) && !s.over && s.phase.Rank() < PassSent.Rank()
    ensures StartsNone(g, s, LoginLine(s, line, text, e))
  {
  }

  lemma PassiveCommandKeeps(g: Setup, s: Session, text: string, e: Env)
    requires Inv(g, s) && !s.over && s.phase.Rank() >= PassSent.Rank()
    ensures StartsNone(g, s, PassiveCommand(g, s, text, e))
  {
    DeleteThreadKeeps(g, s, e.join);
  }

  lemma CpsvCommandKeeps(g: Setup, s: Session, text: string, e: Env)
    requires Inv(g, s) && !s.over && s.phase.Rank() >= PassSent.Rank()
    ensures StartsNone(g, s, CpsvCommand(g, s, text, e))
  {
    DeleteThreadKeeps(g, s, e.join);
  }

  lemma PortCommandKeeps(g: Setup, s: Session, text: string, e: Env)
    requires Inv(g, s) && !s.over && s.phase.Rank() >= PassSent.Rank()
    ensures StartsNone(g, s, PortCommand(g, s, text, e))
  {
    DeleteThreadKeeps(g, AskPort(s, text), e.join);
  }

  lemma AdminCommandKeeps(g: Setup, s: Session, line: Line, text: string, e: Env)
    requires Inv(g, s) && !s.over && line.Admin()
    ensures StartsNone(g, s, AdminCommand(g, s, line, text, e))
  {
    var served := MayAdminister(s);
    var t := if served then s.(book := Administered(s.book, line, text)) else s;
    var reply := if served then EditReply(s.book, line, text, e.report) else NotUnderstood(text);
    ClientAlike(g, t, reply, Own, e.first);
    FramedKeeps(g, s, Client(g, t, reply, Own, e.first));
  }

  lemma SscnFramed(g: Setup, s: Session, text: string, e: Env)
    ensures Framed(s, SscnCommand(g, s, text, e))
  {
    AnsweredAlike(g, s, !g.ssl_forward && g.traffic_bnc,
                  if s.mode.sscn then "200 SSCN:CLIENT METHOD\r\n" else "200 SSCN:SERVER METHOD\r\n", text, e);
  }

  lemma QuitFramed(g: Setup, s: Session, text: string, e: Env)
    ensures Framed(s, QuitCommand(g, s, text, e))
  {
    ClientAlike(g, s, e.report, Own, e.first);
    SiteAlike(if g.send_traffic_info && !s.relinked then Client(g, s, e.report, Own, e.first) else s, text, e.second);
  }

  lemma OrdinaryLineFramed(g: Setup, s: Session, line: Line, text: string, e: Env)
    requires !s.over
    ensures Framed(s, OrdinaryLine(g, s, line, text, e))
  {
    if line.Quit? {
      QuitFramed(g, s, text, e);
    } else if line.SscnOn? || line.SscnOff? {
      SscnFramed(g, s.(mode := s.mode.(sscn := line.SscnOn?)), text, e);
    } else if line.SscnStatus? {
      SscnFramed(g, s, text, e);
    } else if OwnAnswer(g, line, text).Some? {
      ClientAlike(g, s, OwnAnswer(g, line, text).value, Own, e.first);
    }
  }

  lemma LateLineKeeps(g: Setup, s: Session, line: Line, text: string, e: Env)
    requires Inv(g, s) && !s.over && s.phase.Rank() >= PassSent.Rank()
    ensures StartsNone(g, s, LateLine(g, s, line, text, e))
  {
    if line.Admin() && g.usecommands {
      AdminCommandKeeps(g, s, line, text, e);
    } else if line.Pasv? {
      PassiveCommandKeeps(g, s, text, e);
    } else if line.Cpsv? {
      CpsvCommandKeeps(g, s, text, e);
    } else if line.Port? {
      PortCommandKeeps(g, s, text, e);
    } else {
      OrdinaryLineFramed(g, s, line, text, e);
      FramedKeeps(g, s, LateLine(g, s, line, text, e));
    }
  }

  // Steps and runs

  lemma MeanwhileKeeps(g: Setup, s: Session, i: Input)
    requires Inv(g, s) && ByOthers(i)
    ensures StartsNone(g, s, Meanwhile(g, s, i))
  {
    if i.DataWrite? && s.thread.Some? && s.latch == Free {
      ClientAlike(g, s.(over := false), i.text, DataThread, i.result);
    }
    FramedKeeps(g, s, Meanwhile(g, s, i));
  }

  lemma ClientLineKeeps(g: Setup, s: Session, line: Line, text: string, e: Env)
    requires Inv(g, s) && !s.over
    ensures StartsNone(g, s, ClientLine(g, s, line, text, e))
  {
    if Early(line) {
      EarlyLineKeeps(g, s, line, text, e);
    } else if s.phase.Rank() < PassSent.Rank() {
      LoginLineKeeps(g, s, line, text, e);
    } else {
      LateLineKeeps(g, s, line, text, e);
    }
  }

  lemma TurnKeeps(g: Setup, s: Session, i: Input)
    requires Inv(g, s) && !s.over && !ByOthers(i)
    ensures Keeps(g, s, Turn(g, s, i))
  {
    if s.latch != Held && i.FromSite? {
      SiteReplyKeeps(g, s, i.message, i.env);
    } else if s.latch != Held && i.FromClient? {
      ClientLineKeeps(g, s, i.line, i.text, i.env);
    } else {
      AlikeKeeps(g, s, Turn(g, s, i));
    }
  }

  lemma StepKeeps(g: Setup, s: Session, i: Input)
    requires Inv(g, s)
    ensures Keeps(g, s, Step(g, s, i))
  {
    if ByOthers(i) {
      MeanwhileKeeps(g, s, i);
    } else if !s.over {
      TurnKeeps(g, s, i);
    }
  }

  lemma {:induction false} RunKeeps(g: Setup, s: Session, ins: seq<Input>)
    requires Inv(g, s)
    ensures Keeps(g, s, Run(g, s, ins))
    decreases |ins|
  {
    if ins != [] {
      StepKeeps(g, s, ins[0]);
      RunKeeps(g, Step(g, s, ins[0]), ins[1..]);
    }
  }

  lemma {:induction false} RunsOn(g: Setup, s: Session, ins: seq<Input>, more: seq<Input>)
    ensures Run(g, s, ins + more) == Run(g, Run(g, s, ins), more)
    decreases |ins|
  {
    if ins == [] {
      assert ins + more == more;
    } else {
      assert (ins + more)[1..] == ins[1..] + more;
      RunsOn(g, Step(g, s, ins[0]), ins[1..], more);
    }
  }

  /** The login only moves forward, a relink is never taken back, and from USER on neither the user
      name nor the protection of the control connection changes. */
  lemma NothingTurnsBack(g: Setup, book: Book, ins: seq<Input>, more: seq<Input>)
    ensures Evolves(Run(g, Start(book), ins), Run(g, Start(book), ins + more))
  {
    RunKeeps(g, Start(book), ins);
    RunKeeps(g, Run(g, Start(book), ins), more);
    RunsOn(g, Start(book), ins, more);
  }

  // Data threads over whole runs

  /** In every run: each data thread object is freed or the present one, each thread that came to life
      was joined (or its join failed) or is the present one, and there are never more of them than
      commands that asked for one, a pending command included while the session goes on. */
  lemma DataThreadsAccountedFor(g: Setup, book: Book, ins: seq<Input>)
    ensures var s := Run(g, Start(book), ins);
      && s.counts.created == s.counts.freed + Live(s)
      && s.counts.launched == s.counts.joined + s.counts.unjoined + Live(s)
      && s.counts.launched + (if Pending(s) && !s.over then 1 else 0) <= s.counts.accepted
  {
    RunKeeps(g, Start(book), ins);
  }

  /** A data thread exists only after the login and where data connections are bounced; it was given
      the user, the TLS state and the relink state that the session still has; and the session rests
      with activecon 0. */
  lemma DataThreadsFitTheSession(g: Setup, book: Book, ins: seq<Input>)
    ensures var s := Run(g, Start(book), ins);
      && (s.thread.Some? ==> s.phase == Welcomed && Bounces(g, s) && Agrees(s.thread.value, s))
      && (!s.over ==> !s.request.activecon)
  {
    RunKeeps(g, Start(book), ins);
  }

  /** Every thread that was ever started, and the pending command, had a command that asked for it. */
  predicate Covered(s: Session) {
    s.counts.launched + (if Pending(s) then 1 else 0) <= s.counts.accepted
  }

  const PORT_OK := "200 PORT command successful.\r\n"

  /** What a client that listens at some address and port sends. */
  function PortText(client: P.Quad, port: nat): string {
    "PORT " + (client.Commas() + "," + (Dec(port / 256) + "," + (Dec(port % 256) + "\r\n")))
  }

  /** A data thread is started for a PORT command, and the answer to that command does not get through. */
  predicate AnswerLost(g: Setup, s: Session, i: Input) {
    && !s.over && s.latch != Held && s.phase.Rank() !in {1, 2, 3} && i.FromSite?
    && LaunchesActive(g, s) && !LaunchesPassive(g, s)
    && (s.thread.Some? ==> i.env.join) && i.env.traffic && i.env.spawn
    && Answerable(s, i.message.text)
    && (i.env.first != Sent || Guarded(g, PORT_OK))
  }

  /** Some step loses an answer, with no command to spare. */
  predicate LosesAnswer(g: Setup, s: Session, ins: seq<Input>)
    decreases |ins|
  {
    ins != [] &&
      ((AnswerLost(g, s, ins[0]) && s.counts.launched + 1 == s.counts.accepted) || LosesAnswer(g, Step(g, s, ins[0]), ins[1..]))
  }

  lemma PassiveGoesOn(g: Setup, s: Session, text: string, e: Env)
    requires Inv(g, s) && !s.over && s.phase == Welcomed && s.request.pasv && Bounces(g, s)
    ensures var t := LaunchPassive(g, s, text, e); t.over ==> t.counts.launched == s.counts.launched
  {
    assert s.(request := s.request.(activecon := false)) == s;
    MakeRoomResult(g, s, e);
  }

  lemma RoomIsMade(s: Session, e: Env)
    requires !s.over
    ensures var t := MakeRoom(s, e);
      && t.latch == s.latch && Alike(s.(thread := t.thread, counts := t.counts), t)
      && t.counts.launched == s.counts.launched && t.counts.accepted == s.counts.accepted
      && (t.over <==> (s.thread.Some? && !e.join) || !e.traffic)
  {
  }

  predicate Answerable(s: Session, text: string) {
    P.ParsePortCommand(s.request.portcmd).Some? && P.ParsePsvCommand(text).Some?
  }

  lemma AnswerSent(g: Setup, s: Session, l: Launch, e: Env)
    requires !s.over && s.latch != Held
    ensures var t := Client(g, CreateThread(s, l, e.spawn), PORT_OK, Own, e.first);
      && (t.over <==> e.first != Sent || Guarded(g, PORT_OK))
      && t.counts.launched == s.counts.launched + (if e.spawn then 1 else 0)
      && t.counts.accepted == s.counts.accepted && t.request == s.request && t.message == s.message
  {
  }

  lemma AnswerEnds(g: Setup, s: Session, text: string, e: Env)
    requires !s.over && s.latch != Held
    ensures var t := AnswerPort(g, s, text, e);
      && (t.over && t.counts.launched > s.counts.launched <==>
            Answerable(s, text) && e.spawn && (e.first != Sent || Guarded(g, PORT_OK)))
      && s.counts.launched <= t.counts.launched <= s.counts.launched + 1
      && t.counts.accepted == s.counts.accepted && t.request == s.request && t.message == s.message
  {
    ClientAlike(g, s, "500 '" + Crcut(s.request.portcmd) + "': Command not understood.\r\n", Own, e.first);
    if Answerable(s, text) {
      var (activeip, activeport) := P.ParsePortCommand(s.request.portcmd).value;
      var (ip, port) := P.ParsePsvCommand(text).value;
      AnswerSent(g, s, NewLaunch(s, ip, activeip, port, activeport, 0, ""), e);
    }
  }

  lemma ActiveEnds(g: Setup, s: Session, m: SiteMessage, e: Env)
    requires !s.over && s.latch != Held && s.phase == Welcomed && LaunchesActive(g, s) && !LaunchesPassive(g, s)
    ensures var t := LaunchActive(g, s, m.text, e);
      && (t.over && t.counts.launched > s.counts.launched <==> AnswerLost(g, s, FromSite(m, e)))
      && (AnswerLost(g, s, FromSite(m, e)) ==>
            Pending(t) && t.counts.launched == s.counts.launched + 1 && t.counts.accepted == s.counts.accepted)
  {
    var s0 := s.(request := s.request.(activecon := true));
    RoomIsMade(s0, e);
    if !MakeRoom(s0, e).over {
      AnswerEnds(g, MakeRoom(s0, e), m.text, e);
    }
  }

  /** A step ends the session and leaves it with a new data thread exactly when it loses an answer. */
  lemma AnswerLostExactly(g: Setup, s: Session, i: Input)
    requires Inv(g, s) && !s.over
    ensures var t := Step(g, s, i);
      && (t.over && t.counts.launched > s.counts.launched <==> AnswerLost(g, s, i))
      && (AnswerLost(g, s, i) ==>
            Pending(t) && t.counts.launched == s.counts.launched + 1 && t.counts.accepted == s.counts.accepted)
  {
    if ByOthers(i) {
      MeanwhileKeeps(g, s, i);
    } else if i.FromClient? && s.latch != Held {
      ClientLineKeeps(g, s, i.line, i.text, i.env);
    } else if i.FromSite? && s.latch != Held {
      var FromSite(m, e) := i;
      if s.phase == FirstCommand || s.phase == UserSent || s.phase == PassSent {
        LoginReplyKeeps(g, s, m, e);
      } else if LaunchesPassive(g, s) {
        PassiveGoesOn(g, s, m.text, e);
      } else if LaunchesActive(g, s) {
        ActiveEnds(g, s, m, e);
      } else {
        ForwardKeeps(g, s, m, e);
      }
    }
  }

  lemma StepCovered(g: Setup, s: Session, i: Input)
    requires Inv(g, s) && Covered(s)
    ensures Covered(Step(g, s, i)) <==> !(AnswerLost(g, s, i) && s.counts.launched + 1 == s.counts.accepted)
  {
    var t := Step(g, s, i);
    StepKeeps(g, s, i);
    if !s.over {
      AnswerLostExactly(g, s, i);
    }
  }

  lemma {:induction false} FrozenWhenOver(g: Setup, s: Session, ins: seq<Input>)
    requires Inv(g, s) && s.over
    ensures var t := Run(g, s, ins); t.over && t.counts == s.counts && t.request == s.request
    decreases |ins|
  {
    if ins != [] {
      StepKeeps(g, s, ins[0]);
      FrozenWhenOver(g, Step(g, s, ins[0]), ins[1..]);
    }
  }

  lemma {:induction false} RunCovered(g: Setup, s: Session, ins: seq<Input>)
    requires Inv(g, s) && Covered(s)
    ensures Covered(Run(g, s, ins)) <==> !LosesAnswer(g, s, ins)
    decreases |ins|
  {
    if ins != [] {
      var t := Step(g, s, ins[0]);
      StepKeeps(g, s, ins[0]);
      StepCovered(g, s, ins[0]);
      if Covered(t) {
        RunCovered(g, t, ins[1..]);
      } else {
        AnswerLostExactly(g, s, ins[0]);
        FrozenWhenOver(g, t, ins[1..]);
      }
    }
  }

  /** The pending command included, there are never more data threads than commands that asked for one,
      unless the answer to a PORT command got lost with no command to spare: exactly then there is one
      too many. */
  lemma CoveredUnlessAnswerLost(g: Setup, book: Book, ins: seq<Input>)
    ensures Covered(Run(g, Start(book), ins)) <==> !LosesAnswer(g, Start(book), ins)
  {
    RunCovered(g, Start(book), ins);
  }

  /** After the destructor every object is freed, and every thread was joined unless a join failed. */
  lemma NothingLeftBehind(g: Setup, book: Book, ins: seq<Input>, join: bool)
    ensures var s := Destroyed(Run(g, Start(book), ins), join);
      && s.thread.None? && s.counts.created == s.counts.freed
      && s.counts.launched == s.counts.joined + s.counts.unjoined
  {
    RunKeeps(g, Start(book), ins);
  }

  // TLS

  /** A reply of the site is looked at between USER and PASS. */
  predicate RepliedBetween(g: Setup, s: Session, ins: seq<Input>)
    decreases |ins|
  {
    ins != [] && ((!s.over && s.phase == UserSent && ins[0].FromSite?) || RepliedBetween(g, Step(g, s, ins[0]), ins[1..]))
  }

  predicate Protected(s: Session) {
    s.tls.usingssl || s.relinked
  }

  lemma AfterUserEnforces(g: Setup, s: Session, m: SiteMessage, e: Env)
    requires Inv(g, s) && !s.over && s.phase == UserSent && g.enforce_tls && !g.use_ssl_exclude
    ensures var t := AfterUser(g, s, m, e); t.phase == Welcomed ==> Protected(t)
    ensures var t := AfterUser(g, s, m, e); !t.over ==> Protected(t)
  {
    EnforceKeeps(g, s, e);
    RelinkResult(g, s, true, e.relinking);
    ClientAlike(g, s, "427 Use AUTH TLS!\r\n", Own, e.first);
    ClientAlike(g, s, m.text, From(s), e.first);
  }

  lemma {:induction false} ProtectedFromThen(g: Setup, s: Session, ins: seq<Input>)
    requires Inv(g, s) && s.phase.Rank() >= UserSent.Rank() && (Protected(s) || (s.over && s.phase != Welcomed))
    ensures var t := Run(g, s, ins); t.phase == Welcomed ==> Protected(t)
    decreases |ins|
  {
    if ins != [] {
      StepKeeps(g, s, ins[0]);
      ProtectedFromThen(g, Step(g, s, ins[0]), ins[1..]);
    }
  }

  lemma {:induction false} EnforcedFrom(g: Setup, s: Session, ins: seq<Input>)
    requires Inv(g, s) && g.enforce_tls && !g.use_ssl_exclude && RepliedBetween(g, s, ins)
    ensures var t := Run(g, s, ins); t.phase == Welcomed ==> Protected(t)
    decreases |ins|
  {
    StepKeeps(g, s, ins[0]);
    if !s.over && s.phase == UserSent && ins[0].FromSite? {
      AfterUserEnforces(g, s, ins[0].message, ins[0].env);
      ProtectedFromThen(g, Step(g, s, ins[0]), ins[1..]);
    } else {
      EnforcedFrom(g, Step(g, s, ins[0]), ins[1..]);
    }
  }

  /** With `enforce_tls` and no exclude list, a session whose USER was answered before its PASS is
      welcomed only over TLS or by the relink site. */
  lemma TlsEnforced(g: Setup, book: Book, ins: seq<Input>)
    requires g.enforce_tls && !g.use_ssl_exclude
    requires RepliedBetween(g, Start(book), ins)
    ensures var s := Run(g, Start(book), ins); s.phase == Welcomed ==> s.tls.usingssl || s.relinked
  {
    EnforcedFrom(g, Start(book), ins);
  }

  const SMOOTH := Env(Sent, Sent, true, true, true, 0, true, true, Relinking(true, true, true, Sent, Sent, [], Sent), "")

  const WELCOME := SiteMessage("", true, false, false, false, true, false, false, false)

  /** The condition is needed: a client whose USER and PASS are both read before the site has answered is
      welcomed without TLS under every such configuration. */
  lemma PipelinedLoginEscapes(g: Setup, book: Book, user: string, pass: string) returns (ins: seq<Input>)
    requires g.enforce_tls && !g.use_ssl_exclude && g.mark != "" && UserName(user).Some?
    ensures var s := Run(g, Start(book), ins);
      s.phase == Welcomed && !s.over && !s.tls.usingssl && !s.relinked && Some(s.username) == UserName(user)
    ensures !RepliedBetween(g, Start(book), ins)
  {
    var s0 := Start(book);
    var login := [FromClient(User, user, SMOOTH), FromClient(Pass, pass, SMOOTH)];
    var last := [FromSite(WELCOME, SMOOTH)];
    ins := login + last;
    LoginAtOnce(g, s0, user, pass);
    RunsOn(g, s0, login, last);
    var s := Run(g, s0, login);
    WelcomedAtOnce(g, s);
    assert last[1..] == [] && Run(g, Step(g, s, last[0]), []) == Step(g, s, last[0]);
    if RepliedBetween(g, s0, ins) {
      EnforcedFrom(g, s0, ins);
    }
  }

  /** A session that goes on and has had no data connections so far. */
  predicate Unused(s: Session) {
    && !s.over && s.latch == Free
    && s.thread.None? && !Pending(s) && s.counts.launched == s.counts.accepted
  }

  lemma LoginLineRead(g: Setup, s: Session, line: Line, text: string, e: Env)
    requires !s.over && s.latch != Held && s.phase.Rank() < PassSent.Rank() && !Early(line)
    ensures Step(g, s, FromClient(line, text, e)) == LoginLine(s, line, text, e)
  {
  }

  lemma LineOfLogin(g: Setup, s: Session, line: Line, text: string)
    requires Unused(s)
    requires if s.phase.Rank() < UserSent.Rank() then line.User? && UserName(text).Some? else s.phase == UserSent && line.Pass?
    ensures var t := Step(g, s, FromClient(line, text, SMOOTH));
      && Unused(t) && t.tls == s.tls && t.relinked == s.relinked && t.relinks == s.relinks
      && (line.User? ==> t.phase == UserSent && Some(t.username) == UserName(text))
      && (line.Pass? ==> t.phase == PassSent && t.username == s.username)
  {
    LoginLineRead(g, s, line, text, SMOOTH);
  }

  lemma {:induction false} TwoSteps(g: Setup, s: Session, ins: seq<Input>)
    requires |ins| == 2
    ensures Run(g, s, ins) == Step(g, Step(g, s, ins[0]), ins[1])
  {
    assert ins[1..] == [ins[1]] && ins[1..][1..] == [];
    assert Run(g, Step(g, s, ins[0]), [ins[1]]) == Run(g, Step(g, Step(g, s, ins[0]), ins[1]), []);
  }

  /** USER and PASS, before any reply. */
  lemma LoginAtOnce(g: Setup, s: Session, user: string, pass: string)
    requires Unused(s) && s.phase.Rank() < UserSent.Rank() && UserName(user).Some?
    ensures var t := Run(g, s, [FromClient(User, user, SMOOTH), FromClient(Pass, pass, SMOOTH)]);
      && t.phase == PassSent && Unused(t) && Some(t.username) == UserName(user)
      && t.tls == s.tls && t.relinked == s.relinked && t.relinks == s.relinks
  {
    var login := [FromClient(User, user, SMOOTH), FromClient(Pass, pass, SMOOTH)];
    LineOfLogin(g, s, User, user);
    LineOfLogin(g, Step(g, s, login[0]), Pass, pass);
    TwoSteps(g, s, login);
  }

  lemma WelcomedAtOnce(g: Setup, s: Session)
    requires s.phase == PassSent && !s.over && s.latch == Free && g.mark != "" && (s.tls.usingssl || !g.use_ssl_exclude)
    ensures Step(g, s, FromSite(WELCOME, SMOOTH)) == s.(phase := Welcomed, out := s.out + [ToClient("", From(s))])
  {
    assert !Guarded(g, "");
  }

  /** The exclude list at the moment when a successful login was taken note of, if the session went on. */
  function LoggedInWith(g: Setup, s: Session, ins: seq<Input>): Option<seq<string>>
    decreases |ins|
  {
    if ins == [] then None
    else if !s.over && s.phase == PassSent && ins[0].FromSite? && ins[0].message.end && ins[0].message.success
            && !Step(g, s, ins[0]).over then Some(s.book.rights.sslexclude)
    else LoggedInWith(g, Step(g, s, ins[0]), ins[1..])
  }

  /** With the exclude list, a session that goes on after its login succeeded has TLS, or its user was
      on the list at that moment. */
  lemma {:induction false} ExcludedOrTls(g: Setup, s: Session, ins: seq<Input>)
    requires Inv(g, s) && g.enforce_tls && g.use_ssl_exclude
    ensures match LoggedInWith(g, s, ins)
            case None => true
            case Some(l) => Run(g, s, ins).tls.usingssl || Run(g, s, ins).username in l
    decreases |ins|
  {
    if ins != [] {
      var t := Step(g, s, ins[0]);
      StepKeeps(g, s, ins[0]);
      if !s.over && s.phase == PassSent && ins[0].FromSite? && ins[0].message.end && ins[0].message.success && !t.over {
        RunKeeps(g, t, ins[1..]);
        assert t.tls.usingssl || t.username in s.book.rights.sslexclude;
      } else {
        ExcludedOrTls(g, t, ins[1..]);
      }
    }
  }

  // An answer that gets lost

  const USER := "USER u\r\n"
  const PASS := "PASS p\r\n"

  lemma AnybodyLogsIn()
    ensures UserName(USER).Some?
  {
    assert USER[4] == ' ';
    IndexOfFirst(USER, ' ');
  }

  lemma {:induction false} RunSnoc(g: Setup, s: Session, ins: seq<Input>, i: Input)
    ensures Run(g, s, ins + [i]) == Step(g, Run(g, s, ins), i)
  {
    RunsOn(g, s, ins, [i]);
    assert [i][1..] == [] && Run(g, Step(g, Run(g, s, ins), i), []) == Step(g, Run(g, s, ins), i);
  }

  const AGREED := WELCOME.(success := false, authTls := true)
  const FAILED := WELCOME.(success := false)

  /** AUTH TLS, agreed to, with both handshakes. */
  lemma SecuredAtOnce(g: Setup, s: Session)
    requires Unused(s) && s.phase == NoCommand && g.mark != "" && !s.tls.gotauthsslmsg
    ensures var t := Run(g, s, [FromClient(AuthTls, "AUTH TLS\r\n", SMOOTH), FromSite(AGREED, SMOOTH)]);
      Unused(t) && t.phase == FirstCommand && t.tls.usingssl
  {
    assert !Guarded(g, "");
    var ins := [FromClient(AuthTls, "AUTH TLS\r\n", SMOOTH), FromSite(AGREED, SMOOTH)];
    assert Early(AuthTls);
    var s1 := Step(g, s, ins[0]);
    assert s1 == AuthLine(g, s, false, "AUTH TLS\r\n", SMOOTH);
    TwoSteps(g, s, ins);
  }

  lemma SecureLogin(g: Setup, book: Book) returns (ins: seq<Input>)
    requires g.mark != ""
    ensures var s := Run(g, Start(book), ins); s.phase == PassSent && Unused(s) && s.tls.usingssl
  {
    var auth := [FromClient(AuthTls, "AUTH TLS\r\n", SMOOTH), FromSite(AGREED, SMOOTH)];
    var login := [FromClient(User, USER, SMOOTH), FromClient(Pass, PASS, SMOOTH)];
    var s0 := Start(book);
    AnybodyLogsIn();
    assert Unused(s0) && s0.phase == NoCommand && !s0.tls.gotauthsslmsg;
    SecuredAtOnce(g, s0);
    LoginAtOnce(g, Run(g, s0, auth), USER, PASS);
    RunsOn(g, s0, auth, login);
    ins := auth + login;
  }

  /** A login over TLS. */
  lemma LoginWorks(g: Setup, book: Book) returns (ins: seq<Input>)
    requires g.mark != ""
    ensures var s := Run(g, Start(book), ins); s.phase == Welcomed && Unused(s)
  {
    var login := SecureLogin(g, book);
    WelcomedAtOnce(g, Run(g, Start(book), login));
    ins := login + [FromSite(WELCOME, SMOOTH)];
    RunSnoc(g, Start(book), login, FromSite(WELCOME, SMOOTH));
  }

  lemma RelinkedAtOnce(g: Setup, s: Session)
    requires Unused(s) && s.phase == PassSent && !g.traffic_bnc && g.trytorelink
    ensures var t := Step(g, s, FromSite(FAILED, SMOOTH)); Unused(t) && t.phase == Welcomed && t.relinked
  {
    var s1 := s.(phase := Welcomed);
    assert Step(g, s, FromSite(FAILED, SMOOTH)) == AfterPass(g, s, FAILED, SMOOTH) == TryRelink(g, s1, false, SMOOTH.relinking);
  }

  /** A login that fails, so that the session is relinked. */
  lemma RelinkWorks(g: Setup, book: Book) returns (ins: seq<Input>)
    requires !g.traffic_bnc && g.trytorelink
    ensures var s := Run(g, Start(book), ins); s.phase == Welcomed && Unused(s) && s.relinked
  {
    var login := [FromClient(User, USER, SMOOTH), FromClient(Pass, PASS, SMOOTH)];
    AnybodyLogsIn();
    LoginAtOnce(g, Start(book), USER, PASS);
    RelinkedAtOnce(g, Run(g, Start(book), login));
    ins := login + [FromSite(FAILED, SMOOTH)];
    RunSnoc(g, Start(book), login, FromSite(FAILED, SMOOTH));
  }

  lemma AskedByPort(g: Setup, s: Session, port: string)
    requires s.phase == Welcomed && Unused(s) && Bounces(g, s)
    ensures var t := Step(g, s, FromClient(Port, port, SMOOTH));
      && !t.over && t.latch == Free && t.phase == Welcomed && t.thread.None? && t.relinked == s.relinked
      && t.request == s.request.(port := true, portcmd := port)
      && t.counts == s.counts.(accepted := s.counts.accepted + 1)
  {
  }

  const GONE := SMOOTH.(first := Failed)

  /** The site answers the PASV that stands for PORT, and the data thread starts, but the client is gone. */
  lemma PortAnswerLost(g: Setup, s: Session, port: string, reply: string)
    requires s.phase == Welcomed && Unused(s) && Bounces(g, s)
    requires P.ParsePortCommand(port).Some? && P.ParsePsvCommand(reply).Some?
    ensures var t := Step(g, s, FromClient(Port, port, SMOOTH));
      AnswerLost(g, t, FromSite(WELCOME.(text := reply), GONE)) && t.counts.launched + 1 == t.counts.accepted
  {
    AskedByPort(g, s, port);
  }

  lemma {:induction false} LosingRun(g: Setup, s: Session, ins: seq<Input>, i: Input)
    requires var t := Run(g, s, ins); AnswerLost(g, t, i) && t.counts.launched + 1 == t.counts.accepted
    ensures LosesAnswer(g, s, ins + [i])
    decreases |ins|
  {
    if ins != [] {
      assert (ins + [i])[1..] == ins[1..] + [i];
      LosingRun(g, Step(g, s, ins[0]), ins[1..], i);
    }
  }

  /** Whether any session has its data connections bounced. */
  predicate CanBounce(g: Setup) {
    g.traffic_bnc || (g.traffic_bnc_relink && g.trytorelink)
  }

  lemma {:induction false} LosersBounce(g: Setup, s: Session, ins: seq<Input>)
    requires Inv(g, s) && LosesAnswer(g, s, ins)
    ensures CanBounce(g)
    decreases |ins|
  {
    if !(AnswerLost(g, s, ins[0]) && s.counts.launched + 1 == s.counts.accepted) {
      StepKeeps(g, s, ins[0]);
      LosersBounce(g, Step(g, s, ins[0]), ins[1..]);
    }
  }

  /** Where some session has its connections bounced, there is a run in which the answer to any given PORT
      command gets lost when any given reply comes from the site. */
  lemma AnswerGetsLost(g: Setup, book: Book, port: string, reply: string) returns (ins: seq<Input>)
    requires g.mark != "" && CanBounce(g)
    requires P.ParsePortCommand(port).Some? && P.ParsePsvCommand(reply).Some?
    ensures !Covered(Run(g, Start(book), ins))
    ensures |ins| >= 2 && ins[|ins| - 2] == FromClient(Port, port, SMOOTH)
    ensures ins[|ins| - 1] == FromSite(WELCOME.(text := reply), GONE)
  {
    var login;
    if g.traffic_bnc {
      login := LoginWorks(g, book);
    } else {
      login := RelinkWorks(g, book);
    }
    PortAnswerLost(g, Run(g, Start(book), login), port, reply);
    var asked := login + [FromClient(Port, port, SMOOTH)];
    RunSnoc(g, Start(book), login, FromClient(Port, port, SMOOTH));
    var lost := FromSite(WELCOME.(text := reply), GONE);
    LosingRun(g, Start(book), asked, lost);
    ins := asked + [lost];
    CoveredUnlessAnswerLost(g, book, ins);
  }

  /** So the bound can be broken exactly under the configurations that let some session have its
      connections bounced. The guarded text is never empty: it begins with a parenthesis. */
  lemma AnswerCanGetLostExactly(g: Setup, book: Book)
    requires g.mark != ""
    ensures CanBounce(g) <==> exists ins :: !Covered(Run(g, Start(book), ins))
  {
    if CanBounce(g) {
      var local := P.Quad(127, 0, 0, 1);
      P.PortRoundTrip(local, 1);
      P.PsvRoundTrip(local, 1);
      var ins := AnswerGetsLost(g, book, PortText(local, 1), P.PsvReply(local.Dotted(), 1).value);
    }
    forall ins | !Covered(Run(g, Start(book), ins)) ensures CanBounce(g) {
      CoveredUnlessAnswerLost(g, book, ins);
      LosersBounce(g, Start(book), ins);
    }
  }

  // Relinking

  /** A session is relinked at most once, and a relink that succeeded is a welcome. */
  lemma RelinkOnce(g: Setup, book: Book, ins: seq<Input>)
    ensures var s := Run(g, Start(book), ins);
      s.relinks <= 1 && (s.relinked ==> s.relinks == 1 && s.phase == Welcomed) && (s.relinks == 1 ==> s.over || s.relinked)
  {
    RunKeeps(g, Start(book), ins);
  }
}
