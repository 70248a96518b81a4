/** What a session writes, over whole runs. */
module SessionOutput {
  import opened Strings
  import opened StringLists
  import opened DataThreads
  import opened Sessions
  import opened SessionRuns
  import P = Passive

  // What one step adds to the output

  /** An item that may be written by a step that begins after `lo` relinks and ends after `hi`. */
  predicate Fits(g: Setup, lo: nat, hi: nat, item: Item) {
    item.ToClient? ==>
      && (item.source == FirstSite ==> lo == 0 && hi == 0)
      && (item.source == RelinkLogin ==> hi > 0)
      && (item.text == LIMIT || !Guarded(g, item.text))
  }

  ghost predicate Adds(g: Setup, lo: nat, hi: nat, a: seq<Item>, b: seq<Item>) {
    a <= b && forall j | |a| <= j < |b| :: Fits(g, lo, hi, b[j])
  }

  lemma AddsBoth(g: Setup, lo: nat, hi: nat, a: seq<Item>, b: seq<Item>, c: seq<Item>)
    requires Adds(g, lo, hi, a, b) && Adds(g, lo, hi, b, c)
    ensures Adds(g, lo, hi, a, c)
  {
    forall j | |a| <= j < |c| ensures Fits(g, lo, hi, c[j]) {
      if j < |b| {
        assert c[j] == b[j];
      }
    }
  }

  lemma ClientAdds(g: Setup, lo: nat, hi: nat, s: Session, text: string, source: Source, r: Sending)
    requires source == FirstSite ==> lo == 0 && hi == 0
    requires source == RelinkLogin ==> hi > 0
    ensures Adds(g, lo, hi, s.out, Client(g, s, text, source, r).out)
  {
  }

  lemma SiteAdds(g: Setup, lo: nat, hi: nat, s: Session, text: string, r: Sending)
    ensures Adds(g, lo, hi, s.out, Site(s, text, r).out)
  {
  }

  lemma {:induction false} PasswordsAdds(g: Setup, lo: nat, hi: nat, s: Session, lines: seq<PasswordLine>)
    ensures Adds(g, lo, hi, s.out, Passwords(g, s, lines).out)
    decreases |lines|
  {
    if !s.over && lines != [] && !lines[0].pass {
      var t := Client(g, s, "500 : Command not understood.\r\n", Own, lines[0].answer);
      ClientAdds(g, lo, hi, s, "500 : Command not understood.\r\n", Own, lines[0].answer);
      PasswordsAdds(g, lo, hi, t, lines[1..]);
      AddsBoth(g, lo, hi, s.out, t.out, Passwords(g, t, lines[1..]).out);
    }
  }

  lemma AskPasswordAdds(g: Setup, lo: nat, hi: nat, s: Session, r: Relinking)
    ensures Adds(g, lo, hi, s.out, AskPassword(g, s, r).out)
  {
    var asking := Client(g, s, "331 Password required.\r\n", Own, r.asked);
    ClientAdds(g, lo, hi, s, "331 Password required.\r\n", Own, r.asked);
    PasswordsAdds(g, lo, hi, asking, r.lines);
    AddsBoth(g, lo, hi, s.out, asking.out, Passwords(g, asking, r.lines).out);
  }

  lemma WelcomeBackAdds(g: Setup, lo: nat, hi: nat, s: Session, r: Relinking)
    requires hi > 0
    ensures Adds(g, lo, hi, s.out, WelcomeBack(g, s, r).out)
  {
    ClientAdds(g, lo, hi, s, "230 user " + s.username + " logged in.\r\n", RelinkLogin, r.welcomed);
  }

  lemma ReconnectAdds(g: Setup, lo: nat, hi: nat, s: Session, r: Relinking)
    ensures Adds(g, lo, hi, s.out, Reconnect(g, s, r).out)
  {
    ClientAdds(g, lo, hi, s.(relinks := s.relinks + 1), "427 Login failed!\r\n", Own, r.told);
  }

  lemma DialogueAdds(g: Setup, lo: nat, hi: nat, s: Session, s1: Session, ask: bool, r: Relinking)
    requires hi > 0 && Adds(g, lo, hi, s.out, s1.out)
    ensures Adds(g, lo, hi, s.out, WelcomeBack(g, if ask then AskPassword(g, s1, r) else s1, r).out)
  {
    var s2 := if ask then AskPassword(g, s1, r) else s1;
    AskPasswordAdds(g, lo, hi, s1, r);
    AddsBoth(g, lo, hi, s.out, s1.out, s2.out);
    WelcomeBackAdds(g, lo, hi, s2, r);
    AddsBoth(g, lo, hi, s.out, s2.out, WelcomeBack(g, s2, r).out);
  }

  lemma RelinkAdds(g: Setup, s: Session, ask: bool, r: Relinking)
    requires !s.over
    ensures Adds(g, s.relinks, s.relinks + 1, s.out, TryRelink(g, s, ask, r).out)
  {
    ReconnectAdds(g, s.relinks, s.relinks + 1, s, r);
    DialogueAdds(g, s.relinks, s.relinks + 1, s, Reconnect(g, s, r), ask, r);
  }

  // The branches of a site message

  lemma ThenTls(g: Setup, s: Session, text: string, source: Source, e: Env)
    requires source == FirstSite ==> s.relinks == 0
    requires source != RelinkLogin
    ensures var t := TryTls(Client(g, s, text, source, e.first), e);
      t.relinks == s.relinks && Adds(g, s.relinks, s.relinks, s.out, t.out) && t.book == s.book
  {
    ClientAdds(g, s.relinks, s.relinks, s, text, source, e.first);
    ClientAlike(g, s, text, source, e.first);
  }

  lemma BeforeUserAdds(g: Setup, s: Session, m: SiteMessage, e: Env)
    ensures var t := BeforeUser(g, s, m, e); t.relinks == s.relinks && Adds(g, s.relinks, s.relinks, s.out, t.out) && t.book == s.book
  {
    if m.authTls {
      ThenTls(g, s, "234 AUTH SSL successful\r\n", Own, e);
      ThenTls(g, s, m.text, From(s), e);
    } else if m.authSsl {
      ThenTls(g, s.(tls := s.tls.(sslprotp := true)), m.text, From(s), e);
    } else {
      ClientAdds(g, s.relinks, s.relinks, s, m.text, From(s), e.first);
      ClientAlike(g, s, m.text, From(s), e.first);
    }
  }

  lemma EnforceAdds(g: Setup, s: Session, e: Env)
    requires !s.over
    ensures var t := Enforce(g, s, e); Adds(g, s.relinks, t.relinks, s.out, t.out) && t.book == s.book
  {
    RelinkAdds(g, s, true, e.relinking);
    RelinkResult(g, s, true, e.relinking);
    ClientAdds(g, s.relinks, s.relinks, s, "427 Use AUTH TLS!\r\n", Own, e.first);
  }

  lemma AfterUserAdds(g: Setup, s: Session, m: SiteMessage, e: Env)
    requires Inv(g, s) && !s.over && s.phase == UserSent
    ensures var t := AfterUser(g, s, m, e); Adds(g, s.relinks, t.relinks, s.out, t.out) && t.book == s.book
  {
    EnforceKeeps(g, s, e);
    EnforceAdds(g, s, e);
    RelinkAdds(g, s, true, e.relinking);
    RelinkResult(g, s, true, e.relinking);
    ClientAdds(g, s.relinks, s.relinks, s, m.text, From(s), e.first);
  }

  lemma SucceedAdds(g: Setup, s: Session, m: SiteMessage, e: Env)
    ensures var n, s2 := s.relinks, Client(g, s, m.text, From(s), e.first);
      && Adds(g, n, n, s.out, s2.out) && Adds(g, n, n, s.out, Client(g, s2, "427 Use AUTH TLS!\r\n", Own, e.second).out)
  {
    var n := s.relinks;
    var s2 := Client(g, s, m.text, From(s), e.first);
    ClientAdds(g, n, n, s, m.text, From(s), e.first);
    ClientAdds(g, n, n, s2, "427 Use AUTH TLS!\r\n", Own, e.second);
    AddsBoth(g, n, n, s.out, s2.out, Client(g, s2, "427 Use AUTH TLS!\r\n", Own, e.second).out);
  }

  lemma AfterPassAdds(g: Setup, s: Session, m: SiteMessage, e: Env)
    requires Inv(g, s) && !s.over && s.phase == PassSent
    ensures var t := AfterPass(g, s, m, e); Adds(g, s.relinks, t.relinks, s.out, t.out) && t.book == s.book
  {
    var s1 := s.(phase := Welcomed);
    RelinkAdds(g, s1, false, e.relinking);
    RelinkResult(g, s1, false, e.relinking);
    SucceedAdds(g, s, m, e);
    SucceedAdds(g, s1, m, e);
    ClientAlike(g, s, m.text, From(s), e.first);
    ClientAlike(g, s1, m.text, From(s1), e.first);
    ClientAlike(g, Client(g, s1, m.text, From(s1), e.first), "427 Use AUTH TLS!\r\n", Own, e.second);
  }

  lemma MakeRoomAdds(g: Setup, s: Session, e: Env)
    ensures var t := MakeRoom(s, e); t.relinks == s.relinks && Adds(g, s.relinks, s.relinks, s.out, t.out) && t.book == s.book
  {
  }

  lemma LaunchPassiveAdds(g: Setup, s: Session, text: string, e: Env)
    ensures var t := LaunchPassive(g, s, text, e); t.relinks == s.relinks && Adds(g, s.relinks, s.relinks, s.out, t.out) && t.book == s.book
  {
    MakeRoomAdds(g, s, e);
  }

  lemma ReplyAdds(g: Setup, n: nat, out: seq<Item>, s: Session, text: string, r: Sending)
    requires s.relinks == n && Adds(g, n, n, out, s.out)
    ensures var t := Reset(Client(g, s, text, Own, r)); t.relinks == n && Adds(g, n, n, out, t.out) && t.book == s.book
  {
    var t := Client(g, s, text, Own, r);
    ClientAlike(g, s, text, Own, r);
    ClientAdds(g, n, n, s, text, Own, r);
    AddsBoth(g, n, n, out, s.out, t.out);
    assert Reset(t).out == t.out && Reset(t).relinks == t.relinks;
  }

  lemma LaunchActiveAdds(g: Setup, s: Session, text: string, e: Env)
    ensures var t := LaunchActive(g, s, text, e); t.relinks == s.relinks && Adds(g, s.relinks, s.relinks, s.out, t.out) && t.book == s.book
  {
    var s0 := s.(request := s.request.(activecon := true));
    MakeRoomAdds(g, s0, e);
    var s1 := MakeRoom(s0, e);
    if !s1.over {
      match P.ParsePortCommand(s1.request.portcmd)
      case None => ReplyAdds(g, s.relinks, s.out, s1, "500 '" + Crcut(s1.request.portcmd) + "': Command not understood.\r\n", e.first);
      case Some((activeip, activeport)) =>
        match P.ParsePsvCommand(text)
        case None =>
        case Some((ip, port)) =>
          var s2 := CreateThread(s1, NewLaunch(s1, ip, activeip, port, activeport, 0, ""), e.spawn);
          ReplyAdds(g, s.relinks, s.out, s2, "200 PORT command successful.\r\n", e.first);
    }
  }

  lemma ForwardAdds(g: Setup, s: Session, m: SiteMessage, e: Env)
    ensures var t := Forward(g, s, m, e); t.relinks == s.relinks && Adds(g, s.relinks, s.relinks, s.out, t.out) && t.book == s.book
  {
    var s1 := Client(g, s, m.text, From(s), e.first);
    ClientAdds(g, s.relinks, s.relinks, s, m.text, From(s), e.first);
    SiteAdds(g, s.relinks, s.relinks, s1, s.message.admin_msg, e.second);
    AddsBoth(g, s.relinks, s.relinks, s.out, s1.out, Site(s1, s.message.admin_msg, e.second).out);
  }

  lemma SiteReplyAdds(g: Setup, s: Session, m: SiteMessage, e: Env)
    requires Inv(g, s) && !s.over
    ensures var t := SiteReply(g, s, m, e); Adds(g, s.relinks, t.relinks, s.out, t.out) && t.book == s.book
  {
    if s.phase == FirstCommand {
      BeforeUserAdds(g, s, m, e);
    } else if s.phase == UserSent {
      AfterUserAdds(g, s, m, e);
    } else if s.phase == PassSent {
      AfterPassAdds(g, s, m, e);
    } else if LaunchesPassive(g, s) {
      LaunchPassiveAdds(g, s, m.text, e);
    } else if LaunchesActive(g, s) {
      LaunchActiveAdds(g, s, m.text, e);
    } else {
      ForwardAdds(g, s, m, e);
    }
  }

  // Lines of the client

  /** A step that writes nothing to the client but answers of yatb, and edits no list. */
  ghost predicate Answers(g: Setup, s: Session, t: Session) {
    t.relinks == s.relinks && Adds(g, s.relinks, s.relinks, s.out, t.out) && t.book == s.book
  }

  lemma ThenClient(g: Setup, s: Session, t: Session, text: string, r: Sending)
    requires Answers(g, s, t)
    ensures Answers(g, s, Client(g, t, text, Own, r))
  {
    ClientAdds(g, s.relinks, s.relinks, t, text, Own, r);
    ClientAlike(g, t, text, Own, r);
    AddsBoth(g, s.relinks, s.relinks, s.out, t.out, Client(g, t, text, Own, r).out);
  }

  lemma ThenSite(g: Setup, s: Session, t: Session, text: string, r: Sending)
    requires Answers(g, s, t)
    ensures Answers(g, s, Site(t, text, r))
  {
    SiteAdds(g, s.relinks, s.relinks, t, text, r);
    SiteAlike(t, text, r);
    AddsBoth(g, s.relinks, s.relinks, s.out, t.out, Site(t, text, r).out);
  }

  lemma ThenAnswered(g: Setup, s: Session, t: Session, own: bool, reply: string, text: string, e: Env)
    requires Answers(g, s, t)
    ensures Answers(g, s, Answered(g, t, own, reply, text, e))
  {
    ThenClient(g, s, t, reply, e.first);
    ThenSite(g, s, t, text, e.first);
  }

  lemma ProtAnswers(g: Setup, s: Session, on: bool, text: string, e: Env)
    ensures Answers(g, s, ProtLine(g, s, on, text, e))
  {
    ThenAnswered(g, s, s.(tls := s.tls.(sslprotp := on && (s.tls.usingssl || s.tls.sslprotp))), s.relinked || (on && g.translate_nosslfxp),
                 if on then "200 Protection set to Private\r\n" else "200 Protection set to Clear\r\n", text, e);
  }

  lemma FirstSeenAnswers(g: Setup, s: Session, t: Session, text: string, r: Sending)
    requires Answers(g, s, t)
    ensures Answers(g, s, FirstSeen(Site(t, text, r)))
  {
    ThenSite(g, s, t, text, r);
  }

  lemma ModeAnswers(g: Setup, s: Session, line: Line, text: string, e: Env)
    ensures Answers(g, s, ModeLine(g, s, line, text, e))
  {
    ProtAnswers(g, s, line.ProtP?, text, e);
    ThenSite(g, s, s.(mode := s.mode.(transfertype := if line.TypeA? then 1 else 2)), text, e.first);
  }

  lemma EarlyLineAnswers(g: Setup, s: Session, line: Line, text: string, e: Env)
    requires Early(line)
    ensures Answers(g, s, EarlyLine(g, s, line, text, e))
  {
    if line.Idnt? {
      ThenClient(g, s, s, NotUnderstood(text), e.first);
    } else if line.Abor? {
      ThenSite(g, s, if Bounces(g, s) then DeleteThread(s, e.join) else s, "ABOR\r\n", e.first);
    } else if line.AuthTls? || line.AuthSsl? {
      FirstSeenAnswers(g, s, s.(tls := s.tls.(gotauthsslmsg := true)), "AUTH TLS\r\n", e.first);
      FirstSeenAnswers(g, s, s, text, e.first);
    } else {
      ModeAnswers(g, s, line, text, e);
    }
  }

  lemma LoginLineAnswers(g: Setup, s: Session, line: Line, text: string, e: Env)
    ensures Answers(g, s, LoginLine(s, line, text, e))
  {
    ThenSite(g, s, s, text, e.first);
  }

  lemma QuitAnswers(g: Setup, s: Session, text: string, e: Env)
    ensures Answers(g, s, QuitCommand(g, s, text, e))
  {
    ThenClient(g, s, s, e.report, e.first);
    ThenSite(g, s, if g.send_traffic_info && !s.relinked then Client(g, s, e.report, Own, e.first) else s, text, e.second);
  }

  lemma SscnAnswers(g: Setup, s: Session, t: Session, text: string, e: Env)
    requires Answers(g, s, t)
    ensures Answers(g, s, SscnCommand(g, t, text, e))
  {
    ThenAnswered(g, s, t, !g.ssl_forward && g.traffic_bnc,
                 if t.mode.sscn then "200 SSCN:CLIENT METHOD\r\n" else "200 SSCN:SERVER METHOD\r\n", text, e);
  }

  lemma OrdinaryLineAnswers(g: Setup, s: Session, line: Line, text: string, e: Env)
    ensures Answers(g, s, OrdinaryLine(g, s, line, text, e))
  {
    if line.Quit? {
      QuitAnswers(g, s, text, e);
    } else if line.SscnOn? || line.SscnOff? {
      SscnAnswers(g, s, s.(mode := s.mode.(sscn := line.SscnOn?)), text, e);
    } else if line.SscnStatus? {
      SscnAnswers(g, s, s, text, e);
    } else if OwnAnswer(g, line, text).Some? {
      ThenClient(g, s, s, OwnAnswer(g, line, text).value, e.first);
    } else {
      ThenSite(g, s, s, text, e.first);
    }
  }

  lemma PassiveCommandsAnswer(g: Setup, s: Session, text: string, e: Env)
    ensures Answers(g, s, PassiveCommand(g, s, text, e))
    ensures Answers(g, s, CpsvCommand(g, s, text, e))
  {
    ThenSite(g, s, s, text, e.first);
    var s1 := DeleteThread(s, e.join);
    ThenSite(g, s, AskPasv(s1), text, e.first);
    ThenSite(g, s, AskCpsv(s1), if g.translate_nosslfxp || !g.ssl_forward then "PASV\r\n" else "CPSV\r\n", e.first);
  }

  lemma PortCommandAnswers(g: Setup, s: Session, text: string, e: Env)
    ensures Answers(g, s, PortCommand(g, s, text, e))
  {
    var s1 := AskPort(s, text);
    ThenSite(g, s, DeleteThread(s1, e.join), "PASV\r\n", e.first);
    ThenSite(g, s, s1, text, e.first);
  }

  /** A step that may have edited lists. */
  ghost predicate Replies(g: Setup, s: Session, t: Session) {
    t.relinks == s.relinks && Adds(g, s.relinks, s.relinks, s.out, t.out)
  }

  lemma AdminCommandReplies(g: Setup, s: Session, line: Line, text: string, e: Env)
    requires line.Admin() && !s.over
    ensures Replies(g, s, AdminCommand(g, s, line, text, e))
    ensures !MayAdminister(s) ==> Answers(g, s, AdminCommand(g, s, line, text, e))
  {
    if MayAdminister(s) {
      var t := s.(book := Administered(s.book, line, text));
      ClientAlike(g, t, EditReply(s.book, line, text, e.report), Own, e.first);
      ClientAdds(g, s.relinks, s.relinks, t, EditReply(s.book, line, text, e.report), Own, e.first);
    } else {
      ThenClient(g, s, s, NotUnderstood(text), e.first);
    }
  }

  lemma DataLineAnswers(g: Setup, s: Session, line: Line, text: string, e: Env)
    requires AboutData(line)
    ensures Answers(g, s, DataLine(g, s, line, text, e))
  {
    if line.Pasv? || line.Cpsv? {
      PassiveCommandsAnswer(g, s, text, e);
    } else if line.Port? {
      PortCommandAnswers(g, s, text, e);
    } else {
      var (way, listing) := Announces(line).value;
      ThenSite(g, s, s.(published := Published(way, listing || s.published.dirlisting, true)), text, e.first);
    }
  }

  lemma LateLineReplies(g: Setup, s: Session, line: Line, text: string, e: Env)
    requires !s.over
    ensures Replies(g, s, LateLine(g, s, line, text, e))
    ensures !(line.Admin() && g.usecommands && MayAdminister(s)) ==> Answers(g, s, LateLine(g, s, line, text, e))
  {
    if line.Admin() && g.usecommands {
      AdminCommandReplies(g, s, line, text, e);
    } else if AboutData(line) {
      DataLineAnswers(g, s, line, text, e);
    } else {
      OrdinaryLineAnswers(g, s, line, text, e);
    }
  }

  /** The line is a command of yatb that is carried out. */
  predicate ServesLine(g: Setup, s: Session, line: Line) {
    line.Admin() && g.usecommands && s.phase.Rank() >= PassSent.Rank() && MayAdminister(s)
  }

  /** The step carries out a command of yatb. */
  predicate Serves(g: Setup, s: Session, i: Input) {
    !s.over && s.latch != Held && i.FromClient? && ServesLine(g, s, i.line)
  }

  lemma ClientLineReplies(g: Setup, s: Session, line: Line, text: string, e: Env)
    requires !s.over
    ensures Replies(g, s, ClientLine(g, s, line, text, e))
    ensures !ServesLine(g, s, line) ==> Answers(g, s, ClientLine(g, s, line, text, e))
  {
    if Early(line) {
      EarlyLineAnswers(g, s, line, text, e);
    } else if s.phase.Rank() < PassSent.Rank() {
      LoginLineAnswers(g, s, line, text, e);
    } else {
      LateLineReplies(g, s, line, text, e);
    }
  }

  lemma MeanwhileAdds(g: Setup, s: Session, i: Input)
    requires ByOthers(i)
    ensures var t := Meanwhile(g, s, i);
      t.relinks == s.relinks && Adds(g, s.relinks, s.relinks, s.out, t.out) && (!i.OtherSessions? ==> t.book == s.book)
  {
    if i.DataWrite? {
      var s0 := s.(over := false);
      ClientAlike(g, s0, i.text, DataThread, i.result);
      ClientAdds(g, s.relinks, s.relinks, s0, i.text, DataThread, i.result);
    }
  }

  lemma TurnAdds(g: Setup, s: Session, i: Input)
    requires Inv(g, s) && !s.over && !ByOthers(i)
    ensures var t := Turn(g, s, i); Adds(g, s.relinks, t.relinks, s.out, t.out)
    ensures !Serves(g, s, i) ==> Turn(g, s, i).book == s.book
  {
    if i.FromSite? && s.latch != Held {
      SiteReplyAdds(g, s, i.message, i.env);
    } else if i.FromClient? && s.latch != Held {
      ClientLineReplies(g, s, i.line, i.text, i.env);
    }
  }

  lemma StepAdds(g: Setup, s: Session, i: Input)
    requires Inv(g, s)
    ensures var t := Step(g, s, i); Adds(g, s.relinks, t.relinks, s.out, t.out)
    ensures !i.OtherSessions? && !Serves(g, s, i) ==> Step(g, s, i).book == s.book
  {
    if ByOthers(i) {
      MeanwhileAdds(g, s, i);
    } else if !s.over {
      TurnAdds(g, s, i);
    }
  }

  // Whole runs

  /** After the welcome of the relink site, nothing of the first site is written to the client. */
  ghost predicate Isolated(out: seq<Item>) {
    forall i, j | 0 <= i < j < |out| ::
      out[i].ToClient? && out[i].source == RelinkLogin && out[j].ToClient? ==> out[j].source != FirstSite
  }

  ghost predicate NoLogin(out: seq<Item>) {
    forall i | 0 <= i < |out| :: out[i].ToClient? ==> out[i].source != RelinkLogin
  }

  ghost predicate Unguarded(g: Setup, out: seq<Item>) {
    forall i | 0 <= i < |out| :: out[i].ToClient? ==> out[i].text == LIMIT || !Guarded(g, out[i].text)
  }

  ghost predicate GoodOutput(g: Setup, s: Session) {
    Isolated(s.out) && (s.relinks == 0 ==> NoLogin(s.out)) && Unguarded(g, s.out)
  }

  lemma StepKeepsOutput(g: Setup, s: Session, i: Input)
    requires Inv(g, s) && GoodOutput(g, s)
    ensures GoodOutput(g, Step(g, s, i))
  {
    StepAdds(g, s, i);
    StepKeeps(g, s, i);
    AddsKeep(g, s.relinks, Step(g, s, i).relinks, s.out, Step(g, s, i).out);
  }

  lemma AddsKeep(g: Setup, lo: nat, hi: nat, a: seq<Item>, b: seq<Item>)
    requires Adds(g, lo, hi, a, b) && lo <= hi
    requires Isolated(a) && (lo == 0 ==> NoLogin(a)) && Unguarded(g, a)
    ensures Isolated(b) && (hi == 0 ==> NoLogin(b)) && Unguarded(g, b)
  {
    forall j | 0 <= j < |b| ensures b[j].ToClient? ==> b[j].text == LIMIT || !Guarded(g, b[j].text) {
      assert j < |a| ==> b[j] == a[j];
      assert j >= |a| ==> Fits(g, lo, hi, b[j]);
    }
    forall j | 0 <= j < |b| ensures hi == 0 && b[j].ToClient? ==> b[j].source != RelinkLogin {
      assert j < |a| ==> b[j] == a[j];
      assert j >= |a| ==> Fits(g, lo, hi, b[j]);
    }
    forall i, j | 0 <= i < j < |b|
      ensures b[i].ToClient? && b[i].source == RelinkLogin && b[j].ToClient? ==> b[j].source != FirstSite
    {
      assert i < |a| ==> b[i] == a[i];
      assert j < |a| ==> b[j] == a[j];
      assert i >= |a| ==> Fits(g, lo, hi, b[i]);
      assert j >= |a| ==> Fits(g, lo, hi, b[j]);
    }
  }

  lemma {:induction false} RunKeepsOutput(g: Setup, s: Session, ins: seq<Input>)
    requires Inv(g, s) && GoodOutput(g, s)
    ensures GoodOutput(g, Run(g, s, ins))
    decreases |ins|
  {
    if ins != [] {
      StepKeeps(g, s, ins[0]);
      StepKeepsOutput(g, s, ins[0]);
      RunKeepsOutput(g, Step(g, s, ins[0]), ins[1..]);
    }
  }

  /** In no run does a message of the first site follow the welcome that yatb makes up for the relink
      site. */
  lemma RelinkIsolates(g: Setup, book: Book, ins: seq<Input>)
    ensures Isolated(Run(g, Start(book), ins).out)
  {
    RunKeepsOutput(g, Start(book), ins);
  }

  lemma ShownIsGuarded(g: Setup, text: string)
    requires g.traffic_bnc && !g.debug && Contains(text, g.mark)
    ensures Guarded(g, text)
  {
    ShowsContained(text, g.mark);
  }

  lemma ContainsItsCharacters(text: string, pat: string, c: char)
    requires Contains(text, pat) && c in pat
    ensures c in text
  {
    var at: nat :| OccursAt(text, pat, at);
    var k :| 0 <= k < |pat| && pat[k] == c;
    assert text[at..at + |pat|][k] == text[at + k];
  }

  lemma NotShown(g: Setup, text: string)
    requires g.traffic_bnc && !g.debug && '(' in g.mark
    requires text == LIMIT || !Guarded(g, text)
    ensures !Contains(text, g.mark)
  {
    assert '(' !in LIMIT;
    if Contains(text, g.mark) {
      ShownIsGuarded(g, text);
      ContainsItsCharacters(text, g.mark, '(');
    }
  }

  /** Where data connections are bounced (and debugging is off), no text with the site address is
      written to the client, whoever made it up. */
  lemma SiteAddressNeverShown(g: Setup, book: Book, ins: seq<Input>, k: nat)
    requires g.traffic_bnc && !g.debug && '(' in g.mark
    requires k < |Run(g, Start(book), ins).out|
    ensures var item := Run(g, Start(book), ins).out[k];
      item.ToClient? ==> !Contains(item.text, g.mark)
  {
    RunKeepsOutput(g, Start(book), ins);
    var item := Run(g, Start(book), ins).out[k];
    if item.ToClient? {
      NotShown(g, item.text);
    }
  }
}
