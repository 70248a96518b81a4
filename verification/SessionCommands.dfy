/** What single commands and replies come to: what each line of the client leads to, which data thread
    a command asks for, and how the flags of a session tell its history. */
module SessionCommands {
  import opened Strings
  import opened DataThreads
  import opened Sessions
  import opened SessionRuns
  import opened SessionOutput
  import P = Passive

  // Every line is answered or passed on, once

  /** What may go to the site for a line. */
  predicate StandsFor(g: Setup, line: Line, text: string, sent: string) {
    || sent == text
    || (line.Abor? && sent == "ABOR\r\n")
    || (line.AuthSsl? && g.translate_nosslfxp && sent == "AUTH TLS\r\n")
    || ((line.Port? || line.Cpsv?) && sent == "PASV\r\n")
    || (line.Cpsv? && sent == "CPSV\r\n")
  }

  /** The line, or what stands for it, to the site; or an answer of yatb to the client. */
  predicate Serving(g: Setup, line: Line, text: string, item: Item) {
    match item
    case ToClient(_, source) => source == Own
    case ToSite(sent) => StandsFor(g, line, text, sent)
  }

  /** If the session goes on, one item was written for the line. */
  ghost predicate ServedOnce(g: Setup, s: Session, line: Line, text: string, t: Session) {
    t.over || (|t.out| == |s.out| + 1 && s.out <= t.out && Serving(g, line, text, t.out[|s.out|]))
  }

  lemma AnsweredOnce(g: Setup, s: Session, s1: Session, line: Line, text: string, own: bool, reply: string, e: Env)
    requires s1.out == s.out
    ensures ServedOnce(g, s, line, text, Answered(g, s1, own, reply, text, e))
  {
  }

  lemma ToldOnce(g: Setup, s: Session, s1: Session, line: Line, text: string, reply: string, r: Sending)
    requires s1.out == s.out
    ensures ServedOnce(g, s, line, text, Client(g, s1, reply, Own, r))
  {
  }

  lemma PassedOnOnce(g: Setup, s: Session, s1: Session, line: Line, text: string, sent: string, r: Sending)
    requires s1.out == s.out && StandsFor(g, line, text, sent)
    ensures ServedOnce(g, s, line, text, Site(s1, sent, r))
  {
  }

  lemma EarlyServed(g: Setup, s: Session, line: Line, text: string, e: Env)
    requires Early(line)
    ensures ServedOnce(g, s, line, text, EarlyLine(g, s, line, text, e))
  {
    if line.Idnt? {
      ToldOnce(g, s, s, line, text, NotUnderstood(text), e.first);
    } else if line.Abor? {
      PassedOnOnce(g, s, if Bounces(g, s) then DeleteThread(s, e.join) else s, line, text, "ABOR\r\n", e.first);
    } else if line.AuthTls? || line.AuthSsl? {
      PassedOnOnce(g, s, s, line, text, text, e.first);
      PassedOnOnce(g, s, s.(tls := s.tls.(gotauthsslmsg := true)), line, text, if line.AuthSsl? && g.translate_nosslfxp then "AUTH TLS\r\n" else text, e.first);
    } else if line.ProtP? || line.ProtC? {
      var s1 := s.(tls := s.tls.(sslprotp := line.ProtP? && (s.tls.usingssl || s.tls.sslprotp)));
      AnsweredOnce(g, s, s1, line, text, s.relinked || (line.ProtP? && g.translate_nosslfxp),
                   if line.ProtP? then "200 Protection set to Private\r\n" else "200 Protection set to Clear\r\n", e);
    } else {
      PassedOnOnce(g, s, s.(mode := s.mode.(transfertype := if line.TypeA? then 1 else 2)), line, text, text, e.first);
    }
  }

  lemma DataServed(g: Setup, s: Session, line: Line, text: string, e: Env)
    requires AboutData(line)
    ensures ServedOnce(g, s, line, text, DataLine(g, s, line, text, e))
  {
    var s1 := DeleteThread(s, e.join);
    if line.Pasv? {
      PassedOnOnce(g, s, s, line, text, text, e.first);
      PassedOnOnce(g, s, AskPasv(s1), line, text, text, e.first);
    } else if line.Port? {
      PassedOnOnce(g, s, AskPort(s, text), line, text, text, e.first);
      PassedOnOnce(g, s, DeleteThread(AskPort(s, text), e.join), line, text, "PASV\r\n", e.first);
    } else if line.Cpsv? {
      PassedOnOnce(g, s, s, line, text, text, e.first);
      PassedOnOnce(g, s, AskCpsv(s1), line, text, if g.translate_nosslfxp || !g.ssl_forward then "PASV\r\n" else "CPSV\r\n", e.first);
    } else {
      var (way, listing) := Announces(line).value;
      PassedOnOnce(g, s, s.(published := Published(way, listing || s.published.dirlisting, true)), line, text, text, e.first);
    }
  }

  /** QUIT is preceded by a report of the traffic where that is configured. */
  predicate Reports(g: Setup, s: Session, line: Line) {
    line.Quit? && s.phase.Rank() >= PassSent.Rank() && g.send_traffic_info && !s.relinked
  }

  lemma OrdinaryServed(g: Setup, s: Session, line: Line, text: string, e: Env)
    requires !(line.Quit? && g.send_traffic_info && !s.relinked)
    ensures ServedOnce(g, s, line, text, OrdinaryLine(g, s, line, text, e))
  {
    if line.Quit? {
      PassedOnOnce(g, s, s, line, text, text, e.second);
    } else if line.SscnOn? || line.SscnOff? {
      var s1 := s.(mode := s.mode.(sscn := line.SscnOn?));
      AnsweredOnce(g, s, s1, line, text, !g.ssl_forward && g.traffic_bnc,
                   if s1.mode.sscn then "200 SSCN:CLIENT METHOD\r\n" else "200 SSCN:SERVER METHOD\r\n", e);
    } else if line.SscnStatus? {
      AnsweredOnce(g, s, s, line, text, !g.ssl_forward && g.traffic_bnc,
                   if s.mode.sscn then "200 SSCN:CLIENT METHOD\r\n" else "200 SSCN:SERVER METHOD\r\n", e);
    } else if OwnAnswer(g, line, text).Some? {
      ToldOnce(g, s, s, line, text, OwnAnswer(g, line, text).value, e.first);
    } else {
      PassedOnOnce(g, s, s, line, text, text, e.first);
    }
  }

  lemma AdminServed(g: Setup, s: Session, line: Line, text: string, e: Env)
    requires line.Admin()
    ensures ServedOnce(g, s, line, text, AdminCommand(g, s, line, text, e))
  {
    var served := MayAdminister(s);
    ToldOnce(g, s, if served then s.(book := Administered(s.book, line, text)) else s, line, text,
             if served then EditReply(s.book, line, text, e.report) else NotUnderstood(text), e.first);
  }

  lemma LoginServed(g: Setup, s: Session, line: Line, text: string, e: Env)
    ensures ServedOnce(g, s, line, text, LoginLine(s, line, text, e))
  {
    PassedOnOnce(g, s, s, line, text, text, e.first);
  }

  /** A session that goes on after a line of the client has written one item for it: the line itself or
      what stands for it to the site, or an answer of its own to the client. */
  lemma EachLineOnce(g: Setup, s: Session, line: Line, text: string, e: Env)
    requires !s.over && s.latch != Held && !Reports(g, s, line)
    ensures ServedOnce(g, s, line, text, Step(g, s, FromClient(line, text, e)))
  {
    if Early(line) {
      EarlyServed(g, s, line, text, e);
    } else if s.phase.Rank() < PassSent.Rank() {
      LoginServed(g, s, line, text, e);
    } else if line.Admin() && g.usecommands {
      AdminServed(g, s, line, text, e);
    } else if AboutData(line) {
      DataServed(g, s, line, text, e);
    } else {
      OrdinaryServed(g, s, line, text, e);
    }
  }

  /** Before QUIT goes on, the client may be told about its traffic. */
  lemma QuitServed(g: Setup, s: Session, line: Line, text: string, e: Env)
    requires !s.over && s.latch != Held && Reports(g, s, line)
    ensures var t := Step(g, s, FromClient(line, text, e));
      t.over || t.out == s.out + [ToClient(e.report, Own), ToSite(text)]
  {
  }

  // Who answers which line, and what goes to the site

  lemma {:induction false} UpperCut(s: string, n: nat)
    requires n <= |s|
    ensures Upper(s)[..n] == Upper(s[..n])
  {
    if n > 0 {
      UpperCut(s[1..], n - 1);
      assert s[..n] == [s[0]] + s[1..][..n - 1];
    }
  }

  /** A line that is refused comes back in upper case, without its line end unless it is empty. */
  lemma RefusalEchoes(line: string)
    ensures NotUnderstood(line + "\r\n") == "500 '" + Upper(line) + (if line == "" then "\r\n" else "") + "' : Command not understood.\r\n"
  {
    var text := line + "\r\n";
    if line == "" {
      assert text == "\r\n" && Upper(text) == "\r\n";
      assert Upper("") + "\r\n" == "\r\n";
    }
    UpperCut(text, |line|);
    assert text[..|line|] == line;
  }

  /** The lines that yatb answers itself: always IDNT, PROT where it stands in for the site, and after the login
      SSCN where it does TLS itself, EPSV and EPRT while bouncing, NOOP where that is configured, and its own
      commands. */
  predicate AnsweredHere(g: Setup, s: Session, line: Line) {
    var late := s.phase == PassSent || s.phase == Welcomed;
    || line.Idnt?
    || (line.ProtP? && (s.relinked || g.translate_nosslfxp)) || (line.ProtC? && s.relinked)
    || (late && (line.SscnOn? || line.SscnOff? || line.SscnStatus?) && g.traffic_bnc && !g.ssl_forward)
    || (late && (line.Epsv? || line.Eprt?) && g.traffic_bnc)
    || (late && line.Noop? && g.disable_noop)
    || (late && g.usecommands && (line.Report? || line.Reload? || line.ListCommand? || line.IpCommand? || line.FingerprintCommand?))
  }

  /** What it says, its own commands aside. */
  function ItsAnswer(s: Session, line: Line, text: string): string {
    if line.ProtP? then "200 Protection set to Private\r\n"
    else if line.ProtC? then "200 Protection set to Clear\r\n"
    else if line.SscnOn? || (line.SscnStatus? && s.mode.sscn) then "200 SSCN:CLIENT METHOD\r\n"
    else if line.SscnOff? || line.SscnStatus? then "200 SSCN:SERVER METHOD\r\n"
    else if line.Noop? then "200 NOOP command successful.\r\n"
    else NotUnderstood(text)
  }

  /** What the site gets of any other line. */
  function ForTheSite(g: Setup, s: Session, line: Line, text: string): string {
    var late := s.phase == PassSent || s.phase == Welcomed;
    var bounced := g.traffic_bnc || (s.relinked && g.traffic_bnc_relink);
    if line.Abor? then "ABOR\r\n"
    else if line.AuthSsl? && g.translate_nosslfxp then "AUTH TLS\r\n"
    else if late && bounced && line.Port? then "PASV\r\n"
    else if late && bounced && line.Cpsv? then (if g.ssl_forward && !g.translate_nosslfxp then "CPSV\r\n" else "PASV\r\n")
    else text
  }

  /** The session is over, or one item was written. */
  ghost predicate Wrote(s: Session, t: Session, item: Item) {
    t.over || t.out == s.out + [item]
  }

  lemma AnsweredWrote(g: Setup, s: Session, s1: Session, own: bool, reply: string, text: string, e: Env)
    requires s1.out == s.out && s1.over == s.over == false
    ensures Wrote(s, Answered(g, s1, own, reply, text, e), if own then ToClient(reply, Own) else ToSite(text))
  {
  }

  lemma ProtAnswer(g: Setup, s: Session, on: bool, text: string, e: Env)
    requires !s.over
    ensures var own := s.relinked || (on && g.translate_nosslfxp);
      Wrote(s, ProtLine(g, s, on, text, e),
            if own then ToClient(if on then "200 Protection set to Private\r\n" else "200 Protection set to Clear\r\n", Own) else ToSite(text))
  {
    AnsweredWrote(g, s, s.(tls := s.tls.(sslprotp := on && (s.tls.usingssl || s.tls.sslprotp))), s.relinked || (on && g.translate_nosslfxp),
                  if on then "200 Protection set to Private\r\n" else "200 Protection set to Clear\r\n", text, e);
  }

  lemma SiteAnswer(g: Setup, s: Session, line: Line, text: string, e: Env)
    requires !s.over && Early(line) && !line.Idnt? && !line.ProtP? && !line.ProtC?
    ensures Wrote(s, EarlyLine(g, s, line, text, e), ToSite(ForTheSite(g, s, line, text)))
  {
  }

  lemma IdntAnswer(g: Setup, s: Session, line: Line, text: string, e: Env)
    requires !s.over && line.Idnt?
    ensures Wrote(s, EarlyLine(g, s, line, text, e), ToClient(NotUnderstood(text), Own))
  {
  }

  lemma ProtLineAnswer(g: Setup, s: Session, line: Line, text: string, e: Env)
    requires !s.over && (line.ProtP? || line.ProtC?)
    ensures Wrote(s, EarlyLine(g, s, line, text, e), if AnsweredHere(g, s, line) then ToClient(ItsAnswer(s, line, text), Own) else ToSite(text))
  {
    assert EarlyLine(g, s, line, text, e) == ProtLine(g, s, line.ProtP?, text, e);
    ProtAnswer(g, s, line.ProtP?, text, e);
  }

  lemma EarlyAnswer(g: Setup, s: Session, line: Line, text: string, e: Env)
    requires !s.over && Early(line)
    ensures Wrote(s, EarlyLine(g, s, line, text, e),
                  if AnsweredHere(g, s, line) then ToClient(ItsAnswer(s, line, text), Own) else ToSite(ForTheSite(g, s, line, text)))
  {
    if line.ProtP? || line.ProtC? {
      ProtLineAnswer(g, s, line, text, e);
    } else if line.Idnt? {
      IdntAnswer(g, s, line, text, e);
    } else {
      SiteAnswer(g, s, line, text, e);
    }
  }

  lemma DataAnswer(g: Setup, s: Session, line: Line, text: string, e: Env)
    requires !s.over && AboutData(line) && (s.phase == PassSent || s.phase == Welcomed)
    ensures var t := DataLine(g, s, line, text, e);
      Wrote(s, t, ToSite(ForTheSite(g, s, line, text)))
  {
  }

  lemma SscnAnswer(g: Setup, s: Session, s1: Session, text: string, e: Env)
    requires !s.over && s1 == s.(mode := s1.mode)
    ensures Wrote(s, SscnCommand(g, s1, text, e),
                  if g.traffic_bnc && !g.ssl_forward
                  then ToClient(if s1.mode.sscn then "200 SSCN:CLIENT METHOD\r\n" else "200 SSCN:SERVER METHOD\r\n", Own)
                  else ToSite(text))
  {
    AnsweredWrote(g, s, s1, !g.ssl_forward && g.traffic_bnc,
                  if s1.mode.sscn then "200 SSCN:CLIENT METHOD\r\n" else "200 SSCN:SERVER METHOD\r\n", text, e);
  }

  lemma OrdinaryAnswer(g: Setup, s: Session, line: Line, text: string, e: Env)
    requires !s.over && !Early(line) && !AboutData(line) && !(line.Admin() && g.usecommands)
    requires (s.phase == PassSent || s.phase == Welcomed) && !Reports(g, s, line)
    ensures Wrote(s, OrdinaryLine(g, s, line, text, e), if AnsweredHere(g, s, line) then ToClient(ItsAnswer(s, line, text), Own) else ToSite(text))
  {
    if line.SscnOn? || line.SscnOff? {
      SscnAnswer(g, s, s.(mode := s.mode.(sscn := line.SscnOn?)), text, e);
    } else if line.SscnStatus? {
      SscnAnswer(g, s, s, text, e);
    }
  }

  /** A session that goes on after a line has answered it itself, in these words, exactly in the cases above, and
      else has sent just this to the site. */
  lemma LineGoesExactly(g: Setup, s: Session, line: Line, text: string, e: Env)
    requires !s.over && s.latch != Held && !Reports(g, s, line) && !(AnsweredHere(g, s, line) && line.Admin())
    ensures var t := Step(g, s, FromClient(line, text, e));
      Wrote(s, t, if AnsweredHere(g, s, line) then ToClient(ItsAnswer(s, line, text), Own) else ToSite(ForTheSite(g, s, line, text)))
  {
    if Early(line) {
      EarlyAnswer(g, s, line, text, e);
    } else if s.phase.Rank() < PassSent.Rank() {
      LoginLineRead(g, s, line, text, e);
    } else if AboutData(line) {
      DataAnswer(g, s, line, text, e);
    } else {
      OrdinaryAnswer(g, s, line, text, e);
    }
  }

  /** So EPSV and EPRT never reach the site while data connections are bounced. */
  lemma ExtendedCommandsKept(g: Setup, s: Session, line: Line, text: string, e: Env)
    requires !s.over && s.latch != Held && g.traffic_bnc && s.phase == Welcomed && (line.Epsv? || line.Eprt?)
    ensures var t := Step(g, s, FromClient(line, text, e));
      forall k | |s.out| <= k < |t.out| :: t.out[k].ToClient? && t.out[k].source == Own
  {
  }

  // Which commands drop the data thread

  predicate Drops(line: Line) {
    line.Abor? || line.Pasv? || line.Port? || line.Cpsv?
  }

  /** ABOR, PASV, PORT and CPSV drop the data thread; no other line does. */
  lemma DropsThread(g: Setup, s: Session, line: Line, text: string, e: Env)
    requires Inv(g, s) && !s.over && s.latch != Held && s.thread.Some?
    ensures Step(g, s, FromClient(line, text, e)).thread == if Drops(line) then None else s.thread
  {
    if Early(line) {
      EarlyThread(g, s, line, text, e);
    } else {
      LateThread(g, s, line, text, e);
    }
  }

  lemma LateThread(g: Setup, s: Session, line: Line, text: string, e: Env)
    requires Inv(g, s) && !s.over && s.thread.Some? && !Early(line)
    ensures OtherLine(g, s, line, text, e).thread == if Drops(line) then None else s.thread
  {
    assert s.phase == Welcomed;
    if line.Admin() && g.usecommands {
      AdminThread(g, s, line, text, e);
    } else if AboutData(line) {
      DataLineThread(g, s, line, text, e);
    } else {
      OrdinaryLineFramed(g, s, line, text, e);
    }
  }

  lemma EarlyThread(g: Setup, s: Session, line: Line, text: string, e: Env)
    requires Inv(g, s) && !s.over && s.thread.Some? && Early(line)
    ensures EarlyLine(g, s, line, text, e).thread == if line.Abor? then None else s.thread
  {
    if line.Idnt? {
      ClientAlike(g, s, NotUnderstood(text), Own, e.first);
    } else if line.Abor? {
      DeleteThreadKeeps(g, s, e.join);
      SiteAlike(DeleteThread(s, e.join), "ABOR\r\n", e.first);
    } else if !line.AuthTls? && !line.AuthSsl? {
      ModeFramed(g, s, line, text, e);
    }
  }

  lemma AdminThread(g: Setup, s: Session, line: Line, text: string, e: Env)
    requires line.Admin()
    ensures AdminCommand(g, s, line, text, e).thread == s.thread
  {
    var served := MayAdminister(s);
    ClientAlike(g, if served then s.(book := Administered(s.book, line, text)) else s,
                if served then EditReply(s.book, line, text, e.report) else NotUnderstood(text), Own, e.first);
  }

  lemma DataLineThread(g: Setup, s: Session, line: Line, text: string, e: Env)
    requires Inv(g, s) && !s.over && s.thread.Some? && AboutData(line)
    ensures DataLine(g, s, line, text, e).thread == if Announces(line).Some? then s.thread else None
  {
    DeleteThreadKeeps(g, s, e.join);
    DeleteThreadKeeps(g, AskPort(s, text), e.join);
  }

  // No message of the site is lost

  /** The first item written is the message itself. */
  predicate Reaches(s: Session, text: string, t: Session) {
    |s.out| < |t.out| && t.out[|s.out|] == ToClient(text, From(s))
  }

  predicate Opens(g: Setup, s: Session) {
    s.phase.Rank() !in {1, 2, 3} && (LaunchesPassive(g, s) || LaunchesActive(g, s))
  }

  /** The messages that yatb keeps to itself: replies to its own or the client's PASV, the confirmation of
      its own message to the admins, and the AUTH reply that it translates. */
  predicate Withheld(g: Setup, s: Session, m: SiteMessage) {
    || Opens(g, s)
    || (s.phase.Rank() !in {1, 2, 3} && s.message.sendadminmsg && m.end && m.messageSent)
    || (s.phase == FirstCommand && m.authTls && s.tls.gotauthsslmsg && g.translate_nosslfxp)
  }

  lemma LoginMessageReaches(g: Setup, s: Session, m: SiteMessage, e: Env)
    requires Inv(g, s) && !s.over && s.latch != Held && s.phase.Rank() in {1, 2, 3} && !Withheld(g, s, m)
    ensures var t := LoginReply(g, s, m, e); t.over || t.relinked || Reaches(s, m.text, t)
  {
    if s.phase == UserSent {
      EnforceKeeps(g, s, e);
    }
  }

  /** Any other message of the site reaches the client first of all, unless the session ends or is
      relinked there and then. */
  lemma NoMessageLost(g: Setup, s: Session, m: SiteMessage, e: Env)
    requires Inv(g, s) && !s.over && s.latch != Held && !Withheld(g, s, m)
    ensures var t := Step(g, s, FromSite(m, e)); t.over || (t.relinked && !s.relinked) || Reaches(s, m.text, t)
  {
    if s.phase.Rank() in {1, 2, 3} {
      LoginMessageReaches(g, s, m, e);
    }
  }

  // TLS by handshake

  predicate Undisturbed(s: Session, t: Session) {
    t.message == s.message && t.tls.usingssl == s.tls.usingssl
  }

  lemma LineUndisturbed(g: Setup, s: Session, line: Line, text: string, e: Env)
    requires Inv(g, s) && !s.over
    ensures Undisturbed(s, ClientLine(g, s, line, text, e))
  {
    if Early(line) {
      EarlyUndisturbed(g, s, line, text, e);
    } else if s.phase.Rank() >= PassSent.Rank() {
      LateUndisturbed(g, s, line, text, e);
    }
  }

  lemma EarlyUndisturbed(g: Setup, s: Session, line: Line, text: string, e: Env)
    requires Early(line)
    ensures Undisturbed(s, EarlyLine(g, s, line, text, e))
  {
  }

  lemma LateUndisturbed(g: Setup, s: Session, line: Line, text: string, e: Env)
    ensures Undisturbed(s, LateLine(g, s, line, text, e))
  {
    if line.Admin() && g.usecommands {
      var served := MayAdminister(s);
      ClientAlike(g, if served then s.(book := Administered(s.book, line, text)) else s,
                  if served then EditReply(s.book, line, text, e.report) else NotUnderstood(text), Own, e.first);
    } else if AboutData(line) {
      DataUndisturbed(g, s, line, text, e);
    } else {
      OrdinaryUndisturbed(g, s, line, text, e);
    }
  }

  lemma DataUndisturbed(g: Setup, s: Session, line: Line, text: string, e: Env)
    requires AboutData(line)
    ensures Undisturbed(s, DataLine(g, s, line, text, e))
  {
  }

  lemma OrdinaryUndisturbed(g: Setup, s: Session, line: Line, text: string, e: Env)
    ensures Undisturbed(s, OrdinaryLine(g, s, line, text, e))
  {
  }

  /** The site agrees to AUTH, both handshakes succeed, and the session goes on. */
  predicate Secures(g: Setup, s: Session, i: Input) {
    !s.over && s.phase == FirstCommand && i.FromSite? && (i.message.authTls || i.message.authSsl)
    && i.env.siteTls && i.env.clientTls && !Step(g, s, i).over
  }

  lemma TriedTls(g: Setup, s: Session, text: string, source: Source, e: Env)
    requires !s.over
    ensures var t := TryTls(Client(g, s, text, source, e.first), e);
      t.tls.usingssl <==> s.tls.usingssl || (e.siteTls && e.clientTls && !t.over)
  {
    ClientAlike(g, s, text, source, e.first);
  }

  lemma ReplySecures(g: Setup, s: Session, m: SiteMessage, e: Env)
    requires !s.over
    ensures var t := BeforeUser(g, s, m, e);
      t.tls.usingssl <==> s.tls.usingssl || ((m.authTls || m.authSsl) && e.siteTls && e.clientTls && !t.over)
  {
    if m.authTls {
      TriedTls(g, s, "234 AUTH SSL successful\r\n", Own, e);
      TriedTls(g, s, m.text, From(s), e);
    } else if m.authSsl {
      TriedTls(g, s.(tls := s.tls.(sslprotp := true)), m.text, From(s), e);
    } else {
      ClientAlike(g, s, m.text, From(s), e.first);
    }
  }

  lemma StepSecures(g: Setup, s: Session, i: Input)
    requires Inv(g, s)
    ensures Step(g, s, i).tls.usingssl <==> s.tls.usingssl || Secures(g, s, i)
  {
    if ByOthers(i) {
      MeanwhileUndisturbed(g, s, i);
    } else if !s.over && s.latch != Held && i.FromClient? {
      LineUndisturbed(g, s, i.line, i.text, i.env);
    } else if !s.over && s.latch != Held && i.FromSite? {
      if s.phase == FirstCommand {
        ReplySecures(g, s, i.message, i.env);
      } else {
        ReplyDisturbsNoTls(g, s, i.message, i.env);
      }
    }
  }

  lemma MeanwhileUndisturbed(g: Setup, s: Session, i: Input)
    requires ByOthers(i)
    ensures Meanwhile(g, s, i).tls == s.tls && (!i.Notice? ==> Undisturbed(s, Meanwhile(g, s, i)))
  {
    if i.DataWrite? {
      ClientAlike(g, s.(over := false), i.text, DataThread, i.result);
    }
  }

  lemma ReplyDisturbsNoTls(g: Setup, s: Session, m: SiteMessage, e: Env)
    requires Inv(g, s) && !s.over && s.phase != FirstCommand
    ensures SiteReply(g, s, m, e).tls.usingssl == s.tls.usingssl
  {
    if s.phase == NoCommand {
      ForwardUndisturbed(g, s, m, e);
    } else {
      SiteReplyKeeps(g, s, m, e);
    }
  }

  lemma ForwardUndisturbed(g: Setup, s: Session, m: SiteMessage, e: Env)
    requires Inv(g, s) && s.phase == NoCommand
    ensures SiteReply(g, s, m, e).tls == s.tls
  {
  }

  predicate SecuredIn(g: Setup, s: Session, ins: seq<Input>)
    decreases |ins|
  {
    ins != [] && (Secures(g, s, ins[0]) || SecuredIn(g, Step(g, s, ins[0]), ins[1..]))
  }

  /** A session counts as protected exactly when both handshakes succeeded at some point of it. */
  lemma {:induction false} TlsByHandshake(g: Setup, s: Session, ins: seq<Input>)
    requires Inv(g, s)
    ensures Run(g, s, ins).tls.usingssl <==> s.tls.usingssl || SecuredIn(g, s, ins)
    decreases |ins|
  {
    if ins != [] {
      StepKeeps(g, s, ins[0]);
      StepSecures(g, s, ins[0]);
      TlsByHandshake(g, Step(g, s, ins[0]), ins[1..]);
    }
  }

  // Messages for the admins

  /** The message is passed to the site. */
  predicate Tells(g: Setup, s: Session, i: Input) {
    !s.over && i.FromSite? && s.message.admin_msg != "" && Step(g, s, i).message == Message("", true)
  }

  /** The confirmation of the site is kept from the client. */
  predicate Hides(g: Setup, s: Session, i: Input) {
    !s.over && i.FromSite? && s.message.sendadminmsg && !Step(g, s, i).message.sendadminmsg
  }

  lemma LoginUndisturbed(g: Setup, s: Session, m: SiteMessage, e: Env)
    requires Inv(g, s) && !s.over && s.phase.Rank() in {1, 2, 3}
    ensures LoginReply(g, s, m, e).message == s.message
  {
    if s.phase == UserSent {
      AfterUserUndisturbed(g, s, m, e);
    } else if s.phase == PassSent {
      RelinkResult(g, s.(phase := Welcomed), false, e.relinking);
    }
  }

  lemma AfterUserUndisturbed(g: Setup, s: Session, m: SiteMessage, e: Env)
    requires Inv(g, s) && !s.over && s.phase == UserSent
    ensures AfterUser(g, s, m, e).message == s.message
  {
    EnforceUndisturbed(g, s, e);
    EnforceKeeps(g, s, e);
    RelinkResult(g, s, true, e.relinking);
  }

  lemma EnforceUndisturbed(g: Setup, s: Session, e: Env)
    requires !s.over
    ensures Enforce(g, s, e).message == s.message
  {
    RelinkResult(g, s, true, e.relinking);
  }

  lemma PassiveUndisturbed(g: Setup, s: Session, text: string, e: Env)
    requires !s.over
    ensures LaunchPassive(g, s, text, e).message == s.message
  {
    RoomIsMade(s, e);
  }

  lemma ActiveUndisturbed(g: Setup, s: Session, text: string, e: Env)
    requires !s.over && s.latch != Held
    ensures LaunchActive(g, s, text, e).message == s.message
  {
    var s0 := s.(request := s.request.(activecon := true));
    RoomIsMade(s0, e);
    if !MakeRoom(s0, e).over {
      AnswerEnds(g, MakeRoom(s0, e), text, e);
    }
  }

  /** Messages are passed on at the end of a transfer, behind the site's own reply, and at no other time. */
  lemma TellingStep(g: Setup, s: Session, i: Input)
    requires Inv(g, s)
    ensures var t := Step(g, s, i);
      && (Tells(g, s, i) ==>
            i.message.end && i.message.transferDone && t.out == s.out + [ToClient(i.message.text, From(s)), ToSite(s.message.admin_msg)])
      && (Hides(g, s, i) ==>
            i.message.end && i.message.messageSent && t.out == s.out && t.message == s.message.(sendadminmsg := false))
      && (t.message != s.message ==> i.Notice? || Tells(g, s, i) || Hides(g, s, i))
      && (i.Notice? ==> t.message.sendadminmsg == s.message.sendadminmsg)
  {
    if ByOthers(i) {
      MeanwhileUndisturbed(g, s, i);
    } else if !s.over && i.FromClient? && s.latch != Held {
      LineUndisturbed(g, s, i.line, i.text, i.env);
    } else if !s.over && i.FromSite? && s.latch != Held {
      if s.phase.Rank() in {1, 2, 3} {
        LoginUndisturbed(g, s, i.message, i.env);
      } else if LaunchesPassive(g, s) {
        PassiveUndisturbed(g, s, i.message.text, i.env);
      } else if LaunchesActive(g, s) {
        ActiveUndisturbed(g, s, i.message.text, i.env);
      }
    }
  }

  /** After the login, and with nothing to open, it is a 226 that has the waiting message passed on, and the
      confirmation that is kept back. */
  lemma TellingExactly(g: Setup, s: Session, m: SiteMessage, e: Env)
    requires !s.over && s.latch == Free && s.phase == Welcomed && !Opens(g, s)
    ensures var (t, hidden) := (Step(g, s, FromSite(m, e)), s.message.sendadminmsg && m.end && m.messageSent);
      var shown := !hidden && e.first == Sent && !Guarded(g, m.text);
      var told := shown && m.end && m.transferDone && s.message.admin_msg != "" && e.second != Failed;
      && t.message == (if hidden then s.message.(sendadminmsg := false) else if told then Message("", true) else s.message)
      && (hidden ==> t.out == s.out && !t.over)
      && (told ==> t.out == s.out + [ToClient(m.text, From(s)), ToSite(s.message.admin_msg)] && !t.over)
      && (shown && !(m.end && m.transferDone && s.message.admin_msg != "") ==> t.out == s.out + [ToClient(m.text, From(s))] && !t.over)
  {
  }

  function One(b: bool): nat {
    if b then 1 else 0
  }

  function Tellings(g: Setup, s: Session, ins: seq<Input>): nat
    decreases |ins|
  {
    if ins == [] then 0 else One(Tells(g, s, ins[0])) + Tellings(g, Step(g, s, ins[0]), ins[1..])
  }

  function Hidings(g: Setup, s: Session, ins: seq<Input>): nat
    decreases |ins|
  {
    if ins == [] then 0 else One(Hides(g, s, ins[0])) + Hidings(g, Step(g, s, ins[0]), ins[1..])
  }

  function Notices(ins: seq<Input>): nat {
    if ins == [] then 0 else One(ins[0].Notice?) + Notices(ins[1..])
  }

  lemma CountMessage(m: Message, n: Message, notice: bool, tells: bool, hides: bool)
    requires tells ==> m.admin_msg != "" && n == Message("", true)
    requires hides ==> m.sendadminmsg && n == m.(sendadminmsg := false)
    requires n != m ==> notice || tells || hides
    requires notice ==> !tells && !hides && n.sendadminmsg == m.sendadminmsg
    ensures One(tells) + One(n.admin_msg != "") <= One(notice) + One(m.admin_msg != "")
    ensures One(hides) + One(n.sendadminmsg) <= One(tells) + One(m.sendadminmsg)
  {
  }

  lemma MessageCount(g: Setup, s: Session, i: Input)
    requires Inv(g, s)
    ensures var t := Step(g, s, i);
      && One(Tells(g, s, i)) + One(t.message.admin_msg != "") <= One(i.Notice?) + One(s.message.admin_msg != "")
      && One(Hides(g, s, i)) + One(t.message.sendadminmsg) <= One(Tells(g, s, i)) + One(s.message.sendadminmsg)
  {
    TellingStep(g, s, i);
    CountMessage(s.message, Step(g, s, i).message, i.Notice?, Tells(g, s, i), Hides(g, s, i));
  }

  /** The admins are told at most once of each message that a data thread left, and of the site's
      confirmations at most one is hidden for each time they were told. */
  lemma {:induction false} ToldAtMostOnce(g: Setup, s: Session, ins: seq<Input>)
    requires Inv(g, s)
    ensures var t := Run(g, s, ins);
      && Tellings(g, s, ins) + One(t.message.admin_msg != "") <= Notices(ins) + One(s.message.admin_msg != "")
      && Hidings(g, s, ins) + One(t.message.sendadminmsg) <= Tellings(g, s, ins) + One(s.message.sendadminmsg)
    decreases |ins|
  {
    if ins != [] {
      StepKeeps(g, s, ins[0]);
      MessageCount(g, s, ins[0]);
      ToldAtMostOnce(g, Step(g, s, ins[0]), ins[1..]);
    }
  }
}
