/** How a login goes: the names that lines carry, what becomes of each reply of the site, and the dialogue
    of a relink. */
module SessionLogin {
  import opened Strings
  import opened StringLists
  import opened DataThreads
  import opened Sessions
  import opened SessionRuns

  // What a line carries

  lemma ArgumentAt(head: string, c: char, arg: string)
    requires c !in head
    ensures Argument(head + [c] + arg + "\r\n", c) == Some(arg)
  {
    var text := head + [c] + arg + "\r\n";
    assert text == head + [c] + (arg + "\r\n");
    IndexOfAppend(head, c, arg + "\r\n");
    assert text[|head| + 1..|head| + 1 + |arg|] == arg;
  }

  /** The argument of a command is what follows the first blank, without the line end. */
  lemma ArgumentOfLine(cmd: string, arg: string)
    requires ' ' !in cmd
    ensures Argument(cmd + " " + arg + "\r\n", ' ') == Some(arg)
  {
    ArgumentAt(cmd, ' ', arg);
    assert cmd + " " + arg + "\r\n" == cmd + [' '] + arg + "\r\n";
  }

  lemma NoArgument(cmd: string)
    requires ' ' !in cmd
    ensures Argument(cmd + "\r\n", ' ') == None
  {
    IndexOfFirst(cmd + "\r\n", ' ');
  }

  /** The user name is what follows USER and a blank. */
  lemma NameOfUser(name: string)
    requires '!' !in name
    ensures UserName("USER " + name + "\r\n") == Some(name)
  {
    var text := "USER " + name + "\r\n";
    ArgumentOfLine("USER", name);
    assert "USER" + " " == "USER " && '!' !in text;
  }

  /** A '!' before it is not part of it. */
  lemma NameOfGhost(name: string)
    ensures UserName("USER !" + name + "\r\n") == Some(name)
  {
    var text := "USER !" + name + "\r\n";
    assert text == "USER " + ['!'] + name + "\r\n";
    assert text[5] == '!' && '!' in text;
    ArgumentAt("USER ", '!', name);
  }

  lemma NoName()
    ensures UserName("USER\r\n") == None
  {
    NoArgument("USER");
    assert "USER" + "\r\n" == "USER\r\n";
  }

  /** A session that hears USER for the first time has that name from then on, whatever follows. */
  lemma UserIsNamed(g: Setup, s: Session, name: string, ghosts: bool, e: Env, more: seq<Input>)
    requires Inv(g, s) && !s.over && s.latch != Held && s.phase.Rank() < UserSent.Rank() && e.first != Failed && '!' !in name
    ensures var text := (if ghosts then "USER !" else "USER ") + name + "\r\n";
      var t := Step(g, s, FromClient(User, text, e));
      t.phase == UserSent && !t.over && t.username == name && Run(g, t, more).username == name
  {
    NameOfUser(name);
    NameOfGhost(name);
    var text := (if ghosts then "USER !" else "USER ") + name + "\r\n";
    LoginLineRead(g, s, User, text, e);
    StepKeeps(g, s, FromClient(User, text, e));
    RunKeeps(g, Step(g, s, FromClient(User, text, e)), more);
  }

  /** Until PASS lines go to the site as they are. The first USER names the user, and ends the session if it names
      nobody; the PASS behind it completes the login; and no other line, nor either of these at another time, does
      anything more. */
  lemma LoginLineExactly(g: Setup, s: Session, line: Line, text: string, e: Env)
    requires !s.over && s.latch != Held && s.phase.Rank() < PassSent.Rank() && !Early(line)
    ensures var t := Step(g, s, FromClient(line, text, e));
      var (named, completed) := (line.User? && s.phase.Rank() < UserSent.Rank(), line.Pass? && s.phase == UserSent);
      var nobody := named && ' ' !in text && '!' !in text;
      if e.first == Failed then t == s.(out := s.out + [ToSite(text)], over := true)
      else t == s.(out := s.out + [ToSite(text)], over := nobody,
                   phase := if named then UserSent else if completed then PassSent else s.phase,
                   username := if named && !nobody then t.username else s.username)
  {
    LoginLineRead(g, s, line, text, e);
    IndexOfFirst(text, ' ');
    IndexOfFirst(text, '!');
  }

  /** AUTH is the first command if there was none; AUTH SSL is noted where it is translated. */
  lemma AuthExactly(g: Setup, s: Session, line: Line, text: string, e: Env)
    requires !s.over && s.latch != Held && (line.AuthTls? || line.AuthSsl?)
    ensures var t := Step(g, s, FromClient(line, text, e));
      var translated := line.AuthSsl? && g.translate_nosslfxp;
      && t.out == s.out + [ToSite(if translated then "AUTH TLS\r\n" else text)] && (t.over <==> e.first == Failed)
      && t.phase == (if s.phase == NoCommand && e.first != Failed then FirstCommand else s.phase)
      && t.tls == s.tls.(gotauthsslmsg := translated || s.tls.gotauthsslmsg)
  {
  }

  // Relinking

  /** The write gets through, and the session with it. */
  predicate Gets(g: Setup, text: string, r: Sending) {
    r == Sent && !Guarded(g, text)
  }

  const ASK := "331 Password required.\r\n"
  const AGAIN := "500 : Command not understood.\r\n"
  const NO_LOGIN := "427 Login failed!\r\n"

  function Welcome(name: string): string {
    "230 user " + name + " logged in.\r\n"
  }

  function Repeated(n: nat): seq<Item> {
    seq(n, _ => ToClient(AGAIN, Own))
  }

  /** Where PASS comes first, or `|lines|`. */
  function FirstPass(lines: seq<PasswordLine>): (k: nat)
    ensures k <= |lines| && (k < |lines| ==> lines[k].pass) && forall j | 0 <= j < k :: !lines[j].pass
  {
    if lines == [] || lines[0].pass then 0 else 1 + FirstPass(lines[1..])
  }

  /** PASS comes, and each line before it can be answered. */
  predicate PassComes(g: Setup, lines: seq<PasswordLine>) {
    FirstPass(lines) < |lines| && forall j | 0 <= j < FirstPass(lines) :: Gets(g, AGAIN, lines[j].answer)
  }

  /** The dialogue goes on exactly if PASS comes; until then each line is answered with the same complaint. */
  lemma {:induction false} PasswordsExactly(g: Setup, s: Session, lines: seq<PasswordLine>)
    requires !s.over && s.latch != Held
    ensures var t := Passwords(g, s, lines);
      && (!t.over <==> PassComes(g, lines))
      && (!t.over ==> t == s.(out := s.out + Repeated(FirstPass(lines))))
    decreases |lines|
  {
    if lines == [] || lines[0].pass {
      assert s.out + Repeated(0) == s.out;
    } else {
      var (rest, k) := (lines[1..], FirstPass(lines));
      var t := Client(g, s, AGAIN, Own, lines[0].answer);
      assert forall j | 0 < j < k :: lines[j] == rest[j - 1];
      assert forall j | 0 <= j < k - 1 :: rest[j] == lines[j + 1];
      if Gets(g, AGAIN, lines[0].answer) {
        PasswordsExactly(g, t, rest);
        assert s.out + [ToClient(AGAIN, Own)] + Repeated(k - 1) == s.out + Repeated(k);
      } else {
        assert t.over;
      }
    }
  }

  /** The new connection comes about, and what may be said about its login does not end the session. */
  predicate Reconnects(g: Setup, r: Relinking) {
    r.sock && (g.listen_ip == "" || r.bind) && (Complains(g, r) ==> r.told != OverLimit && !Guarded(g, NO_LOGIN))
  }

  predicate Complains(g: Setup, r: Relinking) {
    !r.login && g.show_connect_failmsg
  }

  function Complaint(g: Setup, r: Relinking): seq<Item> {
    if Complains(g, r) then [ToClient(NO_LOGIN, Own)] else []
  }

  lemma ReconnectExactly(g: Setup, s: Session, r: Relinking)
    requires !s.over && s.latch == Free
    ensures var t := Reconnect(g, s, r);
      && (!t.over && t.latch == Free <==> Reconnects(g, r))
      && (Reconnects(g, r) ==> t == s.(relinks := s.relinks + 1, out := s.out + Complaint(g, r)))
      && (!t.over ==> t.latch == Free || t.latch == Held)
  {
  }

  /** Writing to the client: it goes on exactly if the text may be shown and the write succeeds. */
  lemma WriteExactly(g: Setup, s: Session, text: string, source: Source, r: Sending)
    requires !s.over
    ensures var t := Client(g, s, text, source, r);
      && (!t.over <==> s.latch != Held && Gets(g, text, r))
      && (!t.over ==> t == s.(out := s.out + [ToClient(text, source)]))
      && (s.latch != Held && !Guarded(g, text) && r == OverLimit ==>
            t == s.(out := s.out + [ToClient(text, source), ToClient(LIMIT, Own)], over := true, latch := Held))
      && (s.latch != Held && !Guarded(g, text) && r == Failed ==> t == s.(out := s.out + [ToClient(text, source)], over := true))
      && (s.latch != Held && Guarded(g, text) ==> t == s.(over := true, latch := Held))
      && (s.latch == Held ==> t == s.(over := true, latch := Stuck))
  {
  }

  /** Writing to the site: it is not looked at, and only a failure ends the session, or a lock that was kept. */
  lemma SiteWriteExactly(s: Session, text: string, r: Sending)
    requires !s.over
    ensures var t := Site(s, text, r);
      && (s.latch != Held ==> t == s.(out := s.out + [ToSite(text)], over := r == Failed))
      && (s.latch == Held ==> t == s.(over := true, latch := Stuck))
  {
  }

  /** A data thread writes to the client by the same rules, but its failures do not end the session: it leaves the
      lock kept where a text may not be shown or the traffic limit is reached, and without the lock, or after it is
      dropped, it writes nothing. */
  lemma ThreadWritesExactly(g: Setup, s: Session, text: string, r: Sending)
    ensures var t := Step(g, s, DataWrite(text, r));
      if s.thread.None? || s.latch == Held || s.latch == Stuck then t == s
      else if Guarded(g, text) then t == s.(latch := Held)
      else if r == OverLimit then t == s.(out := s.out + [ToClient(text, DataThread), ToClient(LIMIT, Own)], latch := Held)
      else t == s.(out := s.out + [ToClient(text, DataThread)])
  {
  }

  /** What else comes from outside: the latest message for the admins replaces one that still waits, and a
      connection that breaks ends the session. */
  lemma OutsideExactly(g: Setup, s: Session, text: string, book: Book)
    ensures Step(g, s, Notice(text)) == if s.thread.Some? then s.(message := Message(text, s.message.sendadminmsg)) else s
    ensures Step(g, s, OtherSessions(book)) == s.(book := book)
    ensures Step(g, s, SelectFailed) == s.(over := true)
    ensures !s.over ==> Step(g, s, Closed) == s.(over := true, latch := if s.latch == Free then Free else Stuck)
    ensures !s.over && s.latch != Held ==> Step(g, s, Nothing) == s
    ensures !s.over && s.latch == Held ==> Step(g, s, Nothing) == s.(over := true, latch := Stuck)
  {
  }

  lemma WelcomeExactly(g: Setup, s: Session, r: Relinking)
    requires !s.over
    ensures var t := WelcomeBack(g, s, r);
      && (!t.over <==> s.latch != Held && Gets(g, Welcome(s.username), r.welcomed))
      && (!t.over ==> t == s.(relinked := true, phase := Welcomed, out := s.out + [ToClient(Welcome(s.username), RelinkLogin)]))
      && (t.over ==> t.relinked == s.relinked)
  {
    WriteExactly(g, s, Welcome(s.username), RelinkLogin, r.welcomed);
    ClientAlike(g, s, Welcome(s.username), RelinkLogin, r.welcomed);
  }

  lemma AskExactly(g: Setup, s: Session, r: Relinking)
    requires !s.over
    ensures var t := AskPassword(g, s, r);
      && (!t.over <==> s.latch != Held && Gets(g, ASK, r.asked) && PassComes(g, r.lines))
      && (!t.over ==> t == s.(out := s.out + [ToClient(ASK, Own)] + Repeated(FirstPass(r.lines))))
  {
    WriteExactly(g, s, ASK, Own, r.asked);
    var s1 := Client(g, s, ASK, Own, r.asked);
    if !s1.over {
      PasswordsExactly(g, s1, r.lines);
    }
  }

  lemma WelcomeWhenOver(g: Setup, s: Session, r: Relinking)
    requires s.over
    ensures WelcomeBack(g, s, r) == s
  {
  }

  /** What the client has to get through for a relink between USER and PASS. */
  function Dialogue(g: Setup, name: string, r: Relinking): seq<Item> {
    Complaint(g, r) + [ToClient(ASK, Own)] + Repeated(FirstPass(r.lines)) + [ToClient(Welcome(name), RelinkLogin)]
  }

  /** A relink that asks for a password goes on exactly if the connection comes about, the client sends PASS,
      and every write gets through. Then the client has seen the question, one complaint for each line
      before PASS, and the welcome; so without PASS nobody is relinked. */
  lemma RelinkWithPassword(g: Setup, s: Session, r: Relinking)
    requires !s.over && s.latch == Free
    ensures var t := TryRelink(g, s, true, r);
      && (!t.over <==> Reconnects(g, r) && Gets(g, ASK, r.asked) && PassComes(g, r.lines) && Gets(g, Welcome(s.username), r.welcomed))
      && (!t.over ==> t == s.(relinks := s.relinks + 1, relinked := true, phase := Welcomed, out := s.out + Dialogue(g, s.username, r)))
      && (t.over ==> t.relinked == s.relinked)
  {
    var s1 := Reconnect(g, s, r);
    ReconnectExactly(g, s, r);
    ReconnectAlike(g, s, r);
    var s2 := AskPassword(g, s1, r);
    AskPasswordAlike(g, s1, r);
    if !s1.over {
      AskExactly(g, s1, r);
    }
    if s2.over {
      WelcomeWhenOver(g, s2, r);
    } else {
      WelcomeExactly(g, s2, r);
      assert s2.out + [ToClient(Welcome(s.username), RelinkLogin)] == s.out + Dialogue(g, s.username, r);
    }
  }

  /** One that asks for none needs the connection and the last write only. */
  lemma RelinkWithoutPassword(g: Setup, s: Session, r: Relinking)
    requires !s.over && s.latch == Free
    ensures var t := TryRelink(g, s, false, r);
      && (!t.over <==> Reconnects(g, r) && Gets(g, Welcome(s.username), r.welcomed))
      && (!t.over ==> t == s.(relinks := s.relinks + 1, relinked := true, phase := Welcomed,
                              out := s.out + Complaint(g, r) + [ToClient(Welcome(s.username), RelinkLogin)]))
      && (t.over ==> t.relinked == s.relinked)
  {
    var s1 := Reconnect(g, s, r);
    ReconnectExactly(g, s, r);
    ReconnectAlike(g, s, r);
    if s1.over {
      WelcomeWhenOver(g, s1, r);
    } else {
      WelcomeExactly(g, s1, r);
    }
  }

  // The replies of the site during the login

  /** TLS is missing where it is enforced. */
  predicate LacksTls(g: Setup, s: Session) {
    g.enforce_tls && !s.tls.usingssl
  }

  /** The reply makes yatb look for another site. */
  predicate RelinksAfterUser(g: Setup, s: Session, m: SiteMessage) {
    g.trytorelink && ((LacksTls(g, s) && g.relink_notls) || (!(LacksTls(g, s) && !g.use_ssl_exclude) && m.end && m.denied))
  }

  /** Between USER and PASS. A session without TLS is relinked or thrown out where that is enforced and nobody can
      be excluded; a denied user is relinked or thrown out; and else the reply is shown. */
  lemma AfterUserExactly(g: Setup, s: Session, m: SiteMessage, e: Env)
    requires Inv(g, s) && !s.over && s.latch == Free && s.phase == UserSent
    ensures var t := Step(g, s, FromSite(m, e));
      if RelinksAfterUser(g, s, m) then t == TryRelink(g, s, true, e.relinking)
      else if LacksTls(g, s) && !g.use_ssl_exclude then t == End(Client(g, s, "427 Use AUTH TLS!\r\n", Own, e.first))
      else if m.end && m.denied then t == End(Client(g, s, m.text, FirstSite, e.first))
      else t == Client(g, s, m.text, FirstSite, e.first)
  {
    assert s.relinks == 0 && !s.relinked;
    RelinkResult(g, s, true, e.relinking);
  }

  /** So whoever is relinked between USER and PASS has sent PASS, after being asked for it. */
  lemma NobodyRelinkedWithoutPass(g: Setup, s: Session, m: SiteMessage, e: Env)
    requires Inv(g, s) && !s.over && s.latch == Free && s.phase == UserSent
    ensures var t := Step(g, s, FromSite(m, e));
      t.relinked ==>
        && RelinksAfterUser(g, s, m) && !t.over && t.username == s.username
        && PassComes(g, e.relinking.lines) && t.out == s.out + Dialogue(g, s.username, e.relinking)
  {
    AfterUserExactly(g, s, m, e);
    RelinkWithPassword(g, s, e.relinking);
    ClientAlike(g, s, "427 Use AUTH TLS!\r\n", Own, e.first);
    ClientAlike(g, s, m.text, FirstSite, e.first);
  }

  /** After PASS. Only an end line counts. A success welcomes, but throws out where TLS is missing and the user is
      not on the exclude list in use; a full or closed site ends the session; and any other end line is a
      failed login, which is relinked where that is configured. */
  lemma AfterPassExactly(g: Setup, s: Session, m: SiteMessage, e: Env)
    requires Inv(g, s) && !s.over && s.latch == Free && s.phase == PassSent
    ensures var (t, s1) := (Step(g, s, FromSite(m, e)), s.(phase := Welcomed));
      if !m.end then t == Client(g, s, m.text, FirstSite, e.first)
      else if m.success then
        (if LacksTls(g, s) && g.use_ssl_exclude && (forall u | u in s.book.rights.sslexclude :: u != s.username)
         then t == End(Client(g, Client(g, s1, m.text, FirstSite, e.first), "427 Use AUTH TLS!\r\n", Own, e.second))
         else t == Client(g, s1, m.text, FirstSite, e.first))
      else if m.full then t == End(Client(g, s1, m.text, FirstSite, e.first))
      else if g.trytorelink then t == TryRelink(g, s1, false, e.relinking)
      else t == Client(g, s1, m.text, FirstSite, e.first)
  {
    assert s.relinks == 0;
  }

  /** In particular a full or closed site ends the session, with its message as the last that is shown. */
  lemma FullSiteEnds(g: Setup, s: Session, m: SiteMessage, e: Env)
    requires Inv(g, s) && !s.over && s.latch == Free && s.phase == PassSent && m.end && m.full && !m.success
    ensures var t := Step(g, s, FromSite(m, e));
      && t.over && t.phase == Welcomed && !t.relinked
      && (!Guarded(g, m.text) && e.first != OverLimit ==> t.out == s.out + [ToClient(m.text, FirstSite)])
  {
    AfterPassExactly(g, s, m, e);
    WriteExactly(g, s.(phase := Welcomed), m.text, FirstSite, e.first);
  }

  /** Before USER. An agreed AUTH is answered, in the words of the client's own command if that was translated, and
      the handshakes follow; other replies are shown. */
  lemma BeforeUserExactly(g: Setup, s: Session, m: SiteMessage, e: Env)
    requires Inv(g, s) && !s.over && s.latch == Free && s.phase == FirstCommand
    ensures var t := Step(g, s, FromSite(m, e));
      var translated := m.authTls && s.tls.gotauthsslmsg && g.translate_nosslfxp;
      var tried := m.authTls || m.authSsl;
      var text := if translated then "234 AUTH SSL successful\r\n" else m.text;
      && (t.over <==> !Gets(g, text, e.first) || (tried && !(e.siteTls && e.clientTls)))
      && (Gets(g, text, e.first) ==> t.out == s.out + [ToClient(text, if translated then Own else FirstSite)])
      && (!t.over && tried ==> t.tls.usingssl)
      && t.tls.sslprotp == (s.tls.sslprotp || (!m.authTls && m.authSsl))
      && t.phase == FirstCommand
      && (Gets(g, text, e.first) ==> t.username == if !tried then s.username else if t.over then "-TRYTLS-" else "-AFTERTRYTLS-")
  {
    assert s.relinks == 0;
    var s1 := if !m.authTls && m.authSsl then s.(tls := s.tls.(sslprotp := true)) else s;
    var translated := m.authTls && s.tls.gotauthsslmsg && g.translate_nosslfxp;
    var (text, source) := if translated then ("234 AUTH SSL successful\r\n", Own) else (m.text, FirstSite);
    WriteExactly(g, s1, text, source, e.first);
    ClientAlike(g, s1, text, source, e.first);
  }
}
