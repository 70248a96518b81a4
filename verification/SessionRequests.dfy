/** What a client asks for and what its data thread gets: requests followed from the command to the
    thread, and the flags of a session as the story of the commands behind them. */
module SessionRequests {
  import opened Strings
  import opened DataThreads
  import opened Sessions
  import opened SessionRuns
  import P = Passive

  // From the command to the data thread

  /** A session at rest whose data connections go through yatb. */
  predicate AtRest(g: Setup, s: Session) {
    Inv(g, s) && !s.over && s.latch == Free && s.phase == Welcomed && Bounces(g, s)
  }

  /** Nothing is in the way of a step. */
  predicate Fine(e: Env) {
    e.first == Sent && e.join && e.traffic && e.spawn
  }

  predicate NothingAsked(s: Session) {
    && !s.request.pasv && !s.request.port && !s.request.activecon && !s.mode.cpsvcmd
    && !s.published.dirlisting && !s.published.directionset
  }

  lemma RequestRead(g: Setup, s: Session, line: Line, text: string, e: Env)
    requires !s.over && s.latch == Free && s.phase == Welcomed && AboutData(line)
    ensures Step(g, s, FromClient(line, text, e)) == DataLine(g, s, line, text, e)
  {
  }

  lemma AskedByPasv(g: Setup, s: Session, text: string, e: Env)
    requires AtRest(g, s) && Fine(e)
    ensures var t := Step(g, s, FromClient(Pasv, text, e));
      && AtRest(g, t) && t.thread.None? && t.out == s.out + [ToSite(text)]
      && t.request == s.request.(pasv := true) && t.relinked == s.relinked
      && t.mode == s.mode && t.tls == s.tls && t.username == s.username
  {
    RequestRead(g, s, Pasv, text, e);
    StepKeeps(g, s, FromClient(Pasv, text, e));
  }

  /** The thread that a PASV leads to. */
  predicate PassiveThread(g: Setup, s: Session, l: Launch, ip: string, port: int, adv: P.Quad, random: int) {
    && (l.passiveip, l.passiveport) == (ip, port) && !l.activecon
    && l.newport == (if s.relinked && g.use_port_range then random else port + g.add_to_passive_port)
    && P.ParsePsvCommand(l.passivecmd) == Some((adv.Dotted(), l.newport))
    && l.protection == Protection(s.tls.usingssl, s.tls.sslprotp, s.relinked, s.mode.cpsvcmd, s.mode.sscn)
    && l.transfertype == s.mode.transfertype && l.username == s.username
  }

  lemma PassiveLaunched(g: Setup, s: Session, text: string, e: Env, ip: string, port: int, cmd: string)
    requires !s.over && s.thread.None? && Fine(e) && P.ParsePsvCommand(text) == Some((ip, port))
    requires P.PsvReply(g.advertised.Address(), NewPort(g, s, port, e)) == Some(cmd)
    ensures LaunchPassive(g, s, text, e) ==
      Reset(CreateThread(s, NewLaunch(s, ip, "", port, 0, NewPort(g, s, port, e), cmd), true))
  {
    assert MakeRoom(s, e) == s;
  }

  lemma Launched(s: Session, l: Launch)
    requires !s.over
    ensures var t := Reset(CreateThread(s, l, true)); !t.over && NothingAsked(t) && t.out == s.out && t.thread == Some(l)
  {
  }

  lemma MessageRead(g: Setup, s: Session, m: SiteMessage, e: Env)
    requires !s.over && s.latch == Free && s.phase == Welcomed
    ensures Step(g, s, FromSite(m, e)) == SessionReply(g, s, m, e)
  {
  }

  lemma PasvReplyRead(g: Setup, s: Session, m: SiteMessage, e: Env)
    requires LaunchesPassive(g, s)
    ensures SessionReply(g, s, m, e) == LaunchPassive(g, s, m.text, e)
  {
  }

  lemma PortReplyRead(g: Setup, s: Session, m: SiteMessage, e: Env)
    requires LaunchesActive(g, s) && !LaunchesPassive(g, s)
    ensures SessionReply(g, s, m, e) == LaunchActive(g, s, m.text, e)
  {
  }

  lemma AnsweredPasv(g: Setup, s: Session, m: SiteMessage, e: Env, ip: string, port: int, adv: P.Quad)
    requires AtRest(g, s) && Fine(e) && s.thread.None? && LaunchesPassive(g, s)
    requires P.ParsePsvCommand(m.text) == Some((ip, port)) && g.advertised.Address() == adv.Dotted()
    ensures var t := Step(g, s, FromSite(m, e));
      !t.over && NothingAsked(t) && t.out == s.out && t.thread.Some? && PassiveThread(g, s, t.thread.value, ip, port, adv, e.randomPort)
  {
    var newport := NewPort(g, s, port, e);
    P.PsvRoundTrip(adv, newport);
    var cmd := P.PsvReply(adv.Dotted(), newport).value;
    MessageRead(g, s, m, e);
    PasvReplyRead(g, s, m, e);
    PassiveLaunched(g, s, m.text, e, ip, port, cmd);
    Launched(s, NewLaunch(s, ip, "", port, 0, newport, cmd));
  }

  /** PASV and any reply of the site that can be decoded: a data thread that connects to the address and
      port of the reply, and that tells the client the advertised address and the port it listens on;
      the reply itself is not shown. A PORT that was never answered stands in the way of this. */
  lemma PasvGetsItsThread(g: Setup, s: Session, text: string, e: Env, m: SiteMessage, e': Env, ip: string, port: int, adv: P.Quad)
    requires AtRest(g, s) && Fine(e) && Fine(e') && (s.request.port ==> s.relinked && g.traffic_bnc_relink)
    requires P.ParsePsvCommand(m.text) == Some((ip, port)) && g.advertised.Address() == adv.Dotted()
    ensures var t := Step(g, Step(g, s, FromClient(Pasv, text, e)), FromSite(m, e'));
      && !t.over && NothingAsked(t) && t.out == s.out + [ToSite(text)]
      && t.thread.Some? && PassiveThread(g, s, t.thread.value, ip, port, adv, e'.randomPort)
  {
    AskedByPasv(g, s, text, e);
    AnsweredPasv(g, Step(g, s, FromClient(Pasv, text, e)), m, e', ip, port, adv);
  }

  /** A reply that cannot be decoded opens nothing, and the request is gone. */
  lemma UndecodedReply(g: Setup, s: Session, m: SiteMessage, e: Env)
    requires AtRest(g, s) && Fine(e) && s.thread.None? && LaunchesPassive(g, s) && P.ParsePsvCommand(m.text).None?
    ensures var t := Step(g, s, FromSite(m, e)); !t.over && NothingAsked(t) && t.out == s.out && t.thread.None?
  {
    MessageRead(g, s, m, e);
    PasvReplyRead(g, s, m, e);
    assert MakeRoom(s, e) == s;
  }

  /** Nor does a reply when the old data thread cannot be joined or the traffic limit is reached: then the session
      is over, and in the second case the client is told. */
  lemma NoRoom(g: Setup, s: Session, m: SiteMessage, e: Env)
    requires AtRest(g, s) && (LaunchesPassive(g, s) || LaunchesActive(g, s))
    requires (s.thread.Some? && !e.join) || !e.traffic
    ensures var t := Step(g, s, FromSite(m, e));
      && t.over && t.thread.None?
      && t.out == s.out + if s.thread.Some? && !e.join then [] else [ToClient("427 traffic limit reached\r\n", Own)]
  {
    MessageRead(g, s, m, e);
    if LaunchesPassive(g, s) {
      PasvReplyRead(g, s, m, e);
    } else {
      PortReplyRead(g, s, m, e);
    }
  }

  /** What that thread tells the client gets through exactly when `Write` does not take the advertised
      address for the site's; otherwise the lock of the session stays held. */
  lemma ThreadAnswerReachesExactly(g: Setup, s: Session, site: P.Quad, adv: P.Quad, port: int)
    requires s.thread.Some? && s.latch == Free && g.mark == P.SiteMark(site)
    ensures P.PsvReply(adv.Dotted(), port).Some?
    ensures var reply := P.PsvReply(adv.Dotted(), port).value;
      var t := Step(g, s, DataWrite(reply, Sent));
      && (t.out == s.out + [ToClient(reply, DataThread)] <==>
            !g.traffic_bnc || g.debug || !(site.a == adv.a && site.b == adv.b && site.c == adv.c && Dec(site.d) <= Dec(adv.d)))
      && (t.latch == Free <==> t.out != s.out)
  {
    P.GuardExact(site, adv, port);
    var reply := P.PsvReply(adv.Dotted(), port).value;
    ShowsContained(reply, g.mark);
    WrittenExactly(g, s, reply);
  }

  lemma WrittenExactly(g: Setup, s: Session, text: string)
    requires s.thread.Some? && s.latch == Free
    ensures var t := Step(g, s, DataWrite(text, Sent));
      if Guarded(g, text) then t.out == s.out && t.latch == Held
      else t.out == s.out + [ToClient(text, DataThread)] && t.latch == Free
  {
  }

  /** A PASV that was never answered stands in the way of a PORT only after a relink, with the connections to the
      other site bounced. */
  predicate PortGoesFirst(g: Setup, s: Session) {
    s.request.pasv ==> !s.relinked || !g.traffic_bnc_relink
  }

  lemma AskedForPort(g: Setup, s: Session, text: string, e: Env)
    requires AtRest(g, s) && Fine(e)
    ensures var t := Step(g, s, FromClient(Port, text, e));
      && AtRest(g, t) && t.thread.None? && t.out == s.out + [ToSite("PASV\r\n")]
      && t.request == s.request.(port := true, portcmd := text) && t.relinked == s.relinked
      && t.mode == s.mode && t.tls == s.tls && t.username == s.username
  {
    RequestRead(g, s, Port, text, e);
    StepKeeps(g, s, FromClient(Port, text, e));
  }

  /** The thread that a PORT leads to. */
  predicate ActiveThread(s: Session, l: Launch, ip: string, port: int, activeip: string, activeport: int) {
    && (l.passiveip, l.passiveport, l.activeip, l.activeport) == (ip, port, activeip, activeport) && l.activecon
    && l.protection == Protection(s.tls.usingssl, s.tls.sslprotp, s.relinked, s.mode.cpsvcmd, s.mode.sscn)
    && l.transfertype == s.mode.transfertype && l.username == s.username
  }

  lemma ActiveLaunched(g: Setup, s: Session, text: string, e: Env, ip: string, port: int, activeip: string, activeport: int)
    requires !s.over && s.latch == Free && s.thread.None? && Fine(e) && !Guarded(g, PORT_OK)
    requires P.ParsePsvCommand(text) == Some((ip, port)) && P.ParsePortCommand(s.request.portcmd) == Some((activeip, activeport))
    ensures var s0 := s.(request := s.request.(activecon := true));
      var s1 := CreateThread(s0, NewLaunch(s0, ip, activeip, port, activeport, 0, ""), true);
      LaunchActive(g, s, text, e) == Reset(s1.(out := s.out + [ToClient(PORT_OK, Own)]))
  {
    var s0 := s.(request := s.request.(activecon := true));
    assert MakeRoom(s0, e) == s0;
  }

  lemma AnsweredPort(g: Setup, s: Session, m: SiteMessage, e: Env, ip: string, port: int, activeip: string, activeport: int)
    requires AtRest(g, s) && Fine(e) && s.thread.None? && s.request.port && PortGoesFirst(g, s) && !Guarded(g, PORT_OK)
    requires P.ParsePsvCommand(m.text) == Some((ip, port)) && P.ParsePortCommand(s.request.portcmd) == Some((activeip, activeport))
    ensures var t := Step(g, s, FromSite(m, e));
      && !t.over && NothingAsked(t) && t.out == s.out + [ToClient(PORT_OK, Own)]
      && t.thread.Some? && ActiveThread(s, t.thread.value, ip, port, activeip, activeport)
  {
    MessageRead(g, s, m, e);
    PortReplyRead(g, s, m, e);
    ActiveLaunched(g, s, m.text, e, ip, port, activeip, activeport);
  }

  /** PORT and any reply of the site, to the PASV that is sent in its place, when both can be decoded: a
      data thread between the address and port of the reply and those of the command. */
  lemma PortGetsItsThread(g: Setup, s: Session, text: string, e: Env, m: SiteMessage, e': Env, ip: string, port: int, activeip: string, activeport: int)
    requires AtRest(g, s) && Fine(e) && Fine(e') && PortGoesFirst(g, s) && !Guarded(g, PORT_OK)
    requires P.ParsePsvCommand(m.text) == Some((ip, port)) && P.ParsePortCommand(text) == Some((activeip, activeport))
    ensures var t := Step(g, Step(g, s, FromClient(Port, text, e)), FromSite(m, e'));
      && !t.over && NothingAsked(t) && t.out == s.out + [ToSite("PASV\r\n"), ToClient(PORT_OK, Own)]
      && t.thread.Some? && ActiveThread(s, t.thread.value, ip, port, activeip, activeport)
  {
    AskedForPort(g, s, text, e);
    AnsweredPort(g, Step(g, s, FromClient(Port, text, e)), m, e', ip, port, activeip, activeport);
  }

  /** A PORT command that cannot be decoded is refused, without its line end, when the site has answered. */
  lemma UndecodedPort(g: Setup, s: Session, m: SiteMessage, e: Env, line: string)
    requires AtRest(g, s) && Fine(e) && s.thread.None? && s.request.port && PortGoesFirst(g, s)
    requires s.request.portcmd == line + "\r\n" && P.ParsePortCommand(s.request.portcmd).None?
    requires !Guarded(g, "500 '" + line + "': Command not understood.\r\n")
    ensures var t := Step(g, s, FromSite(m, e));
      && !t.over && NothingAsked(t) && t.thread.None?
      && t.out == s.out + [ToClient("500 '" + line + "': Command not understood.\r\n", Own)]
  {
    MessageRead(g, s, m, e);
    PortReplyRead(g, s, m, e);
    assert (line + "\r\n")[..|line| + 1] == line + "\r" && (line + "\r")[..|line|] == line;
    var s0 := s.(request := s.request.(activecon := true));
    assert MakeRoom(s0, e) == s0;
  }

  /** One that can be is not answered at all if the reply of the site cannot be, and no thread is started. */
  lemma UnansweredPort(g: Setup, s: Session, m: SiteMessage, e: Env)
    requires AtRest(g, s) && Fine(e) && s.thread.None? && s.request.port && PortGoesFirst(g, s)
    requires P.ParsePortCommand(s.request.portcmd).Some? && P.ParsePsvCommand(m.text).None?
    ensures var t := Step(g, s, FromSite(m, e)); !t.over && NothingAsked(t) && t.thread.None? && t.out == s.out
  {
    MessageRead(g, s, m, e);
    PortReplyRead(g, s, m, e);
    var s0 := s.(request := s.request.(activecon := true));
    assert MakeRoom(s0, e) == s0;
  }

  /** In the forms of RFC 959: whatever quads and ports the client and the site name, the data thread
      connects these two. */
  lemma PortConnectsQuads(g: Setup, s: Session, e: Env, m: SiteMessage, e': Env, client: P.Quad, cp: nat, site: P.Quad, port: nat)
    requires AtRest(g, s) && Fine(e) && Fine(e') && PortGoesFirst(g, s) && !Guarded(g, PORT_OK)
    requires Some(m.text) == P.PsvReply(site.Dotted(), port)
    ensures var t := Step(g, Step(g, s, FromClient(Port, PortText(client, cp), e)), FromSite(m, e'));
      && !t.over && NothingAsked(t) && t.out == s.out + [ToSite("PASV\r\n"), ToClient(PORT_OK, Own)]
      && t.thread.Some? && ActiveThread(s, t.thread.value, site.Dotted(), port, client.Dotted(), cp)
  {
    P.PortRoundTrip(client, cp);
    P.PsvRoundTrip(site, port);
    PortGetsItsThread(g, s, PortText(client, cp), e, m, e', site.Dotted(), port, client.Dotted(), cp);
  }

  // The story of a session

  /** What the flags depend on: lines of the client, with the state in which they were read; AUTH SSL
      replies; and data connections that were opened. */
  datatype Event =
    | Said(line: Line, text: string, late: bool, bounced: bool, tls: bool)
    | Secured
    | Opened

  /** Whether such a command came since the last data connection was opened. */
  ghost predicate Waiting(h: seq<Event>, p: Event -> bool) {
    h != [] && !h[|h| - 1].Opened? && (p(h[|h| - 1]) || Waiting(h[..|h| - 1], p))
  }

  ghost predicate AsksPasv(e: Event) {
    e.Said? && e.late && e.bounced && (e.line.Pasv? || e.line.Cpsv?)
  }

  ghost predicate AsksCpsv(e: Event) {
    e.Said? && e.late && e.bounced && e.line.Cpsv?
  }

  ghost predicate AsksPort(e: Event) {
    e.Said? && e.late && e.line.Port?
  }

  /** A reply opens a data connection if by then the client has asked for one. */
  ghost predicate Answers(g: Setup, h: seq<Event>, relinked: bool) {
    var bounced := g.traffic_bnc || (relinked && g.traffic_bnc_relink);
    bounced && (Waiting(h, AsksPasv) || Waiting(h, AsksPort))
  }

  /** What an input adds to the story so far. */
  ghost function HeardNow(g: Setup, h: seq<Event>, s: Session, i: Input): seq<Event> {
    if i.FromClient? then [Said(i.line, i.text, s.phase.Rank() >= PassSent.Rank(), Bounces(g, s), s.tls.usingssl)]
    else if !i.FromSite? then []
    else if s.phase == FirstCommand then (if !i.message.authTls && i.message.authSsl then [Secured] else [])
    else if s.phase.Rank() !in {2, 3} && Answers(g, h, s.relinked) then [Opened]
    else []
  }

  ghost function Heard(g: Setup, s: Session, ins: seq<Input>): seq<Event> {
    if ins == [] then []
    else
      var before := Heard(g, s, ins[..|ins| - 1]);
      before + HeardNow(g, before, Run(g, s, ins[..|ins| - 1]), ins[|ins| - 1])
  }

  ghost predicate Transfers(e: Event) {
    e.Said? && e.late && (e.line.Stor? || e.line.Retr? || e.line.List? || e.line.Nlst?)
  }

  ghost predicate Lists(e: Event) {
    e.Said? && e.late && (e.line.List? || e.line.Nlst?)
  }

  /** The last line that says something about it decides. */
  ghost function LatestType(h: seq<Event>): int {
    if h == [] then 1
    else
      var e := h[|h| - 1];
      if e.Said? && e.line.TypeA? then 1 else if e.Said? && e.line.TypeI? then 2 else LatestType(h[..|h| - 1])
  }

  ghost predicate LatestSscn(h: seq<Event>) {
    h != [] &&
      var e := h[|h| - 1];
      if e.Said? && e.late && (e.line.SscnOn? || e.line.SscnOff?) then e.line.SscnOn? else LatestSscn(h[..|h| - 1])
  }

  ghost function LatestWay(h: seq<Event>): Direction {
    if h == [] then Unset
    else
      var e := h[|h| - 1];
      if Transfers(e) then (if e.line.Stor? then Upload else Download) else LatestWay(h[..|h| - 1])
  }

  ghost function LatestPort(h: seq<Event>): string {
    if h == [] then ""
    else if AsksPort(h[|h| - 1]) then h[|h| - 1].text
    else LatestPort(h[..|h| - 1])
  }

  /** PROT P counts over TLS only; CPSV and AUTH SSL imply it. */
  ghost predicate LatestProt(h: seq<Event>) {
    h != [] &&
      var e := h[|h| - 1];
      if e.Said? && e.line.ProtC? then false
      else e.Secured? || AsksCpsv(e) || (e.Said? && e.line.ProtP? && e.tls) || LatestProt(h[..|h| - 1])
  }

  ghost predicate Tells(s: Session, h: seq<Event>) {
    && s.mode == Mode(LatestSscn(h), Waiting(h, AsksCpsv), LatestType(h))
    && s.request == Request(Waiting(h, AsksPasv), Waiting(h, AsksPort), LatestPort(h), false)
    && s.published == Published(LatestWay(h), Waiting(h, Lists), Waiting(h, Transfers))
    && s.tls.sslprotp == LatestProt(h)
  }

  /** The flags of `t` are those of `s` with one more event. */
  ghost predicate Advances(s: Session, t: Session, e: Event) {
    && t.mode.transfertype == (if e.Said? && e.line.TypeA? then 1 else if e.Said? && e.line.TypeI? then 2 else s.mode.transfertype)
    && t.mode.sscn == (if e.Said? && e.late && (e.line.SscnOn? || e.line.SscnOff?) then e.line.SscnOn? else s.mode.sscn)
    && t.mode.cpsvcmd == (!e.Opened? && (AsksCpsv(e) || s.mode.cpsvcmd))
    && t.tls.sslprotp == (if e.Said? && e.line.ProtC? then false
                          else e.Secured? || AsksCpsv(e) || (e.Said? && e.line.ProtP? && e.tls) || s.tls.sslprotp)
    && AdvancesRequest(s, t, e)
  }

  ghost predicate AdvancesRequest(s: Session, t: Session, e: Event) {
    && t.request == Request(!e.Opened? && (AsksPasv(e) || s.request.pasv), !e.Opened? && (AsksPort(e) || s.request.port),
                            if AsksPort(e) then e.text else s.request.portcmd, false)
    && t.published == Published(if Transfers(e) then (if e.line.Stor? then Upload else Download) else s.published.direction,
                                !e.Opened? && (Lists(e) || s.published.dirlisting),
                                !e.Opened? && (Transfers(e) || s.published.directionset))
  }

  predicate SameFlags(s: Session, t: Session) {
    t.mode == s.mode && t.request == s.request && t.published == s.published && t.tls.sslprotp == s.tls.sslprotp
  }

  lemma {:induction false} OneMoreRequest(s: Session, t: Session, h: seq<Event>, e: Event)
    requires Tells(s, h) && AdvancesRequest(s, t, e)
    ensures t.request == Request(Waiting(h + [e], AsksPasv), Waiting(h + [e], AsksPort), LatestPort(h + [e]), false)
    ensures t.published == Published(LatestWay(h + [e]), Waiting(h + [e], Lists), Waiting(h + [e], Transfers))
  {
    var h' := h + [e];
    assert h'[..|h'| - 1] == h && h'[|h'| - 1] == e;
  }

  lemma {:induction false} OneMoreEvent(s: Session, t: Session, h: seq<Event>, e: Event)
    requires Tells(s, h) && Advances(s, t, e)
    ensures Tells(t, h + [e])
  {
    OneMoreRequest(s, t, h, e);
    var h' := h + [e];
    assert h'[..|h'| - 1] == h && h'[|h'| - 1] == e;
  }

  // What each step does to the flags

  lemma NothingSaid(s: Session, t: Session, e: Event)
    requires SameFlags(s, t) && !s.request.activecon && e.Said? && !e.line.TypeA? && !e.line.TypeI? && !e.line.ProtP? && !e.line.ProtC?
    requires e.late ==> !AboutData(e.line) && !e.line.SscnOn? && !e.line.SscnOff?
    requires e.late && (e.line.Pasv? || e.line.Cpsv?) ==> !e.bounced
    ensures Advances(s, t, e)
  {
  }

  function Spoken(g: Setup, s: Session, line: Line, text: string): Event {
    Said(line, text, s.phase.Rank() >= PassSent.Rank(), Bounces(g, s), s.tls.usingssl)
  }

  /** PROT and TYPE. */
  lemma ModeAdvances(s: Session, s1: Session, t: Session, e: Event)
    requires !s.request.activecon && e.Said? && (e.line.TypeA? || e.line.TypeI? || e.line.ProtP? || e.line.ProtC?) && e.tls == s.tls.usingssl
    requires s1 == if e.line.ProtP? || e.line.ProtC? then s.(tls := s.tls.(sslprotp := e.line.ProtP? && (s.tls.usingssl || s.tls.sslprotp)))
                   else s.(mode := s.mode.(transfertype := if e.line.TypeA? then 1 else 2))
    requires SameFlags(s1, t)
    ensures Advances(s, t, e)
  {
  }

  lemma EarlyAdvances(g: Setup, s: Session, line: Line, text: string, e: Env)
    requires Inv(g, s) && !s.over && Early(line)
    ensures Advances(s, EarlyLine(g, s, line, text, e), Spoken(g, s, line, text))
  {
    var t := EarlyLine(g, s, line, text, e);
    if line.ProtP? || line.ProtC? {
      var s1 := s.(tls := s.tls.(sslprotp := line.ProtP? && (s.tls.usingssl || s.tls.sslprotp)));
      AnsweredAlike(g, s1, s.relinked || (line.ProtP? && g.translate_nosslfxp),
                    if line.ProtP? then "200 Protection set to Private\r\n" else "200 Protection set to Clear\r\n", text, e);
      ModeAdvances(s, s1, t, Spoken(g, s, line, text));
    } else if line.TypeA? || line.TypeI? {
      var s1 := s.(mode := s.mode.(transfertype := if line.TypeA? then 1 else 2));
      SiteAlike(s1, text, e.first);
      ModeAdvances(s, s1, t, Spoken(g, s, line, text));
    } else {
      EarlyKeepsFlags(g, s, line, text, e);
      NothingSaid(s, t, Spoken(g, s, line, text));
    }
  }

  lemma EarlyKeepsFlags(g: Setup, s: Session, line: Line, text: string, e: Env)
    requires Inv(g, s) && (line.Idnt? || line.Abor? || line.AuthTls? || line.AuthSsl?)
    ensures SameFlags(s, EarlyLine(g, s, line, text, e))
  {
    if line.Idnt? {
      ClientAlike(g, s, NotUnderstood(text), Own, e.first);
    } else if line.Abor? {
      DeleteThreadKeeps(g, s, e.join);
      SiteAlike(if Bounces(g, s) then DeleteThread(s, e.join) else s, "ABOR\r\n", e.first);
    }
  }

  lemma LoginAdvances(g: Setup, s: Session, line: Line, text: string, e: Env)
    requires Inv(g, s) && !s.over && !Early(line) && s.phase.Rank() < PassSent.Rank() && !LoginLine(s, line, text, e).over
    ensures Advances(s, LoginLine(s, line, text, e), Spoken(g, s, line, text))
  {
    NothingSaid(s, LoginLine(s, line, text, e), Spoken(g, s, line, text));
  }

  lemma PasvAdvances(g: Setup, s: Session, line: Line, text: string, e: Env)
    requires Inv(g, s) && !s.over && s.phase.Rank() >= PassSent.Rank() && !PassiveCommand(g, s, text, e).over && line.Pasv?
    ensures Advances(s, PassiveCommand(g, s, text, e), Spoken(g, s, line, text))
  {
    DeleteThreadKeeps(g, s, e.join);
  }

  lemma CpsvAdvances(g: Setup, s: Session, line: Line, text: string, e: Env)
    requires Inv(g, s) && !s.over && s.phase.Rank() >= PassSent.Rank() && !CpsvCommand(g, s, text, e).over && line.Cpsv?
    ensures Advances(s, CpsvCommand(g, s, text, e), Spoken(g, s, line, text))
  {
    DeleteThreadKeeps(g, s, e.join);
  }

  lemma PortAdvances(g: Setup, s: Session, line: Line, text: string, e: Env)
    requires Inv(g, s) && !s.over && s.phase.Rank() >= PassSent.Rank() && line.Port?
    ensures Advances(s, PortCommand(g, s, text, e), Spoken(g, s, line, text))
  {
    DeleteThreadKeeps(g, AskPort(s, text), e.join);
  }

  lemma TransferAdvances(g: Setup, s: Session, line: Line, text: string, e: Env)
    requires Inv(g, s) && s.phase.Rank() >= PassSent.Rank() && Announces(line).Some? && !s.request.activecon
    ensures var (way, listing) := Announces(line).value; Advances(s, Sessions.Transfer(s, way, listing, text, e), Spoken(g, s, line, text))
  {
  }

  lemma DataAdvances(g: Setup, s: Session, line: Line, text: string, e: Env)
    requires Inv(g, s) && !s.over && AboutData(line) && s.phase.Rank() >= PassSent.Rank() && !DataLine(g, s, line, text, e).over
    ensures Advances(s, DataLine(g, s, line, text, e), Spoken(g, s, line, text))
  {
    if line.Pasv? {
      PasvAdvances(g, s, line, text, e);
    } else if line.Cpsv? {
      CpsvAdvances(g, s, line, text, e);
    } else if line.Port? {
      PortAdvances(g, s, line, text, e);
    } else {
      TransferAdvances(g, s, line, text, e);
    }
  }

  lemma AdminAdvances(g: Setup, s: Session, line: Line, text: string, e: Env)
    requires Inv(g, s) && !s.over && line.Admin() && !AdminCommand(g, s, line, text, e).over
    ensures Advances(s, AdminCommand(g, s, line, text, e), Spoken(g, s, line, text))
  {
    var served := MayAdminister(s);
    ClientAlike(g, if served then s.(book := Administered(s.book, line, text)) else s,
                if served then EditReply(s.book, line, text, e.report) else NotUnderstood(text), Own, e.first);
    NothingSaid(s, AdminCommand(g, s, line, text, e), Spoken(g, s, line, text));
  }

  lemma SscnSet(g: Setup, s: Session, text: string, e: Env)
    ensures SameFlags(s, SscnCommand(g, s, text, e))
  {
    AnsweredAlike(g, s, !g.ssl_forward && g.traffic_bnc,
                  if s.mode.sscn then "200 SSCN:CLIENT METHOD\r\n" else "200 SSCN:SERVER METHOD\r\n", text, e);
  }

  lemma SscnAdvances(s: Session, s1: Session, t: Session, e: Event)
    requires !s.request.activecon && e.Said? && e.late && (e.line.SscnOn? || e.line.SscnOff?)
    requires s1 == s.(mode := s.mode.(sscn := e.line.SscnOn?)) && SameFlags(s1, t)
    ensures Advances(s, t, e)
  {
  }

  lemma OrdinaryKeepsFlags(g: Setup, s: Session, line: Line, text: string, e: Env)
    requires !line.SscnOn? && !line.SscnOff?
    ensures SameFlags(s, OrdinaryLine(g, s, line, text, e))
  {
    if line.Quit? {
      ClientAlike(g, s, e.report, Own, e.first);
      SiteAlike(if g.send_traffic_info && !s.relinked then Client(g, s, e.report, Own, e.first) else s, text, e.second);
    } else if line.SscnStatus? {
      SscnSet(g, s, text, e);
    } else {
      SiteAlike(s, text, e.first);
      if OwnAnswer(g, line, text).Some? {
        ClientAlike(g, s, OwnAnswer(g, line, text).value, Own, e.first);
      }
    }
  }

  lemma OrdinaryAdvances(g: Setup, s: Session, line: Line, text: string, e: Env)
    requires Inv(g, s) && !s.over && !Early(line) && !AboutData(line) && s.phase.Rank() >= PassSent.Rank()
    ensures Advances(s, OrdinaryLine(g, s, line, text, e), Spoken(g, s, line, text))
  {
    if line.SscnOn? || line.SscnOff? {
      var s1 := s.(mode := s.mode.(sscn := line.SscnOn?));
      SscnSet(g, s1, text, e);
      SscnAdvances(s, s1, SscnCommand(g, s1, text, e), Spoken(g, s, line, text));
    } else {
      OrdinaryKeepsFlags(g, s, line, text, e);
      NothingSaid(s, OrdinaryLine(g, s, line, text, e), Spoken(g, s, line, text));
    }
  }

  lemma LineAdvances(g: Setup, s: Session, line: Line, text: string, e: Env)
    requires Inv(g, s) && !s.over && !ClientLine(g, s, line, text, e).over
    ensures Advances(s, ClientLine(g, s, line, text, e), Spoken(g, s, line, text))
  {
    if Early(line) {
      EarlyAdvances(g, s, line, text, e);
    } else if s.phase.Rank() < PassSent.Rank() {
      LoginAdvances(g, s, line, text, e);
    } else if line.Admin() && g.usecommands {
      AdminAdvances(g, s, line, text, e);
    } else if AboutData(line) {
      DataAdvances(g, s, line, text, e);
    } else {
      OrdinaryAdvances(g, s, line, text, e);
    }
  }

  lemma BeforeUserAdvances(g: Setup, s: Session, m: SiteMessage, e: Env)
    requires Inv(g, s) && !s.over && !BeforeUser(g, s, m, e).over
    ensures var t := BeforeUser(g, s, m, e);
      if !m.authTls && m.authSsl then Advances(s, t, Secured) else SameFlags(s, t)
  {
  }

  lemma AfterUserAdvances(g: Setup, s: Session, m: SiteMessage, e: Env)
    requires Inv(g, s) && !s.over && s.phase == UserSent && !AfterUser(g, s, m, e).over
    ensures SameFlags(s, AfterUser(g, s, m, e))
  {
    EnforceKeeps(g, s, e);
    RelinkResult(g, s, true, e.relinking);
  }

  lemma AfterPassAdvances(g: Setup, s: Session, m: SiteMessage, e: Env)
    requires Inv(g, s) && !s.over && s.phase == PassSent && !AfterPass(g, s, m, e).over
    ensures SameFlags(s, AfterPass(g, s, m, e))
  {
    RelinkResult(g, s.(phase := Welcomed), false, e.relinking);
  }

  lemma ResetAdvances(s: Session, s1: Session)
    requires !s1.over && s1.mode == s.mode && s1.published == s.published && s1.tls == s.tls
    requires s1.request.portcmd == s.request.portcmd
    ensures Advances(s, Reset(s1), Opened)
  {
  }

  lemma PassiveAdvances(g: Setup, s: Session, text: string, e: Env)
    requires !s.over && !LaunchPassive(g, s, text, e).over
    ensures Advances(s, LaunchPassive(g, s, text, e), Opened)
  {
    RoomIsMade(s, e);
    var s1 := MakeRoom(s, e);
    ResetAdvances(s, s1);
    match P.ParsePsvCommand(text)
    case None =>
    case Some((ip, port)) =>
      var newport := NewPort(g, s1, port, e);
      var cmd := P.PsvReply(g.advertised.Address(), newport).value;
      ResetAdvances(s, CreateThread(s1, NewLaunch(s1, ip, "", port, 0, newport, cmd), e.spawn));
  }

  lemma AnswerKeepsFlags(g: Setup, s: Session, text: string, e: Env)
    ensures var t := AnswerPort(g, s, text, e);
      t.mode == s.mode && t.published == s.published && t.tls == s.tls && t.request == s.request
  {
    ClientAlike(g, s, "500 '" + Crcut(s.request.portcmd) + "': Command not understood.\r\n", Own, e.first);
    if Answerable(s, text) {
      var (activeip, activeport) := P.ParsePortCommand(s.request.portcmd).value;
      var (ip, port) := P.ParsePsvCommand(text).value;
      ClientAlike(g, CreateThread(s, NewLaunch(s, ip, activeip, port, activeport, 0, ""), e.spawn), PORT_OK, Own, e.first);
    }
  }

  lemma ActiveAdvances(g: Setup, s: Session, text: string, e: Env)
    requires !s.over && !LaunchActive(g, s, text, e).over
    ensures Advances(s, LaunchActive(g, s, text, e), Opened)
  {
    var s0 := s.(request := s.request.(activecon := true));
    RoomIsMade(s0, e);
    AnswerKeepsFlags(g, MakeRoom(s0, e), text, e);
    ResetAdvances(s, AnswerPort(g, MakeRoom(s0, e), text, e));
  }

  lemma ForwardAdvances(g: Setup, s: Session, m: SiteMessage, e: Env)
    ensures SameFlags(s, Forward(g, s, m, e))
  {
  }

  lemma LoginReplyAdvances(g: Setup, s: Session, m: SiteMessage, e: Env)
    requires Inv(g, s) && !s.over && s.phase.Rank() in {1, 2, 3} && !LoginReply(g, s, m, e).over
    ensures var t := LoginReply(g, s, m, e);
      if s.phase == FirstCommand && !m.authTls && m.authSsl then Advances(s, t, Secured) else SameFlags(s, t)
  {
    if s.phase == FirstCommand {
      BeforeUserAdvances(g, s, m, e);
    } else if s.phase == UserSent {
      AfterUserAdvances(g, s, m, e);
    } else {
      AfterPassAdvances(g, s, m, e);
    }
  }

  lemma ReplyAdvances(g: Setup, s: Session, m: SiteMessage, e: Env)
    requires Inv(g, s) && !s.over && s.phase.Rank() !in {1, 2, 3} && !SessionReply(g, s, m, e).over
    ensures var t := SessionReply(g, s, m, e);
      if LaunchesPassive(g, s) || LaunchesActive(g, s) then Advances(s, t, Opened) else SameFlags(s, t)
  {
    if LaunchesPassive(g, s) {
      PassiveAdvances(g, s, m.text, e);
    } else if LaunchesActive(g, s) {
      ActiveAdvances(g, s, m.text, e);
    } else {
      ForwardAdvances(g, s, m, e);
    }
  }

  lemma MeanwhileKeepsFlags(g: Setup, s: Session, i: Input)
    requires ByOthers(i)
    ensures SameFlags(s, Meanwhile(g, s, i))
  {
    if i.DataWrite? {
      ClientAlike(g, s.(over := false), i.text, DataThread, i.result);
    }
  }

  /** A reply, as the story has it. */
  lemma ReplyTells(g: Setup, s: Session, h: seq<Event>, m: SiteMessage, e: Env)
    requires Inv(g, s) && !s.over && Tells(s, h) && !SiteReply(g, s, m, e).over
    ensures Tells(SiteReply(g, s, m, e), h + HeardNow(g, h, s, FromSite(m, e)))
  {
    var now := HeardNow(g, h, s, FromSite(m, e));
    assert Answers(g, h, s.relinked) <==> LaunchesPassive(g, s) || LaunchesActive(g, s);
    if s.phase.Rank() in {1, 2, 3} {
      LoginReplyAdvances(g, s, m, e);
    } else {
      ReplyAdvances(g, s, m, e);
    }
    if now == [] {
      assert h + now == h;
    } else {
      OneMoreEvent(s, SiteReply(g, s, m, e), h, now[0]);
      assert h + now == h + [now[0]];
    }
  }

  lemma StepTells(g: Setup, s: Session, h: seq<Event>, i: Input)
    requires Inv(g, s) && Tells(s, h) && !Step(g, s, i).over
    ensures Tells(Step(g, s, i), h + HeardNow(g, h, s, i))
  {
    StepKeeps(g, s, i);
    if i.FromClient? {
      LineAdvances(g, s, i.line, i.text, i.env);
      OneMoreEvent(s, Step(g, s, i), h, Spoken(g, s, i.line, i.text));
    } else if i.FromSite? {
      ReplyTells(g, s, h, i.message, i.env);
    } else {
      if ByOthers(i) {
        MeanwhileKeepsFlags(g, s, i);
      }
      assert h + [] == h;
    }
  }

  /** While a session goes on, its flags are those that the commands heard so far ask for: transfer type,
      SSCN, protection, direction and PORT text as last said, and a request, a listing or a direction
      waiting exactly if it came since the last data connection was opened. */
  lemma {:induction false} FlagsTellTheStory(g: Setup, book: Book, ins: seq<Input>)
    requires !Run(g, Start(book), ins).over
    ensures Tells(Run(g, Start(book), ins), Heard(g, Start(book), ins))
    decreases |ins|
  {
    if ins != [] {
      var (init, last) := (ins[..|ins| - 1], ins[|ins| - 1]);
      assert ins == init + [last];
      RunSnoc(g, Start(book), init, last);
      RunKeeps(g, Start(book), init);
      StepKeeps(g, Run(g, Start(book), init), last);
      FlagsTellTheStory(g, book, init);
      StepTells(g, Run(g, Start(book), init), Heard(g, Start(book), init), last);
    }
  }
}
