/** One control connection of src/controlthread.cc as a state machine: a step takes one message of
    the site or one line of the client and tells what becomes of the session. Which kind of message
    or line it is has been found out before. Module ControlThreads has the code that follows it. */
module Sessions {
  import opened Strings
  import opened StringLists
  import opened ListFiles
  import opened DataThreads
  import W = Whitelists
  import F = FpWhitelists
  import P = Passive

  // Configuration, state and input

  /** The configuration, and what is fixed when the connection comes in: `mark` is `_site_ip`, the
      text that must not reach the client. */
  datatype Setup = Setup(
    mark: string,
    advertised: P.Advertised,
    traffic_bnc: bool,
    traffic_bnc_relink: bool,
    debug: bool,
    translate_nosslfxp: bool,
    ssl_forward: bool,
    enforce_tls: bool,
    use_ssl_exclude: bool,
    trytorelink: bool,
    relink_notls: bool,
    show_connect_failmsg: bool,
    listen_ip: string,
    usecommands: bool,
    send_traffic_info: bool,
    disable_noop: bool,
    use_port_range: bool,
    add_to_passive_port: int)

  /** How far the login has come. */
  datatype Phase = NoCommand | FirstCommand | UserSent | PassSent | Welcomed
  {
    function Rank(): nat {
      match this
      case NoCommand => 0
      case FirstCommand => 1
      case UserSent => 2
      case PassSent => 3
      case Welcomed => 4
    }
  }

  /** What a data thread is created with. */
  datatype Launch = Launch(
    protection: Protection,
    transfertype: int,
    activecon: bool,
    username: string,
    passiveip: string,
    activeip: string,
    passiveport: int,
    activeport: int,
    newport: int,
    passivecmd: string)

  datatype Counts = Counts(
    created: nat,    // data thread objects
    freed: nat,
    launched: nat,   // threads that came to life
    joined: nat,
    unjoined: nat,   // failed joins
    accepted: nat)   // PASV, CPSV and PORT commands that ask for a data connection

  /** Where a text for the client comes from. */
  datatype Source = Own | FirstSite | RelinkSite | RelinkLogin | DataThread

  /** The lock of `Read` and `Write`: free between calls, left held by an early return of `Write`, or
      waited for by the very thread that left it held, which is then stuck for ever. */
  datatype Latch = Free | Held | Stuck

  /** The lists that all sessions share. */
  datatype Book = Book(rights: Rights, entries: seq<string>)

  datatype Item = ToClient(text: string, source: Source) | ToSite(text: string)

  datatype Tls = Tls(usingssl: bool, sslprotp: bool, gotauthsslmsg: bool)

  datatype Mode = Mode(sscn: bool, cpsvcmd: bool, transfertype: int)

  /** The data connection asked for: by PASV or CPSV, or by PORT. */
  datatype Request = Request(pasv: bool, port: bool, portcmd: string, activecon: bool)

  datatype Published = Published(direction: Direction, dirlisting: bool, directionset: bool)

  /** The message that a data thread left for the admins, and whether one is under way. */
  datatype Message = Message(admin_msg: string, sendadminmsg: bool)

  /** `over` is whether the main loop has been left, or will never go on. */
  datatype Session = Session(
    over: bool,
    latch: Latch,
    phase: Phase,
    relinked: bool,
    relinks: nat,        // calls of tryrelink
    tls: Tls,
    mode: Mode,
    request: Request,
    published: Published,
    message: Message,
    username: string,
    thread: Option<Launch>,
    counts: Counts,
    book: Book,
    out: seq<Item>)

  /** What became of one `Write`: sent, failed, or sent and over the traffic limit. */
  datatype Sending = Sent | Failed | OverLimit

  /** A line that the client sends while the relinked login waits for its password. */
  datatype PasswordLine = PasswordLine(pass: bool, answer: Sending)

  datatype Relinking = Relinking(
    sock: bool,
    bind: bool,
    login: bool,
    told: Sending,              // 427, if the login failed
    asked: Sending,             // 331
    lines: seq<PasswordLine>,   // until the client leaves
    welcomed: Sending)          // 230

  /** Everything a step learns from outside. */
  datatype Env = Env(
    first: Sending,
    second: Sending,
    join: bool,
    traffic: bool,       // trafficcheck
    spawn: bool,
    randomPort: int,
    siteTls: bool,
    clientTls: bool,
    relinking: Relinking,
    report: string)      // text of a help, info, show or traffic report

  /** A message of the site, and which of the texts that matter it contains. */
  datatype SiteMessage = SiteMessage(
    text: string,
    end: bool,           // IsEndline
    authTls: bool,
    authSsl: bool,
    denied: bool,
    success: bool,
    full: bool,          // site_full, site_closed or max_numlogins
    messageSent: bool,
    transferDone: bool)  // code 226

  datatype ListName = AdminList | EntryList | FromSiteList | ToSiteList | SslExcludeList

  datatype Edit = Show | Add | Del

  /** What a configuration file says about the lists, and about how addresses are hashed. */
  datatype ConfiguredLists = ConfiguredLists(hashing: Hashing, admins: string, fromsite: string, tosite: string, sslexclude: string, entries: string)

  /** The kinds of client lines, in the words of the first five to nine characters. */
  datatype Line =
    | Idnt | Abor | AuthTls | AuthSsl | ProtP | ProtC | TypeA | TypeI
    | User | Pass | Pasv | Port | Quit | Cpsv | SscnOn | SscnOff | SscnStatus | Epsv | Eprt | Noop
    | Stor | Retr | List | Nlst
    | Report                                    // help and info
    | Reload(file: Option<ConfiguredLists>)     // None: not readable
    | ListCommand(list: ListName, edit: Edit)
    | IpCommand(edit: Edit)
    | FingerprintCommand(edit: Edit)
    | Other
  {
    /** The commands of yatb itself. */
    predicate Admin() {
      Report? || Reload? || ListCommand? || IpCommand? || FingerprintCommand?
    }
  }

  datatype Input =
    | Nothing                                       // a read that had nothing yet
    | Closed                                        // a failed read
    | SelectFailed
    | FromSite(message: SiteMessage, env: Env)
    | FromClient(line: Line, text: string, env: Env)
    | DataWrite(text: string, result: Sending)      // the data thread writes to the client
    | Notice(text: string)                          // the data thread leaves a message for the admins
    | OtherSessions(book: Book)                     // somebody else edits the lists

  function Start(book: Book): Session {
    Session(false, Free, NoCommand, false, 0, Tls(false, false, false), Mode(false, false, 1), Request(false, false, "", false),
            Published(Unset, false, false), Message("", false), "-BEFORE-MAINLOOP-", None, Counts(0, 0, 0, 0, 0, 0), book, [])
  }

  // Reading and writing

  const LIMIT := "427 traffic limit reached\r\n"

  predicate Guarded(g: Setup, text: string) {
    g.traffic_bnc && !g.debug && Shows(text, g.mark)
  }

  /** A thread that asks for a lock that it holds itself never goes on. */
  function GetStuck(s: Session): Session {
    s.(over := true, latch := Stuck)
  }

  /** `Write` to the client: nothing is sent, and the lock stays held, if the text shows the site
      address; it also stays held when the traffic limit is reached. */
  function Client(g: Setup, s: Session, text: string, source: Source, r: Sending): Session {
    if s.over then s
    else if s.latch == Held then GetStuck(s)
    else if Guarded(g, text) then s.(over := true, latch := Held)
    else
      match r
      case Sent => s.(out := s.out + [ToClient(text, source)])
      case Failed => s.(out := s.out + [ToClient(text, source)], over := true)
      case OverLimit => s.(out := s.out + [ToClient(text, source)] + [ToClient(LIMIT, Own)], over := true, latch := Held)
  }

  /** `Write` to the site. */
  function Site(s: Session, text: string, r: Sending): Session {
    if s.over then s
    else if s.latch == Held then GetStuck(s)
    else s.(out := s.out + [ToSite(text)], over := r == Failed)
  }

  /** A `Write` whose result is not looked at: only being stuck ends anything. */
  function Ignored(over: bool, t: Session): Session {
    t.(over := over || t.latch == Stuck)
  }

  /** The `Write` of a data thread, which waits for ever if the lock is held. Its failure ends the data
      thread, not the session. */
  function WriteOfData(g: Setup, s: Session, text: string, r: Sending): Session {
    if s.thread.None? || s.latch != Free then s
    else Ignored(s.over, Client(g, s.(over := false), text, DataThread, r))
  }

  function End(s: Session): Session {
    s.(over := true)
  }

  // Data threads

  /** Whether data connections go through yatb. */
  predicate Bounces(g: Setup, s: Session) {
    g.traffic_bnc || (s.relinked && g.traffic_bnc_relink)
  }

  /** `deletedatathread`. */
  function DeleteThread(s: Session, join: bool): Session {
    if s.over || s.thread.None? then s
    else
      var c := s.counts.(freed := s.counts.freed + 1);
      if join then s.(thread := None, counts := c.(joined := c.joined + 1))
      else s.(thread := None, counts := c.(unjoined := c.unjoined + 1), over := true)
  }

  function CreateThread(s: Session, l: Launch, spawn: bool): Session {
    var c := s.counts.(created := s.counts.created + 1);
    if spawn then s.(thread := Some(l), counts := c.(launched := c.launched + 1))
    else s.(counts := c.(freed := c.freed + 1))
  }

  function Accept(s: Session): Session {
    s.(counts := s.counts.(accepted := s.counts.accepted + 1))
  }

  /** The variables of a data connection are reset once it is under way. */
  function Reset(s: Session): Session {
    if s.over then s
    else
      s.(request := s.request.(pasv := false, port := false, activecon := false),
         mode := s.mode.(cpsvcmd := false),
         published := s.published.(dirlisting := false, directionset := false))
  }

  function NewLaunch(s: Session, passiveip: string, activeip: string, passiveport: int, activeport: int, newport: int, cmd: string): Launch {
    Launch(Protection(s.tls.usingssl, s.tls.sslprotp, s.relinked, s.mode.cpsvcmd, s.mode.sscn), s.mode.transfertype,
           s.request.activecon, s.username, passiveip, activeip, passiveport, activeport, newport, cmd)
  }

  /** Joining the old data thread and checking the traffic limit, before a new thread. */
  function MakeRoom(s: Session, e: Env): Session {
    var s1 := DeleteThread(s, e.join);
    if s1.over || e.traffic then s1 else End(s1.(out := s1.out + [ToClient(LIMIT, Own)]))
  }

  /** The port a passive client is told to connect to. */
  function NewPort(g: Setup, s: Session, sitePort: int, e: Env): int {
    if s.relinked && g.use_port_range then e.randomPort else sitePort + g.add_to_passive_port
  }

  /** The reply to PASV. An advertised address without three dots raises an exception. */
  function LaunchPassive(g: Setup, s: Session, text: string, e: Env): Session {
    var s1 := MakeRoom(s, e);
    if s1.over then s1
    else
      match P.ParsePsvCommand(text)
      case None => Reset(s1)
      case Some((ip, port)) =>
        var newport := NewPort(g, s1, port, e);
        match P.PsvReply(g.advertised.Address(), newport)
        case None => End(s1)
        case Some(cmd) => Reset(CreateThread(s1, NewLaunch(s1, ip, "", port, 0, newport, cmd), e.spawn))
  }

  function Crcut(s: string): string {
    var t := if s != "" && s[|s| - 1] == '\n' then s[..|s| - 1] else s;
    if t != "" && t[|t| - 1] == '\r' then t[..|t| - 1] else t
  }

  /** What becomes of the PORT command itself. */
  function AnswerPort(g: Setup, s: Session, text: string, e: Env): Session {
    match P.ParsePortCommand(s.request.portcmd)
    case None => Client(g, s, "500 '" + Crcut(s.request.portcmd) + "': Command not understood.\r\n", Own, e.first)
    case Some((activeip, activeport)) =>
      match P.ParsePsvCommand(text)
      case None => s
      case Some((ip, port)) =>
        var l := NewLaunch(s, ip, activeip, port, activeport, 0, "");
        Client(g, CreateThread(s, l, e.spawn), "200 PORT command successful.\r\n", Own, e.first)
  }

  /** The reply to the PASV that stands for a PORT command. */
  function LaunchActive(g: Setup, s: Session, text: string, e: Env): Session {
    var s1 := MakeRoom(s.(request := s.request.(activecon := true)), e);
    if s1.over then s1 else Reset(AnswerPort(g, s1, text, e))
  }

  // Relinking and TLS

  function Passwords(g: Setup, s: Session, lines: seq<PasswordLine>): Session
    decreases |lines|
  {
    if s.over then s
    else if lines == [] then End(s)
    else if lines[0].pass then s
    else Passwords(g, Client(g, s, "500 : Command not understood.\r\n", Own, lines[0].answer), lines[1..])
  }

  /** Another connection, with or without success in logging in there. */
  function Reconnect(g: Setup, s: Session, r: Relinking): Session {
    var s1 := s.(relinks := s.relinks + 1);
    if !r.sock || (g.listen_ip != "" && !r.bind) then End(s1)
    else if !r.login && g.show_connect_failmsg then Ignored(s.over, Client(g, s1, "427 Login failed!\r\n", Own, r.told))
    else s1
  }

  /** The password is asked for and awaited. */
  function AskPassword(g: Setup, s: Session, r: Relinking): Session {
    if s.over then s else Passwords(g, Client(g, s, "331 Password required.\r\n", Own, r.asked), r.lines)
  }

  /** The welcome that is made up for the client. */
  function WelcomeBack(g: Setup, s: Session, r: Relinking): Session {
    var t := Client(g, s, "230 user " + s.username + " logged in.\r\n", RelinkLogin, r.welcomed);
    if t.over then t else t.(relinked := true, phase := Welcomed)
  }

  /** `tryrelink`: the session goes on with another site. A failed login there changes nothing. */
  function TryRelink(g: Setup, s: Session, ask: bool, r: Relinking): Session {
    var s1 := Reconnect(g, s, r);
    WelcomeBack(g, if ask then AskPassword(g, s1, r) else s1, r)
  }

  function TryTls(s: Session, e: Env): Session {
    if s.over then s
    else if !e.siteTls || !e.clientTls then End(s.(username := "-TRYTLS-"))
    else s.(tls := s.tls.(usingssl := true), username := "-AFTERTRYTLS-")
  }

  // A message of the site

  function From(s: Session): Source {
    if s.relinks == 0 then FirstSite else RelinkSite
  }

  function BeforeUser(g: Setup, s: Session, m: SiteMessage, e: Env): Session {
    if m.authTls then
      if s.tls.gotauthsslmsg && g.translate_nosslfxp then TryTls(Client(g, s, "234 AUTH SSL successful\r\n", Own, e.first), e)
      else TryTls(Client(g, s, m.text, From(s), e.first), e)
    else if m.authSsl then TryTls(Client(g, s.(tls := s.tls.(sslprotp := true)), m.text, From(s), e.first), e)
    else Client(g, s, m.text, From(s), e.first)
  }

  /** What `enforce_tls` does to a session without TLS once its user name is known. */
  function Enforce(g: Setup, s: Session, e: Env): Session {
    if !g.enforce_tls || s.tls.usingssl then s
    else if g.relink_notls && g.trytorelink then TryRelink(g, s, true, e.relinking)
    else if g.use_ssl_exclude then s
    else End(Client(g, s, "427 Use AUTH TLS!\r\n", Own, e.first))
  }

  function AfterUser(g: Setup, s: Session, m: SiteMessage, e: Env): Session {
    var s1 := Enforce(g, s, e);
    if s1.over || s1.relinked then s1
    else if m.end && m.denied then
      if g.trytorelink then TryRelink(g, s1, true, e.relinking) else End(Client(g, s1, m.text, From(s), e.first))
    else Client(g, s1, m.text, From(s), e.first)
  }

  function AfterPass(g: Setup, s: Session, m: SiteMessage, e: Env): Session {
    var s1 := s.(phase := Welcomed);
    if !m.end then Client(g, s, m.text, From(s), e.first)
    else if m.success then
      var s2 := Client(g, s1, m.text, From(s), e.first);
      if g.enforce_tls && !s.tls.usingssl && g.use_ssl_exclude && s.username !in s.book.rights.sslexclude
      then End(Client(g, s2, "427 Use AUTH TLS!\r\n", Own, e.second)) else s2
    else if m.full then End(Client(g, s1, m.text, From(s), e.first))
    else if g.trytorelink then TryRelink(g, s1, false, e.relinking)
    else Client(g, s1, m.text, From(s), e.first)
  }

  /** The message for the admins goes to the site. */
  function TellAdmins(s: Session, r: Sending): Session {
    var t := Site(s, s.message.admin_msg, r);
    if t.over then t else t.(message := Message("", true))
  }

  /** Any other message goes to the client; the end of a transfer is the moment to tell the admins. */
  function Forward(g: Setup, s: Session, m: SiteMessage, e: Env): Session {
    var s1 := Client(g, s, m.text, From(s), e.first);
    if s1.over || !m.end || !m.transferDone || s.message.admin_msg == "" then s1 else TellAdmins(s1, e.second)
  }

  function LoginReply(g: Setup, s: Session, m: SiteMessage, e: Env): Session {
    if s.phase == FirstCommand then BeforeUser(g, s, m, e)
    else if s.phase == UserSent then AfterUser(g, s, m, e)
    else AfterPass(g, s, m, e)
  }

  /** A reply that yatb waits for: to a PASV, or to the PASV that stands for a PORT. */
  function LaunchReply(g: Setup, s: Session, m: SiteMessage, e: Env): Session {
    if LaunchesPassive(g, s) then LaunchPassive(g, s, m.text, e) else LaunchActive(g, s, m.text, e)
  }

  predicate LaunchesPassive(g: Setup, s: Session) {
    s.request.pasv && ((g.traffic_bnc && !s.request.port) || (s.relinked && g.traffic_bnc_relink))
  }

  predicate LaunchesActive(g: Setup, s: Session) {
    s.request.port && Bounces(g, s)
  }

  /** After the login. */
  function SessionReply(g: Setup, s: Session, m: SiteMessage, e: Env): Session {
    if LaunchesPassive(g, s) || LaunchesActive(g, s) then LaunchReply(g, s, m, e)
    else if s.message.sendadminmsg && m.end && m.messageSent then s.(message := s.message.(sendadminmsg := false))
    else Forward(g, s, m, e)
  }

  function SiteReply(g: Setup, s: Session, m: SiteMessage, e: Env): Session {
    if s.phase == FirstCommand || s.phase == UserSent || s.phase == PassSent then LoginReply(g, s, m, e)
    else SessionReply(g, s, m, e)
  }

  // A line of the client

  /** `upper(s, n)`, where 0 stands for the whole text. */
  function UpperTo(s: string, n: int): string {
    if n <= 0 || n > |s| then Upper(s) else Upper(s)[..n]
  }

  function NotUnderstood(text: string): string {
    "500 '" + UpperTo(text, |text| - 2) + "' : Command not understood.\r\n"
  }

  /** What follows the first `c`, without the two line end characters. */
  function Argument(text: string, c: char): Option<string> {
    var pos := IndexOf(text, c);
    if pos == |text| then None else Some(Substr(text, pos + 1, |text| - pos - 3))
  }

  /** A '!' before the name asks the site to kick ghosts; it is not part of the name. */
  function UserName(text: string): Option<string> {
    if '!' in text then Argument(text, '!') else Argument(text, ' ')
  }

  function FirstSeen(s: Session): Session {
    if s.over || s.phase != NoCommand then s else s.(phase := FirstCommand)
  }

  /** USER: without a name the session is over. */
  function NoteUser(s: Session, text: string): Session {
    match UserName(text)
    case None => End(s.(phase := UserSent))
    case Some(name) => s.(phase := UserSent, username := name)
  }

  /** Until PASS every other line is passed on; USER and PASS are noticed. */
  function LoginLine(s: Session, line: Line, text: string, e: Env): Session {
    var s1 := Site(s, text, e.first);
    if s1.over then s1
    else if s.phase.Rank() < UserSent.Rank() then
      if line.User? then NoteUser(s1, text) else s1
    else
      if line.Pass? then s1.(phase := PassSent) else s1
  }

  function ProtLine(g: Setup, s: Session, on: bool, text: string, e: Env): Session {
    var s1 := s.(tls := s.tls.(sslprotp := on && (s.tls.usingssl || s.tls.sslprotp)));
    Answered(g, s1, s.relinked || (on && g.translate_nosslfxp),
             if on then "200 Protection set to Private\r\n" else "200 Protection set to Clear\r\n", text, e)
  }

  /** A data connection has been asked for by PASV, CPSV or PORT. */
  function AskPasv(s: Session): Session {
    Accept(s.(request := s.request.(pasv := true)))
  }

  function AskCpsv(s: Session): Session {
    AskPasv(s.(tls := s.tls.(sslprotp := true), mode := s.mode.(cpsvcmd := true)))
  }

  function AskPort(s: Session, text: string): Session {
    Accept(s.(request := s.request.(port := true, portcmd := text)))
  }

  function PassiveCommand(g: Setup, s: Session, text: string, e: Env): Session {
    if !Bounces(g, s) then Site(s, text, e.first)
    else
      var s1 := DeleteThread(s, e.join);
      if s1.over then s1 else Site(AskPasv(s1), text, e.first)
  }

  function CpsvCommand(g: Setup, s: Session, text: string, e: Env): Session {
    if !Bounces(g, s) then Site(s, text, e.first)
    else
      var s1 := DeleteThread(s, e.join);
      if s1.over then s1
      else Site(AskCpsv(s1), if g.translate_nosslfxp || !g.ssl_forward then "PASV\r\n" else "CPSV\r\n", e.first)
  }

  function PortCommand(g: Setup, s: Session, text: string, e: Env): Session {
    if Bounces(g, s) then Site(DeleteThread(AskPort(s, text), e.join), "PASV\r\n", e.first)
    else Site(AskPort(s, text), text, e.first)
  }

  function SscnCommand(g: Setup, s: Session, text: string, e: Env): Session {
    Answered(g, s, !g.ssl_forward && g.traffic_bnc,
             if s.mode.sscn then "200 SSCN:CLIENT METHOD\r\n" else "200 SSCN:SERVER METHOD\r\n", text, e)
  }

  function QuitCommand(g: Setup, s: Session, text: string, e: Env): Session {
    Site(if g.send_traffic_info && !s.relinked then Client(g, s, e.report, Own, e.first) else s, text, e.second)
  }

  /** A command that yatb answers itself under some condition, and else passes on. */
  function Answered(g: Setup, s: Session, own: bool, reply: string, text: string, e: Env): Session {
    if own then Client(g, s, reply, Own, e.first) else Site(s, text, e.first)
  }

  function Transfer(s: Session, way: Direction, listing: bool, text: string, e: Env): Session {
    Site(s.(published := Published(way, listing || s.published.dirlisting, true)), text, e.first)
  }

  // The commands of yatb

  predicate MayAdminister(s: Session) {
    s.username in s.book.rights.admins && !s.relinked
  }

  function ListNamed(b: Book, name: ListName): seq<string> {
    match name
    case AdminList => b.rights.admins
    case EntryList => b.entries
    case FromSiteList => b.rights.fromsite
    case ToSiteList => b.rights.tosite
    case SslExcludeList => b.rights.sslexclude
  }

  function WithList(b: Book, name: ListName, l: seq<string>): Book {
    match name
    case AdminList => b.(rights := b.rights.(admins := l))
    case EntryList => b.(entries := l)
    case FromSiteList => b.(rights := b.rights.(fromsite := l))
    case ToSiteList => b.(rights := b.rights.(tosite := l))
    case SslExcludeList => b.(rights := b.rights.(sslexclude := l))
  }

  function Noun(name: ListName): string {
    match name
    case AdminList => "admin(s)"
    case EntryList => "entry(s)"
    case _ => "user(s)"
  }

  /** The noun of the two complaints about a missing argument. */
  function PlainNoun(name: ListName): string {
    match name
    case AdminList => "admins"
    case EntryList => "entry"
    case _ => "user"
  }

  /** The lists after an edit; without an argument nothing changes. */
  function Edited(b: Book, line: Line, text: string): Book {
    match Argument(text, ' ')
    case None => b
    case Some(arg) =>
      match line
      case ListCommand(name, Add) => WithList(b, name, Inserted(ListNamed(b, name), arg))
      case ListCommand(name, Del) => WithList(b, name, Removed(ListNamed(b, name), arg))
      case IpCommand(Add) => b.(rights := b.rights.(ips := W.Inserting(b.rights.hashing, b.rights.ips, arg).0))
      case IpCommand(Del) => b.(rights := b.rights.(ips := W.Dropping(b.rights.ips, b.rights.hashing.RemoveKey(arg))))
      case FingerprintCommand(Add) => b.(rights := b.rights.(fps := F.Inserting(b.rights.fps, arg).0))
      case FingerprintCommand(Del) => b.(rights := b.rights.(fps := F.Dropping(b.rights.fps, arg)))
      case _ => b
  }

  /** Reloading adds the configured names to the lists; stored addresses stay as they are, however they
      were hashed. */
  function Reloaded(b: Book, c: ConfiguredLists): Book {
    Book(b.rights.(
           hashing := c.hashing,
           admins := Inserted(b.rights.admins, c.admins),
           fromsite := Inserted(b.rights.fromsite, c.fromsite),
           tosite := Inserted(b.rights.tosite, c.tosite),
           sslexclude := Inserted(b.rights.sslexclude, c.sslexclude)),
         Inserted(b.entries, c.entries))
  }

  /** What the insertion into one of the two whitelists is answered with. */
  function AddedReply(what: string, code: int, report: string): string {
    if code == 1 then "230 " + what + " added.\r\n"
    else if code == 2 then "230 " + what + " already added! [" + report + "]\r\n"
    else "230 check your syntax!\r\n"
  }

  function EditReply(b: Book, line: Line, text: string, report: string): string {
    var arg := Argument(text, ' ');
    match line
    case Report => report
    case Reload(None) => "230 failed to reload config.\r\n"
    case Reload(Some(_)) => "230 config reloaded.\r\n"
    case ListCommand(name, Show) => "230- added " + Noun(name) + ": '" + Join(ListNamed(b, name), ',') + "'\r\n230 done.\r\n"
    case ListCommand(name, Add) => if arg.None? then "230 no " + PlainNoun(name) + " to add!\r\n" else "230 " + Noun(name) + " added.\r\n"
    case ListCommand(name, Del) => if arg.None? then "230 no " + PlainNoun(name) + " to remove!\r\n" else "230 " + Noun(name) + " removed.\r\n"
    case IpCommand(Add) =>
      if arg.None? then "230 no ip to add!\r\n" else AddedReply("ip", W.Inserting(b.rights.hashing, b.rights.ips, arg.value).1, report)
    case IpCommand(Del) => if arg.None? then "230 no ip to remove!\r\n" else "230 ip removed.\r\n"
    case FingerprintCommand(Add) =>
      if arg.None? then "230 no fp to add!\r\n" else AddedReply("fp", F.Inserting(b.rights.fps, arg.value).1, report)
    case FingerprintCommand(Del) => if arg.None? then "230 no fp to remove!\r\n" else "230 fp removed.\r\n"
    case _ => report
  }

  /** The lists after a command of an admin. */
  function Administered(b: Book, line: Line, text: string): Book {
    if line.Reload? && line.file.Some? then Reloaded(b, line.file.value) else Edited(b, line, text)
  }

  /** Only admins that were not relinked are served; the others are told that there is no such command. */
  function AdminCommand(g: Setup, s: Session, line: Line, text: string, e: Env): Session
    requires line.Admin()
  {
    var served := MayAdminister(s);
    Client(g, if served then s.(book := Administered(s.book, line, text)) else s,
           if served then EditReply(s.book, line, text, e.report) else NotUnderstood(text), Own, e.first)
  }

  /** The commands that are understood at any time. */
  predicate Early(line: Line) {
    line.Idnt? || line.Abor? || line.AuthTls? || line.AuthSsl? || line.ProtP? || line.ProtC? || line.TypeA? || line.TypeI?
  }

  function ModeLine(g: Setup, s: Session, line: Line, text: string, e: Env): Session {
    if line.ProtP? || line.ProtC? then ProtLine(g, s, line.ProtP?, text, e)
    else Site(s.(mode := s.mode.(transfertype := if line.TypeA? then 1 else 2)), text, e.first)
  }

  /** AUTH TLS and AUTH SSL; the second may be translated to the first. */
  function AuthLine(g: Setup, s: Session, ssl: bool, text: string, e: Env): Session {
    if ssl && g.translate_nosslfxp then FirstSeen(Site(s.(tls := s.tls.(gotauthsslmsg := true)), "AUTH TLS\r\n", e.first))
    else FirstSeen(Site(s, text, e.first))
  }

  function AborLine(g: Setup, s: Session, e: Env): Session {
    Site(if Bounces(g, s) then DeleteThread(s, e.join) else s, "ABOR\r\n", e.first)
  }

  function EarlyLine(g: Setup, s: Session, line: Line, text: string, e: Env): Session
    requires Early(line)
  {
    if line.Idnt? then Client(g, s, NotUnderstood(text), Own, e.first)
    else if line.Abor? then AborLine(g, s, e)
    else if line.AuthTls? || line.AuthSsl? then AuthLine(g, s, line.AuthSsl?, text, e)
    else ModeLine(g, s, line, text, e)
  }

  /** The four transfer commands: which way the data goes, and whether it is a listing. */
  function Announces(line: Line): Option<(Direction, bool)> {
    match line
    case Stor => Some((Upload, false))
    case Retr => Some((Download, false))
    case List => Some((Download, true))
    case Nlst => Some((Download, true))
    case _ => None
  }

  /** What yatb answers instead of passing the command on. */
  function OwnAnswer(g: Setup, line: Line, text: string): Option<string> {
    if (line.Epsv? || line.Eprt?) && g.traffic_bnc then Some(NotUnderstood(text))
    else if line.Noop? && g.disable_noop then Some("200 NOOP command successful.\r\n")
    else None
  }

  /** The commands that have nothing to do with data connections. */
  function OrdinaryLine(g: Setup, s: Session, line: Line, text: string, e: Env): Session {
    if line.Quit? then QuitCommand(g, s, text, e)
    else if line.SscnOn? || line.SscnOff? then SscnCommand(g, s.(mode := s.mode.(sscn := line.SscnOn?)), text, e)
    else if line.SscnStatus? then SscnCommand(g, s, text, e)
    else
      match OwnAnswer(g, line, text)
      case Some(reply) => Client(g, s, reply, Own, e.first)
      case None => Site(s, text, e.first)
  }

  /** The commands that prepare or start a transfer. */
  predicate AboutData(line: Line) {
    line.Pasv? || line.Port? || line.Cpsv? || Announces(line).Some?
  }

  function DataLine(g: Setup, s: Session, line: Line, text: string, e: Env): Session
    requires AboutData(line)
  {
    if line.Pasv? then PassiveCommand(g, s, text, e)
    else if line.Port? then PortCommand(g, s, text, e)
    else if line.Cpsv? then CpsvCommand(g, s, text, e)
    else
      var (way, listing) := Announces(line).value;
      Transfer(s, way, listing, text, e)
  }

  function LateLine(g: Setup, s: Session, line: Line, text: string, e: Env): Session {
    if line.Admin() && g.usecommands then AdminCommand(g, s, line, text, e)
    else if AboutData(line) then DataLine(g, s, line, text, e)
    else OrdinaryLine(g, s, line, text, e)
  }

  function OtherLine(g: Setup, s: Session, line: Line, text: string, e: Env): Session {
    if s.phase.Rank() < PassSent.Rank() then LoginLine(s, line, text, e)
    else LateLine(g, s, line, text, e)
  }

  function ClientLine(g: Setup, s: Session, line: Line, text: string, e: Env): Session {
    if Early(line) then EarlyLine(g, s, line, text, e)
    else OtherLine(g, s, line, text, e)
  }

  // Runs

  /** `Read` and `TryRead` take the lock first. */
  function Readable(s: Session): Session {
    if s.latch == Held then GetStuck(s) else s
  }

  /** What other threads do. */
  predicate ByOthers(i: Input) {
    i.DataWrite? || i.Notice? || i.OtherSessions?
  }

  function Meanwhile(g: Setup, s: Session, i: Input): Session
    requires ByOthers(i)
  {
    match i
    case DataWrite(text, r) => WriteOfData(g, s, text, r)
    case Notice(text) => if s.thread.Some? then s.(message := s.message.(admin_msg := text)) else s
    case OtherSessions(book) => s.(book := book)
  }

  function Turn(g: Setup, s: Session, i: Input): Session
    requires !ByOthers(i)
  {
    match i
    case SelectFailed => End(s)
    case Nothing => Readable(s)
    case Closed => End(Readable(s))
    case FromSite(m, e) => if s.latch == Held then GetStuck(s) else SiteReply(g, s, m, e)
    case FromClient(line, text, e) => if s.latch == Held then GetStuck(s) else ClientLine(g, s, line, text, e)
  }

  /** The main loop makes no turn once it is over; the other threads go on. */
  function Step(g: Setup, s: Session, i: Input): Session {
    if ByOthers(i) then Meanwhile(g, s, i)
    else if s.over then s
    else Turn(g, s, i)
  }

  function Run(g: Setup, s: Session, ins: seq<Input>): Session
    decreases |ins|
  {
    if ins == [] then s else Run(g, Step(g, s, ins[0]), ins[1..])
  }

  /** The destructor: the last data thread is dropped. */
  function Destroyed(s: Session, join: bool): Session {
    End(DeleteThread(s.(over := false), join))
  }
}
