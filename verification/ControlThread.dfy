/** The class CControlThread of src/controlthread.cc, over the lists that all sessions share. Its
    methods do what the functions of module Sessions say, and so the main loop keeps the invariants of
    SessionRuns and SessionOutput. */
module ControlThreads {
  import opened Strings
  import opened StringLists
  import opened DataThreads
  import opened Sessions
  import opened SessionRuns
  import opened SessionOutput
  import W = Whitelists
  import F = FpWhitelists
  import P = Passive

  ghost predicate Good(g: Setup, s: Session) {
    Inv(g, s) && GoodOutput(g, s)
  }

  lemma StepGood(g: Setup, s: Session, i: Input)
    requires Good(g, s)
    ensures Good(g, Step(g, s, i))
  {
    StepKeeps(g, s, i);
    StepKeepsOutput(g, s, i);
  }

  /** What becomes of the last data thread: joined, or not for an error, or it waits for the lock of its
      connection, for ever if that is never given back. */
  datatype Last = Joined | NotJoined | Waits

  class ControlThread {
    const config: Setup
    const lists: Lists
    const entrylist: StringList
    var gotfirstcmd: int
    var gotusercmd: int
    var gotpasscmd: int
    var gotwelcomemsg: int
    var relinked: bool
    var usingssl: bool
    var sslprotp: bool
    var gotauthsslmsg: bool
    var sscn: bool
    var cpsvcmd: bool
    var transfertype: int
    var gotpasvcmd: bool
    var gotportcmd: bool
    var portcmd: string
    var activecon: bool
    var username: string
    var direction: Direction
    var dirlisting: bool
    var directionset: bool
    var admin_msg: string
    var sendadminmsg: bool
    var datathread: Option<Launch>
    var rwlock: Latch
    var out: seq<Item>
    var relinks: nat          // calls of tryrelink
    var counts: Counts
    ghost var book: Book      // what the lists say

    /** The lists, which other sessions use as well. */
    function Shared(): set<object> {
      {lists.fpwhitelist, lists.whitelist, lists.adminlist, lists.sslexcludelist, lists.fxpfromsitelist, lists.fxptositelist, entrylist}
    }

    predicate Apart() {
      lists.Apart() && entrylist !in {lists.adminlist, lists.sslexcludelist, lists.fxpfromsitelist, lists.fxptositelist}
    }

    function BookNow(): Book
      reads Shared()
    {
      Book(lists.Now(), entrylist.List)
    }

    /** Every flag of the login is 0 or 1, and none is set before the one it follows. */
    predicate FlagsInOrder()
      reads this
    {
      0 <= gotwelcomemsg <= gotpasscmd <= gotusercmd <= gotfirstcmd <= 1
    }

    function PhaseOf(): Phase
      reads this
    {
      if gotwelcomemsg != 0 then Welcomed
      else if gotpasscmd != 0 then PassSent
      else if gotusercmd != 0 then UserSent
      else if gotfirstcmd != 0 then FirstCommand
      else NoCommand
    }

    /** The abstract session; `over` is whether the main loop has been left. */
    ghost function View(over: bool): Session
      reads this
    {
      Session(over, rwlock, PhaseOf(), relinked, relinks, Tls(usingssl, sslprotp, gotauthsslmsg), Mode(sscn, cpsvcmd, transfertype),
              Request(gotpasvcmd, gotportcmd, portcmd, activecon), Published(direction, dirlisting, directionset),
              Message(admin_msg, sendadminmsg), username, datathread, counts, book, out)
    }

    /** The flags are in order, and `book` is up to date. */
    ghost predicate Consistent()
      reads this, Shared()
    {
      FlagsInOrder() && Apart() && book == BookNow()
    }

    /** The invariant of all sessions: the order of the login, relinks, data threads and their counts, and
        what was written to whom. */
    ghost predicate Valid(over: bool)
      reads this, Shared()
    {
      Consistent() && Good(config, View(over))
    }

    /** The site that the next message comes from. */
    function Origin(): Source
      reads this
    {
      if relinks == 0 then FirstSite else RelinkSite
    }

    constructor (config: Setup, lists: Lists, entrylist: StringList)
      requires lists.Apart() && entrylist !in {lists.adminlist, lists.sslexcludelist, lists.fxpfromsitelist, lists.fxptositelist}
      ensures this.config == config && this.lists == lists && this.entrylist == entrylist
      ensures Valid(false) && View(false) == Start(BookNow()) && username == "-BEFORE-MAINLOOP-"
    {
      this.config, this.lists, this.entrylist := config, lists, entrylist;
      gotfirstcmd, gotusercmd, gotpasscmd, gotwelcomemsg := 0, 0, 0, 0;
      relinked, usingssl, sslprotp, gotauthsslmsg, sscn, cpsvcmd := false, false, false, false, false, false;
      transfertype := 1;
      gotpasvcmd, gotportcmd, portcmd, activecon := false, false, "", false;
      username := "-BEFORE-MAINLOOP-";
      direction, dirlisting, directionset := Unset, false, false;
      admin_msg, sendadminmsg := "", false;
      datathread, rwlock, out := None, Free, [];
      relinks, counts := 0, Counts(0, 0, 0, 0, 0, 0);
      book := Book(lists.Now(), entrylist.List);
    }

    /** `Write` to the client; what `control_write` and `trafficcheck` return is `r`. Both early returns
        keep the lock, and whoever keeps it waits for itself next time. */
    method WriteClient(s: string, source: Source, r: Sending) returns (ok: bool)
      modifies `out, `rwlock
      ensures View(!ok) == Client(config, old(View(false)), s, source, r)
    {
      ghost var before := View(false);
      if rwlock == Held {
        rwlock := Stuck;
        return false;
      }
      if Guarded(config, s) {
        rwlock := Held;
        return false;
      }
      out := out + [ToClient(s, source)];
      assert View(false) == before.(out := before.out + [ToClient(s, source)]);
      if r == Failed {
        return false;
      }
      if r == OverLimit {
        out := out + [ToClient(LIMIT, Own)];
        rwlock := Held;
        return false;
      }
      return true;
    }

    /** `Write` to the site. */
    method WriteSite(s: string, r: Sending) returns (ok: bool)
      modifies `out, `rwlock
      ensures View(!ok) == Site(old(View(false)), s, r)
    {
      if rwlock == Held {
        rwlock := Stuck;
        return false;
      }
      out := out + [ToSite(s)];
      return r != Failed;
    }

    method DeleteDataThread(join: bool) returns (ok: bool)
      modifies `datathread, `counts
      ensures View(!ok) == DeleteThread(old(View(false)), join)
    {
      if datathread.Some? {
        counts := counts.(freed := counts.freed + 1);
        if !join {
          counts := counts.(unjoined := counts.unjoined + 1);
          datathread := None;
          return false;
        }
        counts := counts.(joined := counts.joined + 1);
        datathread := None;
        return true;
      }
      return true;
    }

    method TryTls(e: Env) returns (ok: bool)
      modifies `username, `usingssl
      ensures View(!ok) == Sessions.TryTls(old(View(false)), e)
    {
      username := "-TRYTLS-";
      if !e.siteTls {
        return false;
      }
      if !e.clientTls {
        return false;
      }
      usingssl := true;
      username := "-AFTERTRYTLS-";
      return true;
    }

    // Relinking

    /** The lines of a client that is asked for its password, up to PASS. */
    method ReadPassword(lines: seq<PasswordLine>) returns (ok: bool)
      modifies `out, `rwlock
      ensures View(!ok) == Passwords(config, old(View(false)), lines)
    {
      var i := 0;
      while i < |lines| && !lines[i].pass
        invariant 0 <= i <= |lines|
        invariant Passwords(config, View(false), lines[i..]) == Passwords(config, old(View(false)), lines)
      {
        var written := WriteClient("500 : Command not understood.\r\n", Own, lines[i].answer);
        if !written {
          return false;
        }
        i := i + 1;
      }
      return i < |lines|;
    }

    method AskPassword(r: Relinking) returns (ok: bool)
      modifies `out, `rwlock
      ensures View(!ok) == Sessions.AskPassword(config, old(View(false)), r)
    {
      ok := WriteClient("331 Password required.\r\n", Own, r.asked);
      if ok {
        ok := ReadPassword(r.lines);
      }
    }

    method WelcomeBack(r: Relinking) returns (ok: bool)
      requires FlagsInOrder() && gotfirstcmd == 1
      modifies `out, `rwlock, `relinked, `gotusercmd, `gotpasscmd, `gotwelcomemsg
      ensures FlagsInOrder()
      ensures View(!ok) == Sessions.WelcomeBack(config, old(View(false)), r)
    {
      ok := WriteClient("230 user " + username + " logged in.\r\n", RelinkLogin, r.welcomed);
      if ok {
        SetLoggedIn();
        relinked := true;
      }
    }

    /** The relinked session counts as logged in. */
    method SetLoggedIn()
      requires FlagsInOrder() && gotfirstcmd == 1
      modifies `gotusercmd, `gotpasscmd, `gotwelcomemsg
      ensures FlagsInOrder()
      ensures View(false) == old(View(false)).(phase := Welcomed)
    {
      gotusercmd := 1;
      gotpasscmd := 1;
      gotwelcomemsg := 1;
    }

    method ReportFailure(r: Relinking) returns (ok: bool)
      modifies `out, `rwlock
      ensures View(!ok) == Ignored(false, Client(config, old(View(false)), "427 Login failed!\r\n", Own, r.told))
    {
      var ignored := WriteClient("427 Login failed!\r\n", Own, r.told);
      return rwlock != Stuck;
    }

    /** A new connection to the relink site. */
    method Reconnect(r: Relinking) returns (ok: bool)
      modifies `out, `rwlock, `relinks
      ensures View(!ok) == Sessions.Reconnect(config, old(View(false)), r)
    {
      ghost var before := View(false);
      relinks := relinks + 1;
      assert View(false) == before.(relinks := relinks);
      if !r.sock {
        return false;
      }
      if config.listen_ip != "" {
        if !r.bind {
          return false;
        }
      }
      if !r.login && config.show_connect_failmsg {
        ok := ReportFailure(r);
        return;
      }
      return true;
    }

    /** With `state`, the client still has to send its password. */
    method TryRelink(state: bool, r: Relinking) returns (ok: bool)
      requires FlagsInOrder() && gotfirstcmd == 1
      modifies `out, `rwlock, `relinks, `relinked, `gotusercmd, `gotpasscmd, `gotwelcomemsg
      ensures FlagsInOrder()
      ensures View(!ok) == Sessions.TryRelink(config, old(View(false)), state, r)
    {
      ok := Reconnect(r);
      if ok && state {
        ok := AskPassword(r);
      }
      if ok {
        ok := WelcomeBack(r);
      }
    }

    // Messages of the site

    method BeforeUser(m: SiteMessage, e: Env) returns (ok: bool)
      modifies `out, `rwlock, `sslprotp, `username, `usingssl
      ensures View(!ok) == Sessions.BeforeUser(config, old(View(false)), m, e)
    {
      if m.authTls {
        if gotauthsslmsg && config.translate_nosslfxp {
          ok := WriteClient("234 AUTH SSL successful\r\n", Own, e.first);
        } else {
          ok := WriteClient(m.text, Origin(), e.first);
        }
        if ok {
          ok := TryTls(e);
        }
      } else if m.authSsl {
        sslprotp := true;
        ok := WriteClient(m.text, Origin(), e.first);
        if ok {
          ok := TryTls(e);
        }
      } else {
        ok := WriteClient(m.text, Origin(), e.first);
      }
    }

    method Enforce(e: Env) returns (ok: bool)
      requires FlagsInOrder() && gotfirstcmd == 1
      modifies `out, `rwlock, `relinks, `relinked, `gotusercmd, `gotpasscmd, `gotwelcomemsg
      ensures FlagsInOrder()
      ensures View(!ok) == Sessions.Enforce(config, old(View(false)), e)
    {
      if config.enforce_tls {
        if !usingssl && config.relink_notls && config.trytorelink {
          ok := TryRelink(true, e.relinking);
          return;
        } else if !usingssl && !config.use_ssl_exclude {
          var written := WriteClient("427 Use AUTH TLS!\r\n", Own, e.first);
          return false;
        }
      }
      return true;
    }

    method AfterUser(m: SiteMessage, e: Env) returns (ok: bool)
      requires FlagsInOrder() && PhaseOf() == UserSent
      modifies `out, `rwlock, `relinks, `relinked, `gotusercmd, `gotpasscmd, `gotwelcomemsg
      ensures FlagsInOrder()
      ensures View(!ok) == Sessions.AfterUser(config, old(View(false)), m, e)
    {
      var origin := Origin();
      ok := Enforce(e);
      if !ok {
        return;
      }
      if !relinked && m.end && m.denied {
        if config.trytorelink && !relinked {
          ok := TryRelink(true, e.relinking);
        } else {
          var written := WriteClient(m.text, origin, e.first);
          return false;
        }
      } else {
        if !relinked {
          ok := WriteClient(m.text, origin, e.first);
        }
      }
    }

    method SetWelcomed()
      requires FlagsInOrder() && PhaseOf() == PassSent
      modifies `gotwelcomemsg
      ensures FlagsInOrder() && gotfirstcmd == 1
      ensures View(false) == old(View(false)).(phase := Welcomed)
    {
      gotwelcomemsg := gotwelcomemsg + 1;
    }

    method AfterPass(m: SiteMessage, e: Env) returns (ok: bool)
      requires FlagsInOrder() && PhaseOf() == PassSent && book == BookNow()
      modifies `out, `rwlock, `relinks, `relinked, `gotusercmd, `gotpasscmd, `gotwelcomemsg
      ensures FlagsInOrder()
      ensures View(!ok) == Sessions.AfterPass(config, old(View(false)), m, e)
    {
      var origin := Origin();
      if m.end && m.success {
        SetWelcomed();
        ok := WriteClient(m.text, origin, e.first);
        if !ok {
          return;
        }
        var excluded := lists.sslexcludelist.IsInList(username);
        if config.enforce_tls && !usingssl && config.use_ssl_exclude && !excluded {
          var written := WriteClient("427 Use AUTH TLS!\r\n", Own, e.second);
          return false;
        }
        return;
      }
      if m.end && m.full {
        SetWelcomed();
        var written := WriteClient(m.text, origin, e.first);
        return false;
      }
      if !m.end {
        ok := WriteClient(m.text, origin, e.first);
        return;
      }
      SetWelcomed();
      if config.trytorelink {
        ok := TryRelink(false, e.relinking);
      } else {
        ok := WriteClient(m.text, origin, e.first);
      }
    }

    /** The old data thread goes, and the traffic limit is checked. */
    method MakeRoom(e: Env) returns (ok: bool)
      modifies `datathread, `counts, `out
      ensures View(!ok) == Sessions.MakeRoom(old(View(false)), e)
      ensures ok ==> datathread.None?
    {
      ok := DeleteDataThread(e.join);
      if ok {
        if !e.traffic {
          out := out + [ToClient(LIMIT, Own)];
          return false;
        }
      }
    }

    method NewDataThread(l: Launch, spawn: bool)
      requires datathread.None?
      modifies `datathread, `counts
      ensures View(false) == CreateThread(old(View(false)), l, spawn)
    {
      counts := counts.(created := counts.created + 1);
      datathread := Some(l);
      if !spawn {
        counts := counts.(freed := counts.freed + 1);
        datathread := None;
      } else {
        counts := counts.(launched := counts.launched + 1);
      }
    }

    method ResetRequest()
      modifies `gotpasvcmd, `gotportcmd, `activecon
      ensures View(false) == old(View(false)).(request := Request(false, false, portcmd, false))
    {
      gotpasvcmd := false;
      gotportcmd := false;
      activecon := false;
    }

    method ResetPublished()
      modifies `dirlisting, `directionset
      ensures View(false) == old(View(false)).(published := Published(direction, false, false))
    {
      dirlisting := false;
      directionset := false;
    }

    method ResetDataThreadVars()
      modifies `gotpasvcmd, `gotportcmd, `activecon, `cpsvcmd, `dirlisting, `directionset
      ensures View(false) == Reset(old(View(false)))
    {
      ResetRequest();
      ghost var s := View(false);
      cpsvcmd := false;
      assert View(false) == s.(mode := s.mode.(cpsvcmd := false));
      ResetPublished();
    }

    function Arguments(passiveip: string, activeip: string, passiveport: int, activeport: int, newport: int, cmd: string): Launch
      reads this
    {
      Launch(Protection(usingssl, sslprotp, relinked, cpsvcmd, sscn), transfertype, activecon, username,
             passiveip, activeip, passiveport, activeport, newport, cmd)
    }

    method LaunchPassive(s: string, e: Env) returns (ok: bool)
      modifies `datathread, `counts, `out, `gotpasvcmd, `gotportcmd, `activecon, `cpsvcmd, `dirlisting, `directionset
      ensures View(!ok) == Sessions.LaunchPassive(config, old(View(false)), s, e)
    {
      ok := MakeRoom(e);
      if !ok {
        return;
      }
      var parsed := P.ParsePsvCommand(s);
      if parsed.Some? {
        var (passiveip, passiveport) := parsed.value;
        var newpassiveport;
        if relinked && config.use_port_range {
          newpassiveport := e.randomPort;
        } else {
          newpassiveport := passiveport + config.add_to_passive_port;
        }
        var passivecmd := P.CreatePsvCommand(config.advertised, newpassiveport);
        if passivecmd.None? {
          return false;
        }
        NewDataThread(Arguments(passiveip, "", passiveport, 0, newpassiveport, passivecmd.value), e.spawn);
      }
      ResetDataThreadVars();
    }

    method AnswerPort(s: string, e: Env) returns (ok: bool)
      requires datathread.None?
      modifies `datathread, `counts, `out, `rwlock
      ensures View(!ok) == Sessions.AnswerPort(config, old(View(false)), s, e)
    {
      ok := true;
      var active := P.ParsePortCommand(portcmd);
      if active.Some? {
        var (activeip, activeport) := active.value;
        var parsed := P.ParsePsvCommand(s);
        if parsed.Some? {
          var (passiveip, passiveport) := parsed.value;
          NewDataThread(Arguments(passiveip, activeip, passiveport, activeport, 0, ""), e.spawn);
          ok := WriteClient("200 PORT command successful.\r\n", Own, e.first);
        }
      } else {
        ok := WriteClient("500 '" + Crcut(portcmd) + "': Command not understood.\r\n", Own, e.first);
      }
    }

    method LaunchActive(s: string, e: Env) returns (ok: bool)
      modifies `datathread, `counts, `out, `rwlock, `gotpasvcmd, `gotportcmd, `activecon, `cpsvcmd, `dirlisting, `directionset
      ensures View(!ok) == Sessions.LaunchActive(config, old(View(false)), s, e)
    {
      activecon := true;
      assert View(false) == old(View(false)).(request := Request(gotpasvcmd, gotportcmd, portcmd, true));
      ok := MakeRoom(e);
      if ok {
        ok := AnswerPort(s, e);
        if ok {
          ResetDataThreadVars();
        }
      }
    }

    method TellAdmins(r: Sending) returns (ok: bool)
      modifies `out, `rwlock, `admin_msg, `sendadminmsg
      ensures View(!ok) == Sessions.TellAdmins(old(View(false)), r)
    {
      ghost var s := View(false);
      assert s.message.admin_msg == admin_msg;
      ok := WriteSite(admin_msg, r);
      assert View(!ok) == Sessions.Site(s, s.message.admin_msg, r);
      if !ok {
        return;
      }
      admin_msg := "";
      sendadminmsg := true;
      assert View(false) == Sessions.Site(s, s.message.admin_msg, r).(message := Message("", true));
    }

    /** Any other message goes to the client, and after a transfer the message for the admins to the site. */
    method Forward(m: SiteMessage, e: Env) returns (ok: bool)
      modifies `out, `rwlock, `admin_msg, `sendadminmsg
      ensures View(!ok) == Sessions.Forward(config, old(View(false)), m, e)
    {
      ok := WriteClient(m.text, Origin(), e.first);
      if ok && m.end && m.transferDone {
        if admin_msg != "" {
          ok := TellAdmins(e.second);
        }
      }
    }

    /** The three stages of the login. */
    method LoginReply(m: SiteMessage, e: Env) returns (ok: bool)
      requires Consistent() && PhaseOf() in {FirstCommand, UserSent, PassSent}
      modifies `out, `rwlock, `sslprotp, `username, `usingssl, `relinks, `relinked, `gotusercmd, `gotpasscmd, `gotwelcomemsg
      ensures FlagsInOrder()
      ensures View(!ok) == Sessions.LoginReply(config, old(View(false)), m, e)
    {
      if gotfirstcmd != 0 && gotusercmd == 0 {
        ok := BeforeUser(m, e);
      } else if gotusercmd != 0 && gotpasscmd == 0 {
        ok := AfterUser(m, e);
      } else {
        ok := AfterPass(m, e);
      }
    }

    /** The replies that yatb waits for. */
    method LaunchReply(m: SiteMessage, e: Env) returns (ok: bool)
      requires LaunchesPassive(config, View(false)) || LaunchesActive(config, View(false))
      modifies `datathread, `counts, `out, `rwlock, `gotpasvcmd, `gotportcmd, `activecon, `cpsvcmd, `dirlisting, `directionset
      ensures View(!ok) == Sessions.LaunchReply(config, old(View(false)), m, e)
    {
      if (gotpasvcmd && config.traffic_bnc && !gotportcmd) || (gotpasvcmd && relinked && config.traffic_bnc_relink) {
        ok := LaunchPassive(m.text, e);
      } else {
        ok := LaunchActive(m.text, e);
      }
    }

    /** After the login. */
    method SessionReply(m: SiteMessage, e: Env) returns (ok: bool)
      modifies `datathread, `counts, `out, `rwlock, `gotpasvcmd, `gotportcmd, `activecon, `cpsvcmd, `dirlisting, `directionset,
               `admin_msg, `sendadminmsg
      ensures View(!ok) == Sessions.SessionReply(config, old(View(false)), m, e)
    {
      ghost var before := View(false);
      if (gotpasvcmd && config.traffic_bnc && !gotportcmd) || (gotpasvcmd && relinked && config.traffic_bnc_relink)
         || (gotportcmd && config.traffic_bnc) || (relinked && config.traffic_bnc_relink && gotportcmd) {
        assert Sessions.SessionReply(config, before, m, e) == Sessions.LaunchReply(config, before, m, e);
        ok := LaunchReply(m, e);
        return;
      }
      if sendadminmsg && m.end && m.messageSent {
        sendadminmsg := false;
        return true;
      }
      assert Sessions.SessionReply(config, before, m, e) == Sessions.Forward(config, before, m, e);
      ok := Forward(m, e);
    }

    /** What the main loop does with a message of the site. */
    method SiteReply(m: SiteMessage, e: Env) returns (ok: bool)
      requires Consistent()
      modifies this
      ensures FlagsInOrder() && book == BookNow()
      ensures View(!ok) == Sessions.SiteReply(config, old(View(false)), m, e)
    {
      ghost var before := View(false);
      if (gotfirstcmd != 0 && gotusercmd == 0) || (gotusercmd != 0 && gotpasscmd == 0)
         || (gotusercmd != 0 && gotpasscmd != 0 && gotwelcomemsg == 0) {
        assert Sessions.SiteReply(config, before, m, e) == Sessions.LoginReply(config, before, m, e);
        ok := LoginReply(m, e);
        return;
      }
      assert Sessions.SiteReply(config, before, m, e) == Sessions.SessionReply(config, before, m, e);
      ok := SessionReply(m, e);
    }

    // Lines of the client

    /** A command that yatb answers itself under some condition, and else passes on. */
    method Answer(own: bool, reply: string, s: string, e: Env) returns (ok: bool)
      modifies `out, `rwlock
      ensures View(!ok) == Answered(config, old(View(false)), own, reply, s, e)
    {
      if own {
        ok := WriteClient(reply, Own, e.first);
      } else {
        ok := WriteSite(s, e.first);
      }
    }

    method ProtPrivate(s: string, e: Env) returns (ok: bool)
      modifies `out, `rwlock, `sslprotp
      ensures View(!ok) == ProtLine(config, old(View(false)), true, s, e)
    {
      if usingssl {
        sslprotp := true;
      }
      ok := Answer(relinked || config.translate_nosslfxp, "200 Protection set to Private\r\n", s, e);
    }

    method ProtClear(s: string, e: Env) returns (ok: bool)
      modifies `out, `rwlock, `sslprotp
      ensures View(!ok) == ProtLine(config, old(View(false)), false, s, e)
    {
      sslprotp := false;
      ok := Answer(relinked, "200 Protection set to Clear\r\n", s, e);
    }

    method TypeLine(ascii: bool, s: string, e: Env) returns (ok: bool)
      modifies `out, `rwlock, `transfertype
      ensures View(!ok) == Site(old(View(false)).(mode := Mode(sscn, cpsvcmd, if ascii then 1 else 2)), s, e.first)
    {
      transfertype := if ascii then 1 else 2;
      ok := WriteSite(s, e.first);
    }

    method AborLine(e: Env) returns (ok: bool)
      modifies `out, `rwlock, `datathread, `counts
      ensures View(!ok) == Sessions.AborLine(config, old(View(false)), e)
    {
      ok := true;
      if config.traffic_bnc || (relinked && config.traffic_bnc_relink) {
        ok := DeleteDataThread(e.join);
      }
      if ok {
        ok := WriteSite("ABOR\r\n", e.first);
      }
    }

    method SetFirstCommand()
      requires FlagsInOrder()
      modifies `gotfirstcmd
      ensures FlagsInOrder() && View(false) == FirstSeen(old(View(false)))
    {
      if gotfirstcmd == 0 {
        gotfirstcmd := gotfirstcmd + 1;
      }
    }

    /** AUTH TLS and AUTH SSL. */
    method AuthLine(ssl: bool, s: string, e: Env) returns (ok: bool)
      requires FlagsInOrder()
      modifies `out, `rwlock, `gotfirstcmd, `gotauthsslmsg
      ensures FlagsInOrder()
      ensures View(!ok) == Sessions.AuthLine(config, old(View(false)), ssl, s, e)
    {
      if ssl && config.translate_nosslfxp {
        gotauthsslmsg := true;
        ok := WriteSite("AUTH TLS\r\n", e.first);
      } else {
        ok := WriteSite(s, e.first);
      }
      if ok {
        SetFirstCommand();
      }
    }

    /** The commands that are understood at any time. */
    method EarlyLine(line: Line, s: string, e: Env) returns (ok: bool)
      requires FlagsInOrder() && Early(line)
      modifies `out, `rwlock, `datathread, `counts, `gotfirstcmd, `gotauthsslmsg, `sslprotp, `transfertype
      ensures FlagsInOrder()
      ensures View(!ok) == Sessions.EarlyLine(config, old(View(false)), line, s, e)
    {
      if line.Idnt? {
        ok := WriteClient(NotUnderstood(s), Own, e.first);
      } else if line.Abor? {
        ok := AborLine(e);
      } else if line.AuthTls? || line.AuthSsl? {
        ok := AuthLine(line.AuthSsl?, s, e);
      } else if line.ProtP? {
        ok := ProtPrivate(s, e);
      } else if line.ProtC? {
        ok := ProtClear(s, e);
      } else {
        ok := TypeLine(line.TypeA?, s, e);
      }
    }

    method ParseUser(s: string) returns (name: Option<string>)
      ensures name == UserName(s)
    {
      IndexOfFirst(s, '!');
      var pos2 := IndexOf(s, '!');
      var pos := IndexOf(s, ' ');
      if pos2 != |s| {
        pos := pos2;
      }
      if pos == |s| {
        return None;
      }
      return Some(Substr(s, pos + 1, |s| - pos - 3));
    }

    method NoteUser(s: string) returns (ok: bool)
      requires FlagsInOrder() && gotusercmd == 0
      modifies `gotfirstcmd, `gotusercmd, `username
      ensures FlagsInOrder()
      ensures View(!ok) == Sessions.NoteUser(old(View(false)), s)
    {
      gotusercmd := gotusercmd + 1;
      if gotfirstcmd == 0 {
        gotfirstcmd := gotfirstcmd + 1;
      }
      var name := ParseUser(s);
      if name.None? {
        return false;
      }
      username := name.value;
      return true;
    }

    method NotePass()
      requires FlagsInOrder() && PhaseOf() == UserSent
      modifies `gotpasscmd
      ensures FlagsInOrder()
      ensures View(false) == old(View(false)).(phase := PassSent)
    {
      gotpasscmd := gotpasscmd + 1;
    }

    /** Until PASS every other line is passed on; USER and PASS are noticed. */
    method LoginLine(line: Line, s: string, e: Env) returns (ok: bool)
      requires FlagsInOrder() && gotpasscmd == 0
      modifies `out, `rwlock, `gotfirstcmd, `gotusercmd, `gotpasscmd, `username
      ensures FlagsInOrder()
      ensures View(!ok) == Sessions.LoginLine(old(View(false)), line, s, e)
    {
      ok := WriteSite(s, e.first);
      if ok {
        if gotusercmd == 0 {
          if line.User? {
            ok := NoteUser(s);
          }
        } else {
          if line.Pass? {
            NotePass();
          }
        }
      }
    }

    method AskPasv()
      modifies `counts, `gotpasvcmd
      ensures View(false) == Sessions.AskPasv(old(View(false)))
    {
      gotpasvcmd := true;
      counts := counts.(accepted := counts.accepted + 1);
    }

    method AskCpsv()
      modifies `counts, `gotpasvcmd, `sslprotp, `cpsvcmd
      ensures View(false) == Sessions.AskCpsv(old(View(false)))
    {
      sslprotp := true;
      cpsvcmd := true;
      AskPasv();
    }

    method AskPort(s: string)
      modifies `counts, `gotportcmd, `portcmd
      ensures View(false) == Sessions.AskPort(old(View(false)), s)
    {
      gotportcmd := true;
      portcmd := s;
      counts := counts.(accepted := counts.accepted + 1);
    }

    method PassiveCommand(s: string, e: Env) returns (ok: bool)
      modifies `out, `rwlock, `datathread, `counts, `gotpasvcmd
      ensures View(!ok) == Sessions.PassiveCommand(config, old(View(false)), s, e)
    {
      if config.traffic_bnc || (relinked && config.traffic_bnc_relink) {
        ok := DeleteDataThread(e.join);
        if !ok {
          return;
        }
        AskPasv();
      }
      ok := WriteSite(s, e.first);
    }

    method CpsvCommand(s: string, e: Env) returns (ok: bool)
      modifies `out, `rwlock, `datathread, `counts, `gotpasvcmd, `sslprotp, `cpsvcmd
      ensures View(!ok) == Sessions.CpsvCommand(config, old(View(false)), s, e)
    {
      if config.traffic_bnc || (relinked && config.traffic_bnc_relink) {
        ok := DeleteDataThread(e.join);
        if ok {
          AskCpsv();
          var command := "CPSV\r\n";
          if config.translate_nosslfxp || !config.ssl_forward {
            command := "PASV\r\n";
          }
          ok := WriteSite(command, e.first);
        }
      } else {
        ok := WriteSite(s, e.first);
      }
    }

    method PortCommand(s: string, e: Env) returns (ok: bool)
      modifies `out, `rwlock, `datathread, `counts, `gotportcmd, `portcmd
      ensures View(!ok) == Sessions.PortCommand(config, old(View(false)), s, e)
    {
      AskPort(s);
      if config.traffic_bnc || (relinked && config.traffic_bnc_relink) {
        ok := DeleteDataThread(e.join);
        if ok {
          ok := WriteSite("PASV\r\n", e.first);
        }
      } else {
        ok := WriteSite(s, e.first);
      }
    }

    method Transfer(way: Direction, listing: bool, s: string, e: Env) returns (ok: bool)
      modifies `out, `rwlock, `direction, `dirlisting, `directionset
      ensures View(!ok) == Sessions.Transfer(old(View(false)), way, listing, s, e)
    {
      direction := way;
      if listing {
        dirlisting := true;
      }
      directionset := true;
      ghost var before := old(View(false));
      assert View(false) == before.(published := Published(way, listing || before.published.dirlisting, true));
      ok := WriteSite(s, e.first);
    }

    method TransferLine(line: Line, s: string, e: Env) returns (ok: bool)
      requires Announces(line).Some?
      modifies `out, `rwlock, `direction, `dirlisting, `directionset
      ensures var (way, listing) := Announces(line).value;
        View(!ok) == Sessions.Transfer(old(View(false)), way, listing, s, e)
    {
      if line.Stor? {
        ok := Transfer(Upload, false, s, e);
      } else if line.Retr? {
        ok := Transfer(Download, false, s, e);
      } else {
        ok := Transfer(Download, true, s, e);
      }
    }

    /** The commands that prepare or start a transfer. */
    method DataLine(line: Line, s: string, e: Env) returns (ok: bool)
      requires AboutData(line)
      modifies `out, `rwlock, `datathread, `counts, `gotpasvcmd, `gotportcmd, `portcmd, `sslprotp, `cpsvcmd, `direction, `dirlisting,
               `directionset
      ensures View(!ok) == Sessions.DataLine(config, old(View(false)), line, s, e)
    {
      if line.Pasv? {
        ok := PassiveCommand(s, e);
      } else if line.Port? {
        ok := PortCommand(s, e);
      } else if line.Cpsv? {
        ok := CpsvCommand(s, e);
      } else {
        ok := TransferLine(line, s, e);
      }
    }

    method QuitLine(s: string, e: Env) returns (ok: bool)
      modifies `out, `rwlock
      ensures View(!ok) == QuitCommand(config, old(View(false)), s, e)
    {
      ok := true;
      if config.send_traffic_info && !relinked {
        ok := WriteClient(e.report, Own, e.first);
      }
      if ok {
        ok := WriteSite(s, e.second);
      }
    }

    method TellSscn(s: string, e: Env) returns (ok: bool)
      modifies `out, `rwlock
      ensures View(!ok) == SscnCommand(config, old(View(false)), s, e)
    {
      var reply := "200 SSCN:SERVER METHOD\r\n";
      if sscn {
        reply := "200 SSCN:CLIENT METHOD\r\n";
      }
      ok := Answer(!config.ssl_forward && config.traffic_bnc, reply, s, e);
    }

    method SetSscn(on: bool, s: string, e: Env) returns (ok: bool)
      modifies `out, `rwlock, `sscn
      ensures View(!ok) == SscnCommand(config, old(View(false)).(mode := Mode(on, cpsvcmd, transfertype)), s, e)
    {
      sscn := on;
      ok := TellSscn(s, e);
    }

    /** The commands that have nothing to do with data connections. */
    method OrdinaryLine(line: Line, s: string, e: Env) returns (ok: bool)
      modifies `out, `rwlock, `sscn
      ensures View(!ok) == Sessions.OrdinaryLine(config, old(View(false)), line, s, e)
    {
      if line.Quit? {
        ok := QuitLine(s, e);
      } else if line.SscnOn? || line.SscnOff? {
        ok := SetSscn(line.SscnOn?, s, e);
      } else if line.SscnStatus? {
        ok := TellSscn(s, e);
      } else if (line.Epsv? && config.traffic_bnc) || (line.Eprt? && config.traffic_bnc) {
        ok := WriteClient(NotUnderstood(s), Own, e.first);
      } else if line.Noop? && config.disable_noop {
        ok := WriteClient("200 NOOP command successful.\r\n", Own, e.first);
      } else {
        ok := WriteSite(s, e.first);
      }
    }

    // The commands of yatb

    method ParseArgument(s: string) returns (arg: Option<string>)
      ensures arg == Argument(s, ' ')
    {
      var pos := IndexOf(s, ' ');
      if pos != |s| {
        return Some(Substr(s, pos + 1, |s| - pos - 3));
      }
      return None;
    }

    function ListFor(name: ListName): StringList {
      match name
      case AdminList => lists.adminlist
      case EntryList => entrylist
      case FromSiteList => lists.fxpfromsitelist
      case ToSiteList => lists.fxptositelist
      case SslExcludeList => lists.sslexcludelist
    }

    /** A comma list: shown, extended or shortened. */
    method ServeListCommand(name: ListName, edit: Sessions.Edit, s: string, report: string) returns (reply: string)
      requires Apart()
      modifies ListFor(name)
      ensures BookNow() == Edited(old(BookNow()), ListCommand(name, edit), s)
      ensures reply == EditReply(old(BookNow()), ListCommand(name, edit), s, report)
    {
      var arg := ParseArgument(s);
      if edit.Show? {
        var text := ListFor(name).GetList();
        reply := "230- added " + Noun(name) + ": '" + text + "'\r\n230 done.\r\n";
      } else if edit.Add? {
        if arg.Some? {
          ListFor(name).Insert(arg.value);
          reply := "230 " + Noun(name) + " added.\r\n";
        } else {
          reply := "230 no " + PlainNoun(name) + " to add!\r\n";
        }
      } else {
        if arg.Some? {
          ListFor(name).Remove(arg.value);
          reply := "230 " + Noun(name) + " removed.\r\n";
        } else {
          reply := "230 no " + PlainNoun(name) + " to remove!\r\n";
        }
      }
    }

    method ServeIpCommand(edit: Sessions.Edit, s: string, report: string) returns (reply: string)
      modifies lists.whitelist`List
      ensures BookNow() == Edited(old(BookNow()), IpCommand(edit), s)
      ensures reply == EditReply(old(BookNow()), IpCommand(edit), s, report)
    {
      var arg := ParseArgument(s);
      reply := report;
      if edit.Add? {
        reply := "230 no ip to add!\r\n";
        if arg.Some? {
          var res := lists.whitelist.Insert(arg.value);
          reply := AddedReply("ip", res, report);
        }
      } else if edit.Del? {
        reply := "230 no ip to remove!\r\n";
        if arg.Some? {
          lists.whitelist.Remove(arg.value);
          reply := "230 ip removed.\r\n";
        }
      }
    }

    method ServeFingerprintCommand(edit: Sessions.Edit, s: string, report: string) returns (reply: string)
      modifies lists.fpwhitelist`List
      ensures BookNow() == Edited(old(BookNow()), FingerprintCommand(edit), s)
      ensures reply == EditReply(old(BookNow()), FingerprintCommand(edit), s, report)
    {
      var arg := ParseArgument(s);
      reply := report;
      if edit.Add? {
        reply := "230 no fp to add!\r\n";
        if arg.Some? {
          var res := lists.fpwhitelist.Insert(arg.value);
          reply := AddedReply("fp", res, report);
        }
      } else if edit.Del? {
        reply := "230 no fp to remove!\r\n";
        if arg.Some? {
          lists.fpwhitelist.Remove(arg.value);
          reply := "230 fp removed.\r\n";
        }
      }
    }

    method ReloadLists(c: ConfiguredLists)
      requires Apart()
      modifies Shared()
      ensures BookNow() == Reloaded(old(BookNow()), c)
    {
      lists.whitelist.hashing := c.hashing;
      lists.fpwhitelist.hashing := c.hashing;
      lists.adminlist.Insert(c.admins);
      lists.fxpfromsitelist.Insert(c.fromsite);
      lists.fxptositelist.Insert(c.tosite);
      lists.sslexcludelist.Insert(c.sslexclude);
      entrylist.Insert(c.entries);
    }

    method Administer(line: Line, s: string, report: string) returns (reply: string)
      requires Apart() && line.Admin()
      modifies Shared()
      ensures BookNow() == Administered(old(BookNow()), line, s)
      ensures reply == EditReply(old(BookNow()), line, s, report)
    {
      reply := report;
      if line.ListCommand? {
        reply := ServeListCommand(line.list, line.edit, s, report);
      } else if line.IpCommand? {
        reply := ServeIpCommand(line.edit, s, report);
      } else if line.FingerprintCommand? {
        reply := ServeFingerprintCommand(line.edit, s, report);
      } else if line.Reload? {
        reply := "230 failed to reload config.\r\n";
        if line.file.Some? {
          ReloadLists(line.file.value);
          reply := "230 config reloaded.\r\n";
        }
      }
    }

    method Served(line: Line, s: string, report: string) returns (reply: string)
      requires Apart() && book == BookNow() && line.Admin()
      modifies `book, Shared()
      ensures book == BookNow() && book == Administered(old(book), line, s)
      ensures reply == EditReply(old(book), line, s, report)
    {
      reply := Administer(line, s, report);
      book := BookNow();
    }

    /** Only admins that were not relinked are served. */
    method AdminReply(line: Line, s: string, report: string) returns (reply: string)
      requires Apart() && book == BookNow() && line.Admin()
      modifies `book, Shared()
      ensures book == BookNow()
      ensures book == if MayAdminister(old(View(false))) then Administered(old(book), line, s) else old(book)
      ensures reply == if MayAdminister(old(View(false))) then EditReply(old(book), line, s, report) else NotUnderstood(s)
    {
      ghost var before := View(false);
      var admin := lists.adminlist.IsInList(username);
      assert MayAdminister(before) <==> admin && !relinked;
      if !admin || relinked {
        return NotUnderstood(s);
      }
      reply := Served(line, s, report);
    }

    method AdminCommand(line: Line, s: string, e: Env) returns (ok: bool)
      requires Consistent() && line.Admin()
      modifies this, Shared()
      ensures FlagsInOrder() && book == BookNow()
      ensures View(!ok) == Sessions.AdminCommand(config, old(View(false)), line, s, e)
    {
      ghost var before := View(false);
      var reply := AdminReply(line, s, e.report);
      assert View(false) == before.(book := book);
      ok := WriteClient(reply, Own, e.first);
    }

    // The main loop

    /** The commands of FTP after PASS. */
    method CommandLine(line: Line, s: string, e: Env) returns (ok: bool)
      requires !(line.Admin() && config.usecommands)
      modifies `out, `rwlock, `datathread, `counts, `gotpasvcmd, `gotportcmd, `portcmd, `sslprotp, `cpsvcmd, `sscn, `direction,
               `dirlisting, `directionset
      ensures View(!ok) == Sessions.LateLine(config, old(View(false)), line, s, e)
    {
      ghost var before := View(false);
      if AboutData(line) {
        assert Sessions.LateLine(config, before, line, s, e) == Sessions.DataLine(config, before, line, s, e);
        ok := DataLine(line, s, e);
        return;
      }
      assert Sessions.LateLine(config, before, line, s, e) == Sessions.OrdinaryLine(config, before, line, s, e);
      ok := OrdinaryLine(line, s, e);
    }

    method LateLine(line: Line, s: string, e: Env) returns (ok: bool)
      requires Consistent()
      modifies this, Shared()
      ensures FlagsInOrder() && book == BookNow()
      ensures View(!ok) == Sessions.LateLine(config, old(View(false)), line, s, e)
    {
      ghost var before := View(false);
      if line.Admin() && config.usecommands {
        assert Sessions.LateLine(config, before, line, s, e) == Sessions.AdminCommand(config, before, line, s, e);
        ok := AdminCommand(line, s, e);
        return;
      }
      ok := CommandLine(line, s, e);
    }

    method OtherLine(line: Line, s: string, e: Env) returns (ok: bool)
      requires Consistent()
      modifies this, Shared()
      ensures FlagsInOrder() && book == BookNow()
      ensures View(!ok) == Sessions.OtherLine(config, old(View(false)), line, s, e)
    {
      ghost var before := View(false);
      if gotpasscmd == 0 {
        assert Sessions.OtherLine(config, before, line, s, e) == Sessions.LoginLine(before, line, s, e);
        ok := LoginLine(line, s, e);
        return;
      }
      assert Sessions.OtherLine(config, before, line, s, e) == Sessions.LateLine(config, before, line, s, e);
      ok := LateLine(line, s, e);
    }

    /** What the main loop does with a line of the client. */
    method ClientLine(line: Line, s: string, e: Env) returns (ok: bool)
      requires Consistent()
      modifies this, Shared()
      ensures FlagsInOrder() && book == BookNow()
      ensures View(!ok) == Sessions.ClientLine(config, old(View(false)), line, s, e)
    {
      if Early(line) {
        ok := EarlyLine(line, s, e);
      } else {
        ok := OtherLine(line, s, e);
      }
    }

    /** One turn of the main loop; reading takes the lock. */
    method Turn(i: Input) returns (ok: bool)
      requires Valid(false) && !ByOthers(i)
      modifies this, Shared()
      ensures Valid(!ok) && View(!ok) == Step(config, old(View(false)), i)
    {
      StepGood(config, View(false), i);
      if i.SelectFailed? {
        return false;
      }
      if rwlock == Held {
        rwlock := Stuck;
        return false;
      }
      match i {
        case FromSite(m, e) => ok := SiteReply(m, e);
        case FromClient(line, text, e) => ok := ClientLine(line, text, e);
        case _ => return i.Nothing?;
      }
    }

    /** The data thread writes to the client, once the lock is free. */
    method WriteOfData(text: string, r: Sending, ghost over: bool)
      modifies `out, `rwlock
      ensures View(over) == Sessions.WriteOfData(config, old(View(over)), text, r)
    {
      if datathread.Some? && rwlock == Free {
        var ok := WriteClient(text, DataThread, r);
      }
    }

    /** Other sessions edit the lists. */
    method OthersEdit(b: Book, ghost over: bool)
      requires Apart()
      modifies `book, Shared()
      ensures book == BookNow() && View(over) == old(View(over)).(book := b)
    {
      lists.Become(b.rights);
      entrylist.List := b.entries;
      book := BookNow();
    }

    /** What other threads do meanwhile. */
    method Meanwhile(i: Input, ghost over: bool)
      requires Consistent() && ByOthers(i)
      modifies `out, `rwlock, `admin_msg, `book, Shared()
      ensures FlagsInOrder() && book == BookNow() && View(over) == Sessions.Meanwhile(config, old(View(over)), i)
    {
      if i.DataWrite? {
        WriteOfData(i.text, i.result, over);
      } else if i.OtherSessions? {
        OthersEdit(i.book, over);
      } else {
        if datathread.Some? {
          admin_msg := i.text;
        }
      }
    }

    /** The loop; others go on when it has ended. */
    method MainLoop(ins: seq<Input>) returns (over: bool)
      requires Valid(false)
      modifies this, Shared()
      ensures Valid(over) && View(over) == Run(config, old(View(false)), ins)
    {
      over := false;
      for n := 0 to |ins|
        invariant Valid(over)
        invariant Run(config, View(over), ins[n..]) == Run(config, old(View(false)), ins)
      {
        assert ins[n..][1..] == ins[n + 1..];
        StepGood(config, View(over), ins[n]);
        if ByOthers(ins[n]) {
          Meanwhile(ins[n], over);
        } else if !over {
          var ok := Turn(ins[n]);
          over := !ok;
        }
      }
      assert ins[|ins|..] == [];
    }

    /** The destructor. */
    method Destroy(join: bool)
      modifies `datathread, `counts
      ensures View(true) == Destroyed(old(View(true)), join)
    {
      var ok := DeleteDataThread(join);
    }

    /** The end of `makethread`: the object is deleted, if its thread gets that far. */
    method Finish(last: Last, ghost over: bool) returns (ended: bool)
      requires Inv(config, View(over))
      modifies `datathread, `counts
      ensures rwlock == Free ==> ended
      ensures ended ==> counts.created == counts.freed && counts.launched == counts.joined + counts.unjoined
      ensures counts.launched <= counts.accepted
    {
      if rwlock == Stuck || (rwlock == Held && last == Waits && datathread.Some?) {
        return false;
      }
      Destroy(last == Joined);
      return true;
    }
  }

  /** The life of a connection: the main loop, then the destructor. Nothing of the first site is written
      after a relink, where connections are bounced the site address is not shown, and there are no more
      data threads than commands that asked for one, all of that whatever comes in. Every data thread
      object is freed and every data thread joined, barring errors of the join, if the connection ends;
      and it does end unless a `Write` has kept the lock. */
  method MakeThread(config: Setup, lists: Lists, entrylist: StringList, ins: seq<Input>, last: Last)
    returns (out: seq<Item>, counts: Counts, lock: Latch, ended: bool)
    requires lists.Apart() && entrylist !in {lists.adminlist, lists.sslexcludelist, lists.fxpfromsitelist, lists.fxptositelist}
    modifies lists.fpwhitelist, lists.whitelist, lists.adminlist, lists.sslexcludelist, lists.fxpfromsitelist, lists.fxptositelist, entrylist
    ensures counts.launched <= counts.accepted && Isolated(out)
    ensures config.traffic_bnc && !config.debug && '(' in config.mark ==>
      forall k | 0 <= k < |out| :: out[k].ToClient? ==> !Contains(out[k].text, config.mark)
    ensures ended ==> counts.created == counts.freed && counts.launched == counts.joined + counts.unjoined
    ensures lock == Free ==> ended
  {
    var connection := new ControlThread(config, lists, entrylist);
    var over := connection.MainLoop(ins);
    out, lock := connection.out, connection.rwlock;
    NeverShown(config, connection.View(over));
    ended := connection.Finish(last, over);
    counts := connection.counts;
  }

  lemma NeverShown(g: Setup, s: Session)
    requires GoodOutput(g, s)
    ensures g.traffic_bnc && !g.debug && '(' in g.mark ==> forall k | 0 <= k < |s.out| :: s.out[k].ToClient? ==> !Contains(s.out[k].text, g.mark)
  {
    if g.traffic_bnc && !g.debug && '(' in g.mark {
      forall k | 0 <= k < |s.out| && s.out[k].ToClient? ensures !Contains(s.out[k].text, g.mark) {
        NotShown(g, s.out[k].text);
      }
    }
  }
}
