/** The data thread of src/datathread.cc up to the relay: connecting both ends, choosing TLS for
    each, and the transfer policy. */
module DataThreads {
  import opened Strings
  import opened StringLists
  import opened ListFiles
  import opened Whitelists
  import opened FpWhitelists

  datatype Settings = Settings(
    enforce_tls: bool,
    enforce_tls_fxp: bool,
    use_ssl_exclude: bool,
    use_fxpiplist: bool,
    fp_new_ip_msg: bool,
    use_fxpfromsite_list: bool,
    use_fxptosite_list: bool,
    translate_nosslfxp: bool,
    ssl_forward: bool,
    ssl_relink: bool,
    fp_msg_nick: string,
    connect_ip: string,
    listen_ip: string)

  // The policy

  /** What the global lists say at the time of a transfer. */
  datatype Rights = Rights(
    fps: seq<FpEntry>,
    ips: seq<FxpEntry>,
    hashing: Hashing,
    admins: seq<string>,
    sslexclude: seq<string>,
    fromsite: seq<string>,
    tosite: seq<string>)

  /** The text "", "download" or "upload". */
  datatype Direction = Unset | Download | Upload

  datatype Transfer = Transfer(
    peer: string,        // other end of the client connection
    clientip: string,    // address of the control connection
    user: string,
    fp: string,
    down: Direction,     // the direction as read for the download rule
    up: Direction,       // and as read again for the upload rule
    tls: bool,           // PROT P over a TLS session
    relinked: bool)

  predicate TlsExempt(g: Settings, r: Rights, t: Transfer) {
    (g.use_ssl_exclude && t.user in r.sslexclude) || t.relinked
  }

  predicate TrustedPeer(r: Rights, t: Transfer, dirlist_ip: string) {
    Known(r.fps, t.fp) || t.user in r.admins || Listed(r.ips, r.hashing.Key(t.peer)) || t.peer == dirlist_ip
  }

  /** The rules that do not look at where the peer is. */
  predicate AllowedAnywhere(g: Settings, r: Rights, t: Transfer) {
    var fxp := t.peer != t.clientip;
    && (g.enforce_tls && (fxp ==> g.enforce_tls_fxp) ==> t.tls || TlsExempt(g, r, t))
    && (fxp && t.down == Download && g.use_fxpfromsite_list ==> t.user in r.fromsite)
    && (fxp && t.up == Upload && g.use_fxptosite_list ==> t.user in r.tosite)
  }

  /** Which transfers may be relayed. */
  predicate Allowed(g: Settings, r: Rights, t: Transfer, dirlist_ip: string) {
    && AllowedAnywhere(g, r, t)
    && (t.peer != t.clientip && g.use_fxpiplist ==> TrustedPeer(r, t, dirlist_ip))
  }

  // What the policy comes to, in terms of the lists and the transfer

  /** A direct transfer is refused for want of TLS only, where that is enforced, and then not to a user whom
      the exclude list or a relink exempts. */
  lemma DirectTransferExactly(g: Settings, r: Rights, t: Transfer, dirlist_ip: string)
    requires t.peer == t.clientip
    ensures Allowed(g, r, t, dirlist_ip) <==>
      !(g.enforce_tls && !t.tls && !t.relinked && !(g.use_ssl_exclude && exists u | u in r.sslexclude :: u == t.user))
  {
  }

  /** A transfer with a foreign peer is refused for its address, for want of TLS where that is enforced for
      such transfers, or for the list of its direction, and for nothing else. */
  lemma ForeignTransferExactly(g: Settings, r: Rights, t: Transfer, dirlist_ip: string)
    requires t.peer != t.clientip
    ensures Allowed(g, r, t, dirlist_ip) <==>
      && !(g.use_fxpiplist && t.peer != dirlist_ip
           && (forall e | e in r.fps :: e.fp != t.fp)
           && (forall e | e in r.ips :: e.ip != if r.hashing.enabled then r.hashing.digest(t.peer) else t.peer)
           && (forall u | u in r.admins :: u != t.user))
      && !(g.enforce_tls && g.enforce_tls_fxp && !t.tls && !t.relinked
           && !(g.use_ssl_exclude && exists u | u in r.sslexclude :: u == t.user))
      && !(t.down == Download && g.use_fxpfromsite_list && forall u | u in r.fromsite :: u != t.user)
      && !(t.up == Upload && g.use_fxptosite_list && forall u | u in r.tosite :: u != t.user)
  {
  }

  /** An entry of one of the lists, or the first listing, speaks for the peer. */
  ghost predicate SpokenFor(t: Transfer, r: Rights, dirlist_ip: string) {
    (exists e | e in r.fps :: e.fp == t.fp) || (exists e | e in r.ips :: e.ip == r.hashing.Key(t.peer))
    || t.user in r.admins || t.peer == dirlist_ip
  }

  /** Each of the four that speak for a peer is enough: a fingerprint that is listed, an address that is listed,
      an admin, or the address of the first listing. What is left is up to the other rules. */
  lemma SpokenForIsEnough(g: Settings, r: Rights, t: Transfer, dirlist_ip: string)
    requires SpokenFor(t, r, dirlist_ip)
    ensures Allowed(g, r, t, dirlist_ip) <==> AllowedAnywhere(g, r, t)
  {
  }

  /** And one of them is needed, where the address list is in use. */
  lemma UnspokenForIsRefused(g: Settings, r: Rights, t: Transfer, dirlist_ip: string)
    requires g.use_fxpiplist && t.peer != t.clientip && !SpokenFor(t, r, dirlist_ip)
    ensures !Allowed(g, r, t, dirlist_ip)
  {
  }

  /** What a data thread writes to the control connection. */
  datatype Reply =
    | PassiveReply(text: string)
    | NoPassiveConnection
    | UseSsl
    | UseSslFxp
    | UntrustedFxp(active: bool, fp: string)
    | FxpNotAllowed(active: bool, direction: Direction)
  {
    function Text(): string {
      match this
      case PassiveReply(text) => text
      case NoPassiveConnection => "425 Can't open passive connection!\r\n"
      case UseSsl => "427 Use SSL!\r\n"
      case UseSslFxp => "427 Use SSL FXP!\r\n"
      case UntrustedFxp(active, fp) => "427 " + (if active then "active" else "passive") + " FXP fp: " + fp + " - not allowed!\r\n"
      case FxpNotAllowed(active, direction) =>
        "427 " + (if active then "active" else "passive") + " FXP (" + (if direction == Download then "dl" else "ul") + ") not allowed!\r\n"
    }
  }

  /** What a refused client is told: one answer for each rule, the earlier rule first. */
  function Refusal(g: Settings, r: Rights, t: Transfer, dirlist_ip: string, active: bool): Reply {
    if t.peer == t.clientip then UseSsl
    else if g.use_fxpiplist && !TrustedPeer(r, t, dirlist_ip) then UntrustedFxp(active, t.fp)
    else if g.enforce_tls && g.enforce_tls_fxp && !t.tls && !TlsExempt(g, r, t) then UseSslFxp
    else FxpNotAllowed(active, if t.down == Download && g.use_fxpfromsite_list && t.user !in r.fromsite then Download else Upload)
  }

  lemma RefusalWords(active: bool, fp: string)
    ensures var kind := if active then "active" else "passive";
      && UseSsl.Text() == "427 Use SSL!\r\n" && UseSslFxp.Text() == "427 Use SSL FXP!\r\n"
      && UntrustedFxp(active, fp).Text() == "427 " + kind + " FXP fp: " + fp + " - not allowed!\r\n"
      && FxpNotAllowed(active, Download).Text() == "427 " + kind + " FXP (" + "dl" + ") not allowed!\r\n"
      && FxpNotAllowed(active, Upload).Text() == "427 " + kind + " FXP (" + "ul" + ") not allowed!\r\n"
  {
  }

  /** A refused client is told the first of the rules that it breaks, in the order in which they are applied. */
  lemma RefusalNamesTheRule(g: Settings, r: Rights, t: Transfer, dirlist_ip: string, active: bool)
    requires !Allowed(g, r, t, dirlist_ip)
    ensures var kind := if active then "active" else "passive";
      var stranger := !SpokenFor(t, r, dirlist_ip);
      var exempt := t.relinked || (g.use_ssl_exclude && t.user in r.sslexclude);
      Refusal(g, r, t, dirlist_ip, active).Text() ==
        if t.peer == t.clientip then "427 Use SSL!\r\n"
        else if g.use_fxpiplist && stranger then "427 " + kind + " FXP fp: " + t.fp + " - not allowed!\r\n"
        else if g.enforce_tls && g.enforce_tls_fxp && !t.tls && !exempt then "427 Use SSL FXP!\r\n"
        else if t.down == Download && g.use_fxpfromsite_list && t.user !in r.fromsite then "427 " + kind + " FXP (" + "dl" + ") not allowed!\r\n"
        else "427 " + kind + " FXP (" + "ul" + ") not allowed!\r\n"
  {
    assert TrustedPeer(r, t, dirlist_ip) <==> SpokenFor(t, r, dirlist_ip);
    RefusalWords(active, t.fp);
  }

  /** Whether the address of the peer is looked up for the fingerprint, and noted if new. */
  predicate NotesIp(g: Settings, t: Transfer) {
    t.peer != t.clientip && g.use_fxpiplist && g.fp_new_ip_msg
  }

  /** The first address that a listing came from or went to is kept. */
  function DirlistIp(dirlist_ip: string, listing: bool, peer: string): string {
    if dirlist_ip == "" && listing then peer else dirlist_ip
  }

  ghost predicate GrantsNoLess(r: Rights, s: Rights) {
    && r.hashing == s.hashing
    && (forall e | e in r.fps :: Known(s.fps, e.fp))
    && (forall e | e in r.ips :: Listed(s.ips, e.ip))
    && (forall u | u in r.admins :: u in s.admins)
    && (forall u | u in r.sslexclude :: u in s.sslexclude)
    && (forall u | u in r.fromsite :: u in s.fromsite)
    && (forall u | u in r.tosite :: u in s.tosite)
  }

  /** Extending the lists never refuses what was allowed. */
  lemma MoreRightsAllowMore(g: Settings, r: Rights, s: Rights, t: Transfer, dirlist_ip: string)
    requires GrantsNoLess(r, s) && Allowed(g, r, t, dirlist_ip)
    ensures Allowed(g, s, t, dirlist_ip)
  {
    if Known(r.fps, t.fp) {
      var e :| e in r.fps && e.fp == t.fp;
      assert Known(s.fps, e.fp);
    }
    if Listed(r.ips, r.hashing.Key(t.peer)) {
      var e :| e in r.ips && e.ip == r.hashing.Key(t.peer);
      assert Listed(s.ips, e.ip);
    }
  }

  /** No rule of the policy is in force under the settings `h` that is not under `g`. */
  predicate NoStricter(g: Settings, h: Settings) {
    && (h.enforce_tls ==> g.enforce_tls)
    && (h.enforce_tls && h.enforce_tls_fxp ==> g.enforce_tls_fxp)
    && (h.enforce_tls && g.use_ssl_exclude ==> h.use_ssl_exclude)
    && (h.use_fxpiplist ==> g.use_fxpiplist)
    && (h.use_fxpfromsite_list ==> g.use_fxpfromsite_list)
    && (h.use_fxptosite_list ==> g.use_fxptosite_list)
  }

  /** Rights and a transfer that a stricter policy refuses. */
  function Objection(g: Settings, h: Settings): (Rights, Transfer) {
    var none := NoRights();
    var direct := Transfer("client", "client", "user", "", Unset, Unset, false, false);
    var fxp := Transfer("site", "client", "user", "", Unset, Unset, true, false);
    if h.enforce_tls && !g.enforce_tls then (none, direct)
    else if h.enforce_tls && h.enforce_tls_fxp && !g.enforce_tls_fxp then (none.(admins := ["user"]), fxp.(tls := false))
    else if h.enforce_tls && g.use_ssl_exclude && !h.use_ssl_exclude then (none.(sslexclude := ["user"]), direct)
    else if h.use_fxpiplist && !g.use_fxpiplist then (none, fxp)
    else if h.use_fxpfromsite_list && !g.use_fxpfromsite_list then (none.(admins := ["user"]), fxp.(down := Download))
    else (none.(admins := ["user"]), fxp.(up := Upload))
  }

  /** Settings that put a rule in force that was not refuse something that was allowed, */
  lemma StricterRefuses(g: Settings, h: Settings, hashing: Hashing)
    requires !NoStricter(g, h)
    ensures var (r, t) := Objection(g, h);
      Allowed(g, r.(hashing := hashing), t, "") && !Allowed(h, r.(hashing := hashing), t, "")
  {
    var (r, t) := Objection(g, h);
    assert t.user == "user" && "user" in ["user"];
    assert !Known(r.fps, t.fp) && !Listed(r.ips, hashing.Key(t.peer));
  }

  /** and others do not. */
  lemma MilderAllowsMore(g: Settings, h: Settings, r: Rights, t: Transfer, dirlist_ip: string)
    requires NoStricter(g, h) && Allowed(g, r, t, dirlist_ip)
    ensures Allowed(h, r, t, dirlist_ip)
  {
  }

  /** Noting a new address of some fingerprint changes no decision, for any transfer of any session. */
  lemma NotingDecidesNothing(g: Settings, r: Rights, h: Hashing, fp: string, ip: string, t: Transfer, dirlist_ip: string)
    ensures Allowed(g, r.(fps := CheckedIp(h, r.fps, fp, ip).0), t, dirlist_ip) == Allowed(g, r, t, dirlist_ip)
  {
    CheckIpKeepsFingerprints(h, r.fps, fp, ip);
  }

  // The direction that is relayed

  /** What the rule for a direction asks for. */
  predicate RuleMet(g: Settings, r: Rights, t: Transfer, way: Direction) {
    t.peer != t.clientip ==>
      && (way == Download && g.use_fxpfromsite_list ==> t.user in r.fromsite)
      && (way == Upload && g.use_fxptosite_list ==> t.user in r.tosite)
  }

  /** A transfer between sites by a user that no list knows. */
  function Stranger(down: Direction, up: Direction): Transfer {
    Transfer("site", "client", "user", "", down, up, false, false)
  }

  function NoRights(): Rights {
    Rights([], [], Hashing(false, (s: string) => s), [], [], [], [])
  }

  lemma StrangerPasses(down: Direction, up: Direction, way: Direction)
    requires (way == Download && down != Download) || (way == Upload && up != Upload)
    ensures var g := Settings(false, false, false, false, false, way == Download, way == Upload, false, false, false, "", "", "");
      Allowed(g, NoRights(), Stranger(down, up), "") && !RuleMet(g, NoRights(), Stranger(down, up), way)
  {
  }

  /** An accepted transfer is sure to meet the rule of the direction that it relays exactly when that
      rule saw the same direction. */
  lemma RelayedDirectionIsChecked(down: Direction, up: Direction, way: Direction)
    ensures (way == Download ==> down == Download) && (way == Upload ==> up == Upload)
       <==> (forall g: Settings, r: Rights, t: Transfer, d: string | t.down == down && t.up == up && Allowed(g, r, t, d) :: RuleMet(g, r, t, way))
  {
    if (way == Download && down != Download) || (way == Upload && up != Upload) {
      StrangerPasses(down, up, way);
    }
  }

  // All transfers of a session, one at a time

  /** A transfer that got as far as the policy, with what the lists said then. */
  datatype Visit = Visit(rights: Rights, t: Transfer, listing: bool)

  /** `dirlist_ip` after some transfers. */
  function DirlistAfter(dirlist_ip: string, vs: seq<Visit>): string {
    if vs == [] then dirlist_ip
    else
      var v := vs[|vs| - 1];
      DirlistIp(DirlistAfter(dirlist_ip, vs[..|vs| - 1]), v.listing, v.t.peer)
  }

  /** The first listing with an address, or `|vs|`. */
  function FirstListing(vs: seq<Visit>): (i: nat)
    ensures i <= |vs|
  {
    if vs == [] || (vs[0].listing && vs[0].t.peer != "") then 0 else 1 + FirstListing(vs[1..])
  }

  predicate AllowedAt(g: Settings, vs: seq<Visit>, i: nat)
    requires i < |vs|
  {
    Allowed(g, vs[i].rights, vs[i].t, DirlistAfter("", vs[..i + 1]))
  }

  /** The address that a session remembers is that of its first listing, whatever came later. */
  lemma {:induction false} DirlistIsFirstListing(vs: seq<Visit>)
    ensures DirlistAfter("", vs) == if FirstListing(vs) < |vs| then vs[FirstListing(vs)].t.peer else ""
    ensures FirstListing(vs) < |vs| ==> vs[FirstListing(vs)].listing && vs[FirstListing(vs)].t.peer != ""
  {
    if vs != [] {
      var init := vs[..|vs| - 1];
      DirlistIsFirstListing(init);
      FirstListingOfPrefix(vs, |vs| - 1);
      FirstListingFound(vs);
    }
  }

  lemma {:induction false} FirstListingOfPrefix(vs: seq<Visit>, n: nat)
    requires n <= |vs|
    ensures FirstListing(vs[..n]) == if FirstListing(vs) < n then FirstListing(vs) else n
  {
    if n > 0 && !(vs[0].listing && vs[0].t.peer != "") {
      assert vs[..n][1..] == vs[1..][..n - 1];
      FirstListingOfPrefix(vs[1..], n - 1);
    }
  }

  lemma {:induction false} FirstListingFound(vs: seq<Visit>)
    ensures var i := FirstListing(vs);
      && (i < |vs| ==> vs[i].listing && vs[i].t.peer != "")
      && forall j | 0 <= j < i :: !(vs[j].listing && vs[j].t.peer != "")
  {
    if vs != [] && !(vs[0].listing && vs[0].t.peer != "") {
      FirstListingFound(vs[1..]);
    }
  }

  /** Once set, the address never changes. */
  lemma {:induction false} DirlistWrittenOnce(vs: seq<Visit>, i: nat)
    requires i <= |vs| && DirlistAfter("", vs[..i]) != ""
    ensures DirlistAfter("", vs) == DirlistAfter("", vs[..i])
    decreases |vs|
  {
    if i == |vs| {
      assert vs[..i] == vs;
    } else {
      assert vs[..|vs| - 1][..i] == vs[..i];
      DirlistWrittenOnce(vs[..|vs| - 1], i);
    }
  }

  predicate Unlisted(v: Visit) {
    && !Known(v.rights.fps, v.t.fp)
    && v.t.user !in v.rights.admins
    && !Listed(v.rights.ips, v.rights.hashing.Key(v.t.peer))
  }

  /** With the address list in use, a transfer with a foreign peer that neither the fingerprint nor the
      address nor the user speaks for is relayed only if its peer is that of the first listing. */
  lemma FirstListingRule(g: Settings, vs: seq<Visit>, i: nat)
    requires i < |vs| && AllowedAt(g, vs, i)
    requires g.use_fxpiplist && vs[i].t.peer != vs[i].t.clientip && vs[i].t.peer != "" && Unlisted(vs[i])
    ensures FirstListing(vs) <= i && vs[i].t.peer == vs[FirstListing(vs)].t.peer
  {
    var seen := vs[..i + 1];
    DirlistIsFirstListing(seen);
    FirstListingOfPrefix(vs, i + 1);
  }

  /** The first listing itself always meets the address rule, even with a foreign peer, because its
      address is recorded before the rule is applied; only TLS and the direction lists can refuse it. */
  lemma FirstListingPasses(g: Settings, vs: seq<Visit>, i: nat)
    requires i < |vs| && i == FirstListing(vs)
    ensures AllowedAt(g, vs, i) <==> AllowedAnywhere(g, vs[i].rights, vs[i].t)
  {
    RemembersItself(vs, i);
  }

  lemma RemembersItself(vs: seq<Visit>, i: nat)
    requires i < |vs| && i == FirstListing(vs)
    ensures DirlistAfter("", vs[..i + 1]) == vs[i].t.peer
  {
    FirstListingOfPrefix(vs, i + 1);
    DirlistIsFirstListing(vs[..i + 1]);
  }

  // TLS

  /** What the control thread handed to the data thread. */
  datatype Protection = Protection(usingssl: bool, sslprotp: bool, relinked: bool, cpsvcmd: bool, sscncmd: bool)

  predicate SiteTls(g: Settings, p: Protection) {
    !g.translate_nosslfxp && ((!g.ssl_forward && p.usingssl && p.sslprotp && !p.relinked) || (p.relinked && g.ssl_relink))
  }

  predicate ClientTls(g: Settings, p: Protection) {
    (p.usingssl && p.sslprotp && (p.relinked || !g.ssl_forward)) || (p.relinked && g.ssl_relink)
  }

  /** Which of the two ends get TLS. Without forwarding, relinking or translation both do exactly under PROT P;
      with forwarding and no relink none does here; after a relink the site follows the setting for the
      relink site and the client has TLS for that or for PROT P; translation takes TLS from the site only.
      The client of a site with TLS has it too. */
  lemma LegsExactly(g: Settings, p: Protection)
    ensures var prot := p.usingssl && p.sslprotp;
      && (!g.ssl_forward && !p.relinked && !g.translate_nosslfxp ==> (SiteTls(g, p) <==> prot) && (ClientTls(g, p) <==> prot))
      && (!g.ssl_forward && !p.relinked && g.translate_nosslfxp ==> !SiteTls(g, p) && (ClientTls(g, p) <==> prot))
      && (g.ssl_forward && !p.relinked ==> !SiteTls(g, p) && !ClientTls(g, p))
      && (p.relinked ==> (SiteTls(g, p) <==> g.ssl_relink && !g.translate_nosslfxp) && (ClientTls(g, p) <==> prot || g.ssl_relink))
      && (SiteTls(g, p) ==> ClientTls(g, p))
  {
  }

  const NO_FINGERPRINT := "NO-FINGERPRINT"

  /** What the reads of the shared variables give, in the order in which they are made. The control
      thread may write in between; module Handoff says what that can lead to. */
  datatype Readings = Readings(
    role: bool,          // dirlisting, for the handshake
    listing: bool,       // dirlisting, for the address
    down: Direction,     // direction, for the download rule
    up: Direction,       // direction, for the upload rule
    relay: Direction)    // direction, for the relay

  /** Answers of the system and of the other ends, in the order in which they are needed. */
  datatype Net = Net(
    siteSock: bool,
    siteBind: bool,
    siteConnect: bool,
    listenSock: bool,
    reuse: bool,
    tries: nat -> bool,        // bind, option and listen on the k-th try
    written: bool,             // the 227 reply
    accepted: Option<string>,  // address of the accepted client
    clientSock: bool,
    clientBind: bool,
    clientConnect: bool,
    siteHandshake: bool,
    direction: bool,           // direction came before a quit
    clientHandshake: Option<string>, // fingerprint of the client
    seen: Readings,
    writable: bool)            // the fingerprint list file

  predicate SiteLinked(g: Settings, net: Net) {
    net.siteSock && (g.connect_ip != "" ==> net.siteBind) && net.siteConnect
  }

  predicate Listening(net: Net) {
    net.tries(1) || net.tries(2) || net.tries(3)
  }

  predicate Linked(g: Settings, active: bool, told: bool, net: Net) {
    && SiteLinked(g, net)
    && if active then net.clientSock && (g.listen_ip != "" ==> net.clientBind) && net.clientConnect
       else net.listenSock && net.reuse && Listening(net) && told && net.written && net.accepted.Some?
  }

  predicate Secured(g: Settings, p: Protection, net: Net) {
    (SiteTls(g, p) ==> net.siteHandshake) && net.direction && (ClientTls(g, p) ==> net.clientHandshake.Some?)
  }

  /** Both ends connected, the handshakes done and the direction known. `told` is whether `Write` lets
      the 227 reply through. */
  predicate Connected(g: Settings, p: Protection, active: bool, told: bool, net: Net) {
    Linked(g, active, told, net) && Secured(g, p, net)
  }

  /** Everything that is asked of the system and of the two ends has to go well, and nothing more. */
  lemma ConnectedExactly(g: Settings, p: Protection, active: bool, told: bool, net: Net)
    ensures Connected(g, p, active, told, net) <==>
      && net.siteSock && (g.connect_ip == "" || net.siteBind) && net.siteConnect
      && (active ==> net.clientSock && (g.listen_ip == "" || net.clientBind) && net.clientConnect)
      && (!active ==> net.listenSock && net.reuse && (exists k | 1 <= k <= 3 :: net.tries(k)) && told && net.written && net.accepted.Some?)
      && (SiteTls(g, p) ==> net.siteHandshake) && net.direction && (ClientTls(g, p) ==> net.clientHandshake.Some?)
  {
    if exists k | 1 <= k <= 3 :: net.tries(k) {
      var k :| 1 <= k <= 3 && net.tries(k);
      assert k == 1 || k == 2 || k == 3;
    }
  }

  /** The part of the control thread that its data thread uses. `mark` is the text that `Write` refuses
      to send, if it looks for one. */
  class Control {
    const mark: Option<string>
    var dirlist_ip: string
    var admin_msg: string
    var sent: seq<Reply>

    constructor (mark: Option<string>)
      ensures this.mark == mark && dirlist_ip == "" && admin_msg == "" && sent == []
    {
      this.mark := mark;
      dirlist_ip, admin_msg, sent := "", "", [];
    }

    /** Whether a reply gets past the check for the site address. */
    predicate Passes(s: Reply) {
      mark.Some? ==> !Shows(s.Text(), mark.value)
    }

    /** What is sent of a reply. */
    function Told(s: Reply): seq<Reply> {
      if Passes(s) then [s] else []
    }

    method Write(s: Reply) returns (ok: bool)
      modifies `sent
      ensures ok == Passes(s)
      ensures sent == old(sent) + Told(s)
    {
      if !Passes(s) {
        return false;
      }
      sent := sent + [s];
      return true;
    }
  }

  /** The lists that all threads share. */
  class Lists {
    const fpwhitelist: FpWhitelist
    const whitelist: Whitelist
    const adminlist: StringList
    const sslexcludelist: StringList
    const fxpfromsitelist: StringList
    const fxptositelist: StringList

    constructor (fp: FpWhitelist, wl: Whitelist, admin: StringList, sslexclude: StringList, fromsite: StringList, tosite: StringList)
      ensures fpwhitelist == fp && whitelist == wl && adminlist == admin
      ensures sslexcludelist == sslexclude && fxpfromsitelist == fromsite && fxptositelist == tosite
    {
      fpwhitelist, whitelist, adminlist := fp, wl, admin;
      sslexcludelist, fxpfromsitelist, fxptositelist := sslexclude, fromsite, tosite;
    }

    /** What the lists say now. */
    function Now(): (r: Rights)
      reads fpwhitelist, whitelist, adminlist, sslexcludelist, fxpfromsitelist, fxptositelist
    {
      Rights(fpwhitelist.List, whitelist.List, whitelist.hashing, adminlist.List, sslexcludelist.List,
             fxpfromsitelist.List, fxptositelist.List)
    }

    /** The lists are different ones. */
    predicate Apart() {
      && adminlist != sslexcludelist && adminlist != fxpfromsitelist && adminlist != fxptositelist
      && sslexcludelist != fxpfromsitelist && sslexcludelist != fxptositelist && fxpfromsitelist != fxptositelist
    }

    /** What others make of the lists. */
    method Become(r: Rights)
      requires Apart()
      modifies fpwhitelist, whitelist, adminlist, sslexcludelist, fxpfromsitelist, fxptositelist
      ensures Now() == r
    {
      fpwhitelist.hashing := r.hashing;
      whitelist.hashing := r.hashing;
      fpwhitelist.List := r.fps;
      whitelist.List := r.ips;
      adminlist.List := r.admins;
      sslexcludelist.List := r.sslexclude;
      fxpfromsitelist.List := r.fromsite;
      fxptositelist.List := r.tosite;
    }
  }

  datatype Outcome = NotConnected | Refused | Relaying

  class DataThread {
    const username: string
    const clientip: string
    const activeip: string
    const activecon: bool
    const passivecmd: string
    const usingssl: bool
    const sslprotp: bool
    const relinked: bool
    const cpsvcmd: bool
    const sscncmd: bool
    const config: Settings
    const controlthread: Control
    const lists: Lists
    var fp: string
    var sitessl: bool
    var clientssl: bool
    var clientMethod: bool

    constructor (user: string, cip: string, aip: string, active: bool, pcmd: string, p: Protection, g: Settings, ct: Control, l: Lists)
      ensures username == user && clientip == cip && activeip == aip && activecon == active && passivecmd == pcmd
      ensures Protected() == p && config == g && controlthread == ct && lists == l
      ensures fp == NO_FINGERPRINT && !sitessl && !clientssl && !clientMethod
    {
      username, clientip, activeip, activecon, passivecmd := user, cip, aip, active, pcmd;
      usingssl, sslprotp, relinked, cpsvcmd, sscncmd := p.usingssl, p.sslprotp, p.relinked, p.cpsvcmd, p.sscncmd;
      config, controlthread, lists := g, ct, l;
      fp, sitessl, clientssl, clientMethod := NO_FINGERPRINT, false, false, false;
    }

    function Protected(): Protection {
      Protection(usingssl, sslprotp, relinked, cpsvcmd, sscncmd)
    }

    /** The transfer as the policy sees it. */
    function Seen(peer: string, fp: string, seen: Readings): Transfer {
      Transfer(peer, clientip, username, fp, seen.down, seen.up, sslprotp && usingssl, relinked)
    }

    ghost predicate Accepts(t: Transfer)
      reads controlthread, lists.fpwhitelist, lists.whitelist, lists.adminlist, lists.sslexcludelist, lists.fxpfromsitelist, lists.fxptositelist
    {
      Allowed(config, lists.Now(), t, controlthread.dirlist_ip)
    }

    ghost function Answer(t: Transfer, active: bool): Reply
      reads controlthread, lists.fpwhitelist, lists.whitelist, lists.adminlist, lists.sslexcludelist, lists.fxpfromsitelist, lists.fxptositelist
    {
      Refusal(config, lists.Now(), t, controlthread.dirlist_ip, active)
    }

    /** The list after the address was noted, if it is. */
    ghost function Noted(t: Transfer): seq<FpEntry>
      reads lists.fpwhitelist
    {
      if NotesIp(config, t) then CheckedIp(lists.fpwhitelist.hashing, lists.fpwhitelist.List, t.fp, t.peer).0
      else lists.fpwhitelist.List
    }

    /** The message for the admins, if a known fingerprint came from a new address. */
    ghost function AdminMsg(t: Transfer): string
      reads lists.fpwhitelist, controlthread
    {
      var l := lists.fpwhitelist;
      if NotesIp(config, t) && CheckedIp(l.hashing, l.List, t.fp, t.peer).1 == 1
      then
        var msg := " new ip: " + l.List[Position(l.List, t.fp)].comment + " [" + t.fp + "] - " + t.peer;
        "site msg " + config.fp_msg_nick + msg + "\r\n"
      else controlthread.admin_msg
    }

    /** A known fingerprint that comes with a new foreign address gets it, and the admins hear of it, where both
        settings ask for that; in no other case does anything happen. */
    lemma NotesExactly(t: Transfer)
      ensures var l := lists.fpwhitelist;
        var (after, code) := CheckedIp(l.hashing, l.List, t.fp, t.peer);
        if t.peer != t.clientip && config.use_fxpiplist && config.fp_new_ip_msg && code == 1
        then Noted(t) == after
             && AdminMsg(t) == "site msg " + config.fp_msg_nick + (" new ip: " + l.List[Position(l.List, t.fp)].comment
                                                                   + " [" + t.fp + "] - " + t.peer) + "\r\n"
        else Noted(t) == l.List && AdminMsg(t) == controlthread.admin_msg
    {
    }

    /** Up to three tries to listen. */
    method Listen(tries: nat -> bool) returns (ok: bool)
      ensures ok == (tries(1) || tries(2) || tries(3))
    {
      var trie := 1;
      var pasv_error := false;
      while trie < 4
        invariant 1 <= trie <= 4
        invariant trie < 4 ==> !pasv_error
        invariant forall k | 1 <= k < trie :: !tries(k)
        invariant trie == 4 ==> pasv_error
        decreases 4 - trie
      {
        if !tries(trie) {
          pasv_error := true;
        }
        trie := trie + 1;
        if pasv_error && trie < 4 {
          pasv_error := false;
        } else {
          break;
        }
      }
      ok := !pasv_error;
    }

    /** Listed users and relinked sessions may do without TLS. */
    predicate IsExempt()
      reads lists.sslexcludelist
    {
      (config.use_ssl_exclude && username in lists.sslexcludelist.List) || relinked
    }

    /** Looks the address up for the fingerprint and leaves a message for the admins if it is new. */
    method NoteIp(peer: string, seen: Readings, writable: bool)
      requires peer != clientip && config.use_fxpiplist && config.fp_new_ip_msg
      modifies controlthread`admin_msg, lists.fpwhitelist`List, lists.fpwhitelist.disk
      ensures lists.fpwhitelist.List == old(Noted(Seen(peer, fp, seen)))
      ensures controlthread.admin_msg == old(AdminMsg(Seen(peer, fp, seen)))
      ensures forall g :: Known(lists.fpwhitelist.List, g) <==> Known(old(lists.fpwhitelist.List), g)
    {
      CheckIpKeepsFingerprints(lists.fpwhitelist.hashing, lists.fpwhitelist.List, fp, peer);
      var code, msg := lists.fpwhitelist.CheckIp(fp, peer, writable);
      if code == 1 {
        controlthread.admin_msg := "site msg " + config.fp_msg_nick + msg + "\r\n";
      }
    }

    /** The checks of a transfer that the client connected to. */
    method PassivePolicy(clip: string, seen: Readings, writable: bool) returns (ok: bool)
      modifies controlthread`sent, controlthread`admin_msg, lists.fpwhitelist`List, lists.fpwhitelist.disk
      ensures ok == old(Accepts(Seen(clip, fp, seen)))
      ensures controlthread.sent == old(controlthread.sent + (if ok then [] else controlthread.Told(Answer(Seen(clip, fp, seen), false))))
      ensures lists.fpwhitelist.List == old(Noted(Seen(clip, fp, seen)))
      ensures controlthread.admin_msg == old(AdminMsg(Seen(clip, fp, seen)))
    {
      ghost var (r, t, d) := (lists.Now(), Seen(clip, fp, seen), controlthread.dirlist_ip);
      if clip == clientip {
        if config.enforce_tls && (!sslprotp || !usingssl) {
          if !IsExempt() {
            var told := controlthread.Write(UseSsl);
            return false;
          }
        }
      } else {
        if config.use_fxpiplist {
          if config.fp_new_ip_msg {
            NoteIp(clip, seen, writable);
          }
          if !Known(lists.fpwhitelist.List, fp) && username !in lists.adminlist.List {
            if !Listed(lists.whitelist.List, lists.whitelist.hashing.Key(clip)) && username !in lists.adminlist.List {
              if clip != controlthread.dirlist_ip {
                var told := controlthread.Write(UntrustedFxp(false, fp));
                return false;
              }
            }
          }
        }
        assert config.use_fxpiplist ==> TrustedPeer(r, t, d);
        if config.enforce_tls && config.enforce_tls_fxp && (!sslprotp || !usingssl) {
          if !IsExempt() {
            var told := controlthread.Write(UseSslFxp);
            return false;
          }
        }
        if seen.down == Download {
          if config.use_fxpfromsite_list && username !in lists.fxpfromsitelist.List {
            var told := controlthread.Write(FxpNotAllowed(false, Download));
            return false;
          }
        }
        if seen.up == Upload {
          if config.use_fxptosite_list && username !in lists.fxptositelist.List {
            var told := controlthread.Write(FxpNotAllowed(false, Upload));
            return false;
          }
        }
      }
      return true;
    }

    /** The checks of a transfer for which the client was connected to. */
    method ActivePolicy(seen: Readings, writable: bool) returns (ok: bool)
      modifies controlthread`sent, controlthread`admin_msg, lists.fpwhitelist`List, lists.fpwhitelist.disk
      ensures ok == old(Accepts(Seen(activeip, fp, seen)))
      ensures controlthread.sent == old(controlthread.sent + (if ok then [] else controlthread.Told(Answer(Seen(activeip, fp, seen), true))))
      ensures lists.fpwhitelist.List == old(Noted(Seen(activeip, fp, seen)))
      ensures controlthread.admin_msg == old(AdminMsg(Seen(activeip, fp, seen)))
    {
      ghost var (r, t, d) := (lists.Now(), Seen(activeip, fp, seen), controlthread.dirlist_ip);
      if activeip == clientip {
        if config.enforce_tls && (!sslprotp || !usingssl) {
          if !IsExempt() {
            var told := controlthread.Write(UseSsl);
            return false;
          }
        }
      } else {
        if config.use_fxpiplist {
          if config.fp_new_ip_msg {
            NoteIp(activeip, seen, writable);
          }
          if !Known(lists.fpwhitelist.List, fp) && username !in lists.adminlist.List {
            if !Listed(lists.whitelist.List, lists.whitelist.hashing.Key(activeip)) && username !in lists.adminlist.List {
              if activeip != controlthread.dirlist_ip {
                var told := controlthread.Write(UntrustedFxp(true, fp));
                return false;
              }
            }
          }
        }
        assert config.use_fxpiplist ==> TrustedPeer(r, t, d);
        if config.enforce_tls && config.enforce_tls_fxp && (!sslprotp || !usingssl) {
          if !IsExempt() {
            var told := controlthread.Write(UseSslFxp);
            return false;
          }
        }
        if seen.down == Download {
          if config.use_fxpfromsite_list && username !in lists.fxpfromsitelist.List {
            var told := controlthread.Write(FxpNotAllowed(true, Download));
            return false;
          }
        }
        if seen.up == Upload {
          if config.use_fxptosite_list && username !in lists.fxptositelist.List {
            var told := controlthread.Write(FxpNotAllowed(true, Upload));
            return false;
          }
        }
      }
      return true;
    }

    /** The sockets of both ends; `clip` is the address of an accepted client. */
    method Connect(net: Net) returns (ok: bool, clip: string)
      modifies controlthread`sent
      ensures ok == Linked(config, activecon, controlthread.Passes(PassiveReply(passivecmd)), net)
      ensures ok && !activecon ==> Some(clip) == net.accepted
      ensures controlthread.sent == old(controlthread.sent) + Opening(net)
    {
      ok, clip := false, "";
      if !net.siteSock {
        return;
      }
      if config.connect_ip != "" {
        if !net.siteBind {
          return;
        }
      }
      if !net.siteConnect {
        return;
      }
      if !activecon {
        if !net.listenSock {
          return;
        }
        if !net.reuse {
          return;
        }
        var listening := Listen(net.tries);
        if !listening {
          var told := controlthread.Write(NoPassiveConnection);
          return;
        }
        var told := controlthread.Write(PassiveReply(passivecmd));
        if !told || !net.written {
          return;
        }
        if net.accepted.None? {
          return;
        }
        clip := net.accepted.value;
      } else {
        if !net.clientSock {
          return;
        }
        if config.listen_ip != "" {
          if !net.clientBind {
            return;
          }
        }
        if !net.clientConnect {
          return;
        }
      }
      ok := true;
    }

    /** What `Connect` writes to the client. */
    ghost function Opening(net: Net): seq<Reply> {
      if activecon || !SiteLinked(config, net) || !net.listenSock || !net.reuse then []
      else if !Listening(net) then controlthread.Told(NoPassiveConnection)
      else controlthread.Told(PassiveReply(passivecmd))
    }

    /** The handshakes of both ends, with the wait for the direction between them. */
    method Secure(net: Net) returns (ok: bool)
      requires !sitessl && !clientssl && fp == NO_FINGERPRINT
      modifies `sitessl, `clientssl, `clientMethod, `fp
      ensures ok == Secured(config, Protected(), net)
      ensures ok ==> sitessl == SiteTls(config, Protected()) && clientssl == ClientTls(config, Protected())
      ensures ok ==> clientMethod == ((cpsvcmd || sscncmd) && !net.seen.role)
      ensures ok ==> fp == Fingerprint(net) && Protects(net)
    {
      LegsExactly(config, Protected());
      if !config.translate_nosslfxp && ((!config.ssl_forward && usingssl && sslprotp && !relinked) || (relinked && config.ssl_relink)) {
        if !net.siteHandshake {
          return false;
        }
        sitessl := true;
      }
      if !net.direction {
        return false;
      }
      if (cpsvcmd || sscncmd) && !net.seen.role {
        clientMethod := true;
        if (usingssl && relinked && sslprotp) || (!config.ssl_forward && usingssl && sslprotp) || (relinked && config.ssl_relink) {
          if net.clientHandshake.None? {
            return false;
          }
          clientssl := true;
          fp := net.clientHandshake.value;
        }
      } else {
        clientMethod := false;
        if (usingssl && relinked && sslprotp) || (!config.ssl_forward && usingssl && sslprotp) || (relinked && config.ssl_relink) {
          if net.clientHandshake.None? {
            return false;
          }
          clientssl := true;
          fp := net.clientHandshake.value;
        }
      }
      return true;
    }

    /** What the legs of a transfer that has got this far are protected by: PROT P gives the client TLS, unless
        the data is just forwarded, and its fingerprint is then what the handshake gave. */
    ghost predicate Protects(net: Net)
      reads this
    {
      var prot := usingssl && sslprotp;
      && (prot && (!config.ssl_forward || relinked) ==> clientssl)
      && (!config.ssl_forward && !relinked && !config.translate_nosslfxp ==> (sitessl <==> prot) && (clientssl <==> prot))
      && (config.ssl_forward && !relinked ==> !sitessl && !clientssl)
      && (relinked ==> (sitessl <==> config.ssl_relink && !config.translate_nosslfxp) && (clientssl <==> prot || config.ssl_relink))
      && (sitessl ==> clientssl)
      && (if clientssl then net.clientHandshake == Some(fp) else fp == NO_FINGERPRINT)
    }

    function Fingerprint(net: Net): string {
      if ClientTls(config, Protected()) && net.clientHandshake.Some? then net.clientHandshake.value else NO_FINGERPRINT
    }

    /** The other end of the client connection. */
    function Peer(net: Net): string {
      if activecon then activeip else if net.accepted.Some? then net.accepted.value else ""
    }

    /** The transfer that the policy is asked about. */
    function Asked(net: Net): Transfer {
      Seen(Peer(net), Fingerprint(net), net.seen)
    }

    /** Once the direction is known: a listing records its peer, and then the policy is asked. */
    method Decide(clip: string, seen: Readings, writable: bool) returns (ok: bool)
      modifies controlthread`sent, controlthread`admin_msg, controlthread`dirlist_ip, lists.fpwhitelist`List, lists.fpwhitelist.disk
      ensures var t, r := old(Seen(if activecon then activeip else clip, fp, seen)), old(lists.Now());
        && controlthread.dirlist_ip == DirlistIp(old(controlthread.dirlist_ip), seen.listing, t.peer)
        && ok == Allowed(config, r, t, controlthread.dirlist_ip)
        && controlthread.sent == old(controlthread.sent) +
             (if ok then [] else controlthread.Told(Refusal(config, r, t, controlthread.dirlist_ip, activecon)))
        && controlthread.admin_msg == old(AdminMsg(t))
        && lists.fpwhitelist.List == old(Noted(t))
    {
      if controlthread.dirlist_ip == "" && seen.listing {
        if !activecon {
          controlthread.dirlist_ip := clip;
        } else {
          controlthread.dirlist_ip := activeip;
        }
      }
      if !activecon {
        ok := PassivePolicy(clip, seen, writable);
      } else {
        ok := ActivePolicy(seen, writable);
      }
    }

    /** The transfer that is judged is the one that is made: between the two ends of the client connection, by the
        user of the session, with the fingerprint of the handshake where there was one. */
    lemma AskedExactly(net: Net)
      ensures var t := Asked(net);
        && t.clientip == clientip && t.user == username && t.relinked == relinked && (t.tls <==> usingssl && sslprotp)
        && t.down == net.seen.down && t.up == net.seen.up
        && (activecon ==> t.peer == activeip)
        && (!activecon && net.accepted.Some? ==> t.peer == net.accepted.value)
    {
    }

    /** In terms of the lists and of the thread itself: which transfers between sites may be relayed. */
    lemma BetweenSitesExactly(net: Net, dirlist_ip: string)
      requires Peer(net) != clientip
      ensures Allowed(config, lists.Now(), Asked(net), dirlist_ip) <==>
        && (config.use_fxpiplist && Peer(net) != dirlist_ip && username !in lists.adminlist.List ==>
              || (exists e | e in lists.fpwhitelist.List :: e.fp == Fingerprint(net))
              || (exists e | e in lists.whitelist.List :: e.ip == lists.whitelist.hashing.Key(Peer(net))))
        && (config.enforce_tls && config.enforce_tls_fxp && !relinked && !(config.use_ssl_exclude && username in lists.sslexcludelist.List) ==>
              usingssl && sslprotp)
        && (config.use_fxpfromsite_list && net.seen.down == Download ==> username in lists.fxpfromsitelist.List)
        && (config.use_fxptosite_list && net.seen.up == Upload ==> username in lists.fxptositelist.List)
    {
      assert SpokenFor(Asked(net), lists.Now(), dirlist_ip) <==>
          || (exists e | e in lists.fpwhitelist.List :: e.fp == Fingerprint(net))
          || (exists e | e in lists.whitelist.List :: e.ip == lists.whitelist.hashing.Key(Peer(net)))
          || username in lists.adminlist.List || Peer(net) == dirlist_ip;
      assert SpokenFor(Asked(net), lists.Now(), dirlist_ip) <==> TrustedPeer(lists.Now(), Asked(net), dirlist_ip);
    }

    /** What the client hears before the policy is asked: nothing if it was connected to or if the first socket calls
        fail, else the address to connect to, or that three ports could not be had. */
    lemma OpeningExactly(net: Net)
      ensures PassiveReply(passivecmd).Text() == passivecmd && NoPassiveConnection.Text() == "425 Can't open passive connection!\r\n"
      ensures activecon ==> Opening(net) == []
      ensures !(net.siteSock && (config.connect_ip == "" || net.siteBind) && net.siteConnect && net.listenSock && net.reuse) ==> Opening(net) == []
      ensures !activecon && net.siteSock && (config.connect_ip == "" || net.siteBind) && net.siteConnect && net.listenSock && net.reuse ==>
        var reply := if net.tries(1) || net.tries(2) || net.tries(3) then PassiveReply(passivecmd) else NoPassiveConnection;
        Opening(net) == if controlthread.mark.Some? && Shows(reply.Text(), controlthread.mark.value) then [] else [reply]
    {
    }

    predicate Reaches(net: Net) {
      Connected(config, Protected(), activecon, controlthread.Passes(PassiveReply(passivecmd)), net)
    }

    /** Up to the relay, which goes the way that is read last. */
    method DataLoop(net: Net) returns (outcome: Outcome, way: Direction)
      requires !sitessl && !clientssl && fp == NO_FINGERPRINT
      modifies `sitessl, `clientssl, `clientMethod, `fp
      modifies controlthread`sent, controlthread`admin_msg, controlthread`dirlist_ip, lists.fpwhitelist`List, lists.fpwhitelist.disk
      ensures outcome == NotConnected <==> !Reaches(net)
      ensures outcome == NotConnected ==>
        && controlthread.dirlist_ip == old(controlthread.dirlist_ip)
        && controlthread.admin_msg == old(controlthread.admin_msg)
        && lists.fpwhitelist.List == old(lists.fpwhitelist.List)
        && controlthread.sent == old(controlthread.sent) + Opening(net)
      ensures outcome != NotConnected ==>
        var t, r := Asked(net), old(lists.Now());
        && controlthread.dirlist_ip == DirlistIp(old(controlthread.dirlist_ip), net.seen.listing, t.peer)
        && (outcome == Relaying <==> Allowed(config, r, t, controlthread.dirlist_ip))
        && controlthread.sent == old(controlthread.sent) + Opening(net)
             + (if outcome == Relaying then [] else controlthread.Told(Refusal(config, r, t, controlthread.dirlist_ip, activecon)))
        && controlthread.admin_msg == old(AdminMsg(t))
        && lists.fpwhitelist.List == old(Noted(t))
      ensures outcome != NotConnected ==> fp == Asked(net).fp && Protects(net)
      ensures outcome != NotConnected && SpokenFor(Asked(net), old(lists.Now()), controlthread.dirlist_ip) ==>
        (outcome == Relaying <==> AllowedAnywhere(config, old(lists.Now()), Asked(net)))
      ensures outcome == Relaying ==> way == net.seen.relay
    {
      way := Unset;
      var ok, clip := Connect(net);
      if !ok {
        return NotConnected, way;
      }
      ok := Secure(net);
      if !ok {
        return NotConnected, way;
      }
      ok := Decide(clip, net.seen, net.writable);
      assert !SpokenFor(Asked(net), old(lists.Now()), controlthread.dirlist_ip) || (ok <==> AllowedAnywhere(config, old(lists.Now()), Asked(net)));
      if !ok {
        return Refused, way;
      }
      return Relaying, net.seen.relay;
    }
  }

  /** What becomes of a transfer: its visit to the policy, if it got there, and whether it was relayed. */
  datatype Result = Result(visit: Visit, relayed: bool)

  /** A data connection of a session: its data thread's arguments, and the world as it finds it. */
  datatype Connection = Connection(active: bool, activeip: string, passivecmd: string, protection: Protection, net: Net)

  ghost function Visits(results: seq<Result>): seq<Visit> {
    seq(|results|, i requires 0 <= i < |results| => results[i].visit)
  }

  /** The results agree with the policy, and none but the first listing's peer gets by unlisted. */
  ghost predicate ServedWell(g: Settings, results: seq<Result>) {
    var vs := Visits(results);
    forall i | 0 <= i < |results| ::
      && (results[i].relayed <==> AllowedAt(g, vs, i))
      && (results[i].relayed && g.use_fxpiplist && vs[i].t.peer != vs[i].t.clientip && vs[i].t.peer != "" && Unlisted(vs[i]) ==>
            FirstListing(vs) <= i && vs[i].t.peer == vs[FirstListing(vs)].t.peer)
  }

  lemma ServedOneMore(g: Settings, results: seq<Result>, r: Result)
    requires ServedWell(g, results)
    requires r.relayed <==> Allowed(g, r.visit.rights, r.visit.t, DirlistAfter("", Visits(results + [r])))
    ensures ServedWell(g, results + [r])
  {
    var (all, vs, vs') := (results + [r], Visits(results), Visits(results + [r]));
    assert vs' == vs + [r.visit];
    forall i | 0 <= i < |all|
      ensures (all[i].relayed <==> AllowedAt(g, vs', i))
      ensures all[i].relayed && g.use_fxpiplist && vs'[i].t.peer != vs'[i].t.clientip && vs'[i].t.peer != "" && Unlisted(vs'[i]) ==>
        FirstListing(vs') <= i && vs'[i].t.peer == vs'[FirstListing(vs')].t.peer
    {
      assert vs'[..i + 1] == if i < |results| then vs[..i + 1] else vs';
      if i < |results| {
        assert all[i] == results[i];
      }
      if AllowedAt(g, vs', i) && g.use_fxpiplist && vs'[i].t.peer != vs'[i].t.clientip && vs'[i].t.peer != "" && Unlisted(vs'[i]) {
        FirstListingRule(g, vs', i);
      }
    }
  }

  /** One data thread, from its creation to the relay. */
  method ServeOne(g: Settings, user: string, clientip: string, control: Control, lists: Lists, request: Connection)
    returns (result: Option<Result>)
    modifies control, lists.fpwhitelist`List, lists.fpwhitelist.disk
    ensures result.None? ==> control.dirlist_ip == old(control.dirlist_ip)
    ensures result.Some? ==>
      var Result(Visit(rights, t, listing), relayed) := result.value;
      && control.dirlist_ip == DirlistIp(old(control.dirlist_ip), listing, t.peer)
      && (relayed <==> Allowed(g, rights, t, control.dirlist_ip))
  {
    var Connection(active, activeip, passivecmd, p, net) := request;
    var thread := new DataThread(user, clientip, activeip, active, passivecmd, p, g, control, lists);
    var visit := Visit(lists.Now(), thread.Asked(net), net.seen.listing);
    var outcome, way := thread.DataLoop(net);
    if outcome == NotConnected {
      return None;
    }
    return Some(Result(visit, outcome == Relaying));
  }

  /** The data threads of a session, one after the other. In between other sessions may do what they
      like to the lists, here given by `edits`. */
  method Serve(g: Settings, user: string, clientip: string, control: Control, lists: Lists, requests: seq<Connection>, edits: seq<Rights>)
    returns (results: seq<Result>)
    requires control.dirlist_ip == "" && lists.Apart() && |edits| == |requests|
    modifies control, lists.fpwhitelist, lists.fpwhitelist.disk, lists.whitelist, lists.adminlist, lists.sslexcludelist,
             lists.fxpfromsitelist, lists.fxptositelist
    ensures ServedWell(g, results)
    ensures control.dirlist_ip == DirlistAfter("", Visits(results))
  {
    results := [];
    for i := 0 to |requests|
      invariant ServedWell(g, results)
      invariant control.dirlist_ip == DirlistAfter("", Visits(results))
    {
      lists.Become(edits[i]);
      var result := ServeOne(g, user, clientip, control, lists, requests[i]);
      if result.Some? {
        assert Visits(results + [result.value])[..|results|] == Visits(results);
        ServedOneMore(g, results, result.value);
        results := results + [result.value];
      }
    }
  }
}
