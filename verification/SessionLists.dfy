/** What sessions do to the lists that all of them share. */
module SessionLists {
  import opened Strings
  import opened StringLists
  import opened ListFiles
  import opened DataThreads
  import opened Sessions
  import opened SessionRuns
  import opened SessionOutput
  import opened SessionLogin
  import W = Whitelists
  import F = FpWhitelists

  // Who edits them

  /** What other sessions do is not part of this one. */
  predicate Alone(ins: seq<Input>) {
    forall k | 0 <= k < |ins| :: !ins[k].OtherSessions?
  }

  /** A relinked session changes no list, whatever it is sent. */
  lemma {:induction false} RelinkedChangesNoList(g: Setup, s: Session, ins: seq<Input>)
    requires Inv(g, s) && s.relinked && Alone(ins)
    ensures Run(g, s, ins).book == s.book
    decreases |ins|
  {
    if ins != [] {
      StepKeeps(g, s, ins[0]);
      StepAdds(g, s, ins[0]);
      RelinkedChangesNoList(g, Step(g, s, ins[0]), ins[1..]);
    }
  }

  /** Left alone by others, the lists change only where somebody on the admin list who is not relinked
      asks for it. */
  lemma {:induction false} OnlyAdminsEdit(g: Setup, s: Session, ins: seq<Input>)
    requires Inv(g, s) && Alone(ins) && Run(g, s, ins).book != s.book
    ensures exists k | 0 <= k < |ins| :: Serves(g, Run(g, s, ins[..k]), ins[k])
    decreases |ins|
  {
    var last := |ins| - 1;
    if last >= 0 {
      var init := ins[..last];
      assert ins == init + [ins[last]];
      RunSnoc(g, s, init, ins[last]);
      RunKeeps(g, s, init);
      StepAdds(g, Run(g, s, init), ins[last]);
      if Run(g, s, init).book != s.book {
        OnlyAdminsEdit(g, s, init);
        var k :| 0 <= k < last && Serves(g, Run(g, s, init[..k]), init[k]);
        assert init[..k] == ins[..k];
        assert Serves(g, Run(g, s, ins[..k]), ins[k]);
      }
    }
  }

  /** To anybody else the commands of yatb are indistinguishable from one that it never understands. */
  lemma OthersAreNotUnderstood(g: Setup, s: Session, line: Line, text: string, e: Env)
    requires line.Admin() && !MayAdminister(s) && g.usecommands && s.phase.Rank() >= PassSent.Rank()
    ensures Step(g, s, FromClient(line, text, e)) == Step(g, s, FromClient(Idnt, text, e))
  {
  }

  /** An admin's command is carried out and answered: a readable reload, or an edit, or nothing but the answer. */
  lemma AdminsAreServed(g: Setup, s: Session, line: Line, text: string, e: Env)
    requires !s.over && s.latch == Free && ServesLine(g, s, line)
    ensures var book := match line
        case Reload(Some(c)) => Reloaded(s.book, c)
        case Reload(None) => s.book
        case Report => s.book
        case _ => Edited(s.book, line, text);
      Step(g, s, FromClient(line, text, e)) == Client(g, s.(book := book), EditReply(s.book, line, text, e.report), Own, e.first)
  {
    if line.Report? {
      assert Edited(s.book, line, text) == s.book;
    }
  }

  /** An admin is a user on the admin list whose session was not relinked. */
  lemma WhoIsServed(g: Setup, s: Session, line: Line)
    requires line.Admin() && g.usecommands && s.phase.Rank() >= PassSent.Rank()
    ensures ServesLine(g, s, line) <==> !s.relinked && exists u | u in s.book.rights.admins :: u == s.username
  {
  }

  // What the edits do

  function Given(text: string): set<string> {
    match Argument(text, ' ')
    case None => {}
    case Some(arg) => Elements(Tokens(arg))
  }

  function AfterEdit(edit: Sessions.Edit, before: set<string>, given: set<string>): set<string> {
    match edit
    case Show => before
    case Add => before + given
    case Del => before - given
  }

  /** A command for one of the comma lists is an operation on sets, */
  lemma EditIsSetAlgebra(b: Book, name: ListName, edit: Sessions.Edit, text: string)
    requires Distinct(ListNamed(b, name))
    ensures var l, l' := ListNamed(b, name), ListNamed(Edited(b, ListCommand(name, edit), text), name);
      Elements(l') == AfterEdit(edit, Elements(l), Given(text)) && Distinct(l') && (!edit.Del? ==> l <= l')
  {
    if Argument(text, ' ').Some? {
      var ts := Tokens(Argument(text, ' ').value);
      InsertIsUnion(ListNamed(b, name), ts);
      RemoveIsDifference(ListNamed(b, name), ts);
    }
  }

  lemma WithListKeeps(b: Book, name: ListName, l: seq<string>)
    ensures var b' := WithList(b, name, l);
      && (forall other: ListName | other != name :: ListNamed(b', other) == ListNamed(b, other))
      && b'.rights.ips == b.rights.ips && b'.rights.fps == b.rights.fps && b'.rights.hashing == b.rights.hashing
  {
  }

  /** and leaves everything else as it was. */
  lemma EditTouchesOneList(b: Book, name: ListName, edit: Sessions.Edit, text: string)
    ensures var b' := Edited(b, ListCommand(name, edit), text);
      && (forall other: ListName | other != name :: ListNamed(b', other) == ListNamed(b, other))
      && b'.rights.ips == b.rights.ips && b'.rights.fps == b.rights.fps && b'.rights.hashing == b.rights.hashing
  {
    var b' := Edited(b, ListCommand(name, edit), text);
    if b' != b {
      var arg := Argument(text, ' ').value;
      WithListKeeps(b, name, Inserted(ListNamed(b, name), arg));
      WithListKeeps(b, name, Removed(ListNamed(b, name), arg));
    }
  }

  // The commands as they are typed

  /** A command with names, separated by commas. */
  function Typed(cmd: string, names: seq<string>): string {
    cmd + " " + Join(names, ',') + "\r\n"
  }

  lemma TypedNames(cmd: string, names: seq<string>)
    requires ' ' !in cmd && names != [] && names != [""] && AllFree(names, ',')
    ensures Argument(Typed(cmd, names), ' ') == Some(Join(names, ',')) && Tokens(Join(names, ',')) == names
  {
    ArgumentOfLine(cmd, Join(names, ','));
    SplitJoin(names, ',');
    IndexOfAbsent("", ',');
    assert Split("", ',') == [""];
  }

  /** The names that are typed are the ones that are added or taken away, and nothing else. */
  lemma TypedEditIsSetAlgebra(b: Book, name: ListName, edit: Sessions.Edit, cmd: string, names: seq<string>)
    requires Distinct(ListNamed(b, name)) && ' ' !in cmd && names != [] && names != [""] && AllFree(names, ',')
    ensures var l, l' := ListNamed(b, name), ListNamed(Edited(b, ListCommand(name, edit), Typed(cmd, names)), name);
      forall u :: u in l' <==>
        match edit
        case Show => u in l
        case Add => u in l || u in names
        case Del => u in l && u !in names
  {
    TypedNames(cmd, names);
    EditIsSetAlgebra(b, name, edit, Typed(cmd, names));
    var l, l' := ListNamed(b, name), ListNamed(Edited(b, ListCommand(name, edit), Typed(cmd, names)), name);
    assert forall u :: u in l' <==> u in Elements(l');
    assert Given(Typed(cmd, names)) == Elements(names);
    assert forall u :: u in l <==> u in Elements(l);
  }

  /** Without a name nothing happens, and that is what the answer says. */
  lemma NothingTyped(b: Book, name: ListName, edit: Sessions.Edit, cmd: string, report: string)
    requires ' ' !in cmd && !edit.Show?
    ensures Edited(b, ListCommand(name, edit), cmd + "\r\n") == b
    ensures EditReply(b, ListCommand(name, edit), cmd + "\r\n", report)
         == "230 no " + (if name == AdminList then "admins" else if name == EntryList then "entry" else "user")
            + (if edit.Add? then " to add!\r\n" else " to remove!\r\n")
  {
    NoArgument(cmd);
  }

  /** What is shown is the list as it is, and an edit with names is confirmed. */
  lemma AnswersInWords(b: Book, name: ListName, cmd: string, names: seq<string>, report: string)
    requires ' ' !in cmd && names != [] && names != [""] && AllFree(names, ',')
    ensures var noun := if name == AdminList then "admin(s)" else if name == EntryList then "entry(s)" else "user(s)";
      && EditReply(b, ListCommand(name, Show), cmd + "\r\n", report)
         == "230- added " + noun + ": '" + Join(ListNamed(b, name), ',') + "'\r\n230 done.\r\n"
      && EditReply(b, ListCommand(name, Add), Typed(cmd, names), report) == "230 " + noun + " added.\r\n"
      && EditReply(b, ListCommand(name, Del), Typed(cmd, names), report) == "230 " + noun + " removed.\r\n"
  {
    TypedNames(cmd, names);
  }

  lemma EditOfArgument(b: Book, text: string, arg: string)
    requires Argument(text, ' ') == Some(arg)
    ensures Edited(b, IpCommand(Add), text).rights.ips == W.Inserting(b.rights.hashing, b.rights.ips, arg).0
    ensures Edited(b, FingerprintCommand(Add), text).rights.fps == F.Inserting(b.rights.fps, arg).0
  {
  }

  /** The answers to commands for the two whitelists: an argument is missing, the insertion went through, was not
      needed, or was not understood; removals are confirmed; and lists and help are shown as they come. */
  lemma WhitelistAnswers(b: Book, cmd: string, arg: string, report: string)
    requires ' ' !in cmd
    ensures var text := cmd + " " + arg + "\r\n";
      && EditReply(b, IpCommand(Del), text, report) == "230 ip removed.\r\n"
      && EditReply(b, FingerprintCommand(Del), text, report) == "230 fp removed.\r\n"
      && EditReply(b, IpCommand(Show), text, report) == report && EditReply(b, FingerprintCommand(Show), text, report) == report
  {
    ArgumentOfLine(cmd, arg);
  }

  lemma WhitelistWants(b: Book, cmd: string, report: string)
    requires ' ' !in cmd
    ensures var text := cmd + "\r\n";
      && EditReply(b, IpCommand(Add), text, report) == "230 no ip to add!\r\n"
      && EditReply(b, IpCommand(Del), text, report) == "230 no ip to remove!\r\n"
      && EditReply(b, FingerprintCommand(Add), text, report) == "230 no fp to add!\r\n"
      && EditReply(b, FingerprintCommand(Del), text, report) == "230 no fp to remove!\r\n"
      && (forall edit: Sessions.Edit :: Edited(b, IpCommand(edit), text) == Edited(b, FingerprintCommand(edit), text) == b)
  {
    NoArgument(cmd);
  }

  lemma ReportsAndReloads(b: Book, text: string, report: string, c: ConfiguredLists)
    ensures EditReply(b, Report, text, report) == report
    ensures EditReply(b, Reload(None), text, report) == "230 failed to reload config.\r\n"
    ensures EditReply(b, Reload(Some(c)), text, report) == "230 config reloaded.\r\n"
  {
  }

  lemma ReplyOfArgument(b: Book, text: string, report: string, arg: string)
    requires Argument(text, ' ') == Some(arg)
    ensures EditReply(b, IpCommand(Add), text, report) == AddedReply("ip", W.Inserting(b.rights.hashing, b.rights.ips, arg).1, report)
    ensures EditReply(b, FingerprintCommand(Add), text, report) == AddedReply("fp", F.Inserting(b.rights.fps, arg).1, report)
  {
  }

  lemma IpReplies(report: string)
    ensures AddedReply("ip", 1, report) == "230 ip added.\r\n"
    ensures AddedReply("ip", 2, report) == "230 ip already added! [" + report + "]\r\n"
    ensures AddedReply("ip", 0, report) == "230 check your syntax!\r\n"
  {
    assert "230 " + "ip" + " added.\r\n" == "230 ip added.\r\n" && "230 " + "ip" + " already added! [" == "230 ip already added! [";
  }

  lemma FpReplies(report: string)
    ensures AddedReply("fp", 1, report) == "230 fp added.\r\n"
    ensures AddedReply("fp", 2, report) == "230 fp already added! [" + report + "]\r\n"
    ensures AddedReply("fp", 0, report) == "230 check your syntax!\r\n"
  {
    assert "230 " + "fp" + " added.\r\n" == "230 fp added.\r\n" && "230 " + "fp" + " already added! [" == "230 fp already added! [";
  }

  /** Which of the three answers an insertion gets: of an address that is listed, of one that is not, and of a text
      with fewer than two commas. */
  lemma AddedInWords(b: Book, cmd: string, ip: string, rest: string, report: string)
    requires ' ' !in cmd && ',' !in ip
    ensures var key := if b.rights.hashing.enabled then b.rights.hashing.digest(ip) else ip;
      EditReply(b, IpCommand(Add), cmd + " " + (ip + "," + rest) + "\r\n", report)
        == if exists e | e in b.rights.ips :: e.ip == key then "230 ip already added! [" + report + "]\r\n"
           else if ',' in rest then "230 ip added.\r\n"
           else "230 check your syntax!\r\n"
  {
    var arg := ip + "," + rest;
    ArgumentOfLine(cmd, arg);
    ReplyOfArgument(b, cmd + " " + arg + "\r\n", report, arg);
    W.InsertCodes(b.rights.hashing, b.rights.ips, ip, rest);
    IpReplies(report);
  }

  /** Of fingerprints likewise. */
  lemma FingerprintAddedInWords(b: Book, cmd: string, fp: string, rest: string, report: string)
    requires ' ' !in cmd && ',' !in fp
    ensures EditReply(b, FingerprintCommand(Add), cmd + " " + (fp + "," + rest) + "\r\n", report)
        == if exists e | e in b.rights.fps :: e.fp == fp then "230 fp already added! [" + report + "]\r\n"
           else if ',' in rest then "230 fp added.\r\n"
           else "230 check your syntax!\r\n"
  {
    var arg := fp + "," + rest;
    ArgumentOfLine(cmd, arg);
    ReplyOfArgument(b, cmd + " " + arg + "\r\n", report, arg);
    F.InsertCodes(b.rights.fps, fp, rest);
    FpReplies(report);
  }

  /** An address that is typed with comment and user is stored with these, unless it is listed; hashed if
      addresses are. */
  lemma TypedAddress(b: Book, cmd: string, ip: string, comment: string, user: string)
    requires ' ' !in cmd && ',' !in ip && ',' !in comment
    ensures var key := if b.rights.hashing.enabled then b.rights.hashing.digest(ip) else ip;
      Edited(b, IpCommand(Add), cmd + " " + (ip + "," + comment + "," + user) + "\r\n").rights.ips
        == b.rights.ips + if exists e | e in b.rights.ips :: e.ip == key then [] else [W.FxpEntry(key, comment, user)]
  {
    var arg := ip + "," + comment + "," + user;
    ArgumentOfLine(cmd, arg);
    W.InsertTyped(b.rights.hashing, b.rights.ips, ip, comment, user);
    EditOfArgument(b, cmd + " " + arg + "\r\n", arg);
  }

  /** A fingerprint likewise, in upper case and with no address yet. */
  lemma TypedFingerprint(b: Book, cmd: string, fp: string, comment: string, user: string)
    requires ' ' !in cmd && ',' !in fp && ',' !in comment && ',' !in user
    ensures Edited(b, FingerprintCommand(Add), cmd + " " + (fp + "," + comment + "," + user) + "\r\n").rights.fps
         == b.rights.fps + if exists e | e in b.rights.fps :: e.fp == fp then [] else [F.FpEntry(Upper(fp), comment, user, [])]
  {
    var arg := fp + "," + comment + "," + user;
    ArgumentOfLine(cmd, arg);
    F.InsertTyped(b.rights.fps, fp, comment, user);
    EditOfArgument(b, cmd + " " + arg + "\r\n", arg);
  }

  /** The removal of an address takes away what is stored for it, or a digest that is typed as it is, and leaves
      the other entries. */
  lemma TypedAddressRemoval(b: Book, cmd: string, ip: string)
    requires ' ' !in cmd && Distinct(W.Ips(b.rights.ips))
    ensures var h := b.rights.hashing;
      var key := if h.enabled && '.' in ip then h.digest(ip) else ip;
      forall e :: e in Edited(b, IpCommand(Del), cmd + " " + ip + "\r\n").rights.ips <==> e in b.rights.ips && e.ip != key
  {
    ArgumentOfLine(cmd, ip);
    W.RemoveDistinct(b.rights.ips, b.rights.hashing.RemoveKey(ip));
  }

  /** And that of a fingerprint, as it is typed. */
  lemma TypedFingerprintRemoval(b: Book, cmd: string, fp: string)
    requires ' ' !in cmd && Distinct(F.Fps(b.rights.fps))
    ensures forall e :: e in Edited(b, FingerprintCommand(Del), cmd + " " + fp + "\r\n").rights.fps <==> e in b.rights.fps && e.fp != fp
  {
    ArgumentOfLine(cmd, fp);
    F.RemoveDistinct(b.rights.fps, fp);
  }

  function Configured(c: ConfiguredLists, name: ListName): string {
    match name
    case AdminList => c.admins
    case EntryList => c.entries
    case FromSiteList => c.fromsite
    case ToSiteList => c.tosite
    case SslExcludeList => c.sslexclude
  }

  lemma ReloadedList(b: Book, c: ConfiguredLists, name: ListName)
    ensures ListNamed(Reloaded(b, c), name) == Inserted(ListNamed(b, name), Configured(c, name))
    ensures Reloaded(b, c).rights.ips == b.rights.ips && Reloaded(b, c).rights.fps == b.rights.fps
  {
  }

  /** A reload forms unions with the configured names and leaves both whitelists as they are. */
  lemma ReloadIsUnion(b: Book, c: ConfiguredLists, name: ListName)
    requires Distinct(ListNamed(b, name))
    ensures var l, l' := ListNamed(b, name), ListNamed(Reloaded(b, c), name);
      Elements(l') == Elements(l) + Elements(Tokens(Configured(c, name))) && Distinct(l') && l <= l'
    ensures Reloaded(b, c).rights.ips == b.rights.ips && Reloaded(b, c).rights.fps == b.rights.fps
  {
    ReloadedList(b, c, name);
    InsertIsUnion(ListNamed(b, name), Tokens(Configured(c, name)));
  }

  lemma AddedReplyTells(what: string, code: int, report: string)
    requires |what| == 2 && what[0] != 'c'
    ensures AddedReply(what, code, report) == "230 " + what + " added.\r\n" <==> code == 1
  {
    var (added, reply) := ("230 " + what + " added.\r\n", AddedReply(what, code, report));
    assert added[4] == what[0] && added[8] == 'd';
    if code == 2 {
      assert reply[8] == 'l';
    } else if code != 1 {
      assert reply[4] == 'c';
    }
  }

  lemma IpInserted(h: Hashing, l: seq<W.FxpEntry>, arg: string)
    ensures var (l', code) := W.Inserting(h, l, arg);
      var key := h.Key(arg[..IndexOf(arg, ',')]);
      if code == 1 then W.Parse(arg).Some? && !W.Listed(l, key) && |l'| == |l| + 1 && l <= l' && l'[|l|].ip == key
      else (W.Parse(arg).None? || W.Listed(l, key)) && l' == l
  {
    W.ParsePieces(arg);
  }

  /** The answer to the insertion of an address tells the truth: one more entry exactly if it says so, and
      that for every line with two commas whose address is not listed. */
  lemma IpAnswerIsTrue(b: Book, text: string, report: string, arg: string)
    requires Argument(text, ' ') == Some(arg)
    ensures var l, l' := b.rights.ips, Edited(b, IpCommand(Add), text).rights.ips;
      var key := b.rights.hashing.Key(arg[..IndexOf(arg, ',')]);
      if EditReply(b, IpCommand(Add), text, report) == "230 ip added.\r\n"
      then W.Parse(arg).Some? && !W.Listed(l, key) && |l'| == |l| + 1 && l <= l' && l'[|l|].ip == key
      else (W.Parse(arg).None? || W.Listed(l, key)) && l' == l
  {
    EditOfArgument(b, text, arg);
    ReplyOfArgument(b, text, report, arg);
    IpInserted(b.rights.hashing, b.rights.ips, arg);
    AddedReplyTells("ip", W.Inserting(b.rights.hashing, b.rights.ips, arg).1, report);
    assert "230 " + "ip" + " added.\r\n" == "230 ip added.\r\n";
  }

  lemma FpInserted(l: seq<F.FpEntry>, arg: string)
    ensures var (l', code) := F.Inserting(l, arg);
      var typed := arg[..IndexOf(arg, ',')];
      if code == 1
      then F.Parse(arg).Some? && !F.Known(l, typed) && |l'| == |l| + 1 && l <= l' && l'[|l|].fp == Upper(typed)
      else (F.Parse(arg).None? || F.Known(l, typed)) && l' == l
  {
  }

  /** The same of a fingerprint, which is stored in upper case. */
  lemma FingerprintAnswerIsTrue(b: Book, text: string, report: string, arg: string)
    requires Argument(text, ' ') == Some(arg)
    ensures var l, l' := b.rights.fps, Edited(b, FingerprintCommand(Add), text).rights.fps;
      var typed := arg[..IndexOf(arg, ',')];
      if EditReply(b, FingerprintCommand(Add), text, report) == "230 fp added.\r\n"
      then F.Parse(arg).Some? && !F.Known(l, typed) && |l'| == |l| + 1 && l <= l' && l'[|l|].fp == Upper(typed)
      else (F.Parse(arg).None? || F.Known(l, typed)) && l' == l
  {
    EditOfArgument(b, text, arg);
    ReplyOfArgument(b, text, report, arg);
    FpInserted(b.rights.fps, arg);
    AddedReplyTells("fp", F.Inserting(b.rights.fps, arg).1, report);
    assert "230 " + "fp" + " added.\r\n" == "230 fp added.\r\n";
  }

  // Lists over whole runs

  ghost predicate SoundLists(b: Book) {
    && (forall name: ListName :: Distinct(ListNamed(b, name)) && AllFree(ListNamed(b, name), ','))
    && Distinct(W.Ips(b.rights.ips))
  }

  lemma CommaListKept(l: seq<string>, arg: string)
    requires Distinct(l) && AllFree(l, ',')
    ensures Distinct(Inserted(l, arg)) && AllFree(Inserted(l, arg), ',')
    ensures Distinct(Removed(l, arg)) && AllFree(Removed(l, arg), ',')
  {
    HistoryKeepsLists(l, [Insertion(arg)]);
    HistoryKeepsLists(l, [Removal(arg)]);
    assert forall e: StringLists.Edit :: History(Apply(l, e), []) == Apply(l, e);
    assert forall e: StringLists.Edit :: [e][1..] == [];
    assert History(l, [Insertion(arg)]) == Inserted(l, arg) && History(l, [Removal(arg)]) == Removed(l, arg);
  }

  lemma ListCommandKeepsSound(b: Book, name: ListName, edit: Sessions.Edit, text: string)
    requires SoundLists(b)
    ensures SoundLists(Edited(b, ListCommand(name, edit), text))
  {
    EditTouchesOneList(b, name, edit, text);
    if Argument(text, ' ').Some? {
      CommaListKept(ListNamed(b, name), Argument(text, ' ').value);
    }
  }

  lemma IpsOfEdit(b: Book, edit: Sessions.Edit, text: string)
    ensures var l, l' := b.rights.ips, Edited(b, IpCommand(edit), text).rights.ips;
      || l' == l
      || exists arg :: l' == W.Inserting(b.rights.hashing, l, arg).0 || l' == W.Dropping(l, b.rights.hashing.RemoveKey(arg))
  {
  }

  lemma IpCommandTouchesNoName(b: Book, edit: Sessions.Edit, text: string)
    ensures forall name: ListName :: ListNamed(Edited(b, IpCommand(edit), text), name) == ListNamed(b, name)
  {
    var b' := Edited(b, IpCommand(edit), text);
    assert b' == b.(rights := b.rights.(ips := b'.rights.ips));
  }

  lemma IpCommandKeepsSound(b: Book, edit: Sessions.Edit, text: string)
    requires SoundLists(b)
    ensures SoundLists(Edited(b, IpCommand(edit), text))
  {
    var (l, l') := (b.rights.ips, Edited(b, IpCommand(edit), text).rights.ips);
    IpsOfEdit(b, edit, text);
    if l' != l {
      var arg :| l' == W.Inserting(b.rights.hashing, l, arg).0 || l' == W.Dropping(l, b.rights.hashing.RemoveKey(arg));
      W.InsertDistinct(b.rights.hashing, l, arg);
      W.RemoveDistinct(l, b.rights.hashing.RemoveKey(arg));
    }
    IpCommandTouchesNoName(b, edit, text);
  }

  lemma ReloadKeepsSound(b: Book, c: ConfiguredLists)
    requires SoundLists(b)
    ensures SoundLists(Reloaded(b, c))
  {
    forall name: ListName
      ensures Distinct(ListNamed(Reloaded(b, c), name)) && AllFree(ListNamed(Reloaded(b, c), name), ',')
    {
      ReloadedList(b, c, name);
      CommaListKept(ListNamed(b, name), Configured(c, name));
    }
    ReloadedList(b, c, AdminList);
  }

  lemma AdminKeepsSound(b: Book, line: Line, text: string)
    requires SoundLists(b)
    ensures SoundLists(Administered(b, line, text))
  {
    var b' := Administered(b, line, text);
    if line.ListCommand? {
      ListCommandKeepsSound(b, line.list, line.edit, text);
    } else if line.IpCommand? {
      IpCommandKeepsSound(b, line.edit, text);
    } else if line.Reload? && line.file.Some? {
      ReloadKeepsSound(b, line.file.value);
    } else {
      assert b'.rights.ips == b.rights.ips && forall name: ListName :: ListNamed(b', name) == ListNamed(b, name);
    }
  }

  /** The book of a step is that of others, that of an admin's command, or the old one. */
  lemma StepBook(g: Setup, s: Session, i: Input)
    requires Inv(g, s)
    ensures var b := Step(g, s, i).book;
      b == s.book || (i.OtherSessions? && b == i.book) || (i.FromClient? && b == Administered(s.book, i.line, i.text))
  {
    StepAdds(g, s, i);
    if Serves(g, s, i) {
      var t := s.(book := Administered(s.book, i.line, i.text));
      ClientAlike(g, t, EditReply(s.book, i.line, i.text, i.env.report), Own, i.env.first);
    }
  }

  /** In every run, whatever is typed and configured: as long as the other sessions keep to it, the comma
      lists hold no entry twice and no comma, and the address list holds no address twice. */
  lemma {:induction false} ListsStaySound(g: Setup, s: Session, ins: seq<Input>)
    requires Inv(g, s) && SoundLists(s.book)
    requires forall k | 0 <= k < |ins| :: ins[k].OtherSessions? ==> SoundLists(ins[k].book)
    ensures SoundLists(Run(g, s, ins).book)
    decreases |ins|
  {
    if ins != [] {
      StepKeeps(g, s, ins[0]);
      StepBook(g, s, ins[0]);
      if ins[0].FromClient? {
        AdminKeepsSound(s.book, ins[0].line, ins[0].text);
      }
      ListsStaySound(g, Step(g, s, ins[0]), ins[1..]);
    }
  }

  // Reloading

  lemma InsertedExtends(l: seq<string>, text: string)
    ensures forall x | x in l :: x in Inserted(l, text)
  {
    forall x | x in l ensures x in Inserted(l, text) {
      InsertKeepsMembers(l, Tokens(text), x);
    }
  }

  /** A reload only extends the lists. */
  lemma ReloadGrantsNoLess(b: Book, c: ConfiguredLists)
    ensures GrantsNoLess(b.rights.(hashing := c.hashing), Reloaded(b, c).rights)
    ensures forall x | x in b.entries :: x in Reloaded(b, c).entries
  {
    InsertedExtends(b.rights.admins, c.admins);
    InsertedExtends(b.rights.fromsite, c.fromsite);
    InsertedExtends(b.rights.tosite, c.tosite);
    InsertedExtends(b.rights.sslexclude, c.sslexclude);
    InsertedExtends(b.entries, c.entries);
  }

  /** A reload that puts the settings `h` in the place of `g` and the hashing `k` in the place of `j`
      refuses no transfer that was allowed. */
  ghost predicate ReloadIsSafe(g: Settings, h: Settings, j: Hashing, k: Hashing) {
    forall b: Book, c: ConfiguredLists, t: DataThreads.Transfer, dirlist_ip: string
      | b.rights.hashing == j && c.hashing == k && Allowed(g, b.rights, t, dirlist_ip) ::
      Allowed(h, Reloaded(b, c).rights, t, dirlist_ip)
  }

  ghost predicate SameKeys(j: Hashing, k: Hashing) {
    forall ip :: j.Key(ip) == k.Key(ip)
  }

  const NO_LISTS := ConfiguredLists(Hashing(false, (s: string) => s), "", "", "", "", "")

  /** That is so exactly when the new settings put no rule in force that was not, exempt whom the old
      ones did, and look addresses up under the same keys if they look them up at all. */
  lemma ReloadTakesNothingAway(g: Settings, h: Settings, j: Hashing, k: Hashing)
    ensures ReloadIsSafe(g, h, j, k) <==> NoStricter(g, h) && (h.use_fxpiplist ==> SameKeys(j, k))
  {
    if NoStricter(g, h) && (h.use_fxpiplist ==> SameKeys(j, k)) {
      forall b: Book, c: ConfiguredLists, t: DataThreads.Transfer, d: string
        | b.rights.hashing == j && c.hashing == k && Allowed(g, b.rights, t, d)
        ensures Allowed(h, Reloaded(b, c).rights, t, d)
      {
        MilderAllowsMore(g, h, b.rights, t, d);
        assert Allowed(h, b.rights.(hashing := k), t, d);
        ReloadGrantsNoLess(b, c);
        MoreRightsAllowMore(h, b.rights.(hashing := k), Reloaded(b, c).rights, t, d);
      }
    } else if !NoStricter(g, h) {
      var (r, t) := Objection(g, h);
      StricterRefuses(g, h, j);
      StricterRefuses(g, h, k);
      NotReloaded(g, h, r.(hashing := j), k, t, "");
    } else {
      var ip :| j.Key(ip) != k.Key(ip);
      ForgottenPeer(g, h, j, k, ip);
    }
  }

  /** A configuration without names leaves the lists as they are. */
  lemma NotReloaded(g: Settings, h: Settings, r: Rights, k: Hashing, t: DataThreads.Transfer, dirlist_ip: string)
    requires Allowed(g, r, t, dirlist_ip) && !Allowed(h, r.(hashing := k), t, dirlist_ip)
    ensures !ReloadIsSafe(g, h, r.hashing, k)
  {
    var (b, c) := (Book(r, []), NO_LISTS.(hashing := k));
    assert Reloaded(b, c) == Book(r.(hashing := k), []);
  }

  /** An address that was listed is not found any more. */
  lemma ForgottenPeer(g: Settings, h: Settings, j: Hashing, k: Hashing, ip: string)
    requires h.use_fxpiplist && g.use_fxpiplist && j.Key(ip) != k.Key(ip)
    ensures !ReloadIsSafe(g, h, j, k)
  {
    var r := NoRights().(hashing := j, ips := [W.FxpEntry(j.Key(ip), "", "")]);
    var t := DataThreads.Transfer(ip, ip + "0", "user", "", Unset, Unset, true, false);
    assert r.ips[0] in r.ips && W.Listed(r.ips, j.Key(ip));
    assert !W.Listed(r.ips, k.Key(ip));
    assert |t.peer| != |t.clientip|;
    NotReloaded(g, h, r, k, t, ip + "0");
  }
}
