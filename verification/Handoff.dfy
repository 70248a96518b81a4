/** How a data thread learns the direction of its transfer: the control thread publishes `direction`,
    `dirlisting` and `directionset` for a thread that it has already started. Every write to these
    variables, every read of them and every quit test is a step of its own, and the steps of the two
    threads interleave freely. */
module Handoff {
  import opened Strings
  import opened DataThreads

  datatype Command = Stor | Retr | List | Nlst
  {
    function Way(): Direction {
      if this == Stor then Upload else Download
    }

    predicate Listing() {
      this == List || this == Nlst
    }
  }

  /** Where the control thread is. */
  datatype Control =
    | Idle
    | Started        // the data thread runs, nothing is reset yet
    | ListingReset   // dirlisting is 0 again
    | GivingUp       // the answer to PORT failed before the reset
    | Leaving        // and shouldquit is written, for the destructor
    | Gone
    | Unstarted      // no data thread came up, nothing is reset yet
    | UnstartedReset // dirlisting is 0 again
    | Published(command: Command) // direction is written
    | Listed         // dirlisting is written
    | Joining        // shouldquit is written

  /** Where the data thread is. */
  datatype Data =
    | NoThread
    | Connecting
    | FirstWait | FirstQuit    // the loop before the handshake with the client
    | RoleRead                 // dirlisting, for the role in the handshake
    | Handshake
    | SecondWait | SecondQuit  // the loop after it
    | ListingRead              // dirlisting, for the address of the first listing
    | DownloadRule             // direction, for the first rule
    | UploadRule               // direction, for the second rule
    | RelayRead                // direction, for the relay
    | Loop                     // the quit test of the relay
    | Copying
    | Done
  {
    /** The second loop was left because the direction was set. */
    predicate Past() {
      ListingRead? || DownloadRule? || UploadRule? || RelayRead? || Loop? || Copying?
    }
  }

  /** A read of `direction`, with how many commands had been issued for the thread. */
  datatype Read = Read(value: Direction, after: nat)

  datatype State = State(
    control: Control,
    data: Data,
    directionset: bool,
    direction: Direction,
    dirlisting: bool,
    shouldquit: bool,
    // history of the present data thread
    seen: seq<Read>,       // of direction
    listing: bool,          // what it read of dirlisting last
    issued: seq<Command>,   // transfer commands since it was started
    setBefore: bool,        // directionset when it was started
    early: bool)            // it left the second loop before directionset was reset

  const START := State(Idle, NoThread, false, Unset, false, false, [], false, [], false, false)

  datatype Move =
    | Start
    | StartNone        // the reply cannot be parsed, or the thread cannot be created
    | ResetListing
    | ResetDirection
    | GiveUp
    | Issue(command: Command)
    | PublishListing
    | PublishDirection
    | SetQuit
    | Join
    | TestDirection
    | TestQuit
    | Linked           // both ends are connected
    | Secured          // the handshake with the client is done
    | ReadListing
    | ReadDirection
    | SkipRules        // no FXP, so no direction rules
    | Copy             // a block is relayed
    | Finish           // the data thread fails, is refused or has relayed everything
  {
    predicate ByData() {
      TestDirection? || TestQuit? || Linked? || Secured? || ReadListing? || ReadDirection? || SkipRules? || Copy? || Finish?
    }
  }

  /** The data thread is running and what its predecessor left has not been reset. */
  predicate Window(s: State) {
    s.control.Started? || s.control.ListingReset? || s.control.GivingUp? || s.control.Leaving?
  }

  predicate Enabled(s: State, m: Move) {
    match m
    case Start => s.control.Idle? && s.data.NoThread?
    case StartNone => s.control.Idle? && s.data.NoThread?
    case ResetListing => s.control.Started? || s.control.Unstarted?
    case ResetDirection => s.control.ListingReset? || s.control.UnstartedReset?
    case GiveUp => s.control.Started? || s.control.Unstarted?
    case Issue(_) => s.control.Idle?
    case PublishListing => s.control.Published?
    case PublishDirection => s.control.Listed?
    case SetQuit => (s.control.Idle? && !s.data.NoThread?) || s.control.GivingUp?
    case Join => (s.control.Joining? || s.control.Leaving?) && s.data.Done?
    case TestDirection => s.data.FirstWait? || s.data.SecondWait?
    case TestQuit => s.data.FirstQuit? || s.data.SecondQuit? || s.data.Loop?
    case Linked => s.data.Connecting?
    case Secured => s.data.Handshake?
    case ReadListing => s.data.RoleRead? || s.data.ListingRead?
    case ReadDirection => s.data.DownloadRule? || s.data.UploadRule? || s.data.RelayRead?
    case SkipRules => s.data.DownloadRule?
    case Copy => s.data.Copying?
    case Finish => s.data.Connecting? || s.data.Handshake? || s.data.DownloadRule? || s.data.UploadRule? || s.data.RelayRead? || s.data.Copying?
  }

  function Apply(s: State, m: Move): State
    requires Enabled(s, m)
  {
    match m
    case Start =>
      s.(control := Started, data := Connecting, shouldquit := false, seen := [], listing := false,
         issued := [], setBefore := s.directionset, early := false)
    case StartNone => s.(control := Unstarted)
    case ResetListing => s.(control := if s.control.Started? then ListingReset else UnstartedReset, dirlisting := false)
    case ResetDirection => s.(control := Idle, directionset := false)
    case GiveUp => s.(control := if s.control.Started? then GivingUp else Gone)
    case Issue(c) => s.(control := Published(c), direction := c.Way(), issued := s.issued + [c])
    case PublishListing => s.(control := Listed, dirlisting := s.dirlisting || s.control.command.Listing())
    case PublishDirection => s.(control := Idle, directionset := true)
    case SetQuit => s.(control := if s.control.GivingUp? then Leaving else Joining, shouldquit := true)
    case Join => s.(control := if s.control.Leaving? then Gone else Idle, data := NoThread)
    case TestDirection =>
      if s.data.FirstWait? then s.(data := if s.directionset then RoleRead else FirstQuit)
      else s.(data := if s.directionset then ListingRead else SecondQuit, early := s.directionset && Window(s))
    case TestQuit =>
      s.(data := if s.shouldquit then Done else if s.data.FirstQuit? then FirstWait else if s.data.SecondQuit? then SecondWait else Copying)
    case Linked => s.(data := FirstWait)
    case Secured => s.(data := SecondWait)
    case ReadListing => s.(data := if s.data.RoleRead? then Handshake else DownloadRule, listing := s.dirlisting)
    case ReadDirection =>
      s.(data := if s.data.DownloadRule? then UploadRule else if s.data.UploadRule? then RelayRead else Loop,
         seen := s.seen + [Read(s.direction, |s.issued|)])
    case SkipRules => s.(data := RelayRead)
    case Copy => s.(data := Loop)
    case Finish => s.(data := Done)
  }

  predicate Runs(s: State, ms: seq<Move>)
    decreases |ms|
  {
    ms == [] || (Enabled(s, ms[0]) && Runs(Apply(s, ms[0]), ms[1..]))
  }

  function After(s: State, ms: seq<Move>): State
    requires Runs(s, ms)
    decreases |ms|
  {
    if ms == [] then s else After(Apply(s, ms[0]), ms[1..])
  }

  /** What a transfer command publishes: STOR an upload, RETR, LIST and NLST a download, and the last two a
      listing, which stays one until the next reset. */
  lemma CommandPublished(s: State, c: Command)
    requires s.control.Idle?
    ensures var ms := [Issue(c), PublishListing, PublishDirection];
      && Runs(s, ms)
      && After(s, ms) == s.(direction := if c == Stor then Upload else Download, directionset := true,
                            dirlisting := s.dirlisting || c == List || c == Nlst, issued := s.issued + [c])
  {
    var s1 := Apply(s, Issue(c));
    var s2 := Apply(s1, PublishListing);
    var s3 := Apply(s2, PublishDirection);
    assert [Issue(c), PublishListing, PublishDirection][1..] == [PublishListing, PublishDirection];
    assert [PublishListing, PublishDirection][1..] == [PublishDirection];
    assert Runs(s2, [PublishDirection]) && After(s2, [PublishDirection]) == s3;
    assert Runs(s1, [PublishListing, PublishDirection]) && After(s1, [PublishListing, PublishDirection]) == s3;
  }

  // The invariant

  /** A value of `direction` that is that of the latest command at the time. */
  predicate Own(r: Read, issued: seq<Command>) {
    1 <= r.after <= |issued| && r.value == issued[r.after - 1].Way()
  }

  ghost predicate OwnListing(s: State) {
    exists c | c in s.issued :: c.Listing()
  }

  /** What the control thread keeps. */
  ghost predicate Publishing(s: State) {
    && (Window(s) ==> s.issued == [] && s.directionset == s.setBefore)
    && (s.control.Published? ==> s.issued != [] && s.issued[|s.issued| - 1] == s.control.command)
    && (s.control.Listed? ==> s.issued != [])
    && (s.issued != [] ==> s.direction == s.issued[|s.issued| - 1].Way())
    && (!s.data.NoThread? && !Window(s) && s.directionset ==> s.issued != [])
    && (!s.data.NoThread? && !Window(s) && s.dirlisting ==> OwnListing(s))
    && (s.control.ListingReset? ==> !s.dirlisting)
  }

  /** Every read so far, in order, was of a command of the data thread itself. */
  ghost predicate OwnReads(s: State) {
    && (forall i | 0 <= i < |s.seen| :: Own(s.seen[i], s.issued))
    && (forall i, j | 0 <= i < j < |s.seen| :: s.seen[i].after <= s.seen[j].after)
  }

  /** What the data thread may rely on, unless it was early. */
  ghost predicate Reading(s: State) {
    && (s.data.Past() ==> s.issued != [] && !Window(s))
    && OwnReads(s)
    && (s.data.Past() && !s.data.ListingRead? && s.listing ==> OwnListing(s))
  }

  /** One read for each rule of an FXP transfer, and one for the relay. */
  predicate Counted(s: State) {
    match s.data
    case UploadRule => |s.seen| == 1
    case RelayRead => |s.seen| == 0 || |s.seen| == 2
    case Loop => |s.seen| == 1 || |s.seen| == 3
    case Copying => |s.seen| == 1 || |s.seen| == 3
    case Done => true
    case NoThread => true
    case _ => s.seen == []
  }

  ghost predicate Inv(s: State) {
    && (s.data.NoThread? ==> !s.control.Started? && !s.control.ListingReset? && !s.control.GivingUp? && !s.control.Joining? && !s.control.Leaving?)
    && Publishing(s)
    && (!s.early ==> Reading(s))
    && (s.early ==> s.setBefore)
    && Counted(s)
    && (!s.data.NoThread? ==> (s.control.Joining? || s.control.Leaving? <==> s.shouldquit))
    && (s.control.Unstarted? || s.control.UnstartedReset? || s.control.Gone? ==> s.data.NoThread?)
  }

  lemma ControlKeepsPublishing(s: State, m: Move)
    requires Inv(s) && Enabled(s, m) && !m.ByData()
    ensures Publishing(Apply(s, m))
  {
    var s' := Apply(s, m);
    match m {
      case Issue(c) =>
        assert c in s'.issued;
        assert forall d | d in s.issued :: d in s'.issued;
      case PublishListing =>
        assert s.issued[|s.issued| - 1] in s.issued;
      case _ =>
    }
  }

  lemma ControlKeepsReading(s: State, m: Move)
    requires Inv(s) && Enabled(s, m) && !m.ByData() && !s.early
    ensures Reading(Apply(s, m))
  {
    if m.Issue? {
      assert forall d | d in s.issued :: d in s.issued + [m.command];
    }
  }

  lemma OneMoreRead(s: State)
    requires Publishing(s) && OwnReads(s) && s.issued != []
    ensures OwnReads(s.(seen := s.seen + [Read(s.direction, |s.issued|)]))
  {
  }

  lemma DataKeepsReading(s: State, m: Move)
    requires Inv(s) && Enabled(s, m) && m.ByData() && !Apply(s, m).early
    ensures Reading(Apply(s, m))
  {
    if m.ReadDirection? {
      OneMoreRead(s);
    }
  }

  lemma DataKeepsPublishing(s: State, m: Move)
    requires Inv(s) && Enabled(s, m) && m.ByData()
    ensures Publishing(Apply(s, m)) && Counted(Apply(s, m))
  {
  }

  lemma DataStepKeepsInv(s: State, m: Move)
    requires Inv(s) && Enabled(s, m) && m.ByData()
    ensures Inv(Apply(s, m))
  {
    DataKeepsPublishing(s, m);
    if !Apply(s, m).early {
      DataKeepsReading(s, m);
    }
  }

  lemma ControlStepKeepsInv(s: State, m: Move)
    requires Inv(s) && Enabled(s, m) && !m.ByData()
    ensures Inv(Apply(s, m))
  {
    ControlKeepsPublishing(s, m);
    if !s.early {
      ControlKeepsReading(s, m);
    }
  }

  lemma StepKeepsInv(s: State, m: Move)
    requires Inv(s) && Enabled(s, m)
    ensures Inv(Apply(s, m))
  {
    if m.ByData() {
      DataStepKeepsInv(s, m);
    } else {
      ControlStepKeepsInv(s, m);
    }
  }

  lemma {:induction false} RunKeepsInv(s: State, ms: seq<Move>)
    requires Inv(s) && Runs(s, ms)
    ensures Inv(After(s, ms))
    decreases |ms|
  {
    if ms != [] {
      StepKeepsInv(s, ms[0]);
      RunKeepsInv(Apply(s, ms[0]), ms[1..]);
    }
  }

  /** In every interleaving: a data thread that did not leave its wait before the reset has left it
      after a command issued since its own start, and each read of `direction` gives that of the latest
      such command; it took its transfer for a listing only if there was such a LIST or NLST. */
  lemma DirectionIsOwn(ms: seq<Move>)
    requires Runs(START, ms) && !After(START, ms).early
    ensures var s := After(START, ms);
      && (s.data.Past() ==> s.issued != [])
      && OwnReads(s)
      && (s.data.Past() && !s.data.ListingRead? && s.listing ==> OwnListing(s))
  {
    RunKeepsInv(START, ms);
  }

  /** The data thread makes no step between its start and the reset, or between its start and the quit
      when the control thread gives up. */
  predicate ResetAtOnce(s: State, ms: seq<Move>)
    requires Runs(s, ms)
    decreases |ms|
  {
    ms == [] || ((Window(s) && !s.control.Leaving? ==> !ms[0].ByData()) && ResetAtOnce(Apply(s, ms[0]), ms[1..]))
  }

  /** Then only a thread that is asked to quit anyway can be early, and it copies nothing. */
  predicate EarlyQuits(s: State) {
    s.early ==> s.shouldquit && !s.data.Copying? && (s.control.Leaving? || s.data.NoThread?)
  }

  lemma EarlyOnlyQuitsStep(s: State, m: Move)
    requires Inv(s) && Enabled(s, m) && EarlyQuits(s)
    requires Window(s) && !s.control.Leaving? ==> !m.ByData()
    ensures EarlyQuits(Apply(s, m))
  {
  }

  lemma {:induction false} EarlyOnlyQuits(s: State, ms: seq<Move>)
    requires Inv(s) && Runs(s, ms) && ResetAtOnce(s, ms) && EarlyQuits(s)
    ensures EarlyQuits(After(s, ms))
    decreases |ms|
  {
    if ms != [] {
      StepKeepsInv(s, ms[0]);
      EarlyOnlyQuitsStep(s, ms[0]);
      EarlyOnlyQuits(Apply(s, ms[0]), ms[1..]);
    }
  }

  /** With start and reset as one block, every thread that relays a block has read the directions of
      commands of its own; a thread that passes its wait without one belongs to a session that is
      being left. */
  lemma DirectionIsOwnInBlocks(ms: seq<Move>)
    requires Runs(START, ms) && ResetAtOnce(START, ms)
    ensures var s := After(START, ms);
      && (s.data.Copying? ==> s.issued != [] && OwnReads(s))
      && (s.data.Past() && s.issued == [] ==> s.control.Leaving? && s.shouldquit)
  {
    RunKeepsInv(START, ms);
    EarlyOnlyQuits(START, ms);
  }

  // The reads of one transfer

  /** Whether every command issued between two reads goes the same way as the first read said. */
  predicate NoOtherWay(issued: seq<Command>, a: Read, b: Read)
    requires 0 <= a.after <= b.after <= |issued|
  {
    forall k | a.after <= k < b.after :: issued[k].Way() == a.value
  }

  /** Two reads agree exactly when the latest commands before them go the same way, and so in any case
      when no command of the other direction was issued in between. */
  lemma ReadsAgreeExactly(ms: seq<Move>, i: nat, j: nat)
    requires Runs(START, ms) && !After(START, ms).early
    requires i < j < |After(START, ms).seen|
    ensures var s := After(START, ms);
      && 1 <= s.seen[i].after <= s.seen[j].after <= |s.issued|
      && (s.seen[i].value == s.seen[j].value
          <==> s.issued[s.seen[i].after - 1].Way() == s.issued[s.seen[j].after - 1].Way())
      && (NoOtherWay(s.issued, s.seen[i], s.seen[j]) ==> s.seen[i].value == s.seen[j].value)
  {
    RunKeepsInv(START, ms);
    var s := After(START, ms);
    assert Own(s.seen[i], s.issued) && Own(s.seen[j], s.issued);
  }

  /** When at most one command comes in between, the relay goes the way that was accepted exactly when
      that command does. */
  lemma OneCommandBetween(ms: seq<Move>, i: nat, j: nat)
    requires Runs(START, ms) && !After(START, ms).early
    requires i < j < |After(START, ms).seen|
    requires After(START, ms).seen[j].after <= After(START, ms).seen[i].after + 1
    ensures var s := After(START, ms);
      && 0 <= s.seen[i].after <= s.seen[j].after <= |s.issued|
      && (s.seen[i].value == s.seen[j].value <==> NoOtherWay(s.issued, s.seen[i], s.seen[j]))
  {
    RunKeepsInv(START, ms);
    var s := After(START, ms);
    var (issued, a, b) := (s.issued, s.seen[i], s.seen[j]);
    assert Own(a, issued) && Own(b, issued);
    assert a.after <= b.after;
  }

  /** The read that the rule for the direction of the relay was applied to. */
  function RuleRead(seen: seq<Read>): Read
    requires |seen| == 3
  {
    if seen[2].value == Download then seen[0] else seen[1]
  }

  /** Whether the policy, having accepted a transfer with the directions that its rules read, has applied the
      rule of the direction that is relayed, whatever the settings and the lists are. */
  ghost predicate RelayIsChecked(seen: seq<Read>)
    requires |seen| == 3
  {
    forall g: Settings, r: Rights, t: Transfer, d: string
      | t.down == seen[0].value && t.up == seen[1].value && Allowed(g, r, t, d) :: RuleMet(g, r, t, seen[2].value)
  }

  /** In every interleaving, for a data thread that was not early and has read the direction for both rules
      and for the relay: an accepted transfer is sure to meet the rule of the direction it relays exactly
      when the latest commands before that rule and before the relay go the same way, and so in any case
      when no command of the other way came in between. */
  lemma AcceptedMeetsItsRuleExactly(ms: seq<Move>)
    requires Runs(START, ms) && !After(START, ms).early && |After(START, ms).seen| == 3
    ensures var (seen, issued) := (After(START, ms).seen, After(START, ms).issued);
      var rule := RuleRead(seen);
      && 1 <= rule.after <= seen[2].after <= |issued|
      && (RelayIsChecked(seen) <==> issued[rule.after - 1].Way() == issued[seen[2].after - 1].Way())
      && (NoOtherWay(issued, rule, seen[2]) ==> RelayIsChecked(seen))
  {
    var (seen, issued) := (After(START, ms).seen, After(START, ms).issued);
    ReadsAgreeExactly(ms, 0, 2);
    ReadsAgreeExactly(ms, 1, 2);
    RunKeepsInv(START, ms);
    assert Own(seen[2], issued);
    assert seen[2].value == Download || seen[2].value == Upload;
    RelayedDirectionIsChecked(seen[0].value, seen[1].value, seen[2].value);
  }

  // Some runs

  lemma {:induction false} RunsSnoc(s: State, ms: seq<Move>, m: Move)
    requires Runs(s, ms) && Enabled(After(s, ms), m)
    ensures Runs(s, ms + [m]) && After(s, ms + [m]) == Apply(After(s, ms), m)
    decreases |ms|
  {
    if ms == [] {
      assert [m][1..] == [];
    } else {
      assert (ms + [m])[1..] == ms[1..] + [m];
      RunsSnoc(Apply(s, ms[0]), ms[1..], m);
    }
  }

  /** Some further moves, one after the other. */
  lemma {:induction false} RunsOn(s: State, ms: seq<Move>, more: seq<Move>)
    requires Runs(s, ms) && Runs(After(s, ms), more)
    ensures Runs(s, ms + more) && After(s, ms + more) == After(After(s, ms), more)
    decreases |more|
  {
    if more == [] {
      assert ms + more == ms;
    } else {
      RunsSnoc(s, ms, more[0]);
      assert ms + more == (ms + [more[0]]) + more[1..];
      RunsOn(s, ms + [more[0]], more[1..]);
    }
  }

  predicate AllByData(ms: seq<Move>) {
    forall m | m in ms :: m.ByData()
  }

  /** A data thread that finds the direction set goes through both loops. */
  lemma PassFirstLoop(s: State) returns (ms: seq<Move>)
    requires s.data.Connecting? && s.directionset
    ensures Runs(s, ms) && AllByData(ms) && After(s, ms) == s.(data := Handshake, listing := s.dirlisting)
  {
    ms := [Linked];
    assert ms[1..] == [];
    RunsSnoc(s, ms, TestDirection);
    ms := ms + [TestDirection];
    RunsSnoc(s, ms, ReadListing);
    ms := ms + [ReadListing];
  }

  lemma PassSecondLoop(s: State) returns (ms: seq<Move>)
    requires s.data.Handshake? && s.directionset
    ensures Runs(s, ms) && AllByData(ms) && After(s, ms) == s.(data := DownloadRule, listing := s.dirlisting, early := Window(s))
  {
    ms := [Secured];
    assert ms[1..] == [];
    RunsSnoc(s, ms, TestDirection);
    ms := ms + [TestDirection];
    RunsSnoc(s, ms, ReadListing);
    ms := ms + [ReadListing];
  }

  lemma PassLoops(s: State) returns (ms: seq<Move>)
    requires s.data.Connecting? && s.directionset
    ensures Runs(s, ms) && AllByData(ms) && After(s, ms) == s.(data := DownloadRule, listing := s.dirlisting, early := Window(s))
  {
    ms := PassFirstLoop(s);
    var more := PassSecondLoop(After(s, ms));
    RunsOn(s, ms, more);
    ms := ms + more;
  }

  lemma FirstTransfer(c: Command) returns (ms: seq<Move>)
    ensures Runs(START, ms)
    ensures After(START, ms) == START.(data := Connecting, directionset := true, direction := c.Way(), dirlisting := c.Listing(), issued := [c])
  {
    ms := [Start];
    assert ms[1..] == [];
    RunsSnoc(START, ms, ResetListing);
    ms := ms + [ResetListing];
    RunsSnoc(START, ms, ResetDirection);
    ms := ms + [ResetDirection];
    RunsSnoc(START, ms, Issue(c));
    ms := ms + [Issue(c)];
    RunsSnoc(START, ms, PublishListing);
    ms := ms + [PublishListing];
    RunsSnoc(START, ms, PublishDirection);
    ms := ms + [PublishDirection];
  }

  /** The reads of a transfer with a second command after the first of them. */
  lemma CommandAfterOneRead(s: State, second: Command) returns (ms: seq<Move>)
    requires s.control.Idle? && s.data.DownloadRule? && s.seen == [] && |s.issued| == 1
    ensures Runs(s, ms) && After(s, ms).data.Loop? && After(s, ms).early == s.early
    ensures After(s, ms).seen == [Read(s.direction, 1), Read(second.Way(), 2), Read(second.Way(), 2)]
  {
    ms := [ReadDirection];
    assert ms[1..] == [];
    RunsSnoc(s, ms, Issue(second));
    ms := ms + [Issue(second)];
    RunsSnoc(s, ms, ReadDirection);
    ms := ms + [ReadDirection];
    RunsSnoc(s, ms, ReadDirection);
    ms := ms + [ReadDirection];
  }

  /** And after two of them. */
  lemma CommandAfterTwoReads(s: State, second: Command) returns (ms: seq<Move>)
    requires s.control.Idle? && s.data.DownloadRule? && s.seen == [] && |s.issued| == 1
    ensures Runs(s, ms) && After(s, ms).data.Loop? && After(s, ms).early == s.early
    ensures After(s, ms).seen == [Read(s.direction, 1), Read(s.direction, 1), Read(second.Way(), 2)]
  {
    ms := [ReadDirection];
    assert ms[1..] == [];
    RunsSnoc(s, ms, ReadDirection);
    ms := ms + [ReadDirection];
    RunsSnoc(s, ms, Issue(second));
    ms := ms + [Issue(second)];
    RunsSnoc(s, ms, ReadDirection);
    ms := ms + [ReadDirection];
  }

  /** A command that comes in between is seen by some reads and not by others: for any two commands
      there is a run, in which the thread is not early, whose first read sees the first command and whose
      last one sees the second, with the read for the second rule on either side. */
  lemma ReadsCanDiffer(first: Command, second: Command, k: nat) returns (ms: seq<Move>)
    requires 1 <= k <= 2
    ensures Runs(START, ms) && After(START, ms).data.Loop? && !After(START, ms).early
    ensures var seen := After(START, ms).seen;
      && |seen| == 3 && seen[0].value == first.Way() && seen[2].value == second.Way()
      && seen[1].value == if k == 1 then second.Way() else first.Way()
  {
    ms := FirstTransfer(first);
    var loops := PassLoops(After(START, ms));
    RunsOn(START, ms, loops);
    ms := ms + loops;
    var last;
    if k == 1 {
      last := CommandAfterOneRead(After(START, ms), second);
    } else {
      last := CommandAfterTwoReads(After(START, ms), second);
    }
    RunsOn(START, ms, last);
    ms := ms + last;
  }

  // The window between start and reset

  /** The data thread relays with what its predecessor left before the control thread goes on. */
  lemma Overtake(s: State) returns (ms: seq<Move>)
    requires s.control.Started? && s.data.Connecting? && s.directionset && !s.shouldquit && s.seen == []
    ensures Runs(s, ms) && AllByData(ms)
    ensures After(s, ms) == s.(data := Copying, early := true, listing := s.dirlisting, seen := [Read(s.direction, |s.issued|)])
  {
    ms := PassLoops(s);
    RunsSnoc(s, ms, SkipRules);
    ms := ms + [SkipRules];
    RunsSnoc(s, ms, ReadDirection);
    ms := ms + [ReadDirection];
    RunsSnoc(s, ms, TestQuit);
    ms := ms + [TestQuit];
  }

  predicate BeforeHandshake(d: Data) {
    d.Connecting? || d.FirstWait? || d.FirstQuit? || d.Done?
  }

  lemma WaitsOneStep(s: State, m: Move)
    requires Enabled(s, m) && m.ByData() && Window(s) && !s.directionset && BeforeHandshake(s.data)
    ensures var t := Apply(s, m); Window(t) && !t.directionset && BeforeHandshake(t.data)
  {
  }

  lemma {:induction false} WaitsUntilReset(s: State, ms: seq<Move>)
    requires Runs(s, ms) && AllByData(ms) && Window(s) && !s.directionset && BeforeHandshake(s.data)
    ensures !After(s, ms).data.Past()
    decreases |ms|
  {
    if ms != [] {
      assert ms[0] in ms;
      assert forall m | m in ms[1..] :: m in ms;
      WaitsOneStep(s, ms[0]);
      WaitsUntilReset(Apply(s, ms[0]), ms[1..]);
    }
  }

  /** Just after its start a data thread can relay with nothing issued for it exactly when the flag of
      its predecessor is still set. */
  lemma OvertakesExactlyIfSet(s: State)
    requires s.control.Started? && s.data.Connecting? && !s.shouldquit && s.seen == []
    ensures s.directionset <==> exists ms :: Runs(s, ms) && AllByData(ms) && After(s, ms).data.Copying?
  {
    if s.directionset {
      var ms := Overtake(s);
    } else {
      forall ms | Runs(s, ms) && AllByData(ms) ensures !After(s, ms).data.Copying? {
        WaitsUntilReset(s, ms);
      }
    }
  }

  lemma NextTransfer(s: State) returns (ms: seq<Move>)
    requires s.control.Idle? && s.data.Connecting?
    ensures Runs(s, ms)
    ensures After(s, ms) == State(Started, Connecting, s.directionset, s.direction, s.dirlisting, false, [], false, [], s.directionset, false)
  {
    ms := [Finish];
    assert ms[1..] == [];
    RunsSnoc(s, ms, SetQuit);
    ms := ms + [SetQuit];
    RunsSnoc(s, ms, Join);
    ms := ms + [Join];
    RunsSnoc(s, ms, Start);
    ms := ms + [Start];
  }

  /** Such a state is reached by any session that starts a second transfer, so the block assumption of
      `DirectionIsOwnInBlocks` is needed: this run ends in a relay for which nothing was issued. */
  lemma SecondTransferCanOvertake(c: Command) returns (ms: seq<Move>)
    ensures Runs(START, ms)
    ensures var s := After(START, ms); s.data.Copying? && s.issued == [] && s.seen == [Read(c.Way(), 0)]
  {
    ms := FirstTransfer(c);
    var next := NextTransfer(After(START, ms));
    RunsOn(START, ms, next);
    ms := ms + next;
    var last := Overtake(After(START, ms));
    RunsOn(START, ms, last);
    ms := ms + last;
  }

  // Quitting

  /** How many steps of its own a data thread that waits for the direction needs to give up. */
  function StepsToQuit(d: Data): nat {
    match d
    case FirstWait => 2
    case SecondWait => 2
    case FirstQuit => 1
    case SecondQuit => 1
    case _ => 0
  }

  lemma {:induction false} QuitWithin(s: State, more: seq<Move>)
    requires Runs(s, more) && AllByData(more)
    requires s.shouldquit && !s.directionset && (StepsToQuit(s.data) > 0 || s.data.Done?)
    ensures |more| <= StepsToQuit(s.data)
    ensures |more| == StepsToQuit(s.data) ==> After(s, more).data.Done?
    decreases |more|
  {
    if more != [] {
      assert more[0] in more;
      assert forall m | m in more[1..] :: m in more;
      QuitWithin(Apply(s, more[0]), more[1..]);
    }
  }

  /** Once asked to quit, a data thread in a wait loop whose direction is not set is done after its
      next quit test: at most two more of its steps, whichever these are. */
  lemma QuitEndsTheWait(ms: seq<Move>, more: seq<Move>)
    requires Runs(START, ms) && Runs(After(START, ms), more)
    requires var s := After(START, ms); (s.control.Joining? || s.control.Leaving?) && !s.directionset && StepsToQuit(s.data) > 0
    requires AllByData(more)
    ensures var s := After(START, ms);
      && |more| <= StepsToQuit(s.data)
      && (|more| == StepsToQuit(s.data) ==> After(s, more).data.Done?)
  {
    RunKeepsInv(START, ms);
    QuitWithin(After(START, ms), more);
  }

  /** How many more blocks a relaying thread copies. */
  function Copies(ms: seq<Move>): nat {
    if ms == [] then 0 else Copies(ms[1..]) + if ms[0].Copy? then 1 else 0
  }

  /** And a thread in the relay copies at most the block it has begun. */
  lemma {:induction false} QuitEndsTheRelay(s: State, more: seq<Move>)
    requires Runs(s, more) && AllByData(more) && s.shouldquit && !s.data.NoThread?
    ensures Copies(more) <= if s.data.Copying? then 1 else 0
    decreases |more|
  {
    if more != [] {
      assert more[0] in more;
      assert forall m | m in more[1..] :: m in more;
      QuitEndsTheRelay(Apply(s, more[0]), more[1..]);
    }
  }
}
