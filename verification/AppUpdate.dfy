/**
 One explicit application update against a player that may answer anything: at most one
 install, only after the staged package was seen to match, and always within the deadline.
 */
module AppUpdate {
  import opened Wrappers

  datatype Phase =
    | Idle | Downloading | Staged | AwaitingPermission | Installing | AwaitingConfirmation | Installed | Failed

  datatype Report = Report(
    phase: Phase, sha256: string, installedCode: nat, installedVersion: string,
    targetCode: nat, targetVersion: string, canRequestInstalls: bool)

  datatype Target = Target(tag: string, versionCode: nat, sha256: string, url: string)

  datatype Options = Options(prepareOnly: bool, versionGiven: bool)

  datatype Operation = Status | Prepare(url: string, sha256: string) | Install(sha256: string)

  // A call that left, when it started, the timeout it was given, and what came back.
  datatype Call = Call(operation: Operation, at: real, timeout: real, reply: Option<Report>)

  datatype Message =
    | NewerInstalled | AlreadyInstalled | InstallPending | Prepared | PermissionNeeded
    | Unconfirmed | Superseded | Verified | LocalStepNeeded

  datatype Error =
    | Expired | CallFailed | NoRelease | Downgrade | OtherPending | UpdateChanged | WrongPackage
    | PreparationFailed | Unexpected | ReceiptChanged | InstallationFailed

  datatype Outcome = Done(report: Report, message: Message) | Raised(error: Error)

  predicate Busy(phase: Phase) {
    phase in {Downloading, Staged, AwaitingPermission, Installing, AwaitingConfirmation}
  }

  function Version(tag: string): string { if tag == "" then "" else tag[1..] }

  /** The report describes exactly the selected package; a tag is the version after one leading character. */
  ghost predicate Describes(report: Report, target: Target) {
    && report.sha256 == target.sha256
    && report.targetCode == target.versionCode
    && if target.tag == "" then report.targetVersion == "" else target.tag == [target.tag[0]] + report.targetVersion
  }

  lemma VersionDescribes(report: Report, target: Target)
    ensures Describes(report, target) <==>
      && report.sha256 == target.sha256 && report.targetCode == target.versionCode
      && report.targetVersion == Version(target.tag)
  {
    if target.tag != "" { assert target.tag == [target.tag[0]] + target.tag[1..]; }
    if target.tag != "" && target.tag == [target.tag[0]] + report.targetVersion {
      assert report.targetVersion == target.tag[1..];
    }
  }

  /** An update is under way: neither never begun, nor done, nor failed. */
  ghost predicate Active(phase: Phase) { phase != Idle && phase != Installed && phase != Failed }

  // ---------------------------------------------------------------- the allowed conversations

  datatype Stage = Begin | Checked | Polling | Watching

  /** status, at most one prepare, statuses, at most one install, statuses. */
  function Next(stage: Stage, operation: Operation): Option<Stage> {
    match (stage, operation)
    case (Begin, Status) => Some(Checked)
    case (Checked, Prepare(_, _)) => Some(Polling)
    case (Checked, Status) => Some(Polling)
    case (Polling, Status) => Some(Polling)
    case (Checked, Install(_)) => Some(Watching)
    case (Polling, Install(_)) => Some(Watching)
    case (Watching, Status) => Some(Watching)
    case _ => None
  }

  function Walk(calls: seq<Call>): Option<Stage> {
    if calls == [] then Some(Begin)
    else
      match Walk(calls[..|calls| - 1])
      case None => None
      case Some(stage) => Next(stage, calls[|calls| - 1].operation)
  }

  lemma WalkAppend(calls: seq<Call>, call: Call)
    ensures Walk(calls + [call]) == if Walk(calls).None? then None else Next(Walk(calls).value, call.operation)
  {
    assert (calls + [call])[..|calls|] == calls;
  }

  /** Where each call stands in an allowed conversation. */
  lemma {:induction false} WalkPlaces(calls: seq<Call>, i: nat)
    requires Walk(calls).Some? && i < |calls|
    ensures calls[i].operation.Prepare? ==> i == 1
    ensures i == 0 ==> calls[0].operation == Status
    ensures calls[i].operation.Install? ==> i > 0 && Walk(calls) == Some(Watching)
    ensures calls[i].operation.Install? ==> forall j :: i < j < |calls| ==> calls[j].operation == Status
  {
    var front := calls[..|calls| - 1];
    WalkLength(front);
    if i < |calls| - 1 {
      WalkPlaces(front, i);
    }
  }

  lemma {:induction false} WalkLength(calls: seq<Call>)
    requires Walk(calls).Some?
    ensures Walk(calls).value == Begin <==> calls == []
    ensures Walk(calls).value == Checked <==> |calls| == 1
  {
    if calls != [] { WalkLength(calls[..|calls| - 1]); }
  }

  /** Installation is requested at most once in any allowed conversation. */
  lemma InstallAtMostOnce(calls: seq<Call>, i: nat, j: nat)
    requires Walk(calls).Some? && i < |calls| && j < |calls|
    requires calls[i].operation.Install? && calls[j].operation.Install?
    ensures i == j
  {
    WalkPlaces(calls, i);
    WalkPlaces(calls, j);
  }

  // ---------------------------------------------------------------- what every call was allowed by

  /** The first report lets the run go on: an older code is installed and no other package is pending. */
  ghost predicate Continues(first: Report, target: Target) {
    first.installedCode < target.versionCode && (Active(first.phase) ==> first.sha256 == target.sha256)
  }

  ghost predicate Opened(before: seq<Call>, target: Target) {
    before != [] && before[0].reply.Some? && Continues(before[0].reply.value, target)
  }

  /** The evidence in hand when a call leaves. */
  ghost predicate Justified(before: seq<Call>, operation: Operation, target: Target, options: Options) {
    match operation
    case Status =>
      before == []
      || (Installs(before) && (before[|before| - 1].reply.None? || Undecided(before[|before| - 1].reply.value, target)))
      || (&& !Installs(before) && Opened(before, target)
          && before[|before| - 1].reply.Some? && before[|before| - 1].reply.value.phase == Downloading)
    case Prepare(url, sha256) =>
      && |before| == 1 && Opened(before, target) && !Active(before[0].reply.value.phase)
      && url == target.url && sha256 == target.sha256
    case Install(sha256) =>
      && sha256 == target.sha256 && !options.prepareOnly
      && Opened(before, target) && before[|before| - 1].reply.Some?
      && Installable(before[|before| - 1].reply.value, target)
  }

  /** After the install request nothing can be told yet from this report. */
  ghost predicate Undecided(report: Report, target: Target) {
    && report.installedCode < target.versionCode && report.sha256 == target.sha256
    && report.phase != AwaitingPermission && report.phase != AwaitingConfirmation && report.phase != Failed
  }

  /** The last report before an install: this package, staged, and allowed to proceed. */
  ghost predicate Installable(report: Report, target: Target) {
    && Describes(report, target)
    && (report.phase == Staged || (report.phase == AwaitingPermission && report.canRequestInstalls))
  }

  /** What a returned message rests on. */
  ghost predicate Supported(calls: seq<Call>, target: Target, options: Options, outcome: Outcome) {
    outcome.Done? ==>
      var report, message := outcome.report, outcome.message;
      && (if message == Unconfirmed then LatestReport(calls) == Some(report) else LastReport(calls, report))
      && (Installs(calls) <==> message in {Verified, Superseded, LocalStepNeeded, Unconfirmed})
      && (message == Verified ==> report.installedCode == target.versionCode && Describes(report, target))
      && (message == Superseded ==> report.installedCode > target.versionCode)
      && (message == LocalStepNeeded ==>
            && report.installedCode < target.versionCode && report.sha256 == target.sha256
            && report.phase in {AwaitingPermission, AwaitingConfirmation})
      && (message == AlreadyInstalled ==> |calls| == 1 && report.installedCode == target.versionCode)
      && (message == NewerInstalled ==> |calls| == 1 && !options.versionGiven)
      && (message == NewerInstalled ==> report.installedCode > target.versionCode)
      && (message == InstallPending ==> Describes(report, target) && report.phase in {Installing, AwaitingConfirmation})
      && (message == Prepared ==> Describes(report, target) && options.prepareOnly)
      && (message == Prepared ==> report.phase in {Staged, AwaitingPermission})
      && (message == PermissionNeeded ==>
            Describes(report, target) && report.phase == AwaitingPermission && !report.canRequestInstalls)
  }

  /** Every refusal has its reason in the last reply, the release, or the time. */
  ghost predicate Explained(calls: seq<Call>, release: Option<Target>, options: Options, expired: bool, error: Error) {
    match error
    case Expired => expired
    case CallFailed => calls != [] && calls[|calls| - 1].reply.None?
    case NoRelease => release.None? && |calls| == 1 && calls[0].reply.Some?
    case _ =>
      && release.Some? && (error == Downgrade || error == OtherPending ==> |calls| == 1)
      && calls != [] && calls[|calls| - 1].reply.Some?
      && Refuses(release.value, options, Installs(calls), calls[|calls| - 1].reply.value, error)
  }

  /** A call that could not be made, or brought nothing back. */
  ghost predicate Stopped(calls: seq<Call>, expired: bool, error: Error) {
    match error
    case Expired => expired
    case CallFailed => calls != [] && calls[|calls| - 1].reply.None?
    case _ => false
  }

  /** What the last report showed when it led to this refusal. */
  ghost predicate Refuses(target: Target, options: Options, installed: bool, report: Report, error: Error) {
    match error
    case Downgrade => options.versionGiven && report.installedCode > target.versionCode
    case OtherPending =>
      report.installedCode < target.versionCode && Active(report.phase) && report.sha256 != target.sha256
    case UpdateChanged => report.sha256 != target.sha256 && (installed ==> report.installedCode < target.versionCode)
    case WrongPackage =>
      && !installed && report.sha256 == target.sha256
      && report.phase in {Staged, AwaitingPermission, Installing, AwaitingConfirmation}
      && !Describes(report, target)
    case PreparationFailed => !installed && report.sha256 == target.sha256 && report.phase == Failed
    case Unexpected => !installed && report.sha256 == target.sha256 && report.phase in {Idle, Installed}
    case ReceiptChanged => installed && report.installedCode == target.versionCode && !Describes(report, target)
    case InstallationFailed =>
      && installed && report.installedCode < target.versionCode
      && report.sha256 == target.sha256 && report.phase == Failed
    case _ => false
  }

  /** The last report any of these calls brought back. */
  ghost function LatestReport(calls: seq<Call>): Option<Report> {
    if calls == [] then None
    else if calls[|calls| - 1].reply.Some? then calls[|calls| - 1].reply
    else LatestReport(calls[..|calls| - 1])
  }

  ghost predicate LastReport(calls: seq<Call>, report: Report) {
    calls != [] && calls[|calls| - 1].reply == Some(report)
  }

  ghost predicate Installs(calls: seq<Call>) { Walk(calls) == Some(Watching) }

  /** Whether an install is in an allowed conversation, by looking for one. */
  lemma {:induction false} InstallsMeans(calls: seq<Call>)
    requires Walk(calls).Some?
    ensures Installs(calls) <==> exists i :: 0 <= i < |calls| && calls[i].operation.Install?
  {
    if calls != [] {
      var last := |calls| - 1;
      InstallsMeans(calls[..last]);
      if Installs(calls) && !calls[last].operation.Install? {
        var i :| 0 <= i < last && calls[..last][i].operation.Install?;
        assert calls[i].operation.Install?;
      }
      forall i | 0 <= i < |calls| && calls[i].operation.Install? ensures Installs(calls) { WalkPlaces(calls, i); }
    }
  }

  /** How the preparation may end, on the evidence of the calls so far. */
  ghost predicate StageResult(calls: seq<Call>, release: Option<Target>, target: Target, options: Options,
                              expired: bool, r: Result<Report, Outcome>)
  {
    && Walk(calls).Some? && !Installs(calls)
    && match r
       case Ok(report) =>
         && release.Some? && LastReport(calls, report) && !options.prepareOnly
         && Justified(calls, Install(target.sha256), target, options)
         && (Walk(calls) == Some(Checked) || Walk(calls) == Some(Polling))
       case Err(outcome) =>
         && Supported(calls, target, options, outcome)
         && (outcome.Raised? ==> Explained(calls, release, options, expired, outcome.error))
  }

  /** What judging the last report before an install may come to. */
  ghost predicate Decision(report: Report, target: Target, options: Options, r: Result<Report, Outcome>) {
    match r
    case Ok(staged) => staged == report && Installable(report, target) && !options.prepareOnly
    case Err(Raised(error)) =>
      error != Downgrade && error != OtherPending && Refuses(target, options, false, report, error)
    case Err(Done(reported, message)) =>
      && reported == report && Describes(report, target)
      && match message
         case InstallPending => report.phase in {Installing, AwaitingConfirmation}
         case Prepared => options.prepareOnly && report.phase in {Staged, AwaitingPermission}
         case PermissionNeeded => report.phase == AwaitingPermission && !report.canRequestInstalls
         case _ => false
  }

  lemma StoppedEarly(calls: seq<Call>, release: Option<Target>, target: Target, options: Options, expired: bool,
                     error: Error)
    requires Walk(calls).Some? && !Installs(calls) && Stopped(calls, expired, error)
    ensures StageResult(calls, release, target, options, expired, Err(Raised(error)))
  {
  }

  lemma ComparedEarly(calls: seq<Call>, target: Target, options: Options, expired: bool, report: Report)
    requires Walk(calls).Some? && !Installs(calls) && |calls| == 1 && LastReport(calls, report)
    requires Client.Compare(report, target, options).Some?
    ensures
      var outcome := Client.Compare(report, target, options).value;
      StageResult(calls, Some(target), target, options, expired, Err(outcome))
  {
  }

  lemma DecidedEarly(calls: seq<Call>, target: Target, options: Options, expired: bool, report: Report,
                     r: Result<Report, Outcome>)
    requires Walk(calls) == Some(Checked) || Walk(calls) == Some(Polling)
    requires calls != [] && LastReport(calls, report) && Decision(report, target, options, r)
    requires Opened(calls, target)
    ensures StageResult(calls, Some(target), target, options, expired, r)
  {
  }

  // ---------------------------------------------------------------- what an install is requested against

  /** A conversation this client may have had, begun with this report. */
  ghost predicate Conversation(calls: seq<Call>, first: Report, target: Target, options: Options) {
    && Walk(calls).Some? && calls != [] && calls[0].reply == Some(first)
    && forall i :: 0 <= i < |calls| ==> JustifiedAt(calls, i, target, options)
  }

  ghost predicate JustifiedAt(calls: seq<Call>, i: nat, target: Target, options: Options)
    requires i < |calls|
  {
    Justified(calls[..i], calls[i].operation, target, options)
  }

  /** If this call is an install, the last report before it still showed an older code. */
  ghost predicate SeesOlder(calls: seq<Call>, i: nat, target: Target)
    requires i < |calls|
  {
    calls[i].operation.Install? ==>
      i > 0 && calls[i - 1].reply.Some? && calls[i - 1].reply.value.installedCode < target.versionCode
  }

  /** The player is asked again before the install: to prepare the package, or while it downloads. */
  ghost predicate AskedAgain(first: Report, target: Target, options: Options) {
    !options.prepareOnly && Continues(first, target) && (!Active(first.phase) || first.phase == Downloading)
  }

  /** The installed code is compared in the first report only: a later one may show it newer. */
  ghost function OverNewer(first: Report, later: Report, target: Target): seq<Call> {
    var operation := if Active(first.phase) then Status else Prepare(target.url, target.sha256);
    [Call(Status, 0.0, 1.0, Some(first)), Call(operation, 1.0, 1.0, Some(later)),
     Call(Install(target.sha256), 2.0, 1.0, None)]
  }

  lemma OverNewerWalks(first: Report, later: Report, target: Target)
    ensures Walk(OverNewer(first, later, target)) == Some(Watching)
  {
    var calls := OverNewer(first, later, target);
    assert calls == ([] + [calls[0]]) + [calls[1]] + [calls[2]];
    WalkAppend([], calls[0]);
    WalkAppend([] + [calls[0]], calls[1]);
    WalkAppend([] + [calls[0]] + [calls[1]], calls[2]);
  }

  lemma InstallOverNewer(first: Report, later: Report, target: Target, options: Options)
    requires AskedAgain(first, target, options) && Installable(later, target)
    ensures Conversation(OverNewer(first, later, target), first, target, options)
  {
    var calls := OverNewer(first, later, target);
    OverNewerWalks(first, later, target);
    forall i | 0 <= i < |calls| ensures JustifiedAt(calls, i, target, options) {
      assert calls[..0] == [] && calls[..1] == [calls[0]] && calls[..2] == [calls[0], calls[1]];
    }
  }

  /** Without another question in between, the install is the second call. */
  lemma InstallIsSecond(calls: seq<Call>, first: Report, target: Target, options: Options, i: nat)
    requires Conversation(calls, first, target, options) && !AskedAgain(first, target, options)
    requires i < |calls| && calls[i].operation.Install?
    ensures i == 1 && SeesOlder(calls, i, target)
  {
    WalkPlaces(calls, i);
    assert JustifiedAt(calls, i, target, options);
    assert Opened(calls[..i], target);
    if i > 1 {
      assert JustifiedAt(calls, 1, target, options);
      assert calls[..1] == [calls[0]];
      if calls[1].operation.Install? { WalkPlaces(calls, 1); }
      StartsChecked(calls);
    }
  }

  lemma {:induction false} StartsChecked(calls: seq<Call>)
    requires Walk(calls).Some? && calls != []
    ensures Walk(calls[..1]) == Some(Checked)
  {
    if |calls| == 1 {
      assert calls[..1] == calls;
    } else {
      assert calls[..|calls| - 1][..1] == calls[..1];
      StartsChecked(calls[..|calls| - 1]);
    }
  }

  /** Every install is requested against an older code exactly when the player need not be asked again. */
  lemma InstallSeesOlder(first: Report, target: Target, options: Options)
    ensures
      (forall calls: seq<Call>, i: nat ::
         Conversation(calls, first, target, options) && i < |calls| ==> SeesOlder(calls, i, target))
      <==> !AskedAgain(first, target, options)
  {
    if AskedAgain(first, target, options) {
      var later := Report(Staged, target.sha256, target.versionCode, "", target.versionCode, Version(target.tag), true);
      InstallOverNewer(first, later, target, options);
      assert !SeesOlder(OverNewer(first, later, target), 2, target);
    } else {
      forall calls: seq<Call>, i: nat | Conversation(calls, first, target, options) && i < |calls|
        ensures SeesOlder(calls, i, target)
      {
        if calls[i].operation.Install? { InstallIsSecond(calls, first, target, options, i); }
      }
    }
  }

  // ---------------------------------------------------------------- the run

  lemma OneMoreCall(calls: seq<Call>, call: Call)
    ensures (calls + [call])[..|calls|] == calls
    ensures Walk(calls + [call]) == if Walk(calls).None? then None else Next(Walk(calls).value, call.operation)
    ensures call.reply.None? ==> LatestReport(calls + [call]) == LatestReport(calls)
  {
    WalkAppend(calls, call);
    assert (calls + [call])[..|calls|] == calls;
  }

  /** An upper bound on the one-second rounds left. */
  function Rounds(remaining: real): nat {
    if remaining <= 0.0 then 0 else remaining.Floor + 1
  }

  class Client {
    var timeout: real
    var now: real
    ghost var calls: seq<Call>

    constructor (timeout: real)
      ensures this.timeout == timeout && calls == []
    {
      this.timeout, now, calls := timeout, 0.0, [];
    }

    method Sleep(seconds: real)
      requires seconds >= 0.0
      modifies this`now
      ensures now >= old(now) + seconds
    {
      now := now + seconds;
      var late: real := *;
      if late > 0.0 { now := now + late; }
    }

    /** Every call so far was justified and began before the deadline, within its own timeout. */
    ghost predicate Safe(target: Target, options: Options, deadline: real, original: real)
      reads this
    {
      && Walk(calls).Some? && (calls != [] ==> now >= calls[|calls| - 1].at)
      && forall i :: 0 <= i < |calls| ==> CallSafe(calls, i, target, options, deadline, original)
    }

    static ghost predicate CallSafe(calls: seq<Call>, i: nat, target: Target, options: Options, deadline: real,
                                    original: real)
      requires i < |calls|
    {
      && Justified(calls[..i], calls[i].operation, target, options)
      && calls[i].at < deadline
      && calls[i].timeout <= original && calls[i].timeout <= deadline - calls[i].at
      && (calls[i].timeout == original || calls[i].timeout == deadline - calls[i].at)
      && Spaced(calls[..i], calls[i].operation, calls[i].at)
    }

    /** A status is asked for again no sooner than a second after the call that was last reported on. */
    static ghost predicate Spaced(before: seq<Call>, operation: Operation, at: real) {
      operation == Status && before != [] && before[|before| - 1].reply.Some? ==> at >= before[|before| - 1].at + 1.0
    }

    /** One call: refused locally once the deadline has passed, otherwise sent exactly once. */
    method Send(operation: Operation, ghost target: Target, ghost options: Options, deadline: real, original: real)
      returns (r: Result<Option<Report>, Error>)
      requires Safe(target, options, deadline, original)
      requires Justified(calls, operation, target, options) && Next(Walk(calls).value, operation).Some?
      requires now < deadline ==> Spaced(calls, operation, now)
      modifies this
      ensures Safe(target, options, deadline, original)
      ensures now >= old(now)
      ensures old(now) >= deadline ==> r == Err(Expired)
      ensures
        || calls == old(calls)
        || (&& |calls| == |old(calls)| + 1 && calls[..|calls| - 1] == old(calls)
            && calls[|calls| - 1].operation == operation)
      ensures r.Ok? && calls != old(calls) ==> calls[|calls| - 1].reply == r.value
      ensures r.Ok? ==> calls != old(calls) && Walk(calls) == Next(Walk(old(calls)).value, operation)
      ensures r.Ok? && r.value.Some? ==> LastReport(calls, r.value.value)
      ensures r.Ok? ==> (r.value.None? <==> operation.Install?)
      ensures calls != old(calls) && !(r.Ok? && r.value.Some?) ==> LatestReport(calls) == LatestReport(old(calls))
      ensures r.Err? && calls == old(calls) ==> r.error == Expired && now >= deadline
      ensures r.Err? && calls != old(calls) ==> r.error == CallFailed && calls[|calls| - 1].reply.None?
      ensures calls == old(calls) ==> r.Err?
    {
      var remaining := deadline - now;
      if remaining <= 0.0 { return Err(Expired); }
      timeout := if original <= remaining then original else remaining;
      var failed: bool := *;
      var report: Report := *;
      var reply := if failed || operation.Install? then None else Some(report);
      ghost var call := Call(operation, now, timeout, reply);
      OneMoreCall(calls, call);
      KeepsSafe(calls, call, target, options, deadline, original);
      calls := calls + [call];
      Sleep(0.0);
      r := if failed then Err(CallFailed) else Ok(reply);
    }

    static lemma KeepsSafe(calls: seq<Call>, call: Call, target: Target, options: Options, deadline: real,
                           original: real)
      requires forall i :: 0 <= i < |calls| ==> CallSafe(calls, i, target, options, deadline, original)
      requires Justified(calls, call.operation, target, options)
      requires call.at < deadline && call.timeout <= original && call.timeout <= deadline - call.at
      requires call.timeout == original || call.timeout == deadline - call.at
      requires Spaced(calls, call.operation, call.at)
      ensures forall i :: 0 <= i < |calls| + 1 ==> CallSafe(calls + [call], i, target, options, deadline, original)
    {
      forall i | 0 <= i < |calls| + 1 ensures CallSafe(calls + [call], i, target, options, deadline, original) {
        assert (calls + [call])[..i] == calls[..i];
        if i < |calls| { assert CallSafe(calls, i, target, options, deadline, original); }
        else { assert calls[..i] == calls; }
      }
    }

    static lemma SafeIsJustified(calls: seq<Call>, target: Target, options: Options, deadline: real, original: real)
      requires forall i :: 0 <= i < |calls| ==> CallSafe(calls, i, target, options, deadline, original)
      ensures forall i :: 0 <= i < |calls| ==> JustifiedAt(calls, i, target, options)
    {
      forall i | 0 <= i < |calls| ensures JustifiedAt(calls, i, target, options) {
        assert CallSafe(calls, i, target, options, deadline, original);
      }
    }

    method Poll(ghost target: Target, ghost options: Options, deadline: real, original: real)
      returns (r: Result<Report, Error>)
      requires Safe(target, options, deadline, original) && Next(Walk(calls).value, Status).Some?
      requires Justified(calls, Status, target, options) && (now < deadline ==> Spaced(calls, Status, now))
      modifies this
      ensures Safe(target, options, deadline, original) && now >= old(now)
      ensures old(now) >= deadline ==> r == Err(Expired)
      ensures |old(calls)| <= |calls| <= |old(calls)| + 1 && calls[..|old(calls)|] == old(calls)
      ensures r.Ok? ==>
        LastReport(calls, r.value) && Walk(calls) == Next(Walk(old(calls)).value, Status) && |calls| == |old(calls)| + 1
      ensures r.Err? ==> Walk(calls) == Walk(old(calls)) || Walk(calls) == Next(Walk(old(calls)).value, Status)
      ensures r.Err? ==> LatestReport(calls) == LatestReport(old(calls)) && Stopped(calls, now >= deadline, r.error)
    {
      ghost var before := calls;
      var sent := Send(Status, target, options, deadline, original);
      if calls != before {
        SplitLast(calls);
        WalkAppend(before, calls[|calls| - 1]);
      } else {
        assert calls[..|before|] == before;
      }
      r := if sent.Ok? then Ok(sent.value.value) else Err(sent.error);
    }

    /** Waits for the download, one status a second, until it is over or time is. */
    method AwaitDownload(first: Report, ghost target: Target, ghost options: Options, deadline: real, original: real)
      returns (r: Result<Report, Error>)
      requires Safe(target, options, deadline, original) && LastReport(calls, first) && Opened(calls, target)
      requires Walk(calls) == Some(Checked) || Walk(calls) == Some(Polling)
      modifies this
      ensures Safe(target, options, deadline, original)
      ensures Walk(calls) == Some(Checked) || Walk(calls) == Some(Polling)
      ensures calls[..1] == old(calls)[..1]
      ensures r.Ok? ==> LastReport(calls, r.value) && r.value.phase != Downloading
      ensures r.Err? ==> Stopped(calls, now >= deadline, r.error)
    {
      var report := first;
      while report.phase == Downloading
        invariant Safe(target, options, deadline, original) && LastReport(calls, report)
        invariant Walk(calls) == Some(Checked) || Walk(calls) == Some(Polling)
        invariant |calls| >= 1 && calls[..1] == old(calls)[..1] && Opened(calls, target)
        decreases Rounds(deadline - now)
      {
        Sleep(if deadline - now <= 0.0 then 0.0 else if deadline - now <= 1.0 then deadline - now else 1.0);
        ghost var before := calls;
        r := Poll(target, options, deadline, original);
        assert calls[..1] == before[..1] && calls[0] == calls[..1][0];
        if r.Err? { return; }
        report := r.value;
      }
      r := Ok(report);
    }

    /** After the install request: watches until an outcome can be told, or gives up as unconfirmed. */
    method Watch(staged: Report, target: Target, ghost options: Options, deadline: real, original: real)
      returns (outcome: Outcome)
      requires Safe(target, options, deadline, original) && Installs(calls)
      requires LatestReport(calls) == Some(staged) && calls[|calls| - 1].reply.None?
      modifies this
      ensures Safe(target, options, deadline, original) && Installs(calls)
      ensures Supported(calls, target, options, outcome)
      ensures outcome.Raised? ==> Explained(calls, Some(target), options, now >= deadline, outcome.error)
      ensures outcome.Done? && outcome.message == Unconfirmed ==> now >= deadline || calls[|calls| - 1].reply.None?
    {
      var report := staged;
      while true
        invariant Safe(target, options, deadline, original) && Installs(calls)
        invariant LatestReport(calls) == Some(report)
        invariant Justified(calls, Status, target, options) && (now < deadline ==> Spaced(calls, Status, now))
        decreases Rounds(deadline - now)
      {
        var polled := Poll(target, options, deadline, original);
        if polled.Err? { return Done(report, Unconfirmed); }
        report := polled.value;
        if report.installedCode > target.versionCode { return Done(report, Superseded); }
        if report.installedCode == target.versionCode {
          VersionDescribes(report, target);
          return if report.sha256 == target.sha256 && report.targetCode == target.versionCode
                    && report.targetVersion == Version(target.tag)
                 then Done(report, Verified) else Raised(ReceiptChanged);
        }
        if report.sha256 != target.sha256 { return Raised(UpdateChanged); }
        if report.phase == AwaitingPermission || report.phase == AwaitingConfirmation {
          return Done(report, LocalStepNeeded);
        }
        if report.phase == Failed { return Raised(InstallationFailed); }
        Sleep(if deadline - now <= 0.0 then 0.0 else if deadline - now <= 1.0 then deadline - now else 1.0);
      }
    }

    /** Status, release, and the preparation that leads up to an install. */
    method Stage(release: Option<Target>, ghost target: Target, options: Options, deadline: real, original: real)
      returns (r: Result<Report, Outcome>)
      requires calls == [] && (release.Some? ==> release.value == target)
      modifies this
      ensures Safe(target, options, deadline, original)
      ensures StageResult(calls, release, target, options, now >= deadline, r)
      ensures release.None? ==> r.Err? && r.error.Raised? && |calls| <= 1
    {
      var first := Poll(target, options, deadline, original);
      if first.Err? {
        StoppedEarly(calls, release, target, options, now >= deadline, first.error);
        return Err(Raised(first.error));
      }
      Sleep(0.0);  // reading the release takes time of its own
      if release.None? { return Err(Raised(NoRelease)); }
      var early := Compare(first.value, release.value, options);
      if early.Some? {
        ComparedEarly(calls, target, options, now >= deadline, first.value);
        r := Err(early.value);
      } else {
        r := Fetch(first.value, release.value, options, deadline, original);
      }
    }

    /** The package is prepared unless it already is, awaited, and judged. */
    method Fetch(first: Report, target: Target, options: Options, deadline: real, original: real)
      returns (r: Result<Report, Outcome>)
      requires Safe(target, options, deadline, original) && |calls| == 1 && LastReport(calls, first)
      requires Compare(first, target, options) == None
      modifies this
      ensures Safe(target, options, deadline, original)
      ensures StageResult(calls, Some(target), target, options, now >= deadline, r)
    {
      ghost var head := calls;
      var report := first;
      if !Busy(first.phase) {
        WalkLength(calls);
        var prepared := Send(Prepare(target.url, target.sha256), target, options, deadline, original);
        if calls != head {
          SplitLast(calls);
          WalkAppend(head, calls[|calls| - 1]);
        }
        if prepared.Err? {
          StoppedEarly(calls, Some(target), target, options, now >= deadline, prepared.error);
          return Err(Raised(prepared.error));
        }
        report := prepared.value.value;
        assert calls[0] == calls[..1][0] == head[0];
      }
      r := Download(first, report, target, options, deadline, original);
    }

    /** Awaits the download of a prepared package and judges what came of it. */
    method Download(ghost first: Report, report: Report, target: Target, options: Options, deadline: real,
                    original: real)
      returns (r: Result<Report, Outcome>)
      requires Safe(target, options, deadline, original) && LastReport(calls, report)
      requires Walk(calls) == Some(Checked) || Walk(calls) == Some(Polling)
      requires calls[0].reply == Some(first) && Continues(first, target)
      modifies this
      ensures Safe(target, options, deadline, original)
      ensures StageResult(calls, Some(target), target, options, now >= deadline, r)
    {
      ghost var before := calls;
      var downloaded := AwaitDownload(report, target, options, deadline, original);
      if downloaded.Err? {
        StoppedEarly(calls, Some(target), target, options, now >= deadline, downloaded.error);
        return Err(Raised(downloaded.error));
      }
      assert calls[0] == calls[..1][0] == before[..1][0];
      r := Decide(downloaded.value, target, options);
      DecidedEarly(calls, target, options, now >= deadline, downloaded.value, r);
    }

    /** The comparisons of the first report with the release: whether the run ends there. */
    static function Compare(report: Report, target: Target, options: Options): Option<Outcome> {
      if report.installedCode > target.versionCode
      then Some(if options.versionGiven then Raised(Downgrade) else Done(report, NewerInstalled))
      else if report.installedCode == target.versionCode then Some(Done(report, AlreadyInstalled))
      else if Busy(report.phase) && report.sha256 != target.sha256 then Some(Raised(OtherPending))
      else None
    }

    /** The checks between a finished download and the install request, in order. */
    static method Decide(report: Report, target: Target, options: Options) returns (r: Result<Report, Outcome>)
      requires report.phase != Downloading
      ensures Decision(report, target, options, r)
      ensures Installable(report, target) ==>
        r == if options.prepareOnly then Err(Done(report, Prepared)) else Ok(report)
    {
      VersionDescribes(report, target);
      if report.sha256 != target.sha256 { return Err(Raised(UpdateChanged)); }
      if report.phase in {Staged, AwaitingPermission, Installing, AwaitingConfirmation}
         && (report.targetCode != target.versionCode || report.targetVersion != Version(target.tag)) {
        return Err(Raised(WrongPackage));
      }
      if report.phase == Failed { return Err(Raised(PreparationFailed)); }
      if report.phase == AwaitingConfirmation || report.phase == Installing {
        return Err(Done(report, InstallPending));
      }
      if report.phase != Staged && report.phase != AwaitingPermission { return Err(Raised(Unexpected)); }
      if options.prepareOnly { return Err(Done(report, Prepared)); }
      if report.phase == AwaitingPermission && !report.canRequestInstalls {
        return Err(Done(report, PermissionNeeded));
      }
      return Ok(report);
    }

    /** The one install request, and what it leads to. */
    method InstallStaged(staged: Report, target: Target, ghost options: Options, deadline: real, original: real)
      returns (outcome: Outcome)
      requires Safe(target, options, deadline, original) && LastReport(calls, staged)
      requires Justified(calls, Install(target.sha256), target, options)
      requires Walk(calls) == Some(Checked) || Walk(calls) == Some(Polling)
      modifies this
      ensures Safe(target, options, deadline, original)
      ensures Supported(calls, target, options, outcome)
      ensures outcome.Raised? ==> Explained(calls, Some(target), options, now >= deadline, outcome.error)
      ensures outcome.Done? && outcome.message == Unconfirmed ==> now >= deadline || calls[|calls| - 1].reply.None?
    {
      ghost var before := calls;
      var sent := Send(Install(target.sha256), target, options, deadline, original);
      if calls != before {
        SplitLast(calls);
        WalkAppend(before, calls[|calls| - 1]);
      }
      if sent.Err? {
        outcome := Raised(sent.error);
      } else {
        outcome := Watch(staged, target, options, deadline, original);
      }
    }

    /** The whole update; the client's own timeout is restored on every way out. */
    method Update(release: Option<Target>, ghost target: Target, options: Options, wait: real)
      returns (outcome: Outcome)
      requires calls == [] && (release.Some? ==> release.value == target)
      modifies this
      ensures timeout == old(timeout)
      ensures Safe(target, options, old(now) + wait, old(timeout))
      ensures calls != [] && calls[0].reply.Some? ==> Conversation(calls, calls[0].reply.value, target, options)
      ensures Supported(calls, target, options, outcome)
      ensures outcome.Raised? ==> Explained(calls, release, options, now >= old(now) + wait, outcome.error)
      ensures outcome.Done? && outcome.message == Unconfirmed ==>
        now >= old(now) + wait || calls[|calls| - 1].reply.None?
    {
      var deadline, original := now + wait, timeout;
      var staged := Stage(release, target, options, deadline, original);
      if staged.Err? {
        outcome := staged.error;
      } else {
        outcome := InstallStaged(staged.value, release.value, options, deadline, original);
      }
      SafeIsJustified(calls, target, options, deadline, original);
      timeout := original;
    }
  }
}
