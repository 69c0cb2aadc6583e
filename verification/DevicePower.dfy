/**
 One explicit shutdown through ADB: inspect, perhaps tap, perhaps press a key, perhaps ask the
 power service. The device answers as it likes; what is sent, how often, on what evidence, and
 which failures own up to a possible change are the subject.
 */
module DevicePower {
  import opened Wrappers

  datatype Point = Point(x: nat, y: nat)
  datatype Window = Window(token: string, user: string)
  datatype Reply = Reply(code: int, out: seq<byte>, err: seq<byte>)

  // A recognised power-off dialog: its window, where its OK button is, and whether that has focus.
  datatype Dialog = Dialog(window: Window, button: Point, focused: bool)

  datatype Command = Windows | Layout | Tap(at: Point) | Key | PowerOff

  // What happened on the wire, in order: a process was started, or one ended with its answer.
  datatype Event = Spawned(command: Command) | Returned(reply: Reply)

  datatype Trouble = TimedOut | Interrupted | NotStarted | Unreadable | Overlong
  datatype Kind = Process(trouble: Trouble) | Illegible | Incomplete | Unacknowledged | FocusNotVerified | Denied
  datatype Failure = Failure(kind: Kind, uncertain: bool)

  // What the world does at the next opportunity: no process, a process lost half-way, or an answer.
  datatype Step = Refused(trouble: Trouble) | Broken(trouble: Trouble) | Answered(reply: Reply)

  // Recognition of texts and layouts, taken as given.
  datatype Firmware = Firmware(
    legible: seq<byte> -> bool, blank: seq<byte> -> bool, complete: seq<byte> -> bool,
    window: seq<byte> -> Option<Window>, button: seq<byte> -> Option<Point>, focused: seq<byte> -> bool,
    denied: Reply -> bool)
  {
    predicate Clean(reply: Reply) { reply.code == 0 && blank(reply.out) && blank(reply.err) }

    /** The focused system dialog window of a complete snapshot, if there is one. */
    function Snapshot(reply: Reply): Result<Option<Window>, Kind> {
      if !legible(reply.out) then Err(Illegible)
      else if reply.code != 0 || !blank(reply.err) || !complete(reply.out) then Err(Incomplete)
      else Ok(window(reply.out))
    }

    function Positive(reply: Reply): Result<Option<Point>, Kind> {
      if reply.code != 0 || !blank(reply.err) then Ok(None)
      else if !legible(reply.out) then Err(Illegible)
      else Ok(button(reply.out))
    }

    /** Three answers read as one dialog: the same window before and after a recognised layout. */
    ghost function Reading(before: Reply, layout: Reply, after: Reply): Option<Dialog> {
      if Snapshot(before).Ok? && Snapshot(before).value.Some? && Snapshot(after) == Snapshot(before)
         && Positive(layout).Ok? && Positive(layout).value.Some?
      then Some(Dialog(Snapshot(before).value.value, Positive(layout).value.value, focused(layout.out)))
      else None
    }
  }

  /** An answer that acknowledges a command: no error code, and nothing printed on either stream. */
  ghost predicate Acknowledges(firmware: Firmware, reply: Reply) {
    reply.code == 0 && firmware.blank(reply.out) && firmware.blank(reply.err)
  }

  /** Exactly which three answers read as one dialog, and as which. */
  lemma ReadingExactly(firmware: Firmware, before: Reply, layout: Reply, after: Reply, dialog: Dialog)
    ensures firmware.Reading(before, layout, after) == Some(dialog) <==>
      && Lists(firmware, before, dialog.window) && Lists(firmware, after, dialog.window)
      && layout.code == 0 && firmware.blank(layout.err) && firmware.legible(layout.out)
      && firmware.button(layout.out) == Some(dialog.button)
      && dialog.focused == firmware.focused(layout.out)
  {
  }

  /** A complete, legible window list, without an error, that shows this window. */
  ghost predicate Lists(firmware: Firmware, reply: Reply, window: Window) {
    && reply.code == 0 && firmware.blank(reply.err) && firmware.legible(reply.out) && firmware.complete(reply.out)
    && firmware.window(reply.out) == Some(window)
  }

  /** What an inspection that fails fails with; a layout that could not be dumped is no failure but no dialog. */
  lemma InspectionFails(firmware: Firmware, reply: Reply)
    ensures firmware.Snapshot(reply) == Err(Illegible) <==> !firmware.legible(reply.out)
    ensures firmware.Snapshot(reply) == Err(Incomplete) <==>
      && firmware.legible(reply.out)
      && (reply.code != 0 || !firmware.blank(reply.err) || !firmware.complete(reply.out))
    ensures firmware.Snapshot(reply).Err? ==> firmware.Snapshot(reply).error in {Illegible, Incomplete}
    ensures firmware.Positive(reply).Err? <==>
      reply.code == 0 && firmware.blank(reply.err) && !firmware.legible(reply.out)
    ensures firmware.Positive(reply).Err? ==> firmware.Positive(reply).error == Illegible
    ensures reply.code != 0 || !firmware.blank(reply.err) ==> firmware.Positive(reply) == Ok(None)
  {
  }

  /** The dialog shown by the last six events: window list, layout, window list, each answered. */
  ghost function Seen(firmware: Firmware, trace: seq<Event>): Option<Dialog> {
    var n := |trace|;
    if n >= 6
       && trace[n - 6] == Spawned(Windows) && trace[n - 5].Returned?
       && trace[n - 4] == Spawned(Layout) && trace[n - 3].Returned?
       && trace[n - 2] == Spawned(Windows) && trace[n - 1].Returned?
    then firmware.Reading(trace[n - 5].reply, trace[n - 3].reply, trace[n - 1].reply)
    else None
  }

  ghost predicate Mutating(event: Event) {
    event.Spawned? && (event.command.Tap? || event.command == Key || event.command == PowerOff)
  }

  /** The commands sent that may change something. */
  ghost function Mutations(trace: seq<Event>): seq<Command> {
    if trace == [] then []
    else Mutations(trace[..|trace| - 1]) + Changes(trace[|trace| - 1])
  }

  ghost function Changes(event: Event): seq<Command> { if Mutating(event) then [event.command] else [] }

  /** Neither tapped nor pressed yet; the power service may have been asked. */
  ghost predicate Untouched(trace: seq<Event>) { Mutations(trace) == [] || Mutations(trace) == [PowerOff] }

  ghost predicate Powered(trace: seq<Event>) { PowerOff in Mutations(trace) }

  /** The answers that came back. */
  ghost function Heard(trace: seq<Event>): seq<Reply> {
    if trace == [] then []
    else
      var last := trace[|trace| - 1];
      Heard(trace[..|trace| - 1]) + if last.Returned? then [last.reply] else []
  }

  /** Nothing is invented and nothing skipped: the trace holds exactly the world's first answers. */
  ghost predicate Faithful(trace: seq<Event>, script: seq<Step>, cursor: nat) {
    && |Heard(trace)| == cursor <= |script|
    && forall i :: 0 <= i < cursor ==> script[i] == Answered(Heard(trace)[i])
  }

  lemma HeardOneMore(heard: seq<Reply>, script: seq<Step>, cursor: nat, trace: seq<Event>, reply: Reply)
    requires |heard| == cursor < |script| && script[cursor] == Answered(reply)
    requires forall i :: 0 <= i < cursor ==> script[i] == Answered(heard[i])
    requires Heard(trace) == heard + [reply]
    ensures Faithful(trace, script, cursor + 1)
  {
  }

  // ---------------------------------------------------------------- what may be sent, and when

  /** The trace ends with a tap on an unfocused button, acknowledged, and then the same window seen with focus. */
  ghost predicate FocusedByTap(firmware: Firmware, trace: seq<Event>) {
    var n := |trace|;
    && n >= 14
    && trace[n - 8].Spawned? && trace[n - 8].command.Tap?
    && trace[n - 7].Returned? && Acknowledges(firmware, trace[n - 7].reply)
    && Seen(firmware, trace).Some? && Seen(firmware, trace).value.focused
    && Seen(firmware, trace[..n - 8]).Some?
    && Seen(firmware, trace[..n - 8]).value
       == Dialog(Seen(firmware, trace).value.window, trace[n - 8].command.at, false)
  }

  ghost predicate Allowed(firmware: Firmware, before: seq<Event>, event: Event) {
    Mutating(event) ==>
      match event.command
      case PowerOff => Mutations(before) == []
      case Tap(at) =>
        && Untouched(before)
        && Seen(firmware, before).Some? && !Seen(firmware, before).value.focused
        && Seen(firmware, before).value.button == at
      case Key =>
        && Seen(firmware, before).Some? && Seen(firmware, before).value.focused
        && (Untouched(before) || (FocusedByTap(firmware, before) && Key !in Mutations(before)))
      case _ => true
  }

  ghost predicate Proper(firmware: Firmware, trace: seq<Event>) {
    trace == [] ||
    (Proper(firmware, trace[..|trace| - 1]) && Allowed(firmware, trace[..|trace| - 1], trace[|trace| - 1]))
  }

  ghost function Rank(command: Command): nat {
    match command case PowerOff => 1 case Tap(_) => 2 case Key => 3 case _ => 0
  }

  /** In every proper trace the changing commands are distinct and in the order service, tap, key. */
  lemma {:induction false} MutationsAscend(firmware: Firmware, trace: seq<Event>, i: nat, j: nat)
    requires Proper(firmware, trace) && i < j < |Mutations(trace)|
    ensures Rank(Mutations(trace)[i]) < Rank(Mutations(trace)[j])
  {
    var last := |trace| - 1;
    var front := trace[..last];
    MutationsAreChanges(front);
    if j < |Mutations(front)| {
      MutationsAscend(firmware, front, i, j);
    } else if trace[last].command == Key && !Untouched(front) {
      assert Mutations(front)[i] != Key;
    }
  }

  lemma {:induction false} MutationsAreChanges(trace: seq<Event>)
    ensures forall c :: c in Mutations(trace) ==> c.Tap? || c == Key || c == PowerOff
  {
    if trace != [] { MutationsAreChanges(trace[..|trace| - 1]); }
  }

  /** Each kind of change is sent at most once, and the service is never asked after a touch. */
  lemma SentAtMostOnce(firmware: Firmware, trace: seq<Event>, i: nat, j: nat)
    requires Proper(firmware, trace) && i < |Mutations(trace)| && j < |Mutations(trace)|
    requires Rank(Mutations(trace)[i]) == Rank(Mutations(trace)[j])
    ensures i == j
    ensures Mutations(trace)[i] == PowerOff ==> i == 0
  {
    MutationsAreChanges(trace);
    if i < j { MutationsAscend(firmware, trace, i, j); }
    if j < i { MutationsAscend(firmware, trace, j, i); }
    if 0 < i {
      assert Mutations(trace)[0] in Mutations(trace);
      MutationsAscend(firmware, trace, 0, i);
    }
  }

  lemma Extend(firmware: Firmware, trace: seq<Event>, event: Event)
    requires Proper(firmware, trace) && Allowed(firmware, trace, event)
    ensures Proper(firmware, trace + [event])
    ensures Mutations(trace + [event]) == Mutations(trace) + Changes(event)
    ensures Heard(trace + [event]) == Heard(trace) + if event.Returned? then [event.reply] else []
  {
    assert (trace + [event])[..|trace|] == trace;
  }

  lemma Answer(before: seq<Event>, after: seq<Event>, command: Command, reply: Reply)
    requires after == before + [Spawned(command), Returned(reply)]
    ensures |after| == |before| + 2 && after[..|before|] == before
    ensures after[|before|] == Spawned(command) && after[|before| + 1] == Returned(reply)
    ensures forall i :: 0 <= i < |before| ==> after[i] == before[i]
  {
  }

  lemma Prefix(start: seq<Event>, middle: seq<Event>, after: seq<Event>)
    requires |start| <= |middle| && middle[..|start|] == start && middle <= after
    ensures |middle| <= |after| && after[..|start|] == start
    ensures forall i :: 0 <= i < |middle| ==> after[i] == middle[i]
  {
  }

  lemma SeenIs(firmware: Firmware, trace: seq<Event>, from: nat, list: Reply, layout: Reply, again: Reply)
    requires |trace| == from + 6
    requires trace[from] == Spawned(Windows) && trace[from + 1] == Returned(list)
    requires trace[from + 2] == Spawned(Layout) && trace[from + 3] == Returned(layout)
    requires trace[from + 4] == Spawned(Windows) && trace[from + 5] == Returned(again)
    ensures Seen(firmware, trace) == firmware.Reading(list, layout, again)
  {
  }

  // ---------------------------------------------------------------- what the outcomes mean

  /** From here on the inspection found no dialog it knows: no window, no button, or not the same window. */
  ghost predicate NothingSince(firmware: Firmware, trace: seq<Event>, from: nat) {
    || (&& |trace| == from + 2 && trace[from] == Spawned(Windows) && trace[from + 1].Returned?
        && firmware.Snapshot(trace[from + 1].reply) == Ok(None))
    || (&& |trace| == from + 4 && trace[from] == Spawned(Windows) && trace[from + 2] == Spawned(Layout)
        && trace[from + 3].Returned? && firmware.Positive(trace[from + 3].reply) == Ok(None))
    || (&& |trace| == from + 6 && trace[from] == Spawned(Windows)
        && trace[from + 1].Returned? && trace[from + 5].Returned?
        && firmware.Snapshot(trace[from + 5].reply) != firmware.Snapshot(trace[from + 1].reply))
  }

  /** The last change was acknowledged cleanly: a key press, or a tap that made the dialog go away. */
  ghost predicate ConfirmedAt(firmware: Firmware, trace: seq<Event>, k: nat) {
    && k + 1 < |trace| && trace[k].Spawned? && trace[k + 1].Returned? && Acknowledges(firmware, trace[k + 1].reply)
    && (trace[k].command == Key || trace[k].command.Tap?)
    && Mutations(trace) != [] && Mutations(trace)[|Mutations(trace)| - 1] == trace[k].command
    && (trace[k].command == Key ==> k + 2 == |trace|)
    && (trace[k].command.Tap? ==> NothingSince(firmware, trace, k + 2))
  }

  ghost predicate Confirmed(firmware: Firmware, trace: seq<Event>) {
    exists k: nat :: ConfirmedAt(firmware, trace, k)
  }

  /** The power service alone was asked, answered cleanly, and no known dialog was left to answer. */
  ghost predicate Requested(firmware: Firmware, trace: seq<Event>) {
    && Mutations(trace) == [PowerOff]
    && exists k: nat ::
      && k < |trace| && trace[k].Returned? && Acknowledges(firmware, trace[k].reply)
      && !firmware.denied(trace[k].reply) && NothingSince(firmware, trace, k + 1)
  }

  datatype Outcome = Submitted | Accepted | Raised(failure: Failure)

  /** Exactly the failures that own up: something may have changed, and it was not one of two cases. */
  ghost predicate Honest(firmware: Firmware, trace: seq<Event>, failure: Failure) {
    && (failure.uncertain <==>
          Mutations(trace) != [] && failure.kind != Denied && !(!Powered(trace) && FocusedByTap(firmware, trace)))
    && (failure.kind == Denied ==>
          && Mutations(trace) == [PowerOff]
          && trace[|trace| - 1].Returned? && firmware.denied(trace[|trace| - 1].reply))
  }

  /** What reading the dialog leaves behind: nothing changed, and the answer is what the events show. */
  ghost predicate Watched(firmware: Firmware, before: seq<Event>, after: seq<Event>,
                          r: Result<Option<Dialog>, Failure>)
  {
    && |before| <= |after| <= |before| + 6 && after[..|before|] == before
    && Mutations(after) == Mutations(before)
    && Looked(firmware, |before|, after, r)
  }

  ghost predicate Looked(firmware: Firmware, from: nat, after: seq<Event>, r: Result<Option<Dialog>, Failure>) {
    match r
    case Err(failure) =>
      !failure.uncertain && failure.kind != Denied && (|after| == from + 6 ==> Seen(firmware, after) == None)
    case Ok(None) => NothingSince(firmware, after, from)
    case Ok(Some(dialog)) => |after| == from + 6 && Seen(firmware, after) == Some(dialog)
  }

  lemma ListFailed(firmware: Firmware, before: seq<Event>, after: seq<Event>, failure: Failure)
    requires after == before || after == before + [Spawned(Windows)]
    requires !failure.uncertain && failure.kind != Denied
    ensures Watched(firmware, before, after, Err(failure))
  {
    assert after[..|before|] == before;
  }

  lemma ListRead(firmware: Firmware, before: seq<Event>, after: seq<Event>, list: Reply)
    requires after == before + [Spawned(Windows), Returned(list)] && Mutations(after) == Mutations(before)
    ensures |after| == |before| + 2 && after[..|before|] == before
    ensures after[|before|] == Spawned(Windows) && after[|before| + 1] == Returned(list)
    ensures firmware.Snapshot(list).Err? ==>
      Watched(firmware, before, after, Err(Failure(firmware.Snapshot(list).error, false)))
    ensures firmware.Snapshot(list) == Ok(None) ==> Watched(firmware, before, after, Ok(None))
  {
  }

  // ---------------------------------------------------------------- the run

  class Adb {
    const firmware: Firmware
    const script: seq<Step>
    var cursor: nat
    ghost var trace: seq<Event>

    constructor (firmware: Firmware, script: seq<Step>)
      ensures this.firmware == firmware && this.script == script && cursor == 0 && trace == []
    {
      this.firmware, this.script, cursor, trace := firmware, script, 0, [];
    }

    /** Everything sent so far was allowed. */
    ghost predicate Going() reads this { Proper(firmware, trace) && Faithful(trace, script, cursor) }

    /** A failure has its reason in the world's next step or in the answer just received. */
    ghost predicate Caused(kind: Kind)
      reads this
    {
      var last := |trace| - 1;
      match kind
      case Process(trouble) => Upcoming(cursor) == Refused(trouble) || Upcoming(cursor) == Broken(trouble)
      case FocusNotVerified => Mutations(trace) != [] && Seen(firmware, trace).Some? && !FocusedByTap(firmware, trace)
      case Illegible => last >= 0 && trace[last].Returned? && !firmware.legible(trace[last].reply.out)
      case Incomplete => last >= 0 && trace[last].Returned? && firmware.Snapshot(trace[last].reply) == Err(Incomplete)
      case Unacknowledged => last >= 0 && trace[last].Returned? && !Acknowledges(firmware, trace[last].reply)
      case Denied => last >= 0 && trace[last].Returned? && firmware.denied(trace[last].reply)
    }

    /** The script ends when the time does. */
    function Upcoming(at: nat): Step { if at < |script| then script[at] else Refused(TimedOut) }

    /** A process is started. */
    method Start(command: Command)
      requires Going() && Allowed(firmware, trace, Spawned(command)) && !Upcoming(cursor).Refused?
      modifies this`trace
      ensures Going() && trace == old(trace) + [Spawned(command)]
      ensures Mutations(trace) == Mutations(old(trace)) + Changes(Spawned(command))
    {
      Extend(firmware, trace, Spawned(command));
      trace := trace + [Spawned(command)];
    }

    /** The world's next answer arrives. */
    method Hear(reply: Reply)
      requires Going() && Upcoming(cursor) == Answered(reply)
      modifies this`trace, this`cursor
      ensures Going() && trace == old(trace) + [Returned(reply)] && cursor == old(cursor) + 1
      ensures Mutations(trace) == Mutations(old(trace))
    {
      Extend(firmware, trace, Returned(reply));
      HeardOneMore(Heard(trace), script, cursor, trace + [Returned(reply)], reply);
      trace, cursor := trace + [Returned(reply)], cursor + 1;
    }

    /** One bounded command, started at most once; a failure before the start is never marked. */
    method Run(command: Command, mutation: bool) returns (r: Result<Reply, Failure>)
      requires Going() && Allowed(firmware, trace, Spawned(command))
      modifies this
      ensures Going()
      ensures match Upcoming(old(cursor))
              case Answered(reply) =>
                && r == Ok(reply) && trace == old(trace) + [Spawned(command), Returned(reply)]
                && cursor == old(cursor) + 1
              case Refused(trouble) =>
                r == Err(Failure(Process(trouble), false)) && trace == old(trace) && cursor == old(cursor)
              case Broken(trouble) =>
                && r == Err(Failure(Process(trouble), mutation))
                && trace == old(trace) + [Spawned(command)] && cursor == old(cursor)
      ensures
        var changes := if Upcoming(old(cursor)).Refused? then [] else Changes(Spawned(command));
        Mutations(trace) == Mutations(old(trace)) + changes
      ensures cursor >= old(cursor)
    {
      var step := Upcoming(cursor);
      if step.Refused? { return Err(Failure(Process(step.trouble), false)); }
      Start(command);
      if step.Broken? { return Err(Failure(Process(step.trouble), mutation)); }
      Hear(step.reply);
      assert trace == old(trace) + [Spawned(command), Returned(step.reply)];
      r := Ok(step.reply);
    }

    /** Reads the dialog as one consistent view; sends nothing that changes anything. */
    method ReadDialog() returns (r: Result<Option<Dialog>, Failure>)
      requires Going()
      modifies this
      ensures Going() && Watched(firmware, old(trace), trace, r)
      ensures r.Err? ==> Caused(r.error.kind)
      ensures r.Ok? ==> cursor > old(cursor)
      ensures Ahead(old(cursor)).Some? <==> r.Ok? && r.value.Some?
      ensures Ahead(old(cursor)).Some? ==> r == Ok(Ahead(old(cursor))) && cursor == old(cursor) + 3
    {
      ghost var start := trace;
      var list := Run(Windows, false);
      if list.Err? {
        ListFailed(firmware, start, trace, list.error);
        r := Err(list.error);
      } else {
        ListRead(firmware, start, trace, list.value);
        var window := firmware.Snapshot(list.value);
        if window.Err? {
          r := Err(Failure(window.error, false));
        } else if window.value.None? {
          r := Ok(None);
        } else {
          r := ReadLayout(start, list.value, window.value.value);
        }
      }
    }

    /** The layout under a listed window, and the same window once more. */
    method ReadLayout(ghost start: seq<Event>, ghost list: Reply, window: Window)
      returns (r: Result<Option<Dialog>, Failure>)
      requires Going() && firmware.Snapshot(list) == Ok(Some(window))
      requires |trace| == |start| + 2 && trace[..|start|] == start && Mutations(trace) == Mutations(start)
      requires trace[|start|] == Spawned(Windows) && trace[|start| + 1] == Returned(list)
      requires cursor > 0 && Upcoming(cursor - 1) == Answered(list)
      modifies this
      ensures Going() && Watched(firmware, start, trace, r)
      ensures r.Err? ==> Caused(r.error.kind)
      ensures r.Ok? ==> cursor > old(cursor)
      ensures Ahead(old(cursor) - 1).Some? <==> r.Ok? && r.value.Some?
      ensures Ahead(old(cursor) - 1).Some? ==> r == Ok(Ahead(old(cursor) - 1)) && cursor == old(cursor) + 2
    {
      ghost var listed := trace;
      var layout := Run(Layout, false);
      Prefix(start, listed, trace);
      if layout.Err? { return Err(layout.error); }
      Answer(listed, trace, Layout, layout.value);
      var button := firmware.Positive(layout.value);
      if button.Err? { return Err(Failure(button.error, false)); }
      if button.value.None? { return Ok(None); }
      r := ReadAgain(start, list, layout.value, window, button.value.value);
    }

    /** The window list a second time, with the same window still in focus. */
    method ReadAgain(ghost start: seq<Event>, ghost list: Reply, layout: Reply, window: Window, button: Point)
      returns (r: Result<Option<Dialog>, Failure>)
      requires Going() && firmware.Snapshot(list) == Ok(Some(window)) && firmware.Positive(layout) == Ok(Some(button))
      requires |trace| == |start| + 4 && trace[..|start|] == start && Mutations(trace) == Mutations(start)
      requires trace[|start|] == Spawned(Windows) && trace[|start| + 1] == Returned(list)
      requires trace[|start| + 2] == Spawned(Layout) && trace[|start| + 3] == Returned(layout)
      requires cursor > 1 && Upcoming(cursor - 2) == Answered(list) && Upcoming(cursor - 1) == Answered(layout)
      modifies this
      ensures Going() && Watched(firmware, start, trace, r)
      ensures r.Err? ==> Caused(r.error.kind)
      ensures r.Ok? ==> cursor > old(cursor)
      ensures Ahead(old(cursor) - 2).Some? <==> r.Ok? && r.value.Some?
      ensures Ahead(old(cursor) - 2).Some? ==> r == Ok(Ahead(old(cursor) - 2)) && cursor == old(cursor) + 1
    {
      ghost var laid := trace;
      var again := Run(Windows, false);
      Prefix(start, laid, trace);
      if again.Err? { return Err(again.error); }
      Answer(laid, trace, Windows, again.value);
      SeenIs(firmware, trace, |start|, list, layout, again.value);
      AheadIs(old(cursor) - 2, list, layout, again.value);
      r := Judge(window, button, firmware.focused(layout.out), firmware.Snapshot(again.value));
    }

    /** One dialog only if the window did not change in between. */
    static function Judge(window: Window, button: Point, focused: bool, after: Result<Option<Window>, Kind>)
      : Result<Option<Dialog>, Failure>
    {
      if after.Err? then Err(Failure(after.error, false))
      else if after != Ok(Some(window)) then Ok(None)
      else Ok(Some(Dialog(window, button, focused)))
    }

    /** The dialog the next three answers will show, when they come. */
    ghost function Ahead(at: nat): Option<Dialog> {
      if Upcoming(at).Answered? && Upcoming(at + 1).Answered? && Upcoming(at + 2).Answered?
      then firmware.Reading(Upcoming(at).reply, Upcoming(at + 1).reply, Upcoming(at + 2).reply)
      else None
    }

    lemma AheadIs(at: nat, list: Reply, layout: Reply, again: Reply)
      requires Upcoming(at) == Answered(list) && Upcoming(at + 1) == Answered(layout)
      requires Upcoming(at + 2) == Answered(again)
      ensures Ahead(at) == firmware.Reading(list, layout, again)
    {
    }

    /** Taps an unfocused OK button once and reads the dialog again: gone, focused, or a failure. */
    method TapAndLook(dialog: Dialog) returns (r: Result<bool, Failure>)
      requires Going() && Untouched(trace)
      requires Seen(firmware, trace) == Some(dialog) && !dialog.focused
      modifies this
      ensures Going() && TapResult(firmware, old(trace), trace, dialog, r)
      ensures r.Err? ==> Caused(r.error.kind)
      ensures TapLands(old(cursor), dialog) <==> r == Ok(false)
      ensures r == Ok(false) ==> cursor == old(cursor) + 4
    {
      ghost var before := trace;
      var tapped := Run(Tap(dialog.button), true);
      if tapped.Err? {
        TapFailed(firmware, before, trace, dialog, tapped.error);
        r := Err(tapped.error);
      } else {
        TapAnswered(firmware, before, trace, dialog, tapped.value);
        if firmware.Clean(tapped.value) {
          r := LookAfterTap(dialog, before);
        } else {
          r := Err(Failure(Unacknowledged, true));
        }
      }
    }

    /** The dialog once more, after an acknowledged tap. */
    method LookAfterTap(dialog: Dialog, ghost before: seq<Event>) returns (r: Result<bool, Failure>)
      requires Going() && Untouched(before) && Seen(firmware, before) == Some(dialog) && !dialog.focused
      requires |trace| == |before| + 2 && trace[..|before|] == before && trace[|before|] == Spawned(Tap(dialog.button))
      requires trace[|before| + 1].Returned? && Acknowledges(firmware, trace[|before| + 1].reply)
      requires Mutations(trace) == Mutations(before) + [Tap(dialog.button)]
      modifies this
      ensures Going() && TapResult(firmware, before, trace, dialog, r)
      ensures r.Err? ==> Caused(r.error.kind)
      ensures FocusAhead(old(cursor), dialog) <==> r == Ok(false)
      ensures r == Ok(false) ==> cursor == old(cursor) + 3
    {
      ghost var tapped := trace;
      var again := ReadDialog();
      Prefix(before, tapped, trace);
      r := AfterTap(dialog, again);
      TapLooked(firmware, before, trace, dialog, again);
    }

    /** Gone, focused in the same window, or anything else. */
    static function AfterTap(dialog: Dialog, again: Result<Option<Dialog>, Failure>): Result<bool, Failure> {
      match again
      case Err(failure) => Err(Failure(failure.kind, true))
      case Ok(None) => Ok(true)
      case Ok(Some(seen)) =>
        if seen.window != dialog.window || !seen.focused then Err(Failure(FocusNotVerified, true)) else Ok(false)
    }

    /** Presses the key on a dialog that was just seen with focus. */
    method Press() returns (r: Result<bool, Failure>)
      requires Going() && Allowed(firmware, trace, Spawned(Key))
      modifies this
      ensures Going()
      ensures r.Ok? ==> r.value && Confirmed(firmware, trace)
      ensures r.Err? ==> r.error.kind != Denied && Caused(r.error.kind)
      ensures if Upcoming(old(cursor)).Refused?
              then r == Err(Failure(Process(Upcoming(old(cursor)).trouble), false)) && trace == old(trace)
              else
                && Mutations(trace) == Mutations(old(trace)) + [Key]
                && (r.Err? ==> r.error.uncertain && !FocusedByTap(firmware, trace))
    {
      ghost var before := trace;
      var pressed := Run(Key, true);
      if pressed.Err? { return Err(pressed.error); }
      if !firmware.Clean(pressed.value) { return Err(Failure(Unacknowledged, true)); }
      assert ConfirmedAt(firmware, trace, |before|);
      r := Ok(true);
    }

    /** A tap that will be acknowledged and followed by the same window with focus. */
    ghost predicate TapLands(at: nat, dialog: Dialog) {
      Upcoming(at).Answered? && Acknowledges(firmware, Upcoming(at).reply) && FocusAhead(at + 1, dialog)
    }

    /** The next three answers will show the same window with focus. */
    ghost predicate FocusAhead(at: nat, dialog: Dialog) {
      Ahead(at).Some? && Ahead(at).value.window == dialog.window && Ahead(at).value.focused
    }

    /** The world in which a tap gives the button focus and the key's process then never starts. */
    ghost predicate Strands(at: nat) {
      && Ahead(at).Some? && !Ahead(at).value.focused
      && TapLands(at + 3, Ahead(at).value)
      && Upcoming(at + 7).Refused?
    }

    /** Something was sent since, and the failure does not say so. */
    ghost predicate Stranded(r: Result<bool, Failure>, before: seq<Command>)
      reads this`trace
    {
      r.Err? && !r.error.uncertain && Mutations(trace) != before
    }

    /** A touch first, and the key only if the touch gave nothing but focus. */
    method Touch(dialog: Dialog) returns (r: Result<bool, Failure>)
      requires Going() && Untouched(trace)
      requires Seen(firmware, trace) == Some(dialog) && !dialog.focused
      modifies this
      ensures Going() && Mutations(old(trace)) <= Mutations(trace)
      ensures Powered(trace) == Powered(old(trace))
      ensures r.Ok? ==> r.value && Confirmed(firmware, trace)
      ensures r.Err? ==> r.error.kind != Denied && Caused(r.error.kind)
      ensures r.Err? ==>
        (r.error.uncertain <==> Mutations(trace) != Mutations(old(trace)) && !FocusedByTap(firmware, trace))
      ensures
        Stranded(r, old(Mutations(trace))) <==> TapLands(old(cursor), dialog) && Upcoming(old(cursor) + 4).Refused?
      ensures Stranded(r, old(Mutations(trace))) ==>
        && r.error.kind == Process(Upcoming(old(cursor) + 4).trouble)
        && Mutations(trace) == Mutations(old(trace)) + [Tap(dialog.button)]
    {
      ghost var before := Mutations(trace);
      r := TapAndLook(dialog);
      ghost var tapped := Mutations(trace);
      StillPowered(before, tapped, Tap(dialog.button));
      if r != Ok(false) { return; }
      r := Press();
      StillPowered(tapped, Mutations(trace), Key);
      assert |Mutations(trace)| > |before|;
    }

    /** Answers a recognised dialog, with at most one tap and one key, or finds none and touches nothing. */
    method Confirm() returns (r: Result<bool, Failure>)
      requires Going() && Untouched(trace)
      modifies this
      ensures Going() && Mutations(old(trace)) <= Mutations(trace)
      ensures Powered(trace) == Powered(old(trace))
      ensures r == Ok(false) ==> cursor > old(cursor) && Mutations(trace) == Mutations(old(trace))
      ensures r == Ok(false) ==> NothingSince(firmware, trace, |old(trace)|) && trace[..|old(trace)|] == old(trace)
      ensures r == Ok(true) ==> Confirmed(firmware, trace)
      ensures r.Err? ==> r.error.kind != Denied && Caused(r.error.kind)
      ensures r.Err? ==>
        (r.error.uncertain <==> Mutations(trace) != Mutations(old(trace)) && !FocusedByTap(firmware, trace))
      ensures Stranded(r, old(Mutations(trace))) <==> Strands(old(cursor))
      ensures Strands(old(cursor)) ==>
        && r.error.kind == Process(Upcoming(old(cursor) + 7).trouble)
        && Mutations(trace) == Mutations(old(trace)) + [Tap(Ahead(old(cursor)).value.button)]
    {
      var read := ReadDialog();
      if read.Err? { return Err(read.error); }
      if read.value.None? { return Ok(false); }
      var dialog := read.value.value;
      if dialog.focused {
        r := Press();
      } else {
        r := Touch(dialog);
      }
    }

    /** Asks the power service once, looking in on its dialog while it has not answered. */
    method PowerDown() returns (outcome: Outcome)
      requires Going() && Mutations(trace) == []
      modifies this
      ensures Going()
      ensures outcome == Submitted ==> Confirmed(firmware, trace)
      ensures outcome == Accepted ==> Requested(firmware, trace)
      ensures outcome.Raised? ==> Honest(firmware, trace, outcome.failure) && Caused(outcome.failure.kind)
      ensures Mutations(trace) == [] || Powered(trace)
    {
      if Upcoming(cursor).Refused? { return Raised(Failure(Process(Upcoming(cursor).trouble), false)); }
      Start(PowerOff);
      while true
        invariant Going() && Mutations(trace) == [PowerOff]
        decreases |script| - cursor
      {
        var due: bool := *;
        if due {
          var checked := Confirm();
          if checked.Err? { return Raised(Failure(checked.error.kind, true)); }
          if checked.value { return Submitted; }
        } else {
          var step := Upcoming(cursor);
          if !step.Answered? { return Raised(Failure(Process(step.trouble), true)); }
          outcome := Settle(step.reply);
          return;
        }
      }
    }

    /** The power service has answered: a denial is final, anything unclean is uncertain, else one last look. */
    method Settle(reply: Reply) returns (outcome: Outcome)
      requires Going() && Mutations(trace) == [PowerOff] && Upcoming(cursor) == Answered(reply)
      modifies this
      ensures Going() && Powered(trace)
      ensures outcome == Submitted ==> Confirmed(firmware, trace)
      ensures outcome == Accepted ==> Requested(firmware, trace)
      ensures outcome.Raised? ==> Honest(firmware, trace, outcome.failure) && Caused(outcome.failure.kind)
      ensures firmware.denied(reply) ==> outcome == Raised(Failure(Denied, false))
    {
      ghost var before := trace;
      Hear(reply);
      if firmware.denied(reply) { return Raised(Failure(Denied, false)); }
      if !firmware.Clean(reply) { return Raised(Failure(Unacknowledged, true)); }
      ghost var returned := trace;
      var checked := Confirm();
      if checked.Err? { return Raised(Failure(checked.error.kind, true)); }
      if checked.value { return Submitted; }
      assert trace[|before|] == returned[|before|] == Returned(reply);
      outcome := Accepted;
    }

    /** The whole shutdown: an open dialog is answered instead of asking the service for another. */
    method Shutdown() returns (outcome: Outcome)
      requires trace == [] && cursor == 0
      modifies this
      ensures Going()
      ensures outcome == Submitted ==> Confirmed(firmware, trace)
      ensures outcome == Accepted ==> Requested(firmware, trace)
      ensures outcome.Raised? ==> Honest(firmware, trace, outcome.failure) && Caused(outcome.failure.kind)
      // Unmarked after a change, and not by the service's own denial: exactly in the worlds that strand the run.
      ensures
        (&& outcome.Raised? && !outcome.failure.uncertain && outcome.failure.kind != Denied
         && Mutations(trace) != [])
        <==> Strands(0)
      ensures Strands(0) ==>
        outcome.failure.kind == Process(Upcoming(7).trouble) && Mutations(trace) == [Tap(Ahead(0).value.button)]
    {
      var answered := Confirm();
      if answered.Err? { return Raised(answered.error); }
      if answered.value { return Submitted; }
      outcome := PowerDown();
    }
  }

  /** A world in which the confirmation is tapped and the failure that follows still does not say so. */
  method TappedButUnmarked() returns (outcome: Outcome, ghost sent: seq<Command>)
    ensures outcome == Raised(Failure(Process(NotStarted), false))
    ensures sent == [Tap(Point(7, 9))]
  {
    var firmware := Firmware(
      _ => true, raw => raw == [], _ => true,
      _ => Some(Window("a1", "u0")), _ => Some(Point(7, 9)), raw => raw == [1],
      _ => false);
    var quiet := Answered(Reply(0, [], []));
    var script := [quiet, quiet, quiet, quiet, quiet, Answered(Reply(0, [1], [])), quiet, Refused(NotStarted)];
    var adb := new Adb(firmware, script);
    assert adb.Ahead(0) == Some(Dialog(Window("a1", "u0"), Point(7, 9), false));
    assert adb.Ahead(4) == Some(Dialog(Window("a1", "u0"), Point(7, 9), true));
    outcome := adb.Shutdown();
    sent := Mutations(adb.trace);
  }

  lemma StillPowered(before: seq<Command>, after: seq<Command>, command: Command)
    requires command != PowerOff && (after == before || after == before + [command])
    ensures before <= after && (PowerOff in before <==> PowerOff in after)
  {
  }

  /** After a tap, six more events must show the dialog before it counts as focused. */
  lemma FocusNeedsSeen(firmware: Firmware, trace: seq<Event>, at: nat)
    requires at + 2 <= |trace| <= at + 8
    requires trace[at].Spawned? && trace[at].command.Tap? && trace[at + 1].Returned?
    requires FocusedByTap(firmware, trace)
    ensures |trace| == at + 8 && Seen(firmware, trace).Some? && Seen(firmware, trace[..at]).Some?
    ensures Seen(firmware, trace).value.focused
    ensures Seen(firmware, trace[..at]).value.window == Seen(firmware, trace).value.window
    ensures Acknowledges(firmware, trace[at + 1].reply)
  {
  }

  /** After an acknowledged tap, focus is established exactly by reading the same window with focus. */
  lemma FocusIff(firmware: Firmware, trace: seq<Event>, before: seq<Event>, dialog: Dialog)
    requires |before| + 2 <= |trace| <= |before| + 8 && trace[..|before|] == before
    requires trace[|before|] == Spawned(Tap(dialog.button)) && trace[|before| + 1].Returned?
    requires Acknowledges(firmware, trace[|before| + 1].reply)
    requires Seen(firmware, before) == Some(dialog) && !dialog.focused
    ensures FocusedByTap(firmware, trace) <==>
            |trace| == |before| + 8 && Seen(firmware, trace).Some?
            && Seen(firmware, trace).value.focused && Seen(firmware, trace).value.window == dialog.window
  {
    if FocusedByTap(firmware, trace) { FocusNeedsSeen(firmware, trace, |before|); }
  }

  /** What the tap and the look after it amount to. */
  ghost predicate TapResult(firmware: Firmware, before: seq<Event>, after: seq<Event>, dialog: Dialog,
                            r: Result<bool, Failure>)
  {
    && (Mutations(after) == Mutations(before) || Mutations(after) == Mutations(before) + [Tap(dialog.button)])
    && match r
       case Ok(true) => Mutations(after) != Mutations(before) && Confirmed(firmware, after)
       case Ok(false) =>
         && Mutations(after) != Mutations(before) && FocusedByTap(firmware, after)
         && Allowed(firmware, after, Spawned(Key))
       case Err(failure) =>
         && failure.kind != Denied && !FocusedByTap(firmware, after)
         && (failure.uncertain <==> Mutations(after) != Mutations(before))
  }

  /** The tap was not sent, or was sent and never answered. */
  lemma TapFailed(firmware: Firmware, before: seq<Event>, after: seq<Event>, dialog: Dialog, failure: Failure)
    requires Untouched(before) && failure.kind != Denied
    requires if failure.uncertain then after == before + [Spawned(Tap(dialog.button))] else after == before
    ensures TapResult(firmware, before, after, dialog, Err(failure))
  {
    if failure.uncertain {
      assert after[..|before|] == before;
      assert after[|before|] == Spawned(Tap(dialog.button));
    }
    NotByTap(firmware, before, after);
  }

  lemma TapAnswered(firmware: Firmware, before: seq<Event>, after: seq<Event>, dialog: Dialog, reply: Reply)
    requires after == before + [Spawned(Tap(dialog.button)), Returned(reply)]
    requires Mutations(after) == Mutations(before) + [Tap(dialog.button)]
    ensures |after| == |before| + 2 && after[..|before|] == before
    ensures after[|before|] == Spawned(Tap(dialog.button)) && after[|before| + 1] == Returned(reply)
    ensures TapResult(firmware, before, after, dialog, Err(Failure(Unacknowledged, true)))
  {
    if FocusedByTap(firmware, after) { FocusNeedsSeen(firmware, after, |before|); }
  }

  lemma TapLooked(firmware: Firmware, before: seq<Event>, after: seq<Event>, dialog: Dialog,
                  again: Result<Option<Dialog>, Failure>)
    requires Untouched(before) && Seen(firmware, before) == Some(dialog) && !dialog.focused
    requires |before| + 2 <= |after| <= |before| + 8 && after[..|before|] == before
    requires after[|before|] == Spawned(Tap(dialog.button)) && after[|before| + 1].Returned?
    requires Acknowledges(firmware, after[|before| + 1].reply)
    requires Mutations(after) == Mutations(before) + [Tap(dialog.button)]
    requires Looked(firmware, |before| + 2, after, again)
    ensures TapResult(firmware, before, after, dialog, Adb.AfterTap(dialog, again))
  {
    FocusIff(firmware, after, before, dialog);
    if again == Ok(None) { assert ConfirmedAt(firmware, after, |before|); }
  }

  /** A failure between the tap and its key: the last six events cannot show the dialog again. */
  lemma NotByTap(firmware: Firmware, before: seq<Event>, trace: seq<Event>)
    requires Untouched(before)
    requires trace == before || (|trace| == |before| + 1 && trace[|before|].Spawned? && trace[..|before|] == before)
    ensures !FocusedByTap(firmware, trace)
  {
    if trace == before && FocusedByTap(firmware, trace) {
      TapIsChange(trace, |trace| - 8);
    }
  }

  lemma {:induction false} TapIsChange(trace: seq<Event>, k: nat)
    requires k < |trace| && trace[k].Spawned? && trace[k].command.Tap?
    ensures trace[k].command in Mutations(trace)
  {
    if k < |trace| - 1 { TapIsChange(trace[..|trace| - 1], k); }
  }
}
