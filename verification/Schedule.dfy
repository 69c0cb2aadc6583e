/** Pacing of a transfer against one absolute deadline, in exact seconds. */
module Schedule {
  import opened Wrappers

  const MAX_CHUNKS: nat := 256
  const MIN_COMMAND_INTERVAL: real := 1.5
  const CONTROLLER_REQUESTS_PER_MINUTE: int := 240
  const DEVICE_REQUESTS_PER_MINUTE: int := 120
  const MAX_REQUESTS: int := 1000000

  datatype Error = InvalidLimits | InvalidBudget | DeadlineInsufficient | DeadlineExhausted

  datatype Budget = Budget(
    commands: nat, controllerRequests: int, deviceRequests: int,
    paced: real, http: real, reserve: real, minimum: real)

  datatype Window = Window(start: real, wait: real, timeout: real)

  function Max(a: real, b: real): real { if a >= b then a else b }

  function EstimateBudget(chunks: int, controls: int, controllerRequests: int, deviceRequests: int, reserve: real,
                          interval: real, controllerLimit: int, deviceLimit: int): Result<Budget, Error>
  {
    var commands := chunks + controls;
    if !(1 <= chunks <= MAX_CHUNKS && 1 <= controls <= MAX_CHUNKS) then Err(InvalidBudget)
    else if !(commands <= controllerRequests <= MAX_REQUESTS && commands <= deviceRequests <= MAX_REQUESTS) then
      Err(InvalidBudget)
    else if interval < MIN_COMMAND_INTERVAL || reserve <= 0.0 then Err(InvalidBudget)
    else if !(1 <= controllerLimit <= CONTROLLER_REQUESTS_PER_MINUTE && 1 <= deviceLimit <= DEVICE_REQUESTS_PER_MINUTE)
    then Err(InvalidLimits)
    else
      var paced := commands as real * interval;
      var http := Max(controllerRequests as real * 60.0 / controllerLimit as real,
          deviceRequests as real * 60.0 / deviceLimit as real);
      Ok(Budget(commands, controllerRequests, deviceRequests, paced, http, reserve, Max(paced, http) + reserve))
  }

  function RequireBudget(budget: Budget, deadline: real, now: real): Result<real, Error> {
    if deadline < 0.0 || now < 0.0 || budget.minimum <= 0.0 then Err(InvalidBudget)
    else if deadline - now < budget.minimum then Err(DeadlineInsufficient)
    else Ok(deadline - now)
  }

  function Start(now: real, previousStart: Option<real>, notBefore: Option<real>, interval: real): real {
    var paced := if previousStart.Some? then Max(now, previousStart.value + interval) else now;
    if notBefore.Some? then Max(paced, notBefore.value) else paced
  }

  function DispatchWindow(deadline: real, now: real, reserve: real, remaining: int,
                          previousStart: Option<real>, notBefore: Option<real>, interval: real): Result<Window, Error>
  {
    if deadline < 0.0 || now < 0.0 || interval < MIN_COMMAND_INTERVAL || !(1 <= remaining <= 2 * MAX_CHUNKS)
        || reserve <= 0.0
    then Err(InvalidBudget)
    else if previousStart.Some? && (previousStart.value < 0.0 || previousStart.value > now) then Err(InvalidBudget)
    else if notBefore.Some? && notBefore.value < 0.0 then Err(InvalidBudget)
    else
      var start := Start(now, previousStart, notBefore, interval);
      var timeout := deadline - start - reserve - (remaining - 1) as real * interval;
      if timeout <= 0.0 then Err(DeadlineExhausted) else Ok(Window(start, start - now, timeout))
  }

  // ---------------------------------------------------------------- the run

  // One dispatched command: when its window was computed, the window, when the call ended.
  datatype Dispatch = Dispatch(now: real, window: Window, end: real)

  /** What is fixed for a whole transfer. */
  datatype Terms = Terms(deadline: real, reserve: real, interval: real, commands: nat)

  function Grant(terms: Terms, sent: nat, now: real, previousStart: Option<real>): Result<Window, Error> {
    DispatchWindow(terms.deadline, now, terms.reserve, terms.commands - sent, previousStart, None, terms.interval)
  }

  function PreviousStart(run: seq<Dispatch>): Option<real> {
    if run == [] then None else Some(run[|run| - 1].window.start)
  }

  /** When the last call times out. */
  function Timeout(run: seq<Dispatch>): real
    requires run != []
  {
    run[|run| - 1].window.start + run[|run| - 1].window.timeout
  }

  /**
   A paced run: every window was granted against fresh time, not before the previous call had
   ended, and each call ended within its timeout.
   */
  ghost predicate Paced(terms: Terms, run: seq<Dispatch>) {
    run == [] ||
    (var front, last := run[..|run| - 1], run[|run| - 1];
     && Paced(terms, front)
     && (front != [] ==> front[|front| - 1].end <= last.now)
     && Grant(terms, |front|, last.now, PreviousStart(front)) == Ok(last.window)
     && last.window.start <= last.end <= last.window.start + last.window.timeout)
  }

  /** The budget admitted this transfer at the moment its first window is computed. */
  ghost predicate Admitted(terms: Terms, now: real) {
    exists chunks, controls, controllerRequests, deviceRequests, controllerLimit, deviceLimit, budget ::
      AdmittedBy(terms, now, chunks, controls, controllerRequests, deviceRequests, controllerLimit, deviceLimit, budget)
  }

  ghost predicate AdmittedBy(terms: Terms, now: real, chunks: int, controls: int, controllerRequests: int,
                             deviceRequests: int,
                             controllerLimit: int, deviceLimit: int, budget: Budget)
  {
    && EstimateBudget(chunks, controls, controllerRequests, deviceRequests, terms.reserve, terms.interval,
        controllerLimit, deviceLimit) == Ok(budget)
    && terms.commands == budget.commands
    && RequireBudget(budget, terms.deadline, now).Ok?
  }

  /** Where a granted window ends leaves exactly the reserve and one interval per later command. */
  lemma WindowEnd(terms: Terms, sent: nat, now: real, previousStart: Option<real>, window: Window)
    requires Grant(terms, sent, now, previousStart) == Ok(window)
    ensures window.start + window.timeout
        == terms.deadline - terms.reserve - (terms.commands - sent - 1) as real * terms.interval
    ensures window.start >= now && (previousStart.Some? ==> window.start >= previousStart.value + terms.interval)
    ensures window.timeout > 0.0 && sent < terms.commands
  {
  }

  lemma AdmissionMeans(terms: Terms, now: real, chunks: int, controls: int, controllerRequests: int,
                       deviceRequests: int, controllerLimit: int, deviceLimit: int, budget: Budget)
    requires AdmittedBy(terms, now, chunks, controls, controllerRequests, deviceRequests, controllerLimit, deviceLimit,
                        budget)
    ensures terms.deadline - now >= terms.commands as real * terms.interval + terms.reserve
    ensures terms.interval >= MIN_COMMAND_INTERVAL && terms.reserve > 0.0 && 2 <= terms.commands <= 2 * MAX_CHUNKS
    ensures now >= 0.0 && terms.deadline >= 0.0
  {
  }

  /** What admission promises: at least one interval per command, and the reserve. */
  lemma AdmissionPromises(terms: Terms, now: real)
    requires Admitted(terms, now)
    ensures terms.deadline - now >= terms.commands as real * terms.interval + terms.reserve
    ensures terms.interval >= MIN_COMMAND_INTERVAL && terms.reserve > 0.0 && 2 <= terms.commands <= 2 * MAX_CHUNKS
    ensures now >= 0.0 && terms.deadline >= 0.0
    ensures terms.commands as real * terms.interval == (terms.commands - 1) as real * terms.interval + terms.interval
  {
    var chunks, controls, c, d, cl, dl, budget :| AdmittedBy(terms, now, chunks, controls, c, d, cl, dl, budget);
    AdmissionMeans(terms, now, chunks, controls, c, d, cl, dl, budget);
    OneIntervalLess(terms.commands, terms.interval);
  }

  lemma OneIntervalLess(k: int, interval: real)
    ensures (k as real) * interval == (k - 1) as real * interval + interval
  {
  }

  /** The inductive step: the next window is granted until one interval after this one's timeout. */
  lemma NextWindow(terms: Terms, sent: nat, now: real, previousStart: Option<real>, window: Window, next: real)
    requires Grant(terms, sent, now, previousStart) == Ok(window) && sent + 1 < terms.commands
    requires window.start <= next
    ensures Grant(terms, sent + 1, next, Some(window.start)).Ok? <==>
      next < window.start + window.timeout + terms.interval
  {
    WindowEnd(terms, sent, now, previousStart, window);
    OneIntervalLess(terms.commands - sent - 1, terms.interval);
  }

  /**
   Recomputing after a wait: until the window's start nothing but the remaining delay changes, and
   past it the same end is kept, so a stale window never becomes a fresh timeout.
   */
  lemma RecomputedWindow(terms: Terms, sent: nat, now: real, previousStart: Option<real>, window: Window, later: real)
    requires Grant(terms, sent, now, previousStart) == Ok(window) && now <= later
    ensures
      var again := Grant(terms, sent, later, previousStart);
      && (again.Ok? <==> later < window.start + window.timeout)
      && (again.Ok? ==> again.value.start + again.value.timeout == window.start + window.timeout)
      && (later <= window.start ==> again == Ok(Window(window.start, window.start - later, window.timeout)))
  {
    WindowEnd(terms, sent, now, previousStart, window);
  }

  lemma FirstWindow(terms: Terms, now: real)
    requires Admitted(terms, now)
    ensures Grant(terms, 0, now, None).Ok?
  {
    AdmissionPromises(terms, now);
  }

  /**
   Schedulability: an admitted run gets its first window, and a run that has kept its timeouts
   gets the next one exactly until one interval after the last timeout.
   */
  lemma {:induction false} EveryWindowIsGranted(terms: Terms, run: seq<Dispatch>, next: real)
    requires Paced(terms, run) && |run| < terms.commands
    requires if run == [] then Admitted(terms, next) else run[|run| - 1].end <= next
    ensures Grant(terms, |run|, next, PreviousStart(run)).Ok? <==>
      run == [] || next < Timeout(run) + terms.interval
  {
    if run == [] {
      FirstWindow(terms, next);
    } else {
      var front, last := run[..|run| - 1], run[|run| - 1];
      NextWindow(terms, |front|, last.now, PreviousStart(front), last.window, next);
    }
  }

  /** Consecutive starts are at least one interval apart. */
  lemma {:induction false} StartsAreSpaced(terms: Terms, run: seq<Dispatch>, i: nat)
    requires Paced(terms, run) && i + 1 < |run|
    ensures run[i + 1].window.start >= run[i].window.start + terms.interval
  {
    var front, last := run[..|run| - 1], run[|run| - 1];
    if i + 1 == |run| - 1 {
      WindowEnd(terms, |front|, last.now, PreviousStart(front), last.window);
    } else {
      StartsAreSpaced(terms, front, i);
    }
  }

  /** No call, in particular the last, ends after the deadline less the receipt reserve. */
  lemma {:induction false} EndsInsideReserve(terms: Terms, run: seq<Dispatch>, i: nat)
    requires Paced(terms, run) && i < |run|
    ensures run[i].end <= terms.deadline - terms.reserve - (terms.commands - i - 1) as real * terms.interval
    ensures run[i].end <= terms.deadline - terms.reserve
  {
    var front, last := run[..|run| - 1], run[|run| - 1];
    if i == |run| - 1 {
      WindowEnd(terms, |front|, last.now, PreviousStart(front), last.window);
      assert (terms.commands - i - 1) as real * terms.interval >= 0.0;
    } else {
      EndsInsideReserve(terms, front, i);
    }
  }

  // ---------------------------------------------------------------- admission and windows in numbers

  /** Which budgets there are, and why there is none: the request rates are looked at last. */
  lemma BudgetExactly(chunks: int, controls: int, controllerRequests: int, deviceRequests: int, reserve: real,
                      interval: real, controllerLimit: int, deviceLimit: int)
    ensures
      var r := EstimateBudget(chunks, controls, controllerRequests, deviceRequests, reserve, interval,
                              controllerLimit, deviceLimit);
      var counted := 1 <= chunks <= 256 && 1 <= controls <= 256
                     && chunks + controls <= controllerRequests <= 1000000
                     && chunks + controls <= deviceRequests <= 1000000 && interval >= 1.5 && reserve > 0.0;
      var rated := 1 <= controllerLimit <= 240 && 1 <= deviceLimit <= 120;
      && (r.Ok? <==> counted && rated)
      && (r == Err(InvalidLimits) <==> counted && !rated)
      && (r.Ok? ==>
            && r.value.commands == chunks + controls && r.value.reserve == reserve
            && r.value.paced == (chunks + controls) as real * interval
            && r.value.controllerRequests == controllerRequests && r.value.deviceRequests == deviceRequests)
  {
  }

  /** A transfer is admitted exactly when the time left covers the reserve and each of the three rates. */
  lemma AdmittedExactly(chunks: int, controls: int, controllerRequests: int, deviceRequests: int, reserve: real,
                        interval: real, controllerLimit: int, deviceLimit: int, budget: Budget, deadline: real,
                        now: real)
    requires EstimateBudget(chunks, controls, controllerRequests, deviceRequests, reserve, interval, controllerLimit,
                            deviceLimit) == Ok(budget)
    ensures RequireBudget(budget, deadline, now).Ok? <==>
      && deadline >= 0.0 && now >= 0.0
      && deadline - now >= reserve + (chunks + controls) as real * interval
      && deadline - now >= reserve + controllerRequests as real * 60.0 / controllerLimit as real
      && deadline - now >= reserve + deviceRequests as real * 60.0 / deviceLimit as real
    ensures RequireBudget(budget, deadline, now) == Err(InvalidBudget) <==> deadline < 0.0 || now < 0.0
    ensures match RequireBudget(budget, deadline, now)
            case Ok(left) => left == deadline - now
            case Err(error) => error in {InvalidBudget, DeadlineInsufficient}
  {
    PositivePace(chunks + controls, interval);
  }

  lemma PositivePace(commands: int, interval: real)
    requires commands > 0 && interval > 0.0
    ensures commands as real * interval > 0.0
  {
  }

  /** The least moment not before any of the three it depends on. */
  ghost predicate Earliest(start: real, now: real, previousStart: Option<real>, notBefore: Option<real>,
                           interval: real)
  {
    && start >= now
    && (previousStart.Some? ==> start >= previousStart.value + interval)
    && (notBefore.Some? ==> start >= notBefore.value)
    && (|| start == now || (previousStart.Some? && start == previousStart.value + interval)
        || (notBefore.Some? && start == notBefore.value))
  }

  /** What a granted window is, and which questions are no questions. */
  lemma WindowExactly(deadline: real, now: real, reserve: real, remaining: int, previousStart: Option<real>,
                      notBefore: Option<real>, interval: real)
    ensures
      var r := DispatchWindow(deadline, now, reserve, remaining, previousStart, notBefore, interval);
      && (r == Err(InvalidBudget) <==>
            || deadline < 0.0 || now < 0.0 || reserve <= 0.0 || interval < 1.5 || remaining < 1 || remaining > 512
            || (previousStart.Some? && !(0.0 <= previousStart.value <= now))
            || (notBefore.Some? && notBefore.value < 0.0))
      && (r.Ok? ==>
            && Earliest(r.value.start, now, previousStart, notBefore, interval)
            && r.value.wait == r.value.start - now
            && r.value.start + r.value.timeout + reserve + (remaining - 1) as real * interval == deadline)
      && (r.Err? ==> r.error == InvalidBudget || r.error == DeadlineExhausted)
  {
  }

  // ---------------------------------------------------------------- edges

  /** Exactly when a window is granted, backpressure included. */
  lemma GrantedExactlyWhen(deadline: real, now: real, reserve: real, remaining: int,
                           previousStart: Option<real>, notBefore: Option<real>, interval: real)
    requires deadline >= 0.0 && now >= 0.0 && interval >= MIN_COMMAND_INTERVAL && 1 <= remaining <= 2 * MAX_CHUNKS
    requires reserve > 0.0
    requires previousStart.Some? ==> 0.0 <= previousStart.value <= now
    requires notBefore.Some? ==> notBefore.value >= 0.0
    ensures var cutoff := deadline - reserve - (remaining - 1) as real * interval;
      DispatchWindow(deadline, now, reserve, remaining, previousStart, notBefore, interval).Ok?
      <==> now < cutoff && (previousStart.Some? ==> previousStart.value + interval < cutoff)
           && (notBefore.Some? ==> notBefore.value < cutoff)
  {
  }

  /**
   With a POST already sent, admission promises the first window except in one case: the
   POST started this very moment and the budget leaves nothing beyond paced commands.
   */
  lemma FirstWindowAfterPost(terms: Terms, now: real, previous: real)
    requires Admitted(terms, now) && 0.0 <= previous <= now
    ensures Grant(terms, 0, now, Some(previous)).Err?
      <==> previous == now && terms.deadline - now == terms.commands as real * terms.interval + terms.reserve
  {
    AdmissionPromises(terms, now);
  }

  /** The exceptional case exists: two commands, 1.5 s apart, 1 s reserve, 4 s left. */
  lemma ExactBudgetAfterPost()
    ensures Admitted(Terms(4.0, 1.0, 1.5, 2), 0.0)
    ensures Grant(Terms(4.0, 1.0, 1.5, 2), 0, 0.0, Some(0.0)) == Err(DeadlineExhausted)
    ensures Grant(Terms(4.0, 1.0, 1.5, 2), 0, 0.0, None).Ok?
  {
    var budget := EstimateBudget(1, 1, 2, 2, 1.0, 1.5, 240, 120);
    assert AdmittedBy(Terms(4.0, 1.0, 1.5, 2), 0.0, 1, 1, 2, 2, 240, 120, budget.value);
  }
}
