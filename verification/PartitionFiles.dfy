/**
 RunParallelPartitionFiles: workers take part numbers from an atomic dispenser and write one file per part.
 One action is one atomic operation, or one call of GeneratePartitionToOwnFile with any return code.
 */
module PartitionFiles {

  /** Where a worker stands; `LoadClosed` and `FetchAdd` are the two operations of the dispenser's Pop. */
  datatype WorkerPc =
    | LoadClosed
    | FetchAdd
    | CheckStop(part: nat)
    | Generating(part: nat)
    | StoreError(part: nat, rc: int)
    | StoreStop
    | CloseQueue
    | Done
    | Threw(part: nat)

  datatype MainPc = Joining(worker: nat) | Returned(rc: int)

  /** What became of a part a worker took. */
  datatype Outcome = Generated | Failed(rc: int) | Skipped | Lost

  /** A part number handed out, and to whom. */
  datatype Ticket = Ticket(worker: nat, part: nat)

  /** `tickets` and `outcomes` are history. */
  datatype State = State(
    partCount: nat,
    next: nat,
    closed: bool,
    stop: bool,
    firstError: int,
    workers: map<nat, WorkerPc>,
    workerCount: nat,
    main: MainPc,
    tickets: seq<Ticket>,
    outcomes: map<nat, Outcome>)

  datatype Action = WorkerStep(worker: nat, rc: int, throws: bool) | MainStep

  /** ResolveWorkerCount: 0 means one worker per part; never more workers than parts, never none. */
  function ResolveWorkerCount(configured: nat, partCount: nat): (workers: nat)
    ensures 1 <= workers && (partCount >= 1 ==> workers <= partCount)
    ensures configured >= 1 ==> workers <= configured
  {
    var maxWorkers := if partCount < 1 then 1 else partCount;
    if configured == 0 then maxWorkers else if configured < maxWorkers then configured else maxWorkers
  }

  function Workers(n: nat): (workers: map<nat, WorkerPc>)
    ensures forall w: nat :: w in workers <==> w < n
    ensures forall w | w in workers :: workers[w] == LoadClosed
  {
    if n == 0 then map[] else Workers(n - 1)[n - 1 := LoadClosed]
  }

  function Launch(partCount: nat, configured: nat): State {
    var n := ResolveWorkerCount(configured, partCount);
    State(partCount, 1, false, false, 0, Workers(n), n, Joining(0), [], map[])
  }

  predicate Ended(pc: WorkerPc) {
    pc.Done? || pc.Threw?
  }

  predicate Enabled(s: State, a: Action) {
    match a
    case WorkerStep(w, _, _) => w in s.workers && !Ended(s.workers[w])
    case MainStep =>
      && s.main.Joining?
      && (s.main.worker < s.workerCount ==> s.main.worker in s.workers && Ended(s.workers[s.main.worker]))
  }

  function Goto(s: State, w: nat, pc: WorkerPc): State {
    s.(workers := s.workers[w := pc])
  }

  function Apply(s: State, a: Action): State
    requires Enabled(s, a)
  {
    match a
    case WorkerStep(w, rc, throws) =>
      (match s.workers[w]
       case LoadClosed => Goto(s, w, if s.closed then Done else FetchAdd)
       case FetchAdd =>
         var part := s.next;
         if part > s.partCount then Goto(s, w, Done).(next := s.next + 1)
         else Goto(s, w, CheckStop(part)).(next := s.next + 1, tickets := s.tickets + [Ticket(w, part)])
       case CheckStop(part) =>
         if s.stop then Goto(s, w, LoadClosed).(outcomes := s.outcomes[part := Skipped])
         else Goto(s, w, Generating(part))
       case Generating(part) =>
         if throws then Goto(s, w, Threw(part)).(outcomes := s.outcomes[part := Lost])
         else if rc == 0 then Goto(s, w, LoadClosed).(outcomes := s.outcomes[part := Generated])
         else Goto(s, w, StoreError(part, rc)).(outcomes := s.outcomes[part := Failed(rc)])
       case StoreError(_, error) => Goto(s, w, StoreStop).(firstError := error)
       case StoreStop => Goto(s, w, CloseQueue).(stop := true)
       case CloseQueue => Goto(s, w, Done).(closed := true))
    case MainStep =>
      if s.main.worker < s.workerCount then
        var joined := s.(main := Joining(s.main.worker + 1));
        if s.workers[s.main.worker].Threw? then joined.(firstError := 2) else joined
      else s.(main := Returned(s.firstError))
  }

  ghost predicate Next(s: State, t: State) {
    exists a :: Enabled(s, a) && t == Apply(s, a)
  }

  ghost predicate IsExecution(partCount: nat, configured: nat, run: seq<State>) {
    && |run| > 0 && run[0] == Launch(partCount, configured)
    && forall i | 0 <= i < |run| - 1 :: Next(run[i], run[i + 1])
  }

  // ---------------------------------------------------------------- invariant

  predicate Holds(pc: WorkerPc, part: nat) {
    pc == CheckStop(part) || pc == Generating(part)
  }

  /** Part numbers are handed out as 1, 2, 3, ... without gap or repetition. */
  ghost predicate TicketsFit(s: State) {
    && s.next >= 1
    && |s.tickets| == (if s.next - 1 < s.partCount then s.next - 1 else s.partCount)
    && forall i | 0 <= i < |s.tickets| :: s.tickets[i].part == i + 1 && s.tickets[i].worker in s.workers
  }

  /** A part that was handed out is in its taker's hands or has an outcome, and only its taker holds it. */
  ghost predicate PartFits(s: State, i: nat)
    requires i < |s.tickets| && s.tickets[i].worker in s.workers
  {
    var w, part := s.tickets[i].worker, i + 1;
    && (part in s.outcomes <==> !Holds(s.workers[w], part))
    && forall v | v in s.workers && Holds(s.workers[v], part) :: v == w
  }

  ghost predicate OutcomesFit(s: State) {
    && (forall part | part in s.outcomes :: 1 <= part <= |s.tickets|)
    && (forall part | part in s.outcomes && s.outcomes[part].Skipped? :: s.firstError != 0)
    && (forall part | part in s.outcomes && s.outcomes[part].Failed? ::
          s.firstError != 0 || exists w :: w in s.workers && s.workers[w] == StoreError(part, s.outcomes[part].rc))
    && (forall part | part in s.outcomes && s.outcomes[part].Lost? ::
          s.firstError != 0 ||
          exists w :: w in s.workers && s.workers[w] == Threw(part) &&
                      s.main.Joining? && s.main.worker <= w < s.workerCount)
  }

  /** The part failed with this return code, or its generation threw, which counts as 2. */
  predicate Caused(s: State, part: nat, rc: int) {
    part in s.outcomes && (s.outcomes[part] == Failed(rc) || (s.outcomes[part].Lost? && rc == 2))
  }

  /** A stored error is that of some part. */
  ghost predicate ErrorFits(s: State) {
    s.firstError != 0 ==> exists part :: Caused(s, part, s.firstError)
  }

  ghost predicate WorkerFits(s: State, w: nat)
    requires w in s.workers
  {
    match s.workers[w]
    case CheckStop(part) => 1 <= part <= |s.tickets|
    case Generating(part) => 1 <= part <= |s.tickets|
    case StoreError(part, rc) => rc != 0 && part in s.outcomes && s.outcomes[part] == Failed(rc)
    case StoreStop => s.firstError != 0
    case CloseQueue => s.firstError != 0
    case Done => s.firstError != 0 || s.next > s.partCount
    case Threw(part) => part in s.outcomes && s.outcomes[part] == Lost
    case _ => true
  }

  ghost predicate MainFits(s: State) {
    match s.main
    case Joining(k) => k <= s.workerCount && forall w: nat | w < k && w in s.workers :: Ended(s.workers[w])
    case Returned(rc) => rc == s.firstError && forall w | w in s.workers :: Ended(s.workers[w])
  }

  ghost predicate Inv(s: State) {
    && s.workerCount >= 1 && (forall w: nat :: w in s.workers <==> w < s.workerCount)
    && (s.stop ==> s.firstError != 0) && (s.closed ==> s.firstError != 0)
    && TicketsFit(s)
    && (forall i | 0 <= i < |s.tickets| :: PartFits(s, i))
    && OutcomesFit(s)
    && ErrorFits(s)
    && (forall w | w in s.workers :: WorkerFits(s, w))
    && MainFits(s)
  }

  lemma LaunchInv(partCount: nat, configured: nat)
    ensures Inv(Launch(partCount, configured))
  {
  }

  lemma StepInv(s: State, a: Action)
    requires Inv(s) && Enabled(s, a)
    ensures Inv(Apply(s, a)) && Apply(s, a).partCount == s.partCount
  {
    match a
    case WorkerStep(w, rc, throws) =>
      assert WorkerFits(s, w);
      if s.workers[w].FetchAdd? {
        FetchInv(s, w, rc, throws);
      } else if s.workers[w].CheckStop? || s.workers[w].Generating? {
        OutcomeInv(s, w, rc, throws);
      } else {
        FlagInv(s, w, rc, throws);
      }
    case MainStep => MainInv(s);
  }

  lemma FetchInv(s: State, w: nat, rc: int, throws: bool)
    requires Inv(s) && Enabled(s, WorkerStep(w, rc, throws)) && s.workers[w].FetchAdd?
    ensures Inv(Apply(s, WorkerStep(w, rc, throws)))
  {
    var t := Apply(s, WorkerStep(w, rc, throws));
    FetchParts(s, w, rc, throws);
    OutcomesKept(s, t, w);
    SameCause(s, t);
    forall v | v in t.workers
      ensures WorkerFits(t, v)
    {
      assert WorkerFits(s, v);
    }
  }

  lemma FetchParts(s: State, w: nat, rc: int, throws: bool)
    requires Inv(s) && Enabled(s, WorkerStep(w, rc, throws)) && s.workers[w].FetchAdd?
    ensures var t := Apply(s, WorkerStep(w, rc, throws));
            TicketsFit(t) && forall i | 0 <= i < |t.tickets| :: PartFits(t, i)
  {
    hide MainFits, ErrorFits;
    var t := Apply(s, WorkerStep(w, rc, throws));
    assert forall v | v in s.workers :: !Holds(s.workers[v], |s.tickets| + 1) by {
      forall v | v in s.workers
        ensures !Holds(s.workers[v], |s.tickets| + 1)
      {
        assert WorkerFits(s, v);
      }
    }
    forall i | 0 <= i < |t.tickets|
      ensures PartFits(t, i)
    {
      if i < |s.tickets| {
        assert PartFits(s, i);
      }
    }
  }

  /** A worker that stores no error and does not end leaves the outcomes explained. */
  lemma OutcomesKept(s: State, t: State, w: nat)
    requires OutcomesFit(s) && w in s.workers && !s.workers[w].StoreError? && !s.workers[w].Threw?
    requires t.outcomes == s.outcomes && |t.tickets| >= |s.tickets| && t.main == s.main
    requires t.firstError == s.firstError && t.workerCount == s.workerCount
    requires forall v | v in s.workers && v != w :: v in t.workers && t.workers[v] == s.workers[v]
    ensures OutcomesFit(t)
  {
    forall part | part in t.outcomes && t.outcomes[part].Failed? && t.firstError == 0
      ensures exists v :: v in t.workers && t.workers[v] == StoreError(part, t.outcomes[part].rc)
    {
      var v :| v in s.workers && s.workers[v] == StoreError(part, s.outcomes[part].rc);
      assert v in t.workers && t.workers[v] == StoreError(part, t.outcomes[part].rc);
    }
    forall part | part in t.outcomes && t.outcomes[part].Lost? && t.firstError == 0
      ensures exists v :: v in t.workers && t.workers[v] == Threw(part) &&
                          t.main.Joining? && t.main.worker <= v < t.workerCount
    {
      var v :| v in s.workers && s.workers[v] == Threw(part) &&
               s.main.Joining? && s.main.worker <= v < s.workerCount;
      assert v in t.workers && t.workers[v] == Threw(part);
    }
  }

  /** The part a worker holds has no outcome yet. */
  lemma HeldHasNoOutcome(s: State, w: nat, part: nat)
    requires Inv(s) && w in s.workers && Holds(s.workers[w], part)
    ensures 1 <= part <= |s.tickets| && s.tickets[part - 1].worker == w && part !in s.outcomes
  {
    assert WorkerFits(s, w);
    assert PartFits(s, part - 1);
  }

  lemma OutcomeInv(s: State, w: nat, rc: int, throws: bool)
    requires Inv(s) && Enabled(s, WorkerStep(w, rc, throws))
    requires s.workers[w].CheckStop? || s.workers[w].Generating?
    ensures Inv(Apply(s, WorkerStep(w, rc, throws)))
  {
    HeldHasNoOutcome(s, w, s.workers[w].part);
    OutcomeParts(s, w, rc, throws);
    NewOutcomeFits(s, w, rc, throws);
    OutcomeWorkers(s, w, rc, throws);
  }

  lemma OutcomeWorkers(s: State, w: nat, rc: int, throws: bool)
    requires Enabled(s, WorkerStep(w, rc, throws)) && (s.workers[w].CheckStop? || s.workers[w].Generating?)
    requires s.workers[w].part !in s.outcomes
    requires forall v | v in s.workers :: WorkerFits(s, v)
    ensures forall v | v in Apply(s, WorkerStep(w, rc, throws)).workers ::
              WorkerFits(Apply(s, WorkerStep(w, rc, throws)), v)
  {
    var t := Apply(s, WorkerStep(w, rc, throws));
    forall v | v in t.workers
      ensures WorkerFits(t, v)
    {
      assert v in s.workers && WorkerFits(s, v);
    }
  }

  lemma OutcomeParts(s: State, w: nat, rc: int, throws: bool)
    requires Inv(s) && Enabled(s, WorkerStep(w, rc, throws))
    requires s.workers[w].CheckStop? || s.workers[w].Generating?
    ensures var t := Apply(s, WorkerStep(w, rc, throws));
            ErrorFits(t) && |t.tickets| == |s.tickets| && t.tickets == s.tickets &&
            forall i | 0 <= i < |t.tickets| :: t.tickets[i].worker in t.workers && PartFits(t, i)
  {
    hide OutcomesFit, MainFits, WorkerFits;
    var t, part := Apply(s, WorkerStep(w, rc, throws)), s.workers[w].part;
    HeldHasNoOutcome(s, w, part);
    forall i | 0 <= i < |t.tickets|
      ensures PartFits(t, i)
    {
      assert PartFits(s, i);
    }
    if t.firstError != 0 {
      var p :| Caused(s, p, s.firstError);
      assert Caused(t, p, t.firstError);
    }
  }

  lemma NewOutcomeFits(s: State, w: nat, rc: int, throws: bool)
    requires Inv(s) && Enabled(s, WorkerStep(w, rc, throws))
    requires s.workers[w].CheckStop? || s.workers[w].Generating?
    ensures OutcomesFit(Apply(s, WorkerStep(w, rc, throws)))
  {
    var t, held := Apply(s, WorkerStep(w, rc, throws)), s.workers[w].part;
    HeldHasNoOutcome(s, w, held);
    OutcomesKept(s, t.(outcomes := s.outcomes), w);
    var kept := t.(outcomes := s.outcomes);
    forall part | part in t.outcomes && t.outcomes[part].Failed? && t.firstError == 0
      ensures exists v :: v in t.workers && t.workers[v] == StoreError(part, t.outcomes[part].rc)
    {
      if part == held {
        assert t.workers[w] == StoreError(part, rc);
      } else {
        var v :| v in kept.workers && kept.workers[v] == StoreError(part, kept.outcomes[part].rc);
        assert t.workers[v] == StoreError(part, t.outcomes[part].rc);
      }
    }
    forall part | part in t.outcomes && t.outcomes[part].Lost? && t.firstError == 0
      ensures exists v :: v in t.workers && t.workers[v] == Threw(part) &&
                          t.main.Joining? && t.main.worker <= v < t.workerCount
    {
      if part == held {
        assert t.workers[w] == Threw(part);
      } else {
        var v :| v in kept.workers && kept.workers[v] == Threw(part) &&
                 kept.main.Joining? && kept.main.worker <= v < kept.workerCount;
        assert t.workers[v] == Threw(part);
      }
    }
  }

  lemma FlagInv(s: State, w: nat, rc: int, throws: bool)
    requires Inv(s) && Enabled(s, WorkerStep(w, rc, throws))
    requires var pc := s.workers[w]; pc.LoadClosed? || pc.StoreError? || pc.StoreStop? || pc.CloseQueue?
    ensures Inv(Apply(s, WorkerStep(w, rc, throws)))
  {
    var t := Apply(s, WorkerStep(w, rc, throws));
    assert WorkerFits(s, w);
    forall i | 0 <= i < |t.tickets|
      ensures PartFits(t, i)
    {
      assert PartFits(s, i);
    }
    if s.workers[w].StoreError? {
      assert Caused(t, s.workers[w].part, t.firstError);
    } else {
      SameCause(s, t);
      OutcomesKept(s, t, w);
    }
    forall v | v in t.workers
      ensures WorkerFits(t, v)
    {
      assert WorkerFits(s, v);
    }
  }

  lemma SameCause(s: State, t: State)
    requires ErrorFits(s) && t.outcomes == s.outcomes && t.firstError == s.firstError
    ensures ErrorFits(t)
  {
    if s.firstError != 0 {
      var part :| Caused(s, part, s.firstError);
      assert Caused(t, part, t.firstError);
    }
  }

  lemma MainInv(s: State)
    requires Inv(s) && Enabled(s, MainStep)
    ensures Inv(Apply(s, MainStep))
  {
    var t := Apply(s, MainStep);
    SameParts(s, t);
    SameWorkers(s, t);
    JoinOutcomes(s);
    if s.main.worker < s.workerCount && s.workers[s.main.worker].Threw? {
      JoinError(s);
    } else {
      SameCause(s, t);
    }
  }

  lemma SameParts(s: State, t: State)
    requires TicketsFit(s) && forall i | 0 <= i < |s.tickets| :: PartFits(s, i)
    requires t.tickets == s.tickets && t.workers == s.workers && t.outcomes == s.outcomes
    requires t.next == s.next && t.partCount == s.partCount
    ensures TicketsFit(t) && forall i | 0 <= i < |t.tickets| :: PartFits(t, i)
  {
    forall i | 0 <= i < |t.tickets|
      ensures PartFits(t, i)
    {
      assert PartFits(s, i);
    }
  }

  lemma SameWorkers(s: State, t: State)
    requires forall v | v in s.workers :: WorkerFits(s, v)
    requires t.tickets == s.tickets && t.workers == s.workers && t.outcomes == s.outcomes
    requires t.next == s.next && t.partCount == s.partCount && (s.firstError != 0 ==> t.firstError != 0)
    ensures forall v | v in t.workers :: WorkerFits(t, v)
  {
    forall v | v in t.workers
      ensures WorkerFits(t, v)
    {
      assert WorkerFits(s, v);
    }
  }

  lemma JoinError(s: State)
    requires Inv(s) && Enabled(s, MainStep) && s.main.worker < s.workerCount && s.workers[s.main.worker].Threw?
    ensures ErrorFits(Apply(s, MainStep))
  {
    assert WorkerFits(s, s.main.worker);
    assert Caused(Apply(s, MainStep), s.workers[s.main.worker].part, 2);
  }

  lemma JoinOutcomes(s: State)
    requires Inv(s) && Enabled(s, MainStep)
    ensures OutcomesFit(Apply(s, MainStep))
  {
    var t := Apply(s, MainStep);
    forall part | part in t.outcomes && t.outcomes[part].Lost? && t.firstError == 0
      ensures exists v :: v in t.workers && t.workers[v] == Threw(part) &&
                          t.main.Joining? && t.main.worker <= v < t.workerCount
    {
      var v :| v in s.workers && s.workers[v] == Threw(part) &&
               s.main.Joining? && s.main.worker <= v < s.workerCount;
      assert t.workers[v] == Threw(part);
    }
  }

  lemma EarlierExecution(partCount: nat, configured: nat, run: seq<State>)
    requires IsExecution(partCount, configured, run) && |run| > 1
    ensures IsExecution(partCount, configured, run[..|run| - 1])
    ensures Next(run[|run| - 2], run[|run| - 1])
  {
    var before := run[..|run| - 1];
    forall i | 0 <= i < |before| - 1
      ensures Next(before[i], before[i + 1])
    {
      assert Next(run[i], run[i + 1]);
    }
    assert Next(run[|run| - 2], run[|run| - 2 + 1]);
  }

  lemma {:induction false} ExecutionInv(partCount: nat, configured: nat, run: seq<State>)
    requires IsExecution(partCount, configured, run)
    ensures Inv(run[|run| - 1]) && run[|run| - 1].partCount == partCount
    decreases |run|
  {
    if |run| == 1 {
      LaunchInv(partCount, configured);
    } else {
      var before := run[..|run| - 1];
      EarlierExecution(partCount, configured, run);
      ExecutionInv(partCount, configured, before);
      var s, t := run[|run| - 2], run[|run| - 1];
      assert Next(s, t);
      var a :| Enabled(s, a) && t == Apply(s, a);
      StepInv(s, a);
    }
  }

  // ---------------------------------------------------------------- main results

  /** Once an error is stored it never becomes 0 again, and a part is skipped only after that. */
  lemma ErrorsAreNeverReset(s: State, a: Action)
    requires Inv(s) && Enabled(s, a)
    ensures s.firstError != 0 ==> Apply(s, a).firstError != 0
    ensures forall part | part in Apply(s, a).outcomes && Apply(s, a).outcomes[part].Skipped? ::
              Apply(s, a).firstError != 0
  {
    StepInv(s, a);
    if a.WorkerStep? {
      assert WorkerFits(s, a.worker);
    }
  }

  /**
   Whatever the interleaving and the number of workers, the return code is 0 exactly when every part 1..N was
   generated; then each part number was handed out exactly once.
   */
  lemma ReturnsZeroExactlyWhen(partCount: nat, configured: nat, run: seq<State>)
    requires IsExecution(partCount, configured, run) && run[|run| - 1].main.Returned?
    ensures var s := run[|run| - 1];
            s.main.rc == 0 <==>
              forall part | 1 <= part <= partCount :: part in s.outcomes && s.outcomes[part].Generated?
    ensures var s := run[|run| - 1];
            s.main.rc == 0 ==>
              |s.tickets| == partCount && forall i | 0 <= i < partCount :: s.tickets[i].part == i + 1
  {
    ExecutionInv(partCount, configured, run);
    var s := run[|run| - 1];
    if s.main.rc == 0 {
      assert 0 in s.workers && WorkerFits(s, 0);
      forall part | 1 <= part <= partCount
        ensures part in s.outcomes && s.outcomes[part].Generated?
      {
        assert PartFits(s, part - 1);
        assert Ended(s.workers[s.tickets[part - 1].worker]);
      }
    }
  }

  /** A return code other than 0 is the one some part failed with, or 2 for a part whose generation threw. */
  lemma ErrorIsSomePart(partCount: nat, configured: nat, run: seq<State>) returns (part: nat)
    requires IsExecution(partCount, configured, run) && run[|run| - 1].main.Returned?
    requires run[|run| - 1].main.rc != 0
    ensures 1 <= part <= partCount && Caused(run[|run| - 1], part, run[|run| - 1].main.rc)
  {
    ExecutionInv(partCount, configured, run);
    part :| Caused(run[|run| - 1], part, run[|run| - 1].main.rc);
  }

  // ---------------------------------------------------------------- heeding the flags

  /** How many parts were handed to the worker. */
  function PartsOf(tickets: seq<Ticket>, w: nat): nat {
    if tickets == [] then 0
    else PartsOf(tickets[..|tickets| - 1], w) + if tickets[|tickets| - 1].worker == w then 1 else 0
  }

  /** Those, and the one it is about to take. */
  function PartsBegun(s: State, w: nat): nat {
    PartsOf(s.tickets, w) + if w in s.workers && s.workers[w].FetchAdd? then 1 else 0
  }

  lemma FlagStep(s: State, a: Action, w: nat)
    requires Enabled(s, a)
    ensures var t := Apply(s, a);
            && (s.stop ==> t.stop) && (s.closed ==> t.closed) && t.workers.Keys == s.workers.Keys
            && (s.stop && w in s.workers && t.workers[w].Generating? ==> t.workers[w] == s.workers[w])
  {
  }

  lemma ClosedStep(s: State, a: Action, w: nat)
    requires Enabled(s, a) && s.closed
    ensures PartsBegun(Apply(s, a), w) <= PartsBegun(s, w)
  {
    hide PartsOf;
    if a.WorkerStep? && s.workers[a.worker].FetchAdd? {
      OneMoreTicket(s.tickets, Ticket(a.worker, s.next), w);
    } else {
      assert Apply(s, a).tickets == s.tickets;
    }
  }

  lemma OneMoreTicket(tickets: seq<Ticket>, ticket: Ticket, w: nat)
    ensures PartsOf(tickets + [ticket], w) == PartsOf(tickets, w) + if ticket.worker == w then 1 else 0
  {
    assert (tickets + [ticket])[..|tickets|] == tickets;
  }

  /**
   Once the stop flag is set no part's generation begins, and once the dispenser is closed no worker goes to fetch
   another part.
   */
  lemma {:induction false} FlagsAreHeeded(run: seq<State>, w: nat)
    requires |run| > 0 && w in run[0].workers && forall i | 0 <= i < |run| - 1 :: Next(run[i], run[i + 1])
    ensures var s, t := run[0], run[|run| - 1];
            && (s.stop ==> t.stop) && (s.closed ==> t.closed) && w in t.workers
            && (s.stop && t.workers[w].Generating? ==> t.workers[w] == s.workers[w])
            && (s.closed ==> PartsOf(t.tickets, w) <= PartsBegun(t, w) <= PartsBegun(s, w))
    decreases |run|
  {
    hide PartsOf;
    if |run| > 1 {
      var before := run[..|run| - 1];
      forall i | 0 <= i < |before| - 1
        ensures Next(before[i], before[i + 1])
      {
        assert Next(run[i], run[i + 1]);
      }
      FlagsAreHeeded(before, w);
      var s, t := run[|run| - 2], run[|run| - 1];
      assert Next(s, t);
      var a :| Enabled(s, a) && t == Apply(s, a);
      FlagStep(s, a, w);
      if s.closed {
        ClosedStep(s, a, w);
      }
    }
  }
}
