/** Table attention: scores, the muted/urgent state of each table session, and the Redis queue per branch
    that must agree with the stored snapshots. */
module Attention {
  import opened Numbers

  type Id = int

  const MINUTE := 60 * 1000

  datatype Status = Normal | NeedsAttention | Urgent | Resolved | Muted

  datatype Priority = Low | Medium | High | UrgentPriority

  datatype Reason = OrderWaiting | PreparationDelayed | OrderReady | WaiterCall | BillRequested | AiEscalated | SessionIdle

  /** What the queries of a scoring can find: timestamps of the session's submitted orders, tasks in
      preparation and ready orders, and counts of the rest. */
  datatype Facts = Facts(submitted: seq<int>, preparing: seq<int>, ready: seq<int>,
                         waiterCalls: nat, billRequests: nat, escalations: nat, open: bool, lastSeen: int)

  datatype Snapshot = Snapshot(branch: Id, status: Status, priority: Priority, score: int, reasons: seq<Reason>,
                               mutedUntil: Option<int>)

  /** The three clock readings of a recalculation that matter, in order: for the mute check of the
      score, for the age of the facts, and for the mute check of the status. */
  datatype Clock = Clock(check: int, now: int, decide: int)

  // ---------------------------------------------------------------------------
  // Scores
  // ---------------------------------------------------------------------------

  function Delta(r: Reason): int {
    match r
    case OrderWaiting => 30
    case PreparationDelayed => 25
    case OrderReady => 35
    case WaiterCall => 40
    case BillRequested => 30
    case AiEscalated => 35
    case SessionIdle => 10
  }

  predicate SomeBefore(times: seq<int>, limit: int) {
    exists i :: 0 <= i < |times| && times[i] <= limit
  }

  /** Does the reason apply at this moment? */
  predicate Applies(f: Facts, now: int, r: Reason) {
    match r
    case OrderWaiting => SomeBefore(f.submitted, now - 5 * MINUTE)
    case PreparationDelayed => SomeBefore(f.preparing, now - 15 * MINUTE)
    case OrderReady => SomeBefore(f.ready, now - 10 * MINUTE)
    case WaiterCall => f.waiterCalls > 0
    case BillRequested => f.billRequests > 0
    case AiEscalated => f.escalations > 0
    case SessionIdle => f.open && f.lastSeen <= now - 30 * MINUTE
  }

  const REASONS: seq<Reason> := [OrderWaiting, PreparationDelayed, OrderReady, WaiterCall, BillRequested, AiEscalated, SessionIdle]

  /** The reasons among the first n that apply, in their fixed order. */
  function ReasonsFor(f: Facts, now: int, n: nat): seq<Reason>
    requires n <= |REASONS|
  {
    if n == 0 then []
    else if Applies(f, now, REASONS[n - 1]) then ReasonsFor(f, now, n - 1) + [REASONS[n - 1]]
    else ReasonsFor(f, now, n - 1)
  }

  function Reasons(f: Facts, now: int): seq<Reason> {
    ReasonsFor(f, now, 7)
  }

  function Total(reasons: seq<Reason>): int {
    if reasons == [] then 0 else Total(reasons[..|reasons| - 1]) + Delta(reasons[|reasons| - 1])
  }

  lemma TotalAdds(reasons: seq<Reason>, r: Reason)
    ensures Total(reasons + [r]) == Total(reasons) + Delta(r)
  {
    assert (reasons + [r])[..|reasons|] == reasons;
  }

  lemma {:induction false} TotalNonNegative(reasons: seq<Reason>)
    ensures Total(reasons) >= 0 && (Total(reasons) == 0 <==> reasons == [])
  {
    if reasons != [] {
      TotalNonNegative(reasons[..|reasons| - 1]);
    }
  }

  function Points(condition: bool, points: int): int {
    if condition then points else 0
  }

  /** Something has waited since before it should have. */
  ghost predicate Overdue(times: seq<int>, now: int, wait: int) {
    exists i :: 0 <= i < |times| && now - times[i] >= wait
  }

  /** What a table needs, in milliseconds waited and in open calls. */
  ghost predicate Needs(f: Facts, now: int, r: Reason) {
    || (r == OrderWaiting && Overdue(f.submitted, now, 300000))
    || (r == PreparationDelayed && Overdue(f.preparing, now, 900000))
    || (r == OrderReady && Overdue(f.ready, now, 600000))
    || (r == WaiterCall && f.waiterCalls >= 1)
    || (r == BillRequested && f.billRequests >= 1)
    || (r == AiEscalated && f.escalations >= 1)
    || (r == SessionIdle && f.open && now - f.lastSeen >= 1800000)
  }

  lemma AppliesIffNeeded(f: Facts, now: int, r: Reason)
    ensures Applies(f, now, r) <==> Needs(f, now, r)
  {}

  lemma {:induction false} ReasonsSoFar(f: Facts, now: int, n: nat)
    requires n <= |REASONS|
    ensures forall r :: r in ReasonsFor(f, now, n) <==> r in REASONS[..n] && Needs(f, now, r)
  {
    hide Applies, Needs;
    if n > 0 {
      ReasonsSoFar(f, now, n - 1);
      AppliesIffNeeded(f, now, REASONS[n - 1]);
      assert REASONS[..n] == REASONS[..n - 1] + [REASONS[n - 1]];
    }
  }

  /** The reasons are exactly the needs of the table. */
  lemma ReasonsMeaning(f: Facts, now: int, r: Reason)
    ensures r in Reasons(f, now) <==> Needs(f, now, r)
  {
    hide Needs, ReasonsFor;
    ReasonsSoFar(f, now, 7);
    assert REASONS[..7] == REASONS;
    assert REASONS[0] == OrderWaiting && REASONS[1] == PreparationDelayed && REASONS[2] == OrderReady && REASONS[3] == WaiterCall
           && REASONS[4] == BillRequested && REASONS[5] == AiEscalated && REASONS[6] == SessionIdle;
  }

  /** The score of a table, need by need. */
  lemma ScoreOfTable(f: Facts, now: int)
    ensures Total(Reasons(f, now)) ==
              Points(Overdue(f.submitted, now, 300000), 30) + Points(Overdue(f.preparing, now, 900000), 25)
              + Points(Overdue(f.ready, now, 600000), 35) + Points(f.waiterCalls > 0, 40)
              + Points(f.billRequests > 0, 30) + Points(f.escalations > 0, 35)
              + Points(f.open && now - f.lastSeen >= 1800000, 10)
    ensures 0 <= Total(Reasons(f, now)) <= 205
  {
    hide Applies, ReasonsFor, Total, Overdue;
    forall n: nat | n < 7
      ensures Applies(f, now, REASONS[n]) <==> Needs(f, now, REASONS[n])
    {
      AppliesIffNeeded(f, now, REASONS[n]);
    }
    NoScore(f, now);
    ScoreStep(f, now, 1);
    ScoreStep(f, now, 2);
    ScoreStep(f, now, 3);
    ScoreStep(f, now, 4);
    ScoreStep(f, now, 5);
    ScoreStep(f, now, 6);
    ScoreStep(f, now, 7);
  }

  lemma NoScore(f: Facts, now: int)
    ensures Total(ReasonsFor(f, now, 0)) == 0
  {}

  lemma ScoreStep(f: Facts, now: int, n: nat)
    requires 1 <= n <= |REASONS|
    ensures Total(ReasonsFor(f, now, n)) == Total(ReasonsFor(f, now, n - 1)) + Points(Applies(f, now, REASONS[n - 1]), Delta(REASONS[n - 1]))
  {
    hide Applies;
    TotalAdds(ReasonsFor(f, now, n - 1), REASONS[n - 1]);
  }

  /** While nothing changes at the table, its score can only grow. */
  lemma {:induction false} ScoreGrowsWithTime(f: Facts, now: int, later: int, n: nat)
    requires now <= later && n <= |REASONS|
    ensures Total(ReasonsFor(f, now, n)) <= Total(ReasonsFor(f, later, n))
  {
    if n > 0 {
      ScoreGrowsWithTime(f, now, later, n - 1);
      var r := REASONS[n - 1];
      assert Applies(f, now, r) ==> Applies(f, later, r);
      TotalAdds(ReasonsFor(f, now, n - 1), r);
      TotalAdds(ReasonsFor(f, later, n - 1), r);
      assert Delta(r) > 0;
    }
  }

  function PriorityForScore(score: int): Priority {
    if score >= 70 then UrgentPriority else if score >= 40 then High else if score >= 20 then Medium else Low
  }

  predicate IsMutedAt(previous: Option<Snapshot>, t: int) {
    previous.Some? && previous.value.mutedUntil.Some? && previous.value.mutedUntil.value > t
  }

  function StatusForScore(score: int, previous: Option<Snapshot>, decide: int): Status {
    if IsMutedAt(previous, decide) then Muted
    else if score == 0 then Normal
    else if score >= 70 then Urgent
    else NeedsAttention
  }

  /** The reasons a recalculation sees: none while the mute lasts. */
  function ScoredReasons(previous: Option<Snapshot>, f: Facts, c: Clock): seq<Reason> {
    if IsMutedAt(previous, c.check) then [] else Reasons(f, c.now)
  }

  method ScoreTableSession(previous: Option<Snapshot>, f: Facts, c: Clock) returns (total: int, reasons: seq<Reason>)
    ensures reasons == ScoredReasons(previous, f, c) && total == Total(reasons)
  {
    hide Applies, Total, Delta;
    NoReasons();
    total, reasons := 0, [];
    if IsMutedAt(previous, c.check) {
      return;
    }
    for n := 0 to 7
      invariant reasons == ReasonsFor(f, c.now, n) && total == Total(reasons)
    {
      if Applies(f, c.now, REASONS[n]) {
        TotalAdds(reasons, REASONS[n]);
        total, reasons := total + Delta(REASONS[n]), reasons + [REASONS[n]];
      }
    }
  }

  lemma NoReasons()
    ensures Total([]) == 0
  {}

  // ---------------------------------------------------------------------------
  // Snapshots
  // ---------------------------------------------------------------------------

  function Recalculated(previous: Option<Snapshot>, branch: Id, f: Facts, c: Clock): Snapshot {
    var reasons := ScoredReasons(previous, f, c);
    var score := Total(reasons);
    var status := StatusForScore(score, previous, c.decide);
    Snapshot(branch, status, PriorityForScore(score), score, reasons,
             if status.Muted? then previous.value.mutedUntil else None)
  }

  /** Muting keeps the score and its reasons. */
  function MutedSnapshot(previous: Option<Snapshot>, branch: Id, minutes: Option<int>, now: int): Snapshot {
    var until := Some(now + (if minutes.Some? then minutes.value else 30) * MINUTE);
    if previous.Some? then previous.value.(status := Muted, mutedUntil := until)
    else Snapshot(branch, Muted, Low, 0, [], until)
  }

  function ResolvedSnapshot(branch: Id): Snapshot {
    Snapshot(branch, Resolved, Low, 0, [], None)
  }

  predicate SnapshotOk(p: Snapshot) {
    && p.score == Total(p.reasons)
    && (match p.priority
        case UrgentPriority => p.score >= 70
        case High => 40 <= p.score < 70
        case Medium => 20 <= p.score < 40
        case Low => p.score < 20)
    && (p.mutedUntil.Some? <==> p.status.Muted?)
    && match p.status
       case Normal => p.score == 0
       case Resolved => p.score == 0
       case Urgent => p.score >= 70
       case NeedsAttention => 0 < p.score < 70
       case Muted => true
  }

  lemma RecalculatedIsOk(previous: Option<Snapshot>, branch: Id, f: Facts, c: Clock)
    requires previous.Some? ==> SnapshotOk(previous.value)
    ensures SnapshotOk(Recalculated(previous, branch, f, c)) && Recalculated(previous, branch, f, c).branch == branch
    ensures var muted := previous.Some? && previous.value.mutedUntil.Some? && c.check < previous.value.mutedUntil.value;
            Recalculated(previous, branch, f, c).reasons == if muted then [] else Reasons(f, c.now)
  {
    TotalNonNegative(ScoredReasons(previous, f, c));
  }

  /** A recalculation leaves the session muted exactly while the deadline has not passed when the status
      is decided, and then keeps the deadline. */
  lemma StaysMutedIff(previous: Option<Snapshot>, branch: Id, f: Facts, c: Clock)
    ensures var p := Recalculated(previous, branch, f, c);
            && (p.status.Muted? <==> IsMutedAt(previous, c.decide))
            && (p.status.Muted? ==> p.mutedUntil == previous.value.mutedUntil)
  {}

  /** The clock is read twice: a deadline between the two readings hides whatever the table needs. */
  predicate Straddles(previous: Option<Snapshot>, c: Clock) {
    IsMutedAt(previous, c.check) && !IsMutedAt(previous, c.decide)
  }

  /** The result is muted or scored by the facts, unless the deadline falls between the two readings while
      there is something to report; the table then counts as normal. */
  lemma HonestUnlessStraddling(previous: Option<Snapshot>, branch: Id, f: Facts, c: Clock)
    ensures var p := Recalculated(previous, branch, f, c);
            && (p.status.Muted? || p.score == Total(Reasons(f, c.now))
                <==> !(Straddles(previous, c) && Total(Reasons(f, c.now)) > 0))
            && (Straddles(previous, c) ==> p.status.Normal?)
  {
    hide Reasons;
    TotalNonNegative(Reasons(f, c.now));
    TotalNonNegative(ScoredReasons(previous, f, c));
  }

  // ---------------------------------------------------------------------------
  // The board
  // ---------------------------------------------------------------------------

  /** A recalculation outside a transaction, computed and not yet stored. */
  datatype Pending = Pending(session: Id, snapshot: Snapshot)

  /** Sessions belong to branches; `queues` maps each branch to the scores of its queued sessions. */
  datatype Board = Board(branches: map<Id, Id>, snapshots: map<Id, Snapshot>, queues: map<Id, map<Id, int>>,
                         pending: map<Id, Pending>)

  predicate IsListed(status: Status) {
    !status.Normal? && !status.Resolved?
  }

  function Queue(queues: map<Id, map<Id, int>>, branch: Id): map<Id, int> {
    if branch in queues then queues[branch] else map[]
  }

  /** The queue writes of `writeRedisState`. */
  function QueuesAfter(queues: map<Id, map<Id, int>>, session: Id, p: Snapshot): map<Id, map<Id, int>> {
    var q := Queue(queues, p.branch);
    queues[p.branch := if IsListed(p.status) then q[session := p.score] else q - {session}]
  }

  function Previous(snapshots: map<Id, Snapshot>, session: Id): Option<Snapshot> {
    if session in snapshots then Some(snapshots[session]) else None
  }

  function Stored(w: Board, session: Id, p: Snapshot): Board {
    w.(snapshots := w.snapshots[session := p], queues := QueuesAfter(w.queues, session, p))
  }

  datatype Action =
    | StartRecalculation(worker: Id, session: Id, facts: Facts, clock: Clock)
    | FinishRecalculation(worker: Id)
    | Mute(session: Id, minutes: Option<int>, now: int)
    | Resolve(session: Id)

  function Apply(w: Board, a: Action): Board {
    match a
    case StartRecalculation(worker, s, f, c) =>
      if s !in w.branches then w
      else w.(pending := w.pending[worker := Pending(s, Recalculated(Previous(w.snapshots, s), w.branches[s], f, c))])
    case FinishRecalculation(worker) =>
      if worker !in w.pending then w
      else Stored(w.(pending := w.pending - {worker}), w.pending[worker].session, w.pending[worker].snapshot)
    case Mute(s, minutes, now) =>
      if s !in w.branches then w else Stored(w, s, MutedSnapshot(Previous(w.snapshots, s), w.branches[s], minutes, now))
    case Resolve(s) =>
      if s !in w.branches then w else Stored(w, s, ResolvedSnapshot(w.branches[s]))
  }

  function Run(w: Board, actions: seq<Action>): Board
    decreases |actions|
  {
    if actions == [] then w else Run(Apply(w, actions[0]), actions[1..])
  }

  predicate InQueue(w: Board, branch: Id, session: Id) {
    session in Queue(w.queues, branch)
  }

  /** The snapshots of a branch that its queue should hold. */
  predicate ShouldQueue(w: Board, branch: Id, session: Id) {
    session in w.snapshots && w.snapshots[session].branch == branch && IsListed(w.snapshots[session].status)
  }

  ghost predicate QueuesOk(w: Board) {
    forall branch, s ::
      && (InQueue(w, branch, s) <==> ShouldQueue(w, branch, s))
      && (InQueue(w, branch, s) ==> Queue(w.queues, branch)[s] == w.snapshots[s].score)
  }

  predicate Fits(w: Board, session: Id, p: Snapshot) {
    session in w.branches && p.branch == w.branches[session] && SnapshotOk(p)
  }

  ghost predicate SnapshotsOk(w: Board) {
    && (forall s | s in w.snapshots :: Fits(w, s, w.snapshots[s]))
    && forall t | t in w.pending :: Fits(w, w.pending[t].session, w.pending[t].snapshot)
  }

  lemma StoredKeepsQueues(w: Board, session: Id, p: Snapshot)
    requires QueuesOk(w) && SnapshotsOk(w) && Fits(w, session, p)
    ensures QueuesOk(Stored(w, session, p)) && SnapshotsOk(Stored(w, session, p))
  {
    hide SnapshotOk;
    var w' := Stored(w, session, p);
    forall branch, s
      ensures InQueue(w', branch, s) <==> ShouldQueue(w', branch, s)
      ensures InQueue(w', branch, s) ==> Queue(w'.queues, branch)[s] == w'.snapshots[s].score
    {
      assert InQueue(w, branch, s) <==> ShouldQueue(w, branch, s);
      assert session in w.snapshots ==> Fits(w, session, w.snapshots[session]);
    }
  }

  lemma StepKeepsBoard(w: Board, a: Action)
    requires QueuesOk(w) && SnapshotsOk(w)
    ensures QueuesOk(Apply(w, a)) && SnapshotsOk(Apply(w, a)) && Apply(w, a).branches == w.branches
  {
    hide QueuesOk, SnapshotOk, Recalculated, MutedSnapshot, ResolvedSnapshot, Stored;
    match a
    case StartRecalculation(worker, s, f, c) =>
      if s in w.branches {
        assert s in w.snapshots ==> Fits(w, s, w.snapshots[s]);
        RecalculatedIsOk(Previous(w.snapshots, s), w.branches[s], f, c);
        QueuesIgnorePending(w, Apply(w, a));
      }
    case FinishRecalculation(worker) =>
      if worker in w.pending {
        var w0 := w.(pending := w.pending - {worker});
        QueuesIgnorePending(w, w0);
        StoredKeepsBranches(w0, w.pending[worker].session, w.pending[worker].snapshot);
        assert Fits(w, w.pending[worker].session, w.pending[worker].snapshot);
        StoredKeepsQueues(w0, w.pending[worker].session, w.pending[worker].snapshot);
      }
    case Mute(s, minutes, now) =>
      if s in w.branches {
        assert s in w.snapshots ==> Fits(w, s, w.snapshots[s]);
        MutedIsOk(Previous(w.snapshots, s), w.branches[s], minutes, now);
        StoredKeepsBranches(w, s, MutedSnapshot(Previous(w.snapshots, s), w.branches[s], minutes, now));
        StoredKeepsQueues(w, s, MutedSnapshot(Previous(w.snapshots, s), w.branches[s], minutes, now));
      }
    case Resolve(s) =>
      if s in w.branches {
        ResolvedIsOk(w.branches[s]);
        StoredKeepsBranches(w, s, ResolvedSnapshot(w.branches[s]));
        StoredKeepsQueues(w, s, ResolvedSnapshot(w.branches[s]));
      }
  }

  lemma StoredKeepsBranches(w: Board, session: Id, p: Snapshot)
    ensures Stored(w, session, p).branches == w.branches
  {}

  lemma QueuesIgnorePending(w: Board, w': Board)
    requires QueuesOk(w) && w' == w.(pending := w'.pending)
    ensures QueuesOk(w')
  {
    forall branch, s
      ensures InQueue(w', branch, s) <==> InQueue(w, branch, s)
      ensures ShouldQueue(w', branch, s) <==> ShouldQueue(w, branch, s)
    {}
  }

  lemma MutedIsOk(previous: Option<Snapshot>, branch: Id, minutes: Option<int>, now: int)
    requires previous.Some? ==> SnapshotOk(previous.value) && previous.value.branch == branch
    ensures var p := MutedSnapshot(previous, branch, minutes, now);
            && SnapshotOk(p) && p.branch == branch && p.status.Muted?
            && p.score == (if previous.Some? then previous.value.score else 0)
            && p.reasons == (if previous.Some? then previous.value.reasons else [])
            && forall t :: IsMutedAt(Some(p), t) <==> t < now + (if minutes.Some? then minutes.value * 60000 else 1800000)
  {
    NoReasons();
  }

  lemma ResolvedIsOk(branch: Id)
    ensures SnapshotOk(ResolvedSnapshot(branch)) && ResolvedSnapshot(branch).branch == branch
    ensures ResolvedSnapshot(branch).status == Resolved && ResolvedSnapshot(branch).reasons == []
  {
    NoReasons();
  }

  lemma {:induction false} RunKeepsBoard(w: Board, actions: seq<Action>)
    requires QueuesOk(w) && SnapshotsOk(w)
    ensures QueuesOk(Run(w, actions)) && SnapshotsOk(Run(w, actions)) && Run(w, actions).branches == w.branches
    decreases |actions|
  {
    hide QueuesOk, SnapshotsOk, Apply;
    if actions != [] {
      StepKeepsBoard(w, actions[0]);
      RunKeepsBoard(Apply(w, actions[0]), actions[1..]);
    }
  }

  function EmptyBoard(branches: map<Id, Id>): Board {
    Board(branches, map[], map[], map[])
  }

  /** The query filters; without a status the active ones are meant, `AnyStatus` stands for "all". */
  datatype StatusFilter = DefaultStatus | AnyStatus | OnlyStatus(status: Status)

  predicate PassesFilter(p: Snapshot, status: StatusFilter, priority: Option<Priority>) {
    && (match status
        case DefaultStatus => p.status.NeedsAttention? || p.status.Urgent? || p.status.Muted?
        case AnyStatus => true
        case OnlyStatus(only) => p.status == only)
    && (priority.None? || p.priority == priority.value)
  }

  /** After every run each branch's queue holds exactly the sessions its default listing shows, under
      their stored scores, and each score explains its priority. */
  lemma QueueMatchesListing(branches: map<Id, Id>, actions: seq<Action>, branch: Id, s: Id)
    ensures var w := Run(EmptyBoard(branches), actions);
            && (InQueue(w, branch, s) <==>
                  s in w.snapshots && w.snapshots[s].branch == branch && PassesFilter(w.snapshots[s], DefaultStatus, None))
            && (InQueue(w, branch, s) ==> Queue(w.queues, branch)[s] == w.snapshots[s].score)
            && (s in w.snapshots ==> SnapshotOk(w.snapshots[s]))
  {
    hide SnapshotOk, Run, Queue;
    var w := Run(EmptyBoard(branches), actions);
    EmptyBoardIsOk(branches);
    RunKeepsBoard(EmptyBoard(branches), actions);
    assert InQueue(w, branch, s) <==> ShouldQueue(w, branch, s);
    assert s in w.snapshots ==> Fits(w, s, w.snapshots[s]);
  }

  lemma EmptyBoardIsOk(branches: map<Id, Id>)
    ensures QueuesOk(EmptyBoard(branches)) && SnapshotsOk(EmptyBoard(branches))
  {
    var w := EmptyBoard(branches);
    forall branch, s
      ensures !InQueue(w, branch, s) && !ShouldQueue(w, branch, s)
    {}
  }

  // ---------------------------------------------------------------------------
  // Mutes
  // ---------------------------------------------------------------------------

  /** Neither a mute nor a resolution of the session, nor a recalculation of it that decides its status
      after the deadline. */
  predicate Quiet(a: Action, session: Id, deadline: int) {
    match a
    case StartRecalculation(_, s, _, c) => s == session ==> c.decide < deadline
    case FinishRecalculation(_) => true
    case Mute(s, _, _) => s != session
    case Resolve(s) => s != session
  }

  ghost predicate AllQuiet(actions: seq<Action>, session: Id, deadline: int) {
    forall i | 0 <= i < |actions| :: Quiet(actions[i], session, deadline)
  }

  predicate MutedWith(p: Snapshot, deadline: int) {
    p.status.Muted? && p.mutedUntil == Some(deadline)
  }

  predicate IsMuted(w: Board, session: Id, deadline: int) {
    session in w.snapshots && MutedWith(w.snapshots[session], deadline)
  }

  /** No recalculation in progress read the session before it was muted. */
  ghost predicate NoStaleRecalculation(w: Board, session: Id, deadline: int) {
    forall t | t in w.pending && w.pending[t].session == session :: MutedWith(w.pending[t].snapshot, deadline)
  }

  ghost predicate MuteHolds(w: Board, session: Id, deadline: int) {
    forall actions | AllQuiet(actions, session, deadline) :: IsMuted(Run(w, actions), session, deadline)
  }

  lemma QuietStep(w: Board, a: Action, session: Id, deadline: int)
    requires IsMuted(w, session, deadline) && NoStaleRecalculation(w, session, deadline) && Quiet(a, session, deadline)
    ensures IsMuted(Apply(w, a), session, deadline) && NoStaleRecalculation(Apply(w, a), session, deadline)
  {
    hide Recalculated, QueuesAfter;
    if a.StartRecalculation? && a.session == session && session in w.branches {
      StaysMutedIff(Previous(w.snapshots, session), w.branches[session], a.facts, a.clock);
    }
  }

  lemma {:induction false} QuietRun(w: Board, actions: seq<Action>, session: Id, deadline: int)
    requires IsMuted(w, session, deadline) && NoStaleRecalculation(w, session, deadline) && AllQuiet(actions, session, deadline)
    ensures IsMuted(Run(w, actions), session, deadline)
    decreases |actions|
  {
    hide IsMuted, NoStaleRecalculation, Quiet, Apply;
    if actions != [] {
      assert Quiet(actions[0], session, deadline);
      assert forall i | 0 <= i < |actions[1..]| :: actions[1..][i] == actions[i + 1];
      QuietStep(w, actions[0], session, deadline);
      QuietRun(Apply(w, actions[0]), actions[1..], session, deadline);
    }
  }

  /** Before its deadline no recalculation can unmute a session or move the deadline, on any continuation,
      exactly when no recalculation that read the session before the mute has still to be stored. */
  lemma MuteHoldsIff(w: Board, session: Id, deadline: int)
    requires IsMuted(w, session, deadline)
    ensures MuteHolds(w, session, deadline) <==> NoStaleRecalculation(w, session, deadline)
  {
    hide Apply, IsMuted, NoStaleRecalculation, AllQuiet;
    if NoStaleRecalculation(w, session, deadline) {
      forall actions | AllQuiet(actions, session, deadline)
        ensures IsMuted(Run(w, actions), session, deadline)
      {
        QuietRun(w, actions, session, deadline);
      }
    } else {
      var t := StaleRecalculation(w, session, deadline);
      var actions := [FinishRecalculation(t)];
      assert actions[1..] == [];
      assert Run(w, actions) == Run(Apply(w, actions[0]), []) == Apply(w, actions[0]);
      FinishIsQuiet(t, session, deadline);
      assert !IsMuted(Run(w, actions), session, deadline);
    }
  }

  /** A recalculation that read the session before it was muted undoes the mute when it is stored,
      whatever it found and whatever the deadline. */
  lemma MuteUndone(branches: map<Id, Id>, s: Id, f: Facts, c: Clock, minutes: Option<int>, now: int)
    requires s in branches
    ensures var w := Run(EmptyBoard(branches), [StartRecalculation(0, s, f, c), Mute(s, minutes, now), FinishRecalculation(0)]);
            && s in w.snapshots && !w.snapshots[s].status.Muted? && w.snapshots[s].mutedUntil.None?
            && w.snapshots[s].score == Total(Reasons(f, c.now))
  {
    hide Reasons, Total;
    ThreeSteps(EmptyBoard(branches), StartRecalculation(0, s, f, c), Mute(s, minutes, now), FinishRecalculation(0));
  }

  lemma FinishIsQuiet(t: Id, session: Id, deadline: int)
    ensures AllQuiet([FinishRecalculation(t)], session, deadline)
  {}

  lemma StaleRecalculation(w: Board, session: Id, deadline: int) returns (t: Id)
    requires !NoStaleRecalculation(w, session, deadline)
    ensures !IsMuted(Apply(w, FinishRecalculation(t)), session, deadline)
  {
    t :| t in w.pending && w.pending[t].session == session && !MutedWith(w.pending[t].snapshot, deadline);
  }

  /** A waiter call is hidden when the mute of a table expires between the two readings: the mute of one
      minute is checked a millisecond before its end, and the status decided at its end. */
  lemma StraddlingHidesACall(branches: map<Id, Id>, s: Id, f: Facts)
    requires s in branches && f.waiterCalls > 0
    ensures var w := Run(EmptyBoard(branches), [Mute(s, Some(1), 0), StartRecalculation(0, s, f, Clock(59999, 60000, 60000)),
                                                FinishRecalculation(0)]);
            && s in w.snapshots && w.snapshots[s].status.Normal? && w.snapshots[s].score == 0
            && !InQueue(w, branches[s], s) && Total(Reasons(f, 60000)) >= 40
  {
    hide Reasons, Applies;
    var c := Clock(59999, 60000, 60000);
    var muted := Stored(EmptyBoard(branches), s, MutedSnapshot(None, branches[s], Some(1), 0));
    var p := Recalculated(Some(muted.snapshots[s]), branches[s], f, c);
    ThreeSteps(EmptyBoard(branches), Mute(s, Some(1), 0), StartRecalculation(0, s, f, c), FinishRecalculation(0));
    NoReasons();
    ScoreOfTable(f, 60000);
    assert Applies(f, 60000, WaiterCall) by {
      CallApplies(f, 60000);
    }
    assert p.status.Normal? && p.score == 0;
  }

  lemma CallApplies(f: Facts, now: int)
    requires f.waiterCalls > 0
    ensures Applies(f, now, WaiterCall)
  {}

  lemma ThreeSteps(w: Board, a: Action, b: Action, c: Action)
    ensures Run(w, [a, b, c]) == Apply(Apply(Apply(w, a), b), c)
  {
    hide Apply;
    assert [a, b, c][1..] == [b, c] && [b, c][1..] == [c] && [c][1..] == [];
    assert Run(Apply(Apply(Apply(w, a), b), c), []) == Apply(Apply(Apply(w, a), b), c);
    assert Run(Apply(Apply(w, a), b), [c]) == Apply(Apply(Apply(w, a), b), c);
    assert Run(Apply(w, a), [b, c]) == Run(Apply(Apply(w, a), b), [c]);
  }

  /** A recalculation stored at once, as inside a transaction, leaves nothing in progress. */
  function Recalculate(w: Board, worker: Id, s: Id, f: Facts, c: Clock): Board {
    Apply(Apply(w, StartRecalculation(worker, s, f, c)), FinishRecalculation(worker))
  }

  // ---------------------------------------------------------------------------
  // The service
  // ---------------------------------------------------------------------------

  /** The methods report an unknown session, for which the service throws, and change nothing then. */
  class Service {
    const branches: map<Id, Id>
    var snapshots: map<Id, Snapshot>
    var queues: map<Id, map<Id, int>>

    function Contents(): Board
      reads this
    {
      Board(branches, snapshots, queues, map[])
    }

    constructor (branches: map<Id, Id>)
      ensures this.branches == branches && Contents() == EmptyBoard(branches)
    {
      this.branches := branches;
      snapshots, queues := map[], map[];
    }

    method RecalculateForTableSession(session: Id, f: Facts, c: Clock) returns (found: bool)
      modifies this
      ensures found <==> session in branches
      ensures Contents() == Recalculate(old(Contents()), 0, session, f, c)
      ensures snapshots == if found
                           then old(snapshots)[session := Recalculated(Previous(old(snapshots), session), branches[session], f, c)]
                           else old(snapshots)
    {
      hide ScoredReasons, StatusForScore, PriorityForScore, Total, QueuesAfter;
      if session !in branches {
        return false;
      }
      var previous := Previous(snapshots, session);
      var score, reasons := ScoreTableSession(previous, f, c);
      var priority := PriorityForScore(score);
      var status := StatusForScore(score, previous, c.decide);
      MutedHasPrevious(score, previous, c.decide);
      var snapshot := Snapshot(branches[session], status, priority, score, reasons,
                               if status == Muted then previous.value.mutedUntil else None);
      snapshots := snapshots[session := snapshot];
      WriteRedisState(session, snapshot);
      found := true;
    }

    method MuteTableSession(session: Id, minutes: Option<int>, now: int) returns (found: bool)
      modifies this
      ensures found <==> session in branches
      ensures Contents() == Apply(old(Contents()), Mute(session, minutes, now))
      ensures snapshots == if found
                           then old(snapshots)[session := MutedSnapshot(Previous(old(snapshots), session), branches[session], minutes, now)]
                           else old(snapshots)
    {
      hide QueuesAfter;
      if session !in branches {
        return false;
      }
      var mutedUntil := now + (if minutes.Some? then minutes.value else 30) * MINUTE;
      if session in snapshots {
        snapshots := snapshots[session := snapshots[session].(status := Muted, mutedUntil := Some(mutedUntil))];
      } else {
        snapshots := snapshots[session := Snapshot(branches[session], Muted, Low, 0, [], Some(mutedUntil))];
      }
      WriteRedisState(session, snapshots[session]);
      found := true;
    }

    method ResolveTableSession(session: Id) returns (found: bool)
      modifies this
      ensures found <==> session in branches
      ensures Contents() == Apply(old(Contents()), Resolve(session))
      ensures snapshots == if found then old(snapshots)[session := ResolvedSnapshot(branches[session])] else old(snapshots)
    {
      hide QueuesAfter;
      if session !in branches {
        return false;
      }
      snapshots := snapshots[session := Snapshot(branches[session], Resolved, Low, 0, [], None)];
      WriteRedisState(session, snapshots[session]);
      found := true;
    }

    /** ZREM or ZADD on the branch's queue. */
    method WriteRedisState(session: Id, snapshot: Snapshot)
      modifies this`queues
      ensures queues == QueuesAfter(old(queues), session, snapshot)
    {
      var queue := Queue(queues, snapshot.branch);
      if snapshot.status == Normal || snapshot.status == Resolved {
        queue := queue - {session};
      } else {
        queue := queue[session := snapshot.score];
      }
      queues := queues[snapshot.branch := queue];
    }
  }

  lemma MutedHasPrevious(score: int, previous: Option<Snapshot>, decide: int)
    ensures StatusForScore(score, previous, decide).Muted? ==> previous.Some?
  {}
}
