/** The precondition of Release is not one the pipeline always meets. Two concrete runs, one
    for each branch that releases, in which a retry returns the capacity of an order already
    sent: the retry's receipt cannot be filed (internal/gateway/pipeline.go:540-541), and the
    retry finds its key retired after the first settlement was lost (:567-573). */
module PipelineGap {
  import opened Wrappers
  import opened Broker
  import opened Idempotency
  import opened Attempts
  import Exec = ExecutionRuns
  import opened Ledger
  import opened Pipeline
  import opened PipelineSafety
  import opened PipelineExposure

  const LIMITS := Limits(100, 100, 100, 1)
  const WHO := Identity("envelope-1", "principal", "account")
  const REQ := Request("tenant", "key", "envelope-1", "coid-key")
  const ORDER := Pipeline.Order.Order(REQ, Grant("tenant", "grant", LIMITS), Some(60), WHO, 0)
  /** The store answers; the venue times out on the send and does not find the order after. */
  const SILENT := Choice(0, true, false, true, Answer.Timeout)
  const ABSENT := Choice(0, true, false, true, Answer.NotFound)
  const ROW := Entry("grant", WHO, 60, 0, true, ReservationState.Reserved, None)
  const PENDING := NewRecord(REQ, 0)

  const TABLES := Claim(EMPTY_TABLES, PENDING).0

  const SENT := World(TABLES, map[], [REQ], map[])
  const LOST := Finished(REQ, Failure(Unresolved, UnknownOutcome("coid-key")))

  ghost function Reserves(): seq<Label> {
    [Begin(ORDER), Check(0, true, false), Hold(0, true, false), Receipt(0, true)]
  }

  ghost function Sends(): seq<Label> {
    [Execute(0, SILENT), Execute(0, SILENT), Execute(0, SILENT), Execute(0, ABSENT)]
  }

  ghost function Retries(): seq<Label> {
    [Begin(ORDER), Check(1, true, false), Hold(1, true, false), Receipt(1, false)]
  }

  /** One or two pipelines for the one order, with its row held. */
  ghost function Shape(w: World, attempts: seq<Attempt>, rows: Rows, stages: seq<Stage>, live: map<Ident, Pipeline.Order>): System {
    System(Exec.System(w, attempts), rows, seq(|stages|, _ => ORDER), stages, live)
  }

  lemma RunOne(labels: seq<Label>, l: Label)
    ensures PipelineSafety.Run(labels + [l]) == Apply(PipelineSafety.Run(labels), l)
  {
    assert (labels + [l])[..|labels|] == labels;
  }

  /** Four more labels, with the states between them. */
  lemma RunFour(labels: seq<Label>, a: Label, s1: System, b: Label, s2: System, c: Label, s3: System, d: Label)
    requires Shaped(s1) && Shaped(s2) && Shaped(s3)
    requires Apply(PipelineSafety.Run(labels), a) == s1 && Apply(s1, b) == s2 && Apply(s2, c) == s3
    ensures PipelineSafety.Run(labels + [a, b, c, d]) == Apply(s3, d)
  {
    RunOne(labels, a);
    RunOne(labels + [a], b);
    RunOne(labels + [a] + [b], c);
    RunOne(labels + [a] + [b] + [c], d);
    assert labels + [a, b, c, d] == labels + [a] + [b] + [c] + [d];
  }

  lemma EmptyLedgerAllows()
    ensures Reserve(map[], ORDER.grant, "key", 60, WHO, 0) == (map[REQ.Id() := ROW], Decision.Allow)
  {
    var consumed := Consumed(map[], "tenant", "grant", 0);
    assert After(map[], "tenant", "grant", 0 - HOUR) == {};
    assert After(map[], "tenant", "grant", DayStart(0) - 1) == {};
    assert OpenRows(map[], "tenant", "grant") == {};
  }

  lemma HeldRowAnswers()
    ensures Reserve(map[REQ.Id() := ROW], ORDER.grant, "key", 60, WHO, 0) == (map[REQ.Id() := ROW], Decision.Allow)
  {
  }

  lemma FirstReserves()
    ensures PipelineSafety.Run(Reserves()) == Shape(EMPTY_WORLD, [Entering(REQ)], map[REQ.Id() := ROW], [Executing], map[])
  {
    var s1 := Apply(INITIAL, Begin(ORDER));
    assert s1 == Shape(EMPTY_WORLD, [Entering(REQ)], map[], [Checking], map[]);
    var s2 := Apply(s1, Check(0, true, false));
    assert s2 == Shape(EMPTY_WORLD, [Entering(REQ)], map[], [Reserving], map[]);
    EmptyLedgerAllows();
    var s3 := Apply(s2, Hold(0, true, false));
    assert s3 == Shape(EMPTY_WORLD, [Entering(REQ)], map[REQ.Id() := ROW], [Recording], map[]);
    assert [] + Reserves() == Reserves();
    RunFour([], Begin(ORDER), s1, Check(0, true, false), s2, Hold(0, true, false), s3, Receipt(0, true));
  }

  lemma FirstIsSent()
    ensures PipelineSafety.Run(Reserves() + Sends())
      == Shape(SENT, [LOST], map[REQ.Id() := ROW], [Ended], map[REQ.Id() := ORDER])
  {
    var rows := map[REQ.Id() := ROW];
    var s0 := Shape(EMPTY_WORLD, [Entering(REQ)], rows, [Executing], map[]);
    var s1 := Apply(s0, Execute(0, SILENT));
    assert s1 == Shape(EMPTY_WORLD, [Claiming(REQ)], rows, [Executing], map[]);
    assert Claim(EMPTY_TABLES, PENDING).1 == Claimed;
    var s2 := Apply(s1, Execute(0, SILENT));
    assert s2 == Shape(World(TABLES, map[], [], map[]), [Sending(REQ)], rows, [Executing], map[]);
    var s3 := Apply(s2, Execute(0, SILENT));
    assert s3 == Shape(SENT, [Reconciling(REQ, "coid-key")], rows, [Executing], map[REQ.Id() := ORDER]);
    FirstReserves();
    RunFour(Reserves(), Execute(0, SILENT), s1, Execute(0, SILENT), s2, Execute(0, SILENT), s3, Execute(0, ABSENT));
  }

  lemma RetryIsHeld()
    ensures PipelineSafety.Run(Reserves() + Sends() + Retries())
      == Shape(SENT, [LOST, Entering(REQ)], map[REQ.Id() := ROW], [Ended, Releasing], map[REQ.Id() := ORDER])
  {
    var rows, live := map[REQ.Id() := ROW], map[REQ.Id() := ORDER];
    var s0 := Shape(SENT, [LOST], rows, [Ended], live);
    var s1 := Apply(s0, Begin(ORDER));
    assert s1 == Shape(SENT, [LOST, Entering(REQ)], rows, [Ended, Checking], live);
    assert TABLES.records[REQ.Id()] == PENDING;
    var s2 := Apply(s1, Check(1, true, false));
    assert s2 == Shape(SENT, [LOST, Entering(REQ)], rows, [Ended, Reserving], live);
    HeldRowAnswers();
    var s3 := Apply(s2, Hold(1, true, false));
    assert s3 == Shape(SENT, [LOST, Entering(REQ)], rows, [Ended, Recording], live);
    FirstIsSent();
    RunFour(Reserves() + Sends(), Begin(ORDER), s1, Check(1, true, false), s2, Hold(1, true, false), s3, Receipt(1, false));
  }

  /** The run: an order is sent and its outcome stays unknown; the same order is submitted
      again, its receipt cannot be filed, and the release deletes the row. The order may be
      live at the venue and nothing counts it. */
  lemma UnsafeReturnReachable()
    ensures var s := PipelineSafety.Run(Reserves() + Sends() + Retries() + [Return(1, true)]);
      && s.exec.world.sends == [REQ]
      && REQ.Id() in s.live && s.live[REQ.Id()].notional == Some(60)
      && s.rows == map[] && s.exec.world.decided == map[]
      && !Counted(s)
  {
    RetryIsHeld();
    RunOne(Reserves() + Sends() + Retries(), Return(1, true));
    Uncounted(PipelineSafety.Run(Reserves() + Sends() + Retries() + [Return(1, true)]));
  }

  lemma Uncounted(s: System)
    requires Shaped(s) && REQ.Id() in s.live && s.live[REQ.Id()] == ORDER && s.rows == map[] && s.exec.world.decided == map[]
    ensures !Counted(s)
  {
    assert !LiveCounted(s);
  }

  // ---------------------------------------------------------------------------
  // The retired key
  // ---------------------------------------------------------------------------

  const ACCEPTED := BrokerOrder("coid-key", "broker-1", ExecutionState.Accepted, 0.0, "")
  const OUTCOME := OutcomeFrom(ACCEPTED)
  /** The venue accepts, and the cache drops what it is given. */
  const TAKES := Choice(0, true, false, false, Answer.Order(ACCEPTED))
  const RESOLVED := Resolve(TABLES, REQ.Id(), OUTCOME, 0).0
  const RETIRED := Prune(RESOLVED, {REQ.Id()})
  const CACHING := Caching(REQ, ResolvedEntry(REQ, OUTCOME, 0), Success(OUTCOME))
  const DONE := Finished(REQ, Success(OUTCOME))

  function Recorded(t: Tables): World {
    World(t, map[], [REQ], map[REQ.Id() := OUTCOME])
  }

  ghost function Takes(): seq<Label> {
    [Execute(0, SILENT), Execute(0, SILENT), Execute(0, TAKES), Execute(0, TAKES)]
  }

  /** The settlement is lost, and retention later moves the record to the tombstones. */
  ghost function Forgets(): seq<Label> {
    [Execute(0, TAKES), Settlement(0, false), Retain("tenant", 1, {REQ.Id()}), Begin(ORDER)]
  }

  ghost function Repeats(): seq<Label> {
    [Check(1, true, false), Hold(1, true, false), Receipt(1, true), Execute(1, TAKES)]
  }

  lemma FirstIsTaken()
    ensures PipelineSafety.Run(Reserves() + Takes())
      == Shape(Recorded(RESOLVED), [CACHING], map[REQ.Id() := ROW],
               [Executing], map[REQ.Id() := ORDER])
  {
    var rows := map[REQ.Id() := ROW];
    var s0 := Shape(EMPTY_WORLD, [Entering(REQ)], rows, [Executing], map[]);
    var s1 := Apply(s0, Execute(0, SILENT));
    assert s1 == Shape(EMPTY_WORLD, [Claiming(REQ)], rows, [Executing], map[]);
    var s2 := Apply(s1, Execute(0, SILENT));
    assert s2 == Shape(World(TABLES, map[], [], map[]), [Sending(REQ)], rows, [Executing], map[]);
    var s3 := Apply(s2, Execute(0, TAKES));
    assert s3 == Shape(SENT, [Resolving(REQ, OUTCOME, false)], rows, [Executing], map[REQ.Id() := ORDER]);
    FirstReserves();
    RunFour(Reserves(), Execute(0, SILENT), s1, Execute(0, SILENT), s2, Execute(0, TAKES), s3, Execute(0, TAKES));
    ResolvesAccepted(rows, s3);
  }

  lemma ResolvesAccepted(rows: Rows, s: System)
    requires s == Shape(SENT, [Resolving(REQ, OUTCOME, false)], rows, [Executing], map[REQ.Id() := ORDER])
    ensures Apply(s, Execute(0, TAKES))
      == Shape(Recorded(RESOLVED), [CACHING], rows,
               [Executing], map[REQ.Id() := ORDER])
  {
    assert Resolve(TABLES, REQ.Id(), OUTCOME, 0).1;
    assert RESOLVED.records[REQ.Id()].outcome == OUTCOME;
    assert Step(SENT, Resolving(REQ, OUTCOME, false), TAKES)
      == (Recorded(RESOLVED), Caching(REQ, ResolvedEntry(REQ, OUTCOME, 0), Success(OUTCOME)));
  }

  lemma RecordIsRetired()
    ensures PruneBatch(RESOLVED, "tenant", 1, {REQ.Id()})
    ensures RETIRED == Tables(map[], map[REQ.Id() := Tombstone("envelope-1", "coid-key", ExecutionState.Accepted)])
  {
    assert RESOLVED.records.Keys == {REQ.Id()};
  }

  lemma Unsettled(rows: Rows, live: map<Ident, Pipeline.Order>)
    ensures var s := Shape(Recorded(RESOLVED), [CACHING], rows, [Executing], live);
      && Apply(s, Execute(0, TAKES)) == Shape(Recorded(RESOLVED), [DONE], rows, [Settling(OUTCOME)], live)
      && Apply(Apply(s, Execute(0, TAKES)), Settlement(0, false)) == Shape(Recorded(RESOLVED), [DONE], rows, [Ended], live)
  {
    var s1 := Apply(Shape(Recorded(RESOLVED), [CACHING], rows, [Executing], live), Execute(0, TAKES));
    assert s1 == Shape(Recorded(RESOLVED), [DONE], rows, [Settling(OUTCOME)], live);
    assert Apply(s1, Settlement(0, false)) == Shape(Recorded(RESOLVED), [DONE], rows, [Ended], live);
  }

  lemma Retires(rows: Rows, live: map<Ident, Pipeline.Order>)
    ensures Apply(Shape(Recorded(RESOLVED), [DONE], rows, [Ended], live), Retain("tenant", 1, {REQ.Id()}))
      == Shape(Recorded(RETIRED), [DONE], rows, [Ended], live)
  {
    RecordIsRetired();
  }

  lemma BeginsAgain(rows: Rows, live: map<Ident, Pipeline.Order>)
    ensures Apply(Shape(Recorded(RETIRED), [DONE], rows, [Ended], live), Begin(ORDER))
      == Shape(Recorded(RETIRED), [DONE, Entering(REQ)], rows, [Ended, Checking], live)
  {
  }

  lemma FirstIsForgotten()
    ensures PipelineSafety.Run(Reserves() + Takes() + Forgets())
      == Shape(Recorded(RETIRED), [DONE, Entering(REQ)], map[REQ.Id() := ROW], [Ended, Checking], map[REQ.Id() := ORDER])
  {
    var rows, live := map[REQ.Id() := ROW], map[REQ.Id() := ORDER];
    FirstIsTaken();
    Unsettled(rows, live);
    Retires(rows, live);
    BeginsAgain(rows, live);
    RunFour(Reserves() + Takes(), Execute(0, TAKES), Shape(Recorded(RESOLVED), [DONE], rows, [Settling(OUTCOME)], live),
      Settlement(0, false), Shape(Recorded(RESOLVED), [DONE], rows, [Ended], live),
      Retain("tenant", 1, {REQ.Id()}), Shape(Recorded(RETIRED), [DONE], rows, [Ended], live), Begin(ORDER));
  }

  /** The retry, at its second place, over the retired record. */
  ghost function Retrying(a: Attempt, stage: Stage): System {
    Shape(Recorded(RETIRED), [DONE, a], map[REQ.Id() := ROW], [Ended, stage], map[REQ.Id() := ORDER])
  }

  lemma RetryChecks()
    ensures Apply(Retrying(Entering(REQ), Checking), Check(1, true, false)) == Retrying(Entering(REQ), Reserving)
  {
    RecordIsRetired();
  }

  lemma RetryReserves()
    ensures Apply(Retrying(Entering(REQ), Reserving), Hold(1, true, false)) == Retrying(Entering(REQ), Recording)
    ensures Apply(Retrying(Entering(REQ), Recording), Receipt(1, true)) == Retrying(Entering(REQ), Executing)
  {
    HeldRowAnswers();
  }

  lemma RetryEnters()
    ensures Apply(Retrying(Entering(REQ), Executing), Execute(1, TAKES)) == Retrying(Claiming(REQ), Executing)
  {
  }

  lemma RetryMeetsTombstone()
    ensures PipelineSafety.Run(Reserves() + Takes() + Forgets() + Repeats()) == Retrying(Claiming(REQ), Executing)
  {
    RetryChecks();
    RetryReserves();
    RetryEnters();
    FirstIsForgotten();
    RunFour(Reserves() + Takes() + Forgets(), Check(1, true, false), Retrying(Entering(REQ), Reserving),
      Hold(1, true, false), Retrying(Entering(REQ), Recording), Receipt(1, true), Retrying(Entering(REQ), Executing), Execute(1, TAKES));
  }

  lemma RetryIsRefused()
    ensures Apply(Retrying(Claiming(REQ), Executing), Execute(1, TAKES)) == Retrying(Fail(REQ, ClaimRefused(KeyRetired)), Releasing)
  {
    RecordIsRetired();
    assert Claim(RETIRED, PENDING) == (RETIRED, Refused(KeyRetired));
  }

  lemma ReleaseDeletes(s: System)
    requires s == Retrying(Fail(REQ, ClaimRefused(KeyRetired)), Releasing)
    ensures Shaped(s) && Apply(s, Return(1, true)) == s.(rows := map[], stages := [Ended, Ended])
  {
  }

  /** The run: an order is accepted at the venue and recorded, the settlement of its row is
      lost, and retention retires the record; the same order is submitted again, is refused
      for its retired key, and the release deletes the row. The order stands at the venue and
      nothing counts it. */
  lemma RetiredReturnReachable()
    ensures var s := PipelineSafety.Run(Reserves() + Takes() + Forgets() + Repeats() + [Execute(1, TAKES)] + [Return(1, true)]);
      && s.exec.world.sends == [REQ]
      && REQ.Id() in s.live && s.live[REQ.Id()].notional == Some(60)
      && s.rows == map[] && s.exec.world.decided == map[REQ.Id() := OUTCOME]
      && !Counted(s)
  {
    var labels := Reserves() + Takes() + Forgets() + Repeats();
    RetryMeetsTombstone();
    RunOne(labels, Execute(1, TAKES));
    RetryIsRefused();
    var s := PipelineSafety.Run(labels + [Execute(1, TAKES)]);
    RunOne(labels + [Execute(1, TAKES)], Return(1, true));
    ReleaseDeletes(s);
    Unlisted(PipelineSafety.Run(labels + [Execute(1, TAKES)] + [Return(1, true)]));
  }

  lemma Unlisted(s: System)
    requires Shaped(s) && REQ.Id() in s.live && s.live[REQ.Id()] == ORDER && s.rows == map[]
    requires s.exec.world.decided == map[REQ.Id() := OUTCOME]
    ensures !Counted(s)
  {
    assert !LiveCounted(s);
  }
}
