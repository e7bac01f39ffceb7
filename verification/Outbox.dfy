/**
 * The transactional outbox: requests write an order row, then an outbox row, then the command, then mark the row;
 * a worker republishes rows still unmarked. Every step can be the last one before a failure or a crash.
 */
module Outboxes {

  /** How far a live request has come. */
  datatype Stage = OrderInserted | RowInserted | Appended

  /**
   * Order rows, outbox rows by order id with their published mark, the ids of the placement commands in the stream,
   * the live requests, the rest of the worker's batch, and whether its first row has been appended but not marked.
   */
  datatype State = State(
    orders: set<string>, rows: map<string, bool>, stream: seq<string>,
    requests: map<string, Stage>, batch: seq<string>, appended: bool)

  const INITIAL := State({}, map[], [], map[], [], false)
  const BATCH_SIZE := 100

  datatype Action =
    | InsertOrder(id: string)
    | InsertRow(id: string)
    | ApiAppend(id: string)
    | ApiMark(id: string)
    | RequestFails(id: string)
    | ServerCrashes
    | WorkerSelect(choice: seq<string>)
    | WorkerAppend
    | WorkerAppendFails
    | WorkerMark
    | WorkerMarkFails

  function Pending(rows: map<string, bool>): set<string> {
    set id | id in rows && !rows[id]
  }

  function Least(m: nat, n: nat): nat {
    if m < n then m else n
  }

  /** Any hundred pending rows, or all of them if there are fewer: the query names no order. */
  ghost predicate IsBatch(rows: map<string, bool>, batch: seq<string>) {
    && (forall i, j | 0 <= i < j < |batch| :: batch[i] != batch[j])
    && (forall i | 0 <= i < |batch| :: batch[i] in Pending(rows))
    && |batch| == Least(BATCH_SIZE, |Pending(rows)|)
  }

  ghost predicate At(s: State, id: string, stage: Stage) {
    id in s.requests && s.requests[id] == stage
  }

  /** One step; an action that does not apply changes nothing. */
  ghost function Do(s: State, a: Action): State {
    match a
    case InsertOrder(id) =>
      if id in s.orders then s else s.(orders := s.orders + {id}, requests := s.requests[id := OrderInserted])
    case InsertRow(id) =>
      if At(s, id, OrderInserted) then s.(rows := s.rows[id := false], requests := s.requests[id := RowInserted]) else s
    case ApiAppend(id) =>
      if At(s, id, RowInserted) then s.(stream := s.stream + [id], requests := s.requests[id := Appended]) else s
    case ApiMark(id) =>
      if At(s, id, Appended) then s.(rows := s.rows[id := true], requests := s.requests - {id}) else s
    case RequestFails(id) => s.(requests := s.requests - {id})
    case ServerCrashes => s.(requests := map[], batch := [], appended := false)
    case WorkerSelect(choice) => if s.batch == [] && IsBatch(s.rows, choice) then s.(batch := choice) else s
    case WorkerAppend =>
      if s.batch != [] && !s.appended then s.(stream := s.stream + [s.batch[0]], appended := true) else s
    case WorkerAppendFails => if s.batch != [] && !s.appended then s.(batch := s.batch[1..]) else s
    case WorkerMark =>
      if s.batch != [] && s.appended
      then s.(rows := s.rows[s.batch[0] := true], batch := s.batch[1..], appended := false) else s
    case WorkerMarkFails => if s.batch != [] && s.appended then s.(batch := s.batch[1..], appended := false) else s
  }

  ghost function Exec(s: State, acts: seq<Action>): State
    decreases |acts|
  {
    if acts == [] then s else Exec(Do(s, acts[0]), acts[1..])
  }

  lemma {:induction false} ExecConcat(s: State, p: seq<Action>, q: seq<Action>)
    ensures Exec(s, p + q) == Exec(Exec(s, p), q)
    decreases |p|
  {
    hide Do;
    if p == [] {
      assert p + q == q;
    } else {
      assert (p + q)[1..] == p[1..] + q;
      ExecConcat(Do(s, p[0]), p[1..], q);
    }
  }

  // ----- safety -----

  ghost predicate StageOk(s: State, id: string, stage: Stage) {
    match stage
    case OrderInserted => id in s.orders && id !in s.rows
    case RowInserted => id in s.rows
    case Appended => id in s.rows && id in s.stream
  }

  ghost predicate Sound(s: State) {
    && s.rows.Keys <= s.orders
    && (forall id | id in s.rows && s.rows[id] :: id in s.stream)
    && (forall id | id in s.stream :: id in s.rows)
    && (forall id | id in s.requests :: StageOk(s, id, s.requests[id]))
    && (forall i | 0 <= i < |s.batch| :: s.batch[i] in s.rows)
    && (s.appended ==> s.batch != [] && s.batch[0] in s.stream)
  }

  lemma StepSound(s: State, a: Action)
    requires Sound(s)
    ensures Sound(Do(s, a))
  {
    var t := Do(s, a);
    hide Do, IsBatch;
    if a.WorkerAppend? || a.WorkerAppendFails? || a.WorkerMark? || a.WorkerMarkFails? || a.WorkerSelect? || a.ServerCrashes? {
      WorkerStepSound(s, a);
    } else {
      RequestStepSound(s, a);
    }
  }

  lemma WorkerStepSound(s: State, a: Action)
    requires Sound(s) && !(a.InsertOrder? || a.InsertRow? || a.ApiAppend? || a.ApiMark? || a.RequestFails?)
    ensures Sound(Do(s, a))
  {
    var t := Do(s, a);
    assert forall id | id in t.requests :: StageOk(s, id, s.requests[id]);
    assert forall id | id in s.stream :: id in t.stream;
    if s.batch != [] {
      assert forall i | 0 <= i < |s.batch[1..]| :: s.batch[1..][i] == s.batch[i + 1];
    }
  }

  lemma RequestStepSound(s: State, a: Action)
    requires Sound(s) && (a.InsertOrder? || a.InsertRow? || a.ApiAppend? || a.ApiMark? || a.RequestFails?)
    ensures Sound(Do(s, a))
  {
    var t := Do(s, a);
    forall x | x in t.requests
      ensures StageOk(t, x, t.requests[x])
    {
      if x in s.requests {
        assert StageOk(s, x, s.requests[x]);
      }
    }
  }

  lemma {:induction false} RunSound(s: State, acts: seq<Action>)
    requires Sound(s)
    ensures Sound(Exec(s, acts))
    decreases |acts|
  {
    hide Sound, Do;
    if acts != [] {
      StepSound(s, acts[0]);
      RunSound(Do(s, acts[0]), acts[1..]);
    }
  }

  /**
   * Under every interleaving, failure and crash: a row marked published has its command in the stream, every row is in
   * the stream or still pending, and nothing is in the stream without its row and its order.
   */
  lemma PublishedIsInStream(acts: seq<Action>, id: string)
    ensures var s := Exec(INITIAL, acts);
            && (id in s.rows && s.rows[id] ==> id in s.stream)
            && (id in s.rows ==> id in s.stream || id in Pending(s.rows))
            && (id in s.stream ==> id in s.rows && id in s.orders)
  {
    RunSound(INITIAL, acts);
    hide Exec;
  }

  // ----- what a crash can lose -----

  /** An order row whose request died before it wrote the outbox row. */
  ghost predicate Lost(s: State, id: string) {
    id in s.orders && id !in s.rows && id !in s.requests
  }

  lemma {:induction false} LostForever(s: State, acts: seq<Action>, id: string)
    requires Sound(s) && Lost(s, id)
    ensures Lost(Exec(s, acts), id) && id !in Exec(s, acts).stream
    decreases |acts|
  {
    if acts != [] {
      StepSound(s, acts[0]);
      StepLost(s, acts[0], id);
      LostForever(Do(s, acts[0]), acts[1..], id);
    }
  }

  lemma StepLost(s: State, a: Action, id: string)
    requires Sound(s) && Lost(s, id)
    ensures Lost(Do(s, a), id)
  {
    hide IsBatch;
  }

  /** Some batch that starts with a given pending row. */
  lemma {:induction false} BatchFrom(pending: set<string>, id: string, n: nat) returns (batch: seq<string>)
    requires id in pending && 0 < n <= |pending|
    ensures |batch| == n && batch[0] == id
    ensures forall i, j | 0 <= i < j < n :: batch[i] != batch[j]
    ensures forall i | 0 <= i < n :: batch[i] in pending
    decreases n
  {
    if n == 1 {
      batch := [id];
    } else {
      assert |pending - {id}| == |pending| - 1;
      var next :| next in pending - {id};
      var rest := BatchFrom(pending - {id}, next, n - 1);
      batch := [id] + rest;
    }
  }

  /** From a row that is pending the worker can always get the command into the stream. */
  lemma PendingCanPublish(s: State, id: string) returns (acts: seq<Action>)
    requires Sound(s) && id in Pending(s.rows)
    ensures id in Exec(s, acts).stream
  {
    assert |Pending(s.rows)| > 0;
    var batch := BatchFrom(Pending(s.rows), id, Least(BATCH_SIZE, |Pending(s.rows)|));
    acts := [ServerCrashes, WorkerSelect(batch), WorkerAppend];
    var s1 := Do(s, ServerCrashes);
    var s2 := Do(s1, WorkerSelect(batch));
    assert s2.batch == batch && !s2.appended;
    ThreeSteps(s, acts);
  }

  lemma TwoSteps(s: State, acts: seq<Action>)
    requires |acts| == 2
    ensures Exec(s, acts) == Do(Do(s, acts[0]), acts[1])
  {
    hide Do;
    assert acts[1..][0] == acts[1] && acts[1..][1..] == [];
    NoSteps(Do(Do(s, acts[0]), acts[1]));
    assert Exec(Do(s, acts[0]), acts[1..]) == Exec(Do(Do(s, acts[0]), acts[1]), []);
  }

  lemma ThreeSteps(s: State, acts: seq<Action>)
    requires |acts| == 3
    ensures Exec(s, acts) == Do(Do(Do(s, acts[0]), acts[1]), acts[2])
  {
    hide Do;
    assert acts[1..][1..] == [acts[2]] && acts[1..][0] == acts[1] && [acts[2]][1..] == [];
    assert Exec(Do(Do(s, acts[0]), acts[1]), [acts[2]]) == Exec(Do(Do(Do(s, acts[0]), acts[1]), acts[2]), []);
  }

  ghost predicate Deliverable(s: State, id: string) {
    exists acts :: id in Exec(s, acts).stream
  }

  /**
   * A committed order can still reach the engine if and only if its outbox row exists or its request is still alive:
   * a crash between the two inserts loses it for good.
   */
  lemma DeliverableIffNotLost(acts: seq<Action>, id: string)
    requires id in Exec(INITIAL, acts).orders
    ensures Deliverable(Exec(INITIAL, acts), id) <==> !Lost(Exec(INITIAL, acts), id)
  {
    var s := Exec(INITIAL, acts);
    RunSound(INITIAL, acts);
    hide Exec;
    if Lost(s, id) {
      forall more
        ensures id !in Exec(s, more).stream
      {
        LostForever(s, more, id);
      }
    } else if id in s.stream {
      NoSteps(s);
      assert id in Exec(s, []).stream;
    } else if id in s.rows {
      var more := PendingCanPublish(s, id);
      assert id in Exec(s, more).stream;
    } else {
      LiveCanPublish(s, id);
    }
  }

  /** Such a loss: the request fails right after its first insert, and nothing brings the order back. */
  lemma LossPossible(id: string, more: seq<Action>)
    ensures var s := Exec(INITIAL, [InsertOrder(id), RequestFails(id)]);
            Lost(s, id) && id in s.orders && id !in Exec(s, more).stream
  {
    var acts := [InsertOrder(id), RequestFails(id)];
    TwoSteps(INITIAL, acts);
    RunSound(INITIAL, acts);
    var s := Exec(INITIAL, acts);
    assert s == State({id}, map[], [], map[], [], false);
    LostForever(s, more, id);
  }

  lemma NoSteps(s: State)
    ensures Exec(s, []) == s
  {
  }

  lemma LiveCanPublish(s: State, id: string)
    requires Sound(s) && id in s.requests && id !in s.rows
    ensures Deliverable(s, id)
  {
    assert StageOk(s, id, s.requests[id]);
    var more := [InsertRow(id), ApiAppend(id), ApiMark(id)];
    ThreeSteps(s, more);
    hide Exec, IsBatch;
    assert id in Exec(s, more).stream;
  }

  // ----- duplicates -----

  /** What a step appends to the stream. */
  ghost function Appends(s: State, a: Action): seq<string> {
    if a.ApiAppend? && At(s, a.id, RowInserted) then [a.id]
    else if a.WorkerAppend? && s.batch != [] && !s.appended then [s.batch[0]]
    else []
  }

  lemma StreamGrows(s: State, a: Action)
    ensures Do(s, a).stream == s.stream + Appends(s, a)
  {
    hide IsBatch;
  }

  /** How often an order's request, and how often the worker, appends its command during a run. */
  ghost function ApiAppends(s: State, acts: seq<Action>, id: string): nat
    decreases |acts|
  {
    if acts == [] then 0
    else (if acts[0].ApiAppend? && Appends(s, acts[0]) == [id] then 1 else 0) + ApiAppends(Do(s, acts[0]), acts[1..], id)
  }

  ghost function WorkerAppends(s: State, acts: seq<Action>, id: string): nat
    decreases |acts|
  {
    if acts == [] then 0
    else (if acts[0].WorkerAppend? && Appends(s, acts[0]) == [id] then 1 else 0) + WorkerAppends(Do(s, acts[0]), acts[1..], id)
  }

  /** Every copy in the stream is accounted for. */
  lemma {:induction false} CopiesCounted(s: State, acts: seq<Action>, id: string)
    ensures multiset(Exec(s, acts).stream)[id] == multiset(s.stream)[id] + ApiAppends(s, acts, id) + WorkerAppends(s, acts, id)
    decreases |acts|
  {
    hide Do;
    if acts != [] {
      StreamGrows(s, acts[0]);
      CopiesCounted(Do(s, acts[0]), acts[1..], id);
    }
  }

  /** Whether the request of this order can still append its command. */
  ghost predicate ApiMayAppend(s: State, id: string) {
    id !in s.orders || At(s, id, OrderInserted) || At(s, id, RowInserted)
  }

  lemma MayAppendStays(s: State, a: Action, id: string)
    requires Sound(s)
    ensures ApiMayAppend(Do(s, a), id) ==> ApiMayAppend(s, id)
    ensures a.ApiAppend? && Appends(s, a) == [id] ==> ApiMayAppend(s, id) && !ApiMayAppend(Do(s, a), id)
  {
    hide IsBatch;
  }

  lemma {:induction false} ApiAppendsOnce(s: State, acts: seq<Action>, id: string)
    requires Sound(s)
    ensures ApiAppends(s, acts, id) <= (if ApiMayAppend(s, id) then 1 else 0)
    decreases |acts|
  {
    hide Do, ApiMayAppend, Sound, Appends;
    if acts != [] {
      StepSound(s, acts[0]);
      MayAppendStays(s, acts[0], id);
      ApiAppendsOnce(Do(s, acts[0]), acts[1..], id);
    }
  }

  /**
   * The copies of a command in the stream are exactly what its request and the worker appended, and the request
   * appends at most once. So there is at most one copy if and only if the two together appended at most once.
   */
  lemma ExtraCopiesAreRedeliveries(acts: seq<Action>, id: string)
    ensures var copies := multiset(Exec(INITIAL, acts).stream)[id];
            var byApi, byWorker := ApiAppends(INITIAL, acts, id), WorkerAppends(INITIAL, acts, id);
            copies == byApi + byWorker && byApi <= 1 && (copies <= 1 <==> byApi + byWorker <= 1)
  {
    CopiesCounted(INITIAL, acts, id);
    ApiAppendsOnce(INITIAL, acts, id);
    hide Exec, WorkerAppends, ApiAppends;
  }

  ghost predicate NoDuplicates(stream: seq<string>) {
    forall i, j | 0 <= i < j < |stream| :: stream[i] != stream[j]
  }

  /** A step makes a first duplicate exactly when it appends an id that is already in the stream. */
  lemma DuplicatesIffAlreadySent(s: State, a: Action)
    requires NoDuplicates(s.stream)
    ensures !NoDuplicates(Do(s, a).stream) <==> Appends(s, a) != [] && Appends(s, a)[0] in s.stream
  {
    StreamGrows(s, a);
    hide Do, At;
    var t := Do(s, a).stream;
    if Appends(s, a) != [] {
      var id := Appends(s, a)[0];
      assert t[|s.stream|] == id;
      if id in s.stream {
        var i :| 0 <= i < |s.stream| && s.stream[i] == id;
        assert t[i] == t[|s.stream|];
      }
    }
  }

  /**
   * A request never appends a second copy of its own accord unless the worker was faster: its append duplicates
   * exactly when the worker has already published the row.
   */
  lemma ApiDuplicatesIffWorkerFirst(acts: seq<Action>, id: string)
    requires At(Exec(INITIAL, acts), id, RowInserted)
    ensures id in Exec(INITIAL, acts).stream <==> WorkerAppends(INITIAL, acts, id) > 0
  {
    CopiesCounted(INITIAL, acts, id);
    RunSound(INITIAL, acts);
    StillWaiting(INITIAL, acts, id);
    hide Exec, WorkerAppends, ApiAppends;
  }

  lemma {:induction false} StillWaiting(s: State, acts: seq<Action>, id: string)
    requires Sound(s) && ApiMayAppend(Exec(s, acts), id)
    ensures ApiAppends(s, acts, id) == 0
    decreases |acts|
  {
    hide Do, Sound, Appends;
    if acts != [] {
      StepSound(s, acts[0]);
      MayAppendStays(s, acts[0], id);
      StillWaiting(Do(s, acts[0]), acts[1..], id);
      MayAppendBefore(Do(s, acts[0]), acts[1..], id);
    }
  }

  lemma {:induction false} MayAppendBefore(s: State, acts: seq<Action>, id: string)
    requires Sound(s) && ApiMayAppend(Exec(s, acts), id)
    ensures ApiMayAppend(s, id)
    decreases |acts|
  {
    hide Do, Sound, ApiMayAppend;
    if acts != [] {
      StepSound(s, acts[0]);
      MayAppendBefore(Do(s, acts[0]), acts[1..], id);
      MayAppendStays(s, acts[0], id);
    }
  }

  /** A request that nothing interrupts: one order, one marked row, one command, and it is over. */
  lemma RequestCompletes(id: string)
    ensures Exec(INITIAL, [InsertOrder(id), InsertRow(id), ApiAppend(id), ApiMark(id)])
         == State({id}, map[id := true], [id], map[], [], false)
  {
    PublishedByApi(id);
    var three := [InsertOrder(id), InsertRow(id), ApiAppend(id)];
    assert three + [ApiMark(id)] == [InsertOrder(id), InsertRow(id), ApiAppend(id), ApiMark(id)];
    ExecConcat(INITIAL, three, [ApiMark(id)]);
    var s := State({id}, map[id := false], [id], map[id := Appended], [], false);
    assert [ApiMark(id)][1..] == [] && Exec(s, [ApiMark(id)]) == Exec(Do(s, ApiMark(id)), []);
    NoSteps(Do(s, ApiMark(id)));
    assert map[id := Appended] - {id} == map[];
  }

  lemma PublishedByApi(id: string)
    ensures Exec(INITIAL, [InsertOrder(id), InsertRow(id), ApiAppend(id)])
         == State({id}, map[id := false], [id], map[id := Appended], [], false)
  {
    ThreeSteps(INITIAL, [InsertOrder(id), InsertRow(id), ApiAppend(id)]);
    hide Exec;
    var s := Do(Do(INITIAL, InsertOrder(id)), InsertRow(id));
    assert s == State({id}, map[id := false], [], map[id := RowInserted], [], false);
  }

  /** Redelivery happens without any failure: the worker reads a row between its append and its mark. */
  lemma RedeliveryPossible(id: string)
    ensures Exec(INITIAL, [InsertOrder(id), InsertRow(id), ApiAppend(id)] + [WorkerSelect([id]), WorkerAppend, ApiMark(id)]).stream
         == [id, id]
  {
    hide Exec;
    var first, after := [InsertOrder(id), InsertRow(id), ApiAppend(id)], [WorkerSelect([id]), WorkerAppend, ApiMark(id)];
    PublishedByApi(id);
    ExecConcat(INITIAL, first, after);
    var s := State({id}, map[id := false], [id], map[id := Appended], [], false);
    ThreeSteps(s, after);
    assert Pending(s.rows) == {id};
    assert IsBatch(s.rows, [id]);
    hide IsBatch, Pending;
    assert Do(s, after[0]).batch == [id];
  }

  // ----- the worker's loop -----

  /** What the worker does about one row, given which writes fail. */
  ghost function RowActions(id: string, appendFails: set<string>, markFails: set<string>): seq<Action> {
    if id in appendFails then [WorkerAppendFails]
    else if id in markFails then [WorkerAppend, WorkerMarkFails]
    else [WorkerAppend, WorkerMark]
  }

  ghost function BatchActions(batch: seq<string>, appendFails: set<string>, markFails: set<string>): seq<Action> {
    if batch == [] then []
    else BatchActions(batch[..|batch| - 1], appendFails, markFails) + RowActions(batch[|batch| - 1], appendFails, markFails)
  }

  /** The rows of a batch whose writes do not fail. */
  ghost function Outside(batch: seq<string>, fails: set<string>): seq<string> {
    if batch == [] then []
    else Outside(batch[..|batch| - 1], fails) + (if batch[|batch| - 1] in fails then [] else [batch[|batch| - 1]])
  }

  ghost function Marked(rows: map<string, bool>, ids: seq<string>): map<string, bool> {
    map id | id in rows :: rows[id] || id in ids
  }

  lemma RowStep(s: State, id: string, appendFails: set<string>, markFails: set<string>)
    requires s.batch != [] && s.batch[0] == id && !s.appended
    ensures Exec(s, RowActions(id, appendFails, markFails))
         == s.(batch := s.batch[1..],
               stream := if id in appendFails then s.stream else s.stream + [id],
               rows := if id in appendFails || id in markFails then s.rows else s.rows[id := true])
  {
    var acts := RowActions(id, appendFails, markFails);
    if id in appendFails {
      assert acts[1..] == [];
      NoSteps(Do(s, acts[0]));
    } else {
      TwoSteps(s, acts);
      hide Exec;
      assert Do(s, WorkerAppend) == s.(stream := s.stream + [id], appended := true);
    }
  }

  lemma MarkOne(rows: map<string, bool>, ids: seq<string>, id: string)
    requires id in rows
    ensures Marked(rows, ids + [id]) == Marked(rows, ids)[id := true]
    ensures Marked(rows, ids + []) == Marked(rows, ids) && Marked(rows, []) == rows
  {
    assert ids + [] == ids;
  }

  /** The machine after the first `k` rows of a batch. */
  ghost predicate Reached(s: State, batch: seq<string>, appendFails: set<string>, markFails: set<string>, k: nat,
                          rows: map<string, bool>, stream: seq<string>)
  {
    && k <= |batch|
    && Exec(s, [WorkerSelect(batch)] + BatchActions(batch[..k], appendFails, markFails))
       == s.(rows := rows, stream := stream, batch := batch[k..], appended := false)
  }

  lemma ReachedStart(s: State, batch: seq<string>, appendFails: set<string>, markFails: set<string>)
    requires s.batch == [] && !s.appended && IsBatch(s.rows, batch)
    ensures Reached(s, batch, appendFails, markFails, 0, s.rows, s.stream)
  {
    var select := [WorkerSelect(batch)];
    assert select + BatchActions(batch[..0], appendFails, markFails) == select && select[1..] == [];
    NoSteps(Do(s, WorkerSelect(batch)));
    assert batch[0..] == batch;
  }

  lemma ReachedNext(s: State, batch: seq<string>, appendFails: set<string>, markFails: set<string>, k: nat,
                    rows: map<string, bool>, stream: seq<string>)
    requires Reached(s, batch, appendFails, markFails, k, rows, stream) && k < |batch|
    ensures var id := batch[k];
            Reached(s, batch, appendFails, markFails, k + 1,
                    if id in appendFails || id in markFails then rows else rows[id := true],
                    if id in appendFails then stream else stream + [id])
  {
    hide Do, Exec, RowActions;
    var done, now := BatchActions(batch[..k], appendFails, markFails), RowActions(batch[k], appendFails, markFails);
    assert batch[..k + 1][..k] == batch[..k];
    var before := [WorkerSelect(batch)] + done;
    assert [WorkerSelect(batch)] + BatchActions(batch[..k + 1], appendFails, markFails) == before + now;
    ExecConcat(s, before, now);
    var m := s.(rows := rows, stream := stream, batch := batch[k..], appended := false);
    RowStep(m, batch[k], appendFails, markFails);
    assert m.batch[1..] == batch[k + 1..];
    assert Exec(s, before) == m;
    assert Exec(s, before + now) == Exec(m, now);
    assert Exec(s, [WorkerSelect(batch)] + BatchActions(batch[..k + 1], appendFails, markFails)) == Exec(m, now);
  }

  class OutboxWorker {
    var rows: map<string, bool>
    var stream: seq<string>
    ghost var orders: set<string>
    ghost var requests: map<string, Stage>

    constructor (rows: map<string, bool>, stream: seq<string>, ghost orders: set<string>, ghost requests: map<string, Stage>)
      ensures View() == State(orders, rows, stream, requests, [], false)
    {
      this.rows, this.stream, this.orders, this.requests := rows, stream, orders, requests;
    }

    /** Between batches: what the machine sees. */
    ghost function View(): State
      reads this
    {
      State(orders, rows, stream, requests, [], false)
    }

    method SelectPending() returns (batch: seq<string>)
      ensures IsBatch(rows, batch)
    {
      batch := [];
      var rest := Pending(rows);
      while rest != {} && |batch| < BATCH_SIZE
        invariant rest <= Pending(rows) && |batch| + |rest| == |Pending(rows)| && |batch| <= BATCH_SIZE
        invariant forall i, j | 0 <= i < j < |batch| :: batch[i] != batch[j]
        invariant forall i | 0 <= i < |batch| :: batch[i] in Pending(rows) && batch[i] !in rest
        decreases |rest|
      {
        var id :| id in rest;
        batch := batch + [id];
        rest := rest - {id};
      }
    }

    /**
     * One batch, uninterrupted. The loop is a run of the machine; rows whose append fails stay pending, rows whose mark
     * fails are in the stream and stay pending, and the result counts the others.
     */
    method PublishOutboxBatch(appendFails: set<string>, markFails: set<string>)
      returns (published: nat, ghost batch: seq<string>)
      modifies this`rows, this`stream
      ensures IsBatch(old(rows), batch)
      ensures View() == Exec(old(View()), [WorkerSelect(batch)] + BatchActions(batch, appendFails, markFails))
      ensures stream == old(stream) + Outside(batch, appendFails)
      ensures rows == Marked(old(rows), Outside(batch, appendFails + markFails))
      ensures published == |Outside(batch, appendFails + markFails)|
    {
      hide Exec, Do, RowActions, BatchActions, Marked, Reached, Outside;
      var pending := SelectPending();
      batch := pending;
      ghost var s := View();
      ReachedStart(s, batch, appendFails, markFails);
      MarkNone(rows, batch, appendFails, markFails);
      published := 0;
      var k := 0;
      while k < |pending|
        invariant 0 <= k <= |pending| && batch == pending && IsBatch(old(rows), batch)
        invariant Reached(s, batch, appendFails, markFails, k, rows, stream) && rows.Keys == old(rows).Keys
        invariant stream == old(stream) + Outside(batch[..k], appendFails)
        invariant rows == Marked(old(rows), Outside(batch[..k], appendFails + markFails))
        invariant published == |Outside(batch[..k], appendFails + markFails)|
      {
        var id := pending[k];
        ReachedNext(s, batch, appendFails, markFails, k, rows, stream);
        OutsideNext(batch, k, appendFails);
        OutsideNext(batch, k, appendFails + markFails);
        MarkOne(old(rows), Outside(batch[..k], appendFails + markFails), id);
        if id !in appendFails {
          stream := stream + [id];
          if id !in markFails {
            rows := rows[id := true];
            published := published + 1;
          }
        }
        k := k + 1;
      }
      assert batch[..k] == batch;
      ReachedEnd(s, batch, appendFails, markFails, rows, stream);
    }

    /** Failure-free batches, one after the other, with nobody else at work: each takes up to a hundred off the backlog. */
    method RunTicks(ticks: nat)
      modifies this`rows, this`stream
      ensures |Pending(rows)| == Backlog(|Pending(old(rows))|, ticks)
      ensures SentIfMarked(old(rows), rows, stream)
    {
      hide *;
      StartsSent(rows, stream);
      for i := 0 to ticks
        invariant |Pending(rows)| == Backlog(|Pending(old(rows))|, i)
        invariant SentIfMarked(old(rows), rows, stream)
      {
        ghost var before, sent := rows, stream;
        ghost var batch;
        var published;
        published, batch := PublishOutboxBatch({}, {});
        NoFailures(batch);
        BatchDrains(before, batch);
        StaysSent(old(rows), before, batch, sent);
        OneTick(|Pending(old(rows))|, i);
      }
    }
  }

  /** What is left of a backlog after some failure-free batches. */
  function Backlog(pending: nat, ticks: nat): nat {
    if pending > BATCH_SIZE * ticks then pending - BATCH_SIZE * ticks else 0
  }

  lemma OneTick(pending: nat, ticks: nat)
    ensures Backlog(pending, ticks + 1) == Backlog(pending, ticks) - Least(BATCH_SIZE, Backlog(pending, ticks))
    ensures Backlog(pending, 0) == pending
  {
  }

  /** Every row marked since is in the stream. */
  ghost predicate SentIfMarked(before: map<string, bool>, rows: map<string, bool>, stream: seq<string>) {
    && rows.Keys == before.Keys
    && forall id | id in rows && rows[id] :: before[id] || id in stream
  }

  lemma StartsSent(rows: map<string, bool>, stream: seq<string>)
    ensures SentIfMarked(rows, rows, stream)
    ensures Backlog(|Pending(rows)|, 0) == |Pending(rows)|
  {
  }

  lemma StaysSent(first: map<string, bool>, before: map<string, bool>, batch: seq<string>, stream: seq<string>)
    requires SentIfMarked(first, before, stream)
    ensures SentIfMarked(first, Marked(before, batch), stream + batch)
  {
  }

  lemma NoFailures(batch: seq<string>)
    ensures Outside(batch, {}) == batch && Outside(batch, {} + {}) == batch
  {
    AllOutside(batch);
    var none: set<string> := {};
    assert none + none == none;
  }

  lemma MarkNone(rows: map<string, bool>, batch: seq<string>, appendFails: set<string>, markFails: set<string>)
    ensures Marked(rows, []) == rows
    ensures Outside(batch[..0], appendFails) == [] && Outside(batch[..0], appendFails + markFails) == []
  {
  }

  lemma OutsideNext(batch: seq<string>, k: nat, fails: set<string>)
    requires k < |batch|
    ensures Outside(batch[..k + 1], fails) == Outside(batch[..k], fails) + (if batch[k] in fails then [] else [batch[k]])
  {
    assert batch[..k + 1][..k] == batch[..k];
  }

  lemma ReachedEnd(s: State, batch: seq<string>, appendFails: set<string>, markFails: set<string>,
                   rows: map<string, bool>, stream: seq<string>)
    requires Reached(s, batch, appendFails, markFails, |batch|, rows, stream)
    ensures Exec(s, [WorkerSelect(batch)] + BatchActions(batch, appendFails, markFails))
         == s.(rows := rows, stream := stream, batch := [], appended := false)
  {
    assert batch[..|batch|] == batch && batch[|batch|..] == [];
  }

  lemma {:induction false} AllOutside(batch: seq<string>)
    ensures Outside(batch, {}) == batch
    decreases |batch|
  {
    if batch != [] {
      AllOutside(batch[..|batch| - 1]);
    }
  }

  /** A failure-free batch takes exactly its rows off the backlog: a hundred, or all there are. */
  lemma BatchDrains(rows: map<string, bool>, batch: seq<string>)
    requires IsBatch(rows, batch)
    ensures Pending(Marked(rows, batch)) == Pending(rows) - (set id | id in batch)
    ensures |Pending(Marked(rows, batch))| == |Pending(rows)| - Least(BATCH_SIZE, |Pending(rows)|)
    ensures |batch| == if |Pending(rows)| < 100 then |Pending(rows)| else 100
  {
    var ids := set id | id in batch;
    assert Pending(Marked(rows, batch)) == Pending(rows) - ids;
    DistinctCount(batch);
    assert ids <= Pending(rows);
  }

  lemma {:induction false} DistinctCount(batch: seq<string>)
    requires forall i, j | 0 <= i < j < |batch| :: batch[i] != batch[j]
    ensures |set id | id in batch| == |batch|
    decreases |batch|
  {
    if batch != [] {
      var init, last := batch[..|batch| - 1], batch[|batch| - 1];
      DistinctCount(init);
      assert (set id | id in batch) == (set id | id in init) + {last};
      assert last !in init;
    }
  }
}
