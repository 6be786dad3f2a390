/** The coordination machine of one node: its events, its steps and its runs. */
module CoordinationRun {
  import opened Common
  import opened CoordinationState
  import opened TableSteps
  import opened RecordSteps
  import opened RequestSteps

  datatype Event =
    | Tick(elapsed: nat)
    | Restart(readable: bool)
    | SaveAll(ok: bool)
    | OnTable(event: TableEvent)
    | OnRecords(lab: Lab, fence: Fence, record: RecordEvent, ok: bool)
    | OnRequests(request: RequestEvent)
    | WriteTopology(lab: Lab)
    | Destroy(lab: Lab, fence: Fence, ok: bool)

  /** An open transaction or a prepared generation protects the objects of a lab. */
  predicate RecordsProtect(r: Records, lab: Lab) {
    lab in r.transactions || GenerationOf(r, lab).prepared != ""
  }

  /** So does a topology file or a request that holds the operation lease. */
  predicate InUse(s: State, lab: Lab) {
    RecordsProtect(s.mem.records, lab) || lab in s.topology || lab in s.requests.ops
  }

  function WithProtection(s: State, e: TableEvent): TableEvent {
    if e.BeginCollection? then e.(busy := e.busy || InUse(s, e.owner)) else e
  }

  function ApplyOutcome(s: State, o: Outcome): State {
    s.(leases := o.leases, collecting := o.collecting,
       mem := s.mem.(table := o.table),
       disk := if o.saved.Some? then Journal(o.saved.value, s.mem.records) else s.disk)
  }

  function ApplyRecords(s: State, w: RecordWrite): State {
    var m := s.mem.(records := w.records);
    s.(mem := m, disk := if w.saved then m else s.disk)
  }

  /** The fenced end of a destroy; the high-water mark of the lab stays. */
  function DestroyStep(s: State, lab: Lab, f: Fence, ok: bool): State {
    if Accepts(FrontOf(s), lab, f) && ok then
      var m := Journal(s.mem.table.(claims := WithoutLab(s.mem.table.claims, lab, [])),
                       DestroyRecords(s.mem.records, lab));
      s.(mem := m, disk := m)
    else s
  }

  /** The journalled high-water marks a new process takes over. */
  function LoadedMarks(marks: map<Lab, nat>): map<Lab, nat> {
    map lab | lab in marks && marks[lab] > 0 :: marks[lab]
  }

  /** A new process: no leases, no collections, and the journal if it can be read. */
  function RestartStep(s: State, readable: bool): State {
    var j := if readable then s.disk else EMPTY_JOURNAL;
    s.(leases := map[], collecting := {}, requests := NO_REQUESTS,
       mem := Journal(Table(LoadedMarks(j.table.highWater), CurrentClaims(j.table.claims, s.now)),
                      Rehydrated(j.records, s.topology)))
  }

  // ---------- steps of requests ----------

  function OnTableStep(s: State, te: TableEvent): State {
    if te.RestoreClaims? && !Restorable(s.requests, te.lab, te.fence, te.vnis) then s
    else ApplyOutcome(s, TableStep(FrontOf(s), WithProtection(s, te)))
  }

  /** The transaction a recovery request has read when its start was saved. */
  function Started(w: RecordWrite, lab: Lab): Option<Transaction> {
    if w.saved && lab in w.records.transactions then Some(w.records.transactions[lab]) else None
  }

  function OnRecordsStep(s: State, lab: Lab, f: Fence, re: RecordEvent, ok: bool): State {
    if !Reachable(s.requests, lab, f, re) then s
    else
      var w := RecordStep(s.mem.records, lab, Accepts(FrontOf(s), lab, f), f.generation, re, ok);
      var isNew := lab !in s.mem.records.transactions && lab in w.records.transactions;
      ApplyRecords(s, w).(requests := AfterRecord(s.requests, lab, f, re, isNew, Started(w, lab)))
  }

  function WriteTopologyStep(s: State, lab: Lab): State {
    if WritesTopology(s.requests, lab) then
      s.(topology := WithFile(s.topology, lab, Target(s.requests.ops[lab])),
         requests := Advanced(s.requests, lab, Written))
    else s
  }

  function Step(s: State, e: Event): State {
    match e
    case Tick(d) => s.(now := s.now + d)
    case Restart(readable) => RestartStep(s, readable)
    case SaveAll(ok) => s.(disk := if ok then s.mem else s.disk)
    case OnTable(te) => OnTableStep(s, te)
    case OnRecords(lab, f, re, ok) => OnRecordsStep(s, lab, f, re, ok)
    case OnRequests(re) => s.(requests := RequestStep(s, re))
    case WriteTopology(lab) => WriteTopologyStep(s, lab)
    case Destroy(lab, f, ok) => if Destroyable(s.requests, lab, f) then DestroyStep(s, lab, f, ok) else s
  }

  /** A fence generation that was handed out at some point. */
  predicate WasIssued(t: Table, lab: Lab, generation: nat) {
    0 < generation <= HighWater(t, lab)
  }

  // ---------- runs ----------

  /** Generated tokens are not empty, and a collection is ended by the pass that began it. */
  ghost predicate Allowed(s: State, e: Event) {
    e.OnTable? ==>
      match e.event
      case Acquire(_, token, _, _) => token != ""
      case AcquireRecovery(_, token, limit, _, _) => token != "" && limit > 0
      case EndCollection(vni, _, _) => vni in s.collecting
      case _ => true
  }

  ghost predicate StepAt(ss: seq<State>, es: seq<Event>, i: nat)
    requires |ss| == |es| + 1 && i < |es|
  {
    Allowed(ss[i], es[i]) && ss[i + 1] == Step(ss[i], es[i])
  }

  ghost predicate IsRun(ss: seq<State>, es: seq<Event>) {
    && |ss| == |es| + 1
    && Init(ss[0])
    && forall i | 0 <= i < |es| :: StepAt(ss, es, i)
  }

  /** Every restart of the run could read the journal. */
  ghost predicate Durable(es: seq<Event>) {
    forall i | 0 <= i < |es| :: Readable(es[i])
  }

  predicate Readable(e: Event) { e.Restart? ==> e.readable }

  // ---------- building runs ----------

  const START := State(0, map[], {}, EMPTY_JOURNAL, EMPTY_JOURNAL, map[], NO_REQUESTS)

  /** A durable run that ends in `s`. */
  ghost predicate RunTo(ss: seq<State>, es: seq<Event>, s: State) {
    IsRun(ss, es) && Durable(es) && ss[|es|] == s
  }

  lemma EmptyRun()
    ensures RunTo([START], [], START)
  {}

  /** One more event, with the state it leads to. */
  lemma OneMore(ss: seq<State>, es: seq<Event>, e: Event, s: State)
    requires IsRun(ss, es) && Durable(es) && Allowed(ss[|es|], e) && Readable(e) && s == Step(ss[|es|], e)
    ensures RunTo(ss + [s], es + [e], s)
  {
    var ss', es' := ss + [s], es + [e];
    forall i | 0 <= i < |es'| ensures StepAt(ss', es', i) {
      if i < |es| {
        assert StepAt(ss, es, i);
      }
    }
  }
}
