/**
 Invoices (`invoices.service.ts`) of one organization, with their lines, work-order links and status.

 Every edit of the source is a check (the invoice is there, is a draft, the work orders fit, the transition
 is allowed) followed by a write that does not look again; a change of status reads the clock in between.
 `Apply` is one atomic call; `Begin` and `Finish` are its two halves, so that other calls can come in between.
 `ReadClock` fixes the instant the write will stamp; without it the clock is read together with the write.
 */
module Invoices {
  import opened Prelude

  type Customer = nat
  type WorkOrder = nat
  type Id = nat
  type LineId = nat

  datatype Status = Draft | Issued | Paid | Void

  datatype Line = Line(description: string, quantity: int, unitPriceCents: Option<int>)
  datatype LineInput = LineInput(description: string, quantity: Option<int>, unitPriceCents: Option<int>)
  /** An absent field is left as it is; the price can also be set to null. */
  datatype LinePatch = LinePatch(
    description: Option<string>, quantity: Option<int>, unitPriceCents: Option<Option<int>>)

  datatype Invoice = Invoice(
    customer: Customer, status: Status, issuedAt: Option<int>, paidAt: Option<int>, voidedAt: Option<int>,
    lines: map<LineId, Line>, links: set<WorkOrder>)

  datatype Edit =
    | AddWorkOrders(ids: seq<WorkOrder>)
    | RemoveWorkOrder(workOrder: WorkOrder)
    | AddLine(input: LineInput)
    | UpdateLine(line: LineId, patch: LinePatch)
    | DeleteLine(line: LineId)
    | SetStatus(status: Status)

  /** `at`: the instant the call has read, if it has. */
  datatype Call = Call(id: Id, edit: Edit, at: Option<int>)

  datatype State = State(
    now: int, customers: set<Customer>, workOrders: map<WorkOrder, Customer>,
    invoices: map<Id, Invoice>, nextId: Id, nextLine: LineId, inflight: map<nat, Call>)

  datatype Op =
    | Create(customer: Customer, ids: seq<WorkOrder>, inputs: seq<LineInput>)
    | Apply(id: Id, edit: Edit)
    | Begin(call: nat, id: Id, edit: Edit)
    | ReadClock(call: nat)
    | Finish(call: nat)
    | Tick(ms: nat)

  datatype Outcome =
    | CustomerNotFound | InvoiceNotFound | NotDraft | WorkOrderNotFound | CustomerMismatch | DuplicateLink
    | LinkNotFound | LineNotFound | InvalidTransition | NotInFlight
    | Created(id: Id, firstLine: LineId) | LineAdded(line: LineId) | Moved(status: Status) | Changed | Checked | Done

  // ---------------------------------------------------------------- checks

  function Unique(ids: seq<WorkOrder>): set<WorkOrder> { set id | id in ids }

  function Found(workOrders: map<WorkOrder, Customer>, ids: seq<WorkOrder>): set<WorkOrder> {
    set id | id in Unique(ids) && id in workOrders
  }

  /** `ensureWorkOrdersForCustomer`: as many rows as different ids, then no row of another customer. */
  function EnsureWorkOrders(workOrders: map<WorkOrder, Customer>, customer: Customer, ids: seq<WorkOrder>): Option<Outcome> {
    if |Unique(ids)| == 0 then None
    else if |Found(workOrders, ids)| != |Unique(ids)| then Some(WorkOrderNotFound)
    else if exists id | id in Found(workOrders, ids) :: workOrders[id] != customer then Some(CustomerMismatch)
    else None
  }

  function Transitions(from: Status): set<Status> {
    match from
    case Draft => {Issued, Void}
    case Issued => {Paid, Void}
    case Paid => {}
    case Void => {}
  }

  /** What an edit checks before it writes; `None` lets it through. */
  function Check(s: State, id: Id, edit: Edit): Option<Outcome> {
    if id !in s.invoices then Some(InvoiceNotFound)
    else
      var invoice := s.invoices[id];
      if edit.SetStatus? then
        if edit.status !in Transitions(invoice.status) then Some(InvalidTransition) else None
      else if invoice.status != Draft then Some(NotDraft)
      else match edit
        case AddWorkOrders(ids) => EnsureWorkOrders(s.workOrders, invoice.customer, ids)
        case UpdateLine(line, _) => if line !in invoice.lines then Some(LineNotFound) else None
        case _ => None
  }

  // ---------------------------------------------------------------- writes

  function MapLine(input: LineInput): Line {
    Line(input.description, Default(input.quantity, 1), input.unitPriceCents)
  }

  function Patch(line: Line, patch: LinePatch): Line {
    Line(Default(patch.description, line.description), Default(patch.quantity, line.quantity),
         Default(patch.unitPriceCents, line.unitPriceCents))
  }

  function Move(invoice: Invoice, status: Status, at: int): Invoice {
    match status
    case Draft => invoice.(status := Draft)
    case Issued => invoice.(status := Issued, issuedAt := Some(at))
    case Paid => invoice.(status := Paid, paidAt := Some(at))
    case Void => invoice.(status := Void, voidedAt := Some(at))
  }

  /** The invoice after the write of an edit, whatever its status is by now; `line` is the next line id. */
  function Written(invoice: Invoice, edit: Edit, line: LineId, at: int): Invoice {
    match edit
    case AddWorkOrders(ids) => invoice.(links := invoice.links + Unique(ids))
    case RemoveWorkOrder(w) => invoice.(links := invoice.links - {w})
    case AddLine(input) => invoice.(lines := invoice.lines[line := MapLine(input)])
    case UpdateLine(k, patch) =>
      if k in invoice.lines then invoice.(lines := invoice.lines[k := Patch(invoice.lines[k], patch)]) else invoice
    case DeleteLine(k) => invoice.(lines := invoice.lines - {k})
    case SetStatus(status) => Move(invoice, status, at)
  }

  /** A removal that removes nothing, and an update of a line that is gone, report it. */
  function Reply(invoice: Invoice, edit: Edit, line: LineId): Outcome {
    match edit
    case AddLine(_) => LineAdded(line)
    case RemoveWorkOrder(w) => if w in invoice.links then Changed else LinkNotFound
    case UpdateLine(k, _) => if k in invoice.lines then Changed else LineNotFound
    case DeleteLine(k) => if k in invoice.lines then Changed else LineNotFound
    case SetStatus(status) => Moved(status)
    case _ => Changed
  }

  function Write(s: State, id: Id, edit: Edit, at: int): (State, Outcome)
    requires id in s.invoices
  {
    (s.(invoices := s.invoices[id := Written(s.invoices[id], edit, s.nextLine, at)],
        nextLine := if edit.AddLine? then s.nextLine + 1 else s.nextLine),
     Reply(s.invoices[id], edit, s.nextLine))
  }

  /** The instant a call's write stamps. */
  function Instant(s: State, c: Call): int { Default(c.at, s.now) }

  function Numbered(next: LineId, inputs: seq<LineInput>): (lines: map<LineId, Line>)
    ensures forall k :: k in lines <==> next <= k < next + |inputs|
  {
    if inputs == [] then map[]
    else
      var init := inputs[..|inputs| - 1];
      Numbered(next, init)[next + |init| := MapLine(inputs[|init|])]
  }

  function Step(s: State, op: Op): (State, Outcome) {
    match op
    case Create(customer, ids, inputs) =>
      if customer !in s.customers then (s, CustomerNotFound)
      else if EnsureWorkOrders(s.workOrders, customer, ids).Some? then (s, EnsureWorkOrders(s.workOrders, customer, ids).value)
      else if |Unique(ids)| != |ids| then (s, DuplicateLink)
      else
        var invoice := Invoice(customer, Draft, None, None, None, Numbered(s.nextLine, inputs), Unique(ids));
        (s.(invoices := s.invoices[s.nextId := invoice], nextId := s.nextId + 1, nextLine := s.nextLine + |inputs|),
         Created(s.nextId, s.nextLine))
    case Apply(id, edit) =>
      if Check(s, id, edit).Some? then (s, Check(s, id, edit).value) else Write(s, id, edit, s.now)
    case Begin(call, id, edit) =>
      if Check(s, id, edit).Some? then (s, Check(s, id, edit).value)
      else (s.(inflight := s.inflight[call := Call(id, edit, None)]), Checked)
    case ReadClock(call) =>
      if call !in s.inflight || s.inflight[call].at.Some? then (s, NotInFlight)
      else (s.(inflight := s.inflight[call := s.inflight[call].(at := Some(s.now))]), Done)
    case Finish(call) =>
      if call !in s.inflight || s.inflight[call].id !in s.invoices then (s, NotInFlight)
      else Write(s.(inflight := s.inflight - {call}), s.inflight[call].id, s.inflight[call].edit, Instant(s, s.inflight[call]))
    case Tick(ms) => (s.(now := s.now + ms), Done)
  }

  function Run(s: State, ops: seq<Op>): State
    decreases |ops|
  {
    if ops == [] then s else Run(Step(s, ops[0]).0, ops[1..])
  }

  // ---------------------------------------------------------------- the count check

  /** Counting rows tells exactly whether every id exists; repetitions in the list do not matter. */
  lemma EnsureExactly(workOrders: map<WorkOrder, Customer>, customer: Customer, ids: seq<WorkOrder>)
    ensures EnsureWorkOrders(workOrders, customer, ids).None? <==>
              forall id | id in ids :: id in workOrders && workOrders[id] == customer
    ensures EnsureWorkOrders(workOrders, customer, ids) == Some(WorkOrderNotFound) <==> exists id :: id in ids && id !in workOrders
    ensures EnsureWorkOrders(workOrders, customer, ids) in {None, Some(WorkOrderNotFound), Some(CustomerMismatch)}
  {
    var unique := Unique(ids);
    var found := Found(workOrders, ids);
    assert forall id :: id in ids <==> id in unique;
    if |found| == |unique| {
      SubsetOfSameSize(found, unique);
    }
    if forall id | id in ids :: id in workOrders {
      assert found == unique;
    }
    if |unique| == 0 {
      assert unique == {};
    }
  }

  // ---------------------------------------------------------------- links and ids, over every run

  /** Ids are drawn afresh, a line belongs to one invoice, and no call under way goes back to DRAFT or has read
      an instant yet to come. */
  ghost predicate IdsOk(s: State) {
    && (forall id | id in s.invoices :: id < s.nextId && forall k | k in s.invoices[id].lines :: k < s.nextLine)
    && (forall a, b, k | a in s.invoices && b in s.invoices && k in s.invoices[a].lines && k in s.invoices[b].lines :: a == b)
    && (forall c | c in s.inflight :: s.inflight[c].edit != SetStatus(Draft) && Instant(s, s.inflight[c]) <= s.now)
  }

  predicate AllOf(s: State, customer: Customer, ids: set<WorkOrder>) {
    forall w | w in ids :: w in s.workOrders && s.workOrders[w] == customer
  }

  /** Every linked work order belongs to the invoice's customer. */
  ghost predicate LinksOk(s: State, invoice: Invoice) {
    invoice.customer in s.customers && AllOf(s, invoice.customer, invoice.links)
  }

  /** What a call under way will link belongs to the customer of its invoice too. */
  ghost predicate CallOk(s: State, c: Call) {
    && c.id in s.invoices
    && (c.edit.AddWorkOrders? ==> AllOf(s, s.invoices[c.id].customer, Unique(c.edit.ids)))
  }

  ghost predicate AllLinked(s: State) {
    && (forall id | id in s.invoices :: LinksOk(s, s.invoices[id]))
    && (forall c | c in s.inflight :: CallOk(s, s.inflight[c]))
  }

  /** A write whose check still holds when it comes. Atomic calls are always fresh. */
  predicate Fresh(s: State, op: Op) {
    op.Finish? && op.call in s.inflight && s.inflight[op.call].id in s.invoices ==>
      Check(s, s.inflight[op.call].id, s.inflight[op.call].edit).None?
  }

  predicate FreshRun(s: State, ops: seq<Op>)
    decreases |ops|
  {
    ops != [] ==> Fresh(s, ops[0]) && FreshRun(Step(s, ops[0]).0, ops[1..])
  }

  /** A write brings in only its own line and links. */
  lemma WrittenKeeps(invoice: Invoice, edit: Edit, line: LineId, at: int)
    ensures var after := Written(invoice, edit, line, at);
            && after.customer == invoice.customer
            && (forall k | k in after.lines :: k in invoice.lines || (edit.AddLine? && k == line))
            && (forall w | w in after.links :: w in invoice.links || (edit.AddWorkOrders? && w in Unique(edit.ids)))
            && (edit != SetStatus(Draft) && invoice.status != Draft ==> after.status != Draft)
  {}

  lemma WriteKeepsIds(s: State, id: Id, edit: Edit, at: int)
    requires IdsOk(s) && id in s.invoices
    ensures IdsOk(Write(s, id, edit, at).0)
  {
    WrittenKeeps(s.invoices[id], edit, s.nextLine, at);
    hide Written;
  }

  lemma StepKeepsIds(s: State, op: Op)
    requires IdsOk(s)
    ensures IdsOk(Step(s, op).0)
  {
    match op
    case Apply(id, edit) =>
      if id in s.invoices {
        WriteKeepsIds(s, id, edit, s.now);
      }
      hide Write;
    case Finish(call) =>
      if call in s.inflight && s.inflight[call].id in s.invoices {
        var c := s.inflight[call];
        WriteKeepsIds(s.(inflight := s.inflight - {call}), c.id, c.edit, Instant(s, c));
      }
      hide Write;
    case _ =>
      hide Write;
      hide Check;
  }

  lemma WriteKeepsLinks(s: State, id: Id, edit: Edit, at: int)
    requires AllLinked(s) && id in s.invoices
    requires edit.AddWorkOrders? ==> AllOf(s, s.invoices[id].customer, Unique(edit.ids))
    ensures AllLinked(Write(s, id, edit, at).0)
  {
    WrittenKeeps(s.invoices[id], edit, s.nextLine, at);
    hide Written;
    var t := Write(s, id, edit, at).0;
    forall k | k in t.invoices ensures LinksOk(t, t.invoices[k]) {
      assert LinksOk(s, s.invoices[k]);
    }
    forall c | c in t.inflight ensures CallOk(t, t.inflight[c]) {
      assert CallOk(s, s.inflight[c]);
    }
  }

  lemma CheckedLinks(s: State, id: Id, edit: Edit)
    requires Check(s, id, edit).None? && edit.AddWorkOrders?
    ensures AllOf(s, s.invoices[id].customer, Unique(edit.ids))
  {
    EnsureExactly(s.workOrders, s.invoices[id].customer, edit.ids);
  }

  /** No step, however late its write, links a work order of another customer. */
  lemma StepKeepsLinks(s: State, op: Op)
    requires IdsOk(s) && AllLinked(s)
    ensures AllLinked(Step(s, op).0)
  {
    hide Written;
    hide AllOf;
    match op
    case Create(customer, ids, inputs) => CreateKeepsLinks(s, customer, ids, inputs);
    case Apply(id, edit) =>
      if Check(s, id, edit).None? {
        if edit.AddWorkOrders? { CheckedLinks(s, id, edit); }
        WriteKeepsLinks(s, id, edit, s.now);
      }
    case Begin(call, id, edit) =>
      if Check(s, id, edit).None? {
        if edit.AddWorkOrders? { CheckedLinks(s, id, edit); }
        FrameKeepsLinks(s, s.inflight[call := Call(id, edit, None)], s.now);
      }
    case ReadClock(call) =>
      if call in s.inflight {
        assert CallOk(s, s.inflight[call]);
        FrameKeepsLinks(s, s.inflight[call := s.inflight[call].(at := Some(s.now))], s.now);
      }
    case Finish(call) =>
      if call in s.inflight && s.inflight[call].id in s.invoices {
        assert CallOk(s, s.inflight[call]);
        FrameKeepsLinks(s, s.inflight - {call}, s.now);
        FrameKeepsAll(s, s.inflight - {call}, s.now);
        WriteKeepsLinks(s.(inflight := s.inflight - {call}), s.inflight[call].id, s.inflight[call].edit, Instant(s, s.inflight[call]));
      }
    case Tick(ms) => FrameKeepsLinks(s, s.inflight, s.now + ms);
  }

  lemma FrameKeepsAll(s: State, inflight: map<nat, Call>, now: int)
    ensures forall customer, ids :: AllOf(s.(inflight := inflight, now := now), customer, ids) == AllOf(s, customer, ids)
  {}

  /** Taking a call on or off the calls under way, and letting time pass. */
  lemma FrameKeepsLinks(s: State, inflight: map<nat, Call>, now: int)
    requires AllLinked(s) && forall c | c in inflight :: CallOk(s, inflight[c])
    ensures AllLinked(s.(inflight := inflight, now := now))
  {
    FrameKeepsAll(s, inflight, now);
    hide AllOf;
  }

  lemma CreateKeepsLinks(s: State, customer: Customer, ids: seq<WorkOrder>, inputs: seq<LineInput>)
    requires IdsOk(s) && AllLinked(s)
    ensures AllLinked(Step(s, Create(customer, ids, inputs)).0)
  {
    EnsureExactly(s.workOrders, customer, ids);
    hide Numbered;
    hide EnsureWorkOrders;
    var t := Step(s, Create(customer, ids, inputs)).0;
    assert s.nextId !in s.invoices;
    forall k | k in t.invoices ensures LinksOk(t, t.invoices[k]) {
      if k in s.invoices {
        assert LinksOk(s, s.invoices[k]);
      }
    }
    forall c | c in t.inflight ensures CallOk(t, t.inflight[c]) {
      assert CallOk(s, s.inflight[c]);
    }
  }

  /** Over every interleaved run, fresh or not: linked work orders belong to the invoice's customer, and no line
      belongs to two invoices. */
  lemma {:induction false} RunKeepsLinks(s: State, ops: seq<Op>)
    requires IdsOk(s) && AllLinked(s)
    ensures IdsOk(Run(s, ops)) && AllLinked(Run(s, ops))
    decreases |ops|
  {
    if ops != [] {
      StepKeepsIds(s, ops[0]);
      StepKeepsLinks(s, ops[0]);
      RunKeepsLinks(Step(s, ops[0]).0, ops[1..]);
    }
  }

  /** Exactly when an invoice is created: the customer exists and the ids are different work orders of that
      customer. A repeated id, which the count check lets through, breaks the unique link key. */
  lemma CreatedExactlyWhen(s: State, customer: Customer, ids: seq<WorkOrder>, inputs: seq<LineInput>)
    ensures Step(s, Create(customer, ids, inputs)).1.Created? <==>
              && customer in s.customers
              && (forall id | id in ids :: id in s.workOrders && s.workOrders[id] == customer)
              && (forall i, j | 0 <= i < j < |ids| :: ids[i] != ids[j])
  {
    EnsureExactly(s.workOrders, customer, ids);
    UniqueSize(ids);
  }

  lemma {:induction false} UniqueSize(ids: seq<WorkOrder>)
    ensures |Unique(ids)| <= |ids|
    ensures |Unique(ids)| == |ids| <==> forall i, j | 0 <= i < j < |ids| :: ids[i] != ids[j]
  {
    if ids == [] {
      assert Unique(ids) == {};
    } else {
      var init, last := ids[..|ids| - 1], ids[|ids| - 1];
      UniqueSize(init);
      assert ids == init + [last];
      assert Unique(ids) == Unique(init) + {last};
      if last in init {
        assert Unique(ids) == Unique(init);
        var i :| 0 <= i < |init| && init[i] == last;
        assert ids[i] == ids[|ids| - 1];
      } else {
        assert |Unique(ids)| == |Unique(init)| + 1;
        if forall i, j | 0 <= i < j < |init| :: init[i] != init[j] {
          forall i, j | 0 <= i < j < |ids| ensures ids[i] != ids[j] {
            assert ids[i] in init;
          }
        } else {
          var i, j :| 0 <= i < j < |init| && init[i] == init[j];
          assert ids[i] == ids[j];
        }
      }
    }
  }

  // ---------------------------------------------------------------- frozen once issued

  /** An edit that would change the lines or links of an invoice. */
  predicate Changes(invoice: Invoice, edit: Edit) {
    match edit
    case AddWorkOrders(ids) => !(Unique(ids) <= invoice.links)
    case RemoveWorkOrder(w) => w in invoice.links
    case AddLine(_) => true
    case UpdateLine(line, patch) => line in invoice.lines && Patch(invoice.lines[line], patch) != invoice.lines[line]
    case DeleteLine(line) => line in invoice.lines
    case SetStatus(_) => false
  }

  predicate SameContent(a: Invoice, b: Invoice) { a.lines == b.lines && a.links == b.links && a.customer == b.customer }

  ghost predicate Freezes(s: State, t: State) {
    forall id | id in s.invoices && s.invoices[id].status != Draft :: id in t.invoices && SameContent(s.invoices[id], t.invoices[id])
  }

  /** A write that comes after its invoice left DRAFT and changes its lines or links all the same. */
  predicate Late(s: State, op: Op) {
    && op.Finish? && op.call in s.inflight && s.inflight[op.call].id in s.invoices
    && s.invoices[s.inflight[op.call].id].status != Draft
    && Changes(s.invoices[s.inflight[op.call].id], s.inflight[op.call].edit)
  }

  /** A write changes lines or links exactly when `Changes` says so. */
  lemma WrittenChangesIff(invoice: Invoice, edit: Edit, line: LineId, at: int)
    requires line !in invoice.lines
    ensures SameContent(invoice, Written(invoice, edit, line, at)) <==> !Changes(invoice, edit)
  {
    var after := Written(invoice, edit, line, at);
    match edit
    case AddWorkOrders(ids) =>
      assert Unique(ids) <= invoice.links <==> invoice.links + Unique(ids) == invoice.links;
    case RemoveWorkOrder(w) =>
      assert w !in after.links;
      if w !in invoice.links {
        assert after.links == invoice.links;
      }
    case AddLine(_) =>
      assert line in after.lines;
    case UpdateLine(k, patch) =>
      if k in invoice.lines {
        assert after.lines[k] == Patch(invoice.lines[k], patch);
        if Patch(invoice.lines[k], patch) == invoice.lines[k] {
          assert after.lines == invoice.lines;
        }
      }
    case DeleteLine(k) =>
      assert k !in after.lines;
      if k !in invoice.lines {
        assert after.lines == invoice.lines;
      }
    case SetStatus(_) =>
  }

  /** Exactly when a step leaves the lines and links of every invoice that is no longer a draft alone. */
  lemma StepFreezesIff(s: State, op: Op)
    requires IdsOk(s)
    ensures Freezes(s, Step(s, op).0) <==> !Late(s, op)
  {
    hide Written;
    match op
    case Create(_, _, _) =>
      assert s.nextId !in s.invoices;
    case Apply(id, edit) =>
      if id in s.invoices {
        WrittenChangesIff(s.invoices[id], edit, s.nextLine, s.now);
      }
    case Begin(_, _, _) =>
    case Finish(call) =>
      if call in s.inflight && s.inflight[call].id in s.invoices {
        var c := s.inflight[call];
        WrittenChangesIff(s.invoices[c.id], c.edit, s.nextLine, Instant(s, c));
        assert Step(s, op).0.invoices[c.id] == Written(s.invoices[c.id], c.edit, s.nextLine, Instant(s, c));
      }
    case ReadClock(_) =>
    case Tick(_) =>
  }

  /** No invoice goes back to DRAFT or disappears. */
  lemma StepLeavesDraft(s: State, op: Op)
    requires IdsOk(s)
    ensures forall id | id in s.invoices ::
              id in Step(s, op).0.invoices && (s.invoices[id].status != Draft ==> Step(s, op).0.invoices[id].status != Draft)
  {
    hide Written;
    match op
    case Apply(id, edit) =>
      if id in s.invoices {
        WrittenKeeps(s.invoices[id], edit, s.nextLine, s.now);
      }
    case Finish(call) =>
      if call in s.inflight && s.inflight[call].id in s.invoices {
        WrittenKeeps(s.invoices[s.inflight[call].id], s.inflight[call].edit, s.nextLine, Instant(s, s.inflight[call]));
      }
    case _ =>
  }

  /** After every step of the run, lines and links of the invoices that had left DRAFT before it are the same. */
  ghost predicate FrozenRun(s: State, ops: seq<Op>)
    decreases |ops|
  {
    ops != [] ==> Freezes(s, Step(s, ops[0]).0) && FrozenRun(Step(s, ops[0]).0, ops[1..])
  }

  predicate NoLateWrite(s: State, ops: seq<Op>)
    decreases |ops|
  {
    ops != [] ==> !Late(s, ops[0]) && NoLateWrite(Step(s, ops[0]).0, ops[1..])
  }

  /** Exactly which interleaved runs keep issued invoices frozen: those without a late write. */
  lemma {:induction false} FrozenIff(s: State, ops: seq<Op>)
    requires IdsOk(s)
    ensures FrozenRun(s, ops) <==> NoLateWrite(s, ops)
    ensures FrozenRun(s, ops) ==> Freezes(s, Run(s, ops))
    decreases |ops|
  {
    if ops != [] {
      var t := Step(s, ops[0]).0;
      StepFreezesIff(s, ops[0]);
      StepKeepsIds(s, ops[0]);
      StepLeavesDraft(s, ops[0]);
      FrozenIff(t, ops[1..]);
    }
  }

  /** Runs of atomic calls, and interleaved ones whose writes are fresh, have no late write. */
  lemma {:induction false} FreshRunsFreeze(s: State, ops: seq<Op>)
    requires IdsOk(s) && FreshRun(s, ops)
    ensures NoLateWrite(s, ops) && Freezes(s, Run(s, ops))
    decreases |ops|
  {
    if ops != [] {
      StepKeepsIds(s, ops[0]);
      FreshRunsFreeze(Step(s, ops[0]).0, ops[1..]);
    }
    FrozenIff(s, ops);
  }

  // ---------------------------------------------------------------- timestamps under interleaving

  /** Which timestamps are set. */
  predicate Patterned(invoice: Invoice) {
    match invoice.status
    case Draft => invoice.issuedAt.None? && invoice.paidAt.None? && invoice.voidedAt.None?
    case Issued => invoice.issuedAt.Some? && invoice.paidAt.None? && invoice.voidedAt.None?
    case Paid => invoice.issuedAt.Some? && invoice.paidAt.Some? && invoice.voidedAt.None?
    case Void => invoice.paidAt.None? && invoice.voidedAt.Some?
  }

  predicate InOrder(a: Option<int>, b: Option<int>) { a.Some? && b.Some? ==> a.value <= b.value }

  /** Which timestamps are set, in which order, and none yet to come. */
  predicate Stamped(invoice: Invoice, now: int) {
    && Patterned(invoice)
    && InOrder(invoice.issuedAt, invoice.paidAt) && InOrder(invoice.issuedAt, invoice.voidedAt)
    && InOrder(invoice.issuedAt, Some(now)) && InOrder(invoice.paidAt, Some(now)) && InOrder(invoice.voidedAt, Some(now))
  }

  ghost predicate AllPatterned(s: State) { forall id | id in s.invoices :: Patterned(s.invoices[id]) }

  ghost predicate AllStamped(s: State) { forall id | id in s.invoices :: Stamped(s.invoices[id], s.now) }

  /** A status written over one it neither follows nor repeats, by a check made earlier. */
  predicate Misstep(s: State, op: Op) {
    && op.Finish? && op.call in s.inflight && s.inflight[op.call].id in s.invoices
    && s.inflight[op.call].edit.SetStatus?
    && !Reaches(s.invoices[s.inflight[op.call].id].status, s.inflight[op.call].edit.status)
  }

  predicate Reaches(from: Status, to: Status) { to == from || to in Transitions(from) }

  /** A payment or voiding whose instant was read before the issue date it meets. */
  predicate Backdated(s: State, op: Op) {
    && op.Finish? && op.call in s.inflight && s.inflight[op.call].id in s.invoices
    && s.inflight[op.call].edit in {SetStatus(Paid), SetStatus(Void)}
    && !InOrder(s.invoices[s.inflight[op.call].id].issuedAt, Some(Instant(s, s.inflight[op.call])))
  }

  lemma WrittenPatternedIff(invoice: Invoice, edit: Edit, line: LineId, at: int)
    requires Patterned(invoice) && edit != SetStatus(Draft)
    ensures Patterned(Written(invoice, edit, line, at)) <==> (edit.SetStatus? ==> Reaches(invoice.status, edit.status))
  {}

  /** A status written at `at` leaves the timestamps in order exactly when it follows or repeats the status it meets
      and, for a payment or voiding, `at` is not before the issue date. */
  lemma WrittenStampedIff(invoice: Invoice, edit: Edit, line: LineId, at: int, now: int)
    requires Stamped(invoice, now) && edit != SetStatus(Draft) && at <= now
    ensures Stamped(Written(invoice, edit, line, at), now) <==>
              && (edit.SetStatus? ==> Reaches(invoice.status, edit.status))
              && (edit in {SetStatus(Paid), SetStatus(Void)} ==> InOrder(invoice.issuedAt, Some(at)))
  {}

  /** Exactly when a step leaves every invoice with the timestamps its status calls for. */
  lemma StepPatternsIff(s: State, op: Op)
    requires IdsOk(s) && AllPatterned(s)
    ensures AllPatterned(Step(s, op).0) <==> !Misstep(s, op)
  {
    hide Written;
    assert s.nextId !in s.invoices;
    if op.Apply? && Check(s, op.id, op.edit).None? {
      WrittenPatternedIff(s.invoices[op.id], op.edit, s.nextLine, s.now);
    }
    if op.Finish? && op.call in s.inflight && s.inflight[op.call].id in s.invoices {
      var c := s.inflight[op.call];
      WrittenPatternedIff(s.invoices[c.id], c.edit, s.nextLine, Instant(s, c));
      assert Step(s, op).0.invoices[c.id] == Written(s.invoices[c.id], c.edit, s.nextLine, Instant(s, c));
    }
  }

  /** Exactly when a step leaves them in order as well. */
  lemma StepStampsIff(s: State, op: Op)
    requires IdsOk(s) && AllStamped(s)
    ensures AllStamped(Step(s, op).0) <==> !Misstep(s, op) && !Backdated(s, op)
  {
    hide Written;
    assert s.nextId !in s.invoices;
    if op.Apply? && Check(s, op.id, op.edit).None? {
      WrittenStampedIff(s.invoices[op.id], op.edit, s.nextLine, s.now, s.now);
    }
    if op.Finish? && op.call in s.inflight && s.inflight[op.call].id in s.invoices {
      var c := s.inflight[op.call];
      WrittenStampedIff(s.invoices[c.id], c.edit, s.nextLine, Instant(s, c), s.now);
      assert Step(s, op).0.invoices[c.id] == Written(s.invoices[c.id], c.edit, s.nextLine, Instant(s, c));
    }
  }

  /** Each status has its timestamps after every step of the run. */
  ghost predicate PatternedRun(s: State, ops: seq<Op>)
    decreases |ops|
  {
    ops != [] ==> AllPatterned(Step(s, ops[0]).0) && PatternedRun(Step(s, ops[0]).0, ops[1..])
  }

  /** And they are in order after every step of the run. */
  ghost predicate StampedRun(s: State, ops: seq<Op>)
    decreases |ops|
  {
    ops != [] ==> AllStamped(Step(s, ops[0]).0) && StampedRun(Step(s, ops[0]).0, ops[1..])
  }

  predicate NoMisstep(s: State, ops: seq<Op>)
    decreases |ops|
  {
    ops != [] ==> !Misstep(s, ops[0]) && NoMisstep(Step(s, ops[0]).0, ops[1..])
  }

  predicate NoBackdating(s: State, ops: seq<Op>)
    decreases |ops|
  {
    ops != [] ==> !Backdated(s, ops[0]) && NoBackdating(Step(s, ops[0]).0, ops[1..])
  }

  /** Exactly which interleaved runs keep the null pattern of the timestamps: those in which no late status write
      meets a status that it neither follows nor repeats. */
  lemma {:induction false} PatternedIff(s: State, ops: seq<Op>)
    requires IdsOk(s) && AllPatterned(s)
    ensures PatternedRun(s, ops) <==> NoMisstep(s, ops)
    decreases |ops|
  {
    if ops != [] {
      StepPatternsIff(s, ops[0]);
      StepKeepsIds(s, ops[0]);
      if !Misstep(s, ops[0]) {
        PatternedIff(Step(s, ops[0]).0, ops[1..]);
      }
    }
  }

  /** Exactly which keep the null pattern and the order of the timestamps: those in which, besides, no payment or
      voiding read the clock before the issue date it meets. */
  lemma {:induction false} StampedIff(s: State, ops: seq<Op>)
    requires IdsOk(s) && AllStamped(s)
    ensures StampedRun(s, ops) <==> NoMisstep(s, ops) && NoBackdating(s, ops)
    ensures StampedRun(s, ops) ==> AllStamped(Run(s, ops))
    decreases |ops|
  {
    if ops != [] {
      StepStampsIff(s, ops[0]);
      StepKeepsIds(s, ops[0]);
      if !Misstep(s, ops[0]) && !Backdated(s, ops[0]) {
        StampedIff(Step(s, ops[0]).0, ops[1..]);
      }
    }
  }

  /** Fresh writes keep the null pattern; runs of atomic calls, which read the clock as they write, keep the order
      too. */
  lemma {:induction false} FreshRunsKeepPattern(s: State, ops: seq<Op>)
    requires IdsOk(s) && AllPatterned(s) && FreshRun(s, ops)
    ensures NoMisstep(s, ops) && AllPatterned(Run(s, ops))
    ensures (forall i | 0 <= i < |ops| :: !ops[i].Finish?) ==> NoBackdating(s, ops)
    decreases |ops|
  {
    if ops != [] {
      StepPatternsIff(s, ops[0]);
      StepKeepsIds(s, ops[0]);
      var rest := ops[1..];
      assert forall i | 0 <= i < |rest| :: rest[i] == ops[i + 1];
      FreshRunsKeepPattern(Step(s, ops[0]).0, rest);
    }
  }

  // ---------------------------------------------------------------- at most two transitions

  function Rank(status: Status): nat {
    match status
    case Draft => 0
    case Issued => 1
    case Paid => 2
    case Void => 2
  }

  function RankOf(s: State, id: Id): nat { if id in s.invoices then Rank(s.invoices[id].status) else 0 }

  /** The invoice an operation writes to. */
  predicate Moves(s: State, op: Op, id: Id) {
    Step(s, op).1.Moved? && ((op.Apply? && op.id == id) || (op.Finish? && op.call in s.inflight && s.inflight[op.call].id == id))
  }

  function Transited(s: State, ops: seq<Op>, id: Id): nat
    decreases |ops|
  {
    if ops == [] then 0
    else (if Moves(s, ops[0], id) then 1 else 0) + Transited(Step(s, ops[0]).0, ops[1..], id)
  }

  predicate Settled(s: State, id: Id) { id in s.invoices && s.invoices[id].status in {Paid, Void} }

  /** Every status change a step records follows the transition map. */
  ghost predicate FollowsMap(s: State, op: Op) {
    forall id | id in s.invoices && Moves(s, op, id) ::
      id in Step(s, op).0.invoices && Step(s, op).0.invoices[id].status in Transitions(s.invoices[id].status)
  }

  /** A status write whose check no longer holds when it comes. */
  predicate StaleMove(s: State, op: Op) {
    op.Finish? && op.call in s.inflight && s.inflight[op.call].edit.SetStatus? && !Fresh(s, op)
  }

  lemma StepFollowsIff(s: State, op: Op)
    ensures FollowsMap(s, op) <==> !StaleMove(s, op)
  {
    if op.Finish? && op.call in s.inflight && s.inflight[op.call].id in s.invoices && s.inflight[op.call].edit.SetStatus? {
      assert Moves(s, op, s.inflight[op.call].id);
    }
  }

  ghost predicate MovesFollowMap(s: State, ops: seq<Op>)
    decreases |ops|
  {
    ops != [] ==> FollowsMap(s, ops[0]) && MovesFollowMap(Step(s, ops[0]).0, ops[1..])
  }

  predicate NoStaleMove(s: State, ops: seq<Op>)
    decreases |ops|
  {
    ops != [] ==> !StaleMove(s, ops[0]) && NoStaleMove(Step(s, ops[0]).0, ops[1..])
  }

  /** Exactly which interleaved runs change statuses only along the transition map: those whose status writes
      are fresh. */
  lemma {:induction false} MovesFollowMapIff(s: State, ops: seq<Op>)
    ensures MovesFollowMap(s, ops) <==> NoStaleMove(s, ops)
    decreases |ops|
  {
    if ops != [] {
      StepFollowsIff(s, ops[0]);
      MovesFollowMapIff(Step(s, ops[0]).0, ops[1..]);
    }
  }

  lemma {:induction false} FreshRunsFollow(s: State, ops: seq<Op>)
    requires FreshRun(s, ops)
    ensures NoStaleMove(s, ops)
    decreases |ops|
  {
    if ops != [] {
      FreshRunsFollow(Step(s, ops[0]).0, ops[1..]);
    }
  }

  lemma StepRanks(s: State, op: Op, id: Id)
    requires IdsOk(s) && !StaleMove(s, op)
    ensures RankOf(Step(s, op).0, id) >= RankOf(s, id) + (if Moves(s, op, id) then 1 else 0)
    ensures Settled(s, id) ==> Settled(Step(s, op).0, id)
    ensures Settled(s, id) && !Late(s, op) ==> SettledSame(s, Step(s, op).0, id)
  {
    hide Written;
    assert s.nextId !in s.invoices;
    if op.Apply? && op.id in s.invoices {
      WrittenRanks(s.invoices[op.id], op.edit, s.nextLine, s.now);
    }
    if op.Finish? && op.call in s.inflight && s.inflight[op.call].id in s.invoices {
      var c := s.inflight[op.call];
      WrittenRanks(s.invoices[c.id], c.edit, s.nextLine, Instant(s, c));
    }
  }

  ghost predicate SettledSame(s: State, t: State, id: Id)
    requires id in s.invoices
  {
    id in t.invoices && t.invoices[id] == s.invoices[id]
  }

  lemma WrittenRanks(invoice: Invoice, edit: Edit, line: LineId, at: int)
    ensures !edit.SetStatus? ==> Written(invoice, edit, line, at).status == invoice.status
    ensures !edit.SetStatus? && line !in invoice.lines && !Changes(invoice, edit) ==> Written(invoice, edit, line, at) == invoice
    ensures edit.SetStatus? ==> Written(invoice, edit, line, at).status == edit.status
  {
    if !edit.SetStatus? && line !in invoice.lines {
      WrittenChangesIff(invoice, edit, line, at);
    }
  }

  /** An invoice changes status at most twice in a run whose status writes are fresh. */
  lemma {:induction false} AtMostTwoTransitions(s: State, ops: seq<Op>, id: Id)
    requires IdsOk(s) && NoStaleMove(s, ops)
    ensures Transited(s, ops, id) + RankOf(s, id) <= 2
    decreases |ops|
  {
    if ops != [] {
      StepRanks(s, ops[0], id);
      StepKeepsIds(s, ops[0]);
      AtMostTwoTransitions(Step(s, ops[0]).0, ops[1..], id);
    }
  }

  /** Once an invoice is paid or void, no run without stale status writes and late content writes changes
      anything about it. */
  lemma {:induction false} SettledIsFinal(s: State, ops: seq<Op>, id: Id)
    requires IdsOk(s) && Settled(s, id) && NoStaleMove(s, ops) && NoLateWrite(s, ops)
    ensures id in Run(s, ops).invoices && Run(s, ops).invoices[id] == s.invoices[id]
    decreases |ops|
  {
    if ops != [] {
      StepRanks(s, ops[0], id);
      StepKeepsIds(s, ops[0]);
      SettledIsFinal(Step(s, ops[0]).0, ops[1..], id);
    }
  }

  // ---------------------------------------------------------------- interleaving

  function Tables(s: State): State { s.(inflight := map[]) }

  /** The atomic call a step amounts to, if any, at the instant of its write. */
  function StepSerial(s: State, op: Op): Option<Op> {
    match op
    case Begin(_, _, _) => None
    case ReadClock(_) => None
    case Finish(call) =>
      if call in s.inflight && s.inflight[call].id in s.invoices
      then Some(Apply(s.inflight[call].id, s.inflight[call].edit)) else None
    case op => Some(op)
  }

  /** The atomic calls an interleaved run amounts to. */
  function Serial(s: State, ops: seq<Op>): seq<Op>
    decreases |ops|
  {
    if ops == [] then []
    else
      var head, rest := StepSerial(s, ops[0]), Serial(Step(s, ops[0]).0, ops[1..]);
      if head.Some? then [head.value] + rest else rest
  }

  /** A status write that stamps an instant read before. */
  predicate Delayed(s: State, op: Op) {
    && op.Finish? && op.call in s.inflight && s.inflight[op.call].edit.SetStatus?
    && Instant(s, s.inflight[op.call]) != s.now
  }

  predicate NoDelay(s: State, ops: seq<Op>)
    decreases |ops|
  {
    ops != [] ==> !Delayed(s, ops[0]) && NoDelay(Step(s, ops[0]).0, ops[1..])
  }

  function Blur(at: Option<int>): Option<int> { if at.Some? then Some(0) else None }

  /** The invoice but for the values of its timestamps. */
  function Undated(invoice: Invoice): Invoice {
    invoice.(issuedAt := Blur(invoice.issuedAt), paidAt := Blur(invoice.paidAt), voidedAt := Blur(invoice.voidedAt))
  }

  function UndatedTables(s: State): State {
    s.(inflight := map[], invoices := map id | id in s.invoices :: Undated(s.invoices[id]))
  }

  lemma WrittenUndated(a: Invoice, b: Invoice, edit: Edit, line: LineId, at: int, bt: int)
    requires Undated(a) == Undated(b)
    ensures Undated(Written(a, edit, line, at)) == Undated(Written(b, edit, line, bt))
    ensures a == b && (edit.SetStatus? ==> at == bt) ==> Written(a, edit, line, at) == Written(b, edit, line, bt)
  {}

  lemma UndatedRows(s: State, u: State)
    requires UndatedTables(s) == UndatedTables(u)
    ensures s.now == u.now && s.customers == u.customers && s.workOrders == u.workOrders
    ensures s.nextId == u.nextId && s.nextLine == u.nextLine && s.invoices.Keys == u.invoices.Keys
    ensures forall id | id in s.invoices :: Undated(s.invoices[id]) == Undated(u.invoices[id])
  {
    var a, b := UndatedTables(s), UndatedTables(u);
    assert a.invoices.Keys == s.invoices.Keys && b.invoices.Keys == u.invoices.Keys;
    forall id | id in s.invoices ensures Undated(s.invoices[id]) == Undated(u.invoices[id]) {
      assert a.invoices[id] == b.invoices[id];
    }
  }

  lemma SameUndated(s: State, u: State)
    requires s.now == u.now && s.customers == u.customers && s.workOrders == u.workOrders
    requires s.nextId == u.nextId && s.nextLine == u.nextLine && s.invoices.Keys == u.invoices.Keys
    requires forall id | id in s.invoices :: Undated(s.invoices[id]) == Undated(u.invoices[id])
    ensures UndatedTables(s) == UndatedTables(u)
  {}

  lemma WriteOnTables(s: State, u: State, id: Id, edit: Edit, at: int)
    requires UndatedTables(s) == UndatedTables(u) && id in s.invoices && id in u.invoices
    ensures UndatedTables(Write(s, id, edit, at).0) == UndatedTables(Write(u, id, edit, u.now).0)
    ensures Tables(s) == Tables(u) && (edit.SetStatus? ==> at == u.now) ==>
              Tables(Write(s, id, edit, at).0) == Tables(Write(u, id, edit, u.now).0)
  {
    UndatedRows(s, u);
    WrittenUndated(s.invoices[id], u.invoices[id], edit, s.nextLine, at, u.now);
    hide Written;
    hide Undated;
  }

  lemma CheckOnTables(s: State, u: State, id: Id, edit: Edit)
    requires UndatedTables(s) == UndatedTables(u)
    ensures Check(s, id, edit) == Check(u, id, edit) && (Check(s, id, edit).None? ==> id in s.invoices)
  {
    UndatedRows(s, u);
  }

  lemma AddOnTables(s: State, u: State, invoice: Invoice, nextLine: LineId)
    requires UndatedTables(s) == UndatedTables(u)
    ensures var t := s.(invoices := s.invoices[s.nextId := invoice], nextId := s.nextId + 1, nextLine := nextLine);
            var v := u.(invoices := u.invoices[u.nextId := invoice], nextId := u.nextId + 1, nextLine := nextLine);
            && UndatedTables(t) == UndatedTables(v)
            && (Tables(s) == Tables(u) ==> Tables(t) == Tables(v))
  {
    UndatedRows(s, u);
    hide Undated;
    hide UndatedTables;
    SameUndated(s.(invoices := s.invoices[s.nextId := invoice], nextId := s.nextId + 1, nextLine := nextLine),
                u.(invoices := u.invoices[u.nextId := invoice], nextId := u.nextId + 1, nextLine := nextLine));
  }

  lemma CreateOnTables(s: State, u: State, customer: Customer, ids: seq<WorkOrder>, inputs: seq<LineInput>)
    requires UndatedTables(s) == UndatedTables(u)
    ensures var t, v := Step(s, Create(customer, ids, inputs)).0, Step(u, Create(customer, ids, inputs)).0;
            && UndatedTables(t) == UndatedTables(v)
            && (Tables(s) == Tables(u) ==> Tables(t) == Tables(v))
  {
    UndatedRows(s, u);
    AddOnTables(s, u, Invoice(customer, Draft, None, None, None, Numbered(s.nextLine, inputs), Unique(ids)), s.nextLine + |inputs|);
    hide EnsureWorkOrders;
    hide Numbered;
    hide Unique;
    hide UndatedTables;
    hide Tables;
  }

  lemma StepOnTables(s: State, u: State, op: Op)
    requires UndatedTables(s) == UndatedTables(u) && Fresh(s, op)
    ensures var serial, t := StepSerial(s, op), Step(s, op).0;
            var v := if serial.Some? then Step(u, serial.value).0 else u;
            && UndatedTables(t) == UndatedTables(v)
            && (Tables(s) == Tables(u) && !Delayed(s, op) ==> Tables(t) == Tables(v))
  {
    hide Write;
    hide Check;
    match op
    case Apply(id, edit) =>
      UndatedRows(s, u);
      CheckOnTables(s, u, id, edit);
      if Check(s, id, edit).None? {
        WriteOnTables(s, u, id, edit, s.now);
      }
    case Finish(call) =>
      if call in s.inflight && s.inflight[call].id in s.invoices {
        var c := s.inflight[call];
        UndatedRows(s, u);
        CheckOnTables(s, u, c.id, c.edit);
        WriteOnTables(s.(inflight := s.inflight - {call}), u, c.id, c.edit, Instant(s, c));
      }
    case Begin(_, _, _) =>
    case ReadClock(_) =>
    case Create(customer, ids, inputs) => CreateOnTables(s, u, customer, ids, inputs);
    case Tick(_) =>
      UndatedRows(s, u);
  }

  /** When every write is fresh, the interleaved run leaves what the atomic calls leave, up to the values of the
      timestamps; and those too when no status write stamps an instant read before. */
  lemma {:induction false} FreshRunIsSerial(s: State, u: State, ops: seq<Op>)
    requires UndatedTables(s) == UndatedTables(u) && FreshRun(s, ops)
    ensures UndatedTables(Run(s, ops)) == UndatedTables(Run(u, Serial(s, ops)))
    ensures Tables(s) == Tables(u) && NoDelay(s, ops) ==> Tables(Run(s, ops)) == Tables(Run(u, Serial(s, ops)))
    ensures forall op | op in Serial(s, ops) :: !op.Begin? && !op.ReadClock? && !op.Finish?
    decreases |ops|
  {
    if ops != [] {
      assert StepSerial(s, ops[0]).Some? ==>
          var head := StepSerial(s, ops[0]).value; !head.Begin? && !head.ReadClock? && !head.Finish?;
      hide StepSerial;
      hide Tables;
      hide Step;
      hide Fresh;
      hide Delayed;
      hide UndatedTables;
      var op, s1, serial := ops[0], Step(s, ops[0]).0, Serial(s, ops);
      var rest := Serial(s1, ops[1..]);
      StepOnTables(s, u, op);
      if StepSerial(s, op).None? {
        assert serial == rest;
        FreshRunIsSerial(s1, u, ops[1..]);
      } else {
        assert serial == [StepSerial(s, op).value] + rest && serial[1..] == rest;
        FreshRunIsSerial(s1, Step(u, serial[0]).0, ops[1..]);
      }
    }
  }

  lemma RunOfThree(s: State, a: Op, b: Op, c: Op)
    ensures Run(s, [a, b, c]) == Step(Step(Step(s, a).0, b).0, c).0
    ensures !Fresh(Step(Step(s, a).0, b).0, c) ==> !FreshRun(s, [a, b, c])
    ensures Late(Step(Step(s, a).0, b).0, c) ==> !NoLateWrite(s, [a, b, c])
  {
    hide Step;
    hide Late;
    hide Fresh;
    var s2 := Step(Step(s, a).0, b).0;
    assert [a, b, c][1..] == [b, c] && [b, c][1..] == [c] && [c][1..] == [];
    assert Run(s2, [c]) == Step(s2, c).0;
    assert Run(Step(s, a).0, [b, c]) == Run(s2, [c]);
    assert FreshRun(s2, [c]) ==> Fresh(s2, c);
    assert FreshRun(Step(s, a).0, [b, c]) ==> FreshRun(s2, [c]);
    assert NoLateWrite(s2, [c]) ==> !Late(s2, c);
    assert NoLateWrite(Step(s, a).0, [b, c]) ==> NoLateWrite(s2, [c]);
  }

  /** A stale write: a line checked while the invoice was a draft, written after it was issued. */
  lemma LateLine(s: State, id: Id, call: nat, input: LineInput)
    requires IdsOk(s) && id in s.invoices && s.invoices[id].status == Draft
    ensures var ops := [Begin(call, id, AddLine(input)), Apply(id, SetStatus(Issued)), Finish(call)];
            var t := Run(s, ops);
            && !FreshRun(s, ops) && !FrozenRun(s, ops) && id in t.invoices
            && t.invoices[id].status == Issued && t.invoices[id].lines == s.invoices[id].lines[s.nextLine := MapLine(input)]
  {
    hide IdsOk;
    hide FreshRun;
    hide FrozenRun;
    hide NoLateWrite;
    hide Run;
    var a, b, c := Begin(call, id, AddLine(input)), Apply(id, SetStatus(Issued)), Finish(call);
    var issued := Move(s.invoices[id], Issued, s.now);
    var s1, s2 := Step(s, a).0, Step(Step(s, a).0, b).0;
    assert s1 == s.(inflight := s.inflight[call := Call(id, AddLine(input), None)]);
    assert s2 == s1.(invoices := s.invoices[id := issued]);
    RunOfThree(s, a, b, c);
    FrozenIff(s, [a, b, c]);
  }

  lemma RunOfFour(s: State, a: Op, b: Op, c: Op, d: Op, id: Id)
    ensures var s3 := Step(Step(Step(s, a).0, b).0, c).0;
            && Run(s, [a, b, c, d]) == Step(s3, d).0
            && (Misstep(s3, d) ==> !NoMisstep(s, [a, b, c, d]))
            && (StaleMove(s3, d) ==> !NoStaleMove(s, [a, b, c, d]))
            && Transited(s, [a, b, c, d], id)
               == (if Moves(s, a, id) then 1 else 0) + (if Moves(Step(s, a).0, b, id) then 1 else 0)
                  + (if Moves(Step(Step(s, a).0, b).0, c, id) then 1 else 0) + (if Moves(s3, d, id) then 1 else 0)
  {
    hide Step;
    hide Moves;
    hide Misstep;
    hide StaleMove;
    var s1 := Step(s, a).0;
    var s2 := Step(s1, b).0;
    var s3 := Step(s2, c).0;
    assert [a, b, c, d][1..] == [b, c, d] && [b, c, d][1..] == [c, d] && [c, d][1..] == [d] && [d][1..] == [];
    assert Run(s3, [d]) == Step(s3, d).0 && Transited(s3, [d], id) == if Moves(s3, d, id) then 1 else 0;
    assert NoMisstep(s3, [d]) ==> !Misstep(s3, d);
    assert NoStaleMove(s3, [d]) ==> !StaleMove(s3, d);
    assert Run(s2, [c, d]) == Run(s3, [d]);
    assert NoMisstep(s2, [c, d]) ==> NoMisstep(s3, [d]);
    assert NoStaleMove(s2, [c, d]) ==> NoStaleMove(s3, [d]);
    assert Transited(s2, [c, d], id) == (if Moves(s2, c, id) then 1 else 0) + Transited(s3, [d], id);
    assert Run(s1, [b, c, d]) == Run(s2, [c, d]);
    assert NoMisstep(s1, [b, c, d]) ==> NoMisstep(s2, [c, d]);
    assert NoStaleMove(s1, [b, c, d]) ==> NoStaleMove(s2, [c, d]);
    assert Transited(s1, [b, c, d], id) == (if Moves(s1, b, id) then 1 else 0) + Transited(s2, [c, d], id);
  }

  /** Both fail on one input: an invoice voided after it was paid, by a check made while it was a draft, keeps
      its payment date and has changed status three times. */
  lemma LateVoid(s: State, id: Id, call: nat)
    requires id in s.invoices && s.invoices[id].status == Draft
    ensures var ops := [Begin(call, id, SetStatus(Void)), Apply(id, SetStatus(Issued)), Apply(id, SetStatus(Paid)), Finish(call)];
            var t := Run(s, ops);
            && id in t.invoices && t.invoices[id].status == Void && t.invoices[id].paidAt.Some? && !Stamped(t.invoices[id], t.now)
            && Transited(s, ops, id) == 3 && !NoMisstep(s, ops) && !NoStaleMove(s, ops)
  {
    hide Run;
    hide Transited;
    hide NoMisstep;
    hide NoStaleMove;
    var a, b, c, d := Begin(call, id, SetStatus(Void)), Apply(id, SetStatus(Issued)), Apply(id, SetStatus(Paid)), Finish(call);
    var s1 := Step(s, a).0;
    assert s1 == s.(inflight := s.inflight[call := Call(id, SetStatus(Void), None)]) && !Moves(s, a, id);
    var issued := Move(s.invoices[id], Issued, s.now);
    var s2 := Step(s1, b).0;
    assert s2 == s1.(invoices := s.invoices[id := issued]) && Moves(s1, b, id);
    var paid := Move(issued, Paid, s.now);
    var s3 := Step(s2, c).0;
    assert s3 == s2.(invoices := s.invoices[id := paid]) && Moves(s2, c, id);
    assert Moves(s3, d, id);
    RunOfFour(s, a, b, c, d, id);
  }

  /** Every check holds when its write comes, and the timestamps still end up in the wrong order: a voiding that
      read the clock, then an issue, then the void row written. */
  lemma VoidedBeforeIssued(s: State, id: Id, call: nat, ms: nat)
    requires id in s.invoices && s.invoices[id].status == Draft && ms > 0
    ensures var ops := [Begin(call, id, SetStatus(Void)), ReadClock(call), Tick(ms), Apply(id, SetStatus(Issued)), Finish(call)];
            var t := Run(s, ops);
            && FreshRun(s, ops) && NoMisstep(s, ops) && NoStaleMove(s, ops) && !NoBackdating(s, ops)
            && id in t.invoices && t.invoices[id].status == Void
            && t.invoices[id].issuedAt == Some(s.now + ms) && t.invoices[id].voidedAt == Some(s.now)
            && !Stamped(t.invoices[id], t.now)
  {
    var a, b, c, d := Begin(call, id, SetStatus(Void)), ReadClock(call), Tick(ms), Apply(id, SetStatus(Issued));
    var last := Finish(call);
    var s4 := Step(Step(Step(Step(s, a).0, b).0, c).0, d).0;
    VoidThenIssue(s, id, call, ms);
    BackdatedVoid(s4, id, call, s.now);
    LastWrite(s, [a, b, c, d], last);
    hide *;
    assert [a, b, c, d] + [last] == [a, b, c, d, last];
    RunOfFour(s, a, b, c, d, id);
  }

  lemma VoidThenIssue(s: State, id: Id, call: nat, ms: nat)
    requires id in s.invoices && s.invoices[id].status == Draft
    ensures var a, b, c, d := Begin(call, id, SetStatus(Void)), ReadClock(call), Tick(ms), Apply(id, SetStatus(Issued));
            var t := Step(Step(Step(Step(s, a).0, b).0, c).0, d).0;
            && id in t.invoices && t.invoices[id] == Move(s.invoices[id], Issued, s.now + ms) && t.now == s.now + ms
            && call in t.inflight && t.inflight[call] == Call(id, SetStatus(Void), Some(s.now))
  {}

  lemma BackdatedVoid(s: State, id: Id, call: nat, at: int)
    requires id in s.invoices && s.invoices[id].status == Issued && s.invoices[id].issuedAt.Some?
    requires call in s.inflight && s.inflight[call] == Call(id, SetStatus(Void), Some(at)) && at < s.invoices[id].issuedAt.value
    ensures var t := Step(s, Finish(call)).0;
            && id in t.invoices && t.invoices[id] == Move(s.invoices[id], Void, at) && !Stamped(t.invoices[id], t.now)
    ensures Fresh(s, Finish(call)) && !Misstep(s, Finish(call)) && !StaleMove(s, Finish(call)) && Backdated(s, Finish(call))
  {}

  /** In a run that writes at its end only, that write decides. */
  lemma {:induction false} LastWrite(s: State, ops: seq<Op>, last: Op)
    requires forall i | 0 <= i < |ops| :: !ops[i].Finish?
    ensures var t := Run(s, ops);
            && Run(s, ops + [last]) == Step(t, last).0
            && (FreshRun(s, ops + [last]) <==> Fresh(t, last))
            && (NoMisstep(s, ops + [last]) <==> !Misstep(t, last))
            && (NoStaleMove(s, ops + [last]) <==> !StaleMove(t, last))
            && (NoBackdating(s, ops + [last]) <==> !Backdated(t, last))
    decreases |ops|
  {
    hide Step;
    if ops == [] {
      assert ops + [last] == [last] && [last][1..] == [];
    } else {
      var rest := ops[1..];
      assert forall i | 0 <= i < |rest| :: rest[i] == ops[i + 1];
      assert (ops + [last])[1..] == rest + [last] && (ops + [last])[0] == ops[0];
      LastWrite(Step(s, ops[0]).0, rest, last);
    }
  }

  // ---------------------------------------------------------------- the service

  /** The calls over the tables as fields; each is the atomic step. */
  class Service {
    var now: int
    var customers: set<Customer>
    var workOrders: map<WorkOrder, Customer>
    var invoices: map<Id, Invoice>
    var nextId: Id
    var nextLine: LineId
    ghost var inflight: map<nat, Call>

    ghost function View(): State
      reads this
    {
      State(now, customers, workOrders, invoices, nextId, nextLine, inflight)
    }

    constructor (customers: set<Customer>, workOrders: map<WorkOrder, Customer>)
      ensures View() == State(0, customers, workOrders, map[], 0, 0, map[]) && IdsOk(View()) && AllLinked(View()) && AllStamped(View())
    {
      this.customers, this.workOrders := customers, workOrders;
      now, invoices, nextId, nextLine, inflight := 0, map[], 0, 0, map[];
    }

    method EnsureWorkOrdersForCustomer(customer: Customer, ids: seq<WorkOrder>) returns (error: Option<Outcome>)
      ensures error == EnsureWorkOrders(workOrders, customer, ids)
      ensures error.None? <==> forall id | id in ids :: id in workOrders && workOrders[id] == customer
    {
      EnsureExactly(workOrders, customer, ids);
      var uniqueIds := Unique(ids);
      if |uniqueIds| == 0 {
        return None;
      }
      var rows := Found(workOrders, ids);
      if |rows| != |uniqueIds| {
        return Some(WorkOrderNotFound);
      }
      if id :| id in rows && workOrders[id] != customer {
        return Some(CustomerMismatch);
      }
      error := None;
    }

    method CreateInvoice(customer: Customer, ids: seq<WorkOrder>, inputs: seq<LineInput>) returns (out: Outcome)
      modifies this`invoices, this`nextId, this`nextLine
      ensures (View(), out) == Step(old(View()), Create(customer, ids, inputs))
    {
      if customer !in customers {
        return CustomerNotFound;
      }
      var error := EnsureWorkOrdersForCustomer(customer, ids);
      if error.Some? {
        return error.value;
      }
      if |Unique(ids)| != |ids| {
        return DuplicateLink;
      }
      var lines := Numbered(nextLine, inputs);
      invoices := invoices[nextId := Invoice(customer, Draft, None, None, None, lines, Unique(ids))];
      out := Created(nextId, nextLine);
      nextId, nextLine := nextId + 1, nextLine + |inputs|;
    }

    /** `ensureInvoice` and `ensureDraft`: what lets every edit of content through, and nothing else. */
    method EnsureDraft(id: Id) returns (error: Option<Outcome>)
      ensures error.None? <==> Check(View(), id, AddLine(LineInput("", None, None))).None?
      ensures error == if id !in invoices then Some(InvoiceNotFound)
                       else if invoices[id].status != Draft then Some(NotDraft) else None
    {
      if id !in invoices {
        return Some(InvoiceNotFound);
      }
      error := if invoices[id].status != Draft then Some(NotDraft) else None;
    }

    method AddInvoiceWorkOrders(id: Id, ids: seq<WorkOrder>) returns (out: Outcome)
      modifies this`invoices
      ensures (View(), out) == Step(old(View()), Apply(id, AddWorkOrders(ids)))
    {
      var error := EnsureDraft(id);
      if error.Some? {
        return error.value;
      }
      error := EnsureWorkOrdersForCustomer(invoices[id].customer, ids);
      if error.Some? {
        return error.value;
      }
      invoices := invoices[id := invoices[id].(links := invoices[id].links + Unique(ids))];
      out := Changed;
    }

    method RemoveInvoiceWorkOrder(id: Id, workOrder: WorkOrder) returns (out: Outcome)
      modifies this`invoices
      ensures (View(), out) == Step(old(View()), Apply(id, RemoveWorkOrder(workOrder)))
    {
      var error := EnsureDraft(id);
      if error.Some? {
        return error.value;
      }
      var removed := workOrder in invoices[id].links;
      invoices := invoices[id := invoices[id].(links := invoices[id].links - {workOrder})];
      out := if removed then Changed else LinkNotFound;
    }

    method CreateInvoiceLine(id: Id, input: LineInput) returns (out: Outcome)
      modifies this`invoices, this`nextLine
      ensures (View(), out) == Step(old(View()), Apply(id, AddLine(input)))
    {
      var error := EnsureDraft(id);
      if error.Some? {
        return error.value;
      }
      var line := Line(input.description, Default(input.quantity, 1), input.unitPriceCents);
      invoices := invoices[id := invoices[id].(lines := invoices[id].lines[nextLine := line])];
      out := LineAdded(nextLine);
      nextLine := nextLine + 1;
    }

    method UpdateInvoiceLine(id: Id, line: LineId, patch: LinePatch) returns (out: Outcome)
      modifies this`invoices
      ensures (View(), out) == Step(old(View()), Apply(id, UpdateLine(line, patch)))
    {
      var error := EnsureDraft(id);
      if error.Some? {
        return error.value;
      }
      var lines := invoices[id].lines;
      if line !in lines {
        return LineNotFound;
      }
      var row := lines[line];
      if patch.description.Some? {
        row := row.(description := patch.description.value);
      }
      if patch.quantity.Some? {
        row := row.(quantity := patch.quantity.value);
      }
      if patch.unitPriceCents.Some? {
        row := row.(unitPriceCents := patch.unitPriceCents.value);
      }
      invoices := invoices[id := invoices[id].(lines := lines[line := row])];
      out := Changed;
    }

    method DeleteInvoiceLine(id: Id, line: LineId) returns (out: Outcome)
      modifies this`invoices
      ensures (View(), out) == Step(old(View()), Apply(id, DeleteLine(line)))
    {
      var error := EnsureDraft(id);
      if error.Some? {
        return error.value;
      }
      var deleted := line in invoices[id].lines;
      invoices := invoices[id := invoices[id].(lines := invoices[id].lines - {line})];
      out := if deleted then Changed else LineNotFound;
    }

    method UpdateInvoiceStatus(id: Id, status: Status) returns (out: Outcome)
      modifies this`invoices
      ensures (View(), out) == Step(old(View()), Apply(id, SetStatus(status)))
    {
      if id !in invoices {
        return InvoiceNotFound;
      }
      if status !in Transitions(invoices[id].status) {
        return InvalidTransition;
      }
      var invoice := invoices[id].(status := status);
      if status == Issued {
        invoice := invoice.(issuedAt := Some(now));
      }
      if status == Paid {
        invoice := invoice.(paidAt := Some(now));
      }
      if status == Void {
        invoice := invoice.(voidedAt := Some(now));
      }
      invoices := invoices[id := invoice];
      out := Moved(status);
    }
  }
}
