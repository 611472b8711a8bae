/**
 What an invoice holds, in terms of the edits answered for it: its lines and links are read off the list of those
 edits, one line and one work order at a time, and every answer is told from the invoice as it stands.
 */
module InvoiceContent {
  import opened Prelude
  import opened Invoices

  /** An edit of content that was answered as done, as its caller knows it. */
  datatype Event =
    | Opened(firstLine: LineId, inputs: seq<LineInput>, ids: seq<WorkOrder>)
    | Added(line: LineId, input: LineInput)
    | Updated(line: LineId, patch: LinePatch)
    | Deleted(line: LineId)
    | Linked(ids: seq<WorkOrder>)
    | Unlinked(workOrder: WorkOrder)

  function Told(edit: Edit, out: Outcome): Option<Event> {
    match (edit, out)
    case (AddWorkOrders(ids), Changed) => Some(Linked(ids))
    case (RemoveWorkOrder(w), Changed) => Some(Unlinked(w))
    case (AddLine(input), LineAdded(line)) => Some(Added(line, input))
    case (UpdateLine(line, patch), Changed) => Some(Updated(line, patch))
    case (DeleteLine(line), Changed) => Some(Deleted(line))
    case _ => None
  }

  /** What a step and its answer tell about invoice `id`. */
  function EventOf(s: State, op: Op, out: Outcome, id: Id): Option<Event> {
    match op
    case Create(_, ids, inputs) => if out.Created? && out.id == id then Some(Opened(out.firstLine, inputs, ids)) else None
    case Apply(target, edit) => if target == id then Told(edit, out) else None
    case Finish(call) => if call in s.inflight && s.inflight[call].id == id then Told(s.inflight[call].edit, out) else None
    case _ => None
  }

  function Events(s: State, ops: seq<Op>, id: Id): seq<Event>
    decreases |ops|
  {
    if ops == [] then []
    else
      var (t, out) := Step(s, ops[0]);
      var event := EventOf(s, ops[0], out, id);
      (if event.Some? then [event.value] else []) + Events(t, ops[1..], id)
  }

  // ---------------------------------------------------------------- one line, one link

  predicate LineIs(line: Line, input: LineInput) {
    && line.description == input.description && line.unitPriceCents == input.unitPriceCents
    && line.quantity == if input.quantity.Some? then input.quantity.value else 1
  }

  function Fresh(input: LineInput): (line: Line)
    ensures LineIs(line, input)
  {
    Line(input.description, if input.quantity.Some? then input.quantity.value else 1, input.unitPriceCents)
  }

  /** What an event makes of line `k`: each given field is set, every other is as it was. */
  function LineAfter(before: Option<Line>, event: Event, k: LineId): Option<Line> {
    match event
    case Opened(first, inputs, _) => if first <= k < first + |inputs| then Some(Fresh(inputs[k - first])) else None
    case Added(line, input) => if line == k then Some(Fresh(input)) else before
    case Updated(line, patch) =>
      if line != k || before.None? then before
      else
        var row := before.value;
        Some(Line(if patch.description.Some? then patch.description.value else row.description,
                  if patch.quantity.Some? then patch.quantity.value else row.quantity,
                  if patch.unitPriceCents.Some? then patch.unitPriceCents.value else row.unitPriceCents))
    case Deleted(line) => if line == k then None else before
    case _ => before
  }

  predicate LinkedAfter(before: bool, event: Event, w: WorkOrder) {
    match event
    case Opened(_, _, ids) => w in ids
    case Linked(ids) => before || w in ids
    case Unlinked(x) => before && x != w
    case _ => before
  }

  function LineRead(before: Option<Line>, events: seq<Event>, k: LineId): Option<Line>
    decreases |events|
  {
    if events == [] then before else LineRead(LineAfter(before, events[0], k), events[1..], k)
  }

  predicate LinkRead(before: bool, events: seq<Event>, w: WorkOrder)
    decreases |events|
  {
    if events == [] then before else LinkRead(LinkedAfter(before, events[0], w), events[1..], w)
  }

  function LineOf(s: State, id: Id, k: LineId): Option<Line> {
    if id in s.invoices && k in s.invoices[id].lines then Some(s.invoices[id].lines[k]) else None
  }

  predicate LinkOf(s: State, id: Id, w: WorkOrder) { id in s.invoices && w in s.invoices[id].links }

  // ---------------------------------------------------------------- each step does what its event says

  lemma {:induction false} NumberedAt(next: LineId, inputs: seq<LineInput>, k: LineId)
    requires next <= k < next + |inputs|
    ensures Numbered(next, inputs)[k] == Fresh(inputs[k - next])
  {
    var init := inputs[..|inputs| - 1];
    if k < next + |init| {
      NumberedAt(next, init, k);
    }
  }

  function LineIn(invoice: Invoice, k: LineId): Option<Line> { if k in invoice.lines then Some(invoice.lines[k]) else None }

  /** One write, as its answer tells it. */
  lemma WrittenTells(invoice: Invoice, edit: Edit, line: LineId, at: int, k: LineId, w: WorkOrder)
    requires line !in invoice.lines
    ensures var after, event := Written(invoice, edit, line, at), Told(edit, Reply(invoice, edit, line));
            && LineIn(after, k) == (if event.Some? then LineAfter(LineIn(invoice, k), event.value, k) else LineIn(invoice, k))
            && (w in after.links <==> if event.Some? then LinkedAfter(w in invoice.links, event.value, w) else w in invoice.links)
  {}

  lemma WriteTells(s: State, id: Id, edit: Edit, at: int, k: LineId, w: WorkOrder)
    requires IdsOk(s) && id in s.invoices
    ensures var (t, out) := Write(s, id, edit, at);
            var event := Told(edit, out);
            && LineOf(t, id, k) == (if event.Some? then LineAfter(LineOf(s, id, k), event.value, k) else LineOf(s, id, k))
            && (LinkOf(t, id, w) <==> if event.Some? then LinkedAfter(LinkOf(s, id, w), event.value, w) else LinkOf(s, id, w))
            && t.invoices.Keys == s.invoices.Keys
            && (forall other | other in s.invoices && other != id :: t.invoices[other] == s.invoices[other])
  {
    assert s.nextLine !in s.invoices[id].lines;
    WrittenTells(s.invoices[id], edit, s.nextLine, at, k, w);
    hide IdsOk;
    hide Written;
    hide Reply;
    hide LineAfter;
    hide LinkedAfter;
  }

  lemma StepTells(s: State, op: Op, id: Id, k: LineId, w: WorkOrder)
    requires IdsOk(s)
    ensures var (t, out) := Step(s, op);
            var event := EventOf(s, op, out, id);
            && LineOf(t, id, k) == (if event.Some? then LineAfter(LineOf(s, id, k), event.value, k) else LineOf(s, id, k))
            && (LinkOf(t, id, w) <==> if event.Some? then LinkedAfter(LinkOf(s, id, w), event.value, w) else LinkOf(s, id, w))
  {
    hide Written;
    hide LineAfter;
    hide LinkedAfter;
    match op
    case Create(customer, ids, inputs) => CreateTells(s, customer, ids, inputs, id, k, w);
    case Apply(target, edit) =>
      if Check(s, target, edit).None? {
        WriteTells(s, target, edit, s.now, k, w);
      }
      hide Write;
    case Finish(call) =>
      if call in s.inflight && s.inflight[call].id in s.invoices {
        var c := s.inflight[call];
        WriteTells(s.(inflight := s.inflight - {call}), c.id, c.edit, Instant(s, c), k, w);
      }
      hide Write;
    case _ =>
  }

  lemma CreateTells(s: State, customer: Customer, ids: seq<WorkOrder>, inputs: seq<LineInput>, id: Id, k: LineId, w: WorkOrder)
    requires IdsOk(s)
    ensures var op := Create(customer, ids, inputs);
            var (t, out) := Step(s, op);
            var event := EventOf(s, op, out, id);
            && LineOf(t, id, k) == (if event.Some? then LineAfter(LineOf(s, id, k), event.value, k) else LineOf(s, id, k))
            && (LinkOf(t, id, w) <==> if event.Some? then LinkedAfter(LinkOf(s, id, w), event.value, w) else LinkOf(s, id, w))
  {
    EnsureExactly(s.workOrders, customer, ids);
    hide EnsureWorkOrders;
    assert s.nextId !in s.invoices;
    var (t, out) := Step(s, Create(customer, ids, inputs));
    if out.Created? && id == s.nextId {
      var lines := t.invoices[id].lines;
      assert lines == Numbered(s.nextLine, inputs) && t.invoices[id].links == Unique(ids);
      hide Numbered;
      assert w in Unique(ids) <==> w in ids;
      assert k in lines <==> s.nextLine <= k < s.nextLine + |inputs|;
      if s.nextLine <= k < s.nextLine + |inputs| {
        NumberedAt(s.nextLine, inputs, k);
      }
    }
  }

  /** Over every run, interleaved or not: each line and each link of an invoice is what the edits answered for it, read
      in order, amount to. */
  lemma {:induction false} ContentIsHistory(s: State, ops: seq<Op>, id: Id, k: LineId, w: WorkOrder)
    requires IdsOk(s)
    ensures LineOf(Run(s, ops), id, k) == LineRead(LineOf(s, id, k), Events(s, ops, id), k)
    ensures LinkOf(Run(s, ops), id, w) <==> LinkRead(LinkOf(s, id, w), Events(s, ops, id), w)
    decreases |ops|
  {
    if ops != [] {
      var (t, out) := Step(s, ops[0]);
      StepTells(s, ops[0], id, k, w);
      StepKeepsIds(s, ops[0]);
      ContentIsHistory(t, ops[1..], id, k, w);
      var event, rest := EventOf(s, ops[0], out, id), Events(t, ops[1..], id);
      if event.Some? {
        assert Events(s, ops, id) == [event.value] + rest && ([event.value] + rest)[1..] == rest;
      } else {
        assert Events(s, ops, id) == rest;
      }
    }
  }

  // ---------------------------------------------------------------- every answer, and what it leaves alone

  predicate Done(out: Outcome) { out.Moved? || out.Changed? || out.LineAdded? }

  predicate Allowed(from: Status, to: Status) {
    (from == Draft && to in {Issued, Void}) || (from == Issued && to in {Paid, Void})
  }

  /** The answer to an edit of content, of a draft. */
  predicate ContentAnswer(s: State, id: Id, edit: Edit, out: Outcome)
    requires id in s.invoices
  {
    var invoice := s.invoices[id];
    match edit
    case AddWorkOrders(ids) =>
      if exists w | w in ids :: w !in s.workOrders then out == WorkOrderNotFound
      else out == if exists w | w in ids :: s.workOrders[w] != invoice.customer then CustomerMismatch else Changed
    case RemoveWorkOrder(w) => out == if w in invoice.links then Changed else LinkNotFound
    case AddLine(_) => out.LineAdded? && forall other | other in s.invoices :: out.line !in s.invoices[other].lines
    case UpdateLine(line, _) => out == if line in invoice.lines then Changed else LineNotFound
    case DeleteLine(line) => out == if line in invoice.lines then Changed else LineNotFound
    case SetStatus(_) => true
  }

  /** Customer, status and dates are no edit's of content; a change of status sets the status and its own date. */
  predicate HeaderAfter(before: Invoice, after: Invoice, edit: Edit, now: int) {
    && after.customer == before.customer
    && after.status == (if edit.SetStatus? then edit.status else before.status)
    && after.issuedAt == (if edit == SetStatus(Issued) then Some(now) else before.issuedAt)
    && after.paidAt == (if edit == SetStatus(Paid) then Some(now) else before.paidAt)
    && after.voidedAt == (if edit == SetStatus(Void) then Some(now) else before.voidedAt)
    && (edit.SetStatus? ==> after.lines == before.lines && after.links == before.links)
  }

  /** Exactly how an atomic edit is answered, and that a refused one changes no invoice, and no edit another one. */
  lemma EditIsAnswered(s: State, id: Id, edit: Edit)
    requires IdsOk(s)
    ensures var (t, out) := Step(s, Apply(id, edit));
            && (id !in s.invoices ==> out == InvoiceNotFound)
            && (id in s.invoices ==>
                  if edit.SetStatus? then
                    out == if Allowed(s.invoices[id].status, edit.status) then Moved(edit.status) else InvalidTransition
                  else if s.invoices[id].status != Draft then out == NotDraft
                  else ContentAnswer(s, id, edit, out))
            && t.invoices.Keys == s.invoices.Keys
            && (forall other | other in s.invoices && other != id :: t.invoices[other] == s.invoices[other])
            && (if Done(out) then id in s.invoices && HeaderAfter(s.invoices[id], t.invoices[id], edit, s.now)
                else t.invoices == s.invoices)
  {
    if Check(s, id, edit).None? {
      CheckAnswers(s, id, edit);
      WriteAnswers(s, id, edit);
    } else {
      CheckAnswers(s, id, edit);
    }
    hide Check;
    hide Write;
    hide HeaderAfter;
    hide ContentAnswer;
  }

  lemma CheckAnswers(s: State, id: Id, edit: Edit)
    ensures var error := Check(s, id, edit);
            && (error.Some? ==> !Done(error.value))
            && (id !in s.invoices ==> error == Some(InvoiceNotFound))
            && (error.None? ==> id in s.invoices)
            && (id in s.invoices ==>
                  if edit.SetStatus? then
                    error == if Allowed(s.invoices[id].status, edit.status) then None else Some(InvalidTransition)
                  else if s.invoices[id].status != Draft then error == Some(NotDraft)
                  else
                    && (error.Some? ==> ContentAnswer(s, id, edit, error.value))
                    && (error.None? && edit.AddWorkOrders? ==> ContentAnswer(s, id, edit, Changed))
                    && (error.None? && edit.UpdateLine? ==> edit.line in s.invoices[id].lines))
  {
    if id in s.invoices && edit.AddWorkOrders? {
      EnsureExactly(s.workOrders, s.invoices[id].customer, edit.ids);
    }
    hide EnsureWorkOrders;
  }

  lemma WriteAnswers(s: State, id: Id, edit: Edit)
    requires IdsOk(s) && id in s.invoices
    ensures var (t, out) := Write(s, id, edit, s.now);
            && t.invoices.Keys == s.invoices.Keys
            && (forall other | other in s.invoices && other != id :: t.invoices[other] == s.invoices[other])
            && (if Done(out) then HeaderAfter(s.invoices[id], t.invoices[id], edit, s.now) else t.invoices == s.invoices)
            && (edit.SetStatus? ==> out == Moved(edit.status))
            && (edit.AddWorkOrders? ==> out == Changed)
            && (edit.AddLine? || edit.RemoveWorkOrder? || edit.DeleteLine? ==> ContentAnswer(s, id, edit, out))
            && (edit.UpdateLine? && edit.line in s.invoices[id].lines ==> ContentAnswer(s, id, edit, out))
  {
    if edit.RemoveWorkOrder? && edit.workOrder !in s.invoices[id].links {
      assert s.invoices[id].links - {edit.workOrder} == s.invoices[id].links;
    }
    if edit.DeleteLine? && edit.line !in s.invoices[id].lines {
      assert s.invoices[id].lines - {edit.line} == s.invoices[id].lines;
    }
    assert s.invoices[id := s.invoices[id]] == s.invoices;
  }

  /** Exactly how a creation is answered; the new invoice is a draft of the customer with no dates, and no other changes. */
  lemma CreateIsAnswered(s: State, customer: Customer, ids: seq<WorkOrder>, inputs: seq<LineInput>)
    requires IdsOk(s)
    ensures var (t, out) := Step(s, Create(customer, ids, inputs));
            if customer !in s.customers then out == CustomerNotFound && t == s
            else if exists w | w in ids :: w !in s.workOrders then out == WorkOrderNotFound && t == s
            else if exists w | w in ids :: s.workOrders[w] != customer then out == CustomerMismatch && t == s
            else if exists i, j | 0 <= i < j < |ids| :: ids[i] == ids[j] then out == DuplicateLink && t == s
            else
              && out.Created? && out.id !in s.invoices && t.invoices.Keys == s.invoices.Keys + {out.id}
              && (forall other | other in s.invoices :: t.invoices[other] == s.invoices[other])
              && (var invoice := t.invoices[out.id];
                  invoice.customer == customer && invoice.status == Draft
                  && invoice.issuedAt.None? && invoice.paidAt.None? && invoice.voidedAt.None?)
  {
    EnsureExactly(s.workOrders, customer, ids);
    UniqueSize(ids);
    assert s.nextId !in s.invoices;
    hide EnsureWorkOrders;
    hide Numbered;
    hide Unique;
  }
}
