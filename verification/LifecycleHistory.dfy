/** Properties of whole runs: the path of delivery statuses, the approval gate and the payments. */
module LifecycleHistory {
  import opened Wrappers
  import opened ApprovalRules
  import opened Lifecycle
  import opened LifecycleInvariant

  // ---- The path of delivery statuses ----

  /** None stands for a delivery that is not, or no longer, there. */
  function StatusOf(s: Rows, d: nat): Option<DeliveryStatus> {
    if d in s.deliveries then Some(s.deliveries[d].status) else None
  }

  predicate Start(s: Option<DeliveryStatus>) {
    s == Some(ALiberar) || s == Some(Iniciado)
  }

  /** The allowed moves; a removed delivery never comes back. */
  predicate Move(a: Option<DeliveryStatus>, b: Option<DeliveryStatus>) {
    match a
    case Some(ALiberar) => b == Some(Iniciado) || b == Some(Rejeitado) || b == None
    case Some(Iniciado) => b == Some(ALiberar) || b == Some(Finalizado) || b == None
    case Some(Finalizado) => b == None
    case Some(Rejeitado) => b == None
    case None => false
  }

  predicate MovesOrStarts(s: Rows, t: Rows, d: nat) {
    && s.nextDelivery <= t.nextDelivery
    && (|| StatusOf(t, d) == StatusOf(s, d)
        || Move(StatusOf(s, d), StatusOf(t, d))
        || (d == s.nextDelivery < t.nextDelivery && Start(StatusOf(t, d))))
  }

  lemma CreateMoves(s: Rows, driver: nat, refs: seq<OrderRef>, frete: real, rules: TenantRules, d: nat)
    requires Create(s, driver, refs, frete, rules).Ok?
    ensures MovesOrStarts(s, Create(s, driver, refs, frete, rules).value, d)
  {
  }

  lemma ReassessMoves(s: Rows, e: nat, orders: map<nat, Order>, driver: nat, frete: real, rules: TenantRules, d: nat)
    requires e in s.deliveries
    ensures MovesOrStarts(s, Reassess(s, e, orders, driver, frete, rules), d)
  {
  }

  lemma DriverMoves(s: Rows, driver: nat, o: nat, to: OrderStatus, hasReason: bool, d: nat)
    requires UpdateOrderStatus(s, driver, o, to, hasReason).Ok?
    ensures MovesOrStarts(s, UpdateOrderStatus(s, driver, o, to, hasReason).value, d)
  {
  }

  lemma StepMoves(s: Rows, r: Request, d: nat)
    requires Inv(s)
    ensures MovesOrStarts(s, Step(s, r), d)
  {
    if Answer(s, r).Ok? {
      match r
      case CreateReq(driver, refs, frete, rules) => CreateMoves(s, driver, refs, frete, rules, d);
      case DriverReq(driver, o, to, hasReason) => DriverMoves(s, driver, o, to, hasReason, d);
      case EditReq(e, driver, refs, frete, rules) =>
        ReassessMoves(s, e, EditedOrders(s, e, refs), NewDriver(s, e, driver), frete, rules, d);
      case RemoveOrderReq(e, o, frete, rules) =>
        ReassessMoves(s, e, s.orders[o := Freed(s.orders[o], e)], s.deliveries[e].driverId, frete, rules, d);
      case _ =>
    }
  }

  /** The distinct statuses a delivery went through during a run. */
  ghost function History(rs: seq<Request>, d: nat): seq<Option<DeliveryStatus>> {
    if rs == [] then []
    else
      var h := History(rs[..|rs| - 1], d);
      var now := StatusOf(Run(rs), d);
      if (if h == [] then now == None else h[|h| - 1] == now) then h else h + [now]
  }

  predicate IsPath(h: seq<Option<DeliveryStatus>>) {
    && (h != [] ==> Start(h[0]))
    && forall i :: 0 <= i < |h| - 1 ==> Move(h[i], h[i + 1])
  }

  /** Every delivery of every run follows the path; finalised and rejected deliveries
      change no more until they are removed. */
  lemma {:induction false} HistoryIsPath(rs: seq<Request>, d: nat)
    ensures IsPath(History(rs, d))
    ensures var h, now := History(rs, d), StatusOf(Run(rs), d); if h == [] then now == None else h[|h| - 1] == now
    ensures History(rs, d) != [] ==> d < Run(rs).nextDelivery
  {
    if rs != [] {
      var n := |rs| - 1;
      HistoryIsPath(rs[..n], d);
      RunKeeps(rs[..n]);
      StepMoves(Run(rs[..n]), rs[n], d);
    }
  }

  // ---- The approval gate ----

  /** What a request leaves on record about a delivery's right to start. */
  datatype Event = Checked(d: nat, checkup: Checkup) | ApprovalGiven(d: nat)

  ghost function EventsOf(s: Rows, r: Request): seq<Event> {
    if Answer(s, r).Err? then []
    else
      match r
      case CreateReq(_, refs, frete, rules) => [Checked(s.nextDelivery, CreationCheckup(s, refs, frete, rules))]
      case EditReq(d, _, refs, frete, rules) =>
        if d in s.deliveries then [Checked(d, CheckupOf(EditedOrders(s, d, refs), d, frete, rules))] else []
      case RemoveOrderReq(d, id, frete, rules) =>
        if id in s.orders
        then [Checked(d, CheckupOf(s.orders[id := Freed(s.orders[id], d)], d, frete, rules))]
        else []
      case ApproveReq(d) => [ApprovalGiven(d)]
      case _ => []
  }

  ghost function Log(rs: seq<Request>): seq<Event> {
    if rs == [] then [] else Log(rs[..|rs| - 1]) + EventsOf(Run(rs[..|rs| - 1]), rs[|rs| - 1])
  }

  predicate Failing(e: Event, d: nat) {
    e.Checked? && e.d == d && NeedsApproval(e.checkup)
  }

  predicate Opening(e: Event, d: nat) {
    e.d == d && (e.Checked? ==> !NeedsApproval(e.checkup))
  }

  /** Some check was made, and after every failing one came an approval or a passing check. */
  predicate GateOpen(log: seq<Event>, d: nat) {
    && (exists i :: 0 <= i < |log| && log[i].Checked? && log[i].d == d)
    && forall i :: 0 <= i < |log| && Failing(log[i], d) ==> exists j :: i < j < |log| && Opening(log[j], d)
  }

  /** The checkup on record last. */
  function LastCheckup(log: seq<Event>, d: nat): Option<Checkup> {
    if log == [] then None
    else
      var e := log[|log| - 1];
      if e.Checked? && e.d == d then Some(e.checkup) else LastCheckup(log[..|log| - 1], d)
  }

  /** The last checkup looked at the totals and freight the delivery has now. */
  predicate CheckedAsIs(log: seq<Event>, s: Rows, d: nat)
    requires d in s.deliveries
  {
    match LastCheckup(log, d)
    case None => false
    case Some(c) =>
      && c.totalPeso == s.deliveries[d].totalPeso
      && c.totalValor == s.deliveries[d].totalValor
      && c.valorFrete == s.deliveries[d].valorFrete
  }

  lemma GateAfter(log: seq<Event>, e: Event, d: nat)
    ensures GateOpen(log, d) && e.d != d ==> GateOpen(log + [e], d)
    ensures Opening(e, d) && (e.Checked? || GateOpen(log, d) || LastCheckup(log, d).Some?) ==> GateOpen(log + [e], d)
    ensures LastCheckup(log + [e], d) == if e.Checked? && e.d == d then Some(e.checkup) else LastCheckup(log, d)
  {
    var all := log + [e];
    assert all[..|all| - 1] == log;
    if GateOpen(log, d) && e.d != d {
      var i :| 0 <= i < |log| && log[i].Checked? && log[i].d == d;
      assert all[i] == log[i];
      forall i | 0 <= i < |all| && Failing(all[i], d) ensures exists j :: i < j < |all| && Opening(all[j], d) {
        assert Failing(log[i], d);
        var j :| i < j < |log| && Opening(log[j], d);
        assert Opening(all[j], d);
      }
    }
    if Opening(e, d) && (e.Checked? || GateOpen(log, d) || LastCheckup(log, d).Some?) {
      assert Opening(all[|log|], d);
      LastCheckupIsThere(log, d);
      if !e.Checked? {
        var i :| 0 <= i < |log| && log[i].Checked? && log[i].d == d;
        assert all[i] == log[i];
      }
    }
  }

  lemma {:induction false} LastCheckupIsThere(log: seq<Event>, d: nat)
    ensures LastCheckup(log, d).Some? ==> exists i :: 0 <= i < |log| && log[i].Checked? && log[i].d == d
  {
    if log != [] {
      var n := |log| - 1;
      if !(log[n].Checked? && log[n].d == d) {
        LastCheckupIsThere(log[..n], d);
        if LastCheckup(log, d).Some? {
          var i :| 0 <= i < |log[..n]| && log[..n][i].Checked? && log[..n][i].d == d;
          assert log[i].Checked? && log[i].d == d;
        }
      }
    }
  }

  predicate SameMoney(a: Delivery, b: Delivery) {
    a.totalPeso == b.totalPeso && a.totalValor == b.totalValor && a.valorFrete == b.valorFrete
  }

  /** A check is recorded with the numbers it leaves on the delivery, which does not stay
      started when it fails. */
  predicate ChecksDelivery(c: Checkup, d: Delivery) {
    && c.totalPeso == d.totalPeso && c.totalValor == d.totalValor && c.valorFrete == d.valorFrete
    && (NeedsApproval(c) ==> d.status != Iniciado)
  }

  /** What a request does to the gate of one delivery: a check or an approval is recorded
      for it, or its numbers stay and it does not start. */
  predicate GateStep(s: Rows, t: Rows, es: seq<Event>, d: nat)
    requires d in t.deliveries
  {
    && |es| <= 1
    && if es != [] && es[0].d == d then
         if es[0].Checked? then ChecksDelivery(es[0].checkup, t.deliveries[d])
         else d in s.deliveries && SameMoney(t.deliveries[d], s.deliveries[d])
       else
         && d in s.deliveries && SameMoney(t.deliveries[d], s.deliveries[d])
         && (t.deliveries[d].status == Iniciado ==> s.deliveries[d].status == Iniciado)
  }

  lemma CreateGate(s: Rows, driver: nat, refs: seq<OrderRef>, frete: real, rules: TenantRules, d: nat)
    requires Create(s, driver, refs, frete, rules).Ok? && d in Create(s, driver, refs, frete, rules).value.deliveries
    ensures GateStep(s, Create(s, driver, refs, frete, rules).value,
                     [Checked(s.nextDelivery, CreationCheckup(s, refs, frete, rules))], d)
  {
  }

  lemma ReassessGate(s: Rows, e: nat, orders: map<nat, Order>, driver: nat, frete: real, rules: TenantRules, d: nat)
    requires e in s.deliveries && d in s.deliveries
    ensures GateStep(s, Reassess(s, e, orders, driver, frete, rules),
                     [Checked(e, CheckupOf(orders, e, frete, rules))], d)
  {
  }

  lemma DriverGate(s: Rows, driver: nat, id: nat, to: OrderStatus, hasReason: bool, d: nat)
    requires UpdateOrderStatus(s, driver, id, to, hasReason).Ok?
    requires d in UpdateOrderStatus(s, driver, id, to, hasReason).value.deliveries
    ensures GateStep(s, UpdateOrderStatus(s, driver, id, to, hasReason).value, [], d)
  {
  }

  lemma StepGate(s: Rows, r: Request, d: nat)
    requires d in Step(s, r).deliveries
    ensures GateStep(s, Step(s, r), EventsOf(s, r), d)
  {
    if Answer(s, r).Ok? {
      match r
      case CreateReq(driver, refs, frete, rules) => CreateGate(s, driver, refs, frete, rules, d);
      case DriverReq(driver, id, to, hasReason) => DriverGate(s, driver, id, to, hasReason, d);
      case EditReq(e, driver, refs, frete, rules) =>
        ReassessGate(s, e, EditedOrders(s, e, refs), NewDriver(s, e, driver), frete, rules, d);
      case RemoveOrderReq(e, id, frete, rules) =>
        ReassessGate(s, e, s.orders[id := Freed(s.orders[id], e)], s.deliveries[e].driverId, frete, rules, d);
      case _ =>
    }
  }

  /** A started delivery passed its last check, or was approved after its last failing one;
      and the last check of any delivery was made on the numbers it still has. */
  lemma {:induction false} GateHolds(rs: seq<Request>, d: nat)
    requires d in Run(rs).deliveries
    ensures Run(rs).deliveries[d].status == Iniciado ==> GateOpen(Log(rs), d)
    ensures CheckedAsIs(Log(rs), Run(rs), d)
  {
    var n := |rs| - 1;
    var s, log := Run(rs[..n]), Log(rs[..n]);
    var es := EventsOf(s, rs[n]);
    RunKeeps(rs[..n]);
    StepGate(s, rs[n], d);
    if d in s.deliveries {
      GateHolds(rs[..n], d);
    }
    if es != [] {
      GateAfter(log, es[0], d);
      assert es == [es[0]];
    } else {
      assert log + es == log;
    }
  }

  // ---- The approvals table and the log ----

  /** The rows that record this decision on a delivery. */
  function Recorded(s: Rows, d: nat, action: ApprovalAction): set<nat> {
    set a | a in s.approvals && s.approvals[a] == Approval(d, action)
  }

  function Given(log: seq<Event>, d: nat): nat {
    if log == [] then 0
    else Given(log[..|log| - 1], d) + (if log[|log| - 1] == ApprovalGiven(d) then 1 else 0)
  }

  lemma GivenAfter(log: seq<Event>, es: seq<Event>, d: nat)
    requires |es| <= 1
    ensures Given(log + es, d) == Given(log, d) + (if es == [ApprovalGiven(d)] then 1 else 0)
  {
    if es == [] {
      assert log + es == log;
    } else {
      assert (log + es)[..|log + es| - 1] == log;
    }
  }

  /** A decision adds one row of its own and changes no other. */
  lemma OneMoreRow(s: Rows, t: Rows, d: nat, action: ApprovalAction, e: nat, other: ApprovalAction)
    requires Inv(s) && t.approvals == s.approvals[s.nextApproval := Approval(d, action)]
    ensures |Recorded(t, e, other)| == |Recorded(s, e, other)| + (if e == d && other == action then 1 else 0)
  {
    if e == d && other == action {
      assert Recorded(t, e, other) == Recorded(s, e, other) + {s.nextApproval};
      assert s.nextApproval !in Recorded(s, e, other);
    } else {
      assert Recorded(t, e, other) == Recorded(s, e, other);
    }
  }

  lemma ApprovalsUntouched(s: Rows, r: Request)
    requires !r.ApproveReq? && !r.RejectReq? && !r.RemoveReq?
    ensures Step(s, r).approvals == s.approvals
  {
  }

  lemma RemoveRows(s: Rows, d: nat, e: nat, action: ApprovalAction)
    requires Remove(s, d).Ok? && e != d
    ensures Recorded(Remove(s, d).value, e, action) == Recorded(s, e, action)
  {
  }

  /** What a request adds to the rows of a delivery that is there afterwards. */
  ghost function Adds(s: Rows, r: Request, d: nat, action: ApprovalAction): nat {
    if (r == ApproveReq(d) && Approve(s, d).Ok? && action == Approved)
       || (r == RejectReq(d) && Reject(s, d).Ok? && action == Rejected)
    then 1 else 0
  }

  lemma StepRows(s: Rows, r: Request, d: nat, action: ApprovalAction)
    requires Inv(s) && d in Step(s, r).deliveries
    ensures |Recorded(Step(s, r), d, action)| == |Recorded(s, d, action)| + Adds(s, r, d, action)
  {
    if Answer(s, r).Ok? {
      match r
      case ApproveReq(e) => OneMoreRow(s, Approve(s, e).value, e, Approved, d, action);
      case RejectReq(e) => OneMoreRow(s, Reject(s, e).value, e, Rejected, d, action);
      case RemoveReq(e) => RemoveRows(s, e, d, action);
      case _ => ApprovalsUntouched(s, r);
    }
  }

  lemma NewHasNoRows(s: Rows, d: nat, action: ApprovalAction)
    requires Inv(s) && d !in s.deliveries
    ensures Recorded(s, d, action) == {}
  {
  }

  /** The approvals the gate relies on are the rows of the approvals table. */
  lemma {:induction false} ApprovalsOnRecord(rs: seq<Request>, d: nat)
    ensures d in Run(rs).deliveries ==> |Recorded(Run(rs), d, Approved)| == Given(Log(rs), d)
    ensures d >= Run(rs).nextDelivery ==> Given(Log(rs), d) == 0
  {
    if rs != [] {
      var n := |rs| - 1;
      var s, log := Run(rs[..n]), Log(rs[..n]);
      var es := EventsOf(s, rs[n]);
      RunKeeps(rs[..n]);
      ApprovalsOnRecord(rs[..n], d);
      EventsAreOfIssued(s, rs[n], d);
      GivenAfter(log, es, d);
      if d in Run(rs).deliveries {
        StepRows(s, rs[n], d, Approved);
        if d !in s.deliveries {
          NewHasNoRows(s, d, Approved);
        }
      }
    }
  }

  /** Nothing becomes or ceases to be rejected. */
  predicate RejectedAlike(s: Rows, t: Rows, d: nat) {
    d in t.deliveries ==> (StatusOf(t, d) == Some(Rejeitado) <==> StatusOf(s, d) == Some(Rejeitado))
  }

  lemma CreateAlike(s: Rows, driver: nat, refs: seq<OrderRef>, frete: real, rules: TenantRules, d: nat)
    requires Inv(s) && Create(s, driver, refs, frete, rules).Ok?
    ensures RejectedAlike(s, Create(s, driver, refs, frete, rules).value, d)
  {
  }

  lemma ReassessAlike(s: Rows, e: nat, orders: map<nat, Order>, driver: nat, frete: real, rules: TenantRules, d: nat)
    requires e in s.deliveries
    ensures RejectedAlike(s, Reassess(s, e, orders, driver, frete, rules), d)
  {
  }

  lemma DriverAlike(s: Rows, driver: nat, o: nat, to: OrderStatus, hasReason: bool, d: nat)
    requires UpdateOrderStatus(s, driver, o, to, hasReason).Ok?
    ensures RejectedAlike(s, UpdateOrderStatus(s, driver, o, to, hasReason).value, d)
  {
  }

  lemma OthersAlike(s: Rows, r: Request, d: nat)
    requires Answer(s, r).Ok? && r != RejectReq(d)
    requires !r.CreateReq? && !r.EditReq? && !r.RemoveOrderReq? && !r.DriverReq?
    ensures RejectedAlike(s, Step(s, r), d)
  {
  }

  /** A delivery turns REJEITADO by a rejection of its own alone, and stays so. */
  lemma RejectedByRejection(s: Rows, r: Request, d: nat)
    requires Inv(s) && d in Step(s, r).deliveries
    ensures StatusOf(Step(s, r), d) == Some(Rejeitado)
            <==> StatusOf(s, d) == Some(Rejeitado) || Adds(s, r, d, Rejected) == 1
    ensures Adds(s, r, d, Rejected) == 1 ==> d in s.deliveries && StatusOf(s, d) != Some(Rejeitado)
  {
    if r == RejectReq(d) {
      assert Step(s, r) == if Reject(s, d).Ok? then Reject(s, d).value else s;
    } else if Answer(s, r).Ok? {
      match r
      case CreateReq(driver, refs, frete, rules) => CreateAlike(s, driver, refs, frete, rules, d);
      case DriverReq(driver, o, to, hasReason) => DriverAlike(s, driver, o, to, hasReason, d);
      case EditReq(e, driver, refs, frete, rules) =>
        ReassessAlike(s, e, EditedOrders(s, e, refs), NewDriver(s, e, driver), frete, rules, d);
      case RemoveOrderReq(e, o, frete, rules) =>
        ReassessAlike(s, e, s.orders[o := Freed(s.orders[o], e)], s.deliveries[e].driverId, frete, rules, d);
      case _ => OthersAlike(s, r, d);
    }
  }

  /** A delivery that is there has one REJECTED row when it is rejected and none otherwise. */
  lemma {:induction false} RejectionsOnRecord(rs: seq<Request>, d: nat)
    ensures d in Run(rs).deliveries ==>
      |Recorded(Run(rs), d, Rejected)| == if Run(rs).deliveries[d].status == Rejeitado then 1 else 0
  {
    if rs != [] && d in Run(rs).deliveries {
      var front, r := rs[..|rs| - 1], rs[|rs| - 1];
      RunKeeps(front);
      RejectionsOnRecord(front, d);
      StepRows(Run(front), r, d, Rejected);
      RejectedByRejection(Run(front), r, d);
      if d !in Run(front).deliveries {
        NewHasNoRows(Run(front), d, Rejected);
      }
    }
  }

  /** Only a delivery that is there is approved, and only a new one appears. */
  lemma EventsAreOfIssued(s: Rows, r: Request, d: nat)
    requires Inv(s)
    ensures |EventsOf(s, r)| <= 1
    ensures EventsOf(s, r) == [ApprovalGiven(d)] ==> d in s.deliveries
    ensures d in Step(s, r).deliveries && d !in s.deliveries ==> d == s.nextDelivery
    ensures s.nextDelivery <= Step(s, r).nextDelivery
  {
    StepMoves(s, r, d);
  }

  // ---- Payments ----

  predicate SamePayee(a: Payment, b: Payment) {
    a.amount == b.amount && a.driverId == b.driverId
  }

  /** In t the payment p is a new, pending one for the freight d had in s. */
  predicate PaysFor(s: Rows, t: Rows, p: nat, d: nat) {
    && p !in s.payments && p in t.payments && d in s.deliveries && Link(p, d) in t.links
    && t.payments[p] == Payment(s.deliveries[d].valorFrete, s.deliveries[d].driverId, Pendente)
  }

  lemma StepPayments(s: Rows, r: Request, p: nat)
    requires Inv(s)
    ensures var t := Step(s, r);
      && (p in s.payments ==> p in t.payments && SamePayee(t.payments[p], s.payments[p]))
      && (p in t.payments && p !in s.payments ==> exists d :: PaysFor(s, t, p, d))
  {
    var t := Step(s, r);
    if p in t.payments && p !in s.payments {
      var d := if r.PayReq? then r.d else s.orders[r.id].deliveryId.value;
      assert PaysFor(s, t, p, d);
    }
  }

  /** Every payment was created by some request of the run, pending and linked, for the
      freight its delivery had at that moment, and still has that amount and driver. */
  lemma {:induction false} PaymentsKeepTheirAmount(rs: seq<Request>, p: nat) returns (i: nat, d: nat)
    requires p in Run(rs).payments
    ensures i < |rs| && PaysFor(Run(rs[..i]), Run(rs[..i + 1]), p, d)
    ensures SamePayee(Run(rs).payments[p], Run(rs[..i + 1]).payments[p])
  {
    var n := |rs| - 1;
    var s := Run(rs[..n]);
    RunKeeps(rs[..n]);
    StepPayments(s, rs[n], p);
    if p in s.payments {
      i, d := PaymentsKeepTheirAmount(rs[..n], p);
      assert rs[..n][..i] == rs[..i] && rs[..n][..i + 1] == rs[..i + 1];
    } else {
      i := n;
      d :| PaysFor(s, Run(rs), p, d);
      assert rs[..n + 1] == rs;
    }
  }

  /** No delivery of any run has more than one payment link; a finalised one has exactly one. */
  lemma LinkCounts(rs: seq<Request>, d: nat)
    ensures |LinksOf(Run(rs), d)| <= 1
    ensures StatusOf(Run(rs), d) == Some(Finalizado) ==> |LinksOf(Run(rs), d)| == 1
    ensures StatusOf(Run(rs), d) == None ==> LinksOf(Run(rs), d) == {}
  {
    RunKeeps(rs);
    ExactLinks(Run(rs), d);
  }
}
