/** Finishing requests of one delivery running at the same time, and requests to pay it by
    hand. A finishing request reads, writes its order, counts the unfinished ones and, when it
    counts none, finalises and pays as a payment by hand does; any other of these requests may
    run between two of the statements. */
module Finalisation {
  import opened Wrappers
  import opened Lifecycle
  import opened LifecycleInvariant
  import opened ExampleRuns

  datatype Phase = Reading | Writing | Counting | Finalising | CheckingLink | Inserting | Complete | Refused

  /** A driver's request to finish an order, with its reason when one is due. */
  datatype Finish = Finish(id: nat, to: OrderStatus)

  /** One phase for each finishing request and then one for each payment by hand. */
  datatype System = System(rows: Rows, phases: seq<Phase>)

  /** The checks made on the order as read. */
  predicate Accepts(s: Rows, d: nat, q: Finish) {
    && q.id in s.orders && s.orders[q.id].deliveryId == Some(d)
    && d in s.deliveries && s.deliveries[d].status == Iniciado
    && ValidTransition(s.orders[q.id].status, q.to)
  }

  /** The next statement of request i. With payAtomically the payment's check and insert are
      one statement, as a serialisable transaction would make them; in the code they are two. */
  function Advance(d: nat, qs: seq<Finish>, y: System, i: nat, payAtomically: bool): System {
    if i >= |y.phases| then y
    else
      var s := y.rows;
      match y.phases[i]
      case Reading =>
        if i >= |qs| then y else y.(phases := y.phases[i := if Accepts(s, d, qs[i]) then Writing else Refused])
      case Writing =>
        if i >= |qs| || qs[i].id !in s.orders then y
        else
          var o := s.orders[qs[i].id];
          System(s.(orders := s.orders[qs[i].id := o.(status := qs[i].to)]), y.phases[i := Counting])
      case Counting => y.(phases := y.phases[i := if AllFinished(s.orders, d) then Finalising else Complete])
      case Finalising =>
        if d !in s.deliveries then y
        else
          var e := s.deliveries[d];
          System(s.(deliveries := s.deliveries[d := e.(status := Finalizado)]), y.phases[i := CheckingLink])
      case CheckingLink =>
        if d !in s.deliveries || HasLink(s.links, d) then y.(phases := y.phases[i := Complete])
        else if payAtomically then System(InsertLink(s, d), y.phases[i := Complete])
        else y.(phases := y.phases[i := Inserting])
      case Inserting =>
        if d !in s.deliveries then y else System(InsertLink(s, d), y.phases[i := Complete])
      case Complete => y
      case Refused => y
  }

  /** A schedule names, statement by statement, the request that runs next. */
  function Execute(d: nat, qs: seq<Finish>, y: System, schedule: seq<nat>, payAtomically: bool): System
    decreases |schedule|
  {
    if schedule == [] then y
    else Execute(d, qs, Advance(d, qs, y, schedule[0], payAtomically), schedule[1..], payAtomically)
  }

  predicate Begun(d: nat, qs: seq<Finish>, s: Rows, y: System) {
    && y.rows == s && |y.phases| == |qs|
    && forall i :: 0 <= i < |qs| ==> y.phases[i] == Reading
  }

  /** One finishing request per order still in delivery, and no other order unfinished. */
  predicate OnePerOrder(d: nat, qs: seq<Finish>, s: Rows) {
    && qs != [] && d in s.deliveries && s.deliveries[d].status == Iniciado
    && (forall i, j :: 0 <= i < j < |qs| ==> qs[i].id != qs[j].id)
    && (forall i :: 0 <= i < |qs| ==>
          && Finished(qs[i].to) && qs[i].id in s.orders
          && s.orders[qs[i].id].deliveryId == Some(d) && s.orders[qs[i].id].status == EmEntrega)
    && (forall id :: id in s.orders && s.orders[id].deliveryId == Some(d) && !Finished(s.orders[id].status) ==>
          exists i :: 0 <= i < |qs| && qs[i].id == id)
  }

  predicate AllComplete(y: System) {
    forall i :: 0 <= i < |y.phases| ==> y.phases[i] == Complete || y.phases[i] == Refused
  }

  // ---- The invariant of every interleaving ----

  predicate Unwritten(p: Phase) {
    p == Reading || p == Writing
  }

  predicate AllWritten(ps: seq<Phase>) {
    forall i :: 0 <= i < |ps| ==> !Unwritten(ps[i])
  }

  predicate SomeIn(ps: seq<Phase>, p: Phase) {
    exists i :: 0 <= i < |ps| && ps[i] == p
  }

  /** What moving request i from its phase to another does to these. */
  lemma MovePhase(ps: seq<Phase>, i: nat, p: Phase)
    requires i < |ps|
    ensures SomeIn(ps[i := p], p)
    ensures forall q :: SomeIn(ps, q) && q != ps[i] ==> SomeIn(ps[i := p], q)
    ensures forall q :: SomeIn(ps[i := p], q) && q != p ==> SomeIn(ps, q)
    ensures AllWritten(ps) && !Unwritten(p) ==> AllWritten(ps[i := p])
    ensures AllWritten(ps[i := p]) && !Unwritten(ps[i]) ==> AllWritten(ps)
  {
    var rs := ps[i := p];
    assert rs[i] == p;
    forall q | SomeIn(ps, q) && q != ps[i] ensures SomeIn(rs, q) {
      var k :| 0 <= k < |ps| && ps[k] == q;
      assert rs[k] == q;
    }
    forall q | SomeIn(rs, q) && q != p ensures SomeIn(ps, q) {
      var k :| 0 <= k < |rs| && rs[k] == q;
      assert ps[k] == q;
    }
    if AllWritten(rs) && !Unwritten(ps[i]) {
      forall k | 0 <= k < |ps| ensures !Unwritten(ps[k]) {
        assert !Unwritten(rs[k]);
      }
    }
  }

  predicate AsWritten(o: Order, q: Finish, p: Phase) {
    p != Refused && o.status == if Unwritten(p) then EmEntrega else q.to
  }

  /** Orders carry what their own request has done so far; all else is as at the start. */
  predicate OrdersAsWritten(qs: seq<Finish>, s: Rows, orders: map<nat, Order>, ps: seq<Phase>) {
    && |ps| == |qs| && orders.Keys == s.orders.Keys
    && (forall id :: id in s.orders ==> orders[id].deliveryId == s.orders[id].deliveryId)
    && (forall i :: 0 <= i < |qs| ==> qs[i].id in orders && AsWritten(orders[qs[i].id], qs[i], ps[i]))
    && (forall id :: id in s.orders && !(exists i :: 0 <= i < |qs| && qs[i].id == id) ==> orders[id] == s.orders[id])
  }

  /** Nobody finalises before the last write; after it somebody is bound to, and to pay. */
  predicate Progress(status: DeliveryStatus, linked: bool, ps: seq<Phase>) {
    && (status == Iniciado || status == Finalizado)
    && (status == Finalizado || SomeIn(ps, Finalising) ==> AllWritten(ps))
    && (SomeIn(ps, CheckingLink) || SomeIn(ps, Inserting) ==> status == Finalizado)
    && (AllWritten(ps) ==> status == Finalizado || SomeIn(ps, Counting) || SomeIn(ps, Finalising))
    && (status == Finalizado ==> linked || SomeIn(ps, CheckingLink) || SomeIn(ps, Inserting))
  }

  predicate OnTrack(d: nat, qs: seq<Finish>, s: Rows, y: System) {
    && d in y.rows.deliveries
    && OrdersAsWritten(qs, s, y.rows.orders, y.phases)
    && Progress(y.rows.deliveries[d].status, HasLink(y.rows.links, d), y.phases)
  }

  lemma WrittenMeansFinished(d: nat, qs: seq<Finish>, s: Rows, orders: map<nat, Order>, ps: seq<Phase>)
    requires OnePerOrder(d, qs, s) && OrdersAsWritten(qs, s, orders, ps)
    ensures AllFinished(orders, d) <==> AllWritten(ps)
  {
  }

  /** A phase change that is not a write leaves the orders as written. */
  lemma MoveKeepsOrders(qs: seq<Finish>, s: Rows, orders: map<nat, Order>, ps: seq<Phase>, i: nat, p: Phase)
    requires OrdersAsWritten(qs, s, orders, ps) && i < |ps| && p != Refused && Unwritten(p) == Unwritten(ps[i])
    ensures OrdersAsWritten(qs, s, orders, ps[i := p])
  {
  }

  lemma WriteKeepsOrders(d: nat, qs: seq<Finish>, s: Rows, orders: map<nat, Order>, ps: seq<Phase>, i: nat)
    requires OnePerOrder(d, qs, s) && OrdersAsWritten(qs, s, orders, ps) && i < |ps| && qs[i].id in orders
    ensures OrdersAsWritten(qs, s, orders[qs[i].id := orders[qs[i].id].(status := qs[i].to)], ps[i := Counting])
  {
  }

  lemma AdvanceRead(d: nat, qs: seq<Finish>, s: Rows, y: System, i: nat, payAtomically: bool)
    requires OnePerOrder(d, qs, s) && OnTrack(d, qs, s, y) && i < |qs| && y.phases[i] == Reading
    ensures OnTrack(d, qs, s, Advance(d, qs, y, i, payAtomically))
  {
  }

  lemma AdvanceWrite(d: nat, qs: seq<Finish>, s: Rows, y: System, i: nat, payAtomically: bool)
    requires OnePerOrder(d, qs, s) && OnTrack(d, qs, s, y) && i < |qs| && y.phases[i] == Writing
    ensures OnTrack(d, qs, s, Advance(d, qs, y, i, payAtomically))
  {
    assert !AllWritten(y.phases);
    MovePhase(y.phases, i, Counting);
    WriteKeepsOrders(d, qs, s, y.rows.orders, y.phases, i);
  }

  lemma CountingProgresses(status: DeliveryStatus, linked: bool, ps: seq<Phase>, i: nat)
    requires Progress(status, linked, ps) && i < |ps| && ps[i] == Counting
    ensures Progress(status, linked, ps[i := if AllWritten(ps) then Finalising else Complete])
  {
    MovePhase(ps, i, if AllWritten(ps) then Finalising else Complete);
  }

  lemma AdvanceCount(d: nat, qs: seq<Finish>, s: Rows, y: System, i: nat, payAtomically: bool)
    requires OnePerOrder(d, qs, s) && OnTrack(d, qs, s, y) && i < |qs| && y.phases[i] == Counting
    ensures OnTrack(d, qs, s, Advance(d, qs, y, i, payAtomically))
  {
    WrittenMeansFinished(d, qs, s, y.rows.orders, y.phases);
    var p := if AllWritten(y.phases) then Finalising else Complete;
    assert Advance(d, qs, y, i, payAtomically) == y.(phases := y.phases[i := p]);
    CountingProgresses(y.rows.deliveries[d].status, HasLink(y.rows.links, d), y.phases, i);
    MoveKeepsOrders(qs, s, y.rows.orders, y.phases, i, p);
  }

  lemma AdvanceFinalise(d: nat, qs: seq<Finish>, s: Rows, y: System, i: nat, payAtomically: bool)
    requires OnTrack(d, qs, s, y) && i < |qs| && y.phases[i] == Finalising
    ensures OnTrack(d, qs, s, Advance(d, qs, y, i, payAtomically))
  {
  }

  lemma AdvancePay(d: nat, qs: seq<Finish>, s: Rows, y: System, i: nat, payAtomically: bool)
    requires OnTrack(d, qs, s, y) && i < |qs| && (y.phases[i] == CheckingLink || y.phases[i] == Inserting)
    ensures OnTrack(d, qs, s, Advance(d, qs, y, i, payAtomically))
  {
  }

  lemma AdvanceOnTrack(d: nat, qs: seq<Finish>, s: Rows, y: System, i: nat, payAtomically: bool)
    requires OnePerOrder(d, qs, s) && OnTrack(d, qs, s, y)
    ensures OnTrack(d, qs, s, Advance(d, qs, y, i, payAtomically))
  {
    if i < |qs| {
      match y.phases[i]
      case Reading => AdvanceRead(d, qs, s, y, i, payAtomically);
      case Writing => AdvanceWrite(d, qs, s, y, i, payAtomically);
      case Counting => AdvanceCount(d, qs, s, y, i, payAtomically);
      case Finalising => AdvanceFinalise(d, qs, s, y, i, payAtomically);
      case CheckingLink => AdvancePay(d, qs, s, y, i, payAtomically);
      case Inserting => AdvancePay(d, qs, s, y, i, payAtomically);
      case Complete =>
      case Refused =>
    }
  }

  lemma {:induction false} ExecuteOnTrack(d: nat, qs: seq<Finish>, s: Rows, y: System, schedule: seq<nat>,
                                          payAtomically: bool)
    requires OnePerOrder(d, qs, s) && OnTrack(d, qs, s, y)
    ensures OnTrack(d, qs, s, Execute(d, qs, y, schedule, payAtomically))
    decreases |schedule|
  {
    if schedule != [] {
      AdvanceOnTrack(d, qs, s, y, schedule[0], payAtomically);
      ExecuteOnTrack(d, qs, s, Advance(d, qs, y, schedule[0], payAtomically), schedule[1..], payAtomically);
    }
  }

  lemma BegunOnTrack(d: nat, qs: seq<Finish>, s: Rows, y: System)
    requires OnePerOrder(d, qs, s) && Begun(d, qs, s, y)
    ensures OnTrack(d, qs, s, y)
  {
    assert Unwritten(y.phases[0]);
    forall i | 0 <= i < |qs| ensures AsWritten(s.orders[qs[i].id], qs[i], y.phases[i]) {}
  }

  lemma NothingLost(d: nat, qs: seq<Finish>, s: Rows, z: System)
    requires OnePerOrder(d, qs, s) && OnTrack(d, qs, s, z) && AllComplete(z)
    ensures z.rows.deliveries[d].status == Finalizado && HasLink(z.rows.links, d)
    ensures forall i :: 0 <= i < |qs| ==> z.phases[i] == Complete && z.rows.orders[qs[i].id].status == qs[i].to
  {
    forall i | 0 <= i < |qs| ensures z.phases[i] == Complete {
      assert AsWritten(z.rows.orders[qs[i].id], qs[i], z.phases[i]);
    }
  }

  /** No finalisation is lost: under every interleaving that lets all requests run to their
      end, none was refused, every order is finished as asked, and the delivery is finalised
      and has a payment. */
  lemma NoLostFinalisation(d: nat, qs: seq<Finish>, s: Rows, y: System, schedule: seq<nat>, payAtomically: bool)
    requires OnePerOrder(d, qs, s) && Begun(d, qs, s, y)
    requires AllComplete(Execute(d, qs, y, schedule, payAtomically))
    ensures var z := Execute(d, qs, y, schedule, payAtomically);
      && d in z.rows.deliveries && z.rows.deliveries[d].status == Finalizado && HasLink(z.rows.links, d)
      && |z.phases| == |qs|
      && (forall i :: 0 <= i < |qs| ==>
            z.phases[i] == Complete && qs[i].id in z.rows.orders && z.rows.orders[qs[i].id].status == qs[i].to)
  {
    BegunOnTrack(d, qs, s, y);
    ExecuteOnTrack(d, qs, s, y, schedule, payAtomically);
    NothingLost(d, qs, s, Execute(d, qs, y, schedule, payAtomically));
  }

  /** And none comes early: while an order is unwritten the delivery is still started. */
  lemma NoEarlyFinalisation(d: nat, qs: seq<Finish>, s: Rows, y: System, schedule: seq<nat>, payAtomically: bool)
    requires OnePerOrder(d, qs, s) && Begun(d, qs, s, y)
    ensures var z := Execute(d, qs, y, schedule, payAtomically);
      d in z.rows.deliveries && (z.rows.deliveries[d].status == Iniciado || AllFinished(z.rows.orders, d))
  {
    BegunOnTrack(d, qs, s, y);
    ExecuteOnTrack(d, qs, s, y, schedule, payAtomically);
    var z := Execute(d, qs, y, schedule, payAtomically);
    WrittenMeansFinished(d, qs, s, z.rows.orders, z.phases);
  }

  // ---- Exactly one payment ----

  lemma InsertKeeps(s: Rows, d: nat)
    requires InvBut(s, Some(d)) && d in s.deliveries && !HasLink(s.links, d)
    ensures InvBut(InsertLink(s, d), Some(d))
  {
  }

  lemma FinalisingFits(s: Rows, d: nat)
    requires InvBut(s, Some(d)) && d in s.deliveries && AllFinished(s.orders, d)
    ensures InvBut(s.(deliveries := s.deliveries[d := s.deliveries[d].(status := Finalizado)]), Some(d))
  {
  }

  /** No two requests can be between the payment's check and its insert. */
  predicate PaysOnce(qs: seq<Finish>, linked: bool, ps: seq<Phase>, payAtomically: bool) {
    && (payAtomically || linked || |qs| == 1)
    && (SomeIn(ps, Inserting) ==> !payAtomically && !linked && |qs| == 1)
  }

  lemma MovePays(d: nat, qs: seq<Finish>, y: System, i: nat, payAtomically: bool)
    requires i < |qs| == |y.phases| && y.phases[i] != Inserting
    requires PaysOnce(qs, HasLink(y.rows.links, d), y.phases, payAtomically)
    ensures var z := Advance(d, qs, y, i, payAtomically);
      PaysOnce(qs, HasLink(z.rows.links, d), z.phases, payAtomically)
  {
    var z := Advance(d, qs, y, i, payAtomically);
    if SomeIn(z.phases, Inserting) {
      MovePhase(y.phases, i, z.phases[i]);
    }
  }

  lemma InsertPays(d: nat, qs: seq<Finish>, y: System, i: nat, payAtomically: bool)
    requires i < |qs| == |y.phases| && y.phases[i] == Inserting && d in y.rows.deliveries
    requires PaysOnce(qs, HasLink(y.rows.links, d), y.phases, payAtomically)
    ensures !HasLink(y.rows.links, d)
    ensures var z := Advance(d, qs, y, i, payAtomically);
      PaysOnce(qs, HasLink(z.rows.links, d), z.phases, payAtomically)
  {
    assert SomeIn(y.phases, Inserting);
    var z := Advance(d, qs, y, i, payAtomically);
    assert z.phases == [Complete];
  }

  lemma WritingKeeps(d: nat, qs: seq<Finish>, s: Rows, y: System, i: nat)
    requires OnePerOrder(d, qs, s) && OnTrack(d, qs, s, y) && i < |qs| && y.phases[i] == Writing
    requires InvBut(y.rows, Some(d)) && qs[i].id in y.rows.orders
    ensures InvBut(y.rows.(orders := y.rows.orders[qs[i].id := y.rows.orders[qs[i].id].(status := qs[i].to)]), Some(d))
  {
    var orders := y.rows.orders[qs[i].id := y.rows.orders[qs[i].id].(status := qs[i].to)];
    assert AsWritten(y.rows.orders[qs[i].id], qs[i], y.phases[i]);
    assert y.rows.orders[qs[i].id].deliveryId == Some(d);
    forall id | id in orders ensures OrderOk(orders[id], y.rows.deliveries) {
      assert OrderOk(y.rows.orders[id], y.rows.deliveries);
    }
  }

  lemma AdvanceKeeps(d: nat, qs: seq<Finish>, s: Rows, y: System, i: nat, payAtomically: bool)
    requires OnePerOrder(d, qs, s) && OnTrack(d, qs, s, y) && i < |qs|
    requires InvBut(y.rows, Some(d)) && (y.phases[i] == Inserting ==> !HasLink(y.rows.links, d))
    ensures InvBut(Advance(d, qs, y, i, payAtomically).rows, Some(d))
  {
    match y.phases[i]
    case Writing => WritingKeeps(d, qs, s, y, i);
    case Finalising =>
      assert SomeIn(y.phases, Finalising);
      WrittenMeansFinished(d, qs, s, y.rows.orders, y.phases);
      FinalisingFits(y.rows, d);
    case CheckingLink =>
      if !HasLink(y.rows.links, d) {
        InsertKeeps(y.rows, d);
      }
    case Inserting =>
      InsertKeeps(y.rows, d);
    case _ =>
  }

  lemma {:induction false} ExecuteKeeps(d: nat, qs: seq<Finish>, s: Rows, y: System, schedule: seq<nat>,
                                        payAtomically: bool)
    requires OnePerOrder(d, qs, s) && OnTrack(d, qs, s, y) && InvBut(y.rows, Some(d))
    requires PaysOnce(qs, HasLink(y.rows.links, d), y.phases, payAtomically)
    ensures InvBut(Execute(d, qs, y, schedule, payAtomically).rows, Some(d))
    decreases |schedule|
  {
    if schedule != [] {
      var i := schedule[0];
      if i < |qs| {
        if y.phases[i] == Inserting {
          InsertPays(d, qs, y, i, payAtomically);
        } else {
          MovePays(d, qs, y, i, payAtomically);
        }
        AdvanceOnTrack(d, qs, s, y, i, payAtomically);
        AdvanceKeeps(d, qs, s, y, i, payAtomically);
      }
      ExecuteKeeps(d, qs, s, Advance(d, qs, y, i, payAtomically), schedule[1..], payAtomically);
    }
  }

  lemma NobodyInserting(qs: seq<Finish>, y: System)
    requires |y.phases| == |qs| && forall i :: 0 <= i < |qs| ==> y.phases[i] == Reading
    ensures !SomeIn(y.phases, Inserting)
  {
  }

  /** Interleaved finishing requests end in a state that satisfies the whole invariant, if
      the delivery had a payment before, or only one request runs, or the payment's check and
      insert are one transaction. */
  lemma InterleavedKeepsInv(d: nat, qs: seq<Finish>, s: Rows, y: System, schedule: seq<nat>, payAtomically: bool)
    requires Inv(s) && OnePerOrder(d, qs, s) && Begun(d, qs, s, y)
    requires payAtomically || HasLink(s.links, d) || |qs| == 1
    requires AllComplete(Execute(d, qs, y, schedule, payAtomically))
    ensures Inv(Execute(d, qs, y, schedule, payAtomically).rows)
  {
    BegunOnTrack(d, qs, s, y);
    NobodyInserting(qs, y);
    ExecuteKeeps(d, qs, s, y, schedule, payAtomically);
    NoLostFinalisation(d, qs, s, y, schedule, payAtomically);
  }

  // ---- More than one ----

  /** Every request from k on, one statement each. */
  function Sweep(k: nat, n: nat): seq<nat>
    decreases n - k
  {
    if k >= n then [] else [k] + Sweep(k + 1, n)
  }

  /** All requests in turn, a statement each, for a number of rounds. */
  function RoundRobin(n: nat, rounds: nat): seq<nat> {
    if rounds == 0 then [] else RoundRobin(n, rounds - 1) + Sweep(0, n)
  }

  lemma {:induction false} ExecuteBoth(d: nat, qs: seq<Finish>, y: System, a: seq<nat>, b: seq<nat>,
                                       payAtomically: bool)
    ensures Execute(d, qs, y, a + b, payAtomically)
         == Execute(d, qs, Execute(d, qs, y, a, payAtomically), b, payAtomically)
    decreases |a|
  {
    if a == [] {
      assert a + b == b;
    } else {
      assert (a + b)[1..] == a[1..] + b;
      ExecuteBoth(d, qs, Advance(d, qs, y, a[0], payAtomically), a[1..], b, payAtomically);
    }
  }

  // ---- Any finishing requests and payments by hand ----

  /** Requests that finish the last orders of the delivery, perhaps several for one order. */
  predicate LastOrders(d: nat, qs: seq<Finish>, s: Rows) {
    && d in s.deliveries
    && (forall i :: 0 <= i < |qs| ==> Finished(qs[i].to) && Accepts(s, d, qs[i]))
    && (qs != [] ==> Covered(d, qs, s.orders, 0))
  }

  /** The orders still unfinished are those of the requests from k on. */
  predicate Covered(d: nat, qs: seq<Finish>, orders: map<nat, Order>, k: nat) {
    forall id :: id in orders && orders[id].deliveryId == Some(d) && !Finished(orders[id].status) ==>
      exists i :: k <= i < |qs| && qs[i].id == id
  }

  /** A payment by hand begins with the check for a link. */
  predicate BegunWith(qs: seq<Finish>, payers: nat, s: Rows, y: System) {
    && y.rows == s && |y.phases| == |qs| + payers
    && forall i :: 0 <= i < |y.phases| ==> y.phases[i] == if i < |qs| then Reading else CheckingLink
  }

  /** The phases of a request that finds everything done but the finalisation. */
  function PhaseAt(round: nat): Phase {
    if round == 0 then Reading
    else if round == 1 then Writing
    else if round == 2 then Counting
    else if round == 3 then Finalising
    else if round == 4 then CheckingLink
    else if round == 5 then Inserting
    else Complete
  }

  predicate NobodyPaid(d: nat, s: Rows, first: nat) {
    !HasLink(s.links, d) && s.nextPayment == first
  }

  /** Before the last round nobody has paid; in it the first k have, one after the other. */
  predicate PaidSoFar(d: nat, s: Rows, round: nat, k: nat, first: nat) {
    if round < 5 then NobodyPaid(d, s, first)
    else s.nextPayment == first + k && forall j :: first <= j < first + k ==> Link(j, d) in s.links
  }

  /** What the requests find in each round, when the first k have had their turn. */
  predicate Ready(d: nat, qs: seq<Finish>, s: Rows, round: nat, k: nat) {
    && d in s.deliveries
    && (forall i :: 0 <= i < |qs| ==>
          Finished(qs[i].to) && qs[i].id in s.orders && (round == 0 ==> Accepts(s, d, qs[i])))
    && (qs != [] && round == 0 ==> Covered(d, qs, s.orders, 0))
    && (qs != [] && round == 1 ==> Covered(d, qs, s.orders, k))
    && (qs != [] && round == 2 ==> AllFinished(s.orders, d))
  }

  lemma NextReady(d: nat, qs: seq<Finish>, s: Rows, round: nat)
    requires Ready(d, qs, s, round, |qs|)
    ensures Ready(d, qs, s, round + 1, 0)
  {
  }

  lemma WriteCovers(d: nat, qs: seq<Finish>, orders: map<nat, Order>, k: nat)
    requires k < |qs| && Finished(qs[k].to) && qs[k].id in orders && Covered(d, qs, orders, k)
    ensures Covered(d, qs, orders[qs[k].id := orders[qs[k].id].(status := qs[k].to)], k + 1)
  {
    var after := orders[qs[k].id := orders[qs[k].id].(status := qs[k].to)];
    forall id | id in after && after[id].deliveryId == Some(d) && !Finished(after[id].status)
      ensures exists i :: k + 1 <= i < |qs| && qs[i].id == id
    {
      assert id != qs[k].id;
      var i :| k <= i < |qs| && qs[i].id == id;
      assert i != k;
    }
  }

  /** A request in step with the round goes on to the next. */
  lemma StepsAhead(d: nat, qs: seq<Finish>, y: System, round: nat, k: nat, first: nat)
    requires k < |y.phases| && y.phases[k] == PhaseAt(round) && round < 6 && (round < 4 ==> k < |qs|)
    requires Ready(d, qs, y.rows, round, k) && PaidSoFar(d, y.rows, round, k, first)
    ensures var z := Advance(d, qs, y, k, false);
      && z.phases == y.phases[k := PhaseAt(round + 1)]
      && Ready(d, qs, z.rows, round, k + 1) && PaidSoFar(d, z.rows, round, k + 1, first)
  {
    if round == 1 {
      WriteCovers(d, qs, y.rows.orders, k);
    }
  }

  predicate InRound(ps: seq<Phase>, from: nat, to: nat, round: nat) {
    to <= |ps| && forall i :: from <= i < to ==> ps[i] == PhaseAt(round)
  }

  predicate SameOutside(ps: seq<Phase>, before: seq<Phase>, from: nat, to: nat) {
    |ps| == |before| && forall i :: 0 <= i < |ps| && !(from <= i < to) ==> ps[i] == before[i]
  }

  lemma {:induction false} SweepAhead(d: nat, qs: seq<Finish>, y: System, round: nat, k: nat, n: nat, first: nat)
    requires k <= n && InRound(y.phases, k, n, round) && round < 6 && (round < 4 ==> n <= |qs|)
    requires Ready(d, qs, y.rows, round, k) && PaidSoFar(d, y.rows, round, k, first)
    ensures var z := Execute(d, qs, y, Sweep(k, n), false);
      && InRound(z.phases, k, n, round + 1) && SameOutside(z.phases, y.phases, k, n)
      && Ready(d, qs, z.rows, round, n) && PaidSoFar(d, z.rows, round, n, first)
    decreases n - k
  {
    if k < n {
      StepsAhead(d, qs, y, round, k, first);
      SweepAhead(d, qs, Advance(d, qs, y, k, false), round, k + 1, n, first);
    }
  }

  lemma {:induction false} RoundsAhead(d: nat, qs: seq<Finish>, payers: nat, s: Rows, y: System, rounds: nat)
    requires LastOrders(d, qs, s) && BegunWith(qs, payers, s, y) && !HasLink(s.links, d) && rounds <= 5
    ensures var z := Execute(d, qs, y, RoundRobin(|qs|, rounds), false);
      && |z.phases| == |qs| + payers && InRound(z.phases, 0, |qs|, rounds) && InRound(z.phases, |qs|, |z.phases|, 4)
      && Ready(d, qs, z.rows, rounds, 0) && NobodyPaid(d, z.rows, s.nextPayment)
  {
    if rounds > 0 {
      var before := Execute(d, qs, y, RoundRobin(|qs|, rounds - 1), false);
      RoundsAhead(d, qs, payers, s, y, rounds - 1);
      ExecuteBoth(d, qs, y, RoundRobin(|qs|, rounds - 1), Sweep(0, |qs|), false);
      SweepAhead(d, qs, before, rounds - 1, 0, |qs|, s.nextPayment);
      NextReady(d, qs, Execute(d, qs, before, Sweep(0, |qs|), false).rows, rounds - 1);
    }
  }

  /** The finishing requests take turns up to their insert, then the payments by hand check
      for a link, then everybody inserts. */
  function EachInTurn(finishers: nat, payers: nat): seq<nat> {
    RoundRobin(finishers, 5) + Sweep(finishers, finishers + payers) + Sweep(0, finishers + payers)
  }

  /** As the code is written, requests that run like this all find no link, and every one of
      them inserts its own payment. */
  lemma EachPays(d: nat, qs: seq<Finish>, payers: nat, s: Rows, y: System)
    requires LastOrders(d, qs, s) && BegunWith(qs, payers, s, y) && !HasLink(s.links, d)
    ensures var z := Execute(d, qs, y, EachInTurn(|qs|, payers), false);
      AllComplete(z) && forall j :: s.nextPayment <= j < s.nextPayment + |qs| + payers ==> Link(j, d) in z.rows.links
  {
    var n, all, first := |qs|, |qs| + payers, s.nextPayment;
    var finishing := Execute(d, qs, y, RoundRobin(n, 5), false);
    var checked := Execute(d, qs, finishing, Sweep(n, all), false);
    RoundsAhead(d, qs, payers, s, y, 5);
    ExecuteBoth(d, qs, y, RoundRobin(n, 5), Sweep(n, all), false);
    ExecuteBoth(d, qs, y, RoundRobin(n, 5) + Sweep(n, all), Sweep(0, all), false);
    SweepAhead(d, qs, finishing, 4, n, all, first);
    AllInserting(d, qs, finishing.phases, checked);
    SweepAhead(d, qs, checked, 5, 0, all, first);
  }

  lemma AllInserting(d: nat, qs: seq<Finish>, before: seq<Phase>, y: System)
    requires |before| == |y.phases| >= |qs| && InRound(before, 0, |qs|, 5)
    requires InRound(y.phases, |qs|, |y.phases|, 5) && SameOutside(y.phases, before, |qs|, |y.phases|)
    requires Ready(d, qs, y.rows, 4, |y.phases|)
    ensures InRound(y.phases, 0, |y.phases|, 5) && Ready(d, qs, y.rows, 5, 0)
  {
  }

  /** Whatever the schedule, once all requests are over the delivery has exactly one link. */
  ghost predicate AlwaysOneLink(d: nat, qs: seq<Finish>, y: System) {
    forall schedule :: AllComplete(Execute(d, qs, y, schedule, false)) ==>
      |LinksOf(Execute(d, qs, y, schedule, false).rows, d)| == 1
  }

  /** A delivery that has a link gets no other. */
  lemma {:induction false} ExecuteLinked(d: nat, qs: seq<Finish>, y: System, schedule: seq<nat>)
    requires HasLink(y.rows.links, d) && !SomeIn(y.phases, Inserting)
    ensures Execute(d, qs, y, schedule, false).rows.links == y.rows.links
    decreases |schedule|
  {
    if schedule != [] {
      var i := schedule[0];
      var z := Advance(d, qs, y, i, false);
      if i < |y.phases| {
        assert y.phases[i] != Inserting;
        MovePhase(y.phases, i, z.phases[i]);
        assert z.phases == y.phases[i := z.phases[i]];
      }
      ExecuteLinked(d, qs, z, schedule[1..]);
    }
  }

  lemma LinkedStaysAtOne(d: nat, qs: seq<Finish>, payers: nat, s: Rows, y: System, schedule: seq<nat>)
    requires Inv(s) && BegunWith(qs, payers, s, y) && HasLink(s.links, d)
    ensures |LinksOf(Execute(d, qs, y, schedule, false).rows, d)| == 1
  {
    var z := Execute(d, qs, y, schedule, false);
    ExecuteLinked(d, qs, y, schedule);
    ExactLinks(s, d);
    assert LinksOf(z.rows, d) == LinksOf(s, d);
    var l :| l in s.links && l.deliveryId == d;
    assert l in LinksOf(s, d);
  }

  /** A single payment by hand: no link until it inserts one. */
  lemma {:induction false} ExecutePayer(d: nat, y: System, schedule: seq<nat>, p: nat)
    requires |y.phases| == 1 && d in y.rows.deliveries
    requires match y.phases[0]
             case CheckingLink => NobodyPaid(d, y.rows, p)
             case Inserting => NobodyPaid(d, y.rows, p)
             case Complete => LinksOf(y.rows, d) == {Link(p, d)}
             case _ => false
    ensures var z := Execute(d, [], y, schedule, false); AllComplete(z) ==> LinksOf(z.rows, d) == {Link(p, d)}
    decreases |schedule|
  {
    if schedule != [] {
      var z := Advance(d, [], y, schedule[0], false);
      if schedule[0] == 0 && y.phases[0] == Inserting {
        assert forall l :: l in y.rows.links ==> l.deliveryId != d;
        assert LinksOf(z.rows, d) == {Link(p, d)};
      }
      ExecutePayer(d, z, schedule[1..], p);
    }
  }

  lemma AloneIsOne(d: nat, qs: seq<Finish>, payers: nat, s: Rows, y: System, schedule: seq<nat>)
    requires Inv(s) && LastOrders(d, qs, s) && BegunWith(qs, payers, s, y)
    requires |qs| + payers == 1 && !HasLink(s.links, d)
    requires AllComplete(Execute(d, qs, y, schedule, false))
    ensures |LinksOf(Execute(d, qs, y, schedule, false).rows, d)| == 1
  {
    if qs == [] {
      ExecutePayer(d, y, schedule, s.nextPayment);
    } else {
      assert Accepts(s, d, qs[0]);
      assert OnePerOrder(d, qs, s);
      assert Begun(d, qs, s, y);
      InterleavedKeepsInv(d, qs, s, y, schedule, false);
      NoLostFinalisation(d, qs, s, y, schedule, false);
      ExactLinks(Execute(d, qs, y, schedule, false).rows, d);
    }
  }

  /** Exactly when the code as it is written keeps to one payment: the delivery was paid
      before, or there is a single request, be it a finishing one or a payment by hand. */
  lemma ExactlyOneLinkIff(d: nat, qs: seq<Finish>, payers: nat, s: Rows, y: System)
    requires Inv(s) && LastOrders(d, qs, s) && BegunWith(qs, payers, s, y) && |qs| + payers >= 1
    ensures AlwaysOneLink(d, qs, y) <==> HasLink(s.links, d) || |qs| + payers == 1
  {
    if HasLink(s.links, d) {
      forall schedule ensures |LinksOf(Execute(d, qs, y, schedule, false).rows, d)| == 1 {
        LinkedStaysAtOne(d, qs, payers, s, y, schedule);
      }
    } else if |qs| + payers == 1 {
      forall schedule | AllComplete(Execute(d, qs, y, schedule, false))
        ensures |LinksOf(Execute(d, qs, y, schedule, false).rows, d)| == 1
      {
        AloneIsOne(d, qs, payers, s, y, schedule);
      }
    } else {
      EachPays(d, qs, payers, s, y);
      TwoLinks(Execute(d, qs, y, EachInTurn(|qs|, payers), false).rows, d, s.nextPayment, s.nextPayment + 1);
    }
  }

  lemma TwoLinks(s: Rows, d: nat, p: nat, q: nat)
    requires p != q && Link(p, d) in s.links && Link(q, d) in s.links
    ensures |LinksOf(s, d)| != 1
  {
    var one := {Link(p, d)};
    assert Link(q, d) in LinksOf(s, d) - one && Link(p, d) in LinksOf(s, d);
    assert |LinksOf(s, d)| == |one| + |LinksOf(s, d) - one|;
  }

  // ---- One request at a time ----

  function Repeat(i: nat, times: nat): seq<nat> {
    if times == 0 then [] else [i] + Repeat(i, times - 1)
  }

  function Thrice(d: nat, qs: seq<Finish>, y: System, i: nat): System {
    Advance(d, qs, Advance(d, qs, Advance(d, qs, y, i, false), i, false), i, false)
  }

  lemma RepeatOnce(d: nat, qs: seq<Finish>, y: System, i: nat, times: nat)
    requires times > 0
    ensures Execute(d, qs, y, Repeat(i, times), false)
      == Execute(d, qs, Advance(d, qs, y, i, false), Repeat(i, times - 1), false)
  {
  }

  lemma RepeatThrice(d: nat, qs: seq<Finish>, y: System, i: nat, times: nat)
    requires times >= 3
    ensures Execute(d, qs, y, Repeat(i, times), false)
      == Execute(d, qs, Thrice(d, qs, y, i), Repeat(i, times - 3), false)
  {
    RepeatOnce(d, qs, y, i, times);
    RepeatOnce(d, qs, Advance(d, qs, y, i, false), i, times - 1);
    RepeatOnce(d, qs, Advance(d, qs, Advance(d, qs, y, i, false), i, false), i, times - 2);
  }

  /** Reading, writing and counting alone. */
  lemma WriteAlone(d: nat, qs: seq<Finish>, y: System, i: nat)
    requires i < |qs| == |y.phases| && y.phases[i] == Reading
    ensures var s := y.rows;
      if !Accepts(s, d, qs[i]) then Thrice(d, qs, y, i) == System(s, y.phases[i := Refused])
      else
        var moved := s.(orders := s.orders[qs[i].id := s.orders[qs[i].id].(status := qs[i].to)]);
        var p := if AllFinished(moved.orders, d) then Finalising else Complete;
        Thrice(d, qs, y, i) == System(moved, y.phases[i := p])
  {
  }

  /** Finalising and paying alone. */
  lemma PayAlone(d: nat, qs: seq<Finish>, y: System, i: nat)
    requires i < |qs| == |y.phases| && d in y.rows.deliveries
    ensures y.phases[i] == Finalising ==> Thrice(d, qs, y, i) == System(Finalise(y.rows, d), y.phases[i := Complete])
    ensures y.phases[i] == Complete || y.phases[i] == Refused ==> Thrice(d, qs, y, i) == y
  {
  }

  /** A request whose statements all run before any other request's has exactly the effect
      of the atomic driver step. */
  lemma AloneIsAtomic(d: nat, qs: seq<Finish>, y: System, i: nat)
    requires i < |qs| && |y.phases| == |qs| && y.phases[i] == Reading
    requires d in y.rows.deliveries && qs[i].id in y.rows.orders && y.rows.orders[qs[i].id].deliveryId == Some(d)
    ensures var driver := y.rows.deliveries[d].driverId;
      var z := Execute(d, qs, y, Repeat(i, 6), false);
      && |z.phases| == |qs|
      && z.rows == Step(y.rows, DriverReq(driver, qs[i].id, qs[i].to, true))
      && (z.phases[i] == Refused <==> UpdateOrderStatus(y.rows, driver, qs[i].id, qs[i].to, true).Err?)
  {
    var counted := Thrice(d, qs, y, i);
    RepeatThrice(d, qs, y, i, 6);
    RepeatThrice(d, qs, counted, i, 3);
    WriteAlone(d, qs, y, i);
    PayAlone(d, qs, counted, i);
  }

  // ---- A reachable start ----

  const TWO_FINISHES: seq<Finish> := [Finish(0, Entregue), Finish(1, Entregue)]

  lemma TwoFinishesFit(s: Rows, qs: seq<Finish>)
    requires s.orders.Keys == {0, 1} && 0 in s.deliveries && s.deliveries[0].status == Iniciado
    requires forall id :: id in s.orders ==> s.orders[id].deliveryId == Some(0) && s.orders[id].status == EmEntrega
    requires |qs| == 2 && qs[0] == Finish(0, Entregue) && qs[1] == Finish(1, Entregue)
    ensures LastOrders(0, qs, s)
  {
    assert qs[0].id == 0 && qs[1].id == 1;
  }

  /** The situation in which every request pays is one that runs lead to. */
  lemma TwoInDelivery(rs: seq<Request>, qs: seq<Finish>, y: System)
    requires rs == TWO_IN_DELIVERY && qs == TWO_FINISHES && BegunWith(qs, 0, Run(rs), y)
    ensures LastOrders(0, qs, Run(rs)) && !AlwaysOneLink(0, qs, y)
  {
    TwoInDeliveryRows(rs);
    TwoFinishesFit(Run(rs), qs);
    RunKeeps(rs);
    ExactlyOneLinkIff(0, qs, 0, Run(rs), y);
  }
}
