/** The insert-once table behind one-shot consumption and publication intents
    (approval/repository.py, publication/repository.py). The durable stores read, insert, and
    on a duplicate key roll back, re-read and reconcile; other clients may act in between.
    The in-memory stores do the same in one step. Every interleaving of the former is shown
    to be an execution of the latter. */
module InsertOnce {

  /** A row keyed by its decision id; `fingerprint` is what reconciliation compares. */
  datatype Row<V> = Row(key: string, fingerprint: string, body: V)

  type Table<V> = map<string, Row<V>>

  datatype Outcome<V> =
    | Inserted(row: Row<V>)  // the caller's own row is now durable
    | Existing(row: Row<V>)  // an earlier row for the same target is returned
    | Conflict               // an earlier row names another target
    | Vanished               // a duplicate key with no row behind it: the error is re-raised
  {
    ghost predicate Returns(r: Row<V>) {
      (Inserted? || Existing?) && row == r
    }
  }

  /** `_reconcile`, and the comparison inlined in `record_consumption`. */
  function Reconcile<V>(existing: Row<V>, row: Row<V>): Outcome<V> {
    if existing.fingerprint != row.fingerprint then Conflict else Existing(existing)
  }

  /** The in-memory operation. */
  function Put<V>(table: Table<V>, row: Row<V>): (Table<V>, Outcome<V>) {
    if row.key in table then (table, Reconcile(table[row.key], row))
    else (table[row.key := row], Inserted(row))
  }

  // ------------------------------------------------------------------ interleaved clients

  datatype Client<V> =
    | Idle
    | Selecting(row: Row<V>)
    | Inserting(row: Row<V>)
    | Reselecting(row: Row<V>)

  datatype Completion<V> = Completion(client: nat, row: Row<V>, outcome: Outcome<V>)

  /** `done` lists the calls that have returned, in the order of their last statement. */
  datatype State<V> = State(table: Table<V>, clients: map<nat, Client<V>>, done: seq<Completion<V>>) {
    function At(c: nat): Client<V> {
      if c in clients then clients[c] else Idle
    }

    function To(c: nat, next: Client<V>): State<V> {
      this.(clients := clients[c := next])
    }

    function Finish(c: nat, row: Row<V>, outcome: Outcome<V>): State<V> {
      To(c, Idle).(done := done + [Completion(c, row, outcome)])
    }
  }

  datatype Step<V> =
    | Begin(client: nat, row: Row<V>)
    | Go(client: nat)
    | Crash(client: nat)

  /** One statement of one client; a step that is not enabled changes nothing. */
  function Apply<V>(s: State<V>, step: Step<V>): State<V> {
    match step
    case Begin(c, row) => if s.At(c).Idle? then s.To(c, Selecting(row)) else s
    case Crash(c) => s.To(c, Idle)
    case Go(c) =>
      match s.At(c)
      case Idle => s
      case Selecting(row) =>
        if row.key in s.table then s.Finish(c, row, Reconcile(s.table[row.key], row))
        else s.To(c, Inserting(row))
      case Inserting(row) =>
        if row.key in s.table then s.To(c, Reselecting(row))
        else s.(table := s.table[row.key := row]).Finish(c, row, Inserted(row))
      case Reselecting(row) =>
        if row.key in s.table then s.Finish(c, row, Reconcile(s.table[row.key], row))
        else s.Finish(c, row, Vanished)
  }

  function Run<V>(steps: seq<Step<V>>): State<V> {
    if steps == [] then State(map[], map[], [])
    else Apply(Run(steps[..|steps| - 1]), steps[|steps| - 1])
  }

  // ------------------------------------------------------------------ linearizability

  /** The table after the in-memory operation has served `calls` one after the other. */
  function Serve<V>(calls: seq<Completion<V>>): Table<V> {
    if calls == [] then map[]
    else Put(Serve(calls[..|calls| - 1]), calls[|calls| - 1].row).0
  }

  /** Every call returned what the in-memory operation returns when the calls are served in
      the order in which they finished. */
  ghost predicate ServedInOrder<V>(calls: seq<Completion<V>>) {
    forall i :: 0 <= i < |calls| ==> Put(Serve(calls[..i]), calls[i].row).1 == calls[i].outcome
  }

  ghost predicate RereadsFindARow<V>(s: State<V>) {
    forall c :: c in s.clients && s.clients[c].Reselecting? ==> s.clients[c].row.key in s.table
  }

  lemma ServeOneMore<V>(calls: seq<Completion<V>>, last: Completion<V>)
    requires ServedInOrder(calls)
    requires Put(Serve(calls), last.row).1 == last.outcome
    ensures ServedInOrder(calls + [last])
    ensures Serve(calls + [last]) == Put(Serve(calls), last.row).0
  {
    var all := calls + [last];
    assert all[..|calls|] == calls;
    forall i | 0 <= i < |all| ensures Put(Serve(all[..i]), all[i].row).1 == all[i].outcome {
      if i < |calls| {
        assert all[..i] == calls[..i];
      }
    }
  }

  /** A step finishes no call, or one call, which it serves as the in-memory operation does. */
  lemma StepServes<V>(s: State<V>, step: Step<V>)
    requires RereadsFindARow(s)
    ensures RereadsFindARow(Apply(s, step))
    ensures var t := Apply(s, step);
      || (t.done == s.done && t.table == s.table)
      || (exists last :: t.done == s.done + [last] && Put(s.table, last.row) == (t.table, last.outcome))
  {
    match step
    case Begin(_, _) =>
    case Crash(_) =>
    case Go(c) =>
      var t := Apply(s, step);
      if t.done != s.done {
        var last := t.done[|s.done|];
        assert t.done == s.done + [last];
      }
  }

  ghost predicate Linear<V>(s: State<V>) {
    && Serve(s.done) == s.table
    && ServedInOrder(s.done)
    && RereadsFindARow(s)
  }

  /** For every interleaving of any number of clients, with crashes between statements: the
      finished calls, in the order they finished, are an execution of the in-memory
      operation that ends in the same table. A call that finished before another began stands
      before it in this order. */
  lemma {:induction false} Linearizable<V>(steps: seq<Step<V>>)
    ensures Linear(Run(steps))
  {
    if steps != [] {
      var before := steps[..|steps| - 1];
      Linearizable(before);
      var s, t := Run(before), Run(steps);
      StepServes(s, steps[|steps| - 1]);
      if t.done != s.done {
        var last :| t.done == s.done + [last] && Put(s.table, last.row) == (t.table, last.outcome);
        ServeOneMore(s.done, last);
      }
    }
  }

  /** Rows are never changed or removed. */
  lemma {:induction false} RowsAreFinal<V>(steps: seq<Step<V>>, more: seq<Step<V>>, key: string)
    requires key in Run(steps).table
    ensures key in Run(steps + more).table
    ensures Run(steps + more).table[key] == Run(steps).table[key]
  {
    if more == [] {
      assert steps + more == steps;
    } else {
      var n := |more| - 1;
      RowsAreFinal(steps, more[..n], key);
      assert (steps + more)[..|steps| + n] == steps + more[..n];
    }
  }

  ghost predicate Agrees<V>(table: Table<V>, call: Completion<V>) {
    && call.row.key in table
    && (call.outcome.Conflict? <==> table[call.row.key].fingerprint != call.row.fingerprint)
    && (!call.outcome.Conflict? ==> call.outcome.Returns(table[call.row.key]))
  }

  /** Exactly one row survives for each key that was ever served: every call that returns
      normally returns that row, a call fails exactly when its target differs from the
      surviving one, and no call meets a duplicate key without a row. */
  lemma {:induction false} EveryCallAgreesWithTheRow<V>(steps: seq<Step<V>>, i: nat)
    requires i < |Run(steps).done|
    ensures Agrees(Run(steps).table, Run(steps).done[i])
  {
    var before, step := steps[..|steps| - 1], steps[|steps| - 1];
    Linearizable(before);
    var s := Run(before);
    StepServes(s, step);
    if i < |s.done| {
      EveryCallAgreesWithTheRow(before, i);
      RowsAreFinal(before, [step], s.done[i].row.key);
      assert before + [step] == steps;
    }
  }

  /** For each key one call, and no other, inserted the surviving row. */
  lemma {:induction false} OneInsertPerKey<V>(steps: seq<Step<V>>, i: nat, j: nat)
    requires i < j < |Run(steps).done|
    requires Run(steps).done[i].row.key == Run(steps).done[j].row.key
    ensures !Run(steps).done[j].outcome.Inserted?
  {
    var s := Run(steps);
    Linearizable(steps);
    ServedKeysStay(s.done[..j], i);
    assert s.done[..j][i] == s.done[i];
  }

  lemma {:induction false} ServedKeysStay<V>(calls: seq<Completion<V>>, i: nat)
    requires i < |calls|
    ensures calls[i].row.key in Serve(calls)
  {
    var n := |calls| - 1;
    if i < n {
      ServedKeysStay(calls[..n], i);
      assert calls[..n][i] == calls[i];
    }
  }
}
