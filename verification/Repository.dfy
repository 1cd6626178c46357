/** The in-memory run and the database session the engine mutates
    (`WorkflowRun` of `backend/app/workflows/engine.py`, `backend/app/services/workflow_repository.py`). */
module Repository {
  import opened Collections
  import opened Graphs
  import opened Conditions
  import opened Plans
  import opened Protocol

  class WorkflowRun {
    var outputs: map<Key, Output>
    var skipped: map<Key, string>
    var attempts: map<Key, nat>
    var pending: map<Key, string>
    var repairs: map<Key, nat>
    var totalCost: Usd

    function State(): Run
      reads this
    {
      Run(outputs, skipped, attempts, pending, repairs, totalCost)
    }

    constructor Fresh()
      ensures State() == FRESH_RUN
    {
      outputs, skipped, attempts, pending, repairs, totalCost := map[], map[], map[], map[], map[], 0.0;
    }

    /** `restore_run`: payloads, skips and attempt counts, and nothing else. */
    constructor Restore(results: map<Key, Json>, skips: map<Key, string>, used: map<Key, nat>)
      ensures State() == FRESH_RUN.(
        outputs := map k | k in results :: Output(Succeeded, results[k], 0.0, 1, true), skipped := skips,
            attempts := used)
    {
      outputs := map k | k in results :: Output(Succeeded, results[k], 0.0, 1, true);
      skipped, attempts, pending, repairs, totalCost := skips, used, map[], map[], 0.0;
    }
  }

  class WorkflowRepository {
    var status: WorkflowStatus
    var rows: Rows
    var cost: Usd
    var cancelRequested: bool
    /** What other sessions, and this process after a crash, can see. */
    var durable: Store

    function Session(): Store
      reads this
    {
      Store(status, rows, cost, cancelRequested)
    }

    /** `create_workflow`, committed. */
    constructor Create(plan: Plan)
      ensures Session() == durable == Created(plan).store
    {
      status, rows, cost, cancelRequested := Pending, map k | k in NodeKeys(plan) :: NEW_ROW, 0.0, false;
      durable := Store(Pending, map k | k in NodeKeys(plan) :: NEW_ROW, 0.0, false);
    }

    method Commit()
      modifies this`durable
      ensures durable == Session()
    {
      durable := Session();
    }

    method Rollback()
      modifies this
      ensures durable == old(durable) && Session() == durable
    {
      status, rows, cost, cancelRequested := durable.status, durable.rows, durable.cost, durable.cancelRequested;
    }

    /** `request_cancellation`, made and committed by another session. */
    method RequestCancellation() returns (accepted: bool)
      modifies this`cancelRequested, this`durable
      ensures accepted == (old(durable).status !in {Finished, Broken, Stopped})
      ensures cancelRequested == (old(cancelRequested) || accepted)
      ensures durable == if accepted then old(durable).(cancelRequested := true) else old(durable)
    {
      accepted := durable.status !in {Finished, Broken, Stopped};
      if accepted {
        cancelRequested := true;
        durable := durable.(cancelRequested := true);
      }
    }

    method SetStatus(s: WorkflowStatus)
      modifies this`status
      ensures status == s
    {
      status := s;
    }

    method SetNodeStatus(key: Key, s: NodeStatus)
      requires key in rows
      modifies this`rows
      ensures rows == old(rows)[key := old(rows)[key].(status := s)]
    {
      rows := rows[key := rows[key].(status := s)];
    }

    method SkipNode(key: Key, reason: string, byHuman: bool)
      requires key in rows
      modifies this`rows
      ensures rows == old(rows)[key := SkipRow(old(rows)[key], reason, byHuman)]
    {
      rows := rows[key := rows[key].(status := Skipped, skipReason := Some(reason), byHuman := byHuman)];
    }

    method RecordExecution(key: Key, out: Output, upstream: seq<Upstream>)
      requires key in rows
      modifies this`rows, this`cost
      ensures rows == old(rows)[key := RecordOne(old(rows)[key], out, upstream)]
      ensures cost == old(cost) + out.cost
    {
      var row := rows[key];
      row := row.(attempts := Max(row.attempts, out.attempt),
                  log := row.log + [LogEntry(out.attempt, out.status, out.cost)]);
      if out.status == Succeeded {
        row := row.(status := Completed, payload := out.payload, basis := upstream);
      } else if out.status == Aborted {
        row := row.(status := Cancelled);
      }
      rows := rows[key := row];
      cost := cost + out.cost;
    }

    method ReopenNode(key: Key)
      requires key in rows
      modifies this`rows
      ensures rows == old(rows)[key := ReopenRow(old(rows)[key])]
    {
      rows := rows[key := rows[key].(status := Waiting, payload := JObj(map[]), skipReason := None,
                                     basis := [], byHuman := false)];
    }

    /** Reopens every node of `keys`. */
    method ReopenNodes(keys: set<Key>)
      requires keys <= rows.Keys
      modifies this`rows
      ensures rows == ReopenedRows(old(rows), keys)
    {
      var todo := keys;
      while todo != {}
        invariant todo <= keys && rows.Keys == old(rows).Keys
        invariant forall k :: k in rows ==>
          rows[k] == if k in keys - todo then ReopenRow(old(rows)[k]) else old(rows)[k]
      {
        var k :| k in todo;
        ReopenNode(k);
        todo := todo - {k};
      }
    }

    method RecordApproval(key: Key, decision: Decision)
      requires key in rows
      modifies this`rows
      ensures rows == old(rows)[key := DecidedRow(old(rows)[key], decision)]
    {
      var row := rows[key].(approval := Some(decision));
      if decision.approved {
        row := row.(status := Waiting, skipReason := None);
      } else {
        row := row.(status := Skipped, skipReason := Some(decision.reason), byHuman := true);
      }
      rows := rows[key := row];
    }

    method CancelUnfinishedNodes()
      modifies this`rows
      ensures rows == CancelledRows(old(rows))
    {
      var todo := rows.Keys;
      while todo != {}
        invariant rows.Keys == old(rows).Keys && todo <= rows.Keys
        invariant forall k :: k in todo ==> rows[k] == old(rows)[k]
        invariant forall k :: k in rows && k !in todo ==> rows[k] == CancelledRows(old(rows))[k]
      {
        var k :| k in todo;
        if Unfinished(rows[k].status) {
          rows := rows[k := rows[k].(status := Cancelled)];
        }
        todo := todo - {k};
      }
    }

    method PrepareResume()
      modifies this`rows, this`cancelRequested
      ensures rows == ResumableRows(old(rows)) && !cancelRequested
    {
      cancelRequested := false;
      var todo := rows.Keys;
      while todo != {}
        invariant rows.Keys == old(rows).Keys && todo <= rows.Keys && !cancelRequested
        invariant forall k :: k in todo ==> rows[k] == old(rows)[k]
        invariant forall k :: k in rows && k !in todo ==> rows[k] == ResumableRows(old(rows))[k]
      {
        var k :| k in todo;
        if rows[k].status in {Cancelled, Running, Ready, Failed} {
          rows := rows[k := rows[k].(status := Waiting)];
        }
        todo := todo - {k};
      }
    }

    /** `completed_state`: results, skips and attempts used, read row by row. */
    method CompletedState() returns (results: map<Key, Json>, skips: map<Key, string>, used: map<Key, nat>)
      ensures View(results, skips) == StoredView(rows)
      ensures used == map k | k in rows :: rows[k].attempts
    {
      hide ReasonOf, StoredView;
      results, skips, used := map[], map[], map[];
      var todo := rows.Keys;
      NothingRead(rows);
      while todo != {}
        invariant todo <= rows.Keys
        invariant View(results, skips) == StoredView(ReadRows(rows, todo))
        invariant used == map k | k in ReadRows(rows, todo) :: rows[k].attempts
      {
        var k :| k in todo;
        ReadOneMore(rows, todo, k);
        used := used[k := rows[k].attempts];
        if rows[k].status == Completed {
          results := results[k := rows[k].payload];
        } else if rows[k].status == Skipped {
          skips := skips[k := ReasonOf(rows[k])];
        }
        todo := todo - {k};
      }
      assert ReadRows(rows, {}) == rows;
    }
  }

  /** The rows already read when those in `todo` are not. */
  function ReadRows(rows: Rows, todo: set<Key>): Rows {
    map k | k in rows && k !in todo :: rows[k]
  }

  lemma NothingRead(rows: Rows)
    ensures ReadRows(rows, rows.Keys) == map[] && StoredView(ReadRows(rows, rows.Keys)) == View(map[], map[])
  {
  }

  lemma ReadOneMore(rows: Rows, todo: set<Key>, k: Key)
    requires k in todo && k in rows
    ensures ReadRows(rows, todo - {k}) == ReadRows(rows, todo)[k := rows[k]]
    ensures var v := StoredView(ReadRows(rows, todo));
      StoredView(ReadRows(rows, todo - {k}))
      == View(if rows[k].status == Completed then v.results[k := rows[k].payload] else v.results,
              if rows[k].status == Skipped then v.skips[k := ReasonOf(rows[k])] else v.skips)
  {
    hide ReasonOf;
    var before, after := ReadRows(rows, todo), ReadRows(rows, todo - {k});
    assert after == before[k := rows[k]];
    RowAdds(before, k, rows[k]);
  }

  lemma RowAdds(rows: Rows, k: Key, row: Row)
    requires k !in rows
    ensures StoredView(rows[k := row]).results
         == if row.status == Completed then StoredView(rows).results[k := row.payload] else StoredView(rows).results
    ensures StoredView(rows[k := row]).skips
         == if row.status == Skipped then StoredView(rows).skips[k := ReasonOf(row)] else StoredView(rows).skips
  {
    hide ReasonOf;
  }
}
