/** The PostgreSQL database as the services see it: its tables, the open transaction of the request and
    a connection that can fail at any statement (pkg/database/transaction/with_tx.go). */
module Store {
  import opened Common
  import opened Schema

  /** Everything a rollback restores. The outbox sequence is not part of it. */
  datatype Tables = Tables(
    balances: Balances,
    movements: map<Id, Movement>,
    products: map<Id, Product>,
    warehouses: map<Id, Warehouse>,
    outbox: map<nat, OutboxRow>,
    audit: seq<AuditRow>)

  class Database {
    var balances: Balances
    var movements: map<Id, Movement>
    var products: map<Id, Product>
    var warehouses: map<Id, Warehouse>
    var outbox: map<nat, OutboxRow>
    var audit: seq<AuditRow>

    /** The next value of the BIGSERIAL behind outbox_events.id. */
    var nextOutboxId: nat

    /** The tables as they were when the open transaction began. */
    var saved: Option<Tables>

    /** The stock_balances rows that the open transaction has locked, in order. */
    ghost var locked: seq<Key>

    /** How many more statements the connection serves before it fails. */
    var budget: nat

    constructor ()
      ensures Content() == Tables(map[], map[], map[], map[], map[], []) && saved == None
    {
      balances, movements, products, warehouses := map[], map[], map[], map[];
      outbox, audit, nextOutboxId := map[], [], 1;
      saved, budget, locked := None, 0, [];
    }

    function Content(): Tables
      reads this
    {
      Tables(balances, movements, products, warehouses, outbox, audit)
    }

    /** One statement: it fails when the connection is used up. */
    method Statement() returns (ok: bool)
      modifies this`budget
      ensures ok <==> old(budget) > 0
      ensures budget == if ok then old(budget) - 1 else 0
    {
      ok := budget > 0;
      if ok {
        budget := budget - 1;
      }
    }

    /** RunInTx opens a transaction unless the context already carries one. */
    method Begin() returns (owner: bool)
      modifies this`saved, this`locked
      ensures owner <==> old(saved).None?
      ensures locked == if owner then [] else old(locked)
      ensures saved == if owner then Some(Content()) else old(saved)
    {
      owner := saved.None?;
      if owner {
        saved, locked := Some(Content()), [];
      }
    }

    /** RunInTx ends the transaction it opened: commit when the callback succeeded, otherwise, or when
        the commit itself fails, roll back. A reused transaction is left to its owner. */
    method End(owner: bool, succeeded: bool) returns (committed: bool)
      requires owner ==> saved.Some?
      modifies this`balances, this`movements, this`products, this`warehouses, this`outbox, this`audit,
               this`saved, this`budget, this`locked
      ensures locked == if owner then [] else old(locked)
      ensures !owner ==> committed == succeeded && Content() == old(Content()) && saved == old(saved)
      ensures owner ==> saved == None && (committed <==> succeeded && old(budget) > 0)
      ensures owner ==> Content() == if committed then old(Content()) else old(saved).value
      ensures old(budget) - 1 <= budget <= old(budget)
    {
      committed := succeeded;
      if owner {
        if succeeded {
          committed := Statement();
        }
        if !committed {
          var t := saved.value;
          balances, movements, products := t.balances, t.movements, t.products;
          warehouses, outbox, audit := t.warehouses, t.outbox, t.audit;
        }
        saved, locked := None, [];
      }
    }
  }
}
