/**
 * Stock levels and the movement ledger
 * (backend/src/modules/inventory/stockMovements/services.ts). A call is one transaction: it
 * applies, or both tables are as before.
 */
module Stock {
  import opened Prelude

  datatype MovementType = In | Out | TransferIn | TransferOut | Adjust | Count | Scrap

  datatype Key = Key(product: nat, warehouse: nat)

  datatype Movement = Movement(kind: MovementType, key: Key, quantity: int)

  datatype Tables = Tables(levels: map<Key, int>, ledger: seq<Movement>, products: set<nat>, warehouses: set<nat>)

  function ComputeDelta(kind: MovementType, quantity: int): int {
    match kind
    case In => quantity
    case TransferIn => quantity
    case Count => quantity
    case Out => -quantity
    case TransferOut => -quantity
    case Scrap => -quantity
    case Adjust => -quantity
  }

  function Delta(m: Movement): int { ComputeDelta(m.kind, m.quantity) }

  /** Level after the upsert: a missing row is created with the delta clamped at zero. */
  function NewLevel(levels: map<Key, int>, m: Movement): int {
    if m.key in levels then levels[m.key] + Delta(m)
    else if Delta(m) >= 0 then Delta(m) else 0
  }

  datatype Reply = Reply(tables: Tables, result: Result<()>)

  function Move(t: Tables, m: Movement): Reply {
    if m.key.product !in t.products || m.key.warehouse !in t.warehouses then Reply(t, Err(NotFound))
    else if NewLevel(t.levels, m) < 0 then Reply(t, Err(Unprocessable))
    else Reply(t.(levels := t.levels[m.key := NewLevel(t.levels, m)], ledger := t.ledger + [m]), Ok(()))
  }

  /** Both halves in one transaction. */
  function Transfer(t: Tables, product: nat, source: nat, target: nat, quantity: int): Reply {
    if product !in t.products || source !in t.warehouses || target !in t.warehouses then Reply(t, Err(NotFound))
    else if source == target then Reply(t, Err(BadRequest))
    else
      var out := Move(t, Movement(TransferOut, Key(product, source), quantity));
      if out.result.Err? then Reply(t, out.result)
      else
        var both := Move(out.tables, Movement(TransferIn, Key(product, target), quantity));
        if both.result.Err? then Reply(t, both.result) else both
  }

  datatype Event =
    | MoveEvent(movement: Movement)
    | TransferEvent(product: nat, source: nat, target: nat, quantity: int)

  function Step(t: Tables, e: Event): Reply {
    match e
    case MoveEvent(m) => Move(t, m)
    case TransferEvent(product, source, target, quantity) => Transfer(t, product, source, target, quantity)
  }

  function Exec(t: Tables, run: seq<Event>): Tables
    decreases |run|
  {
    if run == [] then t else Exec(Step(t, run[0]).tables, run[1..])
  }

  /* ── The service in its own form ────────────────────────────────────── */

  class StockService {
    var levels: map<Key, int>
    var ledger: seq<Movement>
    const products: set<nat>
    const warehouses: set<nat>

    constructor (products: set<nat>, warehouses: set<nat>)
      ensures State() == Tables(map[], [], products, warehouses)
    {
      this.levels, this.ledger, this.products, this.warehouses := map[], [], products, warehouses;
    }

    function State(): Tables
      reads this
    {
      Tables(levels, ledger, products, warehouses)
    }

    /** Throws after writing when the level went negative; the caller's transaction then rolls back. */
    method MoveInTx(m: Movement) returns (result: Result<()>)
      modifies this`levels, this`ledger
      ensures result == Move(old(State()), m).result
      ensures result.Ok? ==> State() == Move(old(State()), m).tables
      ensures result.Ok? && m.key in old(levels) ==>
        levels[m.key] == old(levels)[m.key] + if m.kind in {In, TransferIn, Count} then m.quantity else -m.quantity
    {
      if m.key.product !in products {
        return Err(NotFound);
      }
      if m.key.warehouse !in warehouses {
        return Err(NotFound);
      }
      var delta := ComputeDelta(m.kind, m.quantity);
      if m.key in levels {
        levels := levels[m.key := levels[m.key] + delta];
      } else {
        levels := levels[m.key := if delta >= 0 then delta else 0];
      }
      if levels[m.key] < 0 {
        return Err(Unprocessable);
      }
      ledger := ledger + [m];
      result := Ok(());
    }

    method Create(m: Movement) returns (result: Result<()>)
      modifies this`levels, this`ledger
      ensures Reply(State(), result) == Move(old(State()), m)
    {
      var savedLevels, savedLedger := levels, ledger;
      result := MoveInTx(m);
      if result.Err? {
        levels, ledger := savedLevels, savedLedger;
      }
    }

    method TransferStock(product: nat, source: nat, target: nat, quantity: int) returns (result: Result<()>)
      modifies this`levels, this`ledger
      ensures Reply(State(), result) == Transfer(old(State()), product, source, target, quantity)
    {
      if product !in products || source !in warehouses || target !in warehouses {
        return Err(NotFound);
      }
      if source == target {
        return Err(BadRequest);
      }
      var savedLevels, savedLedger := levels, ledger;
      result := MoveInTx(Movement(TransferOut, Key(product, source), quantity));
      if result.Ok? {
        result := MoveInTx(Movement(TransferIn, Key(product, target), quantity));
      }
      if result.Err? {
        levels, ledger := savedLevels, savedLedger;
      }
    }
  }
}
