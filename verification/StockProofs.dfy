/** The stock table against its ledger, over every run. */
module StockProofs {
  import opened Prelude
  import opened Stock

  /** What the ledger alone says the levels are: a key's first movement is clamped at zero. */
  function Replay(ledger: seq<Movement>): map<Key, int> {
    if ledger == [] then map[]
    else
      var levels, m := Replay(ledger[..|ledger| - 1]), ledger[|ledger| - 1];
      levels[m.key := if m.key in levels then levels[m.key] + Delta(m) else Max(Delta(m), 0)]
  }

  predicate Inv(t: Tables) {
    t.levels == Replay(t.ledger) && forall k :: k in t.levels ==> t.levels[k] >= 0
  }

  lemma StepKeepsInv(t: Tables, e: Event)
    requires Inv(t)
    ensures Inv(Step(t, e).tables)
    ensures Step(t, e).result.Err? ==> Step(t, e).tables == t
  {
    match e
    case MoveEvent(m) => MoveKeepsInv(t, m);
    case TransferEvent(product, source, target, quantity) =>
      var out := Movement(TransferOut, Key(product, source), quantity);
      MoveKeepsInv(t, out);
      MoveKeepsInv(Move(t, out).tables, Movement(TransferIn, Key(product, target), quantity));
  }

  lemma MoveKeepsInv(t: Tables, m: Movement)
    requires Inv(t)
    ensures Inv(Move(t, m).tables)
  {
    assert (t.ledger + [m])[..|t.ledger|] == t.ledger;
  }

  /** The levels always equal a replay of the ledger, no level is negative, and a rejected call changes nothing. */
  lemma {:induction false} LevelsReplayTheLedger(t: Tables, run: seq<Event>)
    requires Inv(t)
    ensures Inv(Exec(t, run))
    decreases |run|
  {
    if run != [] {
      StepKeepsInv(t, run[0]);
      LevelsReplayTheLedger(Step(t, run[0]).tables, run[1..]);
    }
  }

  /* ── Totals ─────────────────────────────────────────────────────────── */

  /** The sum of the levels over a set of warehouses, in any order. */
  ghost function TotalIn(levels: map<Key, int>, product: nat, warehouses: set<nat>): int {
    if warehouses == {} then 0
    else
      var w :| w in warehouses;
      LevelAt(levels, product, w) + TotalIn(levels, product, warehouses - {w})
  }

  function LevelAt(levels: map<Key, int>, product: nat, warehouse: nat): int {
    if Key(product, warehouse) in levels then levels[Key(product, warehouse)] else 0
  }

  /** A product's stock over all warehouses. */
  ghost function Total(levels: map<Key, int>, product: nat): int {
    TotalIn(levels, product, set k | k in levels && k.product == product :: k.warehouse)
  }

  lemma {:induction false} TotalInSplits(levels: map<Key, int>, product: nat, warehouses: set<nat>, w: nat)
    requires w in warehouses
    ensures TotalIn(levels, product, warehouses) ==
      LevelAt(levels, product, w) + TotalIn(levels, product, warehouses - {w})
    decreases warehouses
  {
    var v :| v in warehouses && TotalIn(levels, product, warehouses)
                                == LevelAt(levels, product, v) + TotalIn(levels, product, warehouses - {v});
    if v != w {
      TotalInSplits(levels, product, warehouses - {v}, w);
      TotalInSplits(levels, product, warehouses - {w}, v);
      assert warehouses - {v} - {w} == warehouses - {w} - {v};
    }
  }

  lemma {:induction false} TotalInAgrees(levels: map<Key, int>, levels': map<Key, int>, product: nat,
      warehouses: set<nat>)
    requires forall w :: w in warehouses ==> LevelAt(levels, product, w) == LevelAt(levels', product, w)
    ensures TotalIn(levels, product, warehouses) == TotalIn(levels', product, warehouses)
    decreases warehouses
  {
    if warehouses != {} {
      var w :| w in warehouses;
      TotalInSplits(levels, product, warehouses, w);
      TotalInSplits(levels', product, warehouses, w);
      TotalInAgrees(levels, levels', product, warehouses - {w});
    }
  }

  /** Setting one level changes the product's total by the difference, and no other product's. */
  lemma TotalAfterUpdate(levels: map<Key, int>, key: Key, value: int, product: nat)
    ensures Total(levels[key := value], product)
         == Total(levels, product)
            + if key.product == product then value - LevelAt(levels, product, key.warehouse) else 0
  {
    var levels' := levels[key := value];
    var ws := set k | k in levels && k.product == product :: k.warehouse;
    var ws' := set k | k in levels' && k.product == product :: k.warehouse;
    forall w ensures w in ws <==> Key(product, w) in levels {}
    forall w ensures w in ws' <==> Key(product, w) in levels' {}
    if key.product != product {
      assert ws' == ws;
      TotalInAgrees(levels, levels', product, ws);
    } else {
      var w := key.warehouse;
      assert ws' - {w} == ws - {w};
      TotalInSplits(levels', product, ws', w);
      TotalInAgrees(levels, levels', product, ws - {w});
      if w in ws {
        TotalInSplits(levels, product, ws, w);
      } else {
        assert ws - {w} == ws;
      }
    }
  }

  /**
   * An accepted transfer keeps the product's total exactly when the source warehouse had a
   * row for the product; otherwise the total grows by the quantity. Other products keep
   * theirs.
   */
  lemma TransferConservesExactlyWithSourceRow(t: Tables, product: nat, source: nat, target: nat, quantity: int,
      other: nat)
    requires quantity > 0 && Transfer(t, product, source, target, quantity).result.Ok?
    ensures var t' := Transfer(t, product, source, target, quantity).tables;
      && Total(t'.levels, product) ==
        Total(t.levels, product) + (if Key(product, source) in t.levels then 0 else quantity)
      && (Total(t'.levels, product) == Total(t.levels, product) <==> Key(product, source) in t.levels)
      && (other != product ==> Total(t'.levels, other) == Total(t.levels, other))
  {
    var out := Movement(TransferOut, Key(product, source), quantity);
    var into := Movement(TransferIn, Key(product, target), quantity);
    var mid := Move(t, out).tables;
    TotalAfterUpdate(t.levels, out.key, NewLevel(t.levels, out), product);
    TotalAfterUpdate(mid.levels, into.key, NewLevel(mid.levels, into), product);
    TotalAfterUpdate(t.levels, out.key, NewLevel(t.levels, out), other);
    TotalAfterUpdate(mid.levels, into.key, NewLevel(mid.levels, into), other);
  }

  /**
   * In a reachable state a transfer is refused exactly for an unknown product or warehouse,
   * one warehouse twice, or a source row that exists and is short; without a source row it
   * goes through. Accepted, it takes the quantity from the source and adds it to the target.
   */
  lemma TransferRefusedExactlyWhenShort(t: Tables, product: nat, source: nat, target: nat, quantity: int)
    requires Inv(t) && quantity > 0
    ensures var reply := Transfer(t, product, source, target, quantity);
      var known := product in t.products && source in t.warehouses && target in t.warehouses;
      var short := Key(product, source) in t.levels && t.levels[Key(product, source)] < quantity;
      && reply.result == (if !known then Err(NotFound) else if source == target then Err(BadRequest)
                          else if short then Err(Unprocessable) else Ok(()))
      && (reply.result.Ok? ==>
            && LevelAt(reply.tables.levels, product, source) == Max(LevelAt(t.levels, product, source) - quantity, 0)
            && LevelAt(reply.tables.levels, product, target) == LevelAt(t.levels, product, target) + quantity)
  {
  }

  /* ── What a movement does ───────────────────────────────────────────── */

  /** The kinds that bring stock in; all others take it out. */
  predicate Receives(kind: MovementType) { kind == In || kind == TransferIn || kind == Count }

  /**
   * A validated movement is refused exactly for an unknown product or warehouse, or if it is
   * no receipt, there is a level and that is short. Accepted, a receipt raises the level by its
   * quantity, anything else lowers it, and a missing level becomes the quantity received, or 0.
   * The movement is recorded as it is, and every other level stays.
   */
  lemma MovementRaisesOrLowers(t: Tables, m: Movement)
    requires Inv(t) && m.quantity > 0
    ensures var reply := Move(t, m);
      && reply.result == (if m.key.product !in t.products || m.key.warehouse !in t.warehouses then Err(NotFound)
                          else if !Receives(m.kind) && m.key in t.levels && t.levels[m.key] < m.quantity
                          then Err(Unprocessable) else Ok(()))
      && (reply.result.Err? ==> reply.tables == t)
      && (reply.result.Ok? ==>
            && reply.tables.levels.Keys == t.levels.Keys + {m.key}
            && reply.tables.levels[m.key] ==
                 (if m.key in t.levels
                  then t.levels[m.key] + (if Receives(m.kind) then m.quantity else -m.quantity)
                  else if Receives(m.kind) then m.quantity else 0)
            && (forall k :: k in t.levels && k != m.key ==> reply.tables.levels[k] == t.levels[k])
            && reply.tables.ledger == t.ledger + [m])
  {
  }

  /** The movements a call records when it is accepted. */
  function Recorded(e: Event): seq<Movement> {
    match e
    case MoveEvent(m) => [m]
    case TransferEvent(product, source, target, quantity) =>
      [Movement(TransferOut, Key(product, source), quantity), Movement(TransferIn, Key(product, target), quantity)]
  }

  function RecordedBy(t: Tables, run: seq<Event>): seq<Movement>
    decreases |run|
  {
    if run == [] then []
    else (if Step(t, run[0]).result.Ok? then Recorded(run[0]) else []) + RecordedBy(Step(t, run[0]).tables, run[1..])
  }

  /** Over every run the ledger grows by the movements of the accepted calls, in order, and by nothing else. */
  lemma {:induction false} LedgerIsWhatWasAccepted(t: Tables, run: seq<Event>)
    ensures Exec(t, run).ledger == t.ledger + RecordedBy(t, run)
    decreases |run|
  {
    if run != [] {
      var t' := Step(t, run[0]).tables;
      var first := if Step(t, run[0]).result.Ok? then Recorded(run[0]) else [];
      assert t'.ledger == t.ledger + first;
      LedgerIsWhatWasAccepted(t', run[1..]);
      assert t.ledger + (first + RecordedBy(t', run[1..])) == (t.ledger + first) + RecordedBy(t', run[1..]);
    }
  }

  /* ── Stock and ledger ───────────────────────────────────────────────── */

  /** What the product's receipts brought in, and what its other movements took out. */
  function Received(ledger: seq<Movement>, product: nat): int {
    if ledger == [] then 0
    else
      var m := ledger[|ledger| - 1];
      Received(ledger[..|ledger| - 1], product)
      + if m.key.product == product && Receives(m.kind) then m.quantity else 0
  }

  function Issued(ledger: seq<Movement>, product: nat): int {
    if ledger == [] then 0
    else
      var m := ledger[|ledger| - 1];
      Issued(ledger[..|ledger| - 1], product)
      + if m.key.product == product && !Receives(m.kind) then m.quantity else 0
  }

  predicate Moved(ledger: seq<Movement>, key: Key) {
    exists i :: 0 <= i < |ledger| && ledger[i].key == key
  }

  /** How much a movement takes out; a negative quantity does the opposite of its kind. */
  function Taken(m: Movement): int { if Receives(m.kind) then -m.quantity else m.quantity }

  /** What the clamp added: what the first movement of each key took out of nothing. */
  function Clamped(ledger: seq<Movement>, product: nat): nat {
    if ledger == [] then 0
    else
      var init, m := ledger[..|ledger| - 1], ledger[|ledger| - 1];
      Clamped(init, product) + if m.key.product == product && !Moved(init, m.key) then Max(Taken(m), 0) else 0
  }

  lemma {:induction false} ReplayKnowsMovedKeys(ledger: seq<Movement>, key: Key)
    ensures key in Replay(ledger) <==> Moved(ledger, key)
    decreases |ledger|
  {
    if ledger != [] {
      var init, m := ledger[..|ledger| - 1], ledger[|ledger| - 1];
      ReplayKnowsMovedKeys(init, key);
      if Moved(init, key) {
        var i :| 0 <= i < |init| && init[i].key == key;
        assert ledger[i].key == key;
      }
      if m.key == key { assert ledger[|ledger| - 1].key == key; }
    }
  }

  lemma {:induction false} TotalOfReplay(ledger: seq<Movement>, product: nat)
    ensures Total(Replay(ledger), product) ==
      Received(ledger, product) - Issued(ledger, product) + Clamped(ledger, product)
    decreases |ledger|
  {
    if ledger == [] {
      assert (set k | k in Replay(ledger) && k.product == product :: k.warehouse) == {};
    } else {
      var init, m := ledger[..|ledger| - 1], ledger[|ledger| - 1];
      TotalOfReplay(init, product);
      ReplayKnowsMovedKeys(init, m.key);
      TotalAfterUpdate(Replay(init), m.key, Replay(ledger)[m.key], product);
    }
  }

  /**
   * Over any run from empty tables a product's total stock is what was received less what was
   * issued, plus what the clamp added; so stock is conserved exactly when no
   * product-warehouse pair starts with an issue.
   */
  lemma StockIsLedgerPlusClamp(products: set<nat>, warehouses: set<nat>, run: seq<Event>, product: nat)
    ensures var start := Tables(map[], [], products, warehouses);
      var end, ledger := Exec(start, run), RecordedBy(start, run);
      && Total(end.levels, product)
         == Received(ledger, product) - Issued(ledger, product) + Clamped(ledger, product)
      && (Total(end.levels, product) == Received(ledger, product) - Issued(ledger, product)
          <==> NeverStartsByIssue(ledger, product))
  {
    var start := Tables(map[], [], products, warehouses);
    LevelsReplayTheLedger(start, run);
    LedgerIsWhatWasAccepted(start, run);
    assert [] + RecordedBy(start, run) == RecordedBy(start, run);
    TotalOfReplay(Exec(start, run).ledger, product);
    ClampIsZeroExactly(Exec(start, run).ledger, product);
  }

  /** No first movement of one of the product's keys takes anything out. */
  predicate NeverStartsByIssue(ledger: seq<Movement>, product: nat) {
    forall i :: 0 <= i < |ledger| && ledger[i].key.product == product && Taken(ledger[i]) > 0 ==>
      Moved(ledger[..i], ledger[i].key)
  }

  lemma {:induction false} ClampIsZeroExactly(ledger: seq<Movement>, product: nat)
    ensures Clamped(ledger, product) == 0 <==> NeverStartsByIssue(ledger, product)
    decreases |ledger|
  {
    if ledger != [] {
      var init := ledger[..|ledger| - 1];
      ClampIsZeroExactly(init, product);
      assert forall i :: 0 <= i < |init| ==> init[..i] == ledger[..i];
    }
  }
}
