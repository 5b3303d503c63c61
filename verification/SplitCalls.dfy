/**
 * Interleaved runs of the authentication calls: any number of calls read and write between
 * two operations of one call, and a call may stop for good after any of them.
 */
module SplitCalls {
  import opened Sessions
  import opened CallPlans

  datatype World = World(db: Db, calls: map<nat, Plan>)

  datatype Action = Begin(c: nat, event: Event) | Resume(c: nat)

  datatype Turn = Turn(at: int, action: Action)

  predicate Enabled(w: World, a: Action) {
    match a
    case Begin(c, _) => c !in w.calls
    case Resume(c) => c in w.calls && !w.calls[c].Answer?
  }

  function Do(w: World, now: int, a: Action): World
    requires Enabled(w, a)
  {
    match a
    case Begin(c, e) =>
      if IsWhole(e) then World(Step(w.db, now, e).db, w.calls[c := Answer(Step(w.db, now, e).out)])
      else World(w.db, w.calls[c := Read(w.db, now, e)])
    case Resume(c) =>
      var written := Write(w.db, now, w.calls[c]);
      World(written.db, w.calls[c := written.plan])
  }

  ghost predicate Runs(w: World, run: seq<Turn>, clock: int)
    decreases |run|
  {
    run == [] || (clock <= run[0].at && Enabled(w, run[0].action) &&
      Runs(Do(w, run[0].at, run[0].action), run[1..], run[0].at))
  }

  ghost function After(w: World, run: seq<Turn>, clock: int): World
    requires Runs(w, run, clock)
    decreases |run|
  {
    if run == [] then w else After(Do(w, run[0].at, run[0].action), run[1..], run[0].at)
  }

  function EndOf(run: seq<Turn>, clock: int): int {
    if run == [] then clock else run[|run| - 1].at
  }
}
