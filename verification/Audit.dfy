/**
 * The sanitiser of audit snapshots (backend/src/middleware/audit.ts). Objects are their
 * entries in order; a function value is not modelled.
 */
module Audit {
  import opened Prelude

  datatype Value =
    | Null
    | Undefined
    | Bool(b: bool)
    | Num(n: real)
    | Str(s: string)
    | BigInt(text: string)          // with its decimal text
    | Date(iso: string)             // with its ISO text
    | Decimal(text: string, fields: seq<Entry>)   // a database decimal, with its text and its own properties
    | Arr(items: seq<Value>)
    | Obj(entries: seq<Entry>)

  datatype Entry = Entry(key: string, value: Value)

  const SENSITIVE_FIELDS := {
    "passwordHash", "tokenHash", "accessToken", "refreshToken", "jti", "familyId", "beforeData", "afterData"
  }

  /**
   * Drops sensitive keys at every depth. A date has no entries of its own, so it becomes an
   * empty object; a decimal becomes a plain object of its own properties.
   */
  function OmitSensitive(v: Value): Value {
    match v
    case Arr(items) => Arr(OmitItems(items))
    case Obj(entries) => Obj(OmitEntries(entries))
    case Date(_) => Obj([])
    case Decimal(_, fields) => Obj(OmitEntries(fields))
    case _ => v
  }

  function OmitItems(items: seq<Value>): (r: seq<Value>)
    ensures |r| == |items|
  {
    if items == [] then [] else [OmitSensitive(items[0])] + OmitItems(items[1..])
  }

  function OmitEntries(entries: seq<Entry>): seq<Entry> {
    if entries == [] then []
    else
      var rest := OmitEntries(entries[1..]);
      if entries[0].key in SENSITIVE_FIELDS then rest
      else [Entry(entries[0].key, OmitSensitive(entries[0].value))] + rest
  }

  /** Converts what JSON cannot hold and drops keys named "constructor". */
  function ToJsonSafe(v: Value): Value {
    match v
    case Date(iso) => Str(iso)
    case BigInt(text) => Str(text)
    case Decimal(text, _) => Str(text)
    case Arr(items) => Arr(SafeItems(items))
    case Obj(entries) => Obj(SafeEntries(entries))
    case _ => v
  }

  function SafeItems(items: seq<Value>): (r: seq<Value>)
    ensures |r| == |items|
  {
    if items == [] then [] else [ToJsonSafe(items[0])] + SafeItems(items[1..])
  }

  function SafeEntries(entries: seq<Entry>): seq<Entry> {
    if entries == [] then []
    else
      var rest := SafeEntries(entries[1..]);
      if entries[0].key == "constructor" then rest else [Entry(entries[0].key, ToJsonSafe(entries[0].value))] + rest
  }

  function Sanitize(v: Value): Value { ToJsonSafe(OmitSensitive(v)) }

  /* ── Looking into a value ───────────────────────────────────────────── */

  datatype PathStep = Index(i: nat) | Key(key: string)

  function Lookup(entries: seq<Entry>, key: string): Option<Value> {
    if entries == [] then None
    else if entries[0].key == key then Some(entries[0].value)
    else Lookup(entries[1..], key)
  }

  function Child(v: Value, step: PathStep): Option<Value> {
    match step
    case Index(i) => if v.Arr? && i < |v.items| then Some(v.items[i]) else None
    case Key(key) => if v.Obj? then Lookup(v.entries, key) else if v.Decimal? then Lookup(v.fields, key) else None
  }

  /** The value found by following a path, if there is one. */
  function At(v: Value, path: seq<PathStep>): Option<Value>
    decreases |path|
  {
    if path == [] then Some(v)
    else
      var c := Child(v, path[0]);
      if c.None? then None else At(c.value, path[1..])
  }

  predicate IsDropped(step: PathStep) {
    step.Key? && (step.key in SENSITIVE_FIELDS || step.key == "constructor")
  }

  predicate IsClean(path: seq<PathStep>) {
    forall i :: 0 <= i < |path| ==> !IsDropped(path[i])
  }

  lemma {:induction false} OmitItemAt(items: seq<Value>, i: nat)
    requires i < |items|
    ensures OmitItems(items)[i] == OmitSensitive(items[i])
  {
    if i > 0 { OmitItemAt(items[1..], i - 1); }
  }

  lemma {:induction false} SafeItemAt(items: seq<Value>, i: nat)
    requires i < |items|
    ensures SafeItems(items)[i] == ToJsonSafe(items[i])
  {
    if i > 0 { SafeItemAt(items[1..], i - 1); }
  }

  lemma {:induction false} OmitLookup(entries: seq<Entry>, key: string)
    ensures Lookup(OmitEntries(entries), key)
      == if key in SENSITIVE_FIELDS || Lookup(entries, key).None? then None
         else Some(OmitSensitive(Lookup(entries, key).value))
  {
    if entries != [] {
      OmitLookup(entries[1..], key);
      var r := OmitEntries(entries);
      if entries[0].key !in SENSITIVE_FIELDS { assert r[1..] == OmitEntries(entries[1..]); }
    }
  }

  lemma {:induction false} SafeLookup(entries: seq<Entry>, key: string)
    ensures Lookup(SafeEntries(entries), key)
      == if key == "constructor" || Lookup(entries, key).None? then None
         else Some(ToJsonSafe(Lookup(entries, key).value))
  {
    if entries != [] {
      SafeLookup(entries[1..], key);
      var r := SafeEntries(entries);
      if entries[0].key != "constructor" { assert r[1..] == SafeEntries(entries[1..]); }
    }
  }

  /** One level down, sanitising and looking commute, except that dropped keys are gone. */
  lemma ChildOfSanitized(v: Value, step: PathStep)
    ensures Child(Sanitize(v), step)
      == if IsDropped(step) || Child(v, step).None? then None else Some(Sanitize(Child(v, step).value))
  {
    if v.Arr? && step.Index? && step.i < |v.items| {
      OmitItemAt(v.items, step.i);
      SafeItemAt(OmitItems(v.items), step.i);
    }
    if (v.Obj? || v.Decimal?) && step.Key? {
      var entries := if v.Obj? then v.entries else v.fields;
      OmitLookup(entries, step.key);
      SafeLookup(OmitEntries(entries), step.key);
    }
  }

  /**
   * The whole effect of the sanitiser: a path leads somewhere in the result exactly when it
   * leads somewhere in the input and mentions no dropped key, and then to the sanitised value
   * that was there. So no sensitive key survives at any depth, everything else is kept in
   * place, and nothing is invented.
   */
  lemma {:induction false} SanitizedAt(v: Value, path: seq<PathStep>)
    ensures At(Sanitize(v), path)
      == if !IsClean(path) || At(v, path).None? then None else Some(Sanitize(At(v, path).value))
    decreases |path|
  {
    if path != [] {
      ChildOfSanitized(v, path[0]);
      if Child(v, path[0]).Some? { SanitizedAt(Child(v, path[0]).value, path[1..]); }
      assert IsClean(path) <==> !IsDropped(path[0]) && IsClean(path[1..]) by {
        assert forall i :: 1 <= i < |path| ==> path[i] == path[1..][i - 1];
      }
    }
  }

  predicate IsLeaf(v: Value) { !v.Arr? && !v.Obj? }

  /**
   * What a leaf becomes: JSON leaves stay, big integers become text, and only dates and
   * decimals stop being leaves, although the second pass alone would have made them text.
   */
  lemma LeafIsKeptExactlyUnlessDateOrDecimal(v: Value)
    requires IsLeaf(v)
    ensures IsLeaf(Sanitize(v)) <==> !v.Date? && !v.Decimal?
    ensures Sanitize(v) == v <==> !v.Date? && !v.Decimal? && !v.BigInt?
    ensures v.Date? ==> Sanitize(v) == Obj([]) && ToJsonSafe(v) == Str(v.iso)
    ensures v.Decimal? ==> Sanitize(v) == Sanitize(Obj(v.fields)) && ToJsonSafe(v) == Str(v.text)
  {
  }

  /* ── Sanitising twice ───────────────────────────────────────────────── */

  lemma {:induction false} SanitizeItems(items: seq<Value>)
    ensures SafeItems(OmitItems(SafeItems(OmitItems(items)))) == SafeItems(OmitItems(items))
    decreases items
  {
    if items != [] {
      SanitizeTwice(items[0]);
      SanitizeItems(items[1..]);
      var once := SafeItems(OmitItems(items));
      assert once[1..] == SafeItems(OmitItems(items[1..]));
      assert OmitItems(once)[1..] == OmitItems(once[1..]);
    }
  }

  lemma {:induction false} SanitizeEntries(entries: seq<Entry>)
    ensures SafeEntries(OmitEntries(SafeEntries(OmitEntries(entries)))) == SafeEntries(OmitEntries(entries))
    decreases entries
  {
    if entries != [] {
      var Entry(key, v) := entries[0];
      SanitizeTwice(v);
      SanitizeEntries(entries[1..]);
      var rest := SafeEntries(OmitEntries(entries[1..]));
      if key !in SENSITIVE_FIELDS {
        assert OmitEntries(entries)[1..] == OmitEntries(entries[1..]);
        if key != "constructor" {
          var once := SafeEntries(OmitEntries(entries));
          assert once == [Entry(key, Sanitize(v))] + rest && once[1..] == rest;
          assert OmitEntries(once) == [Entry(key, OmitSensitive(Sanitize(v)))] + OmitEntries(rest);
          assert OmitEntries(once)[1..] == OmitEntries(rest);
        }
      }
    }
  }

  /** Sanitising again changes nothing. */
  lemma {:induction false} SanitizeTwice(v: Value)
    ensures Sanitize(Sanitize(v)) == Sanitize(v)
    decreases v
  {
    match v
    case Arr(items) => SanitizeItems(items);
    case Obj(entries) => SanitizeEntries(entries);
    case Decimal(_, fields) => SanitizeEntries(fields);
    case _ =>
  }
}
