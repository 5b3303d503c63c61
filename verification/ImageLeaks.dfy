/**
 * Files nobody needs any more: exactly when a run of uploads leaves one behind, provided the
 * deletions it attempts work.
 */
module ImageLeaks {
  import opened Prelude
  import opened ProductImages
  import opened ImageProofs

  /** All deletions work. */
  predicate IsCalm(a: Action) {
    (a.DeleteOld? || a.Compensate?) ==> a.works
  }

  predicate CalmRun(actions: seq<Action>) {
    forall i :: 0 <= i < |actions| ==> IsCalm(actions[i])
  }

  /** The row is overwritten by an upload that had read another url, or deleted with its image. */
  predicate Leaks(s: State, a: Action) {
    match a
    case CommitRow(u, succeeds) =>
      && succeeds && u in s.uploads && s.uploads[u].Saved?
      && s.uploads[u].product in s.urls && s.urls[s.uploads[u].product] != s.uploads[u].before
    case RemoveProduct(p) => p in s.urls && s.urls[p].Some?
    case _ => false
  }

  ghost predicate NeverLeaks(s: State, actions: seq<Action>)
    requires Runs(s, actions)
    decreases |actions|
  {
    actions == [] || (!Leaks(s, actions[0]) && NeverLeaks(Do(s, actions[0]), actions[1..]))
  }

  /** No upload is under way. */
  predicate Settled(s: State) {
    forall u :: u in s.uploads ==> s.uploads[u].Replaced? || s.uploads[u].Failed?
  }

  predicate NamedBy(s: State, f: nat, p: nat) { p in s.urls && s.urls[p] == Some(f) }

  ghost predicate IsNamed(s: State, f: nat) { exists p :: NamedBy(s, f, p) }

  ghost predicate EveryFileIsNamed(s: State) {
    forall f :: f in s.files ==> IsNamed(s, f)
  }

  /* ── Without leaks every file is accounted for ──────────────────────── */

  /** The upload will delete the file or give it to a row. */
  predicate CaresFor(s: State, f: nat, u: nat) {
    u in s.uploads && (Pending(s.uploads[u]) == Some(f) || (s.uploads[u].Committed? && s.uploads[u].before == Some(f)))
  }

  ghost predicate IsAccounted(s: State, f: nat) {
    IsNamed(s, f) || exists u :: CaresFor(s, f, u)
  }

  ghost predicate Accounted(s: State) {
    && s.urls.Keys <= s.created
    && (forall f :: f in s.files ==> IsAccounted(s, f))
    && (forall u :: u in s.uploads ==> !s.uploads[u].Undoing? && !s.uploads[u].Undone?)
  }

  lemma NamedStaysAccounted(s: State, a: Action, f: nat, p: nat)
    requires Inv(s) && Accounted(s) && Enabled(s, a) && IsCalm(a) && !Leaks(s, a)
    requires NamedBy(s, f, p)
    ensures IsAccounted(Do(s, a), f)
  {
    var s' := Do(s, a);
    if a.CommitRow? && s'.uploads[a.u].Committed? && p == s.uploads[a.u].product {
      assert CaresFor(s', f, a.u);
    } else {
      assert NamedBy(s', f, p);
    }
  }

  lemma CaredForStaysAccounted(s: State, a: Action, f: nat, u: nat)
    requires Inv(s) && Accounted(s) && Enabled(s, a) && IsCalm(a) && CaresFor(s, f, u)
    ensures f in Do(s, a).files ==> IsAccounted(Do(s, a), f)
  {
    var s' := Do(s, a);
    if a.CommitRow? && u == a.u && s'.uploads[u].Committed? {
      assert NamedBy(s', f, s.uploads[u].product);
    } else if f in s'.files {
      assert CaresFor(s', f, u);
    }
  }

  lemma StepKeepsAccounted(s: State, a: Action)
    requires Inv(s) && Accounted(s) && Enabled(s, a) && IsCalm(a) && !Leaks(s, a)
    ensures Accounted(Do(s, a))
  {
    var s' := Do(s, a);
    forall f | f in s'.files ensures IsAccounted(s', f) {
      if f !in s.files {
        assert CaresFor(s', f, a.u);
      } else if IsNamed(s, f) {
        var p :| NamedBy(s, f, p);
        NamedStaysAccounted(s, a, f, p);
      } else {
        var u :| CaresFor(s, f, u);
        CaredForStaysAccounted(s, a, f, u);
      }
    }
  }

  lemma {:induction false} RunKeepsAccounted(s: State, actions: seq<Action>)
    requires Inv(s) && Accounted(s) && Runs(s, actions) && CalmRun(actions) && NeverLeaks(s, actions)
    ensures Accounted(After(s, actions))
    decreases |actions|
  {
    if actions != [] {
      assert IsCalm(actions[0]);
      StepKeepsInv(s, actions[0]);
      StepKeepsAccounted(s, actions[0]);
      RunKeepsAccounted(Do(s, actions[0]), actions[1..]);
    }
  }

  /* ── A leak is never made good ──────────────────────────────────────── */

  /** The upload has given its product an image. */
  predicate HasGiven(s: State, u: nat, p: nat) {
    u in s.uploads && (s.uploads[u].Committed? || s.uploads[u].Replaced?) && s.uploads[u].product == p
  }

  /** An upload of the product that has given an image had read this url. */
  predicate HasReplaced(s: State, u: nat, p: nat, before: Option<nat>) {
    HasGiven(s, u, p) && s.uploads[u].before == before
  }

  predicate HasGivenFile(s: State, u: nat, p: nat, f: nat) {
    HasGiven(s, u, p) && s.uploads[u].saved == f
  }

  predicate IsReading(u: Upload) { u.Read? || u.Saved? }

  /** Where urls come from: what is in a row or was read from it was given by an upload of that product. */
  ghost predicate Origins(s: State) {
    && s.urls.Keys <= s.created
    && (forall u :: u in s.uploads ==> !s.uploads[u].Undoing? && !s.uploads[u].Undone?)
    && (forall p :: p in s.urls && s.urls[p].Some? ==> exists u :: HasGivenFile(s, u, p, s.urls[p].value))
    && (forall u :: u in s.uploads ==> BeforeWasGiven(s, s.uploads[u]))
    && GivenDiffer(s)
    && (forall u: nat, p :: HasGiven(s, u, p) ==> exists v: nat :: HasReplaced(s, v, p, None))
    && (forall u, p :: HasGiven(s, u, p) && s.uploads[u].saved !in s.files ==>
          exists v :: HasReplaced(s, v, p, Some(s.uploads[u].saved)))
  }

  ghost predicate GivenDiffer(s: State) {
    forall u, v :: u in s.uploads && v in s.uploads && u != v && Given(s.uploads[u]).Some? ==>
      Given(s.uploads[u]) != Given(s.uploads[v])
  }

  ghost predicate BeforeWasGiven(s: State, u: Upload) {
    (u.Read? || u.Saved? || u.Committed? || u.Replaced?) && u.before.Some? ==>
      exists v :: HasGivenFile(s, v, u.product, u.before.value)
  }

  /** What has been given or replaced stays so. */
  lemma GivenStays(s: State, a: Action)
    requires Enabled(s, a) && IsCalm(a)
    ensures forall u, p, f :: HasGivenFile(s, u, p, f) ==> HasGivenFile(Do(s, a), u, p, f)
    ensures forall u, p, before :: HasReplaced(s, u, p, before) ==> HasReplaced(Do(s, a), u, p, before)
  {
  }

  lemma ReplacedStays(s: State, a: Action, u: nat, p: nat, before: Option<nat>)
    requires Enabled(s, a) && IsCalm(a) && HasReplaced(s, u, p, before)
    ensures HasReplaced(Do(s, a), u, p, before)
  {
  }

  lemma GivenFileStays(s: State, a: Action, u: nat, p: nat, f: nat)
    requires Enabled(s, a) && IsCalm(a) && HasGivenFile(s, u, p, f)
    ensures HasGivenFile(Do(s, a), u, p, f)
  {
  }

  lemma UrlOrigin(s: State, a: Action, p: nat)
    requires Inv(s) && Origins(s) && Enabled(s, a) && IsCalm(a)
    requires p in Do(s, a).urls && Do(s, a).urls[p].Some?
    ensures exists u :: HasGivenFile(Do(s, a), u, p, Do(s, a).urls[p].value)
  {
    hide Inv, BeforeWasGiven, GivenDiffer, HasReplaced;
    if p in s.urls && Do(s, a).urls[p] == s.urls[p] {
      var u: nat :| HasGivenFile(s, u, p, s.urls[p].value);
      GivenFileStays(s, a, u, p, s.urls[p].value);
    } else {
      assert HasGivenFile(Do(s, a), a.u, p, Do(s, a).urls[p].value);
    }
  }

  lemma BeforeOrigin(s: State, a: Action, u: nat)
    requires Inv(s) && Origins(s) && Enabled(s, a) && IsCalm(a) && u in Do(s, a).uploads
    ensures BeforeWasGiven(Do(s, a), Do(s, a).uploads[u])
  {
    hide Inv, GivenDiffer, HasReplaced;
    var s' := Do(s, a);
    var up := s'.uploads[u];
    if (up.Read? || up.Saved? || up.Committed? || up.Replaced?) && up.before.Some? {
      assert BeforeWasGiven(s, s.uploads[u]);
      var v: nat :| HasGivenFile(s, v, up.product, up.before.value);
      GivenFileStays(s, a, v, up.product, up.before.value);
    }
  }

  lemma FirstOrigin(s: State, a: Action, u: nat, p: nat)
    requires Origins(s) && Enabled(s, a) && IsCalm(a) && HasGiven(Do(s, a), u, p)
    ensures exists v: nat :: HasReplaced(Do(s, a), v, p, None)
  {
    if w: nat :| HasGiven(s, w, p) {
      var v: nat :| HasReplaced(s, v, p, None);
      ReplacedStays(s, a, v, p, None);
    } else {
      assert BeforeWasGiven(s, s.uploads[u]);
      assert HasReplaced(Do(s, a), u, p, None);
    }
  }

  /** A given file is deleted only by an upload of its product that had read it. */
  lemma DeletionOrigin(s: State, a: Action, u: nat, p: nat)
    requires Inv(s) && Origins(s) && Enabled(s, a) && IsCalm(a) && HasGiven(s, u, p)
    requires s.uploads[u].saved in s.files && s.uploads[u].saved !in Do(s, a).files
    ensures a.DeleteOld? && HasReplaced(Do(s, a), a.u, p, Some(s.uploads[u].saved))
  {
  }

  lemma MissingOrigin(s: State, a: Action, u: nat, p: nat)
    requires Inv(s) && Origins(s) && Enabled(s, a) && IsCalm(a) && HasGiven(Do(s, a), u, p)
    requires Do(s, a).uploads[u].saved !in Do(s, a).files
    ensures exists v :: HasReplaced(Do(s, a), v, p, Some(Do(s, a).uploads[u].saved))
  {
    hide Inv, GivenDiffer, BeforeWasGiven;
    var f := Do(s, a).uploads[u].saved;
    if f in s.files {
      DeletionOrigin(s, a, u, p);
    } else {
      if u in s.uploads { PendingOfUpload(s, u); }
      assert HasGiven(s, u, p);
      var v :| HasReplaced(s, v, p, Some(f));
      ReplacedStays(s, a, v, p, Some(f));
    }
  }

  lemma StepKeepsDiffer(s: State, a: Action)
    requires GivenDiffer(s) && Enabled(s, a)
    requires a.CommitRow? ==> PendingIsPrivate(s, a.u)
    ensures GivenDiffer(Do(s, a))
  {
  }

  lemma PendingOfUpload(s: State, u: nat)
    requires Inv(s) && u in s.uploads
    ensures PendingIsPrivate(s, u)
  {
    assert UploadFits(s, u);
  }

  lemma StepKeepsOrigins(s: State, a: Action)
    requires Inv(s) && Origins(s) && Enabled(s, a) && IsCalm(a)
    ensures Origins(Do(s, a))
  {
    hide Inv, BeforeWasGiven, GivenDiffer, HasReplaced, HasGivenFile;
    var s' := Do(s, a);
    forall p | p in s'.urls && s'.urls[p].Some? ensures exists u :: HasGivenFile(s', u, p, s'.urls[p].value) {
      UrlOrigin(s, a, p);
    }
    forall u | u in s'.uploads ensures BeforeWasGiven(s', s'.uploads[u]) { BeforeOrigin(s, a, u); }
    forall u, p | HasGiven(s', u, p) ensures exists v :: HasReplaced(s', v, p, None) { FirstOrigin(s, a, u, p); }
    forall u, p | HasGiven(s', u, p) && s'.uploads[u].saved !in s'.files
      ensures exists v :: HasReplaced(s', v, p, Some(s'.uploads[u].saved))
    {
      MissingOrigin(s, a, u, p);
    }
    if a.CommitRow? { PendingOfUpload(s, a.u); }
    StepKeepsDiffer(s, a);
  }

  /* ── Two uploads that had read the same url ─────────────────────────── */

  /** Two uploads of the product gave it an image in place of the same url. */
  ghost predicate Doubled(s: State, p: nat) {
    exists u: nat, v: nat, before :: u != v && HasReplaced(s, u, p, before) && HasReplaced(s, v, p, before)
  }

  /** A product that had an image is gone. */
  ghost predicate Dropped(s: State, p: nat) {
    p in s.created && p !in s.urls && exists u :: HasGiven(s, u, p)
  }

  ghost predicate HasLeaked(s: State) {
    exists p :: Doubled(s, p) || Dropped(s, p)
  }

  /** The url an upload read is still the row's, or another upload has replaced it. */
  ghost predicate ReadIsCurrent(s: State, u: Upload) {
    IsReading(u) && u.product in s.urls ==>
      s.urls[u.product] == u.before || exists v :: HasReplaced(s, v, u.product, u.before)
  }

  ghost predicate ReadsAreCurrent(s: State) {
    forall u :: u in s.uploads ==>
      ReadIsCurrent(s, s.uploads[u]) && (IsReading(s.uploads[u]) ==> s.uploads[u].product in s.created)
  }

  lemma StepKeepsCurrent(s: State, a: Action, u: nat)
    requires Origins(s) && ReadsAreCurrent(s) && Enabled(s, a) && IsCalm(a) && !Leaks(s, a)
    requires u in Do(s, a).uploads
    ensures ReadIsCurrent(Do(s, a), Do(s, a).uploads[u])
  {
    var s' := Do(s, a);
    var up := s'.uploads[u];
    if IsReading(up) && up.product in s'.urls && s'.urls[up.product] != up.before {
      assert u in s.uploads && ReadIsCurrent(s, s.uploads[u]);
      if s.urls[up.product] == up.before {
        assert HasReplaced(s', a.u, up.product, up.before);
      } else {
        var v :| HasReplaced(s, v, up.product, up.before);
        ReplacedStays(s, a, v, up.product, up.before);
      }
    }
  }

  lemma StepKeepsReading(s: State, a: Action, u: nat)
    requires Origins(s) && ReadsAreCurrent(s) && Enabled(s, a) && u in Do(s, a).uploads &&
      IsReading(Do(s, a).uploads[u])
    ensures Do(s, a).uploads[u].product in Do(s, a).created
  {
  }

  /** The first leak of a run shows in the tables of uploads. */
  lemma LeakShows(s: State, a: Action)
    requires Inv(s) && Origins(s) && ReadsAreCurrent(s) && Enabled(s, a) && Leaks(s, a)
    ensures HasLeaked(Do(s, a))
  {
    var s' := Do(s, a);
    GivenStays(s, a);
    if a.CommitRow? {
      var p, before := s.uploads[a.u].product, s.uploads[a.u].before;
      assert ReadIsCurrent(s, s.uploads[a.u]);
      var v :| HasReplaced(s, v, p, before);
      assert HasReplaced(s', v, p, before) && HasReplaced(s', a.u, p, before);
      assert Doubled(s', p);
    } else {
      var p := a.product;
      var u :| HasGivenFile(s, u, p, s.urls[p].value);
      assert HasGiven(s', u, p);
      assert Dropped(s', p);
    }
  }

  lemma StepKeepsLeaked(s: State, a: Action)
    requires Enabled(s, a) && IsCalm(a) && HasLeaked(s)
    ensures HasLeaked(Do(s, a))
  {
    var s' := Do(s, a);
    GivenStays(s, a);
    var p :| Doubled(s, p) || Dropped(s, p);
    if Doubled(s, p) {
      var u, v, before :| u != v && HasReplaced(s, u, p, before) && HasReplaced(s, v, p, before);
      assert HasReplaced(s', u, p, before) && HasReplaced(s', v, p, before);
      assert Doubled(s', p);
    } else {
      var u :| HasGiven(s, u, p);
      assert HasGivenFile(s, u, p, s.uploads[u].saved);
      assert HasGivenFile(s', u, p, s.uploads[u].saved);
      assert Dropped(s', p);
    }
  }

  lemma {:induction false} RunLeaks(s: State, actions: seq<Action>)
    requires Inv(s) && Origins(s) && Runs(s, actions) && CalmRun(actions)
    requires HasLeaked(s) || (ReadsAreCurrent(s) && !NeverLeaks(s, actions))
    ensures HasLeaked(After(s, actions)) && Origins(After(s, actions)) && Inv(After(s, actions))
    decreases |actions|
  {
    hide Inv, Origins, Leaks, HasLeaked, Do;
    if actions != [] {
      var a := actions[0];
      assert IsCalm(a);
      StepKeepsInv(s, a);
      StepKeepsOrigins(s, a);
      if HasLeaked(s) {
        StepKeepsLeaked(s, a);
      } else if Leaks(s, a) {
        LeakShows(s, a);
      } else {
        forall u | u in Do(s, a).uploads
          ensures ReadIsCurrent(Do(s, a), Do(s, a).uploads[u])
          ensures IsReading(Do(s, a).uploads[u]) ==> Do(s, a).uploads[u].product in Do(s, a).created
        {
          StepKeepsCurrent(s, a, u);
          if IsReading(Do(s, a).uploads[u]) { StepKeepsReading(s, a, u); }
        }
      }
      RunLeaks(Do(s, a), actions[1..]);
    }
  }

  /* ── Counting files ─────────────────────────────────────────────────── */

  /** A set whose members all come from `s` has no more members than `s`. */
  lemma {:induction false} ImageIsNoLarger(s: set<nat>, m: map<nat, nat>, image: set<nat>)
    requires s <= m.Keys && forall n :: n in image ==> exists u :: u in s && m[u] == n
    ensures |image| <= |s|
  {
    if s != {} {
      var u :| u in s;
      forall n | n in image - {m[u]} ensures exists v :: v in s - {u} && m[v] == n {
        var v :| v in s && m[v] == n;
        assert v in s - {u};
      }
      ImageIsNoLarger(s - {u}, m, image - {m[u]});
    } else {
      assert forall n :: n !in image;
    }
  }

  function SavedBy(s: State, givers: set<nat>): set<nat>
    requires forall u :: u in givers ==> u in s.uploads && s.uploads[u].Replaced?
  {
    set u | u in givers :: s.uploads[u].saved
  }

  /** Files with different givers are different. */
  lemma {:induction false} SavedAreAsMany(s: State, givers: set<nat>)
    requires Origins(s) && forall u :: u in givers ==> u in s.uploads && s.uploads[u].Replaced?
    ensures |SavedBy(s, givers)| == |givers|
  {
    if givers != {} {
      var u :| u in givers;
      SavedAreAsMany(s, givers - {u});
      forall v | v in givers - {u} ensures s.uploads[v].saved != s.uploads[u].saved {
        assert Given(s.uploads[u]) != Given(s.uploads[v]);
      }
      assert SavedBy(s, givers) == SavedBy(s, givers - {u}) + {s.uploads[u].saved};
    }
  }

  function GiversOf(s: State, p: nat): set<nat> {
    set u | u in s.uploads && HasGiven(s, u, p)
  }

  /** The files of rows that uploads of the product replaced, and so deleted. */
  function ReplacedFiles(s: State, p: nat): set<nat> {
    set u | u in GiversOf(s, p) && s.uploads[u].before.Some? :: s.uploads[u].before.value
  }

  /** Every replaced file comes from a giver outside `spare`. */
  lemma ReplacedAreFewer(s: State, p: nat, spare: set<nat>)
    requires spare <= GiversOf(s, p)
    requires forall u :: u in spare && s.uploads[u].before.Some? ==>
      exists v :: v in GiversOf(s, p) - spare && s.uploads[v].before == s.uploads[u].before
    ensures |ReplacedFiles(s, p)| <= |GiversOf(s, p)| - |spare|
  {
    var givers := GiversOf(s, p);
    var m := map u | u in givers :: if s.uploads[u].before.Some? then s.uploads[u].before.value else 0;
    forall n | n in ReplacedFiles(s, p) ensures exists v :: v in givers - spare && m[v] == n {
      var u :| u in givers && s.uploads[u].before.Some? && s.uploads[u].before.value == n;
      if u in spare {
        var v :| v in givers - spare && s.uploads[v].before == s.uploads[u].before;
        assert m[v] == n;
      } else {
        assert m[u] == n;
      }
    }
    ImageIsNoLarger(givers - spare, m, ReplacedFiles(s, p));
    assert |givers - spare| == |givers| - |spare|;
  }

  /** What a product's uploads have left on disk, once they are over. */
  lemma LeftBehind(s: State, p: nat) returns (left: set<nat>)
    requires Inv(s) && Origins(s) && Settled(s)
    ensures left <= s.files && |left| >= |GiversOf(s, p)| - |ReplacedFiles(s, p)|
    ensures forall f, q :: f in left && NamedBy(s, f, q) ==> q == p
  {
    var givers := GiversOf(s, p);
    var saved := SavedBy(s, givers);
    SavedAreAsMany(s, givers);
    left := saved - ReplacedFiles(s, p);
    assert |left| >= |saved| - |ReplacedFiles(s, p)| by {
      assert saved <= left + ReplacedFiles(s, p);
      assert |left + ReplacedFiles(s, p)| <= |left| + |ReplacedFiles(s, p)|;
      SubsetIsNoLarger(saved, left + ReplacedFiles(s, p));
    }
    forall f | f in left ensures f in s.files && forall q :: NamedBy(s, f, q) ==> q == p {
      var u :| u in givers && s.uploads[u].saved == f;
      assert GivenIsOwn(s, u) by { assert UploadFits(s, u); }
      forall v ensures !HasReplaced(s, v, p, Some(f)) {
        assert HasReplaced(s, v, p, Some(f)) ==> v in givers;
      }
    }
  }

  lemma SubsetIsNoLarger(a: set<nat>, b: set<nat>)
    requires a <= b
    ensures |a| <= |b|
  {
    assert b == a + (b - a);
  }

  lemma TwoSpare(s: State, p: nat, u: nat, v: nat, w: nat)
    requires u != v && u in GiversOf(s, p) && v in GiversOf(s, p) && s.uploads[v].before == None
    requires s.uploads[u].before.Some? ==>
      w in GiversOf(s, p) && w != u && w != v && s.uploads[w].before == s.uploads[u].before
    ensures |GiversOf(s, p)| - |ReplacedFiles(s, p)| >= 2
  {
    var spare := {u, v};
    assert |spare| == 2;
    assert s.uploads[u].before.Some? ==> w in GiversOf(s, p) - spare;
    ReplacedAreFewer(s, p, spare);
  }

  lemma DoubledLeavesTwo(s: State, p: nat)
    requires Origins(s) && Doubled(s, p)
    ensures |GiversOf(s, p)| - |ReplacedFiles(s, p)| >= 2
  {
    var u: nat, v: nat, before :| u != v && HasReplaced(s, u, p, before) && HasReplaced(s, v, p, before);
    var first: nat :| HasReplaced(s, first, p, None);
    TwoSpare(s, p, u, if before.Some? then first else v, v);
  }

  lemma DroppedLeavesOne(s: State, p: nat)
    requires Origins(s) && Dropped(s, p)
    ensures |GiversOf(s, p)| - |ReplacedFiles(s, p)| >= 1
  {
    var u: nat :| HasGiven(s, u, p);
    var first: nat :| HasReplaced(s, first, p, None);
    ReplacedAreFewer(s, p, {first});
  }

  /** Of files only `p` can name, one more than it names is unnamed. */
  lemma OneIsUnnamed(s: State, p: nat, left: set<nat>)
    requires left <= s.files && forall f, q :: f in left && NamedBy(s, f, q) ==> q == p
    requires |left| >= if p in s.urls then 2 else 1
    ensures !EveryFileIsNamed(s)
  {
    var named: set<nat> := if p in s.urls && s.urls[p].Some? then {s.urls[p].value} else {};
    if left <= named { SubsetIsNoLarger(left, named); }
    var f :| f in left && f !in named;
    assert !IsNamed(s, f);
  }

  lemma LeakedLeavesUnnamedFile(s: State)
    requires Inv(s) && Origins(s) && Settled(s) && HasLeaked(s)
    ensures !EveryFileIsNamed(s)
  {
    var p :| Doubled(s, p) || Dropped(s, p);
    var left := LeftBehind(s, p);
    if Doubled(s, p) {
      DoubledLeavesTwo(s, p);
    } else {
      DroppedLeavesOne(s, p);
    }
    OneIsUnnamed(s, p, left);
  }

  /**
   * Uploads, product creations and deletions in every interleaving, with working deletions:
   * once all uploads are over, every file on disk is some product's image exactly if no
   * upload overwrote a url other than the one it had read and no product was deleted with
   * its image.
   */
  lemma EveryFileIsNamedExactlyWithoutLeak(s: State, actions: seq<Action>)
    requires Init(s) && Runs(s, actions) && CalmRun(actions) && Settled(After(s, actions))
    ensures EveryFileIsNamed(After(s, actions)) <==> NeverLeaks(s, actions)
  {
    var end := After(s, actions);
    if NeverLeaks(s, actions) {
      RunKeepsAccounted(s, actions);
      forall f | f in end.files ensures IsNamed(end, f) {
        assert IsAccounted(end, f);
        assert forall u :: !CaresFor(end, f, u);
      }
    } else {
      RunLeaks(s, actions);
      LeakedLeavesUnnamedFile(end);
    }
  }

  /** Two uploads of product 0 have read its url 0 and saved the files 1 and 2. */
  function TwoReaders(): State {
    State({0, 1, 2}, map[0 := Some(0)], map[1 := Saved(0, Some(0), 1), 2 := Saved(0, Some(0), 2)], 3, {0})
  }

  lemma ReaderFits(u: nat)
    requires u in {1, 2}
    ensures UploadFits(TwoReaders(), u)
  {
  }

  lemma TwoReadersFit()
    ensures Inv(TwoReaders())
  {
    hide UploadFits;
    ReaderFits(1);
    ReaderFits(2);
  }

  /**
   * Why the deletions have to work: the second commit overwrites a url it had not read; then
   * the first upload fails to delete the old file and its handler deletes the very file the
   * leak would have left. A leak and a failed deletion have happened, and every file is named.
   */
  lemma FailedDeletionCanUndoALeak()
    ensures var first := Do(TwoReaders(), CommitRow(1, true));
      var second := Do(first, CommitRow(2, true));
      var deleted := Do(Do(second, DeleteOld(2, true)), DeleteOld(1, false));
      var end := Do(deleted, Compensate(1, true));
      Inv(TwoReaders()) && Leaks(first, CommitRow(2, true)) && EveryFileIsNamed(end)
  {
    hide Inv;
    TwoReadersFit();
    var second := Do(Do(TwoReaders(), CommitRow(1, true)), CommitRow(2, true));
    var end := Do(Do(Do(second, DeleteOld(2, true)), DeleteOld(1, false)), Compensate(1, true));
    assert end.files == {2} && NamedBy(end, 2, 0);
  }
}
