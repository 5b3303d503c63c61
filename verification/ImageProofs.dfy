/** What every interleaving of uploads keeps, and exactly when an image url dangles. */
module ImageProofs {
  import opened Prelude
  import opened ProductImages

  /* ── The invariant ──────────────────────────────────────────────────── */

  /** The product's image url names a missing file. */
  predicate Dangles(s: State, p: nat) {
    p in s.urls && s.urls[p].Some? && s.urls[p].value !in s.files
  }

  ghost predicate NoDanglingUrl(s: State) {
    forall p :: !Dangles(s, p)
  }

  /** No two products share a file. */
  ghost predicate NoSharedFile(s: State) {
    forall p, q :: p in s.urls && q in s.urls && s.urls[p].Some? && s.urls[p] == s.urls[q] ==> p == q
  }

  /** The new file of an upload before its row is committed, or after that failed. */
  function Pending(u: Upload): Option<nat> {
    if u.Saved? || u.Aborted? then Some(u.saved) else None
  }

  /** The old file an upload has read and may later delete. */
  function Doomed(u: Upload): Option<nat> {
    if u.Read? || u.Saved? || u.Committed? then u.before else None
  }

  /** The file an upload gave to its product's row. */
  function Given(u: Upload): Option<nat> {
    if u.Committed? || u.Undoing? || u.Undone? || u.Replaced? then Some(u.saved) else None
  }

  /** A pending file is nobody's url and nobody's old file. */
  ghost predicate PendingIsPrivate(s: State, u: nat)
    requires u in s.uploads
  {
    Pending(s.uploads[u]).Some? ==>
      var name := Pending(s.uploads[u]).value;
      && name < s.nextName && (forall p :: p in s.urls ==> s.urls[p] != Some(name))
      && (s.uploads[u].Saved? ==> name in s.files)
      && (forall v :: v in s.uploads ==> Doomed(s.uploads[v]) != Some(name) && Given(s.uploads[v]) != Some(name))
      && (forall v :: v in s.uploads && v != u ==> Pending(s.uploads[v]) != Some(name))
  }

  /** An old file is at most the url of the upload's own product, and after the commit nobody's. */
  ghost predicate DoomedIsOwn(s: State, u: nat)
    requires u in s.uploads
  {
    Doomed(s.uploads[u]).Some? ==>
      var name := Doomed(s.uploads[u]).value;
      && name < s.nextName
      && (forall p :: p in s.urls && s.urls[p] == Some(name) ==> p == s.uploads[u].product && !s.uploads[u].Committed?)
  }

  /** A given file is at most the url of the upload's own product, and one that was undone is gone. */
  ghost predicate GivenIsOwn(s: State, u: nat)
    requires u in s.uploads
  {
    Given(s.uploads[u]).Some? ==>
      var name := Given(s.uploads[u]).value;
      && name < s.nextName
      && (forall p :: p in s.urls && s.urls[p] == Some(name) ==> p == s.uploads[u].product)
      && (s.uploads[u].Undone? ==> name !in s.files)
  }

  /** The upload that gave the product its image deleted that image again. */
  ghost predicate IsUndone(s: State, p: nat) {
    exists u :: UndoneBy(s, p, u)
  }

  predicate UndoneBy(s: State, p: nat, u: nat) {
    p in s.urls && u in s.uploads && s.uploads[u].Undone? && s.urls[p] == Some(s.uploads[u].saved)
  }

  ghost predicate Inv(s: State) {
    && (forall p :: Dangles(s, p) ==> IsUndone(s, p)) && NoSharedFile(s)
    && (forall p :: p in s.urls && s.urls[p].Some? ==> s.urls[p].value < s.nextName)
    && (forall f :: f in s.files ==> f < s.nextName)
    && (forall u :: u in s.uploads ==> UploadFits(s, u))
  }

  ghost predicate UploadFits(s: State, u: nat)
    requires u in s.uploads
  {
    PendingIsPrivate(s, u) && DoomedIsOwn(s, u) && GivenIsOwn(s, u)
  }

  /* ── Each step keeps it ─────────────────────────────────────────────── */

  /** Rows as before, no file of a row gone, no undone upload forgotten: the same urls dangle. */
  lemma DanglingKeep(s: State, s': State)
    requires forall p :: Dangles(s, p) ==> IsUndone(s, p)
    requires forall p :: Dangles(s', p) ==> Dangles(s, p) && s'.urls[p] == s.urls[p]
    requires forall u :: u in s.uploads && s.uploads[u].Undone? ==> u in s'.uploads && s'.uploads[u] == s.uploads[u]
    ensures forall p :: Dangles(s', p) ==> IsUndone(s', p)
  {
    forall p | Dangles(s', p) ensures IsUndone(s', p) {
      var u :| UndoneBy(s, p, u);
      assert UndoneBy(s', p, u);
    }
  }

  lemma SaveKeepsPending(s: State, a: Action, u: nat)
    requires Inv(s) && Enabled(s, a) && a.SaveFile? && u in s.uploads
    ensures PendingIsPrivate(Do(s, a), u)
  {
    assert UploadFits(s, u) && UploadFits(s, a.u);
  }

  lemma SaveFits(s: State, a: Action, u: nat)
    requires Inv(s) && Enabled(s, a) && a.SaveFile? && u in s.uploads
    ensures UploadFits(Do(s, a), u)
  {
    hide PendingIsPrivate, Dangles, IsUndone;
    SaveKeepsPending(s, a, u);
    assert UploadFits(s, u) && UploadFits(s, a.u);
  }

  lemma CommitKeepsPending(s: State, a: Action, u: nat)
    requires Inv(s) && Enabled(s, a) && a.CommitRow? && u in s.uploads
    ensures PendingIsPrivate(Do(s, a), u)
  {
    assert UploadFits(s, u) && UploadFits(s, a.u);
  }

  lemma CommitFits(s: State, a: Action, u: nat)
    requires Inv(s) && Enabled(s, a) && a.CommitRow? && u in s.uploads
    ensures UploadFits(Do(s, a), u)
  {
    hide Dangles, IsUndone;
    CommitKeepsPending(s, a, u);
    assert UploadFits(s, u) && UploadFits(s, a.u);
  }

  lemma DeleteOldKeepsPending(s: State, a: Action, u: nat)
    requires Inv(s) && Enabled(s, a) && a.DeleteOld? && u in s.uploads
    ensures PendingIsPrivate(Do(s, a), u)
  {
    assert UploadFits(s, u) && UploadFits(s, a.u);
  }

  lemma DeleteOldFits(s: State, a: Action, u: nat)
    requires Inv(s) && Enabled(s, a) && a.DeleteOld? && u in s.uploads
    ensures UploadFits(Do(s, a), u)
  {
    hide PendingIsPrivate, Dangles, IsUndone;
    DeleteOldKeepsPending(s, a, u);
    assert UploadFits(s, u) && UploadFits(s, a.u);
  }

  lemma CompensateKeepsPending(s: State, a: Action, u: nat)
    requires Inv(s) && Enabled(s, a) && a.Compensate? && u in s.uploads
    ensures PendingIsPrivate(Do(s, a), u)
  {
    assert UploadFits(s, u) && UploadFits(s, a.u);
  }

  lemma CompensateFits(s: State, a: Action, u: nat)
    requires Inv(s) && Enabled(s, a) && a.Compensate? && u in s.uploads
    ensures UploadFits(Do(s, a), u)
  {
    hide PendingIsPrivate, Dangles, IsUndone;
    CompensateKeepsPending(s, a, u);
    assert UploadFits(s, u) && UploadFits(s, a.u);
  }

  /** Of a row's file, only an undone one is deleted. */
  lemma DeletionDangles(s: State, a: Action, p: nat)
    requires Inv(s) && Enabled(s, a) && (a.DeleteOld? || a.Compensate?) && Dangles(Do(s, a), p)
    ensures IsUndone(Do(s, a), p)
  {
    var s' := Do(s, a);
    assert UploadFits(s, a.u);
    if Dangles(s, p) {
      var u :| UndoneBy(s, p, u);
      assert UndoneBy(s', p, u);
    } else {
      assert UndoneBy(s', p, a.u);
    }
  }

  lemma BeginFits(s: State, a: Action, u: nat)
    requires Inv(s) && Enabled(s, a) && a.Begin? && u in Do(s, a).uploads
    ensures UploadFits(Do(s, a), u)
  {
  }

  lemma ReadKeepsPending(s: State, a: Action, u: nat)
    requires Inv(s) && Enabled(s, a) && a.ReadRow? && u in s.uploads
    ensures PendingIsPrivate(Do(s, a), u)
  {
    assert UploadFits(s, u) && UploadFits(s, a.u);
  }

  lemma ReadFits(s: State, a: Action, u: nat)
    requires Inv(s) && Enabled(s, a) && a.ReadRow? && u in s.uploads
    ensures UploadFits(Do(s, a), u)
  {
    hide PendingIsPrivate, Dangles, IsUndone;
    ReadKeepsPending(s, a, u);
    assert UploadFits(s, u) && UploadFits(s, a.u);
  }

  lemma RowStepFits(s: State, a: Action, u: nat)
    requires Inv(s) && Enabled(s, a) && (a.CreateProduct? || a.RemoveProduct?) && u in s.uploads
    ensures UploadFits(Do(s, a), u)
  {
  }

  lemma StepFits(s: State, a: Action, u: nat)
    requires Inv(s) && Enabled(s, a) && u in Do(s, a).uploads
    ensures UploadFits(Do(s, a), u)
  {
    if a.SaveFile? { SaveFits(s, a, u); }
    else if a.CommitRow? { CommitFits(s, a, u); }
    else if a.DeleteOld? { DeleteOldFits(s, a, u); }
    else if a.Compensate? { CompensateFits(s, a, u); }
    else if a.Begin? { BeginFits(s, a, u); }
    else if a.ReadRow? { ReadFits(s, a, u); }
    else { RowStepFits(s, a, u); }
  }

  lemma StepDangles(s: State, a: Action)
    requires Inv(s) && Enabled(s, a)
    ensures forall p :: Dangles(Do(s, a), p) ==> IsUndone(Do(s, a), p)
  {
    if a.DeleteOld? || a.Compensate? {
      forall p | Dangles(Do(s, a), p) ensures IsUndone(Do(s, a), p) { DeletionDangles(s, a, p); }
    } else {
      if a.CommitRow? { assert UploadFits(s, a.u); }
      DanglingKeep(s, Do(s, a));
    }
  }

  lemma StepKeepsInv(s: State, a: Action)
    requires Inv(s) && Enabled(s, a)
    ensures Inv(Do(s, a))
  {
    forall u | u in Do(s, a).uploads ensures UploadFits(Do(s, a), u) { StepFits(s, a, u); }
    StepDangles(s, a);
    if a.CommitRow? { assert UploadFits(s, a.u); }
  }

  lemma {:induction false} RunKeepsInv(s: State, actions: seq<Action>)
    requires Inv(s) && Runs(s, actions)
    ensures Inv(After(s, actions))
    decreases |actions|
  {
    if actions != [] {
      StepKeepsInv(s, actions[0]);
      RunKeepsInv(Do(s, actions[0]), actions[1..]);
    }
  }

  /* ── When a url dangles ─────────────────────────────────────────────── */

  /**
   * Under every interleaving of uploads, failures, product creations and deletions: an image
   * url dangles exactly if it was given by an upload whose deletion of the old file failed
   * and whose handler then deleted the new one; and no two products share a file.
   */
  lemma UrlDanglesExactlyIfItsUploadWasUndone(s: State, actions: seq<Action>, p: nat)
    requires Init(s) && Runs(s, actions)
    ensures Dangles(After(s, actions), p) <==> IsUndone(After(s, actions), p)
    ensures NoSharedFile(After(s, actions))
  {
    RunKeepsInv(s, actions);
    var end := After(s, actions);
    if IsUndone(end, p) {
      var u :| UndoneBy(end, p, u);
      assert UploadFits(end, u);
    }
  }

  /**
   * The handler at work after the commit: of all products only the upload's own can lose its
   * file, and does exactly if its row still names the new one.
   */
  lemma HandlerBreaksExactlyItsOwnCurrentRow(s: State, u: nat, p: nat)
    requires Inv(s) && u in s.uploads && s.uploads[u].Undoing?
    ensures Dangles(Do(s, Compensate(u, true)), p) <==>
      Dangles(s, p) || (p == s.uploads[u].product && p in s.urls && s.urls[p] == Some(s.uploads[u].saved))
  {
  }

  /** No deletion that follows a commit fails. */
  predicate DeletionsWork(actions: seq<Action>) {
    forall i :: 0 <= i < |actions| && actions[i].DeleteOld? ==> actions[i].works
  }

  lemma {:induction false} NothingIsUndone(s: State, actions: seq<Action>)
    requires Runs(s, actions) && DeletionsWork(actions)
    requires forall u :: u in s.uploads ==> !s.uploads[u].Undoing? && !s.uploads[u].Undone?
    ensures forall u :: u in After(s, actions).uploads ==> !After(s, actions).uploads[u].Undone?
    decreases |actions|
  {
    if actions != [] {
      assert actions[0].DeleteOld? ==> actions[0].works;
      NothingIsUndone(Do(s, actions[0]), actions[1..]);
    }
  }

  /** So as long as those deletions work every image url names an existing file, and no two products share one. */
  lemma ImagesNeverDangle(s: State, actions: seq<Action>)
    requires Init(s) && Runs(s, actions) && DeletionsWork(actions)
    ensures NoDanglingUrl(After(s, actions)) && NoSharedFile(After(s, actions))
  {
    NothingIsUndone(s, actions);
    forall p ensures !Dangles(After(s, actions), p) {
      UrlDanglesExactlyIfItsUploadWasUndone(s, actions, p);
    }
    RunKeepsInv(s, actions);
  }
}
