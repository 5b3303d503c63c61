/**
 * Replacing and deleting product images: files on disk and rows in the database, updated in
 * separate steps by any number of concurrent uploads
 * (backend/src/modules/inventory/products/services.ts, backend/src/lib/uploads.ts).
 */
module ProductImages {
  import opened Prelude

  /** Where one upload is; `before` is the image url read from the row, `saved` the new file. */
  datatype Upload =
    | Started(product: nat)
    | Read(product: nat, before: Option<nat>)
    | Saved(product: nat, before: Option<nat>, saved: nat)
    | Committed(product: nat, before: Option<nat>, saved: nat)
    | Aborted(product: nat, saved: nat)                         // the transaction failed
    | Undoing(product: nat, before: Option<nat>, saved: nat)    // it committed, and deleting the old file failed
    | Replaced(product: nat, before: Option<nat>, saved: nat)   // done
    | Undone(product: nat, saved: nat)                          // the handler deleted the file the row was given
    | Failed(product: nat)

  /**
   * File names are fresh names; `urls` holds the `imageUrl` of every product row, `created`
   * every product there ever was.
   */
  datatype State = State(
    files: set<nat>,
    urls: map<nat, Option<nat>>,
    uploads: map<nat, Upload>,
    nextName: nat,
    created: set<nat>)

  datatype Action =
    | Begin(u: nat, product: nat)
    | ReadRow(u: nat)
    | SaveFile(u: nat, image: bool)      // `image`: the bytes are a recognised image
    | CommitRow(u: nat, succeeds: bool)  // the transaction may fail for any reason
    | DeleteOld(u: nat, works: bool)     // so may a deletion, except that of no file
    | Compensate(u: nat, works: bool)
    | CreateProduct(product: nat)
    | RemoveProduct(product: nat)

  predicate Enabled(s: State, a: Action) {
    match a
    case Begin(u, _) => u !in s.uploads
    case CreateProduct(p) => p !in s.created
    case RemoveProduct(p) => true
    case ReadRow(u) => u in s.uploads && s.uploads[u].Started?
    case SaveFile(u, _) => u in s.uploads && s.uploads[u].Read?
    case CommitRow(u, _) => u in s.uploads && s.uploads[u].Saved?
    case DeleteOld(u, works) => u in s.uploads && s.uploads[u].Committed? && (works || s.uploads[u].before.Some?)
    case Compensate(u, _) => u in s.uploads && (s.uploads[u].Aborted? || s.uploads[u].Undoing?)
  }

  function Move(s: State, u: nat, to: Upload): State {
    s.(uploads := s.uploads[u := to])
  }

  function Without(files: set<nat>, name: Option<nat>): set<nat> {
    if name.Some? then files - {name.value} else files
  }

  function Do(s: State, a: Action): State
    requires Enabled(s, a)
  {
    match a
    case Begin(u, product) => Move(s, u, Started(product))
    case ReadRow(u) =>
      var p := s.uploads[u].product;
      if p in s.urls then Move(s, u, Read(p, s.urls[p])) else Move(s, u, Failed(p))
    case SaveFile(u, image) =>
      var Read(p, before) := s.uploads[u];
      if image then
        Move(s, u, Saved(p, before, s.nextName)).(files := s.files + {s.nextName}, nextName := s.nextName + 1)
      else Move(s, u, Failed(p))
    case CommitRow(u, succeeds) =>
      var Saved(p, before, saved) := s.uploads[u];
      if succeeds && p in s.urls then Move(s, u, Committed(p, before, saved)).(urls := s.urls[p := Some(saved)])
      else Move(s, u, Aborted(p, saved))
    case DeleteOld(u, works) =>
      var Committed(p, before, saved) := s.uploads[u];
      if works then Move(s, u, Replaced(p, before, saved)).(files := Without(s.files, before))
      else Move(s, u, Undoing(p, before, saved))
    case Compensate(u, works) =>
      var p, saved := s.uploads[u].product, s.uploads[u].saved;
      if !works then Move(s, u, Failed(p))
      else Move(s, u, if s.uploads[u].Undoing? then Undone(p, saved) else Failed(p)).(files := s.files - {saved})
    case CreateProduct(p) => s.(urls := s.urls[p := None], created := s.created + {p})
    case RemoveProduct(p) => s.(urls := s.urls - {p})
  }

  ghost predicate Runs(s: State, actions: seq<Action>)
    decreases |actions|
  {
    actions == [] || (Enabled(s, actions[0]) && Runs(Do(s, actions[0]), actions[1..]))
  }

  ghost function After(s: State, actions: seq<Action>): State
    requires Runs(s, actions)
    decreases |actions|
  {
    if actions == [] then s else After(Do(s, actions[0]), actions[1..])
  }

  /** Products without images, an empty directory and no upload under way. */
  ghost predicate Init(s: State) {
    && s.uploads == map[] && s.files == {} && s.urls.Keys <= s.created
    && forall p :: p in s.urls ==> s.urls[p] == None
  }

  /* ── One upload without interference ────────────────────────────────── */

  /** What goes wrong around one upload: the bytes, the transaction, either deletion. */
  datatype Weather = Weather(image: bool, commits: bool, deletes: bool, cleans: bool)

  /** The protocol steps of one upload taken in a row. */
  function Alone(files: set<nat>, urls: map<nat, Option<nat>>, nextName: nat, product: nat, w: Weather): (end: State)
    ensures 0 in end.uploads
  {
    var s := Do(State(files, urls, map[0 := Started(product)], nextName, urls.Keys), ReadRow(0));
    if s.uploads[0].Failed? then s
    else
      var saved := Do(s, SaveFile(0, w.image));
      if saved.uploads[0].Failed? then saved
      else
        var tried := Do(saved, CommitRow(0, w.commits));
        if tried.uploads[0].Aborted? then Do(tried, Compensate(0, w.cleans))
        else
          var deleted := Do(tried, DeleteOld(0, w.deletes || urls[product].None?));
          if deleted.uploads[0].Replaced? then deleted else Do(deleted, Compensate(0, w.cleans))
  }

  /** Every image url names an existing file. */
  predicate AllUrlsHold(files: set<nat>, urls: map<nat, Option<nat>>) {
    forall p :: p in urls && urls[p].Some? ==> urls[p].value in files
  }

  /** Every name in use is one that was given out. */
  predicate NamesAreOld(files: set<nat>, urls: map<nat, Option<nat>>, nextName: nat) {
    && (forall f :: f in files ==> f < nextName)
    && (forall p :: p in urls && urls[p].Some? ==> urls[p].value < nextName)
  }

  /** No two products share a file. */
  predicate NothingShared(urls: map<nat, Option<nat>>) {
    forall p, q :: p in urls && q in urls && urls[p].Some? && urls[p] == urls[q] ==> p == q
  }

  /** The bytes are an image and the product exists. */
  predicate Saves(urls: map<nat, Option<nat>>, product: nat, w: Weather) {
    product in urls && w.image
  }

  predicate Succeeds(urls: map<nat, Option<nat>>, product: nat, w: Weather) {
    Saves(urls, product, w) && w.commits && (w.deletes || urls[product].None?)
  }

  function FilesAfter(files: set<nat>, urls: map<nat, Option<nat>>, nextName: nat, product: nat, w: Weather): set<nat> {
    if Succeeds(urls, product, w) then Without(files + {nextName}, urls[product])
    else if Saves(urls, product, w) && !w.cleans then files + {nextName}
    else files
  }

  function UrlsAfter(urls: map<nat, Option<nat>>, nextName: nat, product: nat, w: Weather): map<nat, Option<nat>> {
    if Saves(urls, product, w) && w.commits then urls[product := Some(nextName)] else urls
  }

  /** How the steps of one upload end. */
  lemma AloneEnds(files: set<nat>, urls: map<nat, Option<nat>>, nextName: nat, product: nat, w: Weather)
    requires NamesAreOld(files, urls, nextName)
    ensures var s := Alone(files, urls, nextName, product, w);
      && (s.uploads[0].Replaced? <==> Succeeds(urls, product, w))
      && s.nextName == (if Saves(urls, product, w) then nextName + 1 else nextName)
      && s.urls == UrlsAfter(urls, nextName, product, w)
      && s.files == FilesAfter(files, urls, nextName, product, w)
  {
  }

  /**
   * One upload alone leaves a url without its file exactly if the row was committed, deleting
   * the old file failed, and deleting the new one did not.
   */
  lemma AloneDangles(files: set<nat>, urls: map<nat, Option<nat>>, nextName: nat, product: nat, w: Weather)
    requires NamesAreOld(files, urls, nextName) && NothingShared(urls) && AllUrlsHold(files, urls)
    ensures AllUrlsHold(FilesAfter(files, urls, nextName, product, w), UrlsAfter(urls, nextName, product, w))
      <==> !(Saves(urls, product, w) && w.commits && urls[product].Some? && !w.deletes && w.cleans)
  {
    if Saves(urls, product, w) && w.commits {
      assert UrlsAfter(urls, nextName, product, w)[product] == Some(nextName);
    }
  }

  lemma AloneKeepsNames(files: set<nat>, urls: map<nat, Option<nat>>, nextName: nat, product: nat, w: Weather)
    requires NamesAreOld(files, urls, nextName) && NothingShared(urls)
    ensures NothingShared(UrlsAfter(urls, nextName, product, w))
    ensures NamesAreOld(FilesAfter(files, urls, nextName, product, w), UrlsAfter(urls, nextName, product, w),
              if Saves(urls, product, w) then nextName + 1 else nextName)
  {
  }

  /* ── The service in its own form, one caller at a time ──────────────── */

  class ImageService {
    var files: set<nat>
    var urls: map<nat, Option<nat>>
    var nextName: nat

    constructor ()
      ensures Valid() && files == {} && urls == map[]
    {
      files, urls, nextName := {}, map[], 0;
    }

    predicate Valid()
      reads this
    {
      NamesAreOld(files, urls, nextName) && NothingShared(urls)
    }

    method SaveImage(image: bool) returns (saved: Result<nat>)
      modifies this`files, this`nextName
      ensures image ==>
        saved == Ok(old(nextName)) && files == old(files) + {old(nextName)} && nextName == old(nextName) + 1
      ensures !image ==> saved == Err(BadRequest) && files == old(files) && nextName == old(nextName)
    {
      if !image {
        return Err(BadRequest);
      }
      files := files + {nextName};
      saved := Ok(nextName);
      nextName := nextName + 1;
    }

    /** `works`: the file system does not refuse; a missing file is no error. */
    method DeleteImageByUrl(url: Option<nat>, works: bool) returns (r: Result<()>)
      modifies this`files
      ensures r.Ok? <==> works || url.None?
      ensures files == if works then Without(old(files), url) else old(files)
    {
      if url.None? {
        return Ok(());
      }
      if !works {
        return Err(Internal);
      }
      files := files - {url.value};
      r := Ok(());
    }

    /**
     * Replaces the image: afterwards the row names a new file, the old file is gone, and
     * every other row and file is as before. The url dangles afterwards exactly if the row
     * was committed, deleting the old file failed, and deleting the new one did not.
     */
    method UploadImage(product: nat, w: Weather) returns (r: Result<nat>)
      requires Valid()
      modifies this
      ensures Valid()
      ensures var s := Alone(old(files), old(urls), old(nextName), product, w);
        files == s.files && urls == s.urls && nextName == s.nextName && (r.Ok? <==> s.uploads[0].Replaced?)
      ensures product !in old(urls) ==> r == Err(NotFound)
      ensures product in old(urls) && !w.image ==> r == Err(BadRequest)
      ensures r.Ok? ==>
        && r.value !in old(files) && urls == old(urls)[product := Some(r.value)]
        && files == Without(old(files), old(urls)[product]) + {r.value}
      ensures r.Err? && w.cleans ==> files == old(files)
      ensures old(AllUrlsHold(files, urls)) ==>
        (AllUrlsHold(files, urls) <==>
           !(Saves(old(urls), product, w) && w.commits && old(urls)[product].Some? && !w.deletes && w.cleans))
    {
      hide Alone, AllUrlsHold, NothingShared;
      AloneEnds(files, urls, nextName, product, w);
      AloneKeepsNames(files, urls, nextName, product, w);
      if AllUrlsHold(files, urls) { AloneDangles(files, urls, nextName, product, w); }
      if product !in urls {
        return Err(NotFound);
      }
      var before := urls[product];
      var saved := SaveImage(w.image);
      if saved.Err? {
        return Err(saved.error);
      }
      r := Err(Internal);
      if w.commits {
        urls := urls[product := Some(saved.value)];
        var deleted := DeleteImageByUrl(before, w.deletes);
        if deleted.Ok? {
          r := Ok(saved.value);
        }
      }
      if r.Err? {
        var cleaned := DeleteImageByUrl(Some(saved.value), w.cleans);
      }
    }

    /** Deletes the row; the file stays on disk. */
    method Remove(product: nat) returns (r: Result<()>)
      requires Valid()
      modifies this`urls
      ensures Valid()
      ensures product in old(urls) ==> r == Ok(()) && urls == old(urls) - {product}
      ensures product !in old(urls) ==> r == Err(NotFound) && urls == old(urls)
    {
      if product !in urls {
        return Err(NotFound);
      }
      urls := urls - {product};
      r := Ok(());
    }
  }
}
