/** Garbage collection of the Shaman file store (shaman/cleanup.go). The file
    store is a map from path to the file's modification time and size. The two
    directory walks are given as the sequences of what filepath.Walk hands to
    the visit function, in order; os.Stat and RemoveStoredFile failures are
    given as sets of paths. */
module ShamanCleanup {
  import opened Common

  /** A stored file: what os.Stat reports about it. */
  datatype StoredFile = StoredFile(mtime: Time, size: nat)

  /** One call of the visit function while walking the file store: a walk
      error, or a path with whether it is a directory and its mtime. */
  datatype StoreVisit = StoreWalkError | StoreItem(path: string, isDir: bool, mtime: Time)

  /** One call of the visit function while walking a checkout directory: a
      walk error, or a path with whether it is a directory, whether it is a
      symlink and, for a symlink, what filepath.EvalSymlinks resolves it to
      (None when that fails). */
  datatype CheckoutVisit =
    | CheckoutWalkError
    | CheckoutItem(path: string, isDir: bool, isSymlink: bool, target: Option<string>)

  /** GCStats. */
  datatype GCStats = GCStats(
    numSymlinksChecked: int,
    numOldFiles: int,
    numUnusedOldFiles: int,
    numStillUsedOldFiles: int,
    numFilesDeleted: int,
    numFilesNotDeleted: int,
    bytesDeleted: int)

  const ZeroStats := GCStats(0, 0, 0, 0, 0, 0, 0)

  // ---------------------------------------------------------------------
  // gcAgeThreshold

  /** t.Round(time.Second): to the nearest whole second, halfway values up. */
  function RoundToSecond(t: Time): (r: Time)
    ensures r % Second == 0
    ensures -Second < 2 * (r - t) <= Second
  {
    var rem := t % Second;
    if rem + rem < Second then t - rem else t + (Second - rem)
  }

  /** gcAgeThreshold: now minus the maximum age, rounded to the second. */
  function GcAgeThreshold(now: Time, maxAge: Duration): (threshold: Time)
    ensures threshold % Second == 0
    ensures now - maxAge - Second / 2 < threshold <= now - maxAge + Second / 2
  {
    RoundToSecond(now - maxAge)
  }

  // ---------------------------------------------------------------------
  // gcFindOldFiles

  /** A regular file whose mtime is strictly before the threshold. */
  predicate IsOldFile(v: StoreVisit, ageThreshold: Time)
  {
    v.StoreItem? && !v.isDir && v.mtime < ageThreshold
  }

  predicate StoreWalkFails(walk: seq<StoreVisit>)
  {
    exists i :: 0 <= i < |walk| && walk[i].StoreWalkError?
  }

  /** The map gcFindOldFiles fills: every old file's path to its mtime. */
  ghost function OldFilesOf(walk: seq<StoreVisit>, ageThreshold: Time): map<string, Time>
    decreases |walk|
  {
    if |walk| == 0 then map[]
    else
      var m := OldFilesOf(walk[..|walk| - 1], ageThreshold);
      var v := walk[|walk| - 1];
      if IsOldFile(v, ageThreshold) then m[v.path := v.mtime] else m
  }

  /** The old-file map holds exactly the paths of the old files visited, each
      with the mtime the walk reported for it, which is before the threshold. */
  lemma {:induction false} OldFilesExactly(walk: seq<StoreVisit>, ageThreshold: Time, p: string)
    ensures p in OldFilesOf(walk, ageThreshold) <==>
              exists i :: 0 <= i < |walk| && IsOldFile(walk[i], ageThreshold) && walk[i].path == p
    ensures p in OldFilesOf(walk, ageThreshold) ==>
              && OldFilesOf(walk, ageThreshold)[p] < ageThreshold
              && exists i :: 0 <= i < |walk| && IsOldFile(walk[i], ageThreshold) && walk[i].path == p
                             && walk[i].mtime == OldFilesOf(walk, ageThreshold)[p]
    decreases |walk|
  {
    if |walk| > 0 {
      var init := walk[..|walk| - 1];
      OldFilesExactly(init, ageThreshold, p);
      forall i | 0 <= i < |init|
        ensures init[i] == walk[i]
      {
      }
    }
  }

  /** gcFindOldFiles: walk the file store and collect every regular file
      older than the threshold; any walk error discards the result. */
  method FindOldFiles(ageThreshold: Time, walk: seq<StoreVisit>) returns (r: Option<map<string, Time>>)
    ensures r.None? <==> StoreWalkFails(walk)
    ensures r.Some? ==> r.value == OldFilesOf(walk, ageThreshold)
  {
    var oldFiles: map<string, Time> := map[];
    var i := 0;
    while i < |walk|
      invariant 0 <= i <= |walk|
      invariant forall j :: 0 <= j < i ==> !walk[j].StoreWalkError?
      invariant oldFiles == OldFilesOf(walk[..i], ageThreshold)
    {
      var v := walk[i];
      if v.StoreWalkError? {
        return None;
      }
      assert walk[..i + 1][..i] == walk[..i];
      if !v.isDir && v.mtime < ageThreshold {
        oldFiles := oldFiles[v.path := v.mtime];
      }
      i := i + 1;
    }
    assert walk[..i] == walk;
    r := Some(oldFiles);
  }

  // ---------------------------------------------------------------------
  // gcFilterLinkedFiles

  /** The visits gcFilterLinkedFiles acts on: non-directory symlinks. */
  predicate IsLink(v: CheckoutVisit)
  {
    v.CheckoutItem? && !v.isDir && v.isSymlink
  }

  /** Where the walk stops: the first walk error, or the end. */
  function FirstError(walk: seq<CheckoutVisit>): (r: nat)
    ensures r <= |walk|
    ensures r < |walk| ==> walk[r].CheckoutWalkError?
    ensures forall j :: 0 <= j < r ==> !walk[j].CheckoutWalkError?
    decreases |walk|
  {
    if |walk| == 0 then 0
    else if walk[0].CheckoutWalkError? then 0
    else 1 + FirstError(walk[1..])
  }

  /** The number of symlinks visited. */
  function Symlinks(walk: seq<CheckoutVisit>): nat
    decreases |walk|
  {
    if |walk| == 0 then 0
    else Symlinks(walk[..|walk| - 1]) + if IsLink(walk[|walk| - 1]) then 1 else 0
  }

  /** The resolved targets of the symlinks visited. */
  ghost function Targets(walk: seq<CheckoutVisit>): set<string>
    decreases |walk|
  {
    if |walk| == 0 then {}
    else
      var v := walk[|walk| - 1];
      Targets(walk[..|walk| - 1]) + if IsLink(v) && v.target.Some? then {v.target.value} else {}
  }

  /** The old files map without the given paths. */
  ghost function Unlinked(oldFiles: map<string, Time>, targets: set<string>): (r: map<string, Time>)
    ensures r.Keys == oldFiles.Keys - targets
  {
    map p | p in oldFiles && p !in targets :: oldFiles[p]
  }

  /** gcFilterLinkedFiles: walk a checkout directory, count its symlinks and
      drop every resolved target from the old files; a walk error stops the
      walk and is reported, leaving the map as far as it got. */
  method FilterLinkedFiles(walk: seq<CheckoutVisit>, oldFiles: map<string, Time>, numSymlinksChecked: int)
    returns (oldFiles': map<string, Time>, numSymlinksChecked': int, ok: bool)
    ensures ok <==> FirstError(walk) == |walk|
    ensures oldFiles' == Unlinked(oldFiles, Targets(walk[..FirstError(walk)]))
    ensures numSymlinksChecked' == numSymlinksChecked + Symlinks(walk[..FirstError(walk)])
  {
    oldFiles' := oldFiles;
    numSymlinksChecked' := numSymlinksChecked;
    var i := 0;
    while i < |walk|
      invariant 0 <= i <= |walk|
      invariant forall j :: 0 <= j < i ==> !walk[j].CheckoutWalkError?
      invariant oldFiles' == Unlinked(oldFiles, Targets(walk[..i]))
      invariant numSymlinksChecked' == numSymlinksChecked + Symlinks(walk[..i])
    {
      var v := walk[i];
      if v.CheckoutWalkError? {
        return oldFiles', numSymlinksChecked', false;
      }
      assert walk[..i + 1][..i] == walk[..i];
      if v.isDir || !v.isSymlink {
        i := i + 1;
        continue;
      }
      numSymlinksChecked' := numSymlinksChecked' + 1;
      if v.target.Some? {
        // Delete the link target from the old files, if it was there at all.
        oldFiles' := map p | p in oldFiles' && p != v.target.value :: oldFiles'[p];
      }
      i := i + 1;
    }
    assert walk[..i] == walk;
    ok := true;
  }

  // ---------------------------------------------------------------------
  // All checkout directories in turn

  /** The walks of several directories, one after the other. */
  function Flatten(walks: seq<seq<CheckoutVisit>>): seq<CheckoutVisit>
    decreases |walks|
  {
    if |walks| == 0 then [] else Flatten(walks[..|walks| - 1]) + walks[|walks| - 1]
  }

  lemma {:induction false} FlattenAppend(a: seq<seq<CheckoutVisit>>, b: seq<seq<CheckoutVisit>>)
    ensures Flatten(a + b) == Flatten(a) + Flatten(b)
    decreases |b|
  {
    if |b| == 0 {
      assert a + b == a;
    } else {
      var init := b[..|b| - 1];
      assert (a + b)[..|a + b| - 1] == a + init;
      assert (a + b)[|a + b| - 1] == b[|b| - 1];
      FlattenAppend(a, init);
      calc {
        Flatten(a + b);
        Flatten(a + init) + b[|b| - 1];
        Flatten(a) + Flatten(init) + b[|b| - 1];
        Flatten(a) + (Flatten(init) + b[|b| - 1]);
        Flatten(a) + Flatten(b);
      }
    }
  }

  lemma {:induction false} TargetsAppend(a: seq<CheckoutVisit>, b: seq<CheckoutVisit>)
    ensures Targets(a + b) == Targets(a) + Targets(b)
    ensures Symlinks(a + b) == Symlinks(a) + Symlinks(b)
    decreases |b|
  {
    if |b| == 0 {
      assert a + b == a;
    } else {
      assert (a + b)[..|a + b| - 1] == a + b[..|b| - 1];
      TargetsAppend(a, b[..|b| - 1]);
    }
  }

  lemma UnlinkedTwice(m: map<string, Time>, s: set<string>, t: set<string>)
    ensures Unlinked(Unlinked(m, s), t) == Unlinked(m, s + t)
  {
  }

  /** A walk that fails at `k`, after walks without errors, stops the whole
      sequence of walks there. */
  lemma {:induction false} FirstErrorAt(prior: seq<CheckoutVisit>, w: seq<CheckoutVisit>, rest: seq<CheckoutVisit>)
    requires FirstError(prior) == |prior| && FirstError(w) < |w|
    ensures FirstError(prior + w + rest) == |prior| + FirstError(w)
    ensures (prior + w + rest)[..FirstError(prior + w + rest)] == prior + w[..FirstError(w)]
  {
    var all := prior + w + rest;
    var k := |prior| + FirstError(w);
    assert all[k] == w[FirstError(w)];
    forall j | 0 <= j < k
      ensures !all[j].CheckoutWalkError?
    {
      if j >= |prior| {
        assert all[j] == w[j - |prior|];
      }
    }
    assert all[..k] == prior + w[..FirstError(w)];
  }

  lemma {:induction false} NoErrorAppend(a: seq<CheckoutVisit>, b: seq<CheckoutVisit>)
    requires FirstError(a) == |a| && FirstError(b) == |b|
    ensures FirstError(a + b) == |a + b|
  {
    var all := a + b;
    forall j | 0 <= j < |all|
      ensures !all[j].CheckoutWalkError?
    {
      if j < |a| {
        assert all[j] == a[j];
      } else {
        assert all[j] == b[j - |a|];
      }
    }
  }

  /** The loop of GCStorage over the checkout path and the extra checkout
      directories: each is walked in turn and the first walk error stops it. */
  method FilterAll(walks: seq<seq<CheckoutVisit>>, found: map<string, Time>)
    returns (oldFiles: map<string, Time>, numSymlinksChecked: int, ok: bool)
    ensures var all := Flatten(walks);
            && (ok <==> FirstError(all) == |all|)
            && oldFiles == Unlinked(found, Targets(all[..FirstError(all)]))
            && numSymlinksChecked == Symlinks(all[..FirstError(all)])
  {
    oldFiles := found;
    numSymlinksChecked := 0;
    var k := 0;
    while k < |walks|
      invariant 0 <= k <= |walks|
      invariant FirstError(Flatten(walks[..k])) == |Flatten(walks[..k])|
      invariant oldFiles == Unlinked(found, Targets(Flatten(walks[..k])))
      invariant numSymlinksChecked == Symlinks(Flatten(walks[..k]))
    {
      var ok';
      oldFiles, numSymlinksChecked, ok' := FilterLinkedFiles(walks[k], oldFiles, numSymlinksChecked);
      AfterWalk(walks, k, found);
      if !ok' {
        return oldFiles, numSymlinksChecked, false;
      }
      k := k + 1;
    }
    assert walks[..k] == walks;
    var all := Flatten(walks);
    assert all[..FirstError(all)] == all;
    ok := true;
  }

  /** The effect of walking directory `k` after clean walks of the ones
      before it: a clean walk extends the clean prefix; a failing one stops
      the whole sequence of walks inside directory `k`. */
  lemma AfterWalk(walks: seq<seq<CheckoutVisit>>, k: nat, found: map<string, Time>)
    requires k < |walks|
    requires FirstError(Flatten(walks[..k])) == |Flatten(walks[..k])|
    ensures var walked := Flatten(walks[..k]);
            var w := walks[k];
            var seen := w[..FirstError(w)];
            var upTo := if FirstError(w) == |w| then Flatten(walks[..k + 1])
                        else Flatten(walks)[..FirstError(Flatten(walks))];
            && (FirstError(w) == |w| ==> FirstError(Flatten(walks[..k + 1])) == |Flatten(walks[..k + 1])|)
            && (FirstError(w) < |w| ==> FirstError(Flatten(walks)) < |Flatten(walks)|)
            && Unlinked(Unlinked(found, Targets(walked)), Targets(seen)) == Unlinked(found, Targets(upTo))
            && Symlinks(walked) + Symlinks(seen) == Symlinks(upTo)
  {
    var walked := Flatten(walks[..k]);
    var w := walks[k];
    var seen := w[..FirstError(w)];
    assert walks[..k + 1][..k] == walks[..k];
    assert Flatten(walks[..k + 1]) == walked + w;
    TargetsAppend(walked, seen);
    UnlinkedTwice(found, Targets(walked), Targets(seen));
    if FirstError(w) == |w| {
      assert seen == w;
      NoErrorAppend(walked, w);
    } else {
      WalkFailsAt(walks, k);
    }
  }

  /** When the walk of directory `k` fails after clean walks of the ones before
      it, the whole sequence of walks stops inside directory `k`. */
  lemma WalkFailsAt(walks: seq<seq<CheckoutVisit>>, k: nat)
    requires k < |walks|
    requires FirstError(Flatten(walks[..k])) == |Flatten(walks[..k])| && FirstError(walks[k]) < |walks[k]|
    ensures var all := Flatten(walks);
            && FirstError(all) < |all|
            && all[..FirstError(all)] == Flatten(walks[..k]) + walks[k][..FirstError(walks[k])]
  {
    assert walks == walks[..k + 1] + walks[k + 1..];
    FlattenAppend(walks[..k + 1], walks[k + 1..]);
    assert walks[..k + 1][..k] == walks[..k];
    FirstErrorAt(Flatten(walks[..k]), walks[k], Flatten(walks[k + 1..]));
  }

  // ---------------------------------------------------------------------
  // gcDeleteOldFiles

  /** os.Stat succeeds and shows the file modified after the mtime recorded
      when it was found old: it is kept. */
  predicate TouchedAgain(files: map<string, StoredFile>, statErrors: set<string>, oldFiles: map<string, Time>, p: string)
    requires p in oldFiles
  {
    p in files && p !in statErrors && files[p].mtime > oldFiles[p]
  }

  /** The bytes counted for `p`: its size when os.Stat succeeds and it was
      not touched again. */
  function BytesOf(files: map<string, StoredFile>, statErrors: set<string>, oldFiles: map<string, Time>, p: string): nat
    requires p in oldFiles
  {
    if p in files && p !in statErrors && !TouchedAgain(files, statErrors, oldFiles, p) then files[p].size else 0
  }

  /** RemoveStoredFile(p) succeeds: the file is there and its removal does not fail. */
  predicate Removes(files: map<string, StoredFile>, statErrors: set<string>, oldFiles: map<string, Time>,
                    removeFails: set<string>, p: string)
    requires p in oldFiles
  {
    !TouchedAgain(files, statErrors, oldFiles, p) && p in files && p !in removeFails
  }

  /** The files among `done` that the run removes; none in a dry run. */
  ghost function Removed(doDryRun: bool, files: map<string, StoredFile>, statErrors: set<string>,
                              oldFiles: map<string, Time>, removeFails: set<string>, done: set<string>): set<string>
  {
    if doDryRun then {}
    else set p | p in done && p in oldFiles && Removes(files, statErrors, oldFiles, removeFails, p)
  }

  /** A dry run removes nothing. */
  lemma DryRunRemovesNothing(files: map<string, StoredFile>, statErrors: set<string>,
                             oldFiles: map<string, Time>, removeFails: set<string>, among: set<string>)
    ensures Removed(true, files, statErrors, oldFiles, removeFails, among) == {}
  {
  }

  /** What garbage collection may remove: only in a real run, only a file
      found old and not linked from any checkout walked, still present, not
      touched again since it was found, and whose removal did not fail. */
  lemma RemovedOnlyUnusedUntouched(doDryRun: bool, files: map<string, StoredFile>, statErrors: set<string>,
                                   found: map<string, Time>, linked: set<string>, removeFails: set<string>, p: string)
    requires p in Removed(doDryRun, files, statErrors, Unlinked(found, linked), removeFails, Unlinked(found, linked).Keys)
    ensures !doDryRun && p in found && p !in linked && p in files && p !in removeFails
    ensures !TouchedAgain(files, statErrors, found, p)
  {
  }

  /** Visiting one more file adds it to the removed ones exactly when it is removed. */
  lemma RemovedStep(doDryRun: bool, files: map<string, StoredFile>, statErrors: set<string>,
                    oldFiles: map<string, Time>, removeFails: set<string>, done: set<string>, path: string)
    requires path in oldFiles && path !in done
    ensures var before := Removed(doDryRun, files, statErrors, oldFiles, removeFails, done);
            && path !in before
            && Removed(doDryRun, files, statErrors, oldFiles, removeFails, done + {path})
               == if !doDryRun && Removes(files, statErrors, oldFiles, removeFails, path) then before + {path} else before
  {
  }

  /** `order` lists each element of `done`, a set of old files, exactly once. */
  ghost predicate Enumerates(order: seq<string>, done: set<string>, oldFiles: map<string, Time>)
  {
    && |order| == |done|
    && (forall i :: 0 <= i < |order| ==> order[i] in done && order[i] in oldFiles)
    && (forall i, j :: 0 <= i < j < |order| ==> order[i] != order[j])
  }

  /** The bytes counted over the files visited, in order. */
  ghost function BytesOver(files: map<string, StoredFile>, statErrors: set<string>, oldFiles: map<string, Time>,
                           order: seq<string>): int
    requires forall i :: 0 <= i < |order| ==> order[i] in oldFiles
    decreases |order|
  {
    if |order| == 0 then 0
    else BytesOver(files, statErrors, oldFiles, order[..|order| - 1])
         + BytesOf(files, statErrors, oldFiles, order[|order| - 1])
  }

  class Server {
    /** The file store's contents. */
    var files: map<string, StoredFile>

    constructor (files: map<string, StoredFile>)
      ensures this.files == files
    {
      this.files := files;
    }

    /** gcDeleteOldFiles: every old file not touched again has its size
        counted and, unless this is a dry run, is removed from the file store;
        only successful removals are counted. The files are visited in the
        order the map yields them, returned as `order`. */
    method DeleteOldFiles(doDryRun: bool, oldFiles: map<string, Time>, statErrors: set<string>, removeFails: set<string>)
      returns (deletedFiles: int, deletedBytes: int, ghost order: seq<string>)
      modifies this
      ensures Enumerates(order, oldFiles.Keys, oldFiles)
      ensures deletedBytes == BytesOver(old(files), statErrors, oldFiles, order)
      ensures var removed := Removed(doDryRun, old(files), statErrors, oldFiles, removeFails, oldFiles.Keys);
              files == old(files) - removed && deletedFiles == |removed|
    {
      var store;
      ghost var done, gone;
      deletedFiles, deletedBytes, store, order, done, gone := DeleteLoop(doDryRun, oldFiles, statErrors, removeFails, files);
      files := store;
    }

    /** GCStorage: find the old files, drop the ones still linked from a
        checkout directory, then delete the rest, keeping the statistics. A
        failed walk ends the run with the statistics gathered so far. Files
        older than GcAgeThreshold(now, maxAge) count as old. */
    method GCStorage(doDryRun: bool, now: Time, maxAge: Duration, storeWalk: seq<StoreVisit>,
                     checkoutWalk: seq<CheckoutVisit>, extraWalks: seq<seq<CheckoutVisit>>,
                     statErrors: set<string>, removeFails: set<string>)
      returns (stats: GCStats, ghost order: seq<string>)
      modifies this
      ensures StoreWalkFails(storeWalk) || |OldFilesOf(storeWalk, GcAgeThreshold(now, maxAge))| == 0 ==>
                stats == ZeroStats && files == old(files)
      ensures !StoreWalkFails(storeWalk) && |OldFilesOf(storeWalk, GcAgeThreshold(now, maxAge))| != 0 ==>
                var found := OldFilesOf(storeWalk, GcAgeThreshold(now, maxAge));
                var all := Flatten([checkoutWalk] + extraWalks);
                var linked := Targets(all[..FirstError(all)]);
                var unused := Unlinked(found, linked);
                && stats.numOldFiles == |found|
                && stats.numSymlinksChecked == Symlinks(all[..FirstError(all)])
                && stats.numFilesNotDeleted == stats.numOldFiles - stats.numFilesDeleted
                && (FirstError(all) < |all| ==>
                      files == old(files) && stats.numUnusedOldFiles == 0 && stats.numStillUsedOldFiles == 0
                      && stats.numFilesDeleted == 0 && stats.bytesDeleted == 0)
                && (FirstError(all) == |all| ==>
                      && stats.numUnusedOldFiles == |unused|
                      && stats.numStillUsedOldFiles == |found| - |unused|
                      && Enumerates(order, unused.Keys, unused)
                      && stats.bytesDeleted == BytesOver(old(files), statErrors, unused, order)
                      && var removed := Removed(doDryRun, old(files), statErrors, unused, removeFails, unused.Keys);
                         files == old(files) - removed && stats.numFilesDeleted == |removed|)
    {
      var ageThreshold := GcAgeThreshold(now, maxAge);
      stats := ZeroStats;
      order := [];
      // Scan the storage for all the paths that are older than the threshold.
      var found := FindOldFiles(ageThreshold, storeWalk);
      if found.None? || |found.value| == 0 {
        return;
      }
      var numOldFiles := |found.value|;
      stats := stats.(numOldFiles := numOldFiles, numFilesNotDeleted := numOldFiles);
      // Scan the checkout area and extra checkout paths, and discard any old file that is linked.
      var oldFiles, numSymlinksChecked, ok := FilterAll([checkoutWalk] + extraWalks, found.value);
      stats := stats.(numSymlinksChecked := numSymlinksChecked);
      if !ok {
        return;
      }
      stats := stats.(numStillUsedOldFiles := numOldFiles - |oldFiles|, numUnusedOldFiles := |oldFiles|);
      if |oldFiles| == 0 {
        // All old files are in use.
        return;
      }
      var deletedFiles, deletedBytes;
      deletedFiles, deletedBytes, order := DeleteOldFiles(doDryRun, oldFiles, statErrors, removeFails);
      stats := stats.(numFilesDeleted := deletedFiles, bytesDeleted := deletedBytes,
                      numFilesNotDeleted := numOldFiles - deletedFiles);
    }

  }

  /** The loop of gcDeleteOldFiles over the old files, in the order the map
      yields them; `store` is the file store as the removals leave it. */
  method DeleteLoop(doDryRun: bool, oldFiles: map<string, Time>, statErrors: set<string>, removeFails: set<string>,
                    files: map<string, StoredFile>)
    returns (deletedFiles: int, deletedBytes: int, store: map<string, StoredFile>,
             ghost order: seq<string>, ghost done: set<string>, ghost gone: set<string>)
    ensures done == oldFiles.Keys
    ensures Enumerates(order, done, oldFiles)
    ensures deletedBytes == BytesOver(files, statErrors, oldFiles, order)
    ensures gone == Removed(doDryRun, files, statErrors, oldFiles, removeFails, done)
    ensures store == files - gone && deletedFiles == |gone|
  {
    store := files;
    done := {};
    gone := {};
    deletedFiles := 0;
    deletedBytes := 0;
    order := [];
    var todo := oldFiles.Keys;
    while todo != {}
      invariant todo <= oldFiles.Keys && done == oldFiles.Keys - todo
      invariant Enumerates(order, done, oldFiles)
      invariant deletedBytes == BytesOver(files, statErrors, oldFiles, order)
      invariant gone == Removed(doDryRun, files, statErrors, oldFiles, removeFails, done)
      invariant store == files - gone && deletedFiles == |gone|
      decreases |todo|
    {
      var path :| path in todo;
      TodoStep(oldFiles.Keys, todo, done, path);
      var removedNow, bytes;
      removedNow, bytes, store, gone := DeleteOne(doDryRun, path, oldFiles, statErrors, removeFails, store, files, done, gone, order);
      deletedBytes := deletedBytes + bytes;
      if removedNow {
        deletedFiles := deletedFiles + 1;
      }
      order := order + [path];
      done := done + {path};
      todo := todo - {path};
    }
    TodoDone(oldFiles.Keys, todo, done);
  }

  /** One turn of gcDeleteOldFiles: skip a file touched again, otherwise
        count its bytes and remove it unless this is a dry run. The ghost
        parameters carry the loop's bookkeeping one file further. */
  method DeleteOne(doDryRun: bool, path: string, oldFiles: map<string, Time>, statErrors: set<string>, removeFails: set<string>,
                     store: map<string, StoredFile>, ghost files0: map<string, StoredFile>,
                     ghost done: set<string>, ghost gone: set<string>, ghost order: seq<string>)
      returns (removedNow: bool, bytes: int, store': map<string, StoredFile>, ghost gone': set<string>)
      requires path in oldFiles && path !in done
      requires gone == Removed(doDryRun, files0, statErrors, oldFiles, removeFails, done)
      requires store == files0 - gone
      requires Enumerates(order, done, oldFiles)
      ensures removedNow <==> !doDryRun && Removes(files0, statErrors, oldFiles, removeFails, path)
      ensures bytes == BytesOf(files0, statErrors, oldFiles, path)
      ensures gone' == Removed(doDryRun, files0, statErrors, oldFiles, removeFails, done + {path})
      ensures gone' == if removedNow then gone + {path} else gone
      ensures store' == files0 - gone'
      ensures Enumerates(order + [path], done + {path}, oldFiles)
      ensures BytesOver(files0, statErrors, oldFiles, order + [path])
              == BytesOver(files0, statErrors, oldFiles, order) + bytes
    {
      RemovedStep(doDryRun, files0, statErrors, oldFiles, removeFails, done, path);
      OrderStep(files0, statErrors, oldFiles, order, done, path);
      gone' := gone;
      store' := store;
      removedNow, bytes := false, 0;
      if path in store && path !in statErrors {
        if store[path].mtime > oldFiles[path] {
          // Not deleting recently-touched file.
          return;
        }
        bytes := store[path].size;
      }
      if doDryRun {
        return;
      }
      if path in store && path !in removeFails {
        store' := store - {path};
        removedNow := true;
        gone' := gone + {path};
      }
    }

  /** Visiting one more file keeps `order` a duplicate-free enumeration of
      the visited files and adds its bytes to the sum. */
  lemma OrderStep(files: map<string, StoredFile>, statErrors: set<string>, oldFiles: map<string, Time>,
                  order: seq<string>, done: set<string>, path: string)
    requires path in oldFiles && path !in done
    requires Enumerates(order, done, oldFiles)
    ensures Enumerates(order + [path], done + {path}, oldFiles)
    ensures BytesOver(files, statErrors, oldFiles, order + [path])
            == BytesOver(files, statErrors, oldFiles, order) + BytesOf(files, statErrors, oldFiles, path)
  {
    assert (order + [path])[..|order|] == order;
  }
}
