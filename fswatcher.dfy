/** The image watcher (src/flamenco-manager/flamenco/fswatcher.go): image
    files that are written to enter a map from path to last-write time, and a
    periodic iteration reports and drops the ones that have not been written
    to for five seconds. fsnotify, os.Stat and the directory walk are inputs;
    the image-created channel is the sequence of paths sent on it. */
module FsWatcher {
  import opened Common

  /** The extensions of the files that are watched. */
  const ImageExtensions: set<string> := {".exr", ".jpg", ".png"}

  /** A file not written to for this long is considered fully written. */
  const FileAgeThreshold: Duration := 5 * Second

  /** Whether the path names an image, judged by its lower-cased extension. */
  predicate IsImage(path: string)
  {
    ToLower(Ext(path)) in ImageExtensions
  }

  /** What os.Stat says about a path: None when it fails, otherwise whether
      the path is a directory. */
  type Stat = Option<bool>

  /** The fsnotify operation bits. */
  const OpCreate: bv32 := 1
  const OpWrite: bv32 := 2
  const OpRemove: bv32 := 4
  const OpRename: bv32 := 8

  /** Steps of imageMapIteration that matter for the map lock: taking it,
      releasing it, and sending a path on the channel. */
  datatype Event = Lock | Unlock | Send(path: string)

  /** The entries old enough to be reported: last written on or before the threshold. */
  ghost function Ripe(images: map<string, Time>, threshold: Time): set<string>
  {
    set p | p in images && images[p] <= threshold
  }

  /** Locks taken minus locks released. */
  function LockBalance(events: seq<Event>): int
    decreases |events|
  {
    if |events| == 0 then 0
    else LockBalance(events[..|events| - 1])
         + (match events[|events| - 1] case Lock => 1 case Unlock => -1 case Send(_) => 0)
  }

  /** No path is sent on the channel while the map lock is held. */
  ghost predicate SendsUnlocked(events: seq<Event>)
  {
    forall i :: 0 <= i < |events| && events[i].Send? ==> LockBalance(events[..i]) == 0
  }

  /** The send events for the given paths, in order. */
  function Sends(paths: seq<string>): (r: seq<Event>)
    ensures |r| == |paths| && forall i :: 0 <= i < |paths| ==> r[i] == Send(paths[i])
  {
    seq(|paths|, i requires 0 <= i < |paths| => Send(paths[i]))
  }

  lemma {:induction false} LockBalanceAppend(a: seq<Event>, b: seq<Event>)
    ensures LockBalance(a + b) == LockBalance(a) + LockBalance(b)
    decreases |b|
  {
    if |b| > 0 {
      assert (a + b)[..|a + b| - 1] == a + b[..|b| - 1];
      assert (a + b)[|a + b| - 1] == b[|b| - 1];
      LockBalanceAppend(a, b[..|b| - 1]);
    } else {
      assert a + b == a;
    }
  }

  lemma {:induction false} SendsBalance(paths: seq<string>, k: nat)
    requires k <= |paths|
    ensures LockBalance(Sends(paths)[..k]) == 0
    decreases k
  {
    if k > 0 {
      assert Sends(paths)[..k][..k - 1] == Sends(paths)[..k - 1];
      SendsBalance(paths, k - 1);
    }
  }

  /** Releasing the lock before sending, as the comment in imageMapIteration
      intends, keeps every send outside the lock and leaves the lock free. */
  lemma SendsAfterUnlock(prior: seq<Event>, paths: seq<string>)
    requires SendsUnlocked(prior) && LockBalance(prior) == 0
    ensures SendsUnlocked(prior + [Lock, Unlock] + Sends(paths))
    ensures LockBalance(prior + [Lock, Unlock] + Sends(paths)) == 0
  {
    var head := prior + [Lock, Unlock];
    var events := head + Sends(paths);
    assert LockBalance([Lock, Unlock]) == 0 by {
      assert [Lock, Unlock][..1] == [Lock];
      assert [Lock][..0] == [];
    }
    LockBalanceAppend(prior, [Lock, Unlock]);
    forall i | 0 <= i < |events| && events[i].Send?
      ensures LockBalance(events[..i]) == 0
    {
      if i < |prior| {
        assert events[..i] == prior[..i];
        assert prior[i].Send?;
      } else {
        assert i >= |head|;
        assert events[..i] == head + Sends(paths)[..i - |head|];
        LockBalanceAppend(head, Sends(paths)[..i - |head|]);
        SendsBalance(paths, i - |head|);
      }
    }
    LockBalanceAppend(head, Sends(paths));
    SendsBalance(paths, |paths|);
    assert Sends(paths)[..|paths|] == Sends(paths);
  }

  /** SendsAfterUnlock, for any earlier history. */
  lemma SendsAfterUnlockFrom(prior: seq<Event>, paths: seq<string>)
    ensures SendsUnlocked(prior) && LockBalance(prior) == 0 ==>
              SendsUnlocked(prior + [Lock, Unlock] + Sends(paths))
              && LockBalance(prior + [Lock, Unlock] + Sends(paths)) == 0
  {
    if SendsUnlocked(prior) && LockBalance(prior) == 0 {
      SendsAfterUnlock(prior, paths);
    }
  }

  /** With the deferred unlock, the first report is sent while the map lock
      is still held. */
  lemma AsWrittenSendsWhileLocked(prior: seq<Event>, paths: seq<string>)
    requires LockBalance(prior) == 0 && |paths| > 0
    ensures !SendsUnlocked(prior + [Lock] + Sends(paths) + [Unlock])
  {
    var events := prior + [Lock] + Sends(paths) + [Unlock];
    var i := |prior| + 1;
    assert events[i] == Send(paths[0]);
    assert events[..i] == prior + [Lock];
    LockBalanceAppend(prior, [Lock]);
    assert [Lock][..0] == [];
    assert LockBalance(events[..i]) == 1;
  }

  /** The elements of a sequence, as a set. */
  ghost function Elements(s: seq<string>): set<string>
  {
    set x | x in s
  }

  lemma RemoveOneMore(m: map<string, Time>, s: seq<string>, i: nat)
    requires i < |s|
    ensures (m - Elements(s[..i])) - {s[i]} == m - Elements(s[..i + 1])
  {
    assert s[..i + 1] == s[..i] + [s[i]];
    assert Elements(s[..i + 1]) == Elements(s[..i]) + {s[i]};
  }

  /** The first loop of imageMapIteration: the paths of the entries written
      on or before the threshold, each once, in the order the map yields them. */
  method RipePaths(images: map<string, Time>, threshold: Time) returns (reportPaths: seq<string>)
    ensures forall i, j :: 0 <= i < j < |reportPaths| ==> reportPaths[i] != reportPaths[j]
    ensures forall p :: p in reportPaths <==> p in images && images[p] <= threshold
  {
    reportPaths := [];
    var todo := images.Keys;
    while todo != {}
      invariant todo <= images.Keys
      invariant forall i, j :: 0 <= i < j < |reportPaths| ==> reportPaths[i] != reportPaths[j]
      invariant forall p :: p in reportPaths <==> p in images && images[p] <= threshold && p !in todo
      decreases |todo|
    {
      var path :| path in todo;
      todo := todo - {path};
      if images[path] > threshold {
        // The file needs time to ripen and mature.
        continue;
      }
      reportPaths := reportPaths + [path];
    }
  }

  class ImageWatcher {
    /** The image map: path → time of the last write seen. */
    var imageMap: map<string, Time>
    /** The paths sent on the ImageCreated channel, oldest first. */
    var sent: seq<string>
    /** The lock-relevant steps taken so far. */
    ghost var events: seq<Event>

    /** CreateImageWatcher: an empty image map and nothing sent yet. */
    constructor ()
      ensures imageMap == map[] && sent == [] && events == []
    {
      imageMap := map[];
      sent := [];
      events := [];
    }

    /** queueImage: a written image file enters the map with the current time,
        or has its last-write time refreshed; anything else is ignored. */
    method QueueImage(path: string, stat: Stat, now: Time)
      modifies this
      ensures imageMap == if stat == Some(false) && IsImage(path) then old(imageMap)[path := now] else old(imageMap)
      ensures sent == old(sent) && events == old(events)
    {
      // Ignore non-files.
      if stat.None? || stat.value {
        return;
      }
      // Ignore non-image files.
      var ext := ToLower(Ext(path));
      if ext !in ImageExtensions {
        return;
      }
      if path !in imageMap {
        // This is a new image.
        imageMap := imageMap[path := now];
      } else {
        // Seen this image before, update its lastWrite.
        imageMap := imageMap[path := now];
      }
    }

    /** renamePath: the old path's entry, if any, leaves the map. */
    method RenamePath(path: string)
      modifies this
      ensures imageMap == old(imageMap) - {path}
      ensures sent == old(sent) && events == old(events)
    {
      if path in imageMap {
        imageMap := imageMap - {path};
      }
    }

    /** createPath: a file is queued; a directory only gains watches. */
    method CreatePath(path: string, stat: Stat, now: Time)
      modifies this
      ensures imageMap == if stat == Some(false) && IsImage(path) then old(imageMap)[path := now] else old(imageMap)
      ensures sent == old(sent) && events == old(events)
    {
      if stat.None? {
        return;
      }
      if !stat.value {
        QueueImage(path, stat, now);
      }
    }

    /** One event of fswatchLoop: the first matching operation bit decides. */
    method HandleEvent(op: bv32, name: string, stat: Stat, now: Time)
      modifies this
      ensures imageMap == (if op & OpCreate == OpCreate || op & OpWrite == OpWrite then
                             (if stat == Some(false) && IsImage(name) then old(imageMap)[name := now] else old(imageMap))
                           else if op & OpRemove == OpRemove then old(imageMap)
                           else if op & OpRename == OpRename then old(imageMap) - {name}
                           else old(imageMap))
      ensures sent == old(sent) && events == old(events)
    {
      if op & OpCreate == OpCreate {
        CreatePath(name, stat, now);
      } else if op & OpWrite == OpWrite {
        QueueImage(name, stat, now);
      } else if op & OpRemove == OpRemove {
        // Only the fsnotify watch is removed.
      } else if op & OpRename == OpRename {
        RenamePath(name);
      }
    }

    /** The locked part of imageMapIteration: collect the paths of the ripe
        entries, then delete them from the map. */
    method CollectRipe(threshold: Time) returns (reportPaths: seq<string>)
      modifies this
      ensures forall i, j :: 0 <= i < j < |reportPaths| ==> reportPaths[i] != reportPaths[j]
      ensures forall p :: p in reportPaths <==> p in Ripe(old(imageMap), threshold)
      ensures imageMap == old(imageMap) - Ripe(old(imageMap), threshold)
      ensures sent == old(sent) && events == old(events)
    {
      reportPaths := RipePaths(imageMap, threshold);
      // Remove all files we'll report.
      var i := 0;
      while i < |reportPaths|
        invariant 0 <= i <= |reportPaths|
        invariant imageMap == old(imageMap) - Elements(reportPaths[..i])
        invariant sent == old(sent) && events == old(events)
      {
        RemoveOneMore(old(imageMap), reportPaths, i);
        imageMap := imageMap - {reportPaths[i]};
        i := i + 1;
      }
      assert reportPaths[..i] == reportPaths;
      assert Elements(reportPaths) == Ripe(old(imageMap), threshold);
    }

    /** Send the reported paths on the channel, in order. */
    method SendAll(reportPaths: seq<string>)
      modifies this
      ensures sent == old(sent) + reportPaths && events == old(events) + Sends(reportPaths)
      ensures imageMap == old(imageMap)
    {
      var i := 0;
      while i < |reportPaths|
        invariant 0 <= i <= |reportPaths|
        invariant sent == old(sent) + reportPaths[..i] && events == old(events) + Sends(reportPaths[..i])
        invariant imageMap == old(imageMap)
      {
        assert reportPaths[..i + 1] == reportPaths[..i] + [reportPaths[i]];
        assert Sends(reportPaths[..i + 1]) == Sends(reportPaths[..i]) + [Send(reportPaths[i])];
        sent := sent + [reportPaths[i]];
        events := events + [Send(reportPaths[i])];
        i := i + 1;
      }
      assert reportPaths[..i] == reportPaths;
    }

    /** imageMapIteration with the map unlocked before sending, as its comment
        intends: every entry last written on or before now − 5s is sent once
        and removed; younger entries stay. */
    method ImageMapIteration(now: Time) returns (reportPaths: seq<string>)
      modifies this
      ensures forall i, j :: 0 <= i < j < |reportPaths| ==> reportPaths[i] != reportPaths[j]
      ensures forall p :: p in reportPaths <==> p in Ripe(old(imageMap), now - FileAgeThreshold)
      ensures imageMap == old(imageMap) - Ripe(old(imageMap), now - FileAgeThreshold)
      ensures sent == old(sent) + reportPaths
      ensures events == old(events) + [Lock, Unlock] + Sends(reportPaths)
      ensures SendsUnlocked(old(events)) && LockBalance(old(events)) == 0 ==>
                SendsUnlocked(events) && LockBalance(events) == 0
    {
      // Files touched on or before this timestamp are considered "written".
      var threshold := now - FileAgeThreshold;
      ghost var prior := events;
      events := events + [Lock];
      reportPaths := CollectRipe(threshold);
      events := events + [Unlock];
      assert events == prior + [Lock, Unlock];
      // Send to the channel after unlocking the map.
      SendAll(reportPaths);
      SendsAfterUnlockFrom(prior, reportPaths);
    }

    /** imageMapIteration as written: the unlock is deferred to the end of the
        function, so the paths are sent while the map lock is still held. */
    method ImageMapIterationAsWritten(now: Time) returns (reportPaths: seq<string>)
      modifies this
      ensures forall p :: p in reportPaths <==> p in Ripe(old(imageMap), now - FileAgeThreshold)
      ensures imageMap == old(imageMap) - Ripe(old(imageMap), now - FileAgeThreshold)
      ensures sent == old(sent) + reportPaths
      ensures events == old(events) + [Lock] + Sends(reportPaths) + [Unlock]
    {
      var threshold := now - FileAgeThreshold;
      events := events + [Lock];
      reportPaths := CollectRipe(threshold);
      SendAll(reportPaths);
      // The deferred Unlock runs when the function returns.
      events := events + [Unlock];
    }
  }
}
