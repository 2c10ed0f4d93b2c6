/** Downloading the files of one update, resumable after a power cut (downloadmgr.c, with the item list of
    downloaditem.c). */
module DownloadMgr {
  import opened Bytes
  import opened Power

  /** Where a file goes: the .uf of an update entry, or the data file that the .uf names. */
  datatype Path = Meta(uuid: string) | Data(uuid: string, file: string)

  /** A downloaditem_Item; the id is there while the download is active. */
  datatype Item = Item(id: Option<nat>, path: Option<Path>, isMeta: bool)

  /** A call of the finished handler: its status, whether every entry then had both its files, and whether a failed write
      had made the list claim a file that did not complete. */
  datatype Report = Report(status: int, complete: bool, tainted: bool)

  /** What becomes of the start of a download: memory for its path may be missing, and the downloader may refuse it. */
  datatype Starting = Starts | NoPath | Refused

  predicate ActiveAt(items: seq<Item>, i: nat, p: Path) {
    i < |items| && items[i].id.Some? && items[i].path == Some(p)
  }

  ghost predicate Active(items: seq<Item>, p: Path) {
    exists i: nat :: ActiveAt(items, i, p)
  }

  predicate NoCut(fates: seq<Fate>) {
    CutBefore !in fates && CutAmid !in fates && CutAfter !in fates
  }

  predicate NoFailure(fates: seq<Fate>) {
    Fails !in fates
  }

  /** An entry is on its way or there. */
  ghost predicate CoveredBy(items: seq<Item>, completed: set<Path>, uuid: string, data: Path) {
    || Active(items, Meta(uuid))
    || (Meta(uuid) in completed && (Active(items, data) || data in completed))
  }

  /** downloaditem_findItemById. */
  function FindById(items: seq<Item>, id: nat): (i: Option<nat>)
    ensures i.Some? ==> i.value < |items| && items[i.value].id == Some(id)
  {
    if items == [] then None
    else if items[0].id == Some(id) then Some(0)
    else
      var i := FindById(items[1..], id);
      if i.None? then None else Some(i.value + 1)
  }

  /** findUFItem and findDataItem: the item of this path, whatever its state. */
  function FindByPath(items: seq<Item>, p: Path): (i: Option<nat>)
    ensures i.Some? ==> i.value < |items| && items[i.value].path == Some(p)
    ensures i.None? ==> forall k | 0 <= k < |items| :: items[k].path != Some(p)
  {
    if items == [] then None
    else if items[0].path == Some(p) then Some(0)
    else
      var i := FindByPath(items[1..], p);
      assert forall k | 1 <= k < |items| :: items[k] == items[1..][k - 1];
      if i.None? then None else Some(i.value + 1)
  }

  predicate ListedIn(items: seq<Item>, p: Path) {
    exists k :: 0 <= k < |items| && items[k].path == Some(p)
  }

  /** One download has been started, of a file that was not listed. */
  predicate AddedUnlisted(items: seq<Item>, was: seq<Item>) {
    && |items| == |was| + 1 && items[1..] == was
    && items[0].id.Some? && items[0].path.Some? && !ListedIn(was, items[0].path.value)
  }

  lemma Added(items: seq<Item>, was: seq<Item>)
    requires AddedUnlisted(items, was)
    ensures forall p | ListedIn(was, p) :: ListedIn(items, p)
    ensures forall p | Active(items, p) :: Active(was, p) || !ListedIn(was, p)
  {
    forall p | Active(items, p) ensures Active(was, p) || !ListedIn(was, p) {
      var i: nat :| ActiveAt(items, i, p);
      if i > 0 {
        assert items[i] == items[1..][i - 1];
        assert ActiveAt(was, i - 1, p);
      }
    }
    forall p | ListedIn(was, p) ensures ListedIn(items, p) {
      var k :| 0 <= k < |was| && was[k].path == Some(p);
      assert items[k + 1].path == Some(p);
    }
  }

  predicate NoneActive(items: seq<Item>) {
    forall i | 0 <= i < |items| :: items[i].id.None?
  }

  method ActiveDownloads(items: seq<Item>) returns (count: nat)
    ensures count == 0 <==> NoneActive(items)
  {
    count := 0;
    for i := 0 to |items|
      invariant count == 0 <==> forall j | 0 <= j < i :: items[j].id.None?
    {
      if items[i].id.Some? {
        count := count + 1;
      }
    }
  }

  /** What is left of the paths when the first i have been tried to be removed. */
  function Left(paths: map<nat, Path>, fates: seq<Fate>, i: nat): map<nat, Path> {
    map j | j in paths && (j >= i || FateAt(fates, j) == Fails) :: paths[j]
  }

  lemma LeftNone(paths: map<nat, Path>, fates: seq<Fate>)
    ensures Left(paths, fates, 0) == paths
  {
  }

  lemma LeftOne(paths: map<nat, Path>, fates: seq<Fate>, i: nat)
    ensures Left(paths, fates, i + 1) ==
              if FateAt(fates, i) == Fails then Left(paths, fates, i) else Left(paths, fates, i) - {i}
  {
  }

  lemma LeftTorn(paths: map<nat, Path>, fates: seq<Fate>, i: nat)
    ensures var left := Left(paths, fates, i);
            && (forall j | j in left :: j in paths && left[j] == paths[j])
            && (left != paths ==> exists j: nat | j < i :: j !in left)
  {
    var left := Left(paths, fates, i);
    if left != paths {
      var j :| j in paths && j !in left;
      assert j < i;
    }
  }

  class Manager {
    /** The entries of the update descriptor, and the data file that each entry's .uf names. */
    const uuids: seq<string>
    const fileOf: string -> string

    // permanent storage: downloaded_items_size (0 when absent) and item_%d_path
    var storedSize: nat
    var storedPaths: map<nat, Path>

    // volatile
    var items: seq<Item>

    // the surroundings: what will become of the next storage writes, whether the next archives cannot be read, and what
    // will become of the next starts of downloads
    var fates: seq<Fate>
    var unreadable: seq<bool>
    var starts: seq<Starting>

    /** The files whose download really completed since the last cancellation, or the last start with an empty list. */
    ghost var completed: set<Path>

    /** A failed write has made the list claim a file that did not complete: either a path could not be written over a
        stale one but the size could, or a cancellation could neither remove a path nor reset the size. */
    ghost var tainted: bool

    /** All calls of the finished handler. */
    ghost var reports: seq<Report>

    ghost predicate Recorded()
      reads this`storedSize, this`storedPaths, this`completed
    {
      forall i | 0 <= i < storedSize && i in storedPaths :: storedPaths[i] in completed
    }

    /** Holds between any two writes, hence after a power cut at any moment. */
    ghost predicate Recoverable()
      reads this`storedSize, this`storedPaths, this`completed, this`tainted
    {
      !tainted ==> Recorded()
    }

    function DataOf(uuid: string): Path
    {
      Data(uuid, fileOf(uuid))
    }

    ghost predicate Covered(uuid: string)
      reads this`items, this`completed
    {
      CoveredBy(items, completed, uuid, DataOf(uuid))
    }

    ghost predicate Complete(uuid: string)
      reads this`completed
    {
      Meta(uuid) in completed && DataOf(uuid) in completed
    }

    ghost predicate AllComplete()
      reads this`completed
    {
      forall k | 0 <= k < |uuids| :: Complete(uuids[k])
    }

    ghost predicate ItemsOk()
      reads this`items, this`completed, this`tainted
    {
      && (forall i | 0 <= i < |items| && items[i].id.Some? ::
            items[i].path.Some? && items[i].isMeta == items[i].path.value.Meta?
            && (items[i].path.value.Data? ==> items[i].path == Some(DataOf(items[i].path.value.uuid))))
      && (forall i | 0 <= i < |items| && items[i].id.None? ::
            items[i].path.Some? && !tainted ==> items[i].path.value in completed)
    }

    /** The first k entries are covered, unless the list has been tainted. */
    ghost predicate AllCovered(k: int)
      reads this`items, this`completed, this`tainted
    {
      !tainted ==> forall j | 0 <= j < |uuids| && j < k :: Covered(uuids[j])
    }

    /** Between two callbacks: no download at all, or one that covers every entry. */
    ghost predicate Between()
      reads this`items, this`completed, this`tainted, this`storedSize, this`storedPaths
    {
      Recoverable() && ItemsOk() && (items == [] || AllCovered(|uuids|))
    }

    constructor (uuids: seq<string>, fileOf: string -> string, fates: seq<Fate>)
      ensures this.uuids == uuids && this.fileOf == fileOf && Between() && items == [] && storedSize == 0
      ensures this.fates == fates && !tainted && completed == {} && storedPaths == map[] && reports == []
    {
      this.uuids, this.fileOf, this.fates := uuids, fileOf, fates;
      storedSize, storedPaths, items, completed, tainted, reports := 0, map[], [], {}, false, [];
      unreadable, starts := *, *;
    }

    // ----- effects: each may fail, and the power may go before or after it -----

    method Draw() returns (f: Fate)
      modifies this`fates
      ensures f == FateAt(old(fates), 0) && fates == After(old(fates), 1)
      ensures NoFailure(old(fates)) ==> NoFailure(fates) && f != Fails
      ensures NoCut(old(fates)) ==> NoCut(fates) && f in {Goes, Fails}
    {
      f := FateAt(fates, 0);
      fates := After(fates, 1);
    }

    /** extractUFFile and unpackMetaFile. */
    method Unpack() returns (ok: bool)
      modifies this`unreadable
      ensures old(unreadable) == [] ==> ok && unreadable == []
    {
      ok := unreadable == [] || !unreadable[0];
      unreadable := if unreadable == [] then [] else unreadable[1..];
    }

    method WriteSize(n: nat) returns (r: Flow<bool>)
      modifies this`storedSize, this`fates
      ensures !r.Stuck? && (r.Done? ==> storedSize == if r.value then n else old(storedSize))
      ensures storedSize == if FateAt(old(fates), 0) in {Goes, CutAfter} then n else old(storedSize)
      ensures r.Done? ==> FateAt(old(fates), 0) in {Goes, Fails}
      ensures NoCut(old(fates)) ==> r.Done? && NoCut(fates)
      ensures fates == After(old(fates), 1)
      ensures NoFailure(old(fates)) ==> NoFailure(fates) && r != Done(false)
    {
      var f := Draw();
      if f == CutBefore || f == CutAmid {
        return Crash;
      } else if f == Fails {
        return Done(false);
      }
      storedSize := n;
      return if f == CutAfter then Crash else Done(true);
    }

    method WritePath(i: nat, p: Path) returns (r: Flow<bool>)
      modifies this`storedPaths, this`fates
      ensures !r.Stuck? && (r.Done? ==> storedPaths == if r.value then old(storedPaths)[i := p] else old(storedPaths))
      ensures storedPaths == old(storedPaths)[i := p] || storedPaths == old(storedPaths)
      ensures fates == After(old(fates), 1) && (r == Done(false) <==> FateAt(old(fates), 0) == Fails)
      ensures r.Done? ==> FateAt(old(fates), 0) in {Goes, Fails}
      ensures NoCut(old(fates)) ==> r.Done? && NoCut(fates)
      ensures NoFailure(old(fates)) ==> NoFailure(fates) && r != Done(false)
    {
      var f := Draw();
      if f == CutBefore || f == CutAmid {
        return Crash;
      } else if f == Fails {
        return Done(false);
      }
      storedPaths := storedPaths[i := p];
      return if f == CutAfter then Crash else Done(true);
    }

    /** config_removeKey: an absent key is an error. */
    method RemovePath(i: nat) returns (r: Flow<bool>)
      modifies this`storedPaths, this`fates
      ensures !r.Stuck? && (r.Done? ==> storedPaths == if r.value then old(storedPaths) - {i} else old(storedPaths))
      ensures storedPaths == old(storedPaths) - {i} || storedPaths == old(storedPaths)
      ensures fates == After(old(fates), 1)
      ensures r.Done? ==> storedPaths == if FateAt(old(fates), 0) == Fails then old(storedPaths) else old(storedPaths) - {i}
      ensures FateAt(old(fates), 0) == Fails ==> r.Done?
      ensures NoCut(old(fates)) ==> r.Done? && NoCut(fates)
      ensures NoFailure(old(fates)) ==> NoFailure(fates) && (r.Done? ==> storedPaths == old(storedPaths) - {i})
    {
      var f := Draw();
      if f == CutBefore || f == CutAmid {
        return Crash;
      } else if f == Fails || i !in storedPaths {
        return Done(false);
      }
      storedPaths := storedPaths - {i};
      return if f == CutAfter then Crash else Done(true);
    }

    // ----- downloadmgr.c -----

    /** restoreDownloadedItems; false when a path is missing. */
    method Restore() returns (ok: bool)
      requires Recoverable() && items == []
      modifies this`items
      ensures ok <==> !Torn()
      ensures ItemsOk() && |items| == storedSize && forall i | 0 <= i < |items| :: items[i].id.None?
      ensures ok ==> forall i | 0 <= i < storedSize :: items[storedSize - 1 - i].path == Some(storedPaths[i])
    {
      ok := true;
      var paths := storedPaths;
      for i := 0 to storedSize
        invariant |items| == i && (ok <==> forall j | 0 <= j < i :: j in paths)
        invariant forall j | 0 <= j < i :: items[j].id.None?
        invariant forall j | 0 <= j < i :: items[i - 1 - j].path == if j in paths then Some(paths[j]) else None
      {
        var path := if i in paths then Some(paths[i]) else None;
        ok := ok && i in paths;
        items := [Item(None, path, true)] + items;
      }
      assert storedPaths == paths && |items| == storedSize;
      assert ok <==> forall j | 0 <= j < storedSize :: j in paths;
      forall j | 0 <= j < |items| && items[j].path.Some? && !tainted ensures items[j].path.value in completed {
        var i := storedSize - 1 - j;
        assert items[storedSize - 1 - i].path == if i in paths then Some(paths[i]) else None;
      }
    }

    /** Marking a file now would leave a stale path in place and count it. */
    ghost predicate Mistaken()
      reads this`storedSize, this`storedPaths, this`completed, this`fates
    {
      && FateAt(fates, 0) == Fails && FateAt(fates, 1) in {Goes, CutAfter}
      && storedSize in storedPaths && storedPaths[storedSize] !in completed
    }

    /** markDownloaded: the path first, the size after it; whether either could be written is ignored. */
    method MarkDownloaded(i: nat) returns (r: Flow<()>)
      requires Recoverable() && i < |items| && items[i].path.Some? && items[i].path.value in completed
      modifies this`items, this`storedPaths, this`storedSize, this`tainted, this`fates
      ensures Recoverable() && !r.Stuck?
      ensures items == old(items)[i := old(items)[i].(id := None)]
      ensures tainted == (old(tainted) || old(Mistaken()))
      ensures NoFailure(old(fates)) ==> NoFailure(fates) && (tainted ==> old(tainted))
      ensures r.Done? ==> fates == After(old(fates), 2)
      ensures r.Done? ==> storedSize == old(storedSize) + (if FateAt(old(fates), 1) == Fails then 0 else 1)
      ensures r.Done? && FateAt(old(fates), 0) == Fails ==> storedPaths == old(storedPaths)
      ensures r.Done? && FateAt(old(fates), 0) != Fails ==> storedPaths == old(storedPaths)[old(storedSize) := items[i].path.value]
      ensures NoCut(old(fates)) ==> r.Done? && NoCut(fates)
    {
      hide FateAt, After, NoCut, NoFailure;
      items := items[i := items[i].(id := None)];
      var n := storedSize;
      Later(fates, 1, 0);
      Later(fates, 1, 1);
      var path :- WritePath(n, items[i].path.value);
      var size := WriteSize(n + 1);
      tainted := tainted || (!path && storedSize == n + 1 && n in storedPaths && storedPaths[n] !in completed);
      return if size.Done? then Done(()) else Crash;
    }

    /** The loop of cleanupDownloaded; failures are only reported. */
    method RemovePaths() returns (r: Flow<bool>)
      modifies this`storedPaths, this`fates
      ensures !r.Stuck?
      ensures r.Done? ==> storedPaths == Left(old(storedPaths), old(fates), storedSize) && fates == After(old(fates), storedSize)
      ensures NoCut(old(fates)) ==> r.Done? && NoCut(fates)
      ensures exists i: nat | i <= storedSize :: storedPaths == Left(old(storedPaths), old(fates), i)
      ensures NoFailure(old(fates)) ==> NoFailure(fates)
    {
      var ok := true;
      LeftNone(storedPaths, fates);
      for i := 0 to storedSize
        invariant storedPaths == Left(old(storedPaths), old(fates), i) && fates == After(old(fates), i)
        invariant (NoFailure(old(fates)) ==> NoFailure(fates)) && (NoCut(old(fates)) ==> NoCut(fates))
      {
        Later(old(fates), i, 0);
        Later(old(fates), i, 1);
        LeftOne(old(storedPaths), old(fates), i);
        hide Left;
        var removed :- RemovePath(i);
        ok := ok && removed;
      }
      return Done(ok);
    }

    /** cleanupDownloaded: the paths go first, the size last. */
    method CleanupDownloaded() returns (r: Flow<bool>)
      requires Recoverable()
      modifies this`items, this`storedPaths, this`storedSize, this`fates
      ensures Recoverable() && !r.Stuck? && (r.Done? ==> items == [])
      ensures r.Done? ==> storedPaths == Left(old(storedPaths), old(fates), old(storedSize))
      ensures r.Done? ==> storedSize == if FateAt(old(fates), old(storedSize)) == Fails then old(storedSize) else 0
      ensures r.Done? ==> fates == After(old(fates), old(storedSize) + 1)
      ensures NoCut(old(fates)) ==> r.Done? && NoCut(fates)
      ensures storedSize == old(storedSize) || storedSize == 0
      ensures NoFailure(old(fates)) ==> NoFailure(fates) && (r.Done? ==> storedSize == 0)
      ensures r.Crash? && storedSize == old(storedSize) > 0 && storedPaths != old(storedPaths) ==> Torn()
    {
      hide Left, FateAt, After, NoCut, NoFailure;
      var ok := RemovePaths();
      ghost var i: nat :| i <= storedSize && storedPaths == Left(old(storedPaths), old(fates), i);
      LeftTorn(old(storedPaths), old(fates), i);
      if !ok.Done? {
        return Crash;
      }
      Later(old(fates), storedSize, 0);
      Later(old(fates), storedSize, 1);
      var reset :- WriteSize(0);
      items := [];
      return Done(ok.value && reset);
    }

    /** Cancelling now would forget what completed, but not all of the list. */
    predicate Unforgettable()
      reads this`storedSize, this`storedPaths, this`fates
    {
      FateAt(fates, storedSize) == Fails && exists j: nat :: j < storedSize && j in storedPaths && FateAt(fates, j) == Fails
    }

    /** A list that a power cut left half removed. */
    predicate Torn()
      reads this`storedSize, this`storedPaths
    {
      exists i :: 0 <= i < storedSize && i !in storedPaths
    }

    /** downloadmgr_cancel. */
    method Cancel() returns (r: Flow<bool>)
      requires Recoverable()
      modifies this`items, this`storedPaths, this`storedSize, this`completed, this`tainted, this`fates
      ensures Recoverable() && !r.Stuck?
      ensures r.Done? ==> items == [] && completed == {} && (tainted <==> old(Unforgettable()))
      ensures r.Done? ==> storedPaths == Left(old(storedPaths), old(fates), old(storedSize))
      ensures r.Done? ==> storedSize == if FateAt(old(fates), old(storedSize)) == Fails then old(storedSize) else 0
      ensures r.Done? ==> fates == After(old(fates), old(storedSize) + 1)
      ensures r.Crash? ==> completed == old(completed) && tainted == old(tainted)
      ensures NoCut(old(fates)) ==> r.Done? && NoCut(fates)
      ensures NoFailure(old(fates)) ==> NoFailure(fates) && (tainted ==> old(tainted)) && (r.Done? ==> storedSize == 0)
    {
      var clean :- CleanupDownloaded();
      completed := {};
      tainted := !Recorded();
      if storedSize > 0 {
        ghost var n, paths, f := storedSize, old(storedPaths), old(fates);
        forall j: nat | j < n ensures j in storedPaths <==> j in paths && FateAt(f, j) == Fails {
        }
        assert tainted <==> exists j: nat :: j < n && j in storedPaths;
      }
      return Done(clean);
    }

    /** startMetaDownload and startDataDownload: a new item, and a downloader that may refuse. */
    method Start(p: Path) returns (ok: bool)
      requires ItemsOk() && (p.Data? ==> p == DataOf(p.uuid))
      modifies this`items, this`starts
      ensures ok ==> ItemsOk() && |items| == |old(items)| + 1 && items[1..] == old(items)
      ensures ok ==> ActiveAt(items, 0, p) && items[0].isMeta == p.Meta?
      ensures old(starts) == [] ==> ok && starts == []
    {
      var outcome := if starts == [] then Starts else starts[0];
      starts := if starts == [] then [] else starts[1..];
      items := [Item(None, None, true)] + items;
      if outcome == NoPath {
        return false;
      }
      items := [items[0].(path := Some(p), isMeta := p.Meta?)] + items[1..];
      ok := outcome == Starts;
      if ok {
        var id: nat := *;
        items := [items[0].(id := Some(id))] + items[1..];
      }
    }

    /** finalizeDownload; the result is what the finished handler gets. */
    method Finalize(status: int) returns (r: Flow<Option<int>>)
      requires Recoverable()
      modifies this`items, this`storedPaths, this`storedSize, this`completed, this`tainted, this`fates,
               this`reports
      ensures Recoverable() && !r.Stuck?
      ensures r.Done? ==> items == [] && r.value == Some(status)
      ensures reports == old(reports) + if r.Done? then [Report(status, AllComplete(), tainted)] else []
      ensures NoCut(old(fates)) ==> r.Done? && NoCut(fates)
      ensures NoCut(old(fates)) && status != 0 ==> completed == {}
      ensures status == 0 ==> completed == old(completed) && tainted == old(tainted)
      ensures NoFailure(old(fates)) ==> NoFailure(fates) && (tainted ==> old(tainted)) && (r.Done? ==> storedSize == 0)
    {
      if status != 0 {
        var c :- Cancel();
      } else {
        var c :- CleanupDownloaded();
      }
      reports := reports + [Report(status, AllComplete(), tainted)];
      return Done(Some(status));
    }

    lemma AllThere()
      requires (forall k | 0 <= k < |uuids| :: Covered(uuids[k])) && NoneActive(items)
      ensures AllComplete()
    {
    }

    /** What a call of the finished handler with this status, if there is one, adds to the reports. */
    ghost function Calls(called: Option<int>): seq<Report>
      reads this`completed, this`tainted
    {
      if called.Some? then [Report(called.value, AllComplete(), tainted)] else []
    }

    /** The callback for a .uf: it is unpacked, and its data file comes next. */
    method MetaFinished(uuid: string) returns (r: Flow<Option<int>>)
      requires Recoverable() && ItemsOk() && Meta(uuid) in completed
      requires !tainted ==> forall k | 0 <= k < |uuids| && uuids[k] != uuid :: Covered(uuids[k])
      modifies this`items, this`storedPaths, this`storedSize, this`completed, this`tainted, this`fates,
               this`unreadable, this`starts, this`reports
      ensures Recoverable() && !r.Stuck? && (r.Done? ==> Between() && r.value != Some(0))
      ensures reports == old(reports) + Calls(if r.Done? then r.value else None)
      ensures r.Done? && r.value.Some? ==> items == []
      ensures NoFailure(old(fates)) ==> NoFailure(fates) && (tainted ==> old(tainted))
      ensures NoFailure(old(fates)) && r.Done? && r.value.Some? ==> storedSize == 0
      ensures old(unreadable) == [] && old(starts) == [] ==>
                && r == Done(None) && unreadable == [] && starts == [] && fates == old(fates)
                && |items| == |old(items)| + 1 && items[1..] == old(items) && items[0].id.Some? && !items[0].isMeta
                && completed == old(completed) && tainted == old(tainted)
    {
      var unpacked := Unpack();
      if !unpacked {
        r := Finalize(1);    // the archive or its metadata cannot be read
        return;
      }
      ghost var was := items;
      var ok := Start(DataOf(uuid));
      if !ok {
        r := Finalize(1);
        return;
      }
      forall k | 0 <= k < |uuids| && !tainted ensures Covered(uuids[k]) {
        if uuids[k] != uuid {
          StillCovered(was, items, completed, uuids[k], DataOf(uuids[k]));
        }
      }
      return Done(None);
    }

    /** finishedItemHandler; the result is what the finished handler gets, if it is called. */
    method FinishedItem(id: nat, success: bool) returns (r: Flow<Option<int>>)
      requires Between()
      modifies this`items, this`storedPaths, this`storedSize, this`completed, this`tainted, this`fates,
               this`unreadable, this`starts, this`reports
      ensures Recoverable() && !r.Stuck? && (r.Done? ==> Between())
      ensures r.Done? && r.value == Some(0) && !tainted ==> AllComplete()
      ensures reports == old(reports) + Calls(if r.Done? then r.value else None)
      ensures r.Done? && r.value.Some? ==> items == []
      ensures NoFailure(old(fates)) ==> NoFailure(fates) && (tainted ==> old(tainted))
      ensures NoFailure(old(fates)) && r.Done? && r.value.Some? ==> storedSize == 0
      ensures FindById(old(items), id).None? ==> r == Done(None) && items == old(items)
      ensures NoCut(old(fates)) && FindById(old(items), id).Some? && !success ==>
                r == Done(Some(1)) && completed == {}
      ensures NoCut(old(fates)) && FindById(old(items), id).Some? && success ==>
                var i := FindById(old(items), id).value;
                var marked := old(items)[i := old(items)[i].(id := None)];
                && (old(items)[i].isMeta && old(unreadable) == [] && old(starts) == [] ==>
                      && r == Done(None) && NoCut(fates) && unreadable == [] && starts == []
                      && |items| == |old(items)| + 1 && items[1..] == marked && items[0].id.Some? && !items[0].isMeta)
                && (!old(items)[i].isMeta ==>
                      && NoCut(fates) && unreadable == old(unreadable) && starts == old(starts)
                      && if NoneActive(marked) then r == Done(Some(0)) else r == Done(None) && items == marked)
      ensures NoCut(old(fates)) && old(unreadable) == [] && old(starts) == [] ==>
                r.Done? && NoCut(fates) && unreadable == [] && starts == []
    {
      hide NoCut, NoFailure, FateAt, After, Mistaken;
      var found := FindById(items, id);
      if found.None? {
        return Done(None);
      }
      var i := found.value;
      if !success {
        r := Finalize(1);
        return;
      }
      var p := items[i].path.value;
      ghost var before, done := items, completed;
      completed := completed + {p};
      var marked :- MarkDownloaded(i);
      forall k | 0 <= k < |uuids| && p != Meta(uuids[k]) && !tainted ensures Covered(uuids[k]) {
        MarkedCovered(before, i, p, done, uuids[k], DataOf(uuids[k]));
      }
      if items[i].isMeta {
        r := MetaFinished(p.uuid);
        return;
      }
      var s, called := FinishIfDone();
      r := if s.Done? then Done(called) else Crash;
    }

    /** The end of downloadmgr_downloadUFs and downloadmgr_resume: with no download under way, everything is there. */
    method FinishIfDone() returns (r: Flow<int>, called: Option<int>)
      requires Recoverable() && ItemsOk() && AllCovered(|uuids|)
      modifies this`items, this`storedPaths, this`storedSize, this`completed, this`tainted, this`fates,
               this`unreadable, this`starts, this`reports
      ensures Recoverable() && !r.Stuck? && (r.Done? ==> Between() && r.value == 0)
      ensures called.Some? ==> r.Done?
      ensures called == Some(0) && !tainted ==> AllComplete()
      ensures reports == old(reports) + Calls(called) && completed == old(completed) && tainted == old(tainted)
      ensures NoFailure(old(fates)) ==> NoFailure(fates) && (r.Done? && called.Some? ==> storedSize == 0)
      ensures r.Done? ==> items == (if called.Some? then [] else old(items)) && (called == None ==> !NoneActive(items))
      ensures NoCut(old(fates)) ==> r == Done(0) && NoCut(fates) && called == if NoneActive(old(items)) then Some(0) else None
      ensures called == None && r.Done? ==> fates == old(fates) && storedSize == old(storedSize) && storedPaths == old(storedPaths)
      ensures starts == old(starts) && unreadable == old(unreadable)
    {
      called := None;
      var active := ActiveDownloads(items);
      if active == 0 {
        if !tainted {
          AllThere();
        }
        var f := Finalize(0);
        if f.Crash? {
          return Crash, None;
        }
        return Done(0), f.value;
      }
      return Done(0), None;
    }

    /** downloadmgr_downloadUFs: every .uf, from scratch. */
    method DownloadUFs() returns (r: Flow<int>, called: Option<int>)
      requires Between()
      modifies this`items, this`storedPaths, this`storedSize, this`completed, this`tainted, this`fates,
               this`unreadable, this`starts, this`reports
      ensures Recoverable() && !r.Stuck? && (r.Done? ==> Between())
      ensures called.Some? ==> r.Done?
      ensures reports == old(reports) + Calls(called)
      ensures called == Some(0) && !tainted ==> AllComplete()
      ensures NoFailure(old(fates)) ==> NoFailure(fates) && (tainted ==> old(tainted))
      ensures r.Done? && r.value == 0 && called == None ==>
                completed == (if old(storedSize) == 0 then {} else old(completed))
                && forall k | 0 <= k < |uuids| :: Active(items, Meta(uuids[k]))
      ensures old(items) == [] && old(starts) == [] && NoCut(old(fates)) ==>
                && r == Done(0) && NoCut(fates) && starts == [] && unreadable == old(unreadable)
                && called == if uuids == [] then Some(0) else None
      ensures old(items) != [] ==> r == Done(1) && called == None && items == old(items)
      ensures r == Done(0) ==> if called.Some? then items == [] else !NoneActive(items)
      ensures NoCut(old(fates)) && old(unreadable) == [] && old(starts) == [] ==>
                r.Done? && NoCut(fates) && unreadable == [] && starts == []
    {
      called := None;
      if items != [] {
        return Done(1), None;
      }
      if storedSize == 0 {
        completed, tainted := {}, false;
      }
      ghost var had := completed;
      for i := 0 to |uuids|
        invariant Recoverable() && ItemsOk() && completed == had && |items| == i
        invariant fates == old(fates) && (tainted ==> old(tainted)) && reports == old(reports)
        invariant unreadable == old(unreadable) && (old(starts) == [] ==> starts == [])
        invariant forall k | 0 <= k < i :: items[k].id.Some?
        invariant forall k | 0 <= k < i :: Active(items, Meta(uuids[k]))
      {
        ghost var was := items;
        var ok := Start(Meta(uuids[i]));
        if !ok {
          var c := Cancel();
          r := if c.Done? then Done(1) else Crash;
          return;
        }
        forall k | 0 <= k < i ensures Active(items, Meta(uuids[k])) {
          StillActive(was, items, Meta(uuids[k]));
        }
      }
      assert |uuids| > 0 ==> items[0].id.Some?;
      r, called := FinishIfDone();
    }

    ghost predicate Distinct() {
      forall j, k | 0 <= j < k < |uuids| :: uuids[j] != uuids[k]
    }

    predicate Listed(p: Path)
      reads this`items
    {
      ListedIn(items, p)
    }

    predicate Claimed(p: Path)
      reads this`storedSize, this`storedPaths
    {
      exists k :: 0 <= k < storedSize && k in storedPaths && storedPaths[k] == p
    }

    /** The list in storage claims everything. */
    predicate ClaimsAll()
      reads this`storedSize, this`storedPaths
    {
      !Torn() && forall k | 0 <= k < |uuids| :: Claimed(Meta(uuids[k])) && Claimed(DataOf(uuids[k]))
    }

    lemma RestoredIsListed(p: Path)
      requires !Torn() && |items| == storedSize && Claimed(p)
      requires forall i | 0 <= i < storedSize :: items[storedSize - 1 - i].path == Some(storedPaths[i])
      ensures Listed(p)
    {
      var k :| 0 <= k < storedSize && k in storedPaths && storedPaths[k] == p;
      assert items[storedSize - 1 - k].path == Some(p);
    }

    /** One entry of the loop in downloadmgr_resume; false breaks out of it. */
    method ResumeEntry(i: nat) returns (ok: bool)
      requires Recoverable() && ItemsOk() && i < |uuids| && Distinct()
      requires AllCovered(i)
      requires forall j | 0 <= j < |items| && items[j].id.Some? :: items[j].path.value.uuid in uuids[..i]
      modifies this`items, this`unreadable, this`starts
      ensures ok ==> ItemsOk() && AllCovered(i + 1)
      ensures ok ==> forall j | 0 <= j < |items| && items[j].id.Some? :: items[j].path.value.uuid in uuids[..i + 1]
      ensures old(unreadable) == [] && old(Listed(Meta(uuids[i]))) && old(Listed(DataOf(uuids[i]))) ==>
                ok && items == old(items) && unreadable == []
      ensures ok ==> items == old(items) || AddedUnlisted(items, old(items))
      ensures old(unreadable) == [] && old(starts) == [] ==> ok && unreadable == [] && starts == []
    {
      var u := uuids[i];
      ghost var was := items;
      SplitHere(uuids, i);
      var metaItem := FindByPath(items, Meta(u));
      if metaItem.Some? {
        assert items[metaItem.value].id.None?;
        var unpacked := Unpack();
        if !unpacked {
          return false;    // the archive or its metadata cannot be read
        }
        var dataItem := FindByPath(items, DataOf(u));
        if dataItem.Some? {
          assert items[dataItem.value].id.None?;
          return true;
        }
        ok := Start(DataOf(u));
      } else {
        ok := Start(Meta(u));
      }
      if ok {
        forall k | 0 <= k < i && !tainted ensures Covered(uuids[k]) {
          StillCovered(was, items, completed, uuids[k], DataOf(uuids[k]));
        }
        assert forall j | 0 < j < |items| :: items[j] == items[1..][j - 1];
      }
    }

    /** downloadmgr_resume. */
    method Resume() returns (r: Flow<int>, called: Option<int>)
      requires Between() && Distinct()
      modifies this`items, this`storedPaths, this`storedSize, this`completed, this`tainted, this`fates,
               this`unreadable, this`starts, this`reports
      ensures Recoverable() && !r.Stuck? && (r.Done? ==> Between())
      ensures called.Some? ==> r.Done?
      ensures reports == old(reports) + Calls(called)
      ensures called == Some(0) && !tainted ==> AllComplete()
      ensures NoFailure(old(fates)) ==> NoFailure(fates) && (tainted ==> old(tainted))
      ensures old(items) == [] && old(Torn()) && r.Done? && r.value == 0 && called == None ==>
                completed == {} && forall k | 0 <= k < |uuids| :: Active(items, Meta(uuids[k]))
      ensures old(items) == [] && NoCut(old(fates)) && old(unreadable) == [] && old(ClaimsAll()) ==>
                r == Done(0) && called == Some(0) && completed == old(completed) && tainted == old(tainted)
      ensures old(items) == [] && !old(Torn()) && old(starts) == [] && old(unreadable) == [] && NoCut(old(fates)) ==>
                && r == Done(0) && starts == [] && unreadable == [] && NoCut(fates)
                && completed == old(completed) && tainted == old(tainted) && (called == None || called == Some(0))
                && (called == None ==>
                      && storedSize == old(storedSize) && storedPaths == old(storedPaths)
                      && forall p | Active(items, p) :: !old(Claimed(p)))
      ensures old(items) == [] && old(Torn()) && old(starts) == [] && NoCut(old(fates)) ==>
                r == Done(0) && NoCut(fates) && starts == [] && called == if uuids == [] then Some(0) else None
      ensures old(items) != [] ==> r == Done(1) && called == None && items == old(items)
      ensures r == Done(0) ==> if called.Some? then items == [] else !NoneActive(items)
      ensures NoCut(old(fates)) && old(unreadable) == [] && old(starts) == [] ==>
                r.Done? && NoCut(fates) && unreadable == [] && starts == []
    {
      called := None;
      if items != [] {
        return Done(1), None;
      }
      var restored := Restore();
      if !restored {
        r, called := StartOver();
        return;
      }
      hide Claimed, ListedIn, NoCut, NoFailure, Torn, FateAt, Left, After;
      var ok := ResumeEntries();
      if !ok {
        var c := Cancel();
        r := if c.Done? then Done(1) else Crash;
        return;
      }
      r, called := FinishIfDone();
    }

    /** The branch of downloadmgr_resume for a list that cannot be restored. */
    method StartOver() returns (r: Flow<int>, called: Option<int>)
      requires Recoverable()
      modifies this`items, this`storedPaths, this`storedSize, this`completed, this`tainted, this`fates,
               this`unreadable, this`starts, this`reports
      ensures Recoverable() && !r.Stuck? && (r.Done? ==> Between())
      ensures called.Some? ==> r.Done?
      ensures reports == old(reports) + Calls(called)
      ensures called == Some(0) && !tainted ==> AllComplete()
      ensures NoFailure(old(fates)) ==> NoFailure(fates) && (tainted ==> old(tainted))
      ensures r.Done? && r.value == 0 && called == None ==>
                completed == {} && forall k | 0 <= k < |uuids| :: Active(items, Meta(uuids[k]))
      ensures old(starts) == [] && NoCut(old(fates)) ==>
                r == Done(0) && NoCut(fates) && starts == [] && unreadable == old(unreadable)
                && called == if uuids == [] then Some(0) else None
      ensures r == Done(0) ==> if called.Some? then items == [] else !NoneActive(items)
    {
      hide Left, FateAt, After, NoCut, NoFailure;
      var c := Cancel();
      if c.Crash? {
        return Crash, None;
      }
      r, called := DownloadUFs();
    }

    /** The loop in downloadmgr_resume. */
    method ResumeEntries() returns (ok: bool)
      requires Recoverable() && Distinct() && !Torn() && ItemsOk() && |items| == storedSize && NoneActive(items)
      requires forall i | 0 <= i < storedSize :: items[storedSize - 1 - i].path == Some(storedPaths[i])
      modifies this`items, this`unreadable, this`starts
      ensures ok ==> ItemsOk() && AllCovered(|uuids|)
      ensures old(starts) == [] && old(unreadable) == [] ==> ok && starts == [] && unreadable == []
      ensures ok ==> forall p | Active(items, p) :: !Claimed(p)
      ensures old(unreadable) == [] && ClaimsAll() ==> ok && NoneActive(items)
    {
      ghost var restoredItems := items;
      forall p | Claimed(p) ensures ListedIn(items, p) {
        RestoredIsListed(p);
      }
      hide Claimed, ListedIn;
      var i := 0;
      ok := true;
      while i < |uuids| && ok
        invariant i <= |uuids|
        invariant old(unreadable) == [] && old(starts) == [] ==> ok && unreadable == [] && starts == []
        invariant ok ==> forall p | Claimed(p) :: ListedIn(items, p)
        invariant ok ==> forall p | Active(items, p) :: !Claimed(p)
        invariant old(unreadable) == [] && ClaimsAll() ==> ok && items == restoredItems && unreadable == []
        invariant ok ==> ItemsOk() && AllCovered(i)
        invariant ok ==> forall j | 0 <= j < |items| && items[j].id.Some? :: items[j].path.value.uuid in uuids[..i]
      {
        ghost var was := items;
        ok := ResumeEntry(i);
        if ok && items != was {
          Added(items, was);
        }
        i := i + 1;
      }
    }

    method PowerOff()
      requires Recoverable()
      modifies this`items, this`tainted
      ensures Between() && items == [] && (tainted ==> old(tainted)) && tainted == !Recorded()
    {
      items, tainted := [], !Recorded();
    }
  }

  // ----- what a step does to the coverage -----

  lemma StillActive(before: seq<Item>, after: seq<Item>, p: Path)
    requires |after| == |before| + 1 && after[1..] == before && Active(before, p)
    ensures Active(after, p)
  {
    var i: nat :| ActiveAt(before, i, p);
    assert after[i + 1] == after[1..][i];
    assert ActiveAt(after, i + 1, p);
  }

  lemma OthersActive(before: seq<Item>, after: seq<Item>, i: nat, p: Path)
    requires i < |before| && after == before[i := before[i].(id := None)] && Active(before, p) && before[i].path != Some(p)
    ensures Active(after, p)
  {
    var j: nat :| ActiveAt(before, j, p);
    assert ActiveAt(after, j, p);
  }

  lemma StillCovered(before: seq<Item>, after: seq<Item>, completed: set<Path>, uuid: string, data: Path)
    requires |after| == |before| + 1 && after[1..] == before && CoveredBy(before, completed, uuid, data)
    ensures CoveredBy(after, completed, uuid, data)
  {
    if Active(before, Meta(uuid)) {
      StillActive(before, after, Meta(uuid));
    }
    if Active(before, data) {
      StillActive(before, after, data);
    }
  }

  /** A completed file other than the entry's .uf leaves the entry covered. */
  lemma MarkedCovered(before: seq<Item>, i: nat, p: Path, completed: set<Path>, uuid: string, data: Path)
    requires i < |before| && before[i].path == Some(p) && p != Meta(uuid) && CoveredBy(before, completed, uuid, data)
    ensures CoveredBy(before[i := before[i].(id := None)], completed + {p}, uuid, data)
  {
    var after := before[i := before[i].(id := None)];
    if Active(before, Meta(uuid)) {
      OthersActive(before, after, i, Meta(uuid));
    } else if data != p && Active(before, data) {
      OthersActive(before, after, i, data);
    }
  }

  datatype Event = Begin | Restart | Finished(id: nat, success: bool) | Cancelled | PowerGone

  // ----- how much is left to do -----

  /** What an item has still to go through: a .uf brings a data file behind it. */
  function Weight(item: Item): nat {
    if item.id.None? then 0 else if item.isMeta then 2 else 1
  }

  function Pending(items: seq<Item>): nat {
    if items == [] then 0 else Weight(items[0]) + Pending(items[1..])
  }

  lemma {:induction false} PendingWithout(items: seq<Item>, i: nat)
    requires i < |items|
    ensures Pending(items[i := items[i].(id := None)]) == Pending(items) - Weight(items[i])
  {
    var without := items[i := items[i].(id := None)];
    if i > 0 {
      assert without[1..] == items[1..][i - 1 := items[i].(id := None)];
      PendingWithout(items[1..], i - 1);
    } else {
      assert without[1..] == items[1..];
    }
  }

  lemma {:induction false} NothingPending(items: seq<Item>)
    ensures Pending(items) == 0 <==> NoneActive(items)
  {
    if items != [] {
      NothingPending(items[1..]);
      assert forall i | 1 <= i < |items| :: items[i] == items[1..][i - 1];
    }
  }

  lemma {:induction false} Finds(items: seq<Item>, i: nat)
    requires i < |items| && items[i].id.Some?
    ensures FindById(items, items[i].id.value).Some?
  {
    if i > 0 {
      Finds(items[1..], i - 1);
    }
  }

  /** What an event comes to when no power goes, every archive can be read and every download can be started: each file
      that completes brings the end one step nearer, and the last one brings the report of success. */
  twostate predicate Smooth(m: Manager, event: Event, called: Option<int>)
    reads m
  {
    match event
    case Begin => old(m.items) == [] ==> if called == Some(0) then m.items == [] else called == None && !NoneActive(m.items)
    case Restart => old(m.items) == [] ==> if called == Some(0) then m.items == [] else called == None && !NoneActive(m.items)
    case Finished(id, success) =>
      FindById(old(m.items), id).Some? ==>
        if !success then called == Some(1) && m.items == [] && m.completed == {}
        else if Pending(old(m.items)) > 1 then called == None && Pending(m.items) == Pending(old(m.items)) - 1
        else called == Some(0) && m.items == []
    case Cancelled => called == None && m.items == [] && m.completed == {}
    case PowerGone => called == None && m.items == []
  }

  /** One event of a run; `called` is what the finished handler gets. */
  method Handle(m: Manager, event: Event) returns (called: Option<int>)
    requires m.Between() && m.Distinct()
    modifies m
    ensures m.Between()
    ensures m.reports == old(m.reports) + m.Calls(called)
    ensures called == Some(0) && !m.tainted ==> m.AllComplete()
    ensures NoFailure(old(m.fates)) ==> NoFailure(m.fates) && (m.tainted ==> old(m.tainted))
    ensures NoCut(old(m.fates)) && old(m.unreadable) == [] && old(m.starts) == [] ==>
              NoCut(m.fates) && m.unreadable == [] && m.starts == [] && Smooth(m, event, called)
  {
    hide NoCut, NoFailure;
    called := None;
    match event {
      case Begin =>
        var r: Flow<int>;
        r, called := m.DownloadUFs();
        if r.Crash? {
          m.PowerOff();
        }
      case Restart =>
        var r: Flow<int>;
        r, called := m.Resume();
        if r.Crash? {
          m.PowerOff();
        }
      case Finished(id, success) =>
        ghost var found := FindById(m.items, id);
        if found.Some? {
          PendingWithout(m.items, found.value);
          NothingPending(m.items[found.value := m.items[found.value].(id := None)]);
        }
        var r := m.FinishedItem(id, success);
        if r.Crash? {
          m.PowerOff();
        } else {
          called := r.value;
        }
      case Cancelled =>
        var r := m.Cancel();
        if r.Crash? {
          m.PowerOff();
        }
      case PowerGone =>
        m.PowerOff();
    }
  }

  /** Success was reported with everything complete, or under a list that a failed write had spoilt. */
  predicate Honest(report: Report) {
    report.status == 0 ==> report.complete || report.tainted
  }

  predicate Truthful(report: Report) {
    report.status == 0 ==> report.complete
  }

  /** Any run of callbacks, cancellations, failing writes and power cuts: unless a failed write has made the list
      claim a file it should not, what is recorded really completed, and success is reported only when every entry has
      both its files.  Power cuts alone never lead to such a list. */
  method Run(m: Manager, events: seq<Event>) returns (called: seq<Option<int>>)
    requires m.Between() && m.Distinct() && forall c | c in m.reports :: Honest(c)
    modifies m
    ensures m.Between() && |called| == |events|
    ensures old(m.reports) <= m.reports && Statuses(m.reports[|old(m.reports)|..]) == Values(called)
    ensures forall c | c in m.reports :: Honest(c)
    ensures NoFailure(old(m.fates)) && !old(m.tainted) ==> m.Recorded()
    ensures NoFailure(old(m.fates)) && !old(m.tainted) && (forall c | c in old(m.reports) :: Truthful(c)) ==>
              forall c | c in m.reports :: Truthful(c)
  {
    called := [];
    ghost var before, fates, tainted := m.reports, m.fates, m.tainted;
    for i := 0 to |events|
      invariant m.Between() && |called| == i && before <= m.reports && Statuses(m.reports[|before|..]) == Values(called)
      invariant forall c | c in m.reports :: Honest(c)
      invariant NoFailure(fates) && !tainted ==> NoFailure(m.fates) && !m.tainted
      invariant NoFailure(fates) && !tainted && (forall c | c in before :: Truthful(c)) ==> forall c | c in m.reports :: Truthful(c)
    {
      ghost var was := m.reports;
      var call := Handle(m, events[i]);
      OneMore(was, before, m.Calls(call), called, call);
      called := called + [call];
    }
  }

  /** A whole download, from the beginning or from what is in storage, whatever the order in which the files complete: when no
      power goes and nothing is unreadable or refused, it ends with the report of success; without failed writes everything
      is then there. */
  method WholeDownload(m: Manager, resume: bool) returns (called: Option<int>)
    requires m.Between() && m.Distinct() && m.items == [] && NoCut(m.fates) && m.unreadable == [] && m.starts == []
    modifies m
    ensures called == Some(0) && m.items == [] && m.Between()
    ensures m.reports == old(m.reports) + [Report(0, m.AllComplete(), m.tainted)]
    ensures NoFailure(old(m.fates)) && !old(m.tainted) ==> m.AllComplete() && !m.tainted
  {
    called := Handle(m, if resume then Restart else Begin);
    while called == None
      invariant m.Between() && NoCut(m.fates) && m.unreadable == [] && m.starts == []
      invariant NoFailure(old(m.fates)) ==> NoFailure(m.fates) && (m.tainted ==> old(m.tainted))
      invariant if called == None then !NoneActive(m.items) && m.reports == old(m.reports)
                else called == Some(0) && m.items == [] && m.reports == old(m.reports) + m.Calls(called)
                     && (!m.tainted ==> m.AllComplete())
      decreases called == None, Pending(m.items)
    {
      NothingPending(m.items);
      var i :| 0 <= i < |m.items| && m.items[i].id.Some?;
      Finds(m.items, i);
      called := Handle(m, Finished(m.items[i].id.value, true));
      NothingPending(m.items);
    }
  }

  /** The statuses that the handler calls of a run carry. */
  function Statuses(reports: seq<Report>): seq<int> {
    if reports == [] then [] else Statuses(reports[..|reports| - 1]) + [reports[|reports| - 1].status]
  }

  function Values(called: seq<Option<int>>): seq<int> {
    if called == [] then []
    else
      var init, last := called[..|called| - 1], called[|called| - 1];
      if last.Some? then Values(init) + [last.value] else Values(init)
  }

  lemma OneMore(was: seq<Report>, before: seq<Report>, more: seq<Report>, called: seq<Option<int>>, call: Option<int>)
    requires before <= was && Statuses(was[|before|..]) == Values(called)
    requires if call.Some? then |more| == 1 && more[0].status == call.value else more == []
    ensures before <= was + more && Statuses((was + more)[|before|..]) == Values(called + [call])
  {
    var a := was[|before|..];
    assert (was + more)[|before|..] == a + more && (called + [call])[..|called|] == called;
    if more != [] {
      assert (a + more)[..|a|] == a;
    } else {
      assert a + more == a;
    }
  }

  /** The download of p ends and is recorded. */
  method Ends(m: Manager, p: Path)
    requires m.Recoverable() && m.items == [] && NoCut(m.fates)
    modifies m
    ensures m.items == [Item(None, Some(p), p.Meta?)] && m.completed == old(m.completed) + {p} && NoCut(m.fates)
    ensures m.fates == After(old(m.fates), 2)
    ensures m.storedSize == old(m.storedSize) + (if FateAt(old(m.fates), 1) == Fails then 0 else 1)
    ensures m.storedPaths ==
            (if FateAt(old(m.fates), 0) == Fails then old(m.storedPaths) else old(m.storedPaths)[old(m.storedSize) := p])
    ensures m.Recoverable() && (old(m.tainted) ==> m.tainted) && m.reports == old(m.reports)
  {
    m.items, m.completed := [Item(Some(0), Some(p), p.Meta?)], m.completed + {p};
    var r := m.MarkDownloaded(0);
  }

  /** A file taken for complete that is not: the path of a survives a cancellation whose removal failed, and is counted
      again when the path of b cannot be written over it. */
  method StalePath(a: string, b: string, fileOf: string -> string) returns (m: Manager)
    requires a != b
    ensures m.items == [Item(None, Some(Meta(b)), true)] && m.completed == {Meta(b)}
    ensures m.storedSize == 1 && m.storedPaths == map[0 := Meta(a)] && m.Recoverable() && m.tainted
    ensures fresh(m) && m.uuids == [a, b] && m.fileOf == fileOf && m.fates == [] && m.reports == []
  {
    m := new Manager([a, b], fileOf, [Goes, Goes, Fails, Goes, Fails, Goes]);
    Ends(m, Meta(a));
    assert m.fates == [Fails, Goes, Fails, Goes];
    assert m.storedPaths == map[0 := Meta(a)];
    var c := m.Cancel();
    assert m.fates == [Fails, Goes];
    assert m.storedPaths == map[0 := Meta(a)];
    Ends(m, Meta(b));
    assert m.storedPaths[0] !in m.completed;
  }

  /** The download of p ends with nothing failing, and the power goes. */
  method EndsWell(m: Manager, p: Path)
    requires m.Recoverable() && m.items == [] && m.fates == []
    modifies m
    ensures m.Between() && m.items == [] && m.fates == [] && m.completed == old(m.completed) + {p}
    ensures m.storedSize == old(m.storedSize) + 1 && m.storedPaths == old(m.storedPaths)[old(m.storedSize) := p]
    ensures m.reports == old(m.reports) && m.tainted == !m.Recorded()
  {
    Ends(m, p);
    m.PowerOff();
  }

  /** Downloads that end one after the other, with a power cut behind each. */
  method AllEndWell(m: Manager, paths: seq<Path>)
    requires m.Between() && m.items == [] && m.fates == [] && (m.tainted <==> !m.Recorded())
    modifies m
    ensures m.Between() && m.items == [] && m.fates == [] && (m.tainted <==> !m.Recorded()) && m.reports == old(m.reports)
    ensures forall p | p in m.completed :: p in old(m.completed) || p in paths
    ensures m.storedSize == old(m.storedSize) + |paths|
    ensures forall k: nat | k < old(m.storedSize) && k in old(m.storedPaths) ::
              k in m.storedPaths && m.storedPaths[k] == old(m.storedPaths)[k]
    ensures forall k: nat | old(m.storedSize) <= k < m.storedSize ::
              k in m.storedPaths && m.storedPaths[k] == paths[k - old(m.storedSize)]
  {
    ghost var n, was := m.storedSize, m.storedPaths;
    for i := 0 to |paths|
      invariant m.Between() && m.items == [] && m.fates == [] && (m.tainted <==> !m.Recorded()) && m.reports == old(m.reports)
      invariant forall p | p in m.completed :: p in old(m.completed) || p in paths
      invariant m.storedSize == n + i
      invariant forall k: nat | k < n && k in was :: k in m.storedPaths && m.storedPaths[k] == was[k]
      invariant forall k: nat | n <= k < n + i :: k in m.storedPaths && m.storedPaths[k] == paths[k - n]
    {
      EndsWell(m, paths[i]);
    }
  }

  /** What comes of it: the other three files complete, the power goes, and the next start takes everything for downloaded
      and reports success, while the .uf of a never completed. */
  method EarlySuccess(a: string, b: string, fileOf: string -> string) returns (m: Manager, called: Option<int>)
    requires a != b
    ensures called == Some(0) && m.reports == [Report(0, false, true)]
    ensures m.uuids == [a, b] && Meta(a) !in m.completed
  {
    m := StalePath(a, b, fileOf);
    m.PowerOff();
    var others := [Data(a, fileOf(a)), Meta(b), Data(b, fileOf(b))];
    AllEndWell(m, others);
    m.unreadable := [];
    assert m.storedPaths[0] == Meta(a) && m.storedPaths[1] == others[0];
    assert m.storedPaths[2] == others[1] && m.storedPaths[3] == others[2];
    called := TakesForDone(m);
    assert !m.Complete(m.uuids[0]);
  }

  /** A start that finds everything claimed reports success, whether or not it is there. */
  method TakesForDone(m: Manager) returns (called: Option<int>)
    requires m.Between() && m.Distinct() && m.items == [] && NoCut(m.fates) && m.unreadable == [] && m.ClaimsAll()
    modifies m
    ensures called == Some(0) && m.completed == old(m.completed)
    ensures m.reports == old(m.reports) + [Report(0, m.AllComplete(), old(m.tainted))]
  {
    hide NoCut, NoFailure, FateAt, After;
    var r: Flow<int>;
    r, called := m.Resume();
  }
}
