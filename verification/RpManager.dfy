/** Installing a release package so that a power cut at any moment can be recovered from (rpmanager.c). */
module RpManager {
  import opened Bytes
  import opened Power
  import opened Versions

  datatype State = UpdateSuccess | RollbackSuccess | UpdatePending | RollbackPending
  datatype Status = Critical | Ok | Error

  datatype Call = Apply | Resume | Rollback

  /** One image handler call on update file `uf`; done is false when it failed or was cut off. */
  datatype Event = Ran(call: Call, uf: int, done: bool)

  datatype Package = Package(uuid: string, version: Version)
  datatype Update = Update(uuid: string, fromVersion: Option<Version>, toVersion: Option<Version>, files: nat)
  datatype AvailableConfig = AvailableConfig(packages: seq<Package>, update: Option<Update>)

  /** What can fail about a file while it is installed: the reading of its metadata, its checksum test, its image handler,
      and the journal entry behind that. */
  datatype Spot = Meta | Checksum | Image | Entry
  {
    function Offset(): nat {
      match this
      case Meta => 0
      case Checksum => 1
      case Image => 2
      case Entry => 3
    }

    /** Which of them asks for a rollback; the others give the update up. */
    predicate Turns() {
      this == Checksum || this == Image
    }
  }

  /** Where the fate of file m stands in a call of runUpdate, behind the saved state. */
  function FileAt(m: nat, spot: Spot): nat {
    1 + 4 * m + spot.Offset()
  }

  /** m files are applied, and this is the first thing to fail about the next one. */
  ghost predicate FailsAt(fates: seq<Fate>, m: nat, spot: Spot) {
    && (forall x: nat | x < FileAt(m, spot) :: FateAt(fates, x) == Goes)
    && FateAt(fates, FileAt(m, spot)) == Fails
  }

  /** m files are applied, the next one's image handler fails, and the power goes when ROLLBACK_PENDING has been saved. */
  ghost predicate FailsThenCut(fates: seq<Fate>, m: nat) {
    FailsAt(fates, m, Image) && FateAt(fates, 4 + 4 * m) == CutAfter
  }

  /** m files are applied, the next one fails, and nothing else does. */
  ghost predicate OnlyFails(fates: seq<Fate>, m: nat, spot: Spot) {
    FailsAt(fates, m, spot) && After(fates, FileAt(m, spot) + 1) == []
  }

  /** The reads and the recovery before a call of runUpdate go well. */
  predicate TwoGo(fates: seq<Fate>) {
    FateAt(fates, 0) == FateAt(fates, 1) == Goes
  }

  predicate FiveGo(fates: seq<Fate>) {
    TwoGo(fates) && FateAt(fates, 2) == FateAt(fates, 3) == FateAt(fates, 4) == Goes
  }

  predicate ThreeGo(fates: seq<Fate>) {
    FateAt(fates, 0) == FateAt(fates, 1) == FateAt(fates, 2) == Goes
  }

  /** What the three effects on a file and its journal entry meet. */
  lemma StepFates(fates: seq<Fate>)
    ensures FourGo(fates) ==> ThreeGo(fates) && FateAt(After(fates, 3), 0) == Goes
    ensures StepFails(fates, Entry) ==> ThreeGo(fates) && FateAt(After(fates, 3), 0) == Fails
    ensures After(After(fates, 3), 1) == After(fates, 4)
  {
    Later(fates, 3, 0);
    Later(fates, 3, 1);
  }

  predicate FourGo(fates: seq<Fate>) {
    FateAt(fates, 0) == FateAt(fates, 1) == FateAt(fates, 2) == FateAt(fates, 3) == Goes
  }

  /** The journal could be removed and the new configuration written. */
  predicate ConfigWritten(fates: seq<Fate>) {
    FateAt(fates, 0) == Goes && FateAt(fates, 1) in {Goes, CutAfter}
  }

  /** This is the first thing to fail about the next file. */
  predicate StepFails(fates: seq<Fate>, spot: Spot) {
    && (forall x: nat | x < spot.Offset() :: FateAt(fates, x) == Goes)
    && FateAt(fates, spot.Offset()) == Fails
  }

  /** Nothing happens to the first n effects and reads. */
  predicate AllGo(fates: seq<Fate>, n: nat) {
    forall x: nat | x < n :: FateAt(fates, x) == Goes
  }

  lemma AllGoAfter(fates: seq<Fate>, m: nat, n: nat)
    requires AllGo(fates, m + n)
    ensures AllGo(After(fates, m), n)
  {
    forall x: nat | x < n ensures FateAt(After(fates, m), x) == Goes {
      Later(fates, m, x);
    }
  }

  lemma NothingHappens(n: nat)
    ensures AllGo([], n) && After([], n) == []
  {
  }

  lemma NoneOfAll(fates: seq<Fate>, n: nat)
    ensures AllGo(fates, 4 + 4 * n) ==> FateAt(fates, 0) == FateAt(fates, 1) == Goes && AllGo(After(fates, 2), 2 + 4 * n)
  {
    if AllGo(fates, 4 + 4 * n) {
      AllGoAfter(fates, 2, 2 + 4 * n);
    }
  }

  lemma FirstGoes(given: seq<Fate>)
    ensures forall m: nat, spot: Spot | FailsAt(given, m, spot) :: FateAt(given, 0) == Goes
    ensures given == [] ==> FateAt(given, 0) == Goes && After(given, 1) == []
    ensures FourGo([]) && After([], 4) == []
  {
  }

  /** What a resume reads before it recovers a file, and where runUpdate then finds its fates. */
  lemma RecoverFirst(given: seq<Fate>)
    ensures FiveGo(given) ==> TwoGo(given) && FateAt(given, 2) == Goes && TwoGo(After(given, 3))
    ensures After(After(given, 2), 1) == After(given, 3) && After(After(given, 3), 2) == After(given, 5)
  {
  }

  lemma ReadsFirst(given: seq<Fate>)
    ensures given == [] ==>
              FateAt(given, 0) == FateAt(given, 1) == FateAt(given, 2) == Goes && After(given, 2) == After(given, 1) == []
    ensures TwoGo(given) ==> FateAt(given, 0) == FateAt(given, 1) == Goes
  {
  }

  /** Where file d of such a run finds the fates. */
  lemma NextFile(given: seq<Fate>, d: nat)
    ensures forall m: nat, spot: Spot | FailsAt(given, m, spot) && d < m :: FourGo(After(given, 1 + 4 * d))
    ensures forall spot: Spot | FailsAt(given, d, spot) :: StepFails(After(given, 1 + 4 * d), spot)
    ensures After(After(given, 1 + 4 * d), 4) == After(given, 1 + 4 * (d + 1))
    ensures forall spot: Spot :: After(After(given, 1 + 4 * d), spot.Offset() + 1) == After(given, FileAt(d, spot) + 1)
    ensures forall k: nat | AllGo(given, k) && 5 + 4 * d <= k :: FourGo(After(given, 1 + 4 * d))
  {
    FileBounds(given, d);
    hide *;
    forall m: nat, spot: Spot | FailsAt(given, m, spot) && d < m ensures FourGo(After(given, 1 + 4 * d)) {
      EarlierFile(given, d, m, spot);
    }
    forall spot: Spot | FailsAt(given, d, spot) ensures StepFails(After(given, 1 + 4 * d), spot) {
      FileFates(given, d, spot);
    }
    forall k: nat | AllGo(given, k) && 5 + 4 * d <= k ensures FourGo(After(given, 1 + 4 * d)) {
      AnyFile(given, d, k);
    }
  }

  lemma FileBounds(given: seq<Fate>, d: nat)
    ensures After(After(given, 1 + 4 * d), 4) == After(given, 1 + 4 * (d + 1))
    ensures forall spot: Spot :: After(After(given, 1 + 4 * d), spot.Offset() + 1) == After(given, FileAt(d, spot) + 1)
  {
    Later(given, 1 + 4 * d, 4);
    forall spot: Spot ensures After(After(given, 1 + 4 * d), spot.Offset() + 1) == After(given, FileAt(d, spot) + 1) {
      Later(given, 1 + 4 * d, spot.Offset() + 1);
    }
  }

  lemma EarlierFile(given: seq<Fate>, d: nat, m: nat, spot: Spot)
    requires FailsAt(given, m, spot) && d < m
    ensures FourGo(After(given, 1 + 4 * d))
  {
    FourFates(given, 1 + 4 * d);
  }

  lemma AnyFile(given: seq<Fate>, d: nat, k: nat)
    requires AllGo(given, k) && 5 + 4 * d <= k
    ensures FourGo(After(given, 1 + 4 * d))
  {
    FourFates(given, 1 + 4 * d);
  }

  lemma FileFates(given: seq<Fate>, d: nat, spot: Spot)
    requires FailsAt(given, d, spot)
    ensures StepFails(After(given, 1 + 4 * d), spot)
  {
    FatesFrom(given, 1 + 4 * d, spot.Offset());
  }

  lemma FatesFrom(given: seq<Fate>, a: nat, n: nat)
    requires (forall x: nat | x < a + n :: FateAt(given, x) == Goes) && FateAt(given, a + n) == Fails
    ensures (forall x: nat | x < n :: FateAt(After(given, a), x) == Goes) && FateAt(After(given, a), n) == Fails
  {
    Later(given, a, n);
    forall x: nat | x < n ensures FateAt(After(given, a), x) == Goes {
      Later(given, a, x);
    }
  }

  lemma FourFates(given: seq<Fate>, a: nat)
    requires FateAt(given, a) == FateAt(given, a + 1) == FateAt(given, a + 2) == FateAt(given, a + 3) == Goes
    ensures FourGo(After(given, a))
  {
    Later(given, a, 0);
    Later(given, a, 1);
    Later(given, a, 2);
    Later(given, a, 3);
  }

  /** The two state changes of an update of n files that nothing happens to. */
  lemma LastSave(given: seq<Fate>, n: nat)
    ensures AllGo(given, 2 + 4 * n) ==>
              && AllGo(given, 1 + 4 * n) && FateAt(given, 0) == FateAt(After(given, 1 + 4 * n), 0) == Goes
              && After(After(given, 1 + 4 * n), 1) == After(given, 2 + 4 * n)
  {
    Later(given, 1 + 4 * n, 0);
    Later(given, 1 + 4 * n, 1);
  }

  lemma NextFates(given: seq<Fate>, m: nat)
    ensures FailsThenCut(given, m) ==> FateAt(After(given, 4 + 4 * m), 0) == CutAfter
    ensures After(After(given, 4 + 4 * m), 1) == After(given, 5 + 4 * m)
  {
    Later(given, 4 + 4 * m, 0);
    Later(given, 4 + 4 * m, 1);
  }

  lemma UntilFrom(before: seq<Event>, start: nat, i: nat)
    requires start <= i
    ensures var t := Then(before, start, i);
            && Until(before, start, i, Meta) == Until(before, start, i, Checksum) == t
            && Until(before, start, i, Image) == t + [Ran(Apply, i, false)]
            && Until(before, start, i, Entry) == t + [Ran(Apply, i, true)]
  {
    assert AppliedRun(start, i) + [Ran(Apply, i, true)] == AppliedRun(start, i + 1);
  }

  lemma UntilFails(before: seq<Event>, start: nat, m: nat)
    ensures Until(before, start, start + m, Image) == ThenFails(before, start, start + m)
  {
  }

  lemma FailsIn(given: seq<Fate>, m: nat, spot: Spot)
    ensures FailsThenCut(given, m) && spot == Image ==> FailsAt(given, m, spot) && FileAt(m, spot) + 1 == 4 + 4 * m
    ensures OnlyFails(given, m, spot) ==> FailsAt(given, m, spot) && After(given, FileAt(m, spot) + 1) == []
  {
  }

  /** The file that fails in such surroundings, if they are such. */
  lemma FileThatFails(fates: seq<Fate>) returns (m: nat, spot: Spot)
    ensures forall n: nat, b: Spot | FailsAt(fates, n, b) :: n == m && b == spot
  {
    m, spot := 0, Image;
    if n: nat, b: Spot :| FailsAt(fates, n, b) {
      m, spot := n, b;
      forall k: nat, c: Spot | FailsAt(fates, k, c) ensures k == n && c == b {
        assert FateAt(fates, FileAt(k, c)) == Fails == FateAt(fates, FileAt(n, b));
        assert FileAt(k, c) == FileAt(n, b);
      }
    }
  }

  function Find(packages: seq<Package>, uuid: string): (i: Option<nat>)
    ensures i.Some? ==> i.value < |packages| && packages[i.value].uuid == uuid
    ensures i.None? <==> forall k | 0 <= k < |packages| :: packages[k].uuid != uuid
  {
    if packages == [] then None
    else if packages[0].uuid == uuid then Some(0)
    else
      var rest := Find(packages[1..], uuid);
      assert rest.None? ==> forall k | 1 <= k < |packages| :: packages[k] == packages[1..][k - 1];
      if rest.Some? then Some(rest.value + 1) else None
  }

  /** checkUpdateConsistency. */
  predicate Consistent(installed: seq<Package>, available: AvailableConfig) {
    && available.update.Some? && available.update.value.files > 0
    && |installed| == |available.packages|
    && (forall k | 0 <= k < |installed| :: Find(available.packages, installed[k].uuid).Some?)
    && var u := available.update.value;
       var mine := Find(installed, u.uuid);
       && mine.Some?
       && VersionCmp(Some(installed[mine.value].version), u.fromVersion) == 0
       && VersionCmp(u.toVersion, u.fromVersion) == 1
       && VersionCmp(u.toVersion, Some(available.packages[Find(available.packages, u.uuid).value].version)) != 1
  }

  /** What a consistent update does to the installed configuration: the one package moves strictly upwards. */
  function Updated(installed: seq<Package>, available: AvailableConfig): (after: seq<Package>)
    requires Consistent(installed, available)
    ensures |after| == |installed|
    ensures var p := Find(installed, available.update.value.uuid).value;
            && VersionCmp(Some(after[p].version), Some(installed[p].version)) == 1
            && Some(after[p].version) == available.update.value.toVersion
            && after[p].uuid == installed[p].uuid
            && forall k | 0 <= k < |installed| && k != p :: after[k] == installed[k]
  {
    var u := available.update.value;
    var p := Find(installed, u.uuid).value;
    CmpTransitive(u.toVersion, u.fromVersion, Some(installed[p].version));
    CmpTransitive(Some(installed[p].version), u.fromVersion, u.fromVersion);
    installed[p := installed[p].(version := u.toVersion.value)]
  }

  // ----- histories -----

  predicate Succeeded(t: seq<Event>, uf: int) {
    Ran(Apply, uf, true) in t || Ran(Resume, uf, true) in t
  }

  predicate Touched(t: seq<Event>, uf: int) {
    Succeeded(t, uf) || Ran(Apply, uf, false) in t || Ran(Resume, uf, false) in t
  }

  predicate Undone(t: seq<Event>, uf: int) {
    Ran(Rollback, uf, true) in t || Ran(Resume, uf, true) in t
  }

  /** Update files a, a+1, ..., b-1 applied in this order. */
  function AppliedRun(a: nat, b: nat): seq<Event>
    requires a <= b
  {
    seq(b - a, k requires 0 <= k < b - a => Ran(Apply, a + k, true))
  }

  /** A rollback history that goes on with file j recovered and those below it rolled back. */
  function RolledOn(before: seq<Event>, j: nat): seq<Event> {
    before + [Ran(Resume, j, true)] + RolledRun(j - 1, j)
  }

  /** A history that goes on with the file behind the journalled one recovered. */
  function Recovered(before: seq<Event>, journalled: int): seq<Event> {
    before + [Ran(Resume, journalled + 1, true)]
  }

  /** A history that goes on with file j + 1 recovered and file j + 2 failing. */
  function TwoMore(before: seq<Event>, j: int): seq<Event> {
    before + [Ran(Resume, j + 1, true)] + [Ran(Apply, j + 2, false)]
  }

  /** A history that goes on with files start, ..., i-1 applied, and then perhaps with a failure of file i. */
  function Then(before: seq<Event>, start: nat, i: nat): seq<Event>
    requires start <= i
  {
    before + AppliedRun(start, i)
  }

  function ThenFails(before: seq<Event>, start: nat, i: nat): seq<Event>
    requires start <= i
  {
    before + AppliedRun(start, i) + [Ran(Apply, i, false)]
  }

  /** Such a history, up to what fails about file i. */
  function Until(before: seq<Event>, start: nat, i: nat, spot: Spot): seq<Event>
    requires start <= i
  {
    match spot
    case Image => ThenFails(before, start, i)
    case Entry => Then(before, start, i + 1)
    case _ => Then(before, start, i)
  }

  /** Update files a, a-1, ... rolled back, m of them. */
  function RolledRun(a: int, m: nat): seq<Event> {
    seq(m, k requires 0 <= k < m => Ran(Rollback, a - k, true))
  }

  /** t, possibly followed by one more call on uf. */
  predicate OrOneMore(history: seq<Event>, t: seq<Event>, call: Call, uf: int) {
    history == t || history == t + [Ran(call, uf, true)] || history == t + [Ran(call, uf, false)]
  }

  /** What a call of runUpdate from `start` adds to the two histories, whether or not it gets to the end: files are
      applied in order up to i, and rolling back begins only at an i whose apply did not succeed. */
  ghost predicate UpdateTraceAt(before: seq<Event>, forward: seq<Event>, backward: seq<Event>,
                                start: nat, n: nat, i: nat)
  {
    && start <= i <= n
    && var t := before + AppliedRun(start, i);
       && OrOneMore(forward, t, Apply, i)
       && (i == n ==> forward == t && backward == [])
       && (backward != [] ==> forward != t + [Ran(Apply, i, true)] && RollbackTrace([], backward, i))
  }

  ghost predicate UpdateTrace(before: seq<Event>, forward: seq<Event>, backward: seq<Event>, start: nat, n: nat) {
    exists i: nat :: UpdateTraceAt(before, forward, backward, start, n, i)
  }

  /** A failure at i, completely rolled back. */
  ghost predicate RolledBackFrom(before: seq<Event>, forward: seq<Event>, backward: seq<Event>,
                                 start: nat, n: nat, i: nat)
  {
    && start <= i < n
    && backward == RolledRun(i, i + 1)
    && var t := before + AppliedRun(start, i); forward == t || forward == t + [Ran(Apply, i, false)]
  }

  ghost predicate RolledBack(before: seq<Event>, forward: seq<Event>, backward: seq<Event>, start: nat, n: nat) {
    exists i: nat :: RolledBackFrom(before, forward, backward, start, n, i)
  }

  /** A call of runUpdate in which a file fails: the fates it meets, journal and history before it, where it starts, how
      many files it applies, and what fails about the next one. */
  datatype Script = Script(fates: seq<Fate>, journal: Option<int>, before: seq<Event>, start: nat, m: nat, spot: Spot)
  {
    function Last(): nat {
      start + m
    }
  }

  /** The call of runUpdate in a resume that found this journal and recovered the file behind it. */
  ghost function ResumedFrom(fates: seq<Fate>, journalled: nat, before: seq<Event>, m: nat, spot: Spot): Script {
    Script(fates, Some(journalled), Recovered(before, journalled), journalled + 2, m, spot)
  }

  class Manager {
    const available: AvailableConfig

    // permanent storage
    var storedState: Option<State>
    var journal: Option<int>                   // last_installed_uf_nb
    var storedConfig: Option<seq<Package>>     // installed_config

    // volatile
    var state: State
    var installed: seq<Package>

    // the surroundings: what will become of the next effects and reads
    var fates: seq<Fate>

    // the attempt so far: image calls of the update phase and of the rollback phase, the configuration it began
    // with, whether the file that failed got rolled back and the journal says so, and what the journal said when
    // the rollback began (-1 when absent)
    ghost var forward: seq<Event>
    ghost var backward: seq<Event>
    ghost var base: Option<seq<Package>>
    ghost var anchored: bool
    ghost var cutAt: int

    function N(): nat
    {
      if available.update.Some? then available.update.value.files else 0
    }

    ghost predicate AllSucceeded()
      reads this`forward
    {
      forall k | 0 <= k < N() :: Succeeded(forward, k)
    }

    /** What was touched above j is undone, but for the two files above cutAt when the rollback never got anchored. */
    ghost predicate UndoneAbove(j: int)
      reads this`forward, this`backward, this`anchored, this`cutAt
    {
      forall k: int :: Touched(forward, k) && k > j ==>
        Undone(backward, k) || (!anchored && cutAt < k <= cutAt + 2)
    }

    ghost predicate AllUndone()
      reads this`forward, this`backward
    {
      forall k: nat :: Touched(forward, k) ==> Undone(backward, k)
    }

    /** An unanchored rollback never gets to the file above cutAt. */
    ghost predicate LeftBehind()
      reads this`forward, this`backward, this`anchored, this`cutAt, this`journal
    {
      !anchored ==>
        && (journal.Some? ==> 0 <= cutAt && journal.value <= cutAt)
        && (0 <= cutAt ==> !Undone(backward, cutAt + 1))
        && (Touched(forward, cutAt + 2) ==> Touched(forward, cutAt + 1))
    }

    /** What the journal means while an update is pending. */
    ghost predicate UpdateJournal()
      reads this`forward, this`journal
    {
      match journal
      case None => forall k: int :: Touched(forward, k) ==> k == 0
      case Some(j) =>
        && 0 <= j < N()
        && (forall k | 0 <= k <= j :: Succeeded(forward, k))
        && (forall k: int :: Touched(forward, k) ==> k <= j + 2)
        && (Touched(forward, j + 2) ==> Touched(forward, j + 1))
    }

    /** What it means while a rollback is pending. */
    ghost predicate RollbackJournal()
      reads this`forward, this`backward, this`anchored, this`cutAt, this`journal
    {
      && (journal.Some? ==> -1 <= journal.value < N())
      && UndoneAbove(if journal.Some? then journal.value else -1)
      && LeftBehind()
    }

    /** What the persisted state means for the files. */
    ghost predicate StateFits()
      reads this`storedState, this`forward, this`backward, this`anchored, this`cutAt, this`journal
    {
      && (storedState == Some(UpdatePending) ==> backward == [] && !anchored && UpdateJournal())
      && (storedState == Some(RollbackPending) ==> RollbackJournal())
      && (storedState == Some(RollbackSuccess) ==> UndoneAbove(-1) && LeftBehind() && (!anchored && forward != [] ==> 0 <= cutAt))
      && (storedState == Some(UpdateSuccess) ==> (forward == [] || AllSucceeded()) && backward == [])
    }

    /** What it means for the installed configuration. */
    ghost predicate ConfigFits()
      reads this`storedState, this`storedConfig, this`forward, this`base
    {
      || storedConfig == base
      || (storedState == Some(UpdateSuccess) && AllSucceeded() && base.Some? && Consistent(base.value, available)
          && storedConfig == Some(Updated(base.value, available)))
    }

    /** Holds between any two effects of an attempt, hence after a power cut at any moment. */
    ghost predicate Recoverable()
      reads this`storedState, this`storedConfig, this`forward, this`backward, this`base, this`anchored, this`cutAt, this`journal
    {
      StateFits() && ConfigFits()
    }

    constructor (available: AvailableConfig, fates: seq<Fate>)
      ensures this.available == available && this.fates == fates && Recoverable() && forward == [] && journal == None
      ensures storedState == Some(UpdateSuccess)
    {
      this.available, this.fates := available, fates;
      storedState, journal, storedConfig, base := Some(UpdateSuccess), None, None, None;
      state, installed := UpdateSuccess, [];
      forward, backward, anchored, cutAt := [], [], false, -1;
    }

    // ----- effects: each may fail, and the power may go before or after it -----

    method Draw() returns (f: Fate)
      modifies this`fates
      ensures f == FateAt(old(fates), 0) && fates == After(old(fates), 1)
    {
      f := FateAt(fates, 0);
      fates := After(fates, 1);
    }

    /** saveState. */
    method SaveState(s: State) returns (r: Flow<bool>)
      modifies this`state, this`storedState, this`fates
      ensures r.Done? ==> state == s
      ensures r.Done? && r.value ==> storedState == Some(s)
      ensures r.Done? && !r.value ==> storedState == old(storedState)
      ensures r == Crash ==> storedState == Some(s) || storedState == old(storedState)
      ensures r != Stuck && fates == After(old(fates), 1)
      ensures FateAt(old(fates), 0) == Goes ==> r == Done(true)
      ensures FateAt(old(fates), 0) == CutAfter ==> r == Crash && storedState == Some(s)
    {
      state := s;
      var f := Draw();
      if f == CutBefore || f == CutAmid {
        return Crash;
      } else if f == Fails {
        return Done(false);
      }
      storedState := Some(s);
      return if f == CutAfter then Crash else Done(true);
    }

    method WriteJournal(k: int) returns (r: Flow<bool>)
      modifies this`journal, this`fates
      ensures r.Done? && r.value ==> journal == Some(k)
      ensures r.Done? && !r.value ==> journal == old(journal)
      ensures r == Crash ==> journal == Some(k) || journal == old(journal)
      ensures r != Stuck && fates == After(old(fates), 1)
      ensures FateAt(old(fates), 0) == Goes ==> r == Done(true)
      ensures FateAt(old(fates), 0) == Fails ==> r == Done(false)
    {
      var f := Draw();
      if f == CutBefore || f == CutAmid {
        return Crash;
      } else if f == Fails {
        return Done(false);
      }
      journal := Some(k);
      return if f == CutAfter then Crash else Done(true);
    }

    /** config_removeKey: an absent key is an error. */
    method RemoveJournal() returns (r: Flow<bool>)
      modifies this`journal, this`fates
      ensures r.Done? && r.value ==> journal == None && old(journal).Some? && FateAt(old(fates), 0) == Goes
      ensures r.Done? && !r.value ==> journal == old(journal)
      ensures r == Crash ==> journal == None || journal == old(journal)
      ensures r != Stuck && fates == After(old(fates), 1)
      ensures FateAt(old(fates), 0) == Goes ==> r == Done(old(journal).Some?)
    {
      var f := Draw();
      if f == CutBefore || f == CutAmid {
        return Crash;
      } else if journal == None || f == Fails {
        return Done(false);
      }
      journal := None;
      return if f == CutAfter then Crash else Done(true);
    }

    method WriteConfig(c: seq<Package>) returns (r: Flow<bool>)
      modifies this`storedConfig, this`fates
      ensures r.Done? && r.value ==> storedConfig == Some(c)
      ensures r.Done? && !r.value ==> storedConfig == old(storedConfig)
      ensures storedConfig == if FateAt(old(fates), 0) in {Goes, CutAfter} then Some(c) else old(storedConfig)
      ensures r != Stuck && fates == After(old(fates), 1)
      ensures FateAt(old(fates), 0) == Goes <==> r == Done(true)
    {
      var f := Draw();
      if f == CutBefore || f == CutAmid {
        return Crash;
      } else if f == Fails {
        return Done(false);
      }
      storedConfig := Some(c);
      return if f == CutAfter then Crash else Done(true);
    }

    /** imagehandler_apply and imagehandler_resume while updating. */
    method Forward(call: Call, uf: int) returns (r: Flow<bool>)
      modifies this`forward, this`fates
      ensures r.Done? ==> forward == old(forward) + [Ran(call, uf, r.value)]
      ensures OrOneMore(forward, old(forward), call, uf)
      ensures forall k: int :: Succeeded(old(forward), k) ==> Succeeded(forward, k)
      ensures forall k: int :: Touched(forward, k) ==> Touched(old(forward), k) || k == uf
      ensures forall k: int :: Touched(old(forward), k) ==> Touched(forward, k)
      ensures r.Done? && r.value && call != Rollback ==> Succeeded(forward, uf)
      ensures r != Stuck && fates == After(old(fates), 1)
      ensures FateAt(old(fates), 0) == Goes ==> r == Done(true)
      ensures FateAt(old(fates), 0) == Fails ==> r == Done(false)
    {
      var f := Draw();
      if f == CutBefore {
        return Crash;
      }
      forward := forward + [Ran(call, uf, f == Goes || f == CutAfter)];
      return if f == CutAmid || f == CutAfter then Crash else Done(f == Goes);
    }

    /** imagehandler_rollback, and imagehandler_resume while rolling back. */
    method Backward(call: Call, uf: int) returns (r: Flow<bool>)
      modifies this`backward, this`fates
      ensures r.Done? ==> backward == old(backward) + [Ran(call, uf, r.value)]
      ensures OrOneMore(backward, old(backward), call, uf)
      ensures forall k: int :: Undone(old(backward), k) ==> Undone(backward, k)
      ensures forall k: int :: Undone(backward, k) ==> Undone(old(backward), k) || k == uf
      ensures r.Done? && r.value && call != Apply ==> Undone(backward, uf)
      ensures r != Stuck && fates == After(old(fates), 1)
      ensures FateAt(old(fates), 0) == Goes ==> r == Done(true)
    {
      var f := Draw();
      if f == CutBefore {
        return Crash;
      }
      backward := backward + [Ran(call, uf, f == Goes || f == CutAfter)];
      return if f == CutAmid || f == CutAfter then Crash else Done(f == Goes);
    }

    // ----- the rollback and update loops -----

    /** One pass of the loop in runRollback; false leaves it with status 1. */
    method RollbackStep(i: int, ghost first: bool) returns (r: Flow<bool>)
      requires storedState == Some(RollbackPending) && RollbackJournal() && 0 <= i < N()
      requires first && !anchored ==> (forall k: int :: Touched(forward, k) ==> k <= i) && cutAt < i
      requires !first || anchored ==> UndoneAbove(i) && (!anchored ==> i <= cutAt)
      requires first && !anchored ==> cutAt == (if journal.Some? then journal.value else -1) && backward == []
      modifies this`journal, this`backward, this`anchored, this`fates
      ensures RollbackJournal()
      ensures OrOneMore(backward, old(backward), Rollback, i)
      ensures r.Done? && r.value ==> journal == Some(i - 1) && backward == old(backward) + [Ran(Rollback, i, true)]
      ensures r.Done? && r.value ==> UndoneAbove(i - 1)
      ensures r.Done? && r.value && first ==> anchored
      ensures !first || old(anchored) ==> anchored == old(anchored)
      ensures r != Stuck
      ensures old(fates) == [] ==> fates == [] && r == Done(true)
    {
      ReadsFirst(fates);
      hide Touched, Succeeded, Undone, FateAt, After;
      var readable := Draw();
      if readable == Fails {
        return Done(false);    // no image directory, or its metadata cannot be read
      }
      var ok := Backward(Rollback, i);
      anchored := anchored || (first && journal == Some(i - 1) && Undone(backward, i));
      if !ok.Done? {
        return Crash;
      } else if !ok.value {
        return Done(false);
      }
      var written := WriteJournal(i - 1);
      anchored := anchored || (first && journal == Some(i - 1));
      return written;
    }

    /** runRollback; 0 is success.  `first` tells the call made by runUpdate from the one that resumes a rollback. */
    method RunRollback(start: int, ghost first: bool) returns (r: Flow<int>)
      requires Recoverable() && 0 <= start < N() && storedConfig == base
      requires first ==> storedState == Some(UpdatePending) && forall k: int :: Touched(forward, k) ==> k <= start
      requires first ==> journal.Some? ==> journal.value < start
      requires !first ==> storedState == Some(RollbackPending) && journal == Some(start + 1) && UndoneAbove(start)
      modifies this`state, this`storedState, this`journal, this`backward, this`anchored, this`cutAt, this`fates
      ensures Recoverable() && storedState != Some(UpdateSuccess)
      ensures r.Done? && r.value == 0 ==> state == RollbackSuccess && storedState == Some(RollbackSuccess)
      ensures r.Done? && r.value == 0 && first ==> anchored
      ensures r.Done? && r.value == 0 ==> backward == old(backward) + RolledRun(start, start + 1)
      ensures RollbackTrace(old(backward), backward, start)
      ensures r != Stuck
      ensures old(fates) == [] ==> fates == [] && r == Done(0) && journal == None
      ensures FateAt(old(fates), 0) == CutAfter ==>
                r == Crash && storedState == Some(RollbackPending) && journal == old(journal) && backward == old(backward)
                && fates == After(old(fates), 1)
    {
      hide Touched, Succeeded, Undone, RolledRun, OrOneMore, RollbackTrace, Consistent, Updated;
      RolledNone(backward, start);
      var saved :- SaveRollbackPending(first);
      if !saved {
        return Done(1);
      }
      var rolled :- RollbackFrom(start, first);
      if !rolled {
        return Done(1);
      }
      r := FinishRollback();
    }

    /** The journal goes before the state says that the rollback is complete. */
    method FinishRollback() returns (r: Flow<int>)
      requires Recoverable() && storedState == Some(RollbackPending) && storedConfig == base
      requires journal == Some(-1) && UndoneAbove(-1) && (!anchored ==> 0 <= cutAt)
      modifies this`state, this`storedState, this`journal, this`fates
      ensures Recoverable() && (storedState == Some(RollbackPending) || storedState == Some(RollbackSuccess))
      ensures r != Stuck && (r.Done? && r.value == 0 ==> state == RollbackSuccess && storedState == Some(RollbackSuccess))
      ensures old(fates) == [] ==> fates == [] && r == Done(0) && journal == None
    {
      FirstGoes(fates);
      hide Touched, Succeeded, Undone, Consistent, Updated, FateAt, After, UndoneAbove, UpdateJournal;
      var removed :- RemoveJournal();    // its result is ignored
      var saved :- SaveState(RollbackSuccess);
      return Done(if saved then 0 else 1);
    }

    /** From here on the journal is read as one of a rollback. */
    method SaveRollbackPending(ghost first: bool) returns (r: Flow<bool>)
      requires Recoverable() && storedConfig == base && storedState == Some(if first then UpdatePending else RollbackPending)
      requires first && journal.Some? ==> journal.value < N()
      modifies this`state, this`storedState, this`cutAt, this`fates
      ensures Recoverable() && r != Stuck && (r.Done? && r.value ==> storedState == Some(RollbackPending))
      ensures storedState == old(storedState) || storedState == Some(RollbackPending)
      ensures first ==> cutAt == (if journal.Some? then journal.value else -1)
      ensures !first ==> cutAt == old(cutAt)
      ensures FateAt(old(fates), 0) == Goes ==> r == Done(true)
      ensures FateAt(old(fates), 0) == CutAfter ==> r == Crash && storedState == Some(RollbackPending)
      ensures fates == After(old(fates), 1)
    {
      hide Touched, Succeeded, Undone, Consistent, Updated, FateAt, After;
      NothingUndone();
      if first {
        cutAt := if journal.Some? then journal.value else -1;
      }
      r := SaveState(RollbackPending);
    }

    /** The loop of runRollback. */
    method RollbackFrom(start: nat, ghost first: bool) returns (r: Flow<bool>)
      requires storedState == Some(RollbackPending) && RollbackJournal() && start < N()
      requires first ==> forall k: int :: Touched(forward, k) ==> k <= start
      requires first ==> !anchored && backward == [] && cutAt == (if journal.Some? then journal.value else -1) < start
      requires !first ==> UndoneAbove(start) && (!anchored ==> start <= cutAt)
      modifies this`journal, this`backward, this`anchored, this`fates
      ensures RollbackJournal() && RollbackTrace(old(backward), backward, start) && r != Stuck
      ensures r.Done? && r.value ==> journal == Some(-1) && UndoneAbove(-1) && (first ==> anchored)
      ensures r.Done? && r.value ==> backward == old(backward) + RolledRun(start, start + 1)
      ensures old(fates) == [] ==> fates == [] && r == Done(true)
    {
      hide Touched, Succeeded, Undone, RolledRun, OrOneMore, RollbackTrace;
      RolledNone(backward, start);
      var i: int := start;
      while i >= 0
        invariant -1 <= i <= start
        invariant storedState == Some(RollbackPending) && RollbackJournal()
        invariant backward == old(backward) + RolledRun(start, start - i)
        invariant anchored || !first ==> UndoneAbove(i)
        invariant first && i < start ==> anchored
        invariant first && i == start ==> !anchored && backward == [] && cutAt == (if journal.Some? then journal.value else -1) < i
        invariant !first && !anchored ==> i <= cutAt
        invariant i < start ==> journal == Some(i)
        invariant old(fates) == [] ==> fates == []
      {
        RolledMore(old(backward), start, start - i);
        var on :- RollbackStep(i, first);
        if !on {
          return Done(false);
        }
        i := i - 1;
      }
      RolledMore(old(backward), start, start + 1);
      return Done(true);
    }

    /** The checks on one file, and its image handler: 0 goes on, 1 gives up, -1 asks for a rollback. */
    method ApplyImage(i: nat) returns (r: Flow<int>)
      modifies this`forward, this`fates
      ensures OrOneMore(forward, old(forward), Apply, i) && r != Stuck && (r.Done? ==> -1 <= r.value <= 1)
      ensures forall k: int :: Succeeded(old(forward), k) ==> Succeeded(forward, k)
      ensures forall k: int :: Touched(forward, k) ==> Touched(old(forward), k) || k == i
      ensures forall k: int :: Touched(old(forward), k) ==> Touched(forward, k)
      ensures r.Done? && r.value == 0 ==> forward == old(forward) + [Ran(Apply, i, true)] && Succeeded(forward, i)
      ensures r.Done? && r.value == -1 ==> forward == old(forward) || forward == old(forward) + [Ran(Apply, i, false)]
      ensures ThreeGo(old(fates)) ==> r == Done(0) && fates == After(old(fates), 3)
      ensures forall spot: Spot | spot != Entry && StepFails(old(fates), spot) ::
                && r == Done(if spot.Turns() then -1 else 1) && fates == After(old(fates), spot.Offset() + 1)
                && forward == if spot == Image then old(forward) + [Ran(Apply, i, false)] else old(forward)
    {
      Later(fates, 1, 0);
      Later(fates, 1, 1);
      Later(fates, 2, 0);
      Later(fates, 2, 1);
      hide Touched, Succeeded, FateAt, After;
      var readable := Draw();
      if readable == Fails {
        return Done(1);     // no image directory, or its metadata cannot be read
      }
      var sound := Draw();
      if sound == Fails {
        return Done(-1);    // no data file name, no checksum, or a wrong one
      }
      var ok :- Forward(Apply, i);
      r := Done(if ok then 0 else -1);
    }

    /** One pass of the loop in runUpdate. */
    method ApplyStep(i: nat) returns (r: Flow<int>)
      requires storedState == Some(UpdatePending) && UpdateJournal() && i < N()
      requires forall k | 0 <= k < i :: Succeeded(forward, k)
      requires forall k: int :: Touched(forward, k) ==> k <= i
      requires if i == 0 then journal == None else journal == Some(i - 1) || journal == Some(i - 2)
      modifies this`journal, this`forward, this`fates
      ensures UpdateJournal() && OrOneMore(forward, old(forward), Apply, i)
      ensures forall k: int :: Touched(forward, k) ==> k <= i
      ensures r != Stuck && (r.Done? ==> -1 <= r.value <= 1)
      ensures r.Done? && r.value == 0 ==> journal == Some(i) && forward == old(forward) + [Ran(Apply, i, true)]
      ensures r.Done? && r.value == -1 ==> forward == old(forward) || forward == old(forward) + [Ran(Apply, i, false)]
      ensures r.Done? && r.value == -1 ==> journal == old(journal)
      ensures FourGo(old(fates)) ==> r == Done(0) && fates == After(old(fates), 4)
      ensures forall spot: Spot | StepFails(old(fates), spot) ::
                && r == Done(if spot.Turns() then -1 else 1) && fates == After(old(fates), spot.Offset() + 1)
                && journal == old(journal)
                && forward == match spot
                              case Image => old(forward) + [Ran(Apply, i, false)]
                              case Entry => old(forward) + [Ran(Apply, i, true)]
                              case _ => old(forward)
    {
      StepFates(fates);
      TouchedBelow(i);
      hide Touched, Succeeded, FateAt, After, StepFails, FourGo, ThreeGo;
      var applied :- ApplyImage(i);
      if applied != 0 {
        return Done(applied);
      }
      var written :- WriteJournal(i);
      r := Done(if written then 0 else 1);
    }

    lemma TouchedBelow(i: nat)
      requires forall k | 0 <= k < i :: Succeeded(forward, k)
      ensures forall k | 0 <= k < i :: Touched(forward, k)
    {
    }

    /** The loop of runUpdate, from `start` to where it ends; `given` are the fates at the call of runUpdate, and m is the
        number of files before one about which something is to fail. */
    method ApplyFrom(start: nat, ghost given: seq<Fate>, ghost m: nat, ghost spot: Spot) returns (r: Flow<int>, i: nat)
      requires storedState == Some(UpdatePending) && UpdateJournal() && start <= N()
      requires forall k | 0 <= k < start :: Succeeded(forward, k)
      requires forall k: int :: Touched(forward, k) ==> k <= start
      requires if start == 0 then journal == None else journal == Some(start - 2)
      requires fates == After(given, 1)
      modifies this`journal, this`forward, this`fates
      ensures UpdateJournal() && UpdateTrace(old(forward), forward, [], start, N())
      ensures start <= i <= N() && r != Stuck && (r.Done? ==> -1 <= r.value <= 1)
      ensures r.Done? && r.value == 0 ==>
                i == N() && forward == Then(old(forward), start, N()) && forall k | 0 <= k < N() :: Succeeded(forward, k)
      ensures r.Done? && r.value == 0 ==> journal == if i == start then old(journal) else Some(i - 1)
      ensures r.Done? && r.value == -1 ==>
                && i < N() && (forall k: int :: Touched(forward, k) ==> k <= i)
                && (journal == if i == start then old(journal) else Some(i - 1))
                && (forward == Then(old(forward), start, i) || forward == ThenFails(old(forward), start, i))
      ensures AllGo(given, 1 + 4 * (N() - start)) ==> r == Done(0) && fates == After(given, 1 + 4 * (N() - start))
      ensures start + m < N() && FailsAt(given, m, spot) ==>
                && r == Done(if spot.Turns() then -1 else 1)
                && Halted(Script(given, old(journal), old(forward), start, m, spot), i)
    {
      FirstGoes(given);
      hide Touched, Succeeded, AppliedRun, UpdateTrace, FailsAt, FateAt, After, FourGo, StepFails, AllGo, FileAt, Until, Halted;
      AppliedNone(forward, start, N());
      i := start;
      while i < N()
        invariant start <= i <= N() && UpdateJournal()
        invariant forall k: int :: Touched(forward, k) ==> k <= i
        invariant forward == Then(old(forward), start, i) && UpdateTrace(old(forward), forward, [], start, N())
        invariant forall k | 0 <= k < i :: Succeeded(forward, k)
        invariant journal == if i == start then old(journal) else Some(i - 1)
        invariant AllGo(given, 1 + 4 * (N() - start)) ==> fates == After(given, 1 + 4 * (i - start))
        invariant start + m < N() && FailsAt(given, m, spot) ==> i - start <= m && fates == After(given, 1 + 4 * (i - start))
      {
        AppliedMore(old(forward), start, i, N());
        UntilFrom(old(forward), start, i);
        SucceededMore(forward, i);
        NextFile(given, i - start);
        r := ApplyStep(i);
        if !r.Done? || r.value != 0 {
          if start + m < N() && FailsAt(given, m, spot) {
            IsHalted(Script(given, old(journal), old(forward), start, m, spot), i);
          }
          return;
        }
        i := i + 1;
      }
      AppliedAll(old(forward), start, N());
      r := Done(0);
    }

    /** No rollback began: the files before the one that failed are in and journalled. */
    ghost predicate CutShort(c: Script)
      reads this`storedState, this`journal, this`fates, this`forward, this`backward
    {
      && storedState == Some(RollbackPending) && backward == [] && fates == After(c.fates, 5 + 4 * c.m)
      && journal == (if c.m > 0 then Some(c.start + c.m - 1) else c.journal)
      && forward == ThenFails(c.before, c.start, c.Last())
    }

    /** That file and all below it are rolled back. */
    ghost predicate TurnedBack(c: Script)
      reads this`state, this`storedState, this`journal, this`fates, this`forward, this`backward
    {
      && state == RollbackSuccess && storedState == Some(RollbackSuccess) && journal == None && fates == []
      && backward == RolledRun(c.Last(), c.Last() + 1) && forward == Until(c.before, c.start, c.Last(), c.spot)
    }

    /** The loop of runUpdate came to its end there. */
    ghost predicate Halted(c: Script, i: nat)
      reads this`storedState, this`journal, this`fates, this`forward
    {
      && i == c.Last() && storedState == Some(UpdatePending) && fates == After(c.fates, FileAt(c.m, c.spot) + 1)
      && journal == (if c.m > 0 then Some(c.start + c.m - 1) else c.journal)
      && forward == Until(c.before, c.start, i, c.spot)
    }

    lemma IsHalted(c: Script, i: nat)
      requires i == c.Last() && storedState == Some(UpdatePending) && fates == After(c.fates, FileAt(c.m, c.spot) + 1)
      requires journal == (if c.m > 0 then Some(i - 1) else c.journal) && forward == Until(c.before, c.start, i, c.spot)
      ensures Halted(c, i)
    {
    }

    lemma HaltedStays(c: Script, i: nat)
      requires Halted(c, i) && FailsAt(c.fates, c.m, c.spot) && !c.spot.Turns() && backward == []
      ensures AsFated(Done(1), c)
    {
    }

    /** The update is left pending, with the files before that one in and journalled. */
    ghost predicate GivenUp(c: Script)
      reads this`storedState, this`journal, this`fates, this`forward, this`backward
    {
      && storedState == Some(UpdatePending) && backward == [] && fates == []
      && journal == (if c.m > 0 then Some(c.start + c.m - 1) else c.journal)
      && forward == Until(c.before, c.start, c.Last(), c.spot)
    }

    /** What a call of runUpdate comes to in which that is the first thing to fail: when nothing else does, a failure of
        image or checksum rolls back every file that was touched, and any other leaves the update pending; when the power
        goes behind ROLLBACK_PENDING, nothing is rolled back. */
    ghost predicate AsFated(r: Flow<int>, c: Script)
      reads this`state, this`storedState, this`journal, this`fates, this`forward, this`backward
    {
      && (OnlyFails(c.fates, c.m, c.spot) ==>
            if c.spot.Turns() then r == Done(0) && TurnedBack(c) else r == Done(1) && GivenUp(c))
      && (c.spot == Image && FailsThenCut(c.fates, c.m) ==> r == Crash && CutShort(c))
    }

    /** The same for the whole action around that call. */
    ghost predicate ActionAsFated(r: Flow<Status>, c: Script, config: Option<seq<Package>>)
      reads this`state, this`storedState, this`journal, this`storedConfig, this`fates, this`forward, this`backward
    {
      && (OnlyFails(c.fates, c.m, c.spot) ==>
            && storedConfig == config
            && if c.spot.Turns() then r == Done(Error) && TurnedBack(c) else r == Done(Critical) && GivenUp(c))
      && (c.spot == Image && FailsThenCut(c.fates, c.m) ==> r == Crash && CutShort(c) && storedConfig == config)
    }

    lemma NotFated(r: Flow<int>, c: Script)
      requires !FailsAt(c.fates, c.m, c.spot)
      ensures AsFated(r, c)
    {
    }

    /** Behind a call of runUpdate that succeeded. */
    lemma FatedSuccess(c: Script)
      requires AsFated(Done(0), c)
      ensures OnlyFails(c.fates, c.m, c.spot) ==> c.spot.Turns() && TurnedBack(c) && state == RollbackSuccess
      ensures !(c.spot == Image && FailsThenCut(c.fates, c.m))
    {
    }

    /** Behind one that did not. */
    lemma FatedFailure(status: Flow<int>, r: Flow<Status>, c: Script, config: Option<seq<Package>>)
      requires AsFated(status, c) && status != Done(0) && storedConfig == config
      requires r == if status.Crash? then Crash else if status.Stuck? then Stuck else Done(Critical)
      ensures ActionAsFated(r, c, config)
    {
    }

    lemma FatedAction(r: Flow<Status>, c: Script, config: Option<seq<Package>>)
      requires OnlyFails(c.fates, c.m, c.spot) ==>
                 c.spot.Turns() && r == Done(Error) && TurnedBack(c) && storedConfig == config
      requires !(c.spot == Image && FailsThenCut(c.fates, c.m))
      ensures ActionAsFated(r, c, config)
    {
    }

    /** No other file is the first to fail. */
    lemma FatedAlone(r: Flow<Status>, c: Script, config: Option<seq<Package>>)
      requires forall n: nat, b: Spot | FailsAt(c.fates, n, b) :: n == c.m && b == c.spot
      requires c.Last() < N() ==> ActionAsFated(r, c, config)
      ensures forall n: nat, b: Spot | c.start + n < N() :: ActionAsFated(r, c.(m := n, spot := b), config)
    {
      forall n: nat, b: Spot | c.start + n < N() ensures ActionAsFated(r, c.(m := n, spot := b), config) {
        if n == c.m && b == c.spot {
          assert c == c.(m := n, spot := b);
        }
      }
    }

    /** The branch of runUpdate for a file that failed. */
    method TurnBack(i: nat, ghost c: Script) returns (r: Flow<int>)
      requires Recoverable() && storedState == Some(UpdatePending) && storedConfig == base && c.start <= i < N()
      requires backward == [] && (forall k: int :: Touched(forward, k) ==> k <= i) && (journal.Some? ==> journal.value < i)
      requires forward == Then(c.before, c.start, i) || forward == ThenFails(c.before, c.start, i)
      requires journal == if i == c.start then c.journal else Some(i - 1)
      modifies this`state, this`storedState, this`journal, this`backward, this`anchored, this`cutAt, this`fates
      ensures Recoverable() && storedState != Some(UpdateSuccess) && r != Stuck
      ensures UpdateTrace(c.before, forward, backward, c.start, N())
      ensures r.Done? && r.value == 0 ==>
                && state == RollbackSuccess && storedState == Some(RollbackSuccess) && anchored
                && RolledBack(c.before, forward, backward, c.start, N())
      ensures c.spot.Turns() && old(Halted(c, i)) ==> AsFated(r, c)
      ensures !FailsAt(c.fates, c.m, c.spot) ==> AsFated(r, c)
    {
      NextFates(c.fates, c.m);
      FailsIn(c.fates, c.m, c.spot);
      UntilFails(c.before, c.start, c.m);
      assert c.Last() == c.start + c.m;
      ghost var fated := c.spot.Turns() && Halted(c, i);
      ghost var unfated := !FailsAt(c.fates, c.m, c.spot);
      hide *;
      r := RunRollback(i, true);
      EmptyLeft(RolledRun(i, i + 1));
      UpdateThenRollback(c.before, forward, backward, c.start, N(), i);
      if fated {
        IsAsFated(r, c);
      } else if unfated {
        NotFated(r, c);
      }
    }

    lemma IsAsFated(r: Flow<int>, c: Script)
      requires c.spot.Turns()
      requires OnlyFails(c.fates, c.m, c.spot) ==>
                 && r == Done(0) && state == RollbackSuccess && storedState == Some(RollbackSuccess) && journal == None
                 && fates == [] && backward == RolledRun(c.Last(), c.Last() + 1)
                 && forward == Until(c.before, c.start, c.Last(), c.spot)
      requires c.spot == Image && FailsThenCut(c.fates, c.m) ==>
                 && r == Crash && storedState == Some(RollbackPending) && backward == []
                 && fates == After(c.fates, 5 + 4 * c.m) && forward == ThenFails(c.before, c.start, c.Last())
                 && journal == (if c.m > 0 then Some(c.start + c.m - 1) else c.journal)
      ensures AsFated(r, c)
    {
    }

    /** runUpdate; 0 is success, of the update or of the rollback it turned into. */
    method RunUpdate(start: nat, ghost m: nat, ghost spot: Spot) returns (r: Flow<int>)
      requires Recoverable() && storedConfig == base && start <= N() && N() > 0
      requires backward == [] && !anchored
      requires forall k | 0 <= k < start :: Succeeded(forward, k)
      requires forall k: int :: Touched(forward, k) ==> k <= start
      requires if start == 0 then journal == None && forward == []
               else storedState == Some(UpdatePending) && journal == Some(start - 2)
      modifies this`state, this`storedState, this`journal, this`forward, this`backward, this`anchored, this`cutAt, this`fates
      ensures Recoverable()
      ensures UpdateTrace(old(forward), forward, backward, start, N())
      ensures r.Done? && r.value == 0 ==> storedState == Some(state) && (state == UpdateSuccess || state == RollbackSuccess)
      ensures r.Done? && r.value == 0 && state == UpdateSuccess ==>
                forward == Then(old(forward), start, N()) && backward == [] && AllSucceeded() && journal.Some?
      ensures r.Done? && r.value == 0 && state == RollbackSuccess ==>
                anchored && RolledBack(old(forward), forward, backward, start, N())
      ensures r != Stuck
      ensures AllGo(old(fates), 2 + 4 * (N() - start)) ==>
                r == Done(0) && state == UpdateSuccess && fates == After(old(fates), 2 + 4 * (N() - start))
      ensures start + m < N() ==> AsFated(r, Script(old(fates), old(journal), old(forward), start, m, spot))
    {
      LastSave(fates, N() - start);
      ghost var c := Script(fates, journal, forward, start, m, spot);
      assert c.Last() == start + m;
      ghost var fated := FailsAt(fates, m, spot) && c.Last() < N();
      hide *;
      var i: nat;
      r, i := UpdatePhase(start, m, spot);
      assert fated ==> Halted(c, i) && backward == [];
      if r == Done(-1) {
        r := TurnBack(i, c);
      } else if r == Done(0) {
        r := SaveUpdateSuccess();
        if c.Last() < N() {
          NotFated(r, c);
        }
      } else if fated {
        HaltedStays(c, i);
      } else if c.Last() < N() {
        NotFated(r, c);
      }
    }

    /** runUpdate up to the end of its loop: 0 when all files are applied, -1 when file i failed, 1 otherwise. */
    method UpdatePhase(start: nat, ghost m: nat, ghost spot: Spot) returns (r: Flow<int>, i: nat)
      requires Recoverable() && storedConfig == base && start <= N() && N() > 0
      requires backward == [] && !anchored
      requires forall k | 0 <= k < start :: Succeeded(forward, k)
      requires forall k: int :: Touched(forward, k) ==> k <= start
      requires if start == 0 then journal == None && forward == []
               else storedState == Some(UpdatePending) && journal == Some(start - 2)
      modifies this`state, this`storedState, this`journal, this`forward, this`fates
      ensures Recoverable() && UpdateTrace(old(forward), forward, [], start, N())
      ensures r != Stuck && (r.Done? ==> -1 <= r.value <= 1)
      ensures r == Done(0) || r == Done(-1) ==> storedState == Some(UpdatePending)
      ensures r == Done(0) ==> forward == Then(old(forward), start, N()) && AllSucceeded() && (start < N() ==> journal.Some?)
      ensures r == Done(0) && start == N() ==> journal == old(journal)
      ensures r == Done(-1) ==>
                && start <= i < N() && (forall k: int :: Touched(forward, k) ==> k <= i)
                && (journal == if i == start then old(journal) else Some(i - 1))
                && (forward == Then(old(forward), start, i) || forward == ThenFails(old(forward), start, i))
      ensures AllGo(old(fates), 2 + 4 * (N() - start)) ==> r == Done(0) && fates == After(old(fates), 1 + 4 * (N() - start))
      ensures start + m < N() && FailsAt(old(fates), m, spot) ==>
                && r == Done(if spot.Turns() then -1 else 1)
                && Halted(Script(old(fates), old(journal), old(forward), start, m, spot), i)
    {
      FirstGoes(fates);
      LastSave(fates, N() - start);
      hide Touched, Succeeded, Undone, AppliedRun, Consistent, Updated, UpdateTrace, FailsAt, FileAt, After, FateAt, AllGo,
           StateFits, ConfigFits, UpdateJournal;
      AppliedNone(forward, start, N());
      ghost var given := fates;
      hide Halted, Until, Script.Last, Then, ThenFails, Recoverable, Spot.Turns;
      i := start;
      var saved :- SaveUpdatePending(start);
      if !saved {
        return Done(1), i;
      }
      r, i := ApplyFrom(start, given, m, spot);
      PendingIsRecoverable();
    }

    lemma PendingIsRecoverable()
      requires storedState == Some(UpdatePending) && UpdateJournal() && backward == [] && !anchored && storedConfig == base
      ensures Recoverable() && (journal.Some? ==> journal.value >= 0)
    {
    }

    method SaveUpdatePending(ghost start: nat) returns (r: Flow<bool>)
      requires Recoverable() && storedConfig == base && start <= N() && N() > 0 && backward == [] && !anchored
      requires if start == 0 then journal == None && forward == []
               else storedState == Some(UpdatePending) && journal == Some(start - 2)
      modifies this`state, this`storedState, this`fates
      ensures Recoverable() && r != Stuck && fates == After(old(fates), 1)
      ensures r.Done? && r.value ==> storedState == Some(UpdatePending) && UpdateJournal()
      ensures FateAt(old(fates), 0) == Goes ==> r == Done(true)
    {
      hide Touched, Succeeded, Undone, Consistent, Updated, After, FateAt;
      NothingTouched();
      r := SaveState(UpdatePending);
    }

    method SaveUpdateSuccess() returns (r: Flow<int>)
      requires Recoverable() && storedState == Some(UpdatePending) && storedConfig == base && backward == []
      requires forall k | 0 <= k < N() :: Succeeded(forward, k)
      modifies this`state, this`storedState, this`fates
      ensures Recoverable() && r != Stuck && fates == After(old(fates), 1)
      ensures r.Done? && r.value == 0 ==> storedState == Some(state) == Some(UpdateSuccess) && AllSucceeded()
      ensures FateAt(old(fates), 0) == Goes ==> r == Done(0)
    {
      hide Touched, Succeeded, Undone, Consistent, Updated, After, FateAt;
      var saved :- SaveState(UpdateSuccess);
      r := Done(if saved then 0 else 1);
    }

    /** runRecover; indexing the update files outside their range is undefined. */
    method RunRecover(uf: int, rolling: bool) returns (r: Flow<bool>)
      modifies this`forward, this`backward, this`fates
      ensures rolling ==> forward == old(forward) && OrOneMore(backward, old(backward), Resume, uf)
      ensures !rolling ==> backward == old(backward) && OrOneMore(forward, old(forward), Resume, uf)
      ensures forall k: int :: Succeeded(old(forward), k) ==> Succeeded(forward, k)
      ensures forall k: int :: Touched(forward, k) ==> Touched(old(forward), k) || (k == uf && !rolling)
      ensures forall k: int :: Touched(old(forward), k) ==> Touched(forward, k)
      ensures forall k: int :: Undone(old(backward), k) ==> Undone(backward, k)
      ensures r.Done? && r.value ==> if rolling then Undone(backward, uf) else Succeeded(forward, uf)
      ensures rolling && r.Done? && r.value ==> backward == old(backward) + [Ran(Resume, uf, true)]
      ensures !rolling && r.Done? && r.value ==> forward == old(forward) + [Ran(Resume, uf, true)]
      ensures FateAt(old(fates), 0) == FateAt(old(fates), 1) == Goes && !r.Stuck? ==>
                r == Done(true) && fates == After(old(fates), 2)
      ensures r.Stuck? <==> !(0 <= uf < N())
      ensures forall k: int :: Undone(backward, k) ==> Undone(old(backward), k) || (k == uf && rolling)
      ensures r.Stuck? ==> forward == old(forward) && backward == old(backward)
      ensures old(fates) == [] && !r.Stuck? ==> fates == [] && r == Done(true)
    {
      Later(fates, 1, 0);
      Later(fates, 1, 1);
      if !(0 <= uf < N()) {
        return Stuck;
      }
      var readable := Draw();
      if readable == Fails {
        return Done(false);    // no image directory, or its metadata cannot be read
      }
      if rolling {
        r := Backward(Resume, uf);
      } else {
        r := Forward(Resume, uf);
      }
    }

    /** finalizeAction. */
    method Finalize() returns (r: Flow<Status>)
      requires Recoverable() && storedState == Some(state) && (state == UpdateSuccess || state == RollbackSuccess)
      requires storedConfig == base == Some(installed) && Consistent(installed, available)
      requires state == UpdateSuccess ==> AllSucceeded() && journal.Some? && backward == []
      modifies this`journal, this`installed, this`storedConfig, this`fates
      ensures Recoverable()
      ensures r.Done? && r.value == Ok ==> state == UpdateSuccess && journal == None
                                           && storedConfig == Some(Updated(base.value, available))
      ensures r.Done? && r.value == Error ==> state == RollbackSuccess && storedConfig == base
      ensures state == RollbackSuccess ==> r == Done(Error) && fates == old(fates) && journal == old(journal)
      ensures r != Stuck
      ensures old(fates) == [] && state == UpdateSuccess ==> r == Done(Ok)
      ensures state == UpdateSuccess ==>
                && (r == Done(Ok) <==> FateAt(old(fates), 0) == FateAt(old(fates), 1) == Goes)
                && storedConfig == if ConfigWritten(old(fates)) then Some(Updated(base.value, available)) else base
    {
      Later(fates, 1, 0);
      hide Consistent, Updated, Succeeded, Touched, Undone, After, StateFits;
      if state == UpdateSuccess {
        var removed := RemoveJournal();
        SuccessFits();
        if removed != Done(true) {
          return if removed.Crash? then Crash else Done(Critical);
        }
        installed := Updated(installed, available);
        var written :- WriteConfig(installed);
        return Done(if written then Ok else Critical);
      }
      return Done(Error);
    }

    /** The end of runAction: what becomes of the status of runUpdate or runRollback. */
    method Conclude(status: Flow<int>, ghost c: Script) returns (r: Flow<Status>)
      requires Recoverable()
      requires status == Done(0) ==>
                 && storedState == Some(state) && (state == UpdateSuccess || state == RollbackSuccess)
                 && storedConfig == base == Some(installed) && Consistent(installed, available)
                 && (state == UpdateSuccess ==> AllSucceeded() && journal.Some? && backward == [])
      requires c.Last() < N() ==> AsFated(status, c)
      modifies this`journal, this`installed, this`storedConfig, this`fates
      ensures Recoverable()
      ensures status != Done(0) ==>
                && r == (if status.Crash? then Crash else if status.Stuck? then Stuck else Done(Critical))
                && journal == old(journal) && storedConfig == old(storedConfig) && fates == old(fates)
      ensures r.Done? && r.value == Ok ==> state == UpdateSuccess && Installed()
      ensures r.Done? && r.value == Error ==> status == Done(0) && state == RollbackSuccess && storedConfig == base
      ensures r.Stuck? <==> status.Stuck?
      ensures status == Done(0) && state == RollbackSuccess ==>
                r == Done(Error) && storedConfig == old(storedConfig) && fates == old(fates) && journal == old(journal)
      ensures status == Done(0) && old(fates) == [] && state == UpdateSuccess ==> r == Done(Ok)
      ensures status == Done(0) && state == UpdateSuccess ==>
                && (r == Done(Ok) <==> FateAt(old(fates), 0) == FateAt(old(fates), 1) == Goes)
                && storedConfig == if ConfigWritten(old(fates)) then Some(Updated(base.value, available)) else base
      ensures c.Last() < N() ==> ActionAsFated(r, c, old(storedConfig))
    {
      ghost var config := storedConfig;
      hide StateFits, ConfigFits, Recoverable, Consistent, Updated, AllSucceeded, AsFated, ActionAsFated, OnlyFails, FailsThenCut,
           TurnedBack,
           FateAt, ConfigWritten;
      if status == Done(0) {
        if c.Last() < N() {
          FatedSuccess(c);
        }
        r := Finalize();
        if c.Last() < N() {
          FatedAction(r, c, config);
        }
      } else {
        r := if status.Crash? then Crash else if status.Stuck? then Stuck else Done(Critical);
        if c.Last() < N() {
          FatedFailure(status, r, c, config);
        }
      }
    }

    lemma SuccessFits()
      requires storedState == Some(UpdateSuccess) && AllSucceeded() && backward == []
      ensures StateFits()
    {
    }

    /** preActionChecks; Ok lets the action go on. */
    method PreActionChecks(resume: bool) returns (s: Status)
      modifies this`state, this`installed, this`fates
      ensures s == Ok ==> storedState == Some(state) && storedConfig == Some(installed) && Consistent(installed, available)
      ensures s == Ok ==> (resume <==> (state == UpdatePending || state == RollbackPending))
      ensures s == Ok ==> fates == After(old(fates), 2)
      ensures s == Ok <==> Startable(resume) && FateAt(old(fates), 0) != Fails && FateAt(old(fates), 1) != Fails
    {
      var readable := Draw();
      if storedState == None || readable == Fails {
        return Critical;
      }
      state := storedState.value;
      readable := Draw();
      if storedConfig == None || readable == Fails {
        return Critical;
      }
      installed := storedConfig.value;
      var pending := state == UpdatePending || state == RollbackPending;
      if pending != resume || !Consistent(installed, available) {
        return Error;
      }
      return Ok;
    }

    /** The storage lets this kind of call go on. */
    ghost predicate Startable(resume: bool)
      reads this`storedState, this`storedConfig
    {
      && storedState.Some? && storedConfig.Some? && Consistent(storedConfig.value, available)
      && (resume <==> (storedState == Some(UpdatePending) || storedState == Some(RollbackPending)))
    }

    /** rpmanager_applyRP begins an attempt. */
    method ApplyRP() returns (r: Flow<Status>)
      requires Recoverable()
      requires storedState == Some(UpdateSuccess) || storedState == Some(RollbackSuccess) ==> journal == None
      modifies this
      ensures Recoverable()
      ensures r.Done? && r.value == Ok ==> Installed()
      ensures r != Stuck
      ensures UpdateTrace([], forward, backward, 0, N()) || (forward == old(forward) && backward == old(backward))
      ensures r.Done? && r.value == Ok ==> forward == AppliedRun(0, N()) && backward == [] && base == old(storedConfig)
      ensures old(fates) == [] && old(Startable(false)) ==> r == Done(Ok)
      ensures old(Startable(false)) && AllGo(old(fates), 4 + 4 * N()) ==>
                && storedState == Some(UpdateSuccess) && forward == AppliedRun(0, N()) && backward == [] && base == old(storedConfig)
                && var f := After(old(fates), 4 + 4 * N());
                   && (r == Done(Ok) <==> FateAt(f, 0) == FateAt(f, 1) == Goes)
                   && storedConfig == if ConfigWritten(f) then Some(Updated(base.value, available)) else base
      ensures forall m: nat, spot: Spot | m < N() && old(Startable(false)) && TwoGo(old(fates)) ::
                ActionAsFated(r, Script(After(old(fates), 2), None, [], 0, m, spot), old(storedConfig))
      ensures r.Done? && r.value == Error ==>
                storedConfig == old(storedConfig)
                && ((storedState == old(storedState) && journal == old(journal))
                    || (storedState == Some(RollbackSuccess) && anchored && AllUndone()
                        && RolledBack([], forward, backward, 0, N())))
    {
      ReadsFirst(fates);
      hide Consistent, Updated, Succeeded, Touched, Undone, AppliedRun, RolledRun, StateFits, ConfigFits, AllSucceeded, AllUndone,
           FateAt, After,
           FailsThenCut, FailsAt, OnlyFails, TurnedBack, AsFated, ActionAsFated, UpdateTrace, RolledBack, Startable,
           LeftBehind, UndoneAbove, AllGo, ConfigWritten, TwoGo;
      ghost var given, config := After(fates, 2), storedConfig;
      ghost var m, spot := FileThatFails(given);
      ghost var c := Script(given, None, [], 0, m, spot);
      NothingHappens(2 + 4 * N());
      NoneOfAll(fates, N());
      Later(fates, 2, 2 + 4 * N());
      var s := PreActionChecks(false);
      if s != Ok {
        return Done(s);
      }
      BeginAttempt();
      var status := RunUpdate(0, m, spot);
      assert [] + AppliedRun(0, N()) == AppliedRun(0, N());
      r := Conclude(status, c);
      FatedAlone(r, c, config);
      if storedState == Some(RollbackSuccess) {
        WhatIsLeft();
      }
    }

    /** A new attempt has no history. */
    ghost method BeginAttempt()
      requires Recoverable() && storedState == Some(state) && storedConfig == Some(installed) && Consistent(installed, available)
      requires (state == UpdateSuccess || state == RollbackSuccess) && journal == None
      modifies this`forward, this`backward, this`base, this`anchored, this`cutAt
      ensures Recoverable() && forward == [] && backward == [] && base == storedConfig && !anchored && N() > 0
      ensures forall k: int :: !Touched(forward, k)
    {
      hide Consistent, Updated;
      ConsistentHasFiles(installed, available);
      forward, backward, base, anchored, cutAt := [], [], storedConfig, false, -1;
      NothingTouched();
      NothingUndone();
    }

    lemma AllAreIn()
      requires forward == AppliedRun(0, N())
      ensures AllSucceeded()
    {
      forall k | 0 <= k < N() ensures Succeeded(forward, k) {
        assert forward[k] == Ran(Apply, k, true);
      }
    }

    lemma AfterTheCut(cut: Flow<Status>, given: seq<Fate>, i: nat, config: Option<seq<Package>>)
      requires 0 < i < N() && FailsThenCut(After(given, 2), i) && After(given, 7 + 4 * i) == []
      requires ActionAsFated(cut, Script(After(given, 2), None, [], 0, i, Image), config)
      requires config.Some? && Consistent(config.value, available)
      ensures cut == Crash && storedState == Some(RollbackPending) && journal == Some(i - 1) && backward == [] && fates == []
      ensures forward == [] + AppliedRun(0, i) + [Ran(Apply, i, false)] && Startable(true) && !Derailed()
    {
      Later(given, 2, 5 + 4 * i);
    }

    lemma AfterSecondCut(cut: Flow<Status>, given: seq<Fate>, before: seq<Event>, j: nat, config: Option<seq<Package>>)
      requires j + 2 < N() && FailsThenCut(given, 0) && After(given, 5) == []
      requires ActionAsFated(cut, Script(given, Some(j), Recovered(before, j), j + 2, 0, Image), config)
      requires config.Some? && Consistent(config.value, available)
      ensures cut == Crash && storedState == Some(RollbackPending) && journal == Some(j) && backward == [] && fates == []
      ensures forward == TwoMore(before, j) && Startable(true) && !Derailed()
    {
      AppliedNone(Recovered(before, j), j + 2, j + 2);
    }

    /** What a call that returns Ok has achieved. */
    ghost predicate Installed()
      reads this`storedState, this`journal, this`forward, this`base, this`storedConfig
    {
      && storedState == Some(UpdateSuccess) && journal == None && AllSucceeded()
      && base.Some? && Consistent(base.value, available)
      && storedConfig == Some(Updated(base.value, available))
    }

    /** A journal from which a resume would index outside the update files. */
    ghost predicate Derailed()
      reads this`storedState, this`journal
    {
      || (storedState == Some(UpdatePending) && journal == Some(N() - 1))
      || (storedState == Some(RollbackPending) && journal == Some(-1))
    }

    /** The branch of runAction for an interrupted update; 0 is success. */
    method ResumeUpdate(journalled: int, ghost m: nat, ghost spot: Spot) returns (r: Flow<int>)
      requires Recoverable() && storedState == Some(UpdatePending) && journal == Some(journalled)
      requires storedConfig == base && N() > 0
      modifies this`state, this`storedState, this`journal, this`forward, this`backward, this`anchored, this`cutAt, this`fates
      ensures Recoverable() && (r.Stuck? <==> old(Derailed()))
      ensures r.Stuck? ==> storedState == old(storedState) && journal == old(journal) && forward == old(forward) && backward == old(backward)
      ensures r.Done? && r.value == 0 ==> storedState == Some(state) && (state == UpdateSuccess || state == RollbackSuccess)
      ensures r.Done? && r.value == 0 && state == UpdateSuccess ==> AllSucceeded() && journal.Some? && backward == []
      ensures old(fates) == [] && !r.Stuck? ==> r == Done(0) && state == UpdateSuccess && fates == []
      ensures 0 <= journalled && journalled + 2 + m < N() && TwoGo(old(fates)) ==>
                AsFated(r, ResumedFrom(After(old(fates), 2), journalled, old(forward), m, spot))
    {
      if journalled + 2 <= N() {
        NothingHappens(2 + 4 * (N() - (journalled + 2)));
        AppliedNone(old(forward) + [Ran(Resume, journalled + 1, true)], journalled + 2, N());
      }
      hide AsFated, AllGo, Touched, Succeeded, Undone, Consistent, Updated, UpdateTrace, FailsThenCut, After, FateAt,
           AppliedRun, RolledRun;
      var recovered :- RunRecover(journalled + 1, false);
      if !recovered {
        return Done(1);
      }
      r := RunUpdate(journalled + 2, m, spot);
    }

    /** The branch for an interrupted rollback; 0 is success. */
    method ResumeRollback(uf: int) returns (r: Flow<int>)
      requires Recoverable() && storedState == Some(RollbackPending) && journal == Some(uf)
      requires storedConfig == base && N() > 0
      modifies this`state, this`storedState, this`journal, this`forward, this`backward, this`anchored, this`cutAt, this`fates
      ensures Recoverable() && (r.Stuck? <==> old(Derailed()))
      ensures forward == old(forward)
      ensures r.Stuck? ==> storedState == old(storedState) && journal == old(journal) && backward == old(backward)
      ensures r.Done? && r.value == 0 ==> storedState == Some(RollbackSuccess) && state == RollbackSuccess
      ensures old(fates) == [] && !r.Stuck? ==>
                r == Done(0) && fates == [] && backward == RolledOn(old(backward), uf)
    {
      hide Touched, Succeeded, Undone, Consistent, Updated, UpdateTrace, After, FateAt, AppliedRun, RolledRun, RollbackTrace;
      FirstGoes(fates);
      var recovered :- RunRecover(uf, true);
      if !recovered {
        return Done(1);
      }
      if uf > 0 {
        r := RunRollback(uf - 1, false);
      } else {
        RolledNone(backward, uf - 1);
        var saved :- SaveState(RollbackSuccess);
        r := Done(if saved then 0 else 1);
      }
    }

    lemma Interrupted()
      requires Recoverable()
      ensures storedState == Some(UpdatePending) || storedState == Some(RollbackPending) ==> storedConfig == base
    {
      hide UpdateJournal, RollbackJournal, Consistent;
    }

    /** rpmanager_resume continues it. */
    method ResumeRP() returns (r: Flow<Status>)
      requires Recoverable()
      modifies this
      ensures Recoverable() && base == old(base)
      ensures r.Done? && r.value == Ok ==> Installed()
      ensures r.Stuck? <==>
                && old(Startable(true)) && old(Derailed())
                && FateAt(old(fates), 0) != Fails && FateAt(old(fates), 1) != Fails && FateAt(old(fates), 2) != Fails
      ensures old(Derailed()) || old(journal) == None ==>
                && (r.Stuck? || (r.Done? && r.value != Ok))
                && storedState == old(storedState) && journal == old(journal) && storedConfig == old(storedConfig)
                && forward == old(forward) && backward == old(backward)
      ensures old(storedState) == Some(UpdateSuccess) || old(storedState) == Some(RollbackSuccess) ==>
                && r.Done? && r.value != Ok
                && storedState == old(storedState) && journal == old(journal) && storedConfig == old(storedConfig)
                && forward == old(forward) && backward == old(backward) && anchored == old(anchored)
      ensures old(fates) == [] && old(Startable(true)) && old(journal).Some? && !old(Derailed()) ==>
                if old(storedState) == Some(UpdatePending) then r == Done(Ok)
                else r == Done(Error) && storedState == Some(RollbackSuccess) && forward == old(forward)
                     && backward == RolledOn(old(backward), old(journal).value)
      ensures old(storedState) == Some(UpdatePending) && old(Startable(true)) && old(journal).Some? && 0 <= old(journal).value
              && FiveGo(old(fates)) ==>
                forall m: nat, spot: Spot | old(journal).value + 2 + m < N() ::
                  ActionAsFated(r, ResumedFrom(After(old(fates), 5), old(journal).value, old(forward), m, spot), old(storedConfig))
    {
      RecoverFirst(fates);
      hide Consistent, Updated, Succeeded, Touched, Undone, AppliedRun, RolledRun, StateFits, ConfigFits, AllSucceeded, FateAt,
           After, TwoGo, FiveGo, RolledOn, Recovered, ActionAsFated, Recoverable, Installed, Derailed, ResumedFrom;
      Later(fates, 2, 0);
      ReadsFirst(fates);
      var s := PreActionChecks(true);
      if s != Ok {
        return Done(s);
      }
      r := Continue();
    }

    /** The end of runAction from the branch for an interrupted update on. */
    method ContinueUpdate(journalled: int) returns (r: Flow<Status>)
      requires Recoverable() && storedState == Some(UpdatePending) && journal == Some(journalled) && N() > 0
      requires storedConfig == base == Some(installed) && Consistent(installed, available)
      modifies this
      ensures Recoverable() && base == old(base)
      ensures r.Done? && r.value == Ok ==> Installed()
      ensures r.Stuck? <==> old(Derailed())
      ensures r.Stuck? ==>
                && storedState == old(storedState) && journal == old(journal) && storedConfig == old(storedConfig)
                && forward == old(forward) && backward == old(backward)
      ensures old(fates) == [] && !old(Derailed()) ==> r == Done(Ok)
      ensures 0 <= journalled && TwoGo(old(fates)) ==>
                forall m: nat, spot: Spot | journalled + 2 + m < N() ::
                  ActionAsFated(r, ResumedFrom(After(old(fates), 2), journalled, old(forward), m, spot), old(storedConfig))
    {
      ghost var m, spot := FileThatFails(After(fates, 2));
      ghost var fated, config := 0 <= journalled && TwoGo(fates), storedConfig;
      ghost var c := if fated then ResumedFrom(After(fates, 2), journalled, forward, m, spot)
                     else Script(After(fates, 2), None, [], N(), m, spot);
      assert fated ==> forall n: nat, b: Spot :: ResumedFrom(After(fates, 2), journalled, forward, n, b) == c.(m := n, spot := b);
      assert c.start == if fated then journalled + 2 else N();
      assert c.Last() == c.start + m;
      hide *;
      var status := ResumeUpdate(journalled, m, spot);
      r := Conclude(status, c);
      FatedAlone(r, c, config);
    }

    /** The same for an interrupted rollback. */
    method ContinueRollback(journalled: int) returns (r: Flow<Status>)
      requires Recoverable() && storedState == Some(RollbackPending) && journal == Some(journalled) && N() > 0
      requires storedConfig == base == Some(installed) && Consistent(installed, available)
      modifies this
      ensures Recoverable() && base == old(base) && r != Done(Ok)
      ensures r.Stuck? <==> old(Derailed())
      ensures r.Stuck? ==>
                && storedState == old(storedState) && journal == old(journal) && storedConfig == old(storedConfig)
                && forward == old(forward) && backward == old(backward)
      ensures old(fates) == [] && !old(Derailed()) ==>
                && r == Done(Error) && storedState == Some(RollbackSuccess) && forward == old(forward)
                && backward == RolledOn(old(backward), journalled)
    {
      ghost var c := Script(fates, None, [], N(), 0, Image);
      assert c.Last() == N();
      hide *;
      var status := ResumeRollback(journalled);
      r := Conclude(status, c);
    }

    /** runAction behind the checks, for an interrupted update or rollback. */
    method Continue() returns (r: Flow<Status>)
      requires Recoverable() && storedState == Some(state) && (state == UpdatePending || state == RollbackPending)
      requires storedConfig == Some(installed) && Consistent(installed, available)
      modifies this
      ensures Recoverable() && base == old(base)
      ensures r.Done? && r.value == Ok ==> Installed()
      ensures r.Stuck? <==> old(Derailed()) && FateAt(old(fates), 0) != Fails
      ensures old(Derailed()) || old(journal) == None ==>
                && (r.Stuck? || (r.Done? && r.value != Ok))
                && storedState == old(storedState) && journal == old(journal) && storedConfig == old(storedConfig)
                && forward == old(forward) && backward == old(backward)
      ensures old(fates) == [] && old(journal).Some? && !old(Derailed()) ==>
                if old(storedState) == Some(UpdatePending) then r == Done(Ok)
                else r == Done(Error) && storedState == Some(RollbackSuccess) && forward == old(forward)
                     && backward == RolledOn(old(backward), old(journal).value)
      ensures old(storedState) == Some(UpdatePending) && old(journal).Some? && 0 <= old(journal).value
              && FateAt(old(fates), 0) == Goes && TwoGo(After(old(fates), 1)) ==>
                forall m: nat, spot: Spot | old(journal).value + 2 + m < N() ::
                  ActionAsFated(r, ResumedFrom(After(After(old(fates), 1), 2), old(journal).value, old(forward), m, spot),
                                old(storedConfig))
    {
      Interrupted();
      ReadsFirst(fates);
      hide Consistent, Updated, Succeeded, Touched, Undone, AppliedRun, RolledRun, StateFits, ConfigFits, AllSucceeded, FateAt,
           After, TwoGo, RolledOn, Recovered, ActionAsFated, ResumedFrom, Installed, Recoverable, Derailed;
      ConsistentHasFiles(installed, available);
      var readable := Draw();
      if journal == None || readable == Fails {
        r := Done(Critical);
      } else {
        if state == UpdatePending {
          r := ContinueUpdate(journal.value);
        } else {
          r := ContinueRollback(journal.value);
        }
      }
    }

    /** One attempt, cut and resumed any number of times; undefined behaviour ends it. */
    method OneAttempt(resumes: nat) returns (results: seq<Flow<Status>>)
      requires Recoverable() && journal == None
      modifies this
      ensures Done(Ok) in results ==> Installed()
      ensures storedState == Some(UpdatePending) && journal.Some? ==>
                && (forall k | 0 <= k <= journal.value :: Succeeded(forward, k))
                && (forall k: int :: Touched(forward, k) ==> k <= journal.value + 2)
      ensures storedState == Some(RollbackSuccess) ==>
                && (AllUndone() <==> anchored || !Touched(forward, cutAt + 1))
                && (forall k: nat :: Touched(forward, k) ==> Undone(backward, k) || (!anchored && cutAt < k <= cutAt + 2))
      ensures storedConfig != base ==> AllSucceeded()
    {
      hide Consistent, Updated, Succeeded, Touched, Undone, AppliedRun, RolledRun;
      var r := ApplyRP();
      results := [r];
      for i := 0 to resumes
        invariant Recoverable() && results != []
        invariant Done(Ok) in results ==> Installed()
      {
        if results[|results| - 1].Stuck? {
          break;
        }
        r := ResumeRP();
        results := results + [r];
      }
      if storedState == Some(RollbackSuccess) {
        WhatIsLeft();
      }
    }

    lemma WhatIsLeft()
      requires Recoverable() && storedState == Some(RollbackSuccess)
      ensures AllUndone() <==> anchored || !Touched(forward, cutAt + 1)
    {
      if Touched(forward, cutAt + 1) {
        assert forward != [];
      }
    }
  }

  lemma ConsistentHasFiles(installed: seq<Package>, available: AvailableConfig)
    requires Consistent(installed, available)
    ensures available.update.Some? && available.update.value.files > 0
  {
  }

  ghost predicate RollbackTraceAt(before: seq<Event>, after: seq<Event>, start: int, m: nat) {
    && m <= start + 1
    && OrOneMore(after, before + RolledRun(start, m), Rollback, start - m)
    && (m == start + 1 ==> after == before + RolledRun(start, m))
  }

  /** What a call of runRollback from `start` adds, whether or not it gets to the end. */
  ghost predicate RollbackTrace(before: seq<Event>, after: seq<Event>, start: int) {
    exists m: nat :: RollbackTraceAt(before, after, start, m)
  }

  lemma RolledNone(before: seq<Event>, start: int)
    requires start >= -1
    ensures before + RolledRun(start, 0) == before
    ensures RollbackTrace(before, before, start)
  {
    assert RollbackTraceAt(before, before, start, 0);
  }

  lemma RolledMore(before: seq<Event>, start: int, m: nat)
    requires m <= start + 1
    ensures before + RolledRun(start, m) + [Ran(Rollback, start - m, true)] == before + RolledRun(start, m + 1)
    ensures forall after :: OrOneMore(after, before + RolledRun(start, m), Rollback, start - m) && m <= start
              ==> RollbackTrace(before, after, start)
    ensures RollbackTrace(before, before + RolledRun(start, m), start)
  {
    assert RolledRun(start, m) + [Ran(Rollback, start - m, true)] == RolledRun(start, m + 1);
    forall after | OrOneMore(after, before + RolledRun(start, m), Rollback, start - m) && m <= start
      ensures RollbackTrace(before, after, start)
    {
      assert RollbackTraceAt(before, after, start, m);
    }
    assert RollbackTraceAt(before, before + RolledRun(start, m), start, m);
  }

  lemma AppliedNone(before: seq<Event>, start: nat, n: nat)
    requires start <= n
    ensures before + AppliedRun(start, start) == before
    ensures UpdateTrace(before, before, [], start, n)
  {
    assert UpdateTraceAt(before, before, [], start, n, start);
  }

  lemma AppliedMore(before: seq<Event>, start: nat, i: nat, n: nat)
    requires start <= i < n
    ensures before + AppliedRun(start, i) + [Ran(Apply, i, true)] == before + AppliedRun(start, i + 1)
    ensures forall after :: OrOneMore(after, before + AppliedRun(start, i), Apply, i) ==> UpdateTrace(before, after, [], start, n)
  {
    assert AppliedRun(start, i) + [Ran(Apply, i, true)] == AppliedRun(start, i + 1);
    forall after | OrOneMore(after, before + AppliedRun(start, i), Apply, i)
      ensures UpdateTrace(before, after, [], start, n)
    {
      assert UpdateTraceAt(before, after, [], start, n, i);
    }
  }

  lemma AppliedAll(before: seq<Event>, start: nat, n: nat)
    requires start <= n
    ensures UpdateTrace(before, before + AppliedRun(start, n), [], start, n)
  {
    assert UpdateTraceAt(before, before + AppliedRun(start, n), [], start, n, n);
  }

  lemma UpdateThenRollback(before: seq<Event>, forward: seq<Event>, backward: seq<Event>, start: nat, n: nat, i: nat)
    requires start <= i < n && RollbackTrace([], backward, i)
    requires forward == Then(before, start, i) || forward == ThenFails(before, start, i)
    ensures UpdateTrace(before, forward, backward, start, n)
    ensures backward == RolledRun(i, i + 1) ==> RolledBack(before, forward, backward, start, n)
  {
    var t := before + AppliedRun(start, i);
    assert (t + [Ran(Apply, i, false)])[|t|] != (t + [Ran(Apply, i, true)])[|t|];
    assert UpdateTraceAt(before, forward, backward, start, n, i);
    assert backward == RolledRun(i, i + 1) ==> RolledBackFrom(before, forward, backward, start, n, i);
  }

  lemma SucceededMore(t: seq<Event>, i: nat)
    requires forall k | 0 <= k < i :: Succeeded(t, k)
    ensures forall k | 0 <= k <= i :: Succeeded(t + [Ran(Apply, i, true)], k)
  {
    var t' := t + [Ran(Apply, i, true)];
    assert t'[|t|] == Ran(Apply, i, true);
    assert forall k | 0 <= k < i :: Succeeded(t, k) ==> Succeeded(t', k);
  }

  lemma NothingUndone()
    ensures forall k: int :: !Undone([], k)
  {
  }

  lemma NothingTouched()
    ensures forall k: int :: !Touched([], k)
  {
  }

  /** The surroundings of a run whose file i cannot be applied and whose power goes as soon as ROLLBACK_PENDING is saved. */
  function CutBeforeRollback(i: nat): (fates: seq<Fate>)
    ensures TwoGo(fates) && FailsThenCut(After(fates, 2), i) && After(fates, 7 + 4 * i) == []
  {
    var fates := seq(5 + 4 * i, _ => Goes) + [Fails, CutAfter];
    assert After(fates, 2) == seq(3 + 4 * i, _ => Goes) + [Fails, CutAfter];
    fates
  }

  lemma OnlyBelow(i: nat)
    requires i > 0
    ensures var t := RolledOn([], i - 1);
            forall k | k >= i :: !Undone(t, k)
    ensures [] + [Ran(Resume, i - 1, true)] == [Ran(Resume, i - 1, true)]
  {
  }

  /** The family of runs in which a touched file is missed: any but the first file fails to apply, and the power goes
      between saving ROLLBACK_PENDING and the first rollback.  The resume reports a completed rollback. */
  method MissedFile(m: Manager, i: nat) returns (cut: Flow<Status>, resumed: Flow<Status>)
    requires m.Recoverable() && m.journal == None && m.Startable(false) && 0 < i < m.N()
    modifies m
    ensures cut == Crash && resumed == Done(Error) && m.storedState == Some(RollbackSuccess)
    ensures Touched(m.forward, i) && !Undone(m.backward, i)
  {
    assert m.storedConfig.Some? && Consistent(m.storedConfig.value, m.available);
    hide *;
    m.fates := CutBeforeRollback(i);
    ghost var script, config := m.fates, m.storedConfig;
    cut := m.ApplyRP();
    m.AfterTheCut(cut, script, i, config);
    resumed := m.ResumeRP();
    OnlyBelow(i);
    LastTouched(m.forward, AppliedRun(0, i), i);
  }

  /** The run in which two touched files are missed, from an interrupted update that has j in its journal: the resume
      recovers file j + 1, fails to apply j + 2 and loses the power between saving ROLLBACK_PENDING and the first rollback.
      The next resume rolls back j, ..., 0 only and reports a completed rollback. */
  method MissedTwo(m: Manager, j: nat) returns (cut: Flow<Status>, resumed: Flow<Status>)
    requires m.Recoverable() && m.storedState == Some(UpdatePending) && m.journal == Some(j) && j + 2 < m.N()
    requires m.Startable(true)
    modifies m
    ensures cut == Crash && resumed == Done(Error) && m.storedState == Some(RollbackSuccess)
    ensures Touched(m.forward, j + 1) && !Undone(m.backward, j + 1)
    ensures Touched(m.forward, j + 2) && !Undone(m.backward, j + 2)
  {
    m.fates := [Goes, Goes, Goes, Goes, Goes, Goes, Goes, Goes, Fails, CutAfter];
    ghost var script, before, config := m.fates, m.forward, m.storedConfig;
    CutBehindTwo();
    ghost var c := ResumedFrom(After(script, 5), j, before, 0, Image);
    assert c == Script(After(script, 5), Some(j), Recovered(before, j), j + 2, 0, Image);
    assert m.storedConfig.Some? && Consistent(m.storedConfig.value, m.available);
    hide *;
    cut := m.ResumeRP();
    assert m.ActionAsFated(cut, c, config);
    m.AfterSecondCut(cut, After(script, 5), before, j, config);
    resumed := m.ResumeRP();
    OnlyBelow(j + 1);
    TwoTouched(m.forward, before, j);
  }

  lemma CutBehindTwo()
    ensures var fates := [Goes, Goes, Goes, Goes, Goes, Goes, Goes, Goes, Fails, CutAfter];
            FiveGo(fates) && FailsThenCut(After(fates, 5), 0) && After(After(fates, 5), 5) == []
  {
    var fates := [Goes, Goes, Goes, Goes, Goes, Goes, Goes, Goes, Fails, CutAfter];
    assert After(fates, 5) == [Goes, Goes, Goes, Fails, CutAfter];
  }

  lemma TwoTouched(t: seq<Event>, before: seq<Event>, j: nat)
    requires t == TwoMore(before, j)
    ensures Touched(t, j + 1) && Touched(t, j + 2)
  {
    assert t[|before|] == Ran(Resume, j + 1, true) && t[|before| + 1] == Ran(Apply, j + 2, false);
  }

  // ----- an installed package that is not recorded -----

  lemma UpdatedDiffers(installed: seq<Package>, available: AvailableConfig)
    requires Consistent(installed, available)
    ensures Updated(installed, available) != installed
  {
    var p := Find(installed, available.update.value.uuid).value;
    CmpTransitive(Some(installed[p].version), Some(installed[p].version), None);
  }

  /** The surroundings of an update of n files that goes well up to the removal of the journal, whose fate is f. */
  function CutAtRemoval(n: nat, f: Fate): (fates: seq<Fate>)
    ensures AllGo(fates, 4 + 4 * n) && FateAt(After(fates, 4 + 4 * n), 0) == f
  {
    seq(4 + 4 * n, _ => Goes) + [f]
  }

  /** The family of runs that leave the configuration behind for good: every file is applied, but the journal's removal fails
      or is cut off, so the new configuration is not written; no resume changes anything any more, and none returns OK. */
  method ConfigLeft(m: Manager, f: Fate, resumes: nat) returns (first: Flow<Status>, results: seq<Flow<Status>>)
    requires m.Recoverable() && m.journal == None && m.Startable(false) && f != Goes
    modifies m
    ensures m.storedState == Some(UpdateSuccess) && m.AllSucceeded() && first != Done(Ok)
    ensures m.storedConfig == old(m.storedConfig) && Consistent(m.storedConfig.value, m.available)
    ensures m.storedConfig != Some(Updated(m.storedConfig.value, m.available))
    ensures |results| == resumes && forall i | 0 <= i < resumes :: results[i].Done? && results[i].value != Ok
  {
    assert m.storedConfig.Some? && Consistent(m.storedConfig.value, m.available);
    UpdatedDiffers(m.storedConfig.value, m.available);
    hide *;
    m.fates := CutAtRemoval(m.N(), f);
    first := m.ApplyRP();
    m.AllAreIn();
    results := [];
    for i := 0 to resumes
      invariant m.Recoverable() && m.storedState == Some(UpdateSuccess) && m.AllSucceeded()
      invariant m.storedConfig == old(m.storedConfig)
      invariant |results| == i && forall k | 0 <= k < i :: results[k].Done? && results[k].value != Ok
    {
      var r := m.ResumeRP();
      results := results + [r];
    }
  }

  lemma LastTouched(t: seq<Event>, before: seq<Event>, i: nat)
    requires t == [] + before + [Ran(Apply, i, false)]
    ensures Touched(t, i)
  {
    assert t[|before|] == Ran(Apply, i, false);
  }
}
