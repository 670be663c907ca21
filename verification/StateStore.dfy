// EncryptedStateStore: backup to the last-known-good file, write to a temporary file,
// rename, and recovery on load, with a crash possible at every micro-step.
module StateStore {
  import opened Collections

  /** A record as it is read back: its key, its contents, and whether schema and checksum hold. */
  datatype Record = Record(key: string, data: string, schemaOk: bool, checksumOk: bool)

  /** Decrypted contents of a file: a JSON array of records, or some other JSON value. */
  datatype Contents = NotArray | Records(records: seq<Record>)

  /** A file: missing, not decryptable (torn, tampered, not an envelope), or decryptable. */
  datatype File = Absent | Garbage | Sealed(contents: Contents)

  datatype Disk = Disk(primary: File, lkg: File, tmp: File)

  /** Sizes in bytes: `jsonSize` is that of the JSON text of a file's contents, `valueSize` that of one value. */
  datatype Config = Config(
    maxStorageSizeBytes: nat,
    jsonSize: Contents -> nat,
    valueSize: string -> nat,
    maxRecords: nat)
  {
    /** The flush accepts the records. */
    predicate Fits(records: seq<Record>) {
      jsonSize(Records(records)) <= maxStorageSizeBytes
    }

    /** The load accepts the size of the sealed file. */
    predicate Readable(contents: Contents) {
      SealedSize(jsonSize(contents)) <= 2 * maxStorageSizeBytes
    }
  }

  /** The envelope around the ciphertext: its property names, algorithm, time stamp, IV, tag and HMAC, indented. */
  const ENVELOPE: nat := 250

  /** A sealed JSON text of n bytes: the cipher keeps the length, and base64 takes 4 characters for 3 bytes. */
  function SealedSize(n: nat): nat {
    ENVELOPE + 4 * ((n + 2) / 3)
  }

  const EMPTY_DISK: Disk := Disk(Absent, Absent, Absent)

  // ---- Record lists: an insertion-ordered map by key ----

  function Put(records: seq<Record>, r: Record): seq<Record> {
    if records == [] then [r]
    else if records[0].key == r.key then [r] + records[1..]
    else [records[0]] + Put(records[1..], r)
  }

  function AsList(records: seq<Record>): seq<Record> {
    if records == [] then [] else Put(AsList(records[..|records| - 1]), Last(records))
  }

  predicate Intact(r: Record) {
    r.schemaOk && r.checksumOk
  }

  function IsIntact(): Record -> bool {
    (r: Record) => Intact(r)
  }

  /** What the store holds in memory: intact records under distinct keys. */
  ghost predicate Good(records: seq<Record>) {
    && (forall r :: r in records ==> Intact(r))
    && forall i, j :: 0 <= i < j < |records| ==> records[i].key != records[j].key
  }

  lemma {:induction false} PutAppends(records: seq<Record>, r: Record)
    requires forall x :: x in records ==> x.key != r.key
    ensures Put(records, r) == records + [r]
  {
    if records != [] {
      PutAppends(records[1..], r);
    }
  }

  /** Reading back what was written gives the same list. */
  lemma {:induction false} GoodReadsBack(records: seq<Record>)
    requires Good(records)
    ensures AsList(records) == records
    ensures Filter(records, IsIntact()) == records
  {
    if records != [] {
      var init := records[..|records| - 1];
      GoodReadsBack(init);
      PutAppends(init, Last(records));
      assert records == init + [Last(records)];
    }
  }

  /** Putting a record puts it: at its old place, or at the end, with every other record unchanged. */
  lemma {:induction false} PutPuts(records: seq<Record>, r: Record)
    ensures var p, i := Put(records, r), KeyIndex(records, r.key);
      && |p| == (if i < |records| then |records| else |records| + 1)
      && p[i] == r
      && (forall j :: 0 <= j < |records| && j != i ==> p[j] == records[j])
  {
    if records != [] && records[0].key != r.key {
      PutPuts(records[1..], r);
      assert KeyIndex(records, r.key) == 1 + KeyIndex(records[1..], r.key);
    }
  }

  lemma PutIsFound(records: seq<Record>, r: Record)
    ensures var p := Put(records, r); KeyIndex(p, r.key) == KeyIndex(records, r.key) && KeyIndex(p, r.key) < |p| && p[KeyIndex(p, r.key)] == r
  {
    PutPuts(records, r);
    var p, i := Put(records, r), KeyIndex(records, r.key);
    assert forall j :: 0 <= j < i ==> p[j].key != r.key;
  }

  /** The last record of the list with this key. */
  function LastWith(raw: seq<Record>, key: string): Option<Record> {
    if raw == [] then None
    else if Last(raw).key == key then Some(Last(raw))
    else LastWith(raw[..|raw| - 1], key)
  }

  /** The record under a key, if there is one. */
  function RecordOf(records: seq<Record>, key: string): Option<Record> {
    var i := KeyIndex(records, key);
    if i < |records| then Some(records[i]) else None
  }

  lemma RecordOfCons(x: Record, rest: seq<Record>, key: string)
    ensures RecordOf([x] + rest, key) == if x.key == key then Some(x) else RecordOf(rest, key)
  {
    assert ([x] + rest)[1..] == rest;
  }

  lemma {:induction false} PutElsewhere(records: seq<Record>, r: Record, key: string)
    requires key != r.key
    ensures RecordOf(Put(records, r), key) == RecordOf(records, key)
  {
    if records == [] {
      RecordOfCons(r, [], key);
      assert [r] + [] == [r];
    } else {
      var x, rest := records[0], records[1..];
      assert records == [x] + rest;
      RecordOfCons(x, rest, key);
      if x.key == r.key {
        RecordOfCons(r, rest, key);
      } else {
        PutElsewhere(rest, r, key);
        RecordOfCons(x, Put(rest, r), key);
      }
    }
  }

  /** Reading records one by one keeps, under each key, the last one that was read. */
  lemma {:induction false} LastOneWins(raw: seq<Record>, key: string)
    ensures RecordOf(AsList(raw), key) == LastWith(raw, key)
  {
    if raw != [] {
      var init, r := raw[..|raw| - 1], Last(raw);
      LastOneWins(init, key);
      if r.key == key {
        PutIsFound(AsList(init), r);
      } else {
        PutElsewhere(AsList(init), r, key);
      }
    }
  }

  // ---- Reading files ----

  /** The envelope parses and decrypts: all the backup step checks. */
  predicate Opens(f: File) {
    f.Sealed?
  }

  /** The primary can be loaded: size, array, and every record intact. */
  predicate Loads(cfg: Config, f: File) {
    && f.Sealed? && cfg.Readable(f.contents) && f.contents.Records?
    && forall r :: r in f.contents.records ==> Intact(r)
  }

  /** What restoreLKG keeps of a file: the intact records. */
  function Salvage(f: File): seq<Record>
    requires f.Sealed? && f.contents.Records?
  {
    AsList(Filter(f.contents.records, IsIntact()))
  }

  /** restoreLKG succeeds: the file opens, holds an array, and what is kept can be flushed again. */
  predicate Usable(cfg: Config, f: File) {
    f.Sealed? && f.contents.Records? && cfg.Fits(Salvage(f))
  }

  datatype Outcome = Loaded(records: seq<Record>) | LoadFailed

  /** What loadFromDisk answers on a disk. */
  function Recovered(cfg: Config, d: Disk): Outcome {
    if d.primary.Absent? then
      Loaded(if Usable(cfg, d.lkg) then Salvage(d.lkg) else [])
    else if Loads(cfg, d.primary) then Loaded(AsList(d.primary.contents.records))
    else if Usable(cfg, d.lkg) then Loaded(Salvage(d.lkg))
    else LoadFailed
  }

  // ---- Micro-steps ----

  function Seal(records: seq<Record>): File {
    Sealed(Records(records))
  }

  /** The disks seen while the backup is made: untouched, torn copy, finished copy. */
  function BackupTrace(d: Disk): (t: seq<Disk>)
    ensures t != [] && t[0] == d
  {
    if Opens(d.primary) then [d, d.(lkg := Garbage), d.(lkg := d.primary)] else [d]
  }

  /** The disks seen during a flush: the backup, the torn and the finished temporary file, the rename. */
  function FlushTrace(d: Disk, records: seq<Record>): (t: seq<Disk>)
    ensures |t| >= 4 && t[0] == d
  {
    var d' := Last(BackupTrace(d));
    BackupTrace(d) + [d'.(tmp := Garbage), d'.(tmp := Seal(records)), d'.(primary := Seal(records), tmp := Absent)]
  }

  function AfterFlush(d: Disk, records: seq<Record>): Disk {
    Last(FlushTrace(d, records))
  }

  /** The load falls back to the LKG file and can use it. */
  predicate Restores(cfg: Config, d: Disk) {
    !Loads(cfg, d.primary) && Usable(cfg, d.lkg)
  }

  /** The disks seen during a load: the stale temporary file goes, then a restore flushes what it salvaged. */
  function LoadTrace(cfg: Config, d: Disk): (t: seq<Disk>)
    ensures t != [] && t[0] == d
  {
    var d' := d.(tmp := Absent);
    [d] + (if Restores(cfg, d) then FlushTrace(d', Salvage(d.lkg)) else [d'])
  }

  // ---- Crash atomicity ----

  /** The backup step tells a healthy primary from a damaged one. */
  predicate BackupIsSafe(cfg: Config, d: Disk) {
    Opens(d.primary) ==> Loads(cfg, d.primary) || (!Usable(cfg, d.lkg) && !Usable(cfg, d.primary))
  }

  ghost predicate AllBeforeRenameRecover(cfg: Config, d: Disk, records: seq<Record>) {
    forall k :: 0 <= k < |FlushTrace(d, records)| - 1 ==> Recovered(cfg, FlushTrace(d, records)[k]) == Recovered(cfg, d)
  }

  /**
   * Before the rename, a crash followed by a load yields exactly what a load would have
   * yielded before the flush; this holds just when the backup cannot copy an unloadable primary
   * over something better.
   */
  lemma CrashBeforeRename(cfg: Config, d: Disk, records: seq<Record>)
    ensures AllBeforeRenameRecover(cfg, d, records) <==> BackupIsSafe(cfg, d)
  {
    var t := FlushTrace(d, records);
    if Opens(d.primary) {
      assert t[1] == d.(lkg := Garbage) && t[2] == d.(lkg := d.primary);
      assert t[3] == t[2].(tmp := Garbage) && t[4] == t[2].(tmp := Seal(records)) && |t| == 6;
      assert Recovered(cfg, t[1]) == Recovered(cfg, d) && Recovered(cfg, t[2]) == Recovered(cfg, d) <==> BackupIsSafe(cfg, d);
      if !BackupIsSafe(cfg, d) {
        assert Recovered(cfg, t[1]) != Recovered(cfg, d) || Recovered(cfg, t[2]) != Recovered(cfg, d);
      }
    } else {
      assert t[1] == d.(tmp := Garbage) && t[2] == d.(tmp := Seal(records)) && |t| == 4;
    }
  }

  /** The LKG file after the backup step. */
  function BackedUp(d: Disk): File {
    if Opens(d.primary) then d.primary else d.lkg
  }

  /** The sealed file is within the read limit, or the LKG file happens to hold the same records. */
  predicate ReadsBack(cfg: Config, d: Disk, records: seq<Record>) {
    cfg.Readable(Records(records)) || (Usable(cfg, BackedUp(d)) && Salvage(BackedUp(d)) == records)
  }

  /** Once the rename is done the new records are what a load yields, exactly when they read back. */
  lemma RenamedIsNew(cfg: Config, d: Disk, records: seq<Record>)
    requires Good(records)
    ensures Recovered(cfg, AfterFlush(d, records)) == Loaded(records) <==> ReadsBack(cfg, d, records)
  {
    GoodReadsBack(records);
  }

  /** A load yields the old state before the rename and the new one after it. */
  ghost predicate Atomic(cfg: Config, d: Disk, records: seq<Record>) {
    var t := FlushTrace(d, records);
    forall k :: 0 <= k < |t| ==> Recovered(cfg, t[k]) == if k == |t| - 1 then Loaded(records) else Recovered(cfg, d)
  }

  /**
   * Old or new: a crash at any micro-step of a flush recovers one of the two committed states, if
   * and only if the backup is safe and the new state reads back.
   */
  lemma CrashAtomicity(cfg: Config, d: Disk, records: seq<Record>)
    requires Good(records)
    ensures Atomic(cfg, d, records) <==> BackupIsSafe(cfg, d) && ReadsBack(cfg, d, records)
  {
    var t := FlushTrace(d, records);
    CrashBeforeRename(cfg, d, records);
    RenamedIsNew(cfg, d, records);
    assert Last(t) == t[|t| - 1];
    if Atomic(cfg, d, records) {
      assert Recovered(cfg, t[|t| - 1]) == Loaded(records);
    }
  }

  // ---- When everything that is written can be read ----

  /** The caller's check: the largest text the flush accepts seals to a file the load accepts. */
  predicate LimitIsAmple(max: nat) {
    SealedSize(max) <= 2 * max
  }

  /** Under an ample limit whatever is flushed is readable. */
  lemma AmpleLimitReads(cfg: Config, records: seq<Record>)
    requires LimitIsAmple(cfg.maxStorageSizeBytes) && cfg.Fits(records)
    ensures cfg.Readable(Records(records))
  {
    var n, max := cfg.jsonSize(Records(records)), cfg.maxStorageSizeBytes;
    assert (n + 2) / 3 <= (max + 2) / 3;
  }

  /** Every limit from 377 bytes on is ample, the default of 10485760 included; 376 is not. */
  lemma AmpleLimits(max: nat)
    ensures max >= 377 ==> LimitIsAmple(max)
    ensures !LimitIsAmple(376)
  {
  }

  /** A set that fits but is not readable is lost by the first flush of a new store. */
  lemma UnreadableIsLost(cfg: Config, records: seq<Record>)
    requires !cfg.Readable(Records(records))
    ensures Recovered(cfg, AfterFlush(EMPTY_DISK, records)) == LoadFailed
  {
  }

  /** Such sets exist: a limit of 100 bytes accepts the empty store, whose file is over 200 bytes. */
  lemma SmallLimitLosesEmptyStore(cfg: Config)
    requires cfg.maxStorageSizeBytes == 100 && cfg.jsonSize(Records([])) == 2
    ensures cfg.Fits([]) && Recovered(cfg, AfterFlush(EMPTY_DISK, [])) == LoadFailed
  {
    UnreadableIsLost(cfg, []);
  }

  /**
   * The backup check is too weak in one family of disks: a primary that decrypts but holds a
   * damaged record is copied over a good LKG, and the good state is gone.
   */
  lemma BackupCanLoseTheLKG(cfg: Config)
    requires cfg.Fits([Record("k", "good", true, true)])
    ensures var good, bad := [Record("k", "good", true, true)], [Record("k", "bad", true, false)];
      var d := Disk(Seal(bad), Seal(good), Absent);
      && Recovered(cfg, d) == Loaded(good)
      && !BackupIsSafe(cfg, d)
      && Recovered(cfg, d.(lkg := d.primary)) != Loaded(good)
      && FlushTrace(d, [])[2] == d.(lkg := d.primary)
  {
    var good, bad := [Record("k", "good", true, true)], [Record("k", "bad", true, false)];
    GoodReadsBack(good);
    assert bad[0] in bad;
    assert Filter(bad[..0], IsIntact()) == [];
    assert Filter(bad, IsIntact()) == [];
  }

  /** A primary that does not decrypt never reaches the LKG file, at any micro-step. */
  lemma DamagedPrimaryKeepsLKG(d: Disk, records: seq<Record>, k: nat)
    requires !Opens(d.primary) && k < |FlushTrace(d, records)|
    ensures FlushTrace(d, records)[k].lkg == d.lkg
  {
  }

  /** After flushing S1 and then S2, a primary that is lost or damaged in any way falls back to S1. */
  lemma FallsBackToPrevious(cfg: Config, d: Disk, s1: seq<Record>, s2: seq<Record>, damaged: File)
    requires Good(s1) && cfg.Fits(s1) && !Loads(cfg, damaged)
    ensures Recovered(cfg, AfterFlush(AfterFlush(d, s1), s2).(primary := damaged)) == Loaded(s1)
  {
    GoodReadsBack(s1);
  }

  /** Salvaged records are good records. */
  lemma {:induction false} ListIsGood(records: seq<Record>)
    requires forall r :: r in records ==> Intact(r)
    ensures Good(AsList(records))
  {
    if records != [] {
      ListIsGood(records[..|records| - 1]);
      PutKeepsGood(AsList(records[..|records| - 1]), Last(records));
    }
  }

  lemma {:induction false} PutKeepsGood(records: seq<Record>, r: Record)
    requires Good(records) && Intact(r)
    ensures Good(Put(records, r))
    ensures forall x :: x in Put(records, r) ==> x == r || x in records
  {
    if records != [] && records[0].key != r.key {
      PutKeepsGood(records[1..], r);
      var p := Put(records[1..], r);
      assert Put(records, r) == [records[0]] + p;
      forall j | 0 <= j < |p| ensures p[j].key != records[0].key {
        assert p[j] in p;
        if p[j] != r {
          assert p[j] in records[1..];
        }
      }
    }
  }

  lemma SalvageIsGood(f: File)
    requires f.Sealed? && f.contents.Records?
    ensures Good(Salvage(f))
  {
    forall r | r in Filter(f.contents.records, IsIntact()) ensures Intact(r) {
      FilterMember(f.contents.records, IsIntact(), r);
    }
    ListIsGood(Filter(f.contents.records, IsIntact()));
  }

  ghost predicate Restartable(cfg: Config, d: Disk) {
    var t := LoadTrace(cfg, d);
    forall k :: 0 <= k < |t| ==> Recovered(cfg, t[k]) == Recovered(cfg, d)
  }

  /**
   * A load can itself be cut short at any micro-step, and loading again yields the same records:
   * exactly unless it restores over a primary that still decrypts.
   */
  lemma LoadIsRestartable(cfg: Config, d: Disk)
    ensures Restartable(cfg, d) <==> (Restores(cfg, d) ==> !Opens(d.primary))
  {
    var d', t := d.(tmp := Absent), LoadTrace(cfg, d);
    assert Recovered(cfg, d') == Recovered(cfg, d);
    if Restores(cfg, d) {
      var f := FlushTrace(d', Salvage(d.lkg));
      SalvageIsGood(d.lkg);
      CrashAtomicity(cfg, d', Salvage(d.lkg));
      assert t == [d] + f;
      if !Opens(d.primary) {
        forall k | 0 < k < |t| ensures Recovered(cfg, t[k]) == Recovered(cfg, d) {
          assert t[k] == f[k - 1];
        }
      } else {
        assert f[1] == d'.(lkg := Garbage) && t[2] == f[1];
      }
    }
  }

  // ---- Whole histories ----

  datatype Event =
    | Flush(records: seq<Record>)
    | FlushCrash(records: seq<Record>, step: nat)
    | Load
    | LoadCrash(step: nat)

  /** The store only flushes good records that fit; crashes happen at an existing micro-step. */
  ghost predicate Legal(cfg: Config, d: Disk, e: Event) {
    match e
    case Flush(records) => Good(records) && cfg.Fits(records)
    case FlushCrash(records, step) => Good(records) && cfg.Fits(records) && step < |FlushTrace(d, records)|
    case Load => true
    case LoadCrash(step) => step < |LoadTrace(cfg, d)|
  }

  function Apply(cfg: Config, d: Disk, e: Event): Disk
    requires e.FlushCrash? ==> e.step < |FlushTrace(d, e.records)|
    requires e.LoadCrash? ==> e.step < |LoadTrace(cfg, d)|
  {
    match e
    case Flush(records) => AfterFlush(d, records)
    case FlushCrash(records, step) => FlushTrace(d, records)[step]
    case Load => Last(LoadTrace(cfg, d))
    case LoadCrash(step) => LoadTrace(cfg, d)[step]
  }

  /** The record set a history has committed: the last flush whose rename happened. */
  function Commit(d: Disk, committed: seq<Record>, e: Event): seq<Record> {
    match e
    case Flush(records) => records
    case FlushCrash(records, step) => if step == |FlushTrace(d, records)| - 1 then records else committed
    case _ => committed
  }

  ghost predicate LegalRun(cfg: Config, d: Disk, events: seq<Event>)
    decreases |events|
  {
    events == [] || (Legal(cfg, d, events[0]) && LegalRun(cfg, Apply(cfg, d, events[0]), events[1..]))
  }

  /** At every point of the history, stopping there and loading yields the last committed record set. */
  ghost predicate AlwaysRecovers(cfg: Config, d: Disk, committed: seq<Record>, events: seq<Event>)
    requires LegalRun(cfg, d, events)
    decreases |events|
  {
    && Recovered(cfg, d) == Loaded(committed)
    && (events != [] ==> AlwaysRecovers(cfg, Apply(cfg, d, events[0]), Commit(d, committed, events[0]), events[1..]))
  }

  /** The rename of this event happens. */
  predicate Commits(d: Disk, e: Event) {
    e.Flush? || (e.FlushCrash? && e.step == |FlushTrace(d, e.records)| - 1)
  }

  /** Whatever the history commits is within the read limit. */
  ghost predicate CommitsReadable(cfg: Config, d: Disk, events: seq<Event>)
    requires LegalRun(cfg, d, events)
    decreases |events|
  {
    events != [] ==>
      && (Commits(d, events[0]) ==> cfg.Readable(Records(events[0].records)))
      && CommitsReadable(cfg, Apply(cfg, d, events[0]), events[1..])
  }

  /** Either nothing was ever committed, or the primary is the committed set. */
  ghost predicate Consistent(cfg: Config, d: Disk, committed: seq<Record>) {
    || (d.primary.Absent? && d.lkg.Absent? && committed == [])
    || (Good(committed) && cfg.Fits(committed) && cfg.Readable(Records(committed)) && d.primary == Seal(committed))
  }

  lemma ConsistentRecovers(cfg: Config, d: Disk, committed: seq<Record>)
    requires Consistent(cfg, d, committed)
    ensures Recovered(cfg, d) == Loaded(committed)
  {
    if d.primary.Sealed? {
      GoodReadsBack(committed);
    }
  }

  lemma FlushKeepsConsistent(cfg: Config, d: Disk, committed: seq<Record>, records: seq<Record>, k: nat)
    requires Consistent(cfg, d, committed) && Good(records) && cfg.Fits(records) && k < |FlushTrace(d, records)|
    requires k == |FlushTrace(d, records)| - 1 ==> cfg.Readable(Records(records))
    ensures Consistent(cfg, FlushTrace(d, records)[k], if k == |FlushTrace(d, records)| - 1 then records else committed)
  {
  }

  lemma EventKeepsConsistent(cfg: Config, d: Disk, committed: seq<Record>, e: Event)
    requires Consistent(cfg, d, committed) && Legal(cfg, d, e)
    requires Commits(d, e) ==> cfg.Readable(Records(e.records))
    ensures Consistent(cfg, Apply(cfg, d, e), Commit(d, committed, e))
  {
    match e
    case Flush(records) => FlushKeepsConsistent(cfg, d, committed, records, |FlushTrace(d, records)| - 1);
    case FlushCrash(records, step) => FlushKeepsConsistent(cfg, d, committed, records, step);
    case Load =>
    case LoadCrash(_) =>
  }

  /** From a consistent disk, a commit over the read limit is not recovered. */
  lemma UnreadableCommit(cfg: Config, d: Disk, committed: seq<Record>, e: Event)
    requires Consistent(cfg, d, committed) && Legal(cfg, d, e) && Commits(d, e)
    requires !cfg.Readable(Records(e.records))
    ensures Recovered(cfg, Apply(cfg, d, e)) != Loaded(Commit(d, committed, e))
  {
    RenamedIsNew(cfg, d, e.records);
    if d.primary.Sealed? {
      GoodReadsBack(committed);
    }
  }

  /**
   * Over every history of flushes, loads and crashes: at every point of it a load yields the last
   * committed record set, if and only if every committed set is within the read limit.
   */
  lemma {:induction false} HistoryRecoversCommitted(cfg: Config, d: Disk, committed: seq<Record>, events: seq<Event>)
    requires Consistent(cfg, d, committed) && LegalRun(cfg, d, events)
    ensures AlwaysRecovers(cfg, d, committed, events) <==> CommitsReadable(cfg, d, events)
    decreases |events|
  {
    ConsistentRecovers(cfg, d, committed);
    if events != [] {
      var e := events[0];
      if Commits(d, e) && !cfg.Readable(Records(e.records)) {
        UnreadableCommit(cfg, d, committed, e);
      } else {
        EventKeepsConsistent(cfg, d, committed, e);
        HistoryRecoversCommitted(cfg, Apply(cfg, d, e), Commit(d, committed, e), events[1..]);
      }
    }
  }

  /** Under an ample limit that is every history. */
  lemma {:induction false} AmpleHistoryRecovers(cfg: Config, d: Disk, committed: seq<Record>, events: seq<Event>)
    requires LimitIsAmple(cfg.maxStorageSizeBytes)
    requires Consistent(cfg, d, committed) && LegalRun(cfg, d, events)
    ensures AlwaysRecovers(cfg, d, committed, events)
    decreases |events|
  {
    ConsistentRecovers(cfg, d, committed);
    if events != [] {
      var e := events[0];
      if e.Flush? || e.FlushCrash? {
        AmpleLimitReads(cfg, e.records);
      }
      EventKeepsConsistent(cfg, d, committed, e);
      AmpleHistoryRecovers(cfg, Apply(cfg, d, e), Commit(d, committed, e), events[1..]);
    }
  }

  // ---- The store ----

  predicate IsBlank(key: string) {
    forall c :: c in key ==> IsSpace(c)
  }

  predicate ValidKey(key: string) {
    !IsBlank(key) && |key| <= 256 && '\0' !in key
  }

  function KeyIndex(records: seq<Record>, key: string): (i: nat)
    ensures i <= |records|
    ensures i < |records| ==> records[i].key == key
    ensures forall j :: 0 <= j < i ==> records[j].key != key
  {
    FirstIndex(records, (r: Record) => r.key == key)
  }

  /** Reads records one by one, dropping the damaged ones; a later record replaces an earlier one under its key. */
  method KeepIntact(raw: seq<Record>) returns (kept: seq<Record>)
    ensures kept == AsList(Filter(raw, IsIntact()))
  {
    kept := [];
    for i := 0 to |raw|
      invariant kept == AsList(Filter(raw[..i], IsIntact()))
    {
      assert raw[..i + 1][..i] == raw[..i];
      ghost var before, after := Filter(raw[..i], IsIntact()), Filter(raw[..i + 1], IsIntact());
      if Intact(raw[i]) {
        assert after == before + [raw[i]] && after[..|after| - 1] == before;
        kept := Put(kept, raw[i]);
      } else {
        assert after == before;
      }
    }
    assert raw[..|raw|] == raw;
  }

  /** A key is accepted when it has something besides white space, at most 256 characters, and no null character. */
  lemma ValidKeyMeaning(key: string)
    ensures ValidKey(key) <==> (exists i :: 0 <= i < |key| && !IsSpace(key[i])) && |key| < 257 && forall i :: 0 <= i < |key| ==> key[i] != '\0'
  {
    if exists c :: c in key && !IsSpace(c) {
      var c :| c in key && !IsSpace(c);
      var i :| 0 <= i < |key| && key[i] == c;
    }
    assert forall i :: 0 <= i < |key| ==> key[i] in key;
  }

  /** What a load finds under a key after a save that answered ok, on a readable set: the saved data. */
  lemma SavedIsRecovered(cfg: Config, d: Disk, records: seq<Record>, key: string, data: string)
    requires var after := Put(records, Record(key, data, true, true));
      Good(records) && cfg.Fits(after) && cfg.Readable(Records(after))
    ensures var r := Recovered(cfg, AfterFlush(d, Put(records, Record(key, data, true, true))));
      r.Loaded? && RecordOf(r.records, key) == Some(Record(key, data, true, true))
  {
    var r := Record(key, data, true, true);
    PutKeepsGood(records, r);
    PutIsFound(records, r);
    RenamedIsNew(cfg, d, Put(records, r));
  }

  /** Whatever a load yields passed its schema and checksum, record by record; and a primary that holds another record is not loaded. */
  lemma RecoveredIsIntact(cfg: Config, d: Disk)
    requires Recovered(cfg, d).Loaded?
    ensures forall r :: r in Recovered(cfg, d).records ==> r.schemaOk && r.checksumOk
  {
    if d.primary.Sealed? && Loads(cfg, d.primary) {
      ListIsGood(d.primary.contents.records);
    } else if Usable(cfg, d.lkg) {
      SalvageIsGood(d.lkg);
    }
  }

  lemma LoadsMeaning(cfg: Config, f: File)
    ensures Loads(cfg, f) <==>
      && f.Sealed? && f.contents.Records? && SealedSize(cfg.jsonSize(f.contents)) <= 2 * cfg.maxStorageSizeBytes
      && forall k :: 0 <= k < |f.contents.records| ==> f.contents.records[k].schemaOk && f.contents.records[k].checksumOk
  {
    if f.Sealed? && f.contents.Records? {
      var records := f.contents.records;
      assert forall k :: 0 <= k < |records| ==> records[k] in records;
      if forall k :: 0 <= k < |records| ==> records[k].schemaOk && records[k].checksumOk {
        forall r | r in records ensures Intact(r) {
          var k :| 0 <= k < |records| && records[k] == r;
        }
      } else {
        var k :| 0 <= k < |records| && !(records[k].schemaOk && records[k].checksumOk);
        assert !Intact(records[k]);
      }
    }
  }

  /** What a restore keeps under a key is the last record with it that passes schema and checksum. */
  lemma SalvageMeaning(f: File, key: string)
    requires f.Sealed? && f.contents.Records?
    ensures RecordOf(Salvage(f), key) == LastWith(Filter(f.contents.records, (r: Record) => r.schemaOk && r.checksumOk), key)
  {
    LastOneWins(Filter(f.contents.records, IsIntact()), key);
    SamePredicate(f.contents.records, IsIntact(), (r: Record) => r.schemaOk && r.checksumOk);
  }

  lemma SamePredicate(s: seq<Record>, p: Record -> bool, q: Record -> bool)
    requires forall r :: p(r) <==> q(r)
    ensures Filter(s, p) == Filter(s, q)
  {
  }

  /** Up to the rename every micro-step of a flush leaves the primary alone, and the rename comes after the whole temporary file. */
  lemma PrimaryChangesLast(d: Disk, records: seq<Record>, k: nat)
    requires k < |FlushTrace(d, records)|
    ensures var t := FlushTrace(d, records);
      && (k < |t| - 1 ==> t[k].primary == d.primary)
      && t[|t| - 2].tmp == Seal(records) && t[|t| - 1] == t[|t| - 2].(primary := Seal(records), tmp := Absent)
  {
  }

  /** Reads the records of a primary; one that fails schema or checksum makes the load fail. */
  method ReadAll(raw: seq<Record>) returns (r: Option<seq<Record>>)
    ensures r.Some? <==> forall x :: x in raw ==> x.schemaOk && x.checksumOk
    ensures r.Some? ==> r.value == AsList(raw)
  {
    var list: seq<Record> := [];
    for i := 0 to |raw|
      invariant forall j :: 0 <= j < i ==> raw[j].schemaOk && raw[j].checksumOk
      invariant list == AsList(raw[..i])
    {
      assert raw[..i + 1][..i] == raw[..i];
      if !raw[i].schemaOk || !raw[i].checksumOk {
        return None;
      }
      list := Put(list, raw[i]);
    }
    assert raw[..|raw|] == raw;
    return Some(list);
  }

  class EncryptedStateStore {
    const cfg: Config
    var records: seq<Record>
    var disk: Disk
    var isLoaded: bool
    var corruptedRecoveryCount: nat

    constructor (cfg: Config, disk: Disk)
      ensures this.cfg == cfg && this.disk == disk && records == [] && !isLoaded && corruptedRecoveryCount == 0
    {
      this.cfg := cfg;
      this.disk := disk;
      records, isLoaded, corruptedRecoveryCount := [], false, 0;
    }

    ghost predicate Valid()
      reads this
    {
      Good(records)
    }

    /** One flush without a crash; a record set over the limit leaves the disk untouched. */
    method FlushInternal() returns (ok: bool)
      modifies this`disk, this`isLoaded
      ensures ok <==> cfg.Fits(records)
      ensures ok <==> cfg.jsonSize(Records(records)) <= cfg.maxStorageSizeBytes
      ensures disk == if ok then AfterFlush(old(disk), records) else old(disk)
      ensures isLoaded == (ok || old(isLoaded))
    {
      if !cfg.Fits(records) {
        return false;
      }
      if Opens(disk.primary) {
        disk := disk.(lkg := disk.primary);
      }
      disk := disk.(tmp := Seal(records));
      disk := disk.(primary := disk.tmp, tmp := Absent);
      isLoaded := true;
      return true;
    }

    /** Restores from the LKG file; the intact records become the new primary. */
    method RestoreLKG() returns (ok: bool)
      requires Valid()
      modifies this
      ensures Valid()
      ensures ok <==> Usable(cfg, old(disk.lkg))
      ensures ok ==> records == Salvage(old(disk.lkg)) && disk == AfterFlush(old(disk), records)
      ensures !ok ==> disk == old(disk)
    {
      match disk.lkg {
        case Absent => return false;
        case Garbage => return false;
        case Sealed(contents) =>
          if contents.NotArray? {
            return false;
          }
          SalvageIsGood(disk.lkg);
          records := KeepIntact(contents.records);
          corruptedRecoveryCount := corruptedRecoveryCount + 1;
          ok := FlushInternal();
      }
    }

    /** Loads, falling back to the LKG file; the answer and the disk are those of the trace above. */
    method LoadFromDisk() returns (ok: bool)
      requires Valid()
      modifies this
      ensures Valid() && isLoaded
      ensures ok <==> Recovered(cfg, old(disk)).Loaded?
      ensures ok ==> Loaded(records) == Recovered(cfg, old(disk))
      ensures disk == Last(LoadTrace(cfg, old(disk)))
    {
      isLoaded := true;
      disk := disk.(tmp := Absent);
      if disk.primary.Absent? {
        var restored := RestoreLKG();
        if !restored {
          records := [];
        }
        isLoaded := true;
        return true;
      }
      if disk.primary.Sealed? && cfg.Readable(disk.primary.contents) && disk.primary.contents.Records? {
        var read := ReadAll(disk.primary.contents.records);
        if read.Some? {
          ListIsGood(disk.primary.contents.records);
          records := read.value;
          return true;
        }
      }
      ok := RestoreLKG();
      if !ok {
        records := [];
      }
      isLoaded := true;
    }

    /** The checks before the record is stored: key, count, size of the value. */
    predicate Accepts(key: string, data: string)
      reads this
    {
      && ValidKey(key) && cfg.valueSize(data) <= cfg.maxStorageSizeBytes
      && (|records| < cfg.maxRecords || KeyIndex(records, key) < |records|)
    }

    /**
     * Stores one record and flushes. A record that is not accepted changes nothing; one that makes
     * the whole store exceed its limit stays in memory, but the disk is left alone.
     */
    method SaveRecord(key: string, data: string) returns (ok: bool)
      requires Valid()
      modifies this
      ensures Valid()
      ensures records == if old(Accepts(key, data)) then Put(old(records), Record(key, data, true, true)) else old(records)
      ensures old(Accepts(key, data)) ==> RecordOf(records, key) == Some(Record(key, data, true, true))
      ensures key == "" || |key| > 256 || '\0' in key || (forall c :: c in key ==> IsSpace(c)) ==> !ok && records == old(records)
      ensures ok <==> old(Accepts(key, data)) && cfg.Fits(records)
      ensures disk == if ok then AfterFlush(old(disk), records) else old(disk)
    {
      if !ValidKey(key) {
        return false;
      }
      if |records| >= cfg.maxRecords && KeyIndex(records, key) == |records| {
        return false;
      }
      if cfg.valueSize(data) > cfg.maxStorageSizeBytes {
        return false;
      }
      PutKeepsGood(records, Record(key, data, true, true));
      PutIsFound(records, Record(key, data, true, true));
      records := Put(records, Record(key, data, true, true));
      ok := FlushInternal();
    }

    method DeleteRecord(key: string) returns (deleted: bool, flushed: bool)
      requires Valid()
      modifies this
      ensures Valid()
      ensures deleted <==> KeyIndex(old(records), key) < |old(records)|
      ensures deleted ==> records == Without(old(records), KeyIndex(old(records), key))
      ensures !deleted ==> records == old(records) && disk == old(disk)
      ensures flushed <==> deleted && cfg.Fits(records)
      ensures disk == if flushed then AfterFlush(old(disk), records) else old(disk)
    {
      var i := KeyIndex(records, key);
      if i == |records| {
        return false, false;
      }
      records := Without(records, i);
      flushed := FlushInternal();
      deleted := true;
    }
  }
}
