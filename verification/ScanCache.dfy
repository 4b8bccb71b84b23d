/** The validated-scan cache, and the scan that uses it. */
module ScanCache {
  import opened Results
  import opened Git
  import opened ScanRecords

  const PUT_BATCH := 128

  /** A file identity; the metadata stands for device, inode, mtime and ctime. */
  datatype Identity = Identity(relativePath: Path, size: nat, metadata: string)

  /** Everything a cached verdict depends on besides the bytes. The epoch hash is modelled by its contents. */
  datatype Epoch = Epoch(schema: string, validator: string, registry: Registry, home: string)

  /** The integrity digest, modelled by its contents. */
  datatype Integrity = Integrity(payload: Payload, identity: Identity, epoch: Epoch)

  datatype Row = Row(epoch: Epoch, identity: Identity, payload: Payload, integrity: Integrity)

  type Rows = map<Path, Row>

  /** The code behind each validator fingerprint, and the bytes behind each file identity. */
  datatype Facts = Facts(code: string -> Rules, bytes: Identity -> string)

  ghost predicate FactsOk(facts: Facts) { forall v :: JsonOk(facts.code(v)) }

  /** The row's payload is what validating the file would give under the row's own epoch. */
  ghost predicate Honest(facts: Facts, row: Row) {
    var rules := facts.code(row.epoch.validator);
    var v := Validate(rules, row.epoch.registry, facts.bytes(row.identity), row.identity.relativePath);
    v.Ok? && row.payload == PayloadOf(rules, v.value)
  }

  /** A row whose integrity digest checks out is honest. A damaged row need only fail its digest. */
  ghost predicate RowOk(facts: Facts, p: Path, row: Row) {
    row.integrity == Integrity(row.payload, row.identity, row.epoch) ==> row.identity.relativePath == p && Honest(facts, row)
  }

  ghost predicate RowsOk(facts: Facts, rows: Rows) {
    forall p | p in rows :: RowOk(facts, p, rows[p])
  }

  /** What a reader of `epoch` finds under a path: a row of that epoch whose digest matches. */
  function Lookup(rows: Rows, epoch: Epoch, p: Path): Option<(Identity, Payload)> {
    if p in rows && rows[p].epoch == epoch && Integrity(rows[p].payload, rows[p].identity, epoch) == rows[p].integrity
    then Some((rows[p].identity, rows[p].payload)) else None
  }

  /** Changing stored columns of a row behind its digest: no reader of any epoch finds the row, and the table stays
      trustworthy. */
  lemma DamageIsHarmless(facts: Facts, rows: Rows, p: Path, damaged: Row, epoch: Epoch)
    requires RowsOk(facts, rows) && p in rows && rows[p].integrity == Integrity(rows[p].payload, rows[p].identity, rows[p].epoch)
    requires damaged.integrity == rows[p].integrity && damaged != rows[p]
    ensures Lookup(rows[p := damaged], epoch, p) == None && RowsOk(facts, rows[p := damaged])
    ensures forall q | q != p :: Lookup(rows[p := damaged], epoch, q) == Lookup(rows, epoch, q)
  {}

  /** The durable database: its header and the committed rows. */
  class CacheDb {
    var header: Option<Epoch>
    var rows: Rows

    constructor ()
      ensures header == None && rows == map[]
    {
      header, rows := None, map[];
    }
  }

  /** An opened cache. While a put batch is open the handle works on `batch`; dropping the handle loses it. */
  class OpenScanCache {
    const db: CacheDb
    const epoch: Epoch
    var batch: Rows
    var openTransaction: bool
    var pendingInTransaction: nat
    var committedPuts: nat
    var closed: bool

    ghost predicate Valid(facts: Facts)
      reads this, db
    {
      && RowsOk(facts, db.rows) && RowsOk(facts, batch)
      && (!openTransaction ==> pendingInTransaction == 0)
      && pendingInTransaction < PUT_BATCH
      && (closed ==> !openTransaction)
    }

    /** The rows this handle sees. */
    function View(): Rows
      reads this, db
    {
      if openTransaction then batch else db.rows
    }

    /** `openL1ValidatedScanCache`: a header of another epoch empties the table. */
    constructor (db: CacheDb, epoch: Epoch, ghost facts: Facts)
      requires RowsOk(facts, db.rows)
      modifies db
      ensures this.db == db && this.epoch == epoch && Valid(facts) && !closed && !openTransaction && committedPuts == 0
      ensures db.header == Some(epoch)
      ensures db.rows == if old(db.header) == Some(epoch) then old(db.rows) else map[]
    {
      this.db, this.epoch := db, epoch;
      batch, openTransaction, pendingInTransaction, committedPuts, closed := map[], false, 0, 0, false;
      new;
      if db.header != Some(epoch) { db.header, db.rows := Some(epoch), map[]; }
    }

    /** A row counts only under the live epoch and with a matching digest. */
    method Get(relativePath: Path, ghost facts: Facts) returns (hit: Option<(Identity, Payload)>)
      requires Valid(facts)
      ensures hit.Some? ==>
                && hit.value.0.relativePath == relativePath
                && Honest(facts, Row(epoch, hit.value.0, hit.value.1, Integrity(hit.value.1, hit.value.0, epoch)))
      ensures hit == Lookup(View(), epoch, relativePath)
    {
      var rows := View();
      if relativePath !in rows { return None; }
      var row := rows[relativePath];
      assert RowOk(facts, relativePath, row);
      if row.epoch != epoch { return None; }
      if Integrity(row.payload, row.identity, epoch) != row.integrity { return None; }
      hit := Some((row.identity, row.payload));
    }

    /** `put`. When the database refuses the write, the open batch is rolled back. */
    method Put(identity: Identity, payload: Payload, works: bool, ghost facts: Facts)
      requires Valid(facts) && !closed
      requires Honest(facts, Row(epoch, identity, payload, Integrity(payload, identity, epoch)))
      modifies this, db
      ensures Valid(facts) && closed == old(closed) && db.header == old(db.header)
      ensures !works ==> db.rows == old(db.rows) && View() == db.rows
      ensures works ==> View() == old(View())[identity.relativePath := Row(epoch, identity, payload, Integrity(payload, identity, epoch))]
      ensures works ==> if old(pendingInTransaction) + 1 == PUT_BATCH then !openTransaction && committedPuts == old(committedPuts) + PUT_BATCH
                        else db.rows == old(db.rows) && pendingInTransaction == old(pendingInTransaction) + 1
    {
      if !works {
        Rollback(facts);
        return;
      }
      if !openTransaction {
        batch, openTransaction, pendingInTransaction := db.rows, true, 0;
      }
      batch := batch[identity.relativePath := Row(epoch, identity, payload, Integrity(payload, identity, epoch))];
      pendingInTransaction := pendingInTransaction + 1;
      if pendingInTransaction >= PUT_BATCH {
        db.rows := batch;
        committedPuts := committedPuts + pendingInTransaction;
        openTransaction, pendingInTransaction := false, 0;
      }
    }

    method Rollback(ghost facts: Facts)
      requires Valid(facts)
      modifies `openTransaction, `pendingInTransaction
      ensures Valid(facts) && !openTransaction
    {
      openTransaction, pendingInTransaction := false, 0;
    }

    /** `flush`: commit the open batch. When the database refuses, the batch is rolled back and the error thrown. */
    method Flush(works: bool, ghost facts: Facts) returns (flushed: bool)
      requires Valid(facts)
      modifies this, db
      ensures Valid(facts) && !openTransaction && closed == old(closed) && db.header == old(db.header)
      ensures flushed <==> works || !old(openTransaction)
      ensures db.rows == View() == if flushed then old(View()) else old(db.rows)
      ensures committedPuts == old(committedPuts) + if flushed then old(pendingInTransaction) else 0
    {
      if closed || !openTransaction { return true; }
      if !works {
        Rollback(facts);
        return false;
      }
      db.rows := batch;
      committedPuts := committedPuts + pendingInTransaction;
      openTransaction, pendingInTransaction := false, 0;
      flushed := true;
    }

    /** `retainOnly`: drop this epoch's rows of files that are gone. Neither the flush before it nor the clean-up
        itself need work; their errors are swallowed. */
    method RetainOnly(live: set<Path>, commits: bool, cleans: bool, ghost facts: Facts)
      requires Valid(facts)
      modifies this, db
      ensures Valid(facts) && !openTransaction && closed == old(closed) && db.header == old(db.header)
      ensures var kept := if commits || !old(openTransaction) then old(View()) else old(db.rows);
              db.rows == if cleans && (commits || !old(openTransaction)) then kept - StalePaths(kept, live, epoch) else kept
    {
      var flushed := Flush(commits, facts);
      if !flushed { return; }
      if cleans { db.rows := db.rows - StalePaths(db.rows, live, epoch); }
    }

    /** `close`: a commit that fails loses the open batch and is swallowed. */
    method Close(commits: bool, ghost facts: Facts)
      requires Valid(facts)
      modifies this, db
      ensures Valid(facts) && closed && db.header == old(db.header)
      ensures db.rows == if commits || !old(openTransaction) then old(View()) else old(db.rows)
    {
      var _ := Flush(commits, facts);
      closed := true;
    }
  }

  function StalePaths(rows: Rows, live: set<Path>, epoch: Epoch): set<Path> {
    set p | p in rows && rows[p].epoch == epoch && p !in live
  }

  // ---------- the scan ----------

  /** A listed file: what lstat says, its identity when that could be read, and its bytes. */
  datatype File = File(relativePath: Path, regular: bool, size: nat, identity: Option<Identity>, raw: string)

  /** The identity is the file's, and it determines the bytes. */
  ghost predicate FileOk(facts: Facts, f: File) {
    f.identity.Some? ==>
      f.identity.value.relativePath == f.relativePath && f.raw == facts.bytes(f.identity.value) && f.identity.value.size == f.size
  }

  datatype Options = Options(epoch: Epoch, filter: Filter, maxEventBytes: nat)

  /** One file without a cache. */
  function ScanFile(rules: Rules, o: Options, f: File): Result<Validated, ScanError> {
    if !f.regular then Err(NonRegular)
    else if f.size > o.maxEventBytes then Err(EventTooLarge)
    else Validate(rules, o.epoch.registry, f.raw, f.relativePath)
  }

  function EventIds(records: seq<ScanRecord>): set<string> {
    set r | r in records :: r.validated.eventId
  }

  lemma NoRecords()
    ensures EventIds([]) == {}
  {}

  lemma EventIdsNext(records: seq<ScanRecord>, next: ScanRecord)
    ensures EventIds(records + [next]) == EventIds(records) + {next.validated.eventId}
  {}

  /** The records of the first files, or the first error: the scan without a cache. */
  function ScanWithout(rules: Rules, o: Options, files: seq<File>): Result<seq<ScanRecord>, ScanError> {
    if |files| == 0 then Ok([])
    else
      var last := |files| - 1;
      var before := ScanWithout(rules, o, files[..last]);
      if before.Err? then before
      else
        var v := ScanFile(rules, o, files[last]);
        if v.Err? then Err(v.error)
        else if v.value.eventId in EventIds(before.value) then Err(EventDuplicate)
        else Ok(before.value + [ScanRecord(v.value, Classify(v.value.registration, o.filter))])
  }

  /** An error on a prefix is the error of the whole scan. */
  lemma {:induction false} ErrorStays(rules: Rules, o: Options, files: seq<File>, i: nat)
    requires i <= |files| && ScanWithout(rules, o, files[..i]).Err?
    ensures ScanWithout(rules, o, files) == ScanWithout(rules, o, files[..i])
  {
    if i == |files| {
      assert files[..i] == files;
    } else {
      assert files[..|files| - 1][..i] == files[..i];
      ErrorStays(rules, o, files[..|files| - 1], i);
    }
  }

  /** Which of the database's writes work: the put of each file, the last commit, and the clean-up. */
  datatype Disk = Disk(puts: nat -> bool, commits: bool, cleans: bool)

  /** Every file has an identity and its own path, and no put or commit fails. */
  ghost predicate AllPut(files: seq<File>, disk: Disk) {
    && (forall f | f in files :: f.identity.Some?)
    && (forall i, j | 0 <= i < j < |files| :: files[i].relativePath != files[j].relativePath)
    && (forall i :: disk.puts(i)) && disk.commits
  }

  lemma AllPutCommits(files: seq<File>, disk: Disk)
    ensures AllPut(files, disk) ==> disk.commits
  {}

  /** The file's envelope, if it is valid, survives being written out and read again. */
  predicate Survives(rules: Rules, o: Options, f: File) {
    var v := Validate(rules, o.epoch.registry, f.raw, f.relativePath);
    v.Ok? ==> RoundTrips(rules, v.value.envelope)
  }

  ghost predicate AllSurvive(rules: Rules, o: Options, files: seq<File>) {
    forall f | f in files :: Survives(rules, o, f)
  }

  /** The same records, some of them read back from JSON. */
  ghost predicate Alike(rules: Rules, plain: seq<ScanRecord>, records: seq<ScanRecord>) {
    && |records| == |plain|
    && forall i | 0 <= i < |records| ::
         records[i] == plain[i] || records[i] == plain[i].(validated := ReadBack(rules, plain[i].validated))
  }

  lemma AlikeIds(rules: Rules, plain: seq<ScanRecord>, records: seq<ScanRecord>)
    requires Alike(rules, plain, records)
    ensures EventIds(records) == EventIds(plain)
  {
    forall id ensures id in EventIds(records) <==> id in EventIds(plain) {
      if r :| r in records && r.validated.eventId == id {
        var i :| 0 <= i < |records| && records[i] == r;
        assert plain[i] in plain;
      }
      if r :| r in plain && r.validated.eventId == id {
        var i :| 0 <= i < |plain| && plain[i] == r;
        assert records[i] in records;
      }
    }
  }

  /** How a scan is cut short: the process dies, or its time budget runs out, before file `at`. */
  datatype ScanStop = BadRecord(error: ScanError) | BudgetExhausted

  datatype Interrupt = Never | DiesBefore(at: nat) | BudgetEndsBefore(at: nat)

  datatype Stats = Stats(hits: nat, misses: nat)

  /** The row of a file that a later scan under the same epoch will find. */
  ghost predicate Warm(facts: Facts, o: Options, rows: Rows, f: File) {
    var rules := facts.code(o.epoch.validator);
    var v := Validate(rules, o.epoch.registry, f.raw, f.relativePath);
    && f.identity.Some? && f.relativePath in rows && v.Ok?
    && rows[f.relativePath] == Row(o.epoch, f.identity.value, PayloadOf(rules, v.value),
                                   Integrity(PayloadOf(rules, v.value), f.identity.value, o.epoch))
  }

  ghost predicate WarmUpTo(facts: Facts, o: Options, rows: Rows, files: seq<File>, i: nat) {
    i <= |files| && forall k | 0 <= k < i :: Warm(facts, o, rows, files[k])
  }

  lemma WarmKept(facts: Facts, o: Options, rows: Rows, next: Rows, files: seq<File>, i: nat)
    requires i < |files| && WarmUpTo(facts, o, rows, files, i) && Warm(facts, o, next, files[i])
    requires forall p | p != files[i].relativePath :: Get(next, p) == Get(rows, p)
    requires forall a, b | 0 <= a < b < |files| :: files[a].relativePath != files[b].relativePath
    ensures WarmUpTo(facts, o, next, files, i + 1)
  {
    forall k | 0 <= k < i ensures Warm(facts, o, next, files[k]) {
      assert Get(next, files[k].relativePath) == Get(rows, files[k].relativePath);
    }
  }

  /** The same, for the file just scanned. */
  lemma WarmStep(facts: Facts, o: Options, rows: Rows, next: Rows, files: seq<File>, i: nat, disk: Disk)
    requires i < |files| && (AllPut(files, disk) ==> WarmUpTo(facts, o, rows, files, i))
    requires disk.puts(i) && files[i].identity.Some? ==> Warm(facts, o, next, files[i])
    requires disk.puts(i) ==> forall p | p != files[i].relativePath :: Get(next, p) == Get(rows, p)
    ensures AllPut(files, disk) ==> WarmUpTo(facts, o, next, files, i + 1)
  {
    if AllPut(files, disk) {
      assert files[i] in files;
      WarmKept(facts, o, rows, next, files, i);
    }
  }

  lemma NoneWarm(facts: Facts, o: Options, rows: Rows, files: seq<File>)
    ensures WarmUpTo(facts, o, rows, files, 0)
  {}

  lemma WarmAt(facts: Facts, o: Options, rows: Rows, files: seq<File>, i: nat)
    requires i < |files|
    ensures WarmUpTo(facts, o, rows, files, |files|) ==> Warm(facts, o, rows, files[i])
  {}

  lemma WarmAfterCleanup(facts: Facts, o: Options, rows: Rows, files: seq<File>, live: set<Path>)
    requires forall f | f in files && f.identity.Some? :: f.relativePath in live
    ensures WarmUpTo(facts, o, rows, files, |files|) ==> WarmUpTo(facts, o, rows - StalePaths(rows, live, o.epoch), files, |files|)
  {}

  /** One file through the cache: the verdict without it, or, when a trusted row answers, that verdict read back. */
  method ScanFileCached(facts: Facts, o: Options, f: File, cache: OpenScanCache, putWorks: bool, stats: Stats)
    returns (r: Result<Validated, ScanError>, now: Stats)
    requires FactsOk(facts) && FileOk(facts, f) && cache.Valid(facts) && !cache.closed && cache.epoch == o.epoch
    modifies cache, cache.db
    ensures var rules := facts.code(o.epoch.validator);
            match ScanFile(rules, o, f)
            case Err(e) => r == Err(e)
            case Ok(v) => r == Ok(v) || r == Ok(ReadBack(rules, v))
    ensures Survives(facts.code(o.epoch.validator), o, f) ==> r == ScanFile(facts.code(o.epoch.validator), o, f)
    ensures old(Warm(facts, o, cache.View(), f)) && r.Ok? ==>
              (r == ScanFile(facts.code(o.epoch.validator), o, f) <==> Survives(facts.code(o.epoch.validator), o, f))
    ensures cache.Valid(facts) && !cache.closed
    ensures r.Ok? ==> now.hits + now.misses == stats.hits + stats.misses + 1
    ensures old(Warm(facts, o, cache.View(), f)) ==> now.misses == stats.misses && cache.View() == old(cache.View())
    ensures r.Ok? && putWorks && f.identity.Some? ==> Warm(facts, o, cache.View(), f)
    ensures putWorks ==> forall p | p != f.relativePath :: Get(cache.View(), p) == Get(old(cache.View()), p)
  {
    now := stats;
    var rules := facts.code(o.epoch.validator);
    if !f.regular { return Err(NonRegular), now; }
    if f.size > o.maxEventBytes { return Err(EventTooLarge), now; }
    if f.identity.Some? {
      var hit := cache.Get(f.relativePath, facts);
      if hit.Some? && hit.value.0 == f.identity.value && hit.value.0.size <= o.maxEventBytes {
        // A trusted row always rebuilds, so no hit is ever revalidated.
        HitIsRight(facts, o, f, hit.value.1);
        var rebuilt := Reconstruct(rules, o.epoch.registry, hit.value.1, f.relativePath);
        now := now.(hits := now.hits + 1);
        return Ok(rebuilt.value), now;
      }
    }
    now := now.(misses := now.misses + 1);
    r := Validate(rules, o.epoch.registry, f.raw, f.relativePath);
    if r.Ok? && f.identity.Some? {
      cache.Put(f.identity.value, PayloadOf(rules, r.value), putWorks, facts);
    }
  }

  /** A trusted row for the file's own identity rebuilds the record a fresh validation would give, read back. */
  lemma HitIsRight(facts: Facts, o: Options, f: File, payload: Payload)
    requires FactsOk(facts) && FileOk(facts, f) && f.identity.Some?
    requires Honest(facts, Row(o.epoch, f.identity.value, payload, Integrity(payload, f.identity.value, o.epoch)))
    ensures var rules := facts.code(o.epoch.validator);
            var v := Validate(rules, o.epoch.registry, f.raw, f.relativePath);
            && v.Ok? && Reconstruct(rules, o.epoch.registry, payload, f.relativePath) == Some(ReadBack(rules, v.value))
            && (ReadBack(rules, v.value) == v.value <==> Survives(rules, o, f))
  {
    ReconstructReadsBack(facts.code(o.epoch.validator), o.epoch.registry, f.raw, f.relativePath);
  }

  /** The answer with a cache against the scan without one: the same error, or the same records, read back where a
      row answered for an envelope that does not survive JSON. */
  ghost predicate Answers(rules: Rules, o: Options, files: seq<File>, r: Result<seq<ScanRecord>, ScanError>) {
    match ScanWithout(rules, o, files)
    case Err(e) => r == Err(e)
    case Ok(plain) => r.Ok? && Alike(rules, plain, r.value) && (AllSurvive(rules, o, files) ==> r.value == plain)
  }

  lemma ClassifiesRight(role: Registration, filter: Filter)
    ensures ClassedBy(Classify(role, filter), role, filter)
  {}

  lemma NothingScanned(rules: Rules, o: Options)
    ensures Answers(rules, o, [], Ok([]))
  {}

  /** One more file. */
  lemma AnswersNext(rules: Rules, o: Options, files: seq<File>, i: nat, records: seq<ScanRecord>, r: Result<Validated, ScanError>)
    requires i < |files| && Answers(rules, o, files[..i], Ok(records))
    requires match ScanFile(rules, o, files[i])
             case Err(e) => r == Err(e)
             case Ok(v) => r == Ok(v) || r == Ok(ReadBack(rules, v))
    requires Survives(rules, o, files[i]) ==> r == ScanFile(rules, o, files[i])
    ensures r.Err? ==> Answers(rules, o, files, Err(r.error))
    ensures r.Ok? && r.value.eventId in EventIds(records) ==> Answers(rules, o, files, Err(EventDuplicate))
    ensures r.Ok? && r.value.eventId !in EventIds(records) ==>
              Answers(rules, o, files[..i + 1], Ok(records + [ScanRecord(r.value, Classify(r.value.registration, o.filter))]))
  {
    hide ScanFile, Classify, Validate, Survives, EventIds;
    var upTo := files[..i + 1];
    assert upTo[..i] == files[..i] && upTo[i] == files[i];
    AlikeIds(rules, ScanWithout(rules, o, files[..i]).value, records);
    if ScanWithout(rules, o, upTo).Err? { ErrorStays(rules, o, files, i + 1); }
    assert AllSurvive(rules, o, upTo) ==> AllSurvive(rules, o, files[..i]) && Survives(rules, o, files[i]) by {
      assert files[i] == upTo[i] && upTo[i] in upTo;
      assert forall f | f in files[..i] :: f in upTo;
    }
  }

  /** The scan with a cache answers as the scan without one does, and leaves rows that later scans may trust,
      whether it finishes, fails, runs out of budget or dies. */
  method ScanWholeL1Validated(facts: Facts, o: Options, files: seq<File>, db: CacheDb, disk: Disk, interrupt: Interrupt)
    returns (r: Ending<seq<ScanRecord>, ScanStop>, stats: Stats)
    requires FactsOk(facts) && (forall f | f in files :: FileOk(facts, f)) && RowsOk(facts, db.rows)
    modifies db
    ensures RowsOk(facts, db.rows)
    ensures match r
            case Crashed => interrupt.DiesBefore?
            case Threw(BudgetExhausted) => interrupt.BudgetEndsBefore? && interrupt.at < |files|
            case Threw(BadRecord(e)) => Answers(facts.code(o.epoch.validator), o, files, Err(e))
            case Done(records) => Answers(facts.code(o.epoch.validator), o, files, Ok(records)) && stats.hits + stats.misses == |files|
    ensures r.Done? ==> |r.value| == |files| && forall i | 0 <= i < |files| ::
              ClassedBy(r.value[i].classification, r.value[i].validated.registration, o.filter)
    ensures AllPut(files, disk) && r.Done? ==> WarmUpTo(facts, o, db.rows, files, |files|)
    ensures AllPut(files, disk) && r == Threw(BudgetExhausted) ==> WarmUpTo(facts, o, db.rows, files, interrupt.at)
    ensures old(db.header) == Some(o.epoch) && WarmUpTo(facts, o, old(db.rows), files, |files|) && r.Done? ==> stats.misses == 0
  {
    hide ClassedBy, ScanFile, Validate, Classify, RowsOk, FactsOk, FileOk, EventIds, Warm, WarmUpTo, AllPut, StalePaths, Answers, Survives, ReadBack;
    var rules := facts.code(o.epoch.validator);
    var cache := new OpenScanCache(db, o.epoch, facts);
    var records: seq<ScanRecord> := [];
    var seen: set<string> := {};
    stats := Stats(0, 0);
    NoRecords();
    NothingScanned(rules, o);
    AllPutCommits(files, disk);
    assert files[..0] == [];
    assert WarmUpTo(facts, o, cache.View(), files, 0) by { NoneWarm(facts, o, cache.View(), files); }
    for i := 0 to |files|
      invariant cache.Valid(facts) && !cache.closed && cache.db == db && cache.epoch == o.epoch && fresh(cache)
      invariant Answers(rules, o, files[..i], Ok(records))
      invariant seen == EventIds(records)
      invariant |records| == i && forall k | 0 <= k < i ::
                  ClassedBy(records[k].classification, records[k].validated.registration, o.filter)
      invariant AllPut(files, disk) ==> WarmUpTo(facts, o, cache.View(), files, i)
      invariant old(db.header) == Some(o.epoch) && WarmUpTo(facts, o, old(db.rows), files, |files|) ==> stats.misses == 0 && cache.View() == old(db.rows)
      invariant stats.hits + stats.misses == i
    {
      if interrupt == DiesBefore(i) { return Crashed, stats; }
      if interrupt == BudgetEndsBefore(i) {
        cache.Close(disk.commits, facts);
        return Threw(BudgetExhausted), stats;
      }
      assert files[i] in files;
      ghost var rows := cache.View();
      WarmAt(facts, o, old(db.rows), files, i);
      var validated;
      validated, stats := ScanFileCached(facts, o, files[i], cache, disk.puts(i), stats);
      AnswersNext(rules, o, files, i, records, validated);
      if validated.Err? {
        cache.Close(disk.commits, facts);
        return Threw(BadRecord(validated.error)), stats;
      }
      WarmStep(facts, o, rows, cache.View(), files, i, disk);
      var v := validated.value;
      if v.eventId in seen {
        cache.Close(disk.commits, facts);
        return Threw(BadRecord(EventDuplicate)), stats;
      }
      assert ClassedBy(Classify(v.registration, o.filter), v.registration, o.filter) by { ClassifiesRight(v.registration, o.filter); }
      EventIdsNext(records, ScanRecord(v, Classify(v.registration, o.filter)));
      seen := seen + {v.eventId};
      records := records + [ScanRecord(v, Classify(v.registration, o.filter))];
    }
    assert files[..|files|] == files;
    var live := set f | f in files && f.identity.Some? :: f.relativePath;
    WarmAfterCleanup(facts, o, cache.View(), files, live);
    cache.RetainOnly(live, disk.commits, disk.cleans, facts);
    cache.Close(disk.commits, facts);
    r := Done(records);
  }

  datatype Scan = Scan(options: Options, files: seq<File>, disk: Disk, interrupt: Interrupt)

  /** Any run of scans over one database, by any versions of the code, each of which may die at any file and see any
      of its database writes fail: every answer is the one a scan without a cache gives. */
  method RunScans(facts: Facts, db: CacheDb, scans: seq<Scan>) returns (answers: seq<Ending<seq<ScanRecord>, ScanStop>>)
    requires FactsOk(facts) && RowsOk(facts, db.rows)
    requires forall i, f | 0 <= i < |scans| && f in scans[i].files :: FileOk(facts, f)
    modifies db
    ensures RowsOk(facts, db.rows) && |answers| == |scans|
    ensures forall i | 0 <= i < |scans| :: Agrees(facts, scans[i], answers[i])
  {
    answers := [];
    for i := 0 to |scans|
      invariant RowsOk(facts, db.rows) && |answers| == i
      invariant forall k | 0 <= k < i :: Agrees(facts, scans[k], answers[k])
    {
      var s := scans[i];
      var answer, _ := ScanWholeL1Validated(facts, s.options, s.files, db, s.disk, s.interrupt);
      answers := answers + [answer];
    }
  }

  ghost predicate Agrees(facts: Facts, s: Scan, answer: Ending<seq<ScanRecord>, ScanStop>) {
    var rules := facts.code(s.options.epoch.validator);
    match answer
    case Crashed => s.interrupt.DiesBefore?
    case Threw(BudgetExhausted) => s.interrupt.BudgetEndsBefore?
    case Threw(BadRecord(e)) => Answers(rules, s.options, s.files, Err(e))
    case Done(records) => Answers(rules, s.options, s.files, Ok(records))
  }
}
