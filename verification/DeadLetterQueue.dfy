/**
 The dead letter queue of indexer/src/error-recovery/DeadLetterQueue.ts: a list in memory, mirrored to a state
 file, and a terminal log; both files are replaced by writing a temporary file, syncing it and renaming it.
 A state file is represented by what JSON.parse makes of it.
 */
module DeadLetterQueue {
  import opened Sequences
  import opened Wrappers
  import opened Decimal

  datatype Entry = Entry(sequence: int, attemptCount: int, firstFailedAt: int, lastFailedAt: int, lastError: string)

  // ----- Files -----

  // An element of a persisted array either has the fields of an entry or is dropped on loading.
  datatype Persisted = Good(entry: Entry) | Malformed

  datatype Content =
    | Text(text: string)              // the terminal log
    | Entries(list: seq<Persisted>)   // a JSON array
    | NotAnArray                      // other JSON
    | Blank                           // nothing but white space
    | Torn                            // not JSON: cut short or corrupted

  // `synced`: the content has reached the disk.
  datatype File = File(content: Content, synced: bool)

  type Files = map<string, File>

  // What a crash can leave: synced files survive, the content of the others is lost.
  ghost predicate CrashesTo(files: Files, after: Files) {
    && after.Keys == files.Keys
    && forall path :: path in files && files[path].synced ==> after[path] == files[path]
  }

  class FileSystem {
    var files: Files
    ghost var history: seq<Files>   // every state the disk went through

    constructor (files: Files)
      ensures this.files == files && history == [files]
    {
      this.files := files;
      history := [files];
    }

    ghost predicate Valid()
      reads this
    {
      history != [] && history[|history| - 1] == files
    }

    method Open(path: string)
      requires Valid()
      modifies this
      ensures Valid() && files == old(files)[path := File(Blank, false)] && history == old(history) + [files]
    {
      files := files[path := File(Blank, false)];
      history := history + [files];
    }

    // A write is not atomic: part of the content may be there.
    method Write(path: string, content: Content)
      requires Valid() && path in files
      modifies this
      ensures Valid() && files == old(files)[path := File(content, false)]
      ensures history == old(history) + [old(files)[path := File(Torn, false)], files]
    {
      files := files[path := File(Torn, false)];
      history := history + [files];
      files := files[path := File(content, false)];
      history := history + [files];
    }

    method Fsync(path: string)
      requires Valid() && path in files
      modifies this
      ensures Valid() && files == old(files)[path := File(old(files)[path].content, true)]
              && history == old(history) + [files]
    {
      files := files[path := files[path].(synced := true)];
      history := history + [files];
    }

    method Rename(source: string, target: string)
      requires Valid() && source in files && source != target
      modifies this
      ensures Valid() && files == (old(files) - {source})[target := old(files)[source]]
              && history == old(history) + [files]
    {
      files := (files - {source})[target := files[source]];
      history := history + [files];
    }
  }

  function TmpPath(path: string, pid: nat, now: int): string {
    "." + path + "." + PrintInt(pid) + "." + PrintInt(now) + ".tmp"
  }

  lemma TmpPathIsNew(path: string, pid: nat, now: int)
    ensures TmpPath(path, pid, now) != path
  {
    assert |TmpPath(path, pid, now)| > |path|;
  }

  // Processes, and writes of one process at different times, never share a temporary file.
  lemma TmpPathsDiffer(path: string, pid: nat, now: int, pid': nat, now': int)
    requires TmpPath(path, pid, now) == TmpPath(path, pid', now')
    ensures pid == pid' && now == now'
  {
    TwoNumbersUnambiguous("." + path + ".", pid, ".", now, ".tmp", pid', now');
  }

  // On the way, only the temporary file differs from the files of before, or of after, the replacement.
  ghost predicate Replacing(before: Files, h: Files, path: string, tmp: string, content: Content) {
    h - {tmp} == before - {tmp} || h - {tmp} == (before - {tmp})[path := File(content, true)]
  }

  lemma OnlyThatFile(files: Files, path: string, f: File)
    ensures files[path := f] - {path} == files - {path}
  {
  }

  // Open, write and sync the temporary file; no other file changes.
  method WriteTemporary(fs: FileSystem, tmp: string, content: Content)
    requires fs.Valid()
    modifies fs
    ensures fs.Valid()
    ensures fs.files == old(fs.files)[tmp := File(content, true)]
    ensures old(fs.history) <= fs.history
    ensures forall k :: |old(fs.history)| <= k < |fs.history| ==> fs.history[k] - {tmp} == old(fs.files) - {tmp}
  {
    ghost var before := fs.files;
    fs.Open(tmp);
    OnlyThatFile(before, tmp, File(Blank, false));
    ghost var blank := fs.files;
    fs.Write(tmp, content);
    OnlyThatFile(blank, tmp, File(Torn, false));
    OnlyThatFile(blank, tmp, File(content, false));
    ghost var written := fs.files;
    fs.Fsync(tmp);
    OnlyThatFile(written, tmp, File(content, true));
    assert fs.files == before[tmp := File(content, true)];
  }

  // atomicWriteFile
  method AtomicWriteFile(fs: FileSystem, path: string, pid: nat, now: int, content: Content)
    requires fs.Valid()
    modifies fs
    ensures fs.Valid()
    ensures fs.files == (old(fs.files) - {TmpPath(path, pid, now)})[path := File(content, true)]
    ensures old(fs.history) <= fs.history
    ensures forall k :: |old(fs.history)| <= k < |fs.history| ==>
              Replacing(old(fs.files), fs.history[k], path, TmpPath(path, pid, now), content)
  {
    var tmp := TmpPath(path, pid, now);
    TmpPathIsNew(path, pid, now);
    ghost var before := fs.files;
    WriteTemporary(fs, tmp, content);
    OnlyThatFile(before, tmp, File(content, true));
    fs.Rename(tmp, path);
    assert fs.files - {tmp} == (before - {tmp})[path := File(content, true)];
  }

  function AppendLine(existing: string, line: string): string {
    (if existing == [] || existing[|existing| - 1] == '\n' then existing else existing + "\n") + line
  }

  function TextOf(files: Files, path: string): string {
    if path in files && files[path].content.Text? then files[path].content.text else ""
  }

  // atomicAppendLine
  method AtomicAppendLine(fs: FileSystem, path: string, pid: nat, now: int, line: string)
    requires fs.Valid()
    modifies fs
    ensures fs.Valid()
    ensures fs.files
            == (old(fs.files) - {TmpPath(path, pid, now)})
               [path := File(Text(AppendLine(TextOf(old(fs.files), path), line)), true)]
    ensures old(fs.history) <= fs.history
    ensures forall k :: |old(fs.history)| <= k < |fs.history| ==>
              Replacing(old(fs.files), fs.history[k], path, TmpPath(path, pid, now),
                Text(AppendLine(TextOf(old(fs.files), path), line)))
  {
    var existing := "";
    if path in fs.files && fs.files[path].content.Text? {
      existing := fs.files[path].content.text;
    }
    var next := if existing == [] || existing[|existing| - 1] == '\n' then existing else existing + "\n";
    AtomicWriteFile(fs, path, pid, now, Text(next + line));
  }

  // ----- Retries -----

  function Power(base: int, exponent: nat): int {
    if exponent == 0 then 1 else base * Power(base, exponent - 1)
  }

  // calculateBackoff; an attempt count is never negative here.
  function Backoff(baseDelayMs: int, attempt: int): int {
    Min(baseDelayMs * Power(2, Max(0, attempt)), 300_000)
  }

  predicate IsReady(e: Entry, now: int, maxRetries: int, baseDelayMs: int) {
    e.attemptCount < maxRetries && now >= e.lastFailedAt + Backoff(baseDelayMs, e.attemptCount)
  }

  // ----- The queue as a value -----

  ghost predicate Unique(q: seq<Entry>) {
    forall i, j :: 0 <= i < j < |q| ==> q[i].sequence != q[j].sequence
  }

  // The position of the first entry of a sequence, or |q|.
  function IndexOf(q: seq<Entry>, sequence: int): (i: nat)
    ensures i <= |q|
    ensures i < |q| ==> q[i].sequence == sequence
    ensures forall k :: 0 <= k < i ==> q[k].sequence != sequence
  {
    if q == [] || q[0].sequence == sequence then 0 else 1 + IndexOf(q[1..], sequence)
  }

  predicate Has(q: seq<Entry>, sequence: int) {
    IndexOf(q, sequence) < |q|
  }

  function Without(q: seq<Entry>, sequence: int): seq<Entry> {
    if q == [] then []
    else if q[0].sequence == sequence then Without(q[1..], sequence)
    else [q[0]] + Without(q[1..], sequence)
  }

  function Failing(e: Entry, error: string, now: int): Entry {
    e.(attemptCount := e.attemptCount + 1, lastFailedAt := now, lastError := error)
  }

  // The push makes a queued ledger fail for the last time.
  predicate IsTerminal(q: seq<Entry>, sequence: int, maxRetries: int) {
    Has(q, sequence) && q[IndexOf(q, sequence)].attemptCount + 1 >= maxRetries
  }

  function Pushed(q: seq<Entry>, sequence: int, error: string, now: int, maxRetries: int): seq<Entry> {
    var i := IndexOf(q, sequence);
    if i == |q| then q + [Entry(sequence, 1, now, now, error)]
    else if IsTerminal(q, sequence, maxRetries) then Without(q, sequence)
    else q[i := Failing(q[i], error, now)]
  }

  lemma HasMember(q: seq<Entry>, sequence: int)
    ensures Has(q, sequence) <==> exists e :: e in q && e.sequence == sequence
  {
    if Has(q, sequence) {
      assert q[IndexOf(q, sequence)] in q;
    }
  }

  lemma {:induction false} WithoutRemoves(q: seq<Entry>, sequence: int)
    ensures |Without(q, sequence)| <= |q| && !Has(Without(q, sequence), sequence)
    ensures Has(q, sequence) <==> |Without(q, sequence)| != |q|
    ensures forall e :: e in Without(q, sequence) <==> e in q && e.sequence != sequence
    ensures !Has(q, sequence) ==> Without(q, sequence) == q
    decreases |q|
  {
    if q != [] {
      WithoutRemoves(q[1..], sequence);
      assert q == [q[0]] + q[1..];
      var r := Without(q, sequence);
      HasMember(r, sequence);
    }
  }

  // ----- What a restart finds -----

  function GoodEntries(list: seq<Persisted>): seq<Entry> {
    if list == [] then []
    else (if list[0].Good? then [list[0].entry] else []) + GoodEntries(list[1..])
  }

  // loadFromDisk on a queue that holds `current`.
  function Loaded(files: Files, stateFile: string, current: seq<Entry>): seq<Entry> {
    if stateFile !in files then current
    else match files[stateFile].content
      case Entries(list) => GoodEntries(list)
      case NotAnArray => current
      case _ => []
  }

  // The filters of loadFromDisk.
  method KeepGood(list: seq<Persisted>) returns (kept: seq<Entry>)
    ensures kept == GoodEntries(list)
  {
    kept := [];
    for i := 0 to |list|
      invariant kept + GoodEntries(list[i..]) == GoodEntries(list)
    {
      assert list[i..][1..] == list[i + 1..];
      if list[i].Good? {
        kept := kept + [list[i].entry];
      }
    }
  }

  function Persist(q: seq<Entry>): Content {
    Entries(seq(|q|, i requires 0 <= i < |q| => Good(q[i])))
  }

  lemma {:induction false} PersistRoundTrip(q: seq<Entry>)
    ensures GoodEntries(Persist(q).list) == q
    decreases |q|
  {
    if q != [] {
      assert Persist(q).list[1..] == Persist(q[1..]).list;
      PersistRoundTrip(q[1..]);
    }
  }

  // A new process sees the reloaded queue and the terminal log.
  datatype DiskView = DiskView(queue: seq<Entry>, log: string)

  function ViewOf(files: Files, stateFile: string, dlqFile: string): DiskView {
    DiskView(Loaded(files, stateFile, []), TextOf(files, dlqFile))
  }

  ghost predicate Durable(files: Files, stateFile: string, dlqFile: string) {
    (stateFile in files ==> files[stateFile].synced) && (dlqFile in files ==> files[dlqFile].synced)
  }

  // Where both files are synced a crash changes nothing that a new process sees.
  lemma CrashKeepsView(files: Files, after: Files, stateFile: string, dlqFile: string)
    requires Durable(files, stateFile, dlqFile) && CrashesTo(files, after)
    ensures ViewOf(after, stateFile, dlqFile) == ViewOf(files, stateFile, dlqFile)
  {
    assert stateFile in after <==> stateFile in files;
    assert dlqFile in after <==> dlqFile in files;
  }

  lemma ReplacedState(before: Files, h: Files, stateFile: string, dlqFile: string, tmp: string, q: seq<Entry>)
    requires Durable(before, stateFile, dlqFile) && tmp != stateFile && tmp != dlqFile && stateFile != dlqFile
    requires Replacing(before, h, stateFile, tmp, Persist(q))
    ensures Durable(h, stateFile, dlqFile)
    ensures var was, found := ViewOf(before, stateFile, dlqFile), ViewOf(h, stateFile, dlqFile);
            found == was || found == DiskView(q, was.log)
  {
    PersistRoundTrip(q);
    var kept := before - {tmp};
    var rest := h - {tmp};
    assert stateFile in h <==> stateFile in rest;
    assert dlqFile in h <==> dlqFile in rest;
    assert stateFile in before <==> stateFile in kept;
    assert dlqFile in before <==> dlqFile in kept;
    assert stateFile in h ==> h[stateFile] == rest[stateFile];
    assert dlqFile in h ==> h[dlqFile] == rest[dlqFile];
  }

  lemma ReplacedLog(before: Files, h: Files, stateFile: string, dlqFile: string, tmp: string, log: string)
    requires Durable(before, stateFile, dlqFile) && tmp != stateFile && tmp != dlqFile && stateFile != dlqFile
    requires Replacing(before, h, dlqFile, tmp, Text(log))
    ensures Durable(h, stateFile, dlqFile)
    ensures var was, found := ViewOf(before, stateFile, dlqFile), ViewOf(h, stateFile, dlqFile);
            found == was || found == DiskView(was.queue, log)
  {
    var kept := before - {tmp};
    var rest := h - {tmp};
    assert stateFile in h <==> stateFile in rest;
    assert dlqFile in h <==> dlqFile in rest;
    assert stateFile in before <==> stateFile in kept;
    assert dlqFile in before <==> dlqFile in kept;
    assert stateFile in h ==> h[stateFile] == rest[stateFile];
    assert dlqFile in h ==> h[dlqFile] == rest[dlqFile];
  }

  // ----- Operations on memory and disk -----

  datatype Operation = PushOp(sequence: int, error: string, now: int) | RemoveOp(sequence: int) | ClearOp | RestartOp

  // The queue in memory and what the disk would show a new process.
  datatype Machine = Machine(queue: seq<Entry>, disk: DiskView)

  // `render`: the line logged for a terminally failed ledger.
  datatype Settings = Settings(maxRetries: int, render: (Entry, int) -> string)

  // The line a push logs when it uses up the retries of a queued ledger.
  function TerminalLine(c: Settings, q: seq<Entry>, sequence: int, error: string, now: int): string
    requires Has(q, sequence)
  {
    c.render(Failing(q[IndexOf(q, sequence)], error, now), now)
  }

  function LogAfterPush(c: Settings, m: Machine, sequence: int, error: string, now: int): string {
    if IsTerminal(m.queue, sequence, c.maxRetries)
    then AppendLine(m.disk.log, TerminalLine(c, m.queue, sequence, error, now))
    else m.disk.log
  }

  // An operation of a queue that persists, completed.
  function Performed(c: Settings, m: Machine, op: Operation): Machine {
    match op
    case PushOp(sequence, error, now) =>
      var queue := Pushed(m.queue, sequence, error, now, c.maxRetries);
      Machine(queue, DiskView(queue, LogAfterPush(c, m, sequence, error, now)))
    case RemoveOp(sequence) =>
      var queue := Without(m.queue, sequence);
      Machine(queue, if Has(m.queue, sequence) then DiskView(queue, m.disk.log) else m.disk)
    case ClearOp => Machine([], DiskView([], m.disk.log))
    case RestartOp => Machine(m.disk.queue, m.disk)
  }

  // What a crash during an operation can leave: nothing done; of a push, the terminal line logged but the ledger
  // still queued; everything done.
  function Views(c: Settings, m: Machine, op: Operation): set<DiskView> {
    match op
    case PushOp(sequence, error, now) =>
      {m.disk, DiskView(m.disk.queue, LogAfterPush(c, m, sequence, error, now)), Performed(c, m, op).disk}
    case _ => {m.disk, Performed(c, m, op).disk}
  }

  // ----- The queue -----

  class DeadLetterQueue {
    var failedLedgers: seq<Entry>
    const maxRetries: int
    const baseDelayMs: int
    const dlqFile: string
    const stateFile: string
    const persistEnabled: bool
    const pid: nat
    const fs: FileSystem
    const render: (Entry, int) -> string

    constructor (maxRetries: int, baseDelayMs: int, dlqFile: string, stateFile: string, persist: bool,
                 loadOnInit: bool, pid: nat, fs: FileSystem, render: (Entry, int) -> string)
      ensures this.maxRetries == maxRetries && this.baseDelayMs == baseDelayMs
      ensures this.dlqFile == dlqFile && this.stateFile == stateFile
      ensures this.persistEnabled == persist && this.pid == pid && this.fs == fs && this.render == render
      ensures failedLedgers == if persist && loadOnInit then Loaded(fs.files, stateFile, []) else []
      ensures Mirrored() <==> !persist || loadOnInit || OnDisk().queue == []
    {
      this.maxRetries := maxRetries;
      this.baseDelayMs := baseDelayMs;
      this.dlqFile := dlqFile;
      this.stateFile := stateFile;
      this.persistEnabled := persist;
      this.pid := pid;
      this.fs := fs;
      this.render := render;
      this.failedLedgers := [];
      new;
      if persist && loadOnInit {
        LoadFromDisk();
      }
    }

    // Three different files at any time.
    ghost predicate Paths() {
      && stateFile != dlqFile
      && forall now :: TmpPath(stateFile, pid, now) != dlqFile && TmpPath(dlqFile, pid, now) != stateFile
    }

    ghost predicate Valid()
      reads this, fs
    {
      Paths() && fs.Valid() && Durable(fs.files, stateFile, dlqFile)
    }

    function OnDisk(): DiskView
      reads fs
    {
      ViewOf(fs.files, stateFile, dlqFile)
    }

    // The disk holds the queue in memory, if the queue persists.
    ghost predicate Mirrored()
      reads this, fs
    {
      persistEnabled ==> OnDisk().queue == failedLedgers
    }

    function Contents(): Machine
      reads this, fs
    {
      Machine(failedLedgers, OnDisk())
    }

    function Config(): Settings {
      Settings(maxRetries, render)
    }

    // Every state of the disk since `from` survives a crash and shows a new process one of the given views.
    ghost predicate CrashShows(from: nat, views: set<DiskView>)
      reads fs
    {
      from <= |fs.history| && forall k :: from <= k < |fs.history| ==>
        Durable(fs.history[k], stateFile, dlqFile) && ViewOf(fs.history[k], stateFile, dlqFile) in views
    }

    method LoadFromDisk()
      modifies this
      ensures failedLedgers == if persistEnabled then Loaded(fs.files, stateFile, old(failedLedgers))
              else old(failedLedgers)
      ensures persistEnabled && old(Mirrored()) ==>
              Mirrored() && Contents() == Performed(Config(), old(Contents()), RestartOp)
    {
      if !persistEnabled || stateFile !in fs.files {
        return;
      }
      match fs.files[stateFile].content {
        case Blank => failedLedgers := [];
        case NotAnArray =>
        case Entries(list) =>
          failedLedgers := KeepGood(list);
        case Torn => failedLedgers := [];
        case Text(_) => failedLedgers := [];
      }
    }

    method PersistState(now: int)
      requires Valid()
      modifies fs
      ensures Valid() && old(fs.history) <= fs.history
      ensures !persistEnabled ==> fs.files == old(fs.files) && fs.history == old(fs.history)
      ensures persistEnabled ==> OnDisk() == DiskView(failedLedgers, old(OnDisk()).log)
      ensures CrashShows(|old(fs.history)|, {old(OnDisk()), DiskView(failedLedgers, old(OnDisk()).log)})
    {
      if !persistEnabled {
        return;
      }
      ghost var before, start := fs.files, |fs.history|;
      var tmp := TmpPath(stateFile, pid, now);
      TmpPathIsNew(stateFile, pid, now);
      AtomicWriteFile(fs, stateFile, pid, now, Persist(failedLedgers));
      assert fs.files == (before - {tmp})[stateFile := File(Persist(failedLedgers), true)];
      forall k | start <= k < |fs.history|
        ensures Durable(fs.history[k], stateFile, dlqFile)
        ensures ViewOf(fs.history[k], stateFile, dlqFile)
                in {ViewOf(before, stateFile, dlqFile), DiskView(failedLedgers, ViewOf(before, stateFile, dlqFile).log)}
      {
        ReplacedState(before, fs.history[k], stateFile, dlqFile, tmp, failedLedgers);
      }
      PersistRoundTrip(failedLedgers);
    }

    method WriteToDlqFile(ledger: Entry, now: int)
      requires Valid()
      modifies fs
      ensures Valid() && old(fs.history) <= fs.history
      ensures OnDisk() == DiskView(old(OnDisk()).queue, AppendLine(old(OnDisk()).log, render(ledger, now)))
      ensures CrashShows(|old(fs.history)|, {old(OnDisk()), OnDisk()})
    {
      ghost var before, start := fs.files, |fs.history|;
      var tmp := TmpPath(dlqFile, pid, now);
      TmpPathIsNew(dlqFile, pid, now);
      AtomicAppendLine(fs, dlqFile, pid, now, render(ledger, now));
      ghost var log := AppendLine(TextOf(before, dlqFile), render(ledger, now));
      assert fs.files == (before - {tmp})[dlqFile := File(Text(log), true)];
      forall k | start <= k < |fs.history|
        ensures Durable(fs.history[k], stateFile, dlqFile)
        ensures ViewOf(fs.history[k], stateFile, dlqFile)
                in {ViewOf(before, stateFile, dlqFile), DiskView(ViewOf(before, stateFile, dlqFile).queue, log)}
      {
        ReplacedLog(before, fs.history[k], stateFile, dlqFile, tmp, log);
      }
    }

    method Push(sequence: int, error: string, now: int)
      requires Valid()
      modifies this, fs
      ensures Valid() && old(fs.history) <= fs.history
      ensures failedLedgers == Pushed(old(failedLedgers), sequence, error, now, maxRetries)
      ensures OnDisk().log == LogAfterPush(Config(), old(Contents()), sequence, error, now)
      ensures OnDisk().queue == if persistEnabled then failedLedgers else old(OnDisk().queue)
      ensures Mirrored()
      ensures persistEnabled ==> Contents() == Performed(Config(), old(Contents()), PushOp(sequence, error, now))
      ensures CrashShows(|old(fs.history)|, Views(Config(), old(Contents()), PushOp(sequence, error, now)))
    {
      var i := IndexOf(failedLedgers, sequence);
      if i < |failedLedgers| {
        var existing := failedLedgers[i].(
          attemptCount := failedLedgers[i].attemptCount + 1, lastFailedAt := now, lastError := error);
        failedLedgers := failedLedgers[i := existing];
        if existing.attemptCount >= maxRetries {
          WriteToDlqFile(existing, now);
          WithoutUpdated(old(failedLedgers), i, existing);
          UpdatedIndex(old(failedLedgers), failedLedgers, sequence);
          Remove(sequence, now);
          return;
        }
      } else {
        failedLedgers := failedLedgers + [Entry(sequence, 1, now, now, error)];
      }
      PersistState(now);
    }

    method Remove(sequence: int, now: int)
      requires Valid()
      modifies this, fs
      ensures Valid() && old(fs.history) <= fs.history
      ensures failedLedgers == Without(old(failedLedgers), sequence)
      ensures OnDisk() == if persistEnabled && old(Has(failedLedgers, sequence))
                          then DiskView(failedLedgers, old(OnDisk()).log) else old(OnDisk())
      ensures old(Mirrored()) ==> Mirrored()
      ensures persistEnabled ==> Contents() == Performed(Config(), old(Contents()), RemoveOp(sequence))
      ensures CrashShows(|old(fs.history)|, Views(Config(), old(Contents()), RemoveOp(sequence)))
    {
      WithoutRemoves(failedLedgers, sequence);
      var before := |failedLedgers|;
      failedLedgers := Filter(sequence);
      if |failedLedgers| != before {
        PersistState(now);
      }
    }

    // Everything queued whose backoff since its last failure is over, in the order of the queue.
    method GetReadyForRetry(now: int) returns (ready: seq<Entry>)
      ensures Subsequence(ready, failedLedgers)
      ensures forall e :: e in ready <==> e in failedLedgers && IsReady(e, now, maxRetries, baseDelayMs)
    {
      ready := [];
      for i := 0 to |failedLedgers|
        invariant Subsequence(ready, failedLedgers[..i])
        invariant forall e :: e in ready <==> e in failedLedgers[..i] && IsReady(e, now, maxRetries, baseDelayMs)
      {
        assert failedLedgers[..i + 1] == failedLedgers[..i] + [failedLedgers[i]];
        SubsequenceSnoc(ready, failedLedgers[..i], failedLedgers[i]);
        var ledger := failedLedgers[i];
        if ledger.attemptCount < maxRetries {
          var readyTime := ledger.lastFailedAt + Backoff(baseDelayMs, ledger.attemptCount);
          if now >= readyTime {
            ready := ready + [ledger];
          }
        }
      }
      assert failedLedgers[..|failedLedgers|] == failedLedgers;
    }

    // The entries of the other ledgers.
    method Filter(sequence: int) returns (kept: seq<Entry>)
      ensures kept == Without(failedLedgers, sequence)
    {
      kept := [];
      for i := 0 to |failedLedgers|
        invariant kept + Without(failedLedgers[i..], sequence) == Without(failedLedgers, sequence)
      {
        assert failedLedgers[i..][1..] == failedLedgers[i + 1..];
        if failedLedgers[i].sequence != sequence {
          kept := kept + [failedLedgers[i]];
        }
      }
    }

    method Clear(now: int)
      requires Valid()
      modifies this, fs
      ensures Valid() && old(fs.history) <= fs.history
      ensures failedLedgers == []
      ensures OnDisk() == if persistEnabled then DiskView([], old(OnDisk()).log) else old(OnDisk())
      ensures Mirrored()
      ensures persistEnabled ==> Contents() == Performed(Config(), old(Contents()), ClearOp)
      ensures CrashShows(|old(fs.history)|, Views(Config(), old(Contents()), ClearOp))
    {
      failedLedgers := [];
      PersistState(now);
    }
  }

  lemma {:induction false} WithoutUpdated(q: seq<Entry>, i: nat, e: Entry)
    requires i < |q| && e.sequence == q[i].sequence
    ensures Without(q[i := e], e.sequence) == Without(q, e.sequence)
    decreases |q|
  {
    if i > 0 {
      assert q[i := e][1..] == q[1..][i - 1 := e];
      WithoutUpdated(q[1..], i - 1, e);
    } else {
      assert q[i := e][1..] == q[1..];
    }
  }

  // The old text stays, and the line starts a line of its own.
  lemma AppendLineExtends(existing: string, line: string)
    ensures existing <= AppendLine(existing, line)
    ensures var start := |AppendLine(existing, line)| - |line|;
            && AppendLine(existing, line)[start..] == line
            && |existing| <= start <= |existing| + 1
            && (start > 0 ==> AppendLine(existing, line)[start - 1] == '\n')
  {
  }

  // A crash at any point of an operation of a mirrored queue: the new process finds a state the operation allows, and
  // for a push the queue from before or from after it, with a log that has only grown.
  lemma CrashedOperation(q: DeadLetterQueue, op: Operation, h: Files, after: Files)
    requires q.Valid() && q.persistEnabled && q.Mirrored()
    requires Durable(h, q.stateFile, q.dlqFile)
             && ViewOf(h, q.stateFile, q.dlqFile) in Views(q.Config(), q.Contents(), op)
    requires CrashesTo(h, after)
    ensures var found := ViewOf(after, q.stateFile, q.dlqFile);
            && Step(q.Config(), q.Contents(), Crashed(op, found)) == Some(Machine(found.queue, found))
            && (found.queue == q.failedLedgers || found.queue == Performed(q.Config(), q.Contents(), op).queue)
            && q.OnDisk().log <= found.log
            && (op.PushOp? && IsTerminal(q.failedLedgers, op.sequence, q.maxRetries) ==>
                  Has(found.queue, op.sequence)
                  || found.log == LogAfterPush(q.Config(), q.Contents(), op.sequence, op.error, op.now))
  {
    CrashKeepsView(h, after, q.stateFile, q.dlqFile);
    ViewsOf(q.Config(), q.Contents(), op, ViewOf(h, q.stateFile, q.dlqFile));
  }

  // ----- Whole runs, with crashes -----

  // An operation completes, or the process dies during it and a new one finds `found` on the disk.
  datatype Event = Done(op: Operation) | Crashed(op: Operation, found: DiskView)

  function Step(c: Settings, m: Machine, e: Event): Option<Machine> {
    match e
    case Done(op) => Some(Performed(c, m, op))
    case Crashed(op, found) => if found in Views(c, m, op) then Some(Machine(found.queue, found)) else None
  }

  function Run(c: Settings, m: Machine, events: seq<Event>): Option<Machine>
    decreases |events|
  {
    if events == [] then Some(m)
    else match Step(c, m, events[0])
      case None => None
      case Some(m') => Run(c, m', events[1..])
  }

  lemma LogGrows(c: Settings, m: Machine, sequence: int, error: string, now: int)
    ensures m.disk.log <= LogAfterPush(c, m, sequence, error, now)
    ensures IsTerminal(m.queue, sequence, c.maxRetries) ==>
              InLog(LogAfterPush(c, m, sequence, error, now), TerminalLine(c, m.queue, sequence, error, now))
  {
    if IsTerminal(m.queue, sequence, c.maxRetries) {
      var line := TerminalLine(c, m.queue, sequence, error, now);
      var log := AppendLine(m.disk.log, line);
      AppendLineExtends(m.disk.log, line);
      assert LineAt(log, line, |log| - |line|);
    }
  }

  // Every view of an operation on a mirrored queue has the queue from before or after it, and a log that extends the
  // one from before; with the queue from after it, also the log.
  lemma ViewsOf(c: Settings, m: Machine, op: Operation, found: DiskView)
    requires m.queue == m.disk.queue && found in Views(c, m, op)
    ensures found.queue == m.queue || found == Performed(c, m, op).disk
    ensures m.disk.log <= found.log && Performed(c, m, op).queue == Performed(c, m, op).disk.queue
  {
    if op.PushOp? {
      LogGrows(c, m, op.sequence, op.error, op.now);
    } else if op.RemoveOp? {
      WithoutRemoves(m.queue, op.sequence);
    }
  }

  // What an operation makes of the number of pushes of a ledger since it was last absent: it leaves on removal, on
  // clearing, and on reaching the limit.
  function Counted(op: Operation, sequence: int, a: nat, maxRetries: int): nat {
    match op
    case PushOp(s, _, _) => if s != sequence then a else if a > 0 && a + 1 >= maxRetries then 0 else a + 1
    case RemoveOp(s) => if s == sequence then 0 else a
    case ClearOp => 0
    case RestartOp => a
  }

  // The same along a run that starts with `a`; a crashed operation counts if it reached the disk.
  function Attempts(c: Settings, m: Machine, events: seq<Event>, sequence: int, a: nat): nat
    requires Run(c, m, events).Some?
    decreases |events|
  {
    if events == [] then a
    else
      var e := events[0];
      var lost := e.Crashed? && e.found.queue == m.queue;
      Attempts(c, Step(c, m, e).value, events[1..], sequence,
        if lost then a else Counted(e.op, sequence, a, c.maxRetries))
  }

  function AttemptsIn(q: seq<Entry>, sequence: int): int {
    if Has(q, sequence) then q[IndexOf(q, sequence)].attemptCount else 0
  }

  ghost predicate QueueOk(q: seq<Entry>, maxRetries: int) {
    Unique(q) && forall i :: 0 <= i < |q| ==> 1 <= q[i].attemptCount < Max(2, maxRetries)
  }

  lemma {:induction false} WithoutKeepsUnique(q: seq<Entry>, sequence: int)
    requires Unique(q)
    ensures Unique(Without(q, sequence))
    decreases |q|
  {
    if q != [] {
      WithoutKeepsUnique(q[1..], sequence);
      WithoutRemoves(q[1..], sequence);
      var r := Without(q[1..], sequence);
      forall k | 0 <= k < |r| ensures r[k].sequence != q[0].sequence {
        assert r[k] in q[1..];
      }
    }
  }

  lemma WithoutKeepsOk(q: seq<Entry>, sequence: int, maxRetries: int)
    requires QueueOk(q, maxRetries)
    ensures QueueOk(Without(q, sequence), maxRetries)
  {
    WithoutKeepsUnique(q, sequence);
    WithoutRemoves(q, sequence);
    var r := Without(q, sequence);
    forall k | 0 <= k < |r| ensures 1 <= r[k].attemptCount < Max(2, maxRetries) {
      assert r[k] in q;
    }
  }

  lemma {:induction false} WithoutAttempts(q: seq<Entry>, sequence: int, other: int)
    ensures AttemptsIn(Without(q, sequence), other) == if other == sequence then 0 else AttemptsIn(q, other)
    decreases |q|
  {
    if other == sequence {
      WithoutRemoves(q, sequence);
    } else if q != [] {
      WithoutAttempts(q[1..], sequence, other);
      if q[0].sequence != sequence {
        assert Without(q, sequence)[1..] == Without(q[1..], sequence);
      }
    }
  }

  lemma PushedKeeps(q: seq<Entry>, sequence: int, error: string, now: int, maxRetries: int, other: int)
    requires QueueOk(q, maxRetries)
    ensures QueueOk(Pushed(q, sequence, error, now, maxRetries), maxRetries)
    ensures AttemptsIn(Pushed(q, sequence, error, now, maxRetries), other)
            == if other != sequence then AttemptsIn(q, other)
               else if Has(q, sequence) && AttemptsIn(q, sequence) + 1 >= maxRetries then 0
               else AttemptsIn(q, sequence) + 1
  {
    var i := IndexOf(q, sequence);
    if i == |q| {
      var r := q + [Entry(sequence, 1, now, now, error)];
      UpdatedIndex(q, r, other);
      assert r[|q|].sequence == sequence;
    } else if IsTerminal(q, sequence, maxRetries) {
      WithoutKeepsOk(q, sequence, maxRetries);
      WithoutAttempts(q, sequence, other);
    } else {
      UpdatedIndex(q, q[i := Failing(q[i], error, now)], other);
    }
  }

  // Entries are found at the same place when the sequences up to there did not change.
  lemma UpdatedIndex(q: seq<Entry>, r: seq<Entry>, sequence: int)
    requires |q| <= |r| && forall k :: 0 <= k < |q| ==> q[k].sequence == r[k].sequence
    ensures Has(q, sequence) ==> IndexOf(r, sequence) == IndexOf(q, sequence)
    ensures !Has(q, sequence) ==> IndexOf(r, sequence) >= |q|
  {
    var i, j := IndexOf(q, sequence), IndexOf(r, sequence);
    assert i < |q| ==> r[i].sequence == sequence;
    assert j < |q| ==> q[j].sequence == sequence;
  }

  ghost predicate MachineOk(c: Settings, m: Machine) {
    m.queue == m.disk.queue && QueueOk(m.queue, c.maxRetries)
  }

  lemma PerformedKeeps(c: Settings, m: Machine, op: Operation, sequence: int)
    requires MachineOk(c, m)
    ensures MachineOk(c, Performed(c, m, op))
    ensures AttemptsIn(m.queue, sequence) >= 0
    ensures AttemptsIn(Performed(c, m, op).queue, sequence) ==
            Counted(op, sequence, AttemptsIn(m.queue, sequence), c.maxRetries)
  {
    match op
    case PushOp(s, error, now) => PushedKeeps(m.queue, s, error, now, c.maxRetries, sequence);
    case RemoveOp(s) =>
      WithoutKeepsOk(m.queue, s, c.maxRetries);
      WithoutAttempts(m.queue, s, sequence);
      WithoutRemoves(m.queue, s);
    case ClearOp =>
    case RestartOp =>
  }

  lemma StepKeeps(c: Settings, m: Machine, e: Event, sequence: int)
    requires MachineOk(c, m) && Step(c, m, e).Some?
    ensures var m' := Step(c, m, e).value;
            && MachineOk(c, m') && m.disk.log <= m'.disk.log
            && AttemptsIn(m.queue, sequence) >= 0
            && AttemptsIn(m'.queue, sequence)
               == if e.Crashed? && e.found.queue == m.queue then AttemptsIn(m.queue, sequence)
                  else Counted(e.op, sequence, AttemptsIn(m.queue, sequence), c.maxRetries)
  {
    PerformedKeeps(c, m, e.op, sequence);
    ViewsOf(c, m, e.op, if e.Crashed? then e.found else Performed(c, m, e.op).disk);
  }

  // Main result: over any run of pushes, removals, clears and restarts, each of them possibly cut short by a crash at
  // any of its steps, the disk shows the queue in memory, the log only grows at its end, queued ledgers are distinct,
  // a ledger is queued exactly if it has attempts since it was last absent, its entry counts them, and the count stays
  // below the limit (an entry pushed once stays queued when the limit is 1 or less).
  lemma {:induction false} RunKeepsQueue(c: Settings, m: Machine, events: seq<Event>, sequence: int)
    requires MachineOk(c, m) && Run(c, m, events).Some?
    ensures var m' := Run(c, m, events).value;
            && m'.disk.queue == m'.queue && QueueOk(m'.queue, c.maxRetries)
            && m.disk.log <= m'.disk.log
            && AttemptsIn(m.queue, sequence) >= 0
            && AttemptsIn(m'.queue, sequence) == Attempts(c, m, events, sequence, AttemptsIn(m.queue, sequence))
            && (Has(m'.queue, sequence) <==> AttemptsIn(m'.queue, sequence) > 0)
    decreases |events|
  {
    StepAttempts(c, m, sequence);
    if events != [] {
      StepKeeps(c, m, events[0], sequence);
      RunKeepsQueue(c, Step(c, m, events[0]).value, events[1..], sequence);
    }
  }

  lemma StepAttempts(c: Settings, m: Machine, sequence: int)
    requires MachineOk(c, m)
    ensures AttemptsIn(m.queue, sequence) >= 0
    ensures Has(m.queue, sequence) <==> AttemptsIn(m.queue, sequence) > 0
  {
  }

  predicate LineAt(log: string, line: string, k: nat) {
    k + |line| <= |log| && log[k..k + |line|] == line
  }

  ghost predicate InLog(log: string, line: string) {
    exists k :: LineAt(log, line, k)
  }

  lemma StaysInLog(log: string, longer: string, line: string)
    requires log <= longer && InLog(log, line)
    ensures InLog(longer, line)
  {
    var k: nat :| LineAt(log, line, k);
    assert longer[k..k + |line|] == longer[..|log|][k..k + |line|];
    assert LineAt(longer, line, k);
  }

  // The entry of a ledger whose retries a push uses up: one attempt more, the first failure as it was, and the time and
  // error of this push.
  function LastEntry(q: seq<Entry>, sequence: int, error: string, now: int): Entry
    requires Has(q, sequence)
  {
    var e := q[IndexOf(q, sequence)];
    Entry(sequence, e.attemptCount + 1, e.firstFailedAt, now, error)
  }

  // Why a ledger may be gone: it was removed, the queue was cleared, or its retries were used up and its line is in
  // the log.
  ghost predicate Excused(c: Settings, m: Machine, op: Operation, sequence: int, log: string) {
    match op
    case PushOp(s, error, now) =>
      && s == sequence && Has(m.queue, s) && m.queue[IndexOf(m.queue, s)].attemptCount + 1 >= c.maxRetries
      && InLog(log, c.render(LastEntry(m.queue, s, error, now), now))
    case RemoveOp(s) => s == sequence
    case ClearOp => true
    case RestartOp => false
  }

  // At every event of the run, every ledger that leaves the queue is excused by the log.
  ghost predicate NoneLost(c: Settings, m: Machine, events: seq<Event>, log: string)
    requires Run(c, m, events).Some?
    decreases |events|
  {
    events != [] ==>
      var m' := Step(c, m, events[0]).value;
      && (forall x :: Has(m.queue, x) && !Has(m'.queue, x) ==> Excused(c, m, events[0].op, x, log))
      && NoneLost(c, m', events[1..], log)
  }

  lemma StepExcuses(c: Settings, m: Machine, e: Event, sequence: int)
    requires MachineOk(c, m) && Step(c, m, e).Some?
    requires Has(m.queue, sequence) && !Has(Step(c, m, e).value.queue, sequence)
    ensures Excused(c, m, e.op, sequence, Step(c, m, e).value.disk.log)
  {
    StepAttempts(c, m, sequence);
    StepKeeps(c, m, e, sequence);
    StepAttempts(c, Step(c, m, e).value, sequence);
    ViewsOf(c, m, e.op, if e.Crashed? then e.found else Performed(c, m, e.op).disk);
    if e.op.PushOp? {
      LogGrows(c, m, e.op.sequence, e.op.error, e.op.now);
    }
  }

  // Main result: however operations are cut short, no ledger is lost: over the whole run a ledger leaves the queue only
  // if it is removed, the queue is cleared, or its retries are used up and its line is in the log that the run
  // ends with.
  lemma {:induction false} NoLedgerIsLost(c: Settings, m: Machine, events: seq<Event>)
    requires MachineOk(c, m) && Run(c, m, events).Some?
    ensures NoneLost(c, m, events, Run(c, m, events).value.disk.log)
    decreases |events|
  {
    if events != [] {
      var m', rest := Step(c, m, events[0]).value, events[1..];
      var log := Run(c, m, events).value.disk.log;
      StepKeeps(c, m, events[0], 0);
      NoLedgerIsLost(c, m', rest);
      RunKeepsQueue(c, m', rest, 0);
      forall x | Has(m.queue, x) && !Has(m'.queue, x)
        ensures Excused(c, m, events[0].op, x, log)
      {
        StepExcuses(c, m, events[0], x);
        if events[0].op.PushOp? {
          StaysInLog(m'.disk.log, log, TerminalLine(c, m.queue, x, events[0].op.error, events[0].op.now));
        }
      }
    }
  }
}
