/** The sync client: its requests, its in-memory and on-disk state, and the runs that use them. */
module SyncClient {
  import opened Common
  import opened ChunkServer

  /** SHA-256 taken to be collision-free: a checksum is known by the bytes it was taken of. */
  datatype Checksum = Sha256(of: Bytes)

  /** A local file, and what a directory walk reports of one. */
  datatype File = File(content: Bytes, mtime: int)
  datatype Info = Info(size: nat, mtime: int)

  datatype ChunkUploadSession = ChunkUploadSession(uploadId: UploadId, chunkSize: nat, totalChunks: int)

  datatype FileState = FileState(size: nat, mtime: int, checksum: Checksum)

  datatype PendingUpload = PendingUpload(uploadId: UploadId, chunkSize: nat, totalChunks: int, size: nat,
                                         checksum: Checksum, dest: Dest, startedAt: int)
  {
    function Session(): ChunkUploadSession { ChunkUploadSession(uploadId, chunkSize, totalChunks) }

    /** Still this exact file, going to this exact destination, and recent. */
    predicate Resumable(size: nat, checksum: Checksum, dest: Dest, now: int) {
      && uploadId != 0 && this.size == size && this.checksum == checksum && this.dest == dest
      && now - startedAt < PENDING_UPLOAD_TTL
    }
  }

  datatype State = State(files: map<LocalPath, FileState>, pending: map<LocalPath, PendingUpload>)

  datatype Result = Result(uploaded: nat, skipped: nat, failed: nat) {
    function Add(o: Result): Result { Result(uploaded + o.uploaded, skipped + o.skipped, failed + o.failed) }

    function Total(): nat { uploaded + skipped + failed }
  }

  /** What a directory walk yields. */
  datatype Entry = Unreadable | Folder | Irregular | Regular(path: LocalPath, info: Info, dest: Dest)

  function Weight(entry: Entry): nat { if entry.Unreadable? || entry.Regular? then 1 else 0 }

  /** Entries that count, among the first `n`. */
  function Countable(entries: seq<Entry>, n: nat): nat
    requires n <= |entries|
  {
    if n == 0 then 0 else Countable(entries, n - 1) + Weight(entries[n - 1])
  }

  lemma CountableStep(entries: seq<Entry>, n: nat)
    requires n <= |entries|
    ensures Countable(entries, n) == if n == 0 then 0 else Countable(entries, n - 1) + Weight(entries[n - 1])
  {
  }

  lemma {:induction false} CountableGrows(entries: seq<Entry>, n: nat, m: nat)
    requires n <= m <= |entries|
    ensures Countable(entries, n) <= Countable(entries, m)
  {
    if n < m {
      CountableGrows(entries, n, m - 1);
    }
  }

  function FolderWeight(folder: Option<seq<Entry>>): nat {
    if folder.None? then 1 else Countable(folder.value, |folder.value|)
  }

  function CountableIn(tracked: seq<Option<seq<Entry>>>, n: nat): nat
    requires n <= |tracked|
  {
    if n == 0 then 0 else CountableIn(tracked, n - 1) + FolderWeight(tracked[n - 1])
  }

  // ---------- What became of each file ----------

  /**
   * What became of one entry met on a walk: not readable, nothing to do, sent with these bytes, known (by
   * its size and time, or by the bytes it had), too large, gone, or failed.
   */
  datatype Turn =
    | Broken
    | Passed
    | Sent(bytes: Bytes)
    | Known(last: FileState, seen: Option<Bytes>)
    | TooLarge
    | Missing
    | Failed

  /** How a turn counts. */
  function Mark(turn: Turn): Result {
    match turn
    case Passed => Result(0, 0, 0)
    case Sent(_) => Result(1, 0, 0)
    case Known(_, _) => Result(0, 1, 0)
    case _ => Result(0, 0, 1)
  }

  function Tally(turns: seq<Turn>): Result {
    if turns == [] then Result(0, 0, 0) else Tally(turns[..|turns| - 1]).Add(Mark(turns[|turns| - 1]))
  }

  type FileStates = map<LocalPath, FileState>

  /** What the entry's turn leaves in the state: the file as met, with the hash of the bytes the server has. */
  function FileAfter(files: FileStates, entry: Entry, turn: Turn): FileStates {
    if !entry.Regular? then files
    else match turn
      case Sent(bytes) => files[entry.path := FileState(entry.info.size, entry.info.mtime, Sha256(bytes))]
      case Known(last, _) => files[entry.path := FileState(entry.info.size, entry.info.mtime, last.checksum)]
      case _ => files
  }

  function FilesAfter(files: FileStates, met: seq<Entry>, turns: seq<Turn>): FileStates
    requires |met| == |turns|
  {
    if met == [] then files
    else
      var n := |met| - 1;
      FileAfter(FilesAfter(files, met[..n], turns[..n]), met[n], turns[n])
  }

  /** The turn that an entry must have had, given the state it was met with. */
  predicate Fair(entry: Entry, turn: Turn, files: FileStates, force: bool) {
    match entry
    case Unreadable => turn.Broken?
    case Folder => turn.Passed?
    case Irregular => turn.Passed?
    case Regular(path, info, _) =>
      match turn
      case Sent(bytes) =>
        !force && path in files ==> files[path].checksum != Sha256(bytes) &&
                                    (files[path].size != info.size || files[path].mtime != info.mtime)
      case Known(last, seen) =>
        && !force && path in files && files[path] == last
        && ((last.size == info.size && last.mtime == info.mtime) ||
            (seen.Some? && last.checksum == Sha256(seen.value)))
      case TooLarge => info.size > 2 * 1024 * 1024 * 1024
      case Missing => true
      case Failed => true
      case _ => false
  }

  ghost predicate FairAt(met: seq<Entry>, turns: seq<Turn>, files: FileStates, force: bool, i: int)
    requires |met| == |turns| && 0 <= i < |met|
  {
    Fair(met[i], turns[i], FilesAfter(files, met[..i], turns[..i]), force)
  }

  ghost predicate AllFair(met: seq<Entry>, turns: seq<Turn>, files: FileStates, force: bool)
    requires |met| == |turns|
  {
    forall i {:trigger FairAt(met, turns, files, force, i)} :: 0 <= i < |met| ==> FairAt(met, turns, files, force, i)
  }

  lemma FairPrefix(files: FileStates, met: seq<Entry>, turns: seq<Turn>, n: nat, force: bool, i: nat)
    requires |met| == |turns| && i < n <= |met|
    ensures FairAt(met[..n], turns[..n], files, force, i) <==> FairAt(met, turns, files, force, i)
  {
    hide Fair, FilesAfter;
    assert met[..n][..i] == met[..i] && turns[..n][..i] == turns[..i];
  }

  lemma TallyNext(turns: seq<Turn>, turn: Turn)
    ensures Tally(turns + [turn]) == Tally(turns).Add(Mark(turn))
  {
    assert (turns + [turn])[..|turns|] == turns;
  }

  lemma FilesNext(files: FileStates, met: seq<Entry>, turns: seq<Turn>, entry: Entry, turn: Turn)
    requires |met| == |turns|
    ensures FilesAfter(files, met + [entry], turns + [turn]) == FileAfter(FilesAfter(files, met, turns), entry, turn)
  {
    assert (met + [entry])[..|met|] == met && (turns + [turn])[..|turns|] == turns;
  }

  lemma FairNext(files: FileStates, met: seq<Entry>, turns: seq<Turn>, entry: Entry, turn: Turn, force: bool)
    requires |met| == |turns| && AllFair(met, turns, files, force)
    requires Fair(entry, turn, FilesAfter(files, met, turns), force)
    ensures AllFair(met + [entry], turns + [turn], files, force)
  {
    var n, longer, later := |met|, met + [entry], turns + [turn];
    assert longer[..n] == met && later[..n] == turns;
    assert FairAt(longer, later, files, force, n);
    hide FairAt;
    forall i | 0 <= i < n
      ensures FairAt(longer, later, files, force, i)
    {
      assert FairAt(met, turns, files, force, i);
      FairPrefix(files, longer, later, n, force, i);
    }
  }

  lemma NothingMet(files: FileStates)
    ensures Tally([]) == Result(0, 0, 0) && FilesAfter(files, [], []) == files
  {
  }

  /** One walk after another. */
  lemma {:induction false} WalksJoin(files: FileStates, met: seq<Entry>, turns: seq<Turn>,
                                     met': seq<Entry>, turns': seq<Turn>)
    requires |met| == |turns| && |met'| == |turns'|
    ensures Tally(turns + turns') == Tally(turns).Add(Tally(turns'))
    ensures FilesAfter(files, met + met', turns + turns') == FilesAfter(FilesAfter(files, met, turns), met', turns')
    decreases |met'|
  {
    hide Tally, FilesAfter, FileAfter, Mark;
    if met' == [] {
      assert met + met' == met && turns + turns' == turns && turns' == [];
      NothingMet(FilesAfter(files, met, turns));
    } else {
      var n := |met'| - 1;
      var e, u := met'[n], turns'[n];
      WalksJoin(files, met, turns, met'[..n], turns'[..n]);
      assert met' == met'[..n] + [e] && turns' == turns'[..n] + [u];
      assert met + met' == (met + met'[..n]) + [e] && turns + turns' == (turns + turns'[..n]) + [u];
      TallyNext(turns + turns'[..n], u);
      TallyNext(turns'[..n], u);
      FilesNext(files, met + met'[..n], turns + turns'[..n], e, u);
      FilesNext(FilesAfter(files, met, turns), met'[..n], turns'[..n], e, u);
    }
  }

  lemma FairBefore(files: FileStates, met: seq<Entry>, turns: seq<Turn>, n: nat, force: bool)
    requires |met| == |turns| && AllFair(met, turns, files, force) && n <= |met|
    ensures AllFair(met[..n], turns[..n], files, force)
  {
    hide FairAt;
    forall i | 0 <= i < n
      ensures FairAt(met[..n], turns[..n], files, force, i)
    {
      assert FairAt(met, turns, files, force, i);
      FairPrefix(files, met, turns, n, force, i);
    }
  }

  lemma FairWeighs(entry: Entry, turn: Turn, files: FileStates, force: bool)
    requires Fair(entry, turn, files, force)
    ensures Mark(turn).Total() == Weight(entry)
  {
    match entry
    case Unreadable => assert Mark(turn) == Result(0, 0, 1);
    case Folder => assert Mark(turn) == Result(0, 0, 0);
    case Irregular => assert Mark(turn) == Result(0, 0, 0);
    case Regular(_, _, _) =>
      match turn
      case Sent(_) => assert Mark(turn) == Result(1, 0, 0);
      case Known(_, _) => assert Mark(turn) == Result(0, 1, 0);
      case TooLarge => assert Mark(turn) == Result(0, 0, 1);
      case Missing => assert Mark(turn) == Result(0, 0, 1);
      case Failed => assert Mark(turn) == Result(0, 0, 1);
  }

  /** Each readable file and each unreadable entry counts once. */
  lemma {:induction false} TurnsCount(entries: seq<Entry>, turns: seq<Turn>, force: bool, files: FileStates)
    requires |turns| <= |entries| && AllFair(entries[..|turns|], turns, files, force)
    ensures Tally(turns).Total() == Countable(entries, |turns|)
    decreases |turns|
  {
    hide Fair, FilesAfter, Tally, Countable, Mark, Weight;
    CountableStep(entries, |turns|);
    if turns == [] {
      NothingMet(files);
    } else {
      var n := |turns| - 1;
      var met := entries[..n + 1];
      assert FairAt(met, turns, files, force, n);
      FairWeighs(met[n], turns[n], FilesAfter(files, met[..n], turns[..n]), force);
      FairBefore(files, met, turns, n, force);
      assert met[..n] == entries[..n] && turns == turns[..n] + [turns[n]];
      TallyNext(turns[..n], turns[n]);
      TurnsCount(entries, turns[..n], force, files);
    }
  }

  lemma {:induction false} FairJoined(files: FileStates, met: seq<Entry>, turns: seq<Turn>,
                                      met': seq<Entry>, turns': seq<Turn>, force: bool)
    requires |met| == |turns| && |met'| == |turns'| && AllFair(met, turns, files, force)
    requires AllFair(met', turns', FilesAfter(files, met, turns), force)
    ensures AllFair(met + met', turns + turns', files, force)
    decreases |met'|
  {
    hide Fair, FilesAfter;
    if met' == [] {
      assert met + met' == met && turns + turns' == turns;
    } else {
      var n := |met'| - 1;
      var known := FilesAfter(files, met, turns);
      assert FairAt(met', turns', known, force, n);
      FairBefore(known, met', turns', n, force);
      FairJoined(files, met, turns, met'[..n], turns'[..n], force);
      WalksJoin(files, met, turns, met'[..n], turns'[..n]);
      hide AllFair;
      FairNext(files, met + met'[..n], turns + turns'[..n], met'[n], turns'[n], force);
      assert met + met' == (met + met'[..n]) + [met'[n]] && turns + turns' == (turns + turns'[..n]) + [turns'[n]];
    }
  }

  /** What a walk over the tracked folders meets when nothing stops it; an inaccessible one is one failure. */
  function WalkOf(tracked: seq<Option<seq<Entry>>>): seq<Entry> {
    if tracked == [] then []
    else
      var n := |tracked| - 1;
      WalkOf(tracked[..n]) + if tracked[n].None? then [Unreadable] else tracked[n].value
  }

  datatype Error = SessionGone | Unauthorized | Cancelled | ChunksMissing | Rejected | NoReply | LocalIO | NotSaved

  /** What becomes of one request. */
  datatype Fate = NeverSent | Dropped | Delayed | ReplyLost | Denied | Answered {
    predicate Arrives() { ReplyLost? || Answered? }
  }

  /** One part request, with the session the state file recorded for its path at that moment. */
  datatype PartSent = PartSent(path: LocalPath, id: UploadId, index: nat, recorded: Option<UploadId>)

  const MAX_CHUNK_ATTEMPTS := 3
  const PENDING_UPLOAD_TTL := 7 * 24 * 3600
  const DEFAULT_CHUNK_SIZE := 8 * 1024 * 1024

  // ---------- What the state file may say ----------

  /** The session was opened for this path, this destination and the bytes the record's checksum is of. */
  ghost predicate RecordOk(path: LocalPath, rec: PendingUpload, book: Book) {
    && rec.uploadId in book.purposes
    && book.purposes[rec.uploadId] == Purpose(path, rec.dest, rec.checksum.of, rec.chunkSize)
    && HasTotal(book.purposes[rec.uploadId], rec.totalChunks)
  }

  ghost predicate HasTotal(p: Purpose, total: int) {
    p.chunkSize > 0 && total == ChunkCount(|p.content|, p.chunkSize)
  }

  /** Chunk `i` is exactly the slice [i * c, min((i + 1) * c, size)) of the content the record's hash is of. */
  ghost predicate TrueSlice(rec: PendingUpload, i: nat, chunk: Bytes) {
    IsSlice(rec.checksum.of, i * rec.chunkSize, Min((i + 1) * rec.chunkSize, |rec.checksum.of|), chunk)
  }

  ghost predicate IsSlice(content: Bytes, from: nat, to: int, chunk: Bytes) {
    && from <= to <= |content| && chunk == content[from..to]
    && (|content| > 0 ==> chunk != [])
  }

  lemma StagedIsTrueSlice(path: LocalPath, rec: PendingUpload, s: Session, i: nat, book: Book)
    requires RecordOk(path, rec, book) && Staged(rec.uploadId, s, book) && i in s.chunks
    ensures TrueSlice(rec, i, s.chunks[i])
  {
    ChunkIsSlice(rec.checksum.of, rec.chunkSize, i);
  }

  lemma ChunkIsSlice(content: Bytes, chunkSize: nat, i: nat)
    requires chunkSize > 0 && i < ChunkCount(|content|, chunkSize)
    ensures IsSlice(content, i * chunkSize, Min((i + 1) * chunkSize, |content|), ChunkAt(content, chunkSize, i))
  {
    var from, to := i * chunkSize, (i + 1) * chunkSize;
    assert to == from + chunkSize;
    ChunkStarts(|content|, chunkSize, i);
  }

  /** The server accepted these bytes as the upload of this local file. */
  ghost predicate AcceptedFor(path: LocalPath, bytes: Bytes, book: Book, accepted: AcceptedFiles) {
    exists id :: id in accepted && id in book.purposes && book.purposes[id].path == path && accepted[id].bytes == bytes
  }

  /** The same, under this destination and the file's own name, in chunks or in one request. */
  ghost predicate AcceptedAs(path: LocalPath, dest: Dest, bytes: Bytes, inChunks: bool, book: Book,
                             accepted: AcceptedFiles)
  {
    exists id ::
      && id in accepted && id in book.purposes && book.purposes[id].path == path
      && (book.purposes[id].chunkSize > 0 <==> inChunks)
      && accepted[id] == Accepted(dest, BaseName(path), bytes)
  }

  ghost predicate StateOk(s: State, book: Book, accepted: AcceptedFiles) {
    && (forall p :: p in s.pending ==> RecordOk(p, s.pending[p], book))
    && (forall p :: p in s.files ==> AcceptedFor(p, s.files[p].checksum.of, book, accepted))
  }

  lemma StateOkWithout(s: State, path: LocalPath, book: Book, accepted: AcceptedFiles)
    requires StateOk(s, book, accepted)
    ensures StateOk(s.(pending := s.pending - {path}), book, accepted)
  {
  }

  lemma StateOkLater(s: State, book: Book, accepted: AcceptedFiles, book': Book, accepted': AcceptedFiles)
    requires StateOk(s, book, accepted) && Later(book, accepted, book', accepted')
    ensures StateOk(s, book', accepted')
  {
    forall p | p in s.files
      ensures AcceptedFor(p, s.files[p].checksum.of, book', accepted')
    {
      var id :| id in accepted && id in book.purposes && book.purposes[id].path == p &&
                accepted[id].bytes == s.files[p].checksum.of;
      assert accepted'[id].bytes == s.files[p].checksum.of;
    }
  }

  /** At most this path's pending record has changed, and the state file may have been saved meanwhile. */
  ghost predicate OnlyPending(path: LocalPath, mem: State, disk: State, mem': State, disk': State) {
    && mem'.files == mem.files && mem'.pending - {path} == mem.pending - {path}
    && (disk' == disk || (disk'.files == mem.files && disk'.pending - {path} == mem.pending - {path}))
  }

  lemma LaterRefl(book: Book, accepted: AcceptedFiles)
    ensures Later(book, accepted, book, accepted)
  {
  }

  lemma LaterTrans(book: Book, accepted: AcceptedFiles, book': Book, accepted': AcceptedFiles,
                   book'': Book, accepted'': AcceptedFiles)
    requires Later(book, accepted, book', accepted') && Later(book', accepted', book'', accepted'')
    ensures Later(book, accepted, book'', accepted'')
  {
  }

  class Syncer {
    const server: UploadServer
    const chunkThreshold: nat
    const configuredChunkSize: nat
    /** The user's files; they change whenever nobody is looking. */
    var local: map<LocalPath, File>
    /** The state in memory, and the state file. */
    var mem: State
    var disk: State
    /** The process is still running; the run has been cancelled. */
    var alive: bool
    var cancelled: bool
    ghost var parts: seq<PartSent>
    /** Sessions the server has been asked to release. */
    ghost var released: set<UploadId>
    /** In this process nothing has gone wrong so far: no step failed, every request was answered with success. */
    ghost var smooth: bool

    constructor (server: UploadServer, chunkThreshold: nat, configuredChunkSize: nat)
      requires server.Faithful()
      ensures Valid() && this.server == server
    {
      this.server, this.chunkThreshold, this.configuredChunkSize := server, chunkThreshold, configuredChunkSize;
      local, mem, disk := map[], State(map[], map[]), State(map[], map[]);
      alive, cancelled, parts, released, smooth := true, false, [], {}, true;
    }

    /** Everything but the agreement of memory with disk. */
    ghost predicate Sound()
      reads this, server
    {
      && server.Faithful()
      && StateOk(mem, server.book, server.accepted)
      && StateOk(disk, server.book, server.accepted)
      && (smooth ==> alive && !cancelled)
      && forall k :: 0 <= k < |parts| ==> parts[k].recorded == Some(parts[k].id)
    }

    /** Every session in memory is in the state file, word for word. */
    ghost predicate Recorded()
      reads this
    {
      forall p :: p in mem.pending ==> p in disk.pending && disk.pending[p] == mem.pending[p]
    }

    ghost predicate Valid()
      reads this, server
    {
      Sound() && Recorded()
    }

    /** The server's history moved on and nothing else changed. */
    lemma SoundLater(book: Book, accepted: AcceptedFiles)
      requires server.Faithful() && Later(book, accepted, server.book, server.accepted)
      requires StateOk(mem, book, accepted) && StateOk(disk, book, accepted)
      requires forall k :: 0 <= k < |parts| ==> parts[k].recorded == Some(parts[k].id)
      requires smooth ==> alive && !cancelled
      ensures Sound()
    {
      StateOkLater(mem, book, accepted, server.book, server.accepted);
      StateOkLater(disk, book, accepted, server.book, server.accepted);
    }

    /** The server has removed the session, or never gave out that id. */
    ghost predicate Gone(id: UploadId)
      reads server
    {
      id in server.book.purposes && server.book.purposes[id].chunkSize > 0 ==> id in server.book.closed
    }

    lemma NotHeldIsGone(id: UploadId)
      requires Sound() && id !in server.sessions
      ensures Gone(id)
    {
    }

    lemma PendingIsOk(path: LocalPath)
      requires Sound() && path in mem.pending
      ensures RecordOk(path, mem.pending[path], server.book) && mem.pending[path].uploadId != 0
    {
    }

    lemma OnDiskIsOk(path: LocalPath)
      requires Sound() && path in disk.pending
      ensures RecordOk(path, disk.pending[path], server.book)
    {
    }

    lemma AcceptedIsDelivered(id: UploadId)
      requires Sound() && id in server.accepted
      ensures Delivered(id, server.accepted[id], server.book)
    {
    }

    /** Chunks that landed and are not there any more were lost by a removal that failed half way. */
    lemma MissingMeansTorn(id: UploadId, total: nat)
      requires Sound() && id in server.sessions && id in server.book.purposes
      requires HasTotal(server.book.purposes[id], total)
      requires forall i: nat :: i < total ==> (id, i) in server.book.landed
      requires !HasAll(server.sessions[id].chunks, server.sessions[id].totalChunks)
      ensures id in server.book.torn
    {
      assert Staged(id, server.sessions[id], server.book);
    }

    // ---------- The process and its network ----------

    /** The process reaches its next step, or has died before it; the run may be cancelled meanwhile. */
    method Survive() returns (up: bool)
      modifies this`alive, this`cancelled, this`smooth
      ensures up == alive && (alive ==> old(alive)) && (old(cancelled) ==> cancelled)
      ensures smooth <==> old(smooth) && alive && !cancelled
    {
      if alive {
        alive := *;
      }
      if !cancelled {
        cancelled := *;
      }
      up := alive;
      smooth := smooth && alive && !cancelled;
    }

    /** A step on the local disk, which may fail. */
    method LocalStep() returns (ok: bool)
      requires Sound()
      modifies this`smooth
      ensures Sound() && (smooth <==> old(smooth) && ok)
    {
      ok := *;
      smooth := smooth && ok;
    }

    /** How a request will fare. Requests given up on earlier may land first. */
    method Send() returns (fate: Fate)
      requires Sound()
      modifies this`alive, this`cancelled, this`smooth, server
      ensures Sound() && Later(old(server.book), old(server.accepted), server.book, server.accepted)
      ensures fate.NeverSent? <==> !alive || cancelled
      ensures (alive ==> old(alive)) && (old(cancelled) ==> cancelled) && (smooth ==> old(smooth))
    {
      var up := Survive();
      server.Settle();
      SoundLater(old(server.book), old(server.accepted));
      fate := *;
      if !up || cancelled {
        fate := NeverSent;
      } else if fate.NeverSent? {
        fate := Dropped;
      }
    }

    /** The error a reply stands for; a dead process sees none. */
    method Heard(fate: Fate, r: Reply) returns (err: Option<Error>)
      modifies this`alive, this`cancelled, this`smooth
      ensures (alive ==> old(alive)) && (old(cancelled) ==> cancelled) && (smooth ==> old(smooth))
      ensures err == None <==> alive && fate.Answered? && r.Done?
      ensures err != None ==> !smooth
      ensures smooth ==> alive && !cancelled
      ensures err == Some(ChunksMissing) ==> fate.Answered? && r.Incomplete?
      ensures err == Some(SessionGone) ==> fate.Answered? && r.NotFound?
    {
      var up := Survive();
      smooth := smooth && fate.Answered? && r.Done?;
      if !up || !(fate.Answered? || fate.Denied?) {
        return Some(NoReply);
      }
      if fate.Denied? {
        return Some(Unauthorized);
      }
      match r
      case Done => err := None;
      case NotFound => err := Some(SessionGone);
      case Incomplete => err := Some(ChunksMissing);
      case Busy => err := Some(Rejected);
      case Refused => err := Some(Rejected);
    }

    // ---------- Requests ----------

    /** A part request on the wire: handled now, later or not at all. */
    method PutPart(fate: Fate, id: UploadId, index: nat, body: Bytes, works: bool) returns (r: Reply)
      requires server.Faithful() && TruePart(id, index, body, server.book)
      modifies server
      ensures server.Faithful() && Later(old(server.book), old(server.accepted), server.book, server.accepted)
      ensures fate.Delayed? ==> LatePart(id, index, body) in server.inFlight
      ensures fate.Arrives() ==>
                (r.Done? <==> id in old(server.sessions) && index < old(server.sessions)[id].totalChunks && works)
      ensures fate.Arrives() ==> (r.NotFound? <==> id !in old(server.sessions))
      ensures r.Done? ==> (id, index) in server.book.landed
      ensures r.NotFound? ==> Gone(id)
      ensures !r.Incomplete?
    {
      r := Refused;
      if fate.Delayed? {
        server.Delay(LatePart(id, index, body));
      } else if fate.Arrives() {
        r := server.HandlePart(id, index, body, works);
      }
    }

    /** A completion request on the wire. */
    method PutComplete(fate: Fate, id: UploadId, full: bool, works: bool, readable: nat, enqueues: bool, discards: bool)
      returns (r: Reply)
      requires server.Faithful()
      modifies server
      ensures server.Faithful() && Later(old(server.book), old(server.accepted), server.book, server.accepted)
      ensures fate.Delayed? ==> LateComplete(id) in server.inFlight
      ensures fate.Arrives() ==>
                (r.Done? <==> id in old(server.sessions) && !full && works && enqueues &&
                              readable >= old(server.sessions)[id].totalChunks &&
                              HasAll(old(server.sessions)[id].chunks, old(server.sessions)[id].totalChunks))
      ensures fate.Arrives() ==> (r.NotFound? <==> id !in old(server.sessions))
      ensures r.Done? ==> id in server.accepted
      ensures r.NotFound? ==> id !in server.sessions
      ensures r.Incomplete? ==> id in server.sessions
      ensures r.Incomplete? ==> !HasAll(server.sessions[id].chunks, server.sessions[id].totalChunks)
    {
      r := Refused;
      if fate.Delayed? {
        server.Delay(LateComplete(id));
      } else if fate.Arrives() {
        r := server.HandleComplete(id, full, works, readable, enqueues, discards);
      }
    }

    /** An abort request on the wire. */
    method PutAbort(fate: Fate, id: UploadId, works: bool) returns (r: Reply)
      requires server.Faithful()
      modifies server
      ensures server.Faithful() && Later(old(server.book), old(server.accepted), server.book, server.accepted)
      ensures fate.Delayed? ==> LateAbort(id) in server.inFlight
      ensures fate.Arrives() ==> (r.Done? <==> id in old(server.sessions) && works)
      ensures fate.Arrives() ==> (r.NotFound? <==> id !in old(server.sessions))
      ensures r.Done? || r.NotFound? ==> id !in server.sessions
    {
      r := Refused;
      if fate.Delayed? {
        server.Delay(LateAbort(id));
      } else if fate.Arrives() {
        r := server.HandleAbort(id, works);
      }
    }

    /** An init request on the wire. */
    method PutInit(fate: Fate, dest: Dest, path: LocalPath, size: nat, totalChunks: int, full: bool,
                   folderExists: bool, works: bool, ghost purpose: Purpose)
      returns (r: Reply, id: UploadId)
      requires server.Faithful() && HasTotal(purpose, totalChunks) && purpose.path == path && purpose.dest == dest
      requires size == |purpose.content|
      modifies server
      ensures server.Faithful() && Later(old(server.book), old(server.accepted), server.book, server.accepted)
      ensures fate.Arrives() ==>
                (r.Done? <==> totalChunks > 0 && size <= 2 * 1024 * 1024 * 1024 && !full && folderExists && works)
      ensures r.Done? ==> id !in old(server.book).purposes && id in server.book.purposes
      ensures r.Done? ==> server.book.purposes[id] == purpose
      ensures !r.Incomplete?
    {
      r, id := Refused, 0;
      if fate.Arrives() {
        BaseNameFlat(path);
        r, id := server.HandleInit(dest, BaseName(path), size, totalChunks, full, folderExists, works, purpose);
      }
    }

    /** A whole file on the wire. */
    method PutFile(fate: Fate, dest: Dest, path: LocalPath, content: Bytes, works: bool) returns (r: Reply)
      requires server.Faithful()
      modifies server
      ensures server.Faithful() && Later(old(server.book), old(server.accepted), server.book, server.accepted)
      ensures fate.Arrives() ==> (r.Done? <==> works)
      ensures r.Done? ==> AcceptedAs(path, dest, content, false, server.book, server.accepted)
    {
      hide UploadServer.Faithful;
      r := Refused;
      if fate.Arrives() {
        BaseNameFlat(path);
        ghost var id;
        r, id := server.HandleUpload(dest, BaseName(path), content, works, Purpose(path, dest, content, 0));
        if r.Done? {
          WholeDelivered(id, path, dest, content);
        }
      }
    }

    lemma WholeDelivered(id: UploadId, path: LocalPath, dest: Dest, content: Bytes)
      requires server.Faithful() && id in server.accepted && id in server.book.purposes
      requires server.book.purposes[id] == Purpose(path, dest, content, 0)
      ensures AcceptedAs(path, dest, content, false, server.book, server.accepted)
    {
      assert Delivered(id, server.accepted[id], server.book);
    }

    /** POST .../chunk/part. */
    method UploadChunk(ghost path: LocalPath, id: UploadId, index: nat, body: Bytes) returns (err: Option<Error>)
      requires Sound() && TruePart(id, index, body, server.book)
      requires path in disk.pending && disk.pending[path].uploadId == id
      modifies this`alive, this`cancelled, this`smooth, this`parts, server
      ensures Sound() && Later(old(server.book), old(server.accepted), server.book, server.accepted)
      ensures err == None ==> (id, index) in server.book.landed
      ensures err != Some(ChunksMissing)
      ensures parts == old(parts) || parts == old(parts) + [PartSent(path, id, index, Some(id))]
      ensures alive && !cancelled ==> |parts| == |old(parts)| + 1
      ensures err == Some(SessionGone) ==> Gone(id)
      ensures err != None ==> !smooth
      ensures (alive ==> old(alive)) && (old(cancelled) ==> cancelled) && (smooth ==> old(smooth))
      ensures !old(alive) || old(cancelled) ==> parts == old(parts)
    {
      hide UploadServer.Faithful, StateOk;
      var fate := Send();
      ghost var book, accepted := server.book, server.accepted;
      if !fate.NeverSent? {
        parts := parts + [PartSent(path, id, index, Some(disk.pending[path].uploadId))];
      }
      var works: bool := *;
      var r := PutPart(fate, id, index, body, works);
      SoundLater(book, accepted);
      err := Heard(fate, r);
    }

    /** GET .../chunk/status. */
    method ChunkStatus(id: UploadId) returns (err: Option<Error>, received: set<nat>, serverTotal: nat)
      requires Sound()
      modifies this`alive, this`cancelled, this`smooth, server
      ensures Sound() && Later(old(server.book), old(server.accepted), server.book, server.accepted)
      ensures err == None ==> id in server.book.purposes && HasTotal(server.book.purposes[id], serverTotal)
      ensures err == Some(SessionGone) ==> Gone(id)
      ensures err == None ==> forall i :: i in received ==> (id, i) in server.book.landed
      ensures err == None && id !in server.book.torn ==>
                forall i :: (id, i) in old(server.book).landed ==> i in received
      ensures err != Some(ChunksMissing)
      ensures err != None ==> !smooth
      ensures (alive ==> old(alive)) && (old(cancelled) ==> cancelled) && (smooth ==> old(smooth))
    {
      var fate := Send();
      var works: bool := *;
      var r, indexes, total := server.HandleStatus(id, works);
      received, serverTotal := Elements(indexes), total;
      assert r.Done? ==> Staged(id, server.sessions[id], server.book);
      err := Heard(fate, r);
    }

    /** POST .../chunk/complete. */
    method CompleteChunkUpload(id: UploadId) returns (err: Option<Error>)
      requires Sound()
      modifies this`alive, this`cancelled, this`smooth, server
      ensures Sound() && Later(old(server.book), old(server.accepted), server.book, server.accepted)
      ensures err == None ==> id in server.accepted
      ensures err == Some(SessionGone) ==> Gone(id)
      ensures err == Some(ChunksMissing) ==> id in server.sessions
      ensures err == Some(ChunksMissing) ==> !HasAll(server.sessions[id].chunks, server.sessions[id].totalChunks)
      ensures err != None ==> !smooth
      ensures (alive ==> old(alive)) && (old(cancelled) ==> cancelled) && (smooth ==> old(smooth))
    {
      hide UploadServer.Faithful, StateOk;
      var fate := Send();
      ghost var book, accepted := server.book, server.accepted;
      var full: bool, works: bool, readable: nat, enqueues: bool, discards: bool := *, *, *, *, *;
      var r := PutComplete(fate, id, full, works, readable, enqueues, discards);
      SoundLater(book, accepted);
      if id !in server.sessions {
        NotHeldIsGone(id);
      }
      err := Heard(fate, r);
    }

    /** POST .../chunk/abort; a session the server has forgotten counts as aborted. */
    method AbortChunkUpload(id: UploadId) returns (err: Option<Error>)
      requires Sound()
      modifies this`alive, this`cancelled, this`smooth, this`released, server
      ensures released == old(released) || released == old(released) + {id}
      ensures alive && !cancelled ==> id in released
      ensures Sound() && Later(old(server.book), old(server.accepted), server.book, server.accepted)
      ensures err == None ==> Gone(id)
      ensures err != None ==> !smooth
      ensures (alive ==> old(alive)) && (old(cancelled) ==> cancelled) && (smooth ==> old(smooth))
      ensures err != Some(SessionGone)
      ensures !old(alive) || old(cancelled) ==> released == old(released)
    {
      hide UploadServer.Faithful, StateOk;
      var fate := Send();
      ghost var book, accepted := server.book, server.accepted;
      if !fate.NeverSent? {
        released := released + {id};
      }
      var works: bool := *;
      var r := PutAbort(fate, id, works);
      SoundLater(book, accepted);
      if id !in server.sessions {
        NotHeldIsGone(id);
      }
      err := Heard(fate, r);
      if err == Some(SessionGone) {
        err := None;
      }
    }

    /** POST .../chunk/init. */
    method PostInit(path: LocalPath, dest: Dest, size: nat, totalChunks: int, ghost purpose: Purpose)
      returns (err: Option<Error>, id: UploadId)
      requires Sound() && HasTotal(purpose, totalChunks) && purpose.path == path && purpose.dest == dest
      requires size == |purpose.content|
      modifies this`alive, this`cancelled, this`smooth, server
      ensures Sound() && Later(old(server.book), old(server.accepted), server.book, server.accepted)
      ensures err == None ==> id in server.book.purposes && server.book.purposes[id] == purpose
      ensures err == None ==> id !in old(server.book).purposes
      ensures err != Some(ChunksMissing)
      ensures err != None ==> !smooth
      ensures (alive ==> old(alive)) && (old(cancelled) ==> cancelled) && (smooth ==> old(smooth))
    {
      var fate := Send();
      ghost var book, accepted := server.book, server.accepted;
      var full: bool, folderExists: bool, works: bool := *, *, *;
      var r;
      r, id := PutInit(fate, dest, path, size, totalChunks, full, folderExists, works, purpose);
      SoundLater(book, accepted);
      err := Heard(fate, r);
    }

    /** POST /storage/file/upload. */
    method UploadFile(path: LocalPath, dest: Dest) returns (err: Option<Error>)
      requires Sound()
      modifies this`alive, this`cancelled, this`smooth, server
      ensures Sound() && Later(old(server.book), old(server.accepted), server.book, server.accepted)
      ensures err == None ==>
                path in local && AcceptedAs(path, dest, local[path].content, false, server.book, server.accepted)
      ensures err != None && path in local ==> !smooth
      ensures (alive ==> old(alive)) && (old(cancelled) ==> cancelled) && (smooth ==> old(smooth))
    {
      var readable := LocalStep();
      if path !in local || !readable {
        return Some(LocalIO);
      }
      var fate := Send();
      ghost var book, accepted := server.book, server.accepted;
      var works: bool := *;
      var r := PutFile(fate, dest, path, local[path].content, works);
      SoundLater(book, accepted);
      err := Heard(fate, r);
    }

    // ---------- Chunked uploads ----------

    function ChunkSize(): (c: nat)
      ensures c > 0
    {
      if configuredChunkSize > 0 then configuredChunkSize else DEFAULT_CHUNK_SIZE
    }

    /** Registers a session for the file as it is now; no bytes are sent yet. */
    method StartChunkedUpload(dest: Dest, path: LocalPath) returns (err: Option<Error>, sess: ChunkUploadSession)
      requires Sound()
      modifies this`alive, this`cancelled, this`smooth, server
      ensures Sound() && Later(old(server.book), old(server.accepted), server.book, server.accepted)
      ensures err == None ==> path in local && sess.uploadId in server.book.purposes
      ensures err == None ==> sess.uploadId !in old(server.book).purposes && sess.uploadId != 0
      ensures err == None ==>
                server.book.purposes[sess.uploadId] == Purpose(path, dest, local[path].content, sess.chunkSize)
      ensures err == None ==> HasTotal(server.book.purposes[sess.uploadId], sess.totalChunks)
      ensures err != Some(ChunksMissing)
      ensures err != None && path in local ==> !smooth
      ensures (alive ==> old(alive)) && (old(cancelled) ==> cancelled) && (smooth ==> old(smooth))
    {
      sess := ChunkUploadSession(0, 0, 0);
      if path !in local {
        return Some(LocalIO), sess;
      }
      var size, chunkSize := |local[path].content|, ChunkSize();
      var totalChunks := ChunkCount(size, chunkSize);
      var id;
      err, id := PostInit(path, dest, size, totalChunks, Purpose(path, dest, local[path].content, chunkSize));
      sess := ChunkUploadSession(id, chunkSize, totalChunks);
    }

    /** If the session's chunk count still fits the file, the session was opened for exactly its bytes. */
    ghost predicate Fits(sess: ChunkUploadSession, path: LocalPath)
      reads this, server
    {
      sess.uploadId in server.book.purposes && path in local && sess.chunkSize > 0 &&
      HasTotal(server.book.purposes[sess.uploadId], ChunkCount(|local[path].content|, sess.chunkSize)) ==>
        && server.book.purposes[sess.uploadId].content == local[path].content
        && server.book.purposes[sess.uploadId].chunkSize == sess.chunkSize
    }

    /** A complete session record that still chunks the file up as it says. */
    ghost predicate Intact(sess: ChunkUploadSession, path: LocalPath)
      reads this, server
    {
      && sess.uploadId != 0 && sess.chunkSize > 0 && path in local
      && sess.totalChunks == ChunkCount(|local[path].content|, sess.chunkSize)
      && sess.uploadId in server.book.purposes && HasTotal(server.book.purposes[sess.uploadId], sess.totalChunks)
    }

    ghost predicate OnDisk(sess: ChunkUploadSession, path: LocalPath)
      reads this
    {
      path in disk.pending && disk.pending[path].uploadId == sess.uploadId
    }

    /** The bytes of chunk `i`, cut off at the end of the file. */
    function Section(content: Bytes, chunkSize: nat, i: nat): (s: Bytes)
      requires i * chunkSize <= |content|
      ensures s == ChunkAt(content, chunkSize, i)
    {
      var offset := i * chunkSize;
      assert (i + 1) * chunkSize == offset + chunkSize;
      Cut(content, offset, chunkSize)
    }

    function Cut(content: Bytes, offset: nat, chunkSize: nat): (s: Bytes)
      requires offset <= |content|
      ensures s == content[offset..Min(offset + chunkSize, |content|)]
    {
      var n := if |content| - offset < chunkSize then |content| - offset else chunkSize;
      content[offset..offset + n]
    }

    /** These parts of the session were sent, none that the server was known to have unless it lost it. */
    ghost predicate OnlyMissing(sent: seq<PartSent>, path: LocalPath, sess: ChunkUploadSession, received: set<nat>)
      reads server
    {
      forall k :: 0 <= k < |sent| ==>
        && sent[k].path == path && sent[k].id == sess.uploadId && sent[k].index < sess.totalChunks
        && (sess.uploadId !in server.book.torn ==> sent[k].index !in received)
    }

    /** The received set the server reports now, or the one known before if it does not answer. */
    method ReRead(id: UploadId, known: set<nat>) returns (now: set<nat>, answered: bool)
      requires Sound() && forall j :: j in known ==> (id, j) in server.book.landed
      modifies this`alive, this`cancelled, this`smooth, server
      ensures Sound() && Later(old(server.book), old(server.accepted), server.book, server.accepted)
      ensures forall j :: j in now ==> (id, j) in server.book.landed
      ensures id !in server.book.torn ==> known <= now
      ensures !answered ==> now == known && !smooth
      ensures (alive ==> old(alive)) && (old(cancelled) ==> cancelled) && (smooth ==> old(smooth))
    {
      var err, got, _ := ChunkStatus(id);
      answered := err == None;
      now := if answered then got else known;
    }

    /** Up to three attempts at one chunk, asking the server what it has after each failure. */
    method SendChunk(sess: ChunkUploadSession, path: LocalPath, i: nat, body: Bytes, received: set<nat>)
      returns (err: Option<Error>, now: set<nat>)
      requires Sound() && OnDisk(sess, path) && TruePart(sess.uploadId, i, body, server.book) && i !in received
      requires forall j :: j in received ==> (sess.uploadId, j) in server.book.landed
      modifies this`alive, this`cancelled, this`smooth, this`parts, server
      ensures Sound() && Later(old(server.book), old(server.accepted), server.book, server.accepted)
      ensures err == None ==> (sess.uploadId, i) in server.book.landed
      ensures sess.uploadId !in server.book.torn ==> received <= now
      ensures forall j :: j in now ==> (sess.uploadId, j) in server.book.landed
      ensures err != Some(ChunksMissing)
      // A chunk the server is known to have by now is never given up on.
      ensures err != None ==> i !in now
      ensures old(parts) <= parts && |parts| <= |old(parts)| + MAX_CHUNK_ATTEMPTS
      // It gives up only after the last attempt, or when retrying cannot help.
      ensures err != None && alive && !cancelled && err != Some(Unauthorized) && err != Some(SessionGone) ==>
                |parts| == |old(parts)| + MAX_CHUNK_ATTEMPTS
      ensures err == Some(SessionGone) ==> Gone(sess.uploadId)
      ensures forall k :: |old(parts)| <= k < |parts| ==>
                parts[k] == PartSent(path, sess.uploadId, i, Some(sess.uploadId))
      ensures err != None ==> !smooth
      ensures (alive ==> old(alive)) && (old(cancelled) ==> cancelled) && (smooth ==> old(smooth))
    {
      hide UploadServer.Faithful, StateOk;
      now, err := received, None;
      for attempt := 1 to MAX_CHUNK_ATTEMPTS + 1
        invariant Sound() && Later(old(server.book), old(server.accepted), server.book, server.accepted)
        invariant TruePart(sess.uploadId, i, body, server.book)
        invariant forall j :: j in now ==> (sess.uploadId, j) in server.book.landed
        invariant sess.uploadId !in server.book.torn ==> received <= now
        invariant i !in now
        invariant attempt > 1 ==> err != None && err != Some(ChunksMissing) && err != Some(SessionGone) && !smooth
        invariant alive && !cancelled ==> |parts| == |old(parts)| + attempt - 1
        invariant old(parts) <= parts && |parts| <= |old(parts)| + attempt - 1
        invariant forall k :: |old(parts)| <= k < |parts| ==>
                  parts[k] == PartSent(path, sess.uploadId, i, Some(sess.uploadId))
        invariant (alive ==> old(alive)) && (old(cancelled) ==> cancelled) && (smooth ==> old(smooth))
      {
        err := UploadChunk(path, sess.uploadId, i, body);
        if err == None {
          return;
        }
        if cancelled || err == Some(Unauthorized) || err == Some(SessionGone) {
          return;                              // retrying cannot help
        }
        var answered;
        now, answered := ReRead(sess.uploadId, now);
        if answered && i in now {
          err := None;                         // the failed request had landed after all
          return;
        }
      }
    }

    /** Pushes every chunk the server does not already have, in order. */
    method SendChunks(sess: ChunkUploadSession, path: LocalPath, content: Bytes, received: set<nat>)
      returns (err: Option<Error>)
      requires Sound() && OnDisk(sess, path) && sess.uploadId in server.book.purposes
      requires server.book.purposes[sess.uploadId].content == content
      requires server.book.purposes[sess.uploadId].chunkSize == sess.chunkSize
      requires HasTotal(server.book.purposes[sess.uploadId], sess.totalChunks)
      requires forall j :: j in received ==> (sess.uploadId, j) in server.book.landed
      modifies this`alive, this`cancelled, this`smooth, this`parts, server
      ensures Sound() && Later(old(server.book), old(server.accepted), server.book, server.accepted)
      ensures err == None ==> forall i: nat :: i < sess.totalChunks ==> (sess.uploadId, i) in server.book.landed
      ensures err == Some(SessionGone) ==> Gone(sess.uploadId)
      ensures err != Some(ChunksMissing)
      ensures old(parts) <= parts && |parts| <= |old(parts)| + sess.totalChunks * MAX_CHUNK_ATTEMPTS
      ensures OnlyMissing(parts[|old(parts)|..], path, sess, received)
      ensures err != None ==> !smooth
      ensures (alive ==> old(alive)) && (old(cancelled) ==> cancelled) && (smooth ==> old(smooth))
    {
      hide UploadServer.Faithful, StateOk;
      var now := received;
      for i := 0 to sess.totalChunks
        invariant Sound() && Later(old(server.book), old(server.accepted), server.book, server.accepted)
        invariant forall j: nat :: j < i ==> (sess.uploadId, j) in server.book.landed
        invariant forall j :: j in now ==> (sess.uploadId, j) in server.book.landed
        invariant sess.uploadId !in server.book.torn ==> received <= now
        invariant old(parts) <= parts && |parts| <= |old(parts)| + i * MAX_CHUNK_ATTEMPTS
        invariant OnlyMissing(parts[|old(parts)|..], path, sess, received)
        invariant (alive ==> old(alive)) && (old(cancelled) ==> cancelled) && (smooth ==> old(smooth))
      {
        if i in now {
          continue;
        }
        ChunkStarts(|content|, sess.chunkSize, i);
        err, now := SendChunk(sess, path, i, Section(content, sess.chunkSize, i), now);
        if err != None {
          return;
        }
      }
      err := None;
    }

    /** The second half of a resumed upload, once the server has said what it has. */
    method SendAndComplete(sess: ChunkUploadSession, path: LocalPath, content: Bytes, received: set<nat>)
      returns (err: Option<Error>)
      requires Sound() && OnDisk(sess, path) && sess.uploadId in server.book.purposes
      requires server.book.purposes[sess.uploadId].content == content
      requires server.book.purposes[sess.uploadId].chunkSize == sess.chunkSize
      requires HasTotal(server.book.purposes[sess.uploadId], sess.totalChunks)
      requires forall j :: j in received ==> (sess.uploadId, j) in server.book.landed
      modifies this`alive, this`cancelled, this`smooth, this`parts, server
      ensures Sound() && Later(old(server.book), old(server.accepted), server.book, server.accepted)
      ensures err == None ==> sess.uploadId in server.accepted && server.accepted[sess.uploadId].bytes == content
      ensures err == Some(ChunksMissing) ==> sess.uploadId in server.book.torn
      ensures err == Some(SessionGone) ==> Gone(sess.uploadId)
      ensures err != None ==> !smooth
      ensures old(parts) <= parts && OnlyMissing(parts[|old(parts)|..], path, sess, received)
      ensures (alive ==> old(alive)) && (old(cancelled) ==> cancelled) && (smooth ==> old(smooth))
    {
      hide UploadServer.Faithful, StateOk, Staged, Sliced, HasAll, Syncer.Sound;
      err := SendChunks(sess, path, content, received);
      if err != None {
        return;
      }
      ghost var sent := parts[|old(parts)|..];
      err := CompleteChunkUpload(sess.uploadId);
      assert parts[|old(parts)|..] == sent;
      if err == None {
        AcceptedIsDelivered(sess.uploadId);
      } else if err == Some(ChunksMissing) {
        MissingMeansTorn(sess.uploadId, sess.totalChunks);
      }
    }

    /**
     * Sends what the server still lacks and completes the upload. A clean return means the server has
     * assembled this very file; it never finds chunks missing unless it lost some itself.
     */
    method ResumeChunkedUpload(sess: ChunkUploadSession, path: LocalPath) returns (err: Option<Error>)
      requires Sound() && OnDisk(sess, path) && Fits(sess, path)
      modifies this`alive, this`cancelled, this`smooth, this`parts, server
      ensures Sound() && Later(old(server.book), old(server.accepted), server.book, server.accepted)
      ensures err == None ==> path in local && sess.uploadId in server.accepted &&
                              server.accepted[sess.uploadId].bytes == local[path].content
      ensures err == Some(ChunksMissing) ==> sess.uploadId in server.book.torn
      ensures err == Some(SessionGone) && Intact(sess, path) ==> Gone(sess.uploadId)
      ensures old(parts) <= parts && forall k :: |old(parts)| <= k < |parts| ==> parts[k].id == sess.uploadId
      ensures err != None && Intact(sess, path) ==> !smooth
      // No chunk is sent that had landed already, unless the server has lost some.
      ensures sess.uploadId !in server.book.torn ==>
                forall k :: |old(parts)| <= k < |parts| ==>
                  (sess.uploadId, parts[k].index) !in old(server.book).landed
      ensures (alive ==> old(alive)) && (old(cancelled) ==> cancelled) && (smooth ==> old(smooth))
      ensures sess.uploadId == 0 || sess.chunkSize <= 0 || sess.totalChunks <= 0 ==>
                err == Some(SessionGone) && parts == old(parts)
    {
      hide UploadServer.Faithful, StateOk, Staged, Delivered, Sliced, HasAll, Syncer.Sound;
      OnDiskIsOk(path);
      if sess.uploadId == 0 || sess.chunkSize <= 0 || sess.totalChunks <= 0 {
        return Some(SessionGone);              // incomplete session record
      }
      var opens := LocalStep();
      if path !in local || !opens {
        return Some(LocalIO);
      }
      var content := local[path].content;
      if ChunkCount(|content|, sess.chunkSize) != sess.totalChunks {
        return Some(SessionGone);              // the file now chunks up differently
      }
      var received, serverTotal;
      err, received, serverTotal := ChunkStatus(sess.uploadId);
      if err != None {
        return;
      }
      if serverTotal != sess.totalChunks {
        return Some(SessionGone);
      }
      err := SendAndComplete(sess, path, content, received);
    }

    // ---------- The state file ----------

    /** Replaces the state file as a whole, or leaves it as it was. */
    method Save() returns (ok: bool)
      requires Sound()
      modifies this`disk, this`alive, this`cancelled, this`smooth
      ensures Sound()
      ensures disk == mem || disk == old(disk)
      ensures ok ==> disk == mem
      ensures !ok && alive ==> disk == old(disk)
      ensures !ok ==> !smooth
      ensures (alive ==> old(alive)) && (old(cancelled) ==> cancelled) && (smooth ==> old(smooth))
      ensures old(alive) || disk == old(disk)
    {
      ok := Survive();
      if !ok {
        return;
      }
      ok := *;
      smooth := smooth && ok;
      if ok {
        disk := mem;
        ok := Survive();
      }
    }

    /** Forgets any session recorded for the path and tells the server to release it. */
    method DiscardPending(path: LocalPath)
      requires Sound()
      modifies this`mem, this`alive, this`cancelled, this`smooth, this`released, server
      ensures Sound() && Later(old(server.book), old(server.accepted), server.book, server.accepted)
      ensures mem == old(mem).(pending := old(mem).pending - {path})
      ensures old(released) <= released
      ensures path in old(mem).pending && alive && !cancelled ==> old(mem).pending[path].uploadId in released
      ensures (alive ==> old(alive)) && (old(cancelled) ==> cancelled) && (smooth ==> old(smooth))
    {
      if path !in mem.pending {
        assert mem.pending - {path} == mem.pending;
        return;
      }
      var p := mem.pending[path];
      mem := mem.(pending := mem.pending - {path});
      var _ := AbortChunkUpload(p.uploadId);
    }

    // ---------- One file ----------

    /** A record made for the file as it is now. */
    ghost predicate RecordsFile(path: LocalPath)
      reads this
    {
      path in mem.pending && path in local && mem.pending[path].checksum == Sha256(local[path].content)
    }

    /** The record goes into memory; the state file does not have it yet. */
    method Note(path: LocalPath, rec: PendingUpload)
      requires Sound() && RecordOk(path, rec, server.book)
      modifies this`mem
      ensures Sound() && mem == old(mem).(pending := old(mem).pending[path := rec])
    {
      mem := mem.(pending := mem.pending[path := rec]);
    }

    /** A record of an upload started now. */
    ghost predicate MadeNow(rec: PendingUpload, info: Info, dest: Dest, sum: Checksum, now: int) {
      && rec.uploadId != 0 && rec.size == info.size && rec.checksum == sum && rec.dest == dest
      && rec.startedAt == now
    }

    /** Opens a session and records it in the state file before a single byte goes out. */
    method StartRecorded(path: LocalPath, info: Info, dest: Dest, sum: Checksum, now: int) returns (err: Option<Error>)
      requires Valid() && path !in mem.pending && path in local && sum == Sha256(local[path].content)
      modifies this`mem, this`disk, this`alive, this`cancelled, this`smooth, this`released, server
      ensures Valid()
      ensures Later(old(server.book), old(server.accepted), server.book, server.accepted)
      ensures OnlyPending(path, old(mem), old(disk), mem, disk)
      ensures err == None ==> RecordsFile(path) && mem.pending[path].dest == dest && disk == mem
      ensures err == None ==> MadeNow(mem.pending[path], info, dest, sum, now)
      ensures err == None ==> mem.pending[path].uploadId !in old(server.book).purposes
      ensures old(released) <= released
      ensures err != None ==> mem == old(mem)
      ensures err != Some(ChunksMissing)
      ensures err != None ==> !smooth
      ensures (alive ==> old(alive)) && (old(cancelled) ==> cancelled) && (smooth ==> old(smooth))
    {
      hide UploadServer.Faithful, StateOk, Syncer.Sound;
      var sess;
      err, sess := StartChunkedUpload(dest, path);
      if err != None {
        return;
      }
      Note(path, PendingUpload(sess.uploadId, sess.chunkSize, sess.totalChunks, info.size, sum, dest, now));
      assert mem.pending - {path} == old(mem).pending;
      var saved := Save();
      if !saved {
        DiscardPending(path);                  // what cannot be recorded can never be resumed
        err := Some(NotSaved);
      }
    }

    /** Sends the rest of a recorded upload; the record goes once the server has the file. */
    method ResumePending(path: LocalPath) returns (err: Option<Error>)
      requires Valid() && RecordsFile(path)
      modifies this`mem, this`alive, this`cancelled, this`smooth, this`parts, server
      ensures Valid()
      ensures Later(old(server.book), old(server.accepted), server.book, server.accepted)
      ensures old(parts) <= parts
      ensures err != None ==> mem == old(mem)
      ensures err == None ==> mem == old(mem).(pending := old(mem).pending - {path})
      ensures err == None ==>
                AcceptedAs(path, old(mem).pending[path].dest, local[path].content, true, server.book, server.accepted)
      ensures err == Some(ChunksMissing) ==> mem.pending[path].uploadId in server.book.torn
      ensures err == Some(SessionGone) ==> Gone(mem.pending[path].uploadId)
      ensures forall k :: |old(parts)| <= k < |parts| ==> parts[k].id == old(mem).pending[path].uploadId
      ensures err != None ==> !smooth
      ensures mem.pending == old(mem).pending || err == None
      ensures old(mem).pending[path].uploadId !in server.book.torn ==>
                forall k :: |old(parts)| <= k < |parts| ==>
                  (old(mem).pending[path].uploadId, parts[k].index) !in old(server.book).landed
      ensures (alive ==> old(alive)) && (old(cancelled) ==> cancelled) && (smooth ==> old(smooth))
    {
      hide UploadServer.Faithful, StateOk;
      var sess := mem.pending[path].Session();
      PendingIsOk(path);
      err := ResumeChunkedUpload(sess, path);
      assert Intact(sess, path);
      StateOkWithout(mem, path, server.book, server.accepted);
      if err == None {
        AcceptedIsDelivered(sess.uploadId);
        mem := mem.(pending := mem.pending - {path});
      }
    }

    method StartOver(path: LocalPath, info: Info, dest: Dest, sum: Checksum, now: int) returns (err: Option<Error>)
      requires Valid() && path !in mem.pending && path in local && sum == Sha256(local[path].content)
      modifies this`mem, this`disk, this`alive, this`cancelled, this`smooth, this`parts, this`released, server
      ensures Valid()
      ensures Later(old(server.book), old(server.accepted), server.book, server.accepted)
      ensures OnlyPending(path, old(mem), old(disk), mem, disk) && old(parts) <= parts
      ensures err == None ==> path !in mem.pending
      ensures err == None ==> AcceptedAs(path, dest, local[path].content, true, server.book, server.accepted)
      ensures err == Some(ChunksMissing) ==> path in mem.pending && mem.pending[path].uploadId in server.book.torn
      ensures forall k :: |old(parts)| <= k < |parts| ==> parts[k].id !in old(server.book).purposes
      ensures old(released) <= released
      ensures err != None ==> !smooth
      ensures path in mem.pending ==>
                && MadeNow(mem.pending[path], info, dest, sum, now)
                && mem.pending[path].uploadId !in old(server.book).purposes
      ensures (alive ==> old(alive)) && (old(cancelled) ==> cancelled) && (smooth ==> old(smooth))
    {
      hide UploadServer.Faithful, StateOk;
      err := StartRecorded(path, info, dest, sum, now);
      if err == None {
        err := ResumePending(path);
      }
    }

    /** The record is of this very upload, and less than seven days old. */
    ghost predicate Usable(s: State, path: LocalPath, info: Info, dest: Dest, sum: Checksum, now: int) {
      && path in s.pending
      && s.pending[path].uploadId != 0 && s.pending[path].size == info.size && s.pending[path].checksum == sum
      && s.pending[path].dest == dest && now - s.pending[path].startedAt < 7 * 24 * 3600
    }

    /** Everything sent since went to this session, and had not landed there before unless some was lost. */
    ghost predicate OnlyLacking(id: UploadId, before: seq<PartSent>, after: seq<PartSent>, book: Book)
      reads server
    {
      forall k :: |before| <= k < |after| ==>
        after[k].id == id && (id !in server.book.torn ==> (id, after[k].index) !in book.landed)
    }

    /** Resumes the recorded session if it still fits the file, and lets go of it otherwise. */
    method TryRecorded(path: LocalPath, info: Info, dest: Dest, sum: Checksum, now: int)
      returns (settled: bool, err: Option<Error>)
      requires Valid() && path in local && sum == Sha256(local[path].content)
      modifies this`mem, this`alive, this`cancelled, this`smooth, this`parts, this`released, server
      ensures Valid()
      ensures Later(old(server.book), old(server.accepted), server.book, server.accepted)
      ensures old(parts) <= parts
      ensures mem == old(mem) || mem == old(mem).(pending := old(mem).pending - {path})
      ensures settled && err != None ==> mem == old(mem) && path in mem.pending
      ensures settled && err == None ==> path !in mem.pending
      ensures settled && err == None ==> AcceptedAs(path, dest, local[path].content, true, server.book, server.accepted)
      ensures settled && err == Some(ChunksMissing) ==> mem.pending[path].uploadId in server.book.torn
      ensures !settled ==> path !in mem.pending
      // A usable session is given up only once the server no longer has it ...
      ensures Usable(old(mem), path, info, dest, sum, now) && !settled ==>
                Gone(old(mem).pending[path].uploadId)
      // ... and one that is not usable gets no bytes and is released.
      ensures !Usable(old(mem), path, info, dest, sum, now) ==> !settled && parts == old(parts)
      ensures path in old(mem).pending && !Usable(old(mem), path, info, dest, sum, now) && alive && !cancelled ==>
                old(mem).pending[path].uploadId in released
      // Its parts go on that session only, each once it is known to be lacking, and it is not released.
      ensures Usable(old(mem), path, info, dest, sum, now) ==>
                && released == old(released)
                && OnlyLacking(old(mem).pending[path].uploadId, old(parts), parts, old(server.book))
      ensures path !in old(mem).pending ==> released == old(released)
      ensures settled && err != None ==> !smooth
      ensures Usable(old(mem), path, info, dest, sum, now) && !settled ==> !smooth
      ensures old(released) <= released
      ensures (alive ==> old(alive)) && (old(cancelled) ==> cancelled) && (smooth ==> old(smooth))
    {
      hide UploadServer.Faithful, StateOk;
      settled, err := false, None;
      if path !in mem.pending {
        return;
      }
      if !mem.pending[path].Resumable(info.size, sum, dest, now) {
        DiscardPending(path);
        return;
      }
      err := ResumePending(path);
      settled := err != Some(SessionGone);     // done, or worth another try in a later run
      if !settled {
        StateOkWithout(mem, path, server.book, server.accepted);
        mem := mem.(pending := mem.pending - {path});
      }
    }

    /** Resumes a usable stored session, and otherwise starts a fresh one. */
    method UploadChunked(path: LocalPath, info: Info, dest: Dest, sum: Checksum, now: int) returns (err: Option<Error>)
      requires Valid() && path in local && sum == Sha256(local[path].content)
      modifies this`mem, this`disk, this`alive, this`cancelled, this`smooth, this`parts, this`released, server
      ensures Valid()
      ensures Later(old(server.book), old(server.accepted), server.book, server.accepted)
      ensures OnlyPending(path, old(mem), old(disk), mem, disk) && old(parts) <= parts
      ensures err == None ==> path !in mem.pending
      ensures err == None ==> AcceptedAs(path, dest, local[path].content, true, server.book, server.accepted)
      ensures err == Some(ChunksMissing) ==> path in mem.pending && mem.pending[path].uploadId in server.book.torn
      // A record of this very upload less than seven days old is resumed: unless the server no longer has the
      // session, it gets every part that is sent, each once it is known to be lacking, it is not released,
      // and on an error it keeps its record.
      ensures path in old(mem).pending ==>
                var rec := old(mem).pending[path];
                if rec.uploadId != 0 && rec.size == info.size && rec.checksum == sum && rec.dest == dest &&
                   now - rec.startedAt < 604800
                then
                  Gone(rec.uploadId) ||
                  (&& OnlyLacking(rec.uploadId, old(parts), parts, old(server.book)) && released == old(released)
                   && (err != None ==> path in mem.pending && mem.pending[path] == rec))
                // Any other gets no more bytes, and the server is asked to release it.
                else
                  && (forall k :: |old(parts)| <= k < |parts| ==> parts[k].id != rec.uploadId)
                  && (alive && !cancelled ==> rec.uploadId in released)
      ensures path in mem.pending ==>
                (path in old(mem).pending && mem.pending[path] == old(mem).pending[path]) ||
                MadeNow(mem.pending[path], info, dest, sum, now)
      ensures err != None ==> !smooth
      ensures (alive ==> old(alive)) && (old(cancelled) ==> cancelled) && (smooth ==> old(smooth))
    {
      hide UploadServer.Faithful, StateOk;
      if path in mem.pending {
        PendingIsOk(path);
      }
      var settled;
      settled, err := TryRecorded(path, info, dest, sum, now);
      if !settled {
        err := StartOver(path, info, dest, sum, now);
      }
    }

    /** One multipart POST for a small file, the resumable flow for a large one. */
    method Upload(path: LocalPath, info: Info, dest: Dest, sum: Checksum, now: int) returns (err: Option<Error>)
      requires Valid() && path in local && sum == Sha256(local[path].content)
      modifies this`mem, this`disk, this`alive, this`cancelled, this`smooth, this`parts, this`released, server
      ensures Valid()
      ensures OnlyPending(path, old(mem), old(disk), mem, disk) && old(parts) <= parts
      ensures err == None ==> path !in mem.pending
      ensures err == None ==>
                AcceptedAs(path, dest, local[path].content, info.size > chunkThreshold, server.book, server.accepted)
      ensures info.size <= chunkThreshold ==> parts == old(parts)
      ensures err != None ==> !smooth
      ensures Later(old(server.book), old(server.accepted), server.book, server.accepted)
      ensures (alive ==> old(alive)) && (old(cancelled) ==> cancelled) && (smooth ==> old(smooth))
    {
      if info.size <= chunkThreshold {
        DiscardPending(path);
        err := UploadFile(path, dest);
      } else {
        err := UploadChunked(path, info, dest, sum, now);
      }
    }

    /** Nothing to upload: the walk reports the file as it was, or its bytes are those last accepted. */
    ghost predicate Unchanged(path: LocalPath, info: Info, last: FileState)
      reads this
    {
      || (info.size == last.size && info.mtime == last.mtime)
      || (path in local && last.checksum == Sha256(local[path].content))
    }

    /** Nothing to send: the entry is refreshed and any session left from an earlier attempt let go. */
    method Skip(path: LocalPath, entry: FileState) returns (r: Result)
      requires Valid() && path in mem.files && entry.checksum == mem.files[path].checksum
      modifies this`mem, this`alive, this`cancelled, this`smooth, this`released, server
      ensures Valid()
      ensures r == Result(0, 1, 0)
      ensures mem == State(old(mem).files[path := entry], old(mem).pending - {path})
      ensures Later(old(server.book), old(server.accepted), server.book, server.accepted)
      ensures (alive ==> old(alive)) && (old(cancelled) ==> cancelled) && (smooth ==> old(smooth))
    {
      mem := mem.(files := mem.files[path := entry]);
      DiscardPending(path);
      r := Result(0, 1, 0);
    }

    /** Notes the file as uploaded, with the hash of bytes the server has accepted. */
    method NoteFile(path: LocalPath, info: Info, dest: Dest, sum: Checksum)
      requires Valid() && path in local && sum == Sha256(local[path].content)
      requires AcceptedAs(path, dest, local[path].content, info.size > chunkThreshold, server.book, server.accepted)
      modifies this`mem
      ensures Valid() && mem == old(mem).(files := old(mem).files[path := FileState(info.size, info.mtime, sum)])
    {
      hide UploadServer.Faithful;
      mem := mem.(files := mem.files[path := FileState(info.size, info.mtime, sum)]);
    }

    /** Sends a file that is definitely to be sent and, once the server has it, records what was sent. */
    method SendNew(path: LocalPath, info: Info, dest: Dest, sum: Checksum, now: int, folderMade: bool)
      returns (r: Result)
      requires Valid() && path in local && sum == Sha256(local[path].content)
      modifies this`mem, this`disk, this`alive, this`cancelled, this`smooth, this`parts, this`released, server
      ensures Valid()
      ensures r == Result(1, 0, 0) || r == Result(0, 0, 1)
      ensures r.uploaded == 1 ==>
                AcceptedAs(path, dest, local[path].content, info.size > chunkThreshold, server.book, server.accepted)
      ensures mem.files == if r.failed == 1 then old(mem).files
                           else old(mem).files[path := FileState(info.size, info.mtime, sum)]
      ensures mem.pending - {path} == old(mem).pending - {path} && (r.uploaded == 1 ==> path !in mem.pending)
      ensures old(parts) <= parts
      ensures Later(old(server.book), old(server.accepted), server.book, server.accepted)
      ensures r.failed == 1 ==> !smooth || !folderMade
      ensures !folderMade ==> r.failed == 1 && parts == old(parts)
      ensures (alive ==> old(alive)) && (old(cancelled) ==> cancelled) && (smooth ==> old(smooth))
    {
      hide Syncer.Sound, AcceptedAs;
      if !folderMade {                         // ensureFolder
        return Result(0, 0, 1);
      }
      var err := Upload(path, info, dest, sum, now);
      if err != None {
        return Result(0, 0, 1);
      }
      NoteFile(path, info, dest, sum);
      r := Result(1, 0, 0);
    }

    /**
     * Uploads one file if it is new or changed. Whatever happens counts once; an entry is written only
     * for bytes the server accepted, and no other file's entry or record is touched. `folderMade` tells
     * whether the folder it goes into is there, or could be made.
     */
    method UploadOne(path: LocalPath, info: Info, dest: Dest, force: bool, now: int, folderMade: bool)
      returns (r: Result)
      requires Valid()
      modifies this`mem, this`disk, this`alive, this`cancelled, this`smooth, this`parts, this`released, server
      ensures Valid()
      ensures r == Result(1, 0, 0) || r == Result(0, 1, 0) || r == Result(0, 0, 1)
      ensures r.failed == 1 ==> mem.files == old(mem).files
      ensures r.uploaded == 1 ==> path in local && folderMade
      ensures r.uploaded == 1 ==>
                AcceptedAs(path, dest, local[path].content, info.size > chunkThreshold, server.book, server.accepted)
      ensures r.uploaded == 1 ==>
                mem.files == old(mem).files[path := FileState(info.size, info.mtime, Sha256(local[path].content))]
      ensures r.uploaded == 1 && !force && path in old(mem).files ==> !Unchanged(path, info, old(mem).files[path])
      ensures r.skipped == 1 ==> !force && path in old(mem).files && Unchanged(path, info, old(mem).files[path])
      ensures r.skipped == 1 ==>
                mem.files == old(mem).files[path := FileState(info.size, info.mtime, old(mem).files[path].checksum)]
      ensures r.skipped == 1 || info.size > MAX_UPLOAD_SIZE ==> disk == old(disk) && parts == old(parts)
      ensures mem.pending - {path} == old(mem).pending - {path} && (r.failed == 0 ==> path !in mem.pending)
      ensures old(parts) <= parts
      ensures Later(old(server.book), old(server.accepted), server.book, server.accepted)
      // A file fails only because it is too large, is not there any more, or something went wrong.
      ensures r.failed == 1 ==> info.size > 2 * 1024 * 1024 * 1024 || path !in local || !smooth || !folderMade
      ensures (alive ==> old(alive)) && (old(cancelled) ==> cancelled) && (smooth ==> old(smooth))
    {
      hide UploadServer.Faithful, AcceptedAs, StateOk, Staged;
      if info.size > MAX_UPLOAD_SIZE {
        return Result(0, 0, 1);
      }
      var known := path in mem.files;
      if known && !force && mem.files[path].size == info.size && mem.files[path].mtime == info.mtime {
        r := Skip(path, mem.files[path]);
        return;
      }
      var hashed := LocalStep();
      if !hashed || path !in local {
        return Result(0, 0, 1);
      }
      var sum := Sha256(local[path].content);
      if known && !force && sum == mem.files[path].checksum {
        r := Skip(path, FileState(info.size, info.mtime, sum));
        return;
      }
      r := SendNew(path, info, dest, sum, now, folderMade);
    }

    // ---------- Runs ----------

    /** The user's files change between one file's turn and the next. */
    method UserEdits()
      requires Valid()
      modifies this`local
      ensures Valid()
    {
      local := *;
    }

    /** What was sent is accepted, at the entry's destination and under its name. */
    ghost predicate AllAccepted(met: seq<Entry>, turns: seq<Turn>, book: Book, accepted: AcceptedFiles) {
      |met| == |turns| &&
      forall i :: 0 <= i < |met| && met[i].Regular? && turns[i].Sent? ==>
        AcceptedAs(met[i].path, met[i].dest, turns[i].bytes, met[i].info.size > chunkThreshold, book, accepted)
    }

    /** Each entry met had its turn, the counts are those of the turns, and so is the state. */
    ghost predicate Told(met: seq<Entry>, turns: seq<Turn>, force: bool, files: FileStates, r: Result)
      reads this, server
    {
      && |met| == |turns| && r == Tally(turns) && mem.files == FilesAfter(files, met, turns)
      && AllFair(met, turns, files, force) && AllAccepted(met, turns, server.book, server.accepted)
      && (smooth ==> Failed !in turns)
    }

    lemma AcceptedStays(met: seq<Entry>, turns: seq<Turn>, book: Book, accepted: AcceptedFiles)
      requires Later(book, accepted, server.book, server.accepted)
      requires AllAccepted(met, turns, book, accepted)
      ensures AllAccepted(met, turns, server.book, server.accepted)
    {
      forall i | 0 <= i < |met| && met[i].Regular? && turns[i].Sent?
        ensures AcceptedAs(met[i].path, met[i].dest, turns[i].bytes, met[i].info.size > chunkThreshold,
                           server.book, server.accepted)
      {
        var id :| id in accepted && id in book.purposes && book.purposes[id].path == met[i].path &&
                  (book.purposes[id].chunkSize > 0 <==> met[i].info.size > chunkThreshold) &&
                  accepted[id] == Accepted(met[i].dest, BaseName(met[i].path), turns[i].bytes);
        assert id in server.accepted && id in server.book.purposes;
      }
    }

    /** One more turn, at the end of those told so far. */
    lemma ToldNext(met: seq<Entry>, turns: seq<Turn>, entry: Entry, turn: Turn, force: bool, files: FileStates,
                   r: Result, known: FileStates, book: Book, accepted: AcceptedFiles)
      requires |met| == |turns| && r == Tally(turns) && known == FilesAfter(files, met, turns)
      requires AllFair(met, turns, files, force) && Fair(entry, turn, known, force)
      requires Later(book, accepted, server.book, server.accepted)
      requires AllAccepted(met, turns, book, accepted)
      requires entry.Regular? && turn.Sent? ==>
                 AcceptedAs(entry.path, entry.dest, turn.bytes, entry.info.size > chunkThreshold,
                            server.book, server.accepted)
      requires mem.files == FileAfter(known, entry, turn) && (smooth ==> Failed !in turns && !turn.Failed?)
      ensures Told(met + [entry], turns + [turn], force, files, r.Add(Mark(turn)))
    {
      hide Tally, FilesAfter, FileAfter, Fair, FairAt, AllFair, AcceptedAs, Later, Mark;
      TallyNext(turns, turn);
      FilesNext(files, met, turns, entry, turn);
      FairNext(files, met, turns, entry, turn, force);
      AcceptedStays(met, turns, book, accepted);
    }

    /** One regular file's turn. */
    method TakeTurn(path: LocalPath, info: Info, dest: Dest, force: bool, now: int)
      returns (one: Result, ghost turn: Turn)
      requires Valid()
      modifies this`mem, this`disk, this`alive, this`cancelled, this`smooth, this`parts, this`released, server
      ensures Valid() && old(parts) <= parts
      ensures Later(old(server.book), old(server.accepted), server.book, server.accepted)
      ensures one == Mark(turn) && Fair(Regular(path, info, dest), turn, old(mem).files, force)
      ensures mem.files == FileAfter(old(mem).files, Regular(path, info, dest), turn)
      ensures turn.Sent? ==> path in local && turn.bytes == local[path].content
      ensures turn.Sent? ==>
                AcceptedAs(path, dest, turn.bytes, info.size > chunkThreshold, server.book, server.accepted)
      ensures turn.Known? && turn.seen.Some? ==> path in local && turn.seen.value == local[path].content
      ensures turn.Missing? ==> path !in local
      ensures turn.Failed? ==> !smooth
      ensures (alive ==> old(alive)) && (old(cancelled) ==> cancelled) && (smooth ==> old(smooth))
    {
      hide UploadServer.Faithful, StateOk, AcceptedAs, Later;
      var folderMade := LocalStep();
      one := UploadOne(path, info, dest, force, now, folderMade);
      turn :=
        if one.uploaded == 1 then Sent(local[path].content)
        else if one.skipped == 1 then
          Known(old(mem).files[path], if path in local then Some(local[path].content) else None)
        else if info.size > MAX_UPLOAD_SIZE then TooLarge
        else if path !in local then Missing
        else Failed;
    }

    /** Walks a tree; every file or unreadable entry met counts exactly once, as its turn says. */
    method UploadTree(entries: seq<Entry>, force: bool) returns (r: Result, ghost turns: seq<Turn>)
      requires Valid()
      modifies this, server
      ensures Valid()
      ensures r.Total() <= Countable(entries, |entries|)
      ensures !cancelled ==> r.Total() == Countable(entries, |entries|)
      ensures |turns| <= |entries| && Told(entries[..|turns|], turns, force, old(mem).files, r)
      ensures !cancelled ==> |turns| == |entries|
      ensures Later(old(server.book), old(server.accepted), server.book, server.accepted)
      ensures old(parts) <= parts
      ensures (alive ==> old(alive)) && (old(cancelled) ==> cancelled) && (smooth ==> old(smooth))
      // Once the run is cancelled nothing more is tried.
      ensures old(cancelled) ==> parts == old(parts) && mem == old(mem) && forall t :: t in turns ==> t == Broken
    {
      hide Countable, AcceptedAs, AllAccepted, Later, AllFair, FilesAfter, Tally, Told;
      r, turns := Result(0, 0, 0), [];
      NothingTold(force);
      LaterRefl(server.book, server.accepted);
      for i := 0 to |entries|
        invariant Valid()
        invariant |turns| == i && Told(entries[..i], turns, force, old(mem).files, r)
        invariant Later(old(server.book), old(server.accepted), server.book, server.accepted)
        invariant old(parts) <= parts
        invariant old(cancelled) ==> parts == old(parts) && mem == old(mem) && forall t :: t in turns ==> t == Broken
        invariant (alive ==> old(alive)) && (old(cancelled) ==> cancelled) && (smooth ==> old(smooth))
      {
        ghost var met, told, tallied, known := entries[..i], turns, r, mem.files;
        ToldMeans(met, told, force, old(mem).files, r);
        ghost var book, accepted := server.book, server.accepted;
        assert entries[..i + 1] == met + [entries[i]];
        if entries[i].Unreadable? {
          LaterRefl(book, accepted);
          r := r.(failed := r.failed + 1);
          turns := turns + [Broken];
          ToldNext(met, told, entries[i], Broken, force, old(mem).files, tallied, known, book, accepted);
          continue;
        }
        if cancelled {
          TurnsCount(entries, turns, force, old(mem).files);
          CountableGrows(entries, i, |entries|);
          return;
        }
        if entries[i].Regular? {
          UserEdits();
          var now: int := *;
          var one;
          ghost var turn;
          one, turn := TakeTurn(entries[i].path, entries[i].info, entries[i].dest, force, now);
          LaterTrans(old(server.book), old(server.accepted), book, accepted, server.book, server.accepted);
          r := r.Add(one);
          turns := turns + [turn];
          ToldNext(met, told, entries[i], turn, force, old(mem).files, tallied, known, book, accepted);
        } else {
          LaterRefl(book, accepted);
          turns := turns + [Passed];
          ToldNext(met, told, entries[i], Passed, force, old(mem).files, tallied, known, book, accepted);
        }
      }
      assert entries[..|entries|] == entries;
      ToldMeans(entries, turns, force, old(mem).files, r);
      TurnsCount(entries, turns, force, old(mem).files);
    }

    lemma NothingTold(force: bool)
      ensures Told([], [], force, mem.files, Result(0, 0, 0))
    {
    }

    lemma ToldMeans(met: seq<Entry>, turns: seq<Turn>, force: bool, files: FileStates, r: Result)
      requires Told(met, turns, force, files, r)
      ensures |met| == |turns| && r == Tally(turns) && mem.files == FilesAfter(files, met, turns)
      ensures AllFair(met, turns, files, force) && (smooth ==> Failed !in turns)
      ensures AllAccepted(met, turns, server.book, server.accepted)
    {
    }

    /** One walk told after another. */
    lemma ToldJoined(met: seq<Entry>, turns: seq<Turn>, met': seq<Entry>, turns': seq<Turn>, force: bool,
                     files: FileStates, r: Result, known: FileStates, r': Result, book: Book, accepted: AcceptedFiles)
      requires |met| == |turns| && r == Tally(turns) && known == FilesAfter(files, met, turns)
      requires AllFair(met, turns, files, force) && (smooth ==> Failed !in turns)
      requires Later(book, accepted, server.book, server.accepted)
      requires AllAccepted(met, turns, book, accepted)
      requires Told(met', turns', force, known, r')
      ensures Told(met + met', turns + turns', force, files, r.Add(r'))
    {
      hide FilesAfter, Tally, AllFair, AcceptedAs, Later;
      WalksJoin(files, met, turns, met', turns');
      FairJoined(files, met, turns, met', turns', force);
      AcceptedStays(met, turns, book, accepted);
      assert forall i :: 0 <= i < |met| ==> (met + met')[i] == met[i] && (turns + turns')[i] == turns[i];
      assert forall i :: |met| <= i < |met + met'| ==>
          (met + met')[i] == met'[i - |met|] && (turns + turns')[i] == turns'[i - |met|];
    }

    /** One tracked folder; an inaccessible one counts as a failure. */
    method SyncFolder(folder: Option<seq<Entry>>) returns (r: Result, ghost met: seq<Entry>, ghost turns: seq<Turn>)
      requires Valid()
      modifies this, server
      ensures Valid() && old(parts) <= parts
      ensures !cancelled ==> r.Total() == FolderWeight(folder)
      ensures Told(met, turns, false, old(mem).files, r)
      ensures if folder.None? then met == [Unreadable] else met <= folder.value && (!cancelled ==> met == folder.value)
      ensures Later(old(server.book), old(server.accepted), server.book, server.accepted)
      ensures (alive ==> old(alive)) && (old(cancelled) ==> cancelled) && (smooth ==> old(smooth))
    {
      if folder.None? {
        r, met, turns := Result(0, 0, 1), [Unreadable], [Broken];
        NothingTold(false);
        ToldNext([], [], Unreadable, Broken, false, mem.files, Result(0, 0, 0), mem.files,
                 server.book, server.accepted);
        assert [] + [Unreadable] == met && [] + [Broken] == turns;
      } else {
        r, turns := UploadTree(folder.value, false);
        met := folder.value[..|turns|];
      }
    }

    method SyncFolders(tracked: seq<Option<seq<Entry>>>)
      returns (total: Result, ghost met: seq<Entry>, ghost turns: seq<Turn>)
      requires Valid()
      modifies this, server
      ensures Valid() && old(parts) <= parts
      ensures !cancelled ==> total.Total() == CountableIn(tracked, |tracked|)
      ensures Told(met, turns, false, old(mem).files, total)
      ensures !cancelled ==> met == WalkOf(tracked)
      ensures Later(old(server.book), old(server.accepted), server.book, server.accepted)
      ensures (alive ==> old(alive)) && (old(cancelled) ==> cancelled) && (smooth ==> old(smooth))
    {
      hide Told, Later;
      total, met, turns := Result(0, 0, 0), [], [];
      NothingTold(false);
      LaterRefl(server.book, server.accepted);
      for i := 0 to |tracked|
        invariant Valid() && old(parts) <= parts
        invariant !cancelled ==> total.Total() == CountableIn(tracked, i)
        invariant Told(met, turns, false, old(mem).files, total)
        invariant !cancelled ==> met == WalkOf(tracked[..i])
        invariant Later(old(server.book), old(server.accepted), server.book, server.accepted)
        invariant (alive ==> old(alive)) && (old(cancelled) ==> cancelled) && (smooth ==> old(smooth))
      {
        ToldMeans(met, turns, false, old(mem).files, total);
        ghost var known, book, accepted := mem.files, server.book, server.accepted;
        ghost var met', turns';
        var r;
        r, met', turns' := SyncFolder(tracked[i]);
        LaterTrans(old(server.book), old(server.accepted), book, accepted, server.book, server.accepted);
        ToldJoined(met, turns, met', turns', false, old(mem).files, total, known, r, book, accepted);
        assert tracked[..i + 1][..i] == tracked[..i];
        total, met, turns := total.Add(r), met + met', turns + turns';
      }
      assert tracked[..|tracked|] == tracked;
    }

    /** One pass over the tracked folders, and the state file saved at its end. */
    method SyncAll(tracked: seq<Option<seq<Entry>>>)
      returns (total: Result, saved: bool, ghost met: seq<Entry>, ghost turns: seq<Turn>)
      requires Valid()
      modifies this, server
      ensures Valid() && old(parts) <= parts
      ensures saved && tracked != [] ==> disk == mem
      ensures !saved ==> !smooth
      ensures !cancelled ==> total.Total() == CountableIn(tracked, |tracked|)
      // Each entry met had its turn: what counts as uploaded is accepted by the server and in the state.
      ensures Told(met, turns, false, old(mem).files, total)
      ensures !cancelled ==> met == WalkOf(tracked)
      ensures (alive ==> old(alive)) && (old(cancelled) ==> cancelled) && (smooth ==> old(smooth))
      ensures tracked == [] ==> saved && disk == old(disk)
    {
      hide WalkOf;
      total, saved, met, turns := Result(0, 0, 0), true, [], [];
      NothingTold(false);
      if |tracked| == 0 {
        NoWalk();
        return;
      }
      total, met, turns := SyncFolders(tracked);
      saved := Save();
    }

    lemma NoWalk()
      ensures WalkOf([]) == []
    {
    }

    /** One explicitly requested upload of a file or a tree. */
    method UploadPath(entries: seq<Entry>, force: bool) returns (r: Result, saved: bool, ghost turns: seq<Turn>)
      requires Valid()
      modifies this, server
      ensures Valid()
      ensures |turns| <= |entries| && Told(entries[..|turns|], turns, force, old(mem).files, r)
      ensures !cancelled ==> |turns| == |entries|
      ensures !saved ==> !smooth
      ensures saved ==> disk == mem
      ensures old(parts) <= parts
    {
      r, turns := UploadTree(entries, force);
      saved := Save();
    }

    /** A new process starts from the state file. */
    method Restart()
      requires Valid()
      modifies this`mem, this`alive, this`cancelled, this`smooth
      ensures Valid() && mem == disk && alive && !cancelled && smooth
    {
      mem, alive, cancelled, smooth := disk, true, false, true;
    }

    /**
     * A large file whose upload did not finish, by an error or a crash, and a new process less than seven
     * days later: the same session gets whatever the second run sends, only what had not landed on it, and
     * is not released, unless the server has let go of it.
     */
    method ResumeLater(path: LocalPath, info: Info, dest: Dest, now: int, later: int)
      returns (first: Option<Error>, second: Option<Error>, ghost session: Option<UploadId>, ghost sent: nat,
              ghost landed: set<(UploadId, nat)>, ghost letGo: set<UploadId>)
      requires Valid() && path in local && path !in mem.pending && later - now < 604800
      modifies this`mem, this`disk, this`alive, this`cancelled, this`smooth, this`parts, this`released, server
      ensures Valid() && sent <= |parts|
      ensures session.None? ==> path !in mem.pending && second == None
      ensures session.Some? ==>
                Gone(session.value) ||
                (&& (forall k :: sent <= k < |parts| ==> parts[k].id == session.value)
                 && (session.value !in server.book.torn ==>
                       forall k :: sent <= k < |parts| ==> (session.value, parts[k].index) !in landed)
                 && (session.value in released ==> session.value in letGo)
                 && (second != None ==> path in mem.pending && mem.pending[path].uploadId == session.value))
      ensures second == None && first != None && session.Some? ==>
                AcceptedAs(path, dest, local[path].content, true, server.book, server.accepted)
    {
      hide UploadServer.Faithful, StateOk, Syncer.Sound;
      var sum := Sha256(local[path].content);
      first, second, session := None, None, None;
      first := UploadChunked(path, info, dest, sum, now);
      sent, landed, letGo := |parts|, server.book.landed, released;
      if path !in mem.pending {
        return;
      }
      session := Some(mem.pending[path].uploadId);
      Restart();
      second := UploadChunked(path, info, dest, sum, later);
    }

    /**
     * Any number of runs over changing files, each ending well, in a failed save, cancelled, or in a
     * crash at any point. Throughout: staged chunks are true slices, the state file and the memory only
     * claim files the server accepted, and no part was sent on an unrecorded session.
     */
    method Runs(runs: nat)
      requires Valid()
      modifies this, server
      ensures Valid() && old(parts) <= parts
      ensures forall path, i ::
                (path in disk.pending && disk.pending[path].uploadId in server.sessions &&
                 i in server.sessions[disk.pending[path].uploadId].chunks) ==>
                TrueSlice(disk.pending[path], i, server.sessions[disk.pending[path].uploadId].chunks[i])
      ensures forall path :: path in disk.files ==>
                AcceptedFor(path, disk.files[path].checksum.of, server.book, server.accepted)
      ensures forall path :: path in mem.files ==>
                AcceptedFor(path, mem.files[path].checksum.of, server.book, server.accepted)
      ensures forall k :: 0 <= k < |parts| ==> parts[k].recorded == Some(parts[k].id)
    {
      for run := 0 to runs
        invariant Valid() && old(parts) <= parts
      {
        Restart();
        UserEdits();
        var all: bool, force: bool := *, *;
        if all {
          var tracked: seq<Option<seq<Entry>>> := *;
          var _, _, _, _ := SyncAll(tracked);
        } else {
          var entries: seq<Entry> := *;
          var _, _, _ := UploadPath(entries, force);
        }
      }
      forall path, i | path in disk.pending && disk.pending[path].uploadId in server.sessions &&
          i in server.sessions[disk.pending[path].uploadId].chunks
        ensures TrueSlice(disk.pending[path], i, server.sessions[disk.pending[path].uploadId].chunks[i])
      {
        var id := disk.pending[path].uploadId;
        StagedIsTrueSlice(path, disk.pending[path], server.sessions[id], i, server.book);
      }
    }
  }
}
