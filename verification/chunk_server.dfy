/** Backend staging of chunked uploads: sessions, chunks and the handlers' order of steps. */
module ChunkServer {
  import opened Common

  type LocalPath = string
  type UploadId = nat                          // 0 stands for the empty id

  datatype Dest = Dest(drive: nat, folder: string)

  /** The manifest, and the chunks received so far by index. */
  datatype Session = Session(dest: Dest, name: string, size: nat, totalChunks: nat, chunks: map<nat, Bytes>)

  /** A file handed on to storage. */
  datatype Accepted = Accepted(dest: Dest, name: string, bytes: Bytes)

  datatype Reply = Done | NotFound | Busy | Incomplete | Refused

  /** A request its sender has given up on, still on its way. */
  datatype Late =
    | LatePart(id: UploadId, index: int, bytes: Bytes)
    | LateComplete(id: UploadId)
    | LateAbort(id: UploadId)

  const MAX_UPLOAD_SIZE := 2 * 1024 * 1024 * 1024

  // ---------- Splitting a file ----------

  /** An empty file still needs one (empty) chunk. */
  function ChunkCount(size: nat, chunkSize: nat): (n: nat)
    requires chunkSize > 0
    ensures n > 0
  {
    var n := (size + chunkSize - 1) / chunkSize;
    if n == 0 then 1 else n
  }

  /** Chunk `i`: the slice [i * c, min((i + 1) * c, size)). */
  function ChunkAt(content: Bytes, chunkSize: nat, i: nat): Bytes {
    assert i * chunkSize <= (i + 1) * chunkSize;
    content[Min(i * chunkSize, |content|)..Min((i + 1) * chunkSize, |content|)]
  }

  lemma MulMono(i: nat, j: nat, c: nat)
    requires i <= j
    ensures i * c <= j * c
  {
    var d := j - i;
    assert j * c == i * c + d * c;
    assert d * c >= 0;
  }

  /** The chunks cover the file ... */
  lemma CountCovers(size: nat, chunkSize: nat)
    requires chunkSize > 0
    ensures ChunkCount(size, chunkSize) * chunkSize >= size
  {
    var m := size + chunkSize - 1;
    assert m == chunkSize * (m / chunkSize) + m % chunkSize;
    assert m % chunkSize <= chunkSize - 1;
  }

  /** ... and none starts beyond its end: only an empty file has an empty chunk. */
  lemma ChunkStarts(size: nat, chunkSize: nat, i: nat)
    requires chunkSize > 0 && i < ChunkCount(size, chunkSize)
    ensures i * chunkSize <= size && (size > 0 ==> i * chunkSize < size)
  {
    var m := size + chunkSize - 1;
    var n := m / chunkSize;
    assert m == chunkSize * n + m % chunkSize;
    if i < n {
      MulMono(i, n - 1, chunkSize);
      assert (n - 1) * chunkSize == chunkSize * n - chunkSize;
    } else {
      assert i == 0;
    }
  }

  ghost predicate HasAll(chunks: map<nat, Bytes>, n: nat) {
    forall i: nat :: i < n ==> i in chunks
  }

  function Joined(chunks: map<nat, Bytes>, n: nat): Bytes
    requires HasAll(chunks, n)
  {
    if n == 0 then [] else Joined(chunks, n - 1) + chunks[n - 1]
  }

  ghost predicate AreSlices(chunks: map<nat, Bytes>, content: Bytes, chunkSize: nat) {
    forall i: nat :: i in chunks ==> chunks[i] == ChunkAt(content, chunkSize, i)
  }

  lemma NextSlice(content: Bytes, chunkSize: nat, i: nat)
    ensures content[..Min(i * chunkSize, |content|)] + ChunkAt(content, chunkSize, i) ==
            content[..Min((i + 1) * chunkSize, |content|)]
  {
    assert i * chunkSize <= (i + 1) * chunkSize;
    var lo, hi := Min(i * chunkSize, |content|), Min((i + 1) * chunkSize, |content|);
    assert content[..lo] + content[lo..hi] == content[..hi];
  }

  lemma {:induction false} SlicesJoin(chunks: map<nat, Bytes>, content: Bytes, chunkSize: nat, n: nat)
    requires HasAll(chunks, n) && AreSlices(chunks, content, chunkSize)
    ensures Joined(chunks, n) == content[..Min(n * chunkSize, |content|)]
  {
    if n == 0 {
      assert content[..0] == [];
    } else {
      var i := n - 1;
      SlicesJoin(chunks, content, chunkSize, i);
      assert chunks[i] == ChunkAt(content, chunkSize, i);
      NextSlice(content, chunkSize, i);
    }
  }

  /** A full set of slices assembles to the file itself. */
  lemma AssembledIsContent(chunks: map<nat, Bytes>, content: Bytes, chunkSize: nat)
    requires chunkSize > 0 && AreSlices(chunks, content, chunkSize)
    requires HasAll(chunks, ChunkCount(|content|, chunkSize))
    ensures Joined(chunks, ChunkCount(|content|, chunkSize)) == content
  {
    SlicesJoin(chunks, content, chunkSize, ChunkCount(|content|, chunkSize));
    CountCovers(|content|, chunkSize);
  }

  // ---------- File names ----------

  function WithoutTrailingSlashes(path: string): (s: string)
    ensures s == "" || s[|s| - 1] != '/'
    ensures path != "" && path[|path| - 1] != '/' ==> s == path
  {
    if path != "" && path[|path| - 1] == '/' then WithoutTrailingSlashes(path[..|path| - 1]) else path
  }

  /** The slash-free part of the path that reaches at least from `i` to the end. */
  function LastElement(path: string, i: nat): (s: string)
    requires i <= |path| && '/' !in path[i..]
    ensures '/' !in s && |s| >= |path| - i
    ensures '/' !in path ==> s == path
    decreases i
  {
    if i == 0 then path
    else if path[i - 1] == '/' then path[i..]
    else
      assert path[i - 1..] == [path[i - 1]] + path[i..];
      LastElement(path, i - 1)
  }

  /** filepath.Base: the last element, "." for the empty path and "/" for one of slashes only. */
  function BaseName(path: string): string {
    if path == "" then "."
    else
      var s := WithoutTrailingSlashes(path);
      if s == "" then "/" else LastElement(s, |s|)
  }

  /** The server strips directories from a name the client has already stripped: nothing changes. */
  lemma BaseNameFlat(path: string)
    ensures BaseName(path) != "" && (BaseName(path) == "/" || '/' !in BaseName(path))
    ensures BaseName(path) == "/" <==> path != "" && forall i :: 0 <= i < |path| ==> path[i] == '/'
    ensures BaseName(BaseName(path)) == BaseName(path)
  {
    var base := BaseName(path);
    OnlySlashes(path);
    OnlySlashes("/");
    if base != "/" {
      assert base[|base| - 1] != '/';
    }
  }

  lemma {:induction false} TrailingSlashesGo(path: string, slashes: string)
    requires path != "" && path[|path| - 1] != '/' && forall i :: 0 <= i < |slashes| ==> slashes[i] == '/'
    ensures WithoutTrailingSlashes(path + slashes) == path
    decreases |slashes|
  {
    if slashes == "" {
      assert path + slashes == path;
    } else {
      assert (path + slashes)[..|path + slashes| - 1] == path + slashes[..|slashes| - 1];
      TrailingSlashesGo(path, slashes[..|slashes| - 1]);
    }
  }

  lemma {:induction false} LastElementIs(dir: string, name: string, i: nat)
    requires (dir == "" || dir[|dir| - 1] == '/') && '/' !in name && |dir| <= i <= |dir + name|
    ensures '/' !in (dir + name)[i..] && LastElement(dir + name, i) == name
    decreases i
  {
    var path := dir + name;
    assert path[i..] == name[i - |dir|..];
    if i > |dir| {
      LastElementIs(dir, name, i - 1);
      assert path[i - 1] == name[i - 1 - |dir|];
    }
  }

  /** A name comes back whole, whatever directories stand before it and whatever slashes after it. */
  lemma BaseNameOf(dir: string, name: string, slashes: string)
    requires dir == "" || dir[|dir| - 1] == '/'
    requires name != "" && '/' !in name && forall i :: 0 <= i < |slashes| ==> slashes[i] == '/'
    ensures BaseName(dir + name + slashes) == name
  {
    TrailingSlashesGo(dir + name, slashes);
    LastElementIs(dir, name, |dir + name|);
  }

  lemma {:induction false} OnlySlashes(path: string)
    ensures WithoutTrailingSlashes(path) == "" <==> forall i :: 0 <= i < |path| ==> path[i] == '/'
  {
    if path != "" && path[|path| - 1] == '/' {
      OnlySlashes(path[..|path| - 1]);
    }
  }

  // ---------- What the sessions are for ----------

  /** Why the client opened a session: which local file, which bytes, split how. */
  datatype Purpose = Purpose(path: LocalPath, dest: Dest, content: Bytes, chunkSize: nat)

  /**
   * History the server does not keep: the purpose of every id it ever gave out, the chunks that ever
   * landed, the sessions whose removal failed half way, and those removed.
   */
  datatype Book = Book(purposes: map<UploadId, Purpose>, landed: set<(UploadId, nat)>, torn: set<UploadId>,
                       closed: set<UploadId>)

  type AcceptedFiles = map<UploadId, Accepted>

  /** History is only added to. */
  ghost predicate Later(book: Book, accepted: AcceptedFiles, book': Book, accepted': AcceptedFiles) {
    && (forall id :: id in book.purposes ==> id in book'.purposes && book'.purposes[id] == book.purposes[id])
    && book.landed <= book'.landed && book.torn <= book'.torn && book.closed <= book'.closed
    && (forall id :: id in accepted ==> id in accepted' && accepted'[id] == accepted[id])
  }

  ghost predicate Sliced(s: Session, p: Purpose) {
    && p.chunkSize > 0 && s.totalChunks == ChunkCount(|p.content|, p.chunkSize) && s.size == |p.content|
    && s.dest == p.dest && s.name == BaseName(p.path)
    && AreSlices(s.chunks, p.content, p.chunkSize)
    && forall i :: i in s.chunks ==> i < s.totalChunks
  }

  /** A session holds true slices, all of which landed; unless its removal was botched, all that landed. */
  ghost predicate Staged(id: UploadId, s: Session, book: Book) {
    && id in book.purposes && Sliced(s, book.purposes[id])
    && (forall i :: i in s.chunks ==> (id, i) in book.landed)
    && (id !in book.torn ==> forall i :: (id, i) in book.landed ==> i in s.chunks)
  }

  /** What happens to one session does not concern the others. */
  lemma OthersStaged(sessions: map<UploadId, Session>, book: Book, sessions': map<UploadId, Session>, book': Book,
                     id: UploadId)
    requires forall other :: other in sessions ==> Staged(other, sessions[other], book)
    requires forall other :: other in sessions' && other != id ==>
              other in sessions && sessions'[other] == sessions[other]
    requires forall other :: other in book.purposes ==>
               other in book'.purposes && book'.purposes[other] == book.purposes[other]
    requires forall other, i :: other != id ==> ((other, i) in book'.landed <==> (other, i) in book.landed)
    requires forall other :: other != id ==> (other in book'.torn <==> other in book.torn)
    ensures forall other :: other in sessions' && other != id ==> Staged(other, sessions'[other], book')
  {
    forall other | other in sessions' && other != id
      ensures Staged(other, sessions'[other], book')
    {
      assert Staged(other, sessions[other], book);
    }
  }

  ghost predicate Delivered(id: UploadId, file: Accepted, book: Book) {
    id in book.purposes &&
    file == Accepted(book.purposes[id].dest, BaseName(book.purposes[id].path), book.purposes[id].content)
  }

  /** A part request carries the slice its session was opened for. */
  ghost predicate TruePart(id: UploadId, index: int, bytes: Bytes, book: Book) {
    && id in book.purposes
    && (0 <= index ==> bytes == ChunkAt(book.purposes[id].content, book.purposes[id].chunkSize, index))
  }

  function WithChunk(sessions: map<UploadId, Session>, id: UploadId, index: nat, bytes: Bytes): map<UploadId, Session>
    requires id in sessions
  {
    sessions[id := sessions[id].(chunks := sessions[id].chunks[index := bytes])]
  }

  ghost predicate FaithfulState(sessions: map<UploadId, Session>, lastId: UploadId, accepted: AcceptedFiles,
                                inFlight: set<Late>, book: Book)
  {
    && (forall id :: id in book.purposes ==> 0 < id <= lastId)
    && (forall id, i :: (id, i) in book.landed ==> id in book.purposes)
    && (forall id :: id in sessions ==> Staged(id, sessions[id], book))
    && (forall id :: id in book.purposes && book.purposes[id].chunkSize > 0 ==>
        (id in book.closed <==> id !in sessions))
    && book.closed <= book.purposes.Keys
    && (forall id :: id in accepted ==> Delivered(id, accepted[id], book))
    && (forall r :: r in inFlight && r.LatePart? ==> TruePart(r.id, r.index, r.bytes, book))
  }

  /** One session changed, and the history of no other. */
  lemma OneSession(sessions: map<UploadId, Session>, lastId: UploadId, accepted: AcceptedFiles,
                   inFlight: set<Late>, book: Book, id: UploadId, s: Session, book': Book)
    requires FaithfulState(sessions, lastId, accepted, inFlight, book) && id in sessions && Staged(id, s, book')
    requires book' == book.(landed := book'.landed, torn := book'.torn)
    requires forall other, i :: other != id ==> ((other, i) in book'.landed <==> (other, i) in book.landed)
    requires forall other :: other != id ==> (other in book'.torn <==> other in book.torn)
    ensures FaithfulState(sessions[id := s], lastId, accepted, inFlight, book')
  {
    hide Sliced;
    OthersStaged(sessions, book, sessions[id := s], book', id);
  }

  /** A new session, with nothing staged yet. */
  lemma OpenFaithful(sessions: map<UploadId, Session>, lastId: UploadId, accepted: AcceptedFiles,
                     inFlight: set<Late>, book: Book, s: Session, purpose: Purpose)
    requires FaithfulState(sessions, lastId, accepted, inFlight, book)
    requires Sliced(s, purpose) && s.chunks == map[]
    ensures lastId + 1 !in sessions && lastId + 1 !in book.purposes
    ensures FaithfulState(sessions[lastId + 1 := s], lastId + 1, accepted, inFlight,
                          book.(purposes := book.purposes[lastId + 1 := purpose]))
  {
    var id := lastId + 1;
    OthersStaged(sessions, book, sessions[id := s], book.(purposes := book.purposes[id := purpose]), id);
  }

  /** A true slice is staged at its index. */
  lemma LandFaithful(sessions: map<UploadId, Session>, lastId: UploadId, accepted: AcceptedFiles,
                     inFlight: set<Late>, book: Book, id: UploadId, index: nat, bytes: Bytes)
    requires FaithfulState(sessions, lastId, accepted, inFlight, book) && id in sessions
    requires index < sessions[id].totalChunks && TruePart(id, index, bytes, book)
    ensures FaithfulState(WithChunk(sessions, id, index, bytes), lastId, accepted, inFlight,
                          book.(landed := book.landed + {(id, index)}))
  {
    assert Staged(id, sessions[id], book);
    hide FaithfulState;
    OneSession(sessions, lastId, accepted, inFlight, book, id,
               sessions[id].(chunks := sessions[id].chunks[index := bytes]),
               book.(landed := book.landed + {(id, index)}));
  }

  /** A session has lost some chunks, and is known to have. */
  lemma TearFaithful(sessions: map<UploadId, Session>, lastId: UploadId, accepted: AcceptedFiles,
                     inFlight: set<Late>, book: Book, id: UploadId, left: map<nat, Bytes>)
    requires FaithfulState(sessions, lastId, accepted, inFlight, book) && id in sessions
    requires forall i :: i in left ==> i in sessions[id].chunks && left[i] == sessions[id].chunks[i]
    ensures FaithfulState(sessions[id := sessions[id].(chunks := left)], lastId, accepted, inFlight,
                          book.(torn := book.torn + {id}))
  {
    assert Staged(id, sessions[id], book);
    hide FaithfulState;
    OneSession(sessions, lastId, accepted, inFlight, book, id, sessions[id].(chunks := left),
               book.(torn := book.torn + {id}));
  }

  /** A session's file is handed on. */
  lemma AcceptFaithful(sessions: map<UploadId, Session>, lastId: UploadId, accepted: AcceptedFiles,
                       inFlight: set<Late>, book: Book, id: UploadId, bytes: Bytes)
    requires FaithfulState(sessions, lastId, accepted, inFlight, book) && id in sessions
    requires HasAll(sessions[id].chunks, sessions[id].totalChunks)
    requires bytes == Joined(sessions[id].chunks, sessions[id].totalChunks)
    ensures id in book.purposes && bytes == book.purposes[id].content
    ensures id in accepted ==> accepted[id] == Accepted(sessions[id].dest, sessions[id].name, bytes)
    ensures FaithfulState(sessions, lastId, accepted[id := Accepted(sessions[id].dest, sessions[id].name, bytes)],
                          inFlight, book)
  {
    assert Staged(id, sessions[id], book);
    AssembledIsContent(sessions[id].chunks, book.purposes[id].content, book.purposes[id].chunkSize);
  }

  /** A file that came in one request, under an id of its own. */
  lemma WholeFaithful(sessions: map<UploadId, Session>, lastId: UploadId, accepted: AcceptedFiles,
                      inFlight: set<Late>, book: Book, purpose: Purpose)
    requires FaithfulState(sessions, lastId, accepted, inFlight, book) && purpose.chunkSize == 0
    ensures lastId + 1 !in book.purposes && lastId + 1 !in accepted
    ensures FaithfulState(sessions, lastId + 1,
                          accepted[lastId + 1 := Accepted(purpose.dest, BaseName(purpose.path), purpose.content)],
                          inFlight, book.(purposes := book.purposes[lastId + 1 := purpose]))
  {
    hide Sliced;
    OthersStaged(sessions, book, sessions, book.(purposes := book.purposes[lastId + 1 := purpose]), lastId + 1);
  }

  /** A session is gone, and known to be. */
  lemma RemovalFaithful(sessions: map<UploadId, Session>, lastId: UploadId, accepted: AcceptedFiles,
                        inFlight: set<Late>, book: Book, id: UploadId)
    requires FaithfulState(sessions, lastId, accepted, inFlight, book) && id in sessions
    ensures FaithfulState(sessions - {id}, lastId, accepted, inFlight, book.(closed := book.closed + {id}))
  {
    OthersStaged(sessions, book, sessions - {id}, book.(closed := book.closed + {id}), id);
  }

  class UploadServer {
    var sessions: map<UploadId, Session>
    var lastId: UploadId
    var accepted: AcceptedFiles
    var inFlight: set<Late>
    ghost var book: Book

    constructor ()
      ensures Faithful() && sessions == map[] && accepted == map[] && inFlight == {} && book == Book(map[], {}, {}, {})
    {
      sessions, lastId, accepted, inFlight := map[], 0, map[], {};
      book := Book(map[], {}, {}, {});
    }

    /** Every staged chunk is its slice, and every accepted file is byte for byte what its session was for. */
    ghost predicate Faithful()
      reads this
    {
      FaithfulState(sessions, lastId, accepted, inFlight, book)
    }

    // ---------- The staging manager ----------

    // Whether the file system and the database work for a request is the parameter `works` of each method.

    method Init(dest: Dest, filename: string, size: nat, totalChunks: int, works: bool, ghost purpose: Purpose)
      returns (ok: bool, id: UploadId)
      requires Faithful() && purpose.chunkSize > 0
      requires totalChunks > 0 ==> totalChunks == ChunkCount(|purpose.content|, purpose.chunkSize)
      requires dest == purpose.dest && BaseName(filename) == BaseName(purpose.path) && size == |purpose.content|
      modifies this
      ensures Faithful() && accepted == old(accepted) && Later(old(book), old(accepted), book, accepted)
      ensures ok ==> id !in old(book).purposes && id !in old(sessions)
      ensures ok ==> totalChunks > 0 &&
                     sessions == old(sessions)[id := Session(dest, BaseName(filename), size, totalChunks, map[])]
      ensures ok ==> book == old(book).(purposes := old(book).purposes[id := purpose])
      ensures !ok ==> sessions == old(sessions) && book == old(book)
      ensures ok <==> totalChunks > 0 && works
    {
      hide FaithfulState;
      ok, id := works, 0;
      if totalChunks <= 0 {
        ok := false;
      }
      if ok {
        var s := Session(dest, BaseName(filename), size, totalChunks, map[]);
        OpenFaithful(sessions, lastId, accepted, inFlight, book, s, purpose);
        lastId := lastId + 1;
        id := lastId;
        sessions := sessions[id := s];
        book := book.(purposes := book.purposes[id := purpose]);
      }
    }

    /** Atomic and idempotent: a chunk sent again replaces the copy sent before. */
    method SaveChunk(id: UploadId, index: int, bytes: Bytes, works: bool) returns (ok: bool)
      requires id in sessions && Faithful() && TruePart(id, index, bytes, book)
      modifies this`sessions, this`book
      ensures Faithful() && Later(old(book), old(accepted), book, accepted)
      ensures ok <==> 0 <= index < old(sessions)[id].totalChunks && works
      ensures ok ==> sessions == WithChunk(old(sessions), id, index, bytes) && (id, index) in book.landed
      ensures !ok ==> sessions == old(sessions)
      ensures book.torn == old(book).torn && book.purposes == old(book).purposes
    {
      hide FaithfulState;
      ok := works;
      if index < 0 || index >= sessions[id].totalChunks {
        ok := false;
      }
      if ok {
        LandFaithful(sessions, lastId, accepted, inFlight, book, id, index, bytes);
        sessions := WithChunk(sessions, id, index, bytes);
        book := book.(landed := book.landed + {(id, index)});
      }
    }

    method ReceivedChunks(id: UploadId, works: bool) returns (ok: bool, received: seq<nat>)
      requires id in sessions
      ensures ok == works
      ensures ok ==> forall i :: i in received <==> i < sessions[id].totalChunks && i in sessions[id].chunks
      ensures ok ==> forall j, k :: 0 <= j < k < |received| ==> received[j] < received[k]
      ensures ok ==> (|received| == sessions[id].totalChunks <==> HasAll(sessions[id].chunks, sessions[id].totalChunks))
    {
      received, ok := [], works;
      var s := sessions[id];
      for i := 0 to s.totalChunks
        invariant forall j :: j in received <==> j < i && j in s.chunks
        invariant forall j :: 0 <= j < |received| ==> received[j] < i
        invariant forall j, k :: 0 <= j < k < |received| ==> received[j] < received[k]
        invariant |received| <= i && (|received| == i <==> HasAll(s.chunks, i))
      {
        if i in s.chunks {
          received := received + [i];
        }
      }
    }

    /**
     * Concatenates a complete session into a new file; a missing chunk is an error. `readable` says how
     * many chunks can be read before one cannot.
     */
    method Assemble(id: UploadId, works: bool, readable: nat) returns (r: Reply, bytes: Bytes)
      requires id in sessions
      ensures r.Done? || r.Incomplete? || r.Refused?
      ensures r.Done? <==> works && readable >= sessions[id].totalChunks &&
                           HasAll(sessions[id].chunks, sessions[id].totalChunks)
      ensures r.Done? ==> bytes == Joined(sessions[id].chunks, sessions[id].totalChunks)
      ensures r.Incomplete? <==> works && !HasAll(sessions[id].chunks, sessions[id].totalChunks)
    {
      bytes := [];
      var s := sessions[id];
      var ok, received := ReceivedChunks(id, works);
      if !ok {
        return Refused, bytes;
      }
      if |received| != s.totalChunks {
        return Incomplete, bytes;
      }
      for i := 0 to s.totalChunks
        invariant i <= readable && bytes == Joined(s.chunks, i)
      {
        if i >= readable {
          return Refused, [];
        }
        bytes := bytes + s.chunks[i];
      }
      r := Done;
    }

    /**
     * Removes a session. A removal that fails may have deleted any of the files already: some chunks, or
     * the manifest, without which the session is gone for every later request.
     */
    method Discard(id: UploadId, works: bool) returns (ok: bool)
      requires Faithful()
      modifies this`sessions, this`book
      ensures Faithful() && Later(old(book), old(accepted), book, accepted)
      ensures book.landed == old(book).landed && book.purposes == old(book).purposes
      ensures book.closed <= old(book).closed + {id}
      ensures forall other :: other != id ==> (other in sessions <==> other in old(sessions))
      ensures forall other :: other != id && other in sessions ==> sessions[other] == old(sessions)[other]
      ensures ok <==> id !in old(sessions) || works
      ensures ok ==> id !in sessions && book.torn == old(book).torn
      ensures id !in sessions || book.torn == old(book).torn + {id}
      ensures book.torn <= old(book).torn + {id}
    {
      hide FaithfulState;
      ok := works;
      var manifestGone: bool := *;
      if id !in sessions {
        ok := true;
      } else if ok || manifestGone {
        RemovalFaithful(sessions, lastId, accepted, inFlight, book, id);
        sessions := sessions - {id};
        book := book.(closed := book.closed + {id});
      } else {
        var kept: set<nat> := *;
        var s := sessions[id];
        var left := s.chunks - (s.chunks.Keys - kept);
        TearFaithful(sessions, lastId, accepted, inFlight, book, id, left);
        sessions := sessions[id := s.(chunks := left)];
        book := book.(torn := book.torn + {id});
      }
    }

    // ---------- The handlers ----------

    /** `full` is what PendingBacklogFull says, `folderExists` what DirExists says. */
    method HandleInit(dest: Dest, filename: string, size: nat, totalChunks: int, full: bool, folderExists: bool,
                      works: bool, ghost purpose: Purpose)
      returns (r: Reply, id: UploadId)
      requires Faithful() && purpose.chunkSize > 0
      requires totalChunks > 0 ==> totalChunks == ChunkCount(|purpose.content|, purpose.chunkSize)
      requires dest == purpose.dest && BaseName(filename) == BaseName(purpose.path) && size == |purpose.content|
      modifies this
      ensures Faithful() && accepted == old(accepted) && Later(old(book), old(accepted), book, accepted)
      ensures r.Done? ==> id !in old(book).purposes && id in book.purposes && book.purposes[id] == purpose
      ensures r.Done? ==> id in sessions && sessions[id].chunks == map[]
      ensures !r.Done? ==> sessions == old(sessions)
      ensures !r.Incomplete?
      ensures r.Done? <==> 0 < totalChunks && size <= 2 * 1024 * 1024 * 1024 && !full && folderExists && works
      ensures r.Busy? <==> 0 < totalChunks && size <= 2 * 1024 * 1024 * 1024 && full
      ensures r.NotFound? <==> 0 < totalChunks && size <= 2 * 1024 * 1024 * 1024 && !full && !folderExists
    {
      id := 0;
      if totalChunks <= 0 || size > MAX_UPLOAD_SIZE {
        return Refused, id;
      }
      if full {
        return Busy, id;
      }
      if !folderExists {
        return NotFound, id;
      }
      var ok;
      ok, id := Init(dest, filename, size, totalChunks, works, purpose);
      r := if ok then Done else Refused;
    }

    method HandlePart(id: UploadId, index: int, bytes: Bytes, works: bool) returns (r: Reply)
      requires Faithful() && TruePart(id, index, bytes, book)
      modifies this`sessions, this`book
      ensures Faithful() && Later(old(book), old(accepted), book, accepted)
      ensures r.Done? <==> id in old(sessions) && 0 <= index < old(sessions)[id].totalChunks && works
      ensures r.Done? ==> (id, index) in book.landed
      ensures sessions.Keys == old(sessions).Keys && book.torn == old(book).torn
      ensures r.NotFound? <==> id !in old(sessions)
      ensures r.NotFound? ==> sessions == old(sessions)
      ensures !r.Incomplete?
    {
      if id !in sessions {
        return NotFound;
      }
      var ok := SaveChunk(id, index, bytes, works);
      if !ok {
        return Refused;
      }
      var listed, _ := ReceivedChunks(id, works);
      r := if listed then Done else Refused;
    }

    method HandleStatus(id: UploadId, works: bool) returns (r: Reply, received: seq<nat>, totalChunks: nat)
      ensures r.Done? <==> id in sessions && works
      ensures r.Done? ==> id in sessions && totalChunks == sessions[id].totalChunks
      ensures r.Done? ==> forall i :: i in received <==> i < totalChunks && i in sessions[id].chunks
      ensures r.NotFound? <==> id !in sessions
      ensures !r.Incomplete?
    {
      if id !in sessions {
        return NotFound, [], 0;
      }
      var ok;
      ok, received := ReceivedChunks(id, works);
      r, totalChunks := if ok then Done else Refused, sessions[id].totalChunks;
    }

    /**
     * Load, backlog check, assemble, enqueue, discard. Only an enqueued file releases its chunks: any
     * refusal leaves the session exactly as it was.
     */
    method HandleComplete(id: UploadId, full: bool, works: bool, readable: nat, enqueues: bool, discards: bool)
      returns (r: Reply)
      requires Faithful()
      modifies this`sessions, this`accepted, this`book
      ensures Faithful() && Later(old(book), old(accepted), book, accepted)
      ensures r.Done? ==> id in old(sessions) && id in accepted &&
                          accepted == old(accepted)[id := accepted[id]] &&
                          accepted[id].bytes == book.purposes[id].content
      ensures !r.Done? ==> sessions == old(sessions) && accepted == old(accepted) && book == old(book)
      ensures r.Done? <==> id in old(sessions) && !full && works && enqueues &&
                           readable >= old(sessions)[id].totalChunks &&
                           HasAll(old(sessions)[id].chunks, old(sessions)[id].totalChunks)
      ensures r.Done? && discards ==> id !in sessions
      ensures r.Done? ==> id !in sessions || id in book.torn
      ensures r.NotFound? <==> id !in old(sessions)
      ensures r.Busy? <==> id in old(sessions) && full
      ensures r.Incomplete? ==> !HasAll(sessions[id].chunks, sessions[id].totalChunks)
    {
      hide FaithfulState;
      if id !in sessions {
        return NotFound;
      }
      if full {
        return Busy;
      }
      var s, bytes := sessions[id], [];
      r, bytes := Assemble(id, works, readable);
      if !r.Done? {
        return;
      }
      if !enqueues {
        return Refused;
      }
      AcceptFaithful(sessions, lastId, accepted, inFlight, book, id, bytes);
      accepted := accepted[id := Accepted(s.dest, s.name, bytes)];
      var _ := Discard(id, discards);
    }

    method HandleAbort(id: UploadId, works: bool) returns (r: Reply)
      requires Faithful()
      modifies this`sessions, this`book
      ensures Faithful() && Later(old(book), old(accepted), book, accepted)
      ensures r.Done? <==> id in old(sessions) && works
      ensures r.Done? ==> id !in sessions
      ensures r.NotFound? ==> sessions == old(sessions) && book == old(book)
      ensures r.NotFound? <==> id !in old(sessions)
    {
      if id !in sessions {
        return NotFound;
      }
      var ok := Discard(id, works);
      r := if ok then Done else Refused;
    }

    /** POST /storage/file/upload: the whole file in one request. */
    method HandleUpload(dest: Dest, filename: string, bytes: Bytes, works: bool, ghost purpose: Purpose)
      returns (r: Reply, ghost id: UploadId)
      requires Faithful() && dest == purpose.dest && bytes == purpose.content && purpose.chunkSize == 0
      requires BaseName(filename) == BaseName(purpose.path)
      modifies this
      ensures Faithful() && sessions == old(sessions) && Later(old(book), old(accepted), book, accepted)
      ensures r.Done? ==> id !in old(book).purposes && id in book.purposes && book.purposes[id] == purpose
      ensures r.Done? <==> works
      ensures r.Done? ==> id in accepted
      ensures !r.Done? ==> accepted == old(accepted)
    {
      hide FaithfulState;
      id := 0;
      if !works {
        return Refused, id;
      }
      WholeFaithful(sessions, lastId, accepted, inFlight, book, purpose);
      lastId := lastId + 1;
      id := lastId;
      book := book.(purposes := book.purposes[id := purpose]);
      accepted := accepted[lastId := Accepted(dest, BaseName(filename), bytes)];
      r := Done;
    }

    /** A request its sender gives up on stays on its way. */
    method Delay(r: Late)
      requires Faithful() && (r.LatePart? ==> TruePart(r.id, r.index, r.bytes, book))
      modifies this`inFlight
      ensures Faithful() && inFlight == old(inFlight) + {r}
    {
      inFlight := inFlight + {r};
    }

    /** Any of the requests on their way may land now, in any order. */
    method Settle()
      requires Faithful()
      modifies this
      ensures Faithful() && Later(old(book), old(accepted), book, accepted)
      ensures inFlight <= old(inFlight)
    {
      var todo := inFlight;
      while todo != {}
        invariant Faithful() && Later(old(book), old(accepted), book, accepted)
        invariant inFlight <= old(inFlight)
        decreases todo
      {
        var r :| r in todo;
        todo := todo - {r};
        var lands: bool := *;
        if lands && r in inFlight {
          inFlight := inFlight - {r};
          var full: bool, works: bool, readable: nat, enqueues: bool, discards: bool := *, *, *, *, *;
          match r
          case LatePart(id, index, bytes) => var _ := HandlePart(id, index, bytes, works);
          case LateComplete(id) => var _ := HandleComplete(id, full, works, readable, enqueues, discards);
          case LateAbort(id) => var _ := HandleAbort(id, works);
        }
      }
    }
  }
}
