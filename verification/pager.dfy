/** Paging the combined listing: directories first, then files, fetched from two tables. */
module Pager {
  import opened Common

  const DEFAULT_PAGE_SIZE := 50
  const MAX_PAGE_SIZE := 500

  /** Limits of -1 mean "all rows". */
  datatype FetchWindow = FetchWindow(dirLimit: int, dirOffset: nat, fileLimit: int, fileOffset: nat)

  function PageBounds(page: int, pageSize: int): (r: (int, nat))
    ensures 1 <= r.0 <= MAX_PAGE_SIZE
    ensures if pageSize <= 0 then r.0 == DEFAULT_PAGE_SIZE else r.0 == Min(pageSize, MAX_PAGE_SIZE)
    ensures page <= 1 ==> r.1 == 0
  {
    var p := if page < 1 then 1 else page;
    var n := if pageSize <= 0 then DEFAULT_PAGE_SIZE else pageSize;
    var size := if n > MAX_PAGE_SIZE then MAX_PAGE_SIZE else n;
    assert (p - 1) * size >= 0;
    (size, (p - 1) * size)
  }

  lemma SmallMultiple(d: int, k: int)
    requires d > 0 && -d < d * k < d
    ensures k == 0
  {
    assert k >= 1 ==> d * (k - 1) >= 0;
    assert k <= -1 ==> d * (-k - 1) >= 0;
    assert d * (k - 1) == d * k - d;
    assert d * (-k - 1) == -(d * k) - d;
  }

  lemma OffsetDivides(q: nat, size: nat)
    requires size > 0
    ensures q * size / size == q
  {
    var n := q * size;
    assert n == size * (n / size) + n % size;
    assert size * (q - n / size) == q * size - size * (n / size);
    SmallMultiple(size, q - n / size);
  }

  function PageWindow(totalDirs: nat, limit: int, offset: int): FetchWindow {
    if limit <= 0 then FetchWindow(-1, 0, -1, 0)
    else
      var from := if offset < 0 then 0 else offset;
      if from >= totalDirs then FetchWindow(0, 0, limit, from - totalDirs)
      else
        var dirsReturned := if totalDirs - from > limit then limit else totalDirs - from;
        FetchWindow(limit, from, limit - dirsReturned, 0)
  }

  /** LIMIT/OFFSET over an ordered table; -1 leaves the limit out. */
  function Fetch<T>(rows: seq<T>, limit: int, offset: nat): seq<T> {
    rows[Min(offset, |rows|)..if limit < 0 then |rows| else Min(offset + limit, |rows|)]
  }

  /** The part of a listing a page asks for; a limit that is not positive asks for all of it. */
  function Slice<T>(all: seq<T>, limit: int, offset: int): seq<T> {
    if limit <= 0 then all
    else
      var from := if offset < 0 then 0 else offset;
      all[Min(from, |all|)..Min(from + limit, |all|)]
  }

  /** A zero limit is never sent to the database. */
  function FetchUnlessZero<T>(rows: seq<T>, limit: int, offset: nat): seq<T> {
    if limit == 0 then [] else Fetch(rows, limit, offset)
  }

  /** Two windowed queries return exactly that slice of the combined listing. */
  lemma WindowIsSlice<T>(dirs: seq<T>, files: seq<T>, limit: int, offset: int)
    ensures var w := PageWindow(|dirs|, limit, offset);
            FetchUnlessZero(dirs, w.dirLimit, w.dirOffset) + FetchUnlessZero(files, w.fileLimit, w.fileOffset) ==
            Slice(dirs + files, limit, offset)
  {
    hide Slice;
    var from := if offset < 0 then 0 else offset;
    if limit <= 0 {
      Unlimited(dirs, files, limit, offset);
    } else if from >= |dirs| {
      OnlyFiles(dirs, files, limit, offset);
    } else if from + limit <= |dirs| {
      OnlyDirs(dirs, files, limit, offset);
    } else {
      SpillsIntoFiles(dirs, files, limit, offset);
    }
  }

  lemma Unlimited<T>(dirs: seq<T>, files: seq<T>, limit: int, offset: int)
    requires limit <= 0
    ensures Slice(dirs + files, limit, offset) == Fetch(dirs, -1, 0) + Fetch(files, -1, 0)
  {
    assert dirs[Min(0, |dirs|)..|dirs|] == dirs && files[Min(0, |files|)..|files|] == files;
  }

  lemma OnlyDirs<T>(dirs: seq<T>, files: seq<T>, limit: nat, offset: int)
    requires limit > 0 && (if offset < 0 then 0 else offset) + limit <= |dirs|
    ensures Slice(dirs + files, limit, offset) == Fetch(dirs, limit, if offset < 0 then 0 else offset)
  {
  }

  lemma OnlyFiles<T>(dirs: seq<T>, files: seq<T>, limit: nat, offset: int)
    requires limit > 0 && |dirs| <= if offset < 0 then 0 else offset
    ensures Slice(dirs + files, limit, offset) ==
            Fetch(files, limit, (if offset < 0 then 0 else offset) - |dirs|)
  {
  }

  lemma SpillsIntoFiles<T>(dirs: seq<T>, files: seq<T>, limit: nat, offset: int)
    requires (if offset < 0 then 0 else offset) < |dirs| < (if offset < 0 then 0 else offset) + limit
    ensures var from := if offset < 0 then 0 else offset;
            Slice(dirs + files, limit, offset) ==
            Fetch(dirs, limit, from) + Fetch(files, limit - (|dirs| - from), 0)
  {
  }

  datatype Paged<T> = Paged(entries: seq<T>, total: nat, page: int, pageSize: int)

  /** One page of a folder, read from the two tables. */
  method ListAtPrefixes<T>(dirs: seq<T>, files: seq<T>, page: int, pageSize: int) returns (out: Paged<T>)
    ensures var (size, offset) := PageBounds(page, pageSize);
            && out.entries == Slice(dirs + files, size, offset)
            && out.pageSize == size && |out.entries| <= size
    ensures out.page == if page < 1 then 1 else page
    ensures out.total == |dirs| + |files|
  {
    var limit, offset := PageBounds(page, pageSize).0, PageBounds(page, pageSize).1;
    var window := PageWindow(|dirs|, limit, offset);
    var entries: seq<T> := [];
    if window.dirLimit != 0 {
      entries := entries + Fetch(dirs, window.dirLimit, window.dirOffset);
    }
    if window.fileLimit != 0 {
      entries := entries + Fetch(files, window.fileLimit, window.fileOffset);
    }
    WindowIsSlice(dirs, files, limit, offset);
    OffsetDivides(if page < 1 then 0 else page - 1, limit);
    out := Paged(entries, |dirs| + |files|, offset / limit + 1, limit);
  }

  /** Pages 1 to `pages`, one after the other. */
  function Pages<T>(all: seq<T>, pageSize: int, pages: nat): seq<T> {
    if pages == 0 then []
    else Pages(all, pageSize, pages - 1) + Slice(all, PageBounds(pages, pageSize).0, PageBounds(pages, pageSize).1)
  }

  /** No gap and no repeat: the pages read so far are a prefix of the listing, and enough of them are all of it. */
  lemma {:induction false} PagesConcatenate<T>(all: seq<T>, pageSize: int, pages: nat)
    ensures var size := PageBounds(1, pageSize).0;
            Pages(all, pageSize, pages) == all[..Min(pages * size, |all|)]
    ensures pages * PageBounds(1, pageSize).0 >= |all| ==> Pages(all, pageSize, pages) == all
  {
    var size := PageBounds(1, pageSize).0;
    if pages > 0 {
      PagesConcatenate(all, pageSize, pages - 1);
      NextPage(all, size, pages);
    }
  }

  lemma NextPage<T>(all: seq<T>, size: int, page: nat)
    requires size > 0 && page > 0
    ensures (page - 1) * size >= 0
    ensures all[..Min((page - 1) * size, |all|)] + Slice(all, size, (page - 1) * size) == all[..Min(page * size, |all|)]
  {
    var lo := (page - 1) * size;
    assert lo >= 0 && page * size == lo + size;
    var from, to := Min(lo, |all|), Min(lo + size, |all|);
    assert all[..from] + all[from..to] == all[..to];
  }
}
