/**
 The receiving object of a file transfer and the construction of the sender's
 queue, in the form the source has them.
 */
module FileReceiverObject {
  import opened Bytes
  import opened Options
  import opened FileNames
  import opened FileBlocks
  import opened FileTransferSystem

  /** The state `HandleReceivedFileData` works on: one writer per stream, the disk, the countdown. */
  class FileReceiver {
    const codec: Codec
    var writers: seq<Writer>
    var disk: Disk
    var numFiles: int
    var done: bool

    constructor (codec: Codec, numStreams: nat, announced: nat, disk: Disk)
      ensures this.codec == codec && writers == seq(numStreams, _ => NoWriter)
      ensures this.disk == disk && numFiles == announced && !done
    {
      this.codec := codec;
      writers := seq(numStreams, _ => NoWriter);
      this.disk, numFiles, done := disk, announced, false;
    }

    /** A first block: read the name and open the output file, emptying it. */
    method BeginFile(streamId: nat, data: seq<Byte>, opens: bool)
      requires streamId < |writers| && |data| >= HDR + META
      modifies this`disk, this`writers
      ensures writers == old(writers)[streamId := Writer(NameIn(data), !opens)]
      ensures disk == if opens then old(disk)[NameIn(data) := []] else old(disk)
    {
      var name, ext := ReadFileNames(data[HDR + NAME_AT..HDR + EXTENSION_AT], data[HDR + EXTENSION_AT..HDR + META]);
      if ext != [] {
        name := name + [DOT] + ext;
      }
      writers := writers[streamId := Writer(name, !opens)];
      if opens {
        disk := disk[name := []];
      }
    }

    /** One write: what is taken is appended, and a short write breaks the writer. */
    method WriteContent(streamId: nat, content: seq<Byte>, limit: Option<nat>) returns (good: bool)
      requires streamId < |writers| && writers[streamId].Writer?
      modifies this`disk, this`writers
      ensures var w := old(writers)[streamId];
              var short := limit.Some? && limit.value < |content|;
              && good == (!w.broken && !short)
              && writers == old(writers)[streamId := w.(broken := !good)]
              && disk == (if w.broken then old(disk)
                          else old(disk)[w.name := Stored(old(disk), w.name)
                                                   + if short then content[..limit.value] else content])
    {
      var w := writers[streamId];
      if w.broken {
        return false;
      }
      good := !(limit.Some? && limit.value < |content|);
      disk := disk[w.name := Stored(disk, w.name) + if good then content else content[..limit.value]];
      writers := writers[streamId := w.(broken := !good)];
    }

    /** A last block: close the output file and count down. */
    method EndFile(streamId: nat)
      requires streamId < |writers|
      modifies this`writers, this`numFiles, this`done
      ensures writers == old(writers)[streamId := NoWriter]
      ensures numFiles == CountDown(old(numFiles)) && done == (old(done) || numFiles == 0)
    {
      writers := writers[streamId := NoWriter];
      if numFiles > 0 {
        numFiles := numFiles - 1;
      }
      if numFiles <= 0 {
        done := true;
        numFiles := 0;
      }
    }

    /**
     One block from one stream, whatever the file system does with it. `ok` is false when
     an assertion of the source would fire; a block for a stream that does not exist is
     logged and ignored.
     */
    method HandleReceivedFileData(streamId: nat, data: seq<Byte>, out: Output) returns (ok: bool)
      modifies this
      ensures streamId >= |old(writers)| ==>
                ok && writers == old(writers) && disk == old(disk) && numFiles == old(numFiles) && done == old(done)
      ensures streamId < |old(writers)| ==>
                var h := Handle(codec, old(writers)[streamId], old(disk), old(numFiles), data, out);
                && ok == !h.fault
                && writers == old(writers)[streamId := h.writer]
                && disk == h.disk && numFiles == h.numFiles
                && done == (old(done) || (h.finished && numFiles == 0))
    {
      if streamId >= |writers| {
        return true;
      }
      if data == [] || (Syn(data) && |data| < HDR + META) {
        return false;
      }
      if Syn(data) {
        BeginFile(streamId, data, out.opens);
        if !out.opens {
          return true;
        }
      }
      if writers[streamId].NoWriter? || |data| <= ContentAt(data) {
        return false;
      }
      var content := Decode(codec, data);
      if content == [] {
        return true;
      }
      var good := WriteContent(streamId, content, out.limit);
      if !good {
        return true;
      }
      if HeaderOf(data[0]).fileSeq >= MAX_BARS {
        return false;
      }
      if Fin(data) {
        EndFile(streamId);
      }
      return true;
    }
  }

  // ------------------------------------------------------------ the sender's queue

  type Path = seq<Byte>

  datatype Pending = Pending(barId: nat, size: nat, path: Path)

  /** What the first `k` paths leave in the queue: first occurrences that can be read. */
  ghost function Queued(paths: seq<Path>, sizeOf: Path -> Option<nat>, k: nat): seq<Pending>
    requires k <= |paths|
  {
    if k == 0 then []
    else
      var before := Queued(paths, sizeOf, k - 1);
      var p := paths[k - 1];
      if p !in paths[..k - 1] && sizeOf(p).Some? then before + [Pending(k - 1, sizeOf(p).value, p)] else before
  }

  ghost function TotalSize(queue: seq<Pending>): nat {
    if queue == [] then 0 else TotalSize(queue[..|queue| - 1]) + queue[|queue| - 1].size
  }

  /** A total is the sum of the sizes. */
  lemma {:induction false} TotalsAdd(a: seq<Pending>, b: seq<Pending>)
    ensures TotalSize(a + b) == TotalSize(a) + TotalSize(b)
  {
    if b == [] {
      assert a + b == a;
    } else {
      var n := |b| - 1;
      TotalsAdd(a, b[..n]);
      assert (a + b)[..|a| + n] == a + b[..n];
    }
  }

  lemma TotalOfOne(p: Pending)
    ensures TotalSize([]) == 0 && TotalSize([p]) == p.size
  {
    assert [p][..0] == [];
  }

  /** The constructor's loop over the paths given by the user. */
  method BuildQueue(paths: seq<Path>, sizeOf: Path -> Option<nat>) returns (queue: seq<Pending>, totalBytes: nat)
    ensures queue == Queued(paths, sizeOf, |paths|)
    ensures totalBytes == TotalSize(queue)
  {
    var uniqueFiles: set<Path> := {};
    queue, totalBytes := [], 0;
    var id := 0;
    while id < |paths|
      invariant 0 <= id <= |paths|
      invariant forall p :: p in uniqueFiles <==> p in paths[..id]
      invariant queue == Queued(paths, sizeOf, id) && totalBytes == TotalSize(queue)
    {
      var file := paths[id];
      assert paths[..id + 1] == paths[..id] + [file];
      if file !in uniqueFiles {
        uniqueFiles := uniqueFiles + {file};
        var size := sizeOf(file);
        if size.Some? {
          totalBytes := totalBytes + size.value;
          assert (queue + [Pending(id, size.value, file)])[..|queue|] == queue;
          queue := queue + [Pending(id, size.value, file)];
        }
      }
      id := id + 1;
    }
  }

  ghost predicate AllDistinct(paths: seq<Path>, k: nat)
    requires k <= |paths|
  {
    forall i, j :: 0 <= i < j < k ==> paths[i] != paths[j]
  }

  ghost predicate AllReadable(paths: seq<Path>, sizeOf: Path -> Option<nat>, k: nat)
    requires k <= |paths|
  {
    forall i :: 0 <= i < k ==> sizeOf(paths[i]).Some?
  }

  /**
   The request announces the number of paths given; the queue holds as many files
   exactly when no path is repeated and every one can be read.
   */
  lemma {:induction false} AnnouncedIsQueued(paths: seq<Path>, sizeOf: Path -> Option<nat>, k: nat)
    requires k <= |paths|
    ensures |Queued(paths, sizeOf, k)| <= k
    ensures |Queued(paths, sizeOf, k)| == k <==> AllDistinct(paths, k) && AllReadable(paths, sizeOf, k)
  {
    if k > 0 {
      AnnouncedIsQueued(paths, sizeOf, k - 1);
      var p := paths[k - 1];
      if p in paths[..k - 1] {
        var i :| 0 <= i < k - 1 && paths[i] == p;
        assert paths[i] == paths[k - 1];
      } else {
        assert forall i :: 0 <= i < k - 1 ==> paths[i] in paths[..k - 1];
      }
    }
  }

  /** An entry points back to the first place of its path. */
  ghost predicate EntryOk(paths: seq<Path>, sizeOf: Path -> Option<nat>, k: nat, e: Pending)
    requires k <= |paths|
  {
    && e.barId < k && paths[e.barId] == e.path && e.path !in paths[..e.barId]
    && sizeOf(e.path) == Some(e.size)
  }

  /** Queue entries are first occurrences of readable paths, each path at most once. */
  lemma {:induction false} QueueHasNoRepeats(paths: seq<Path>, sizeOf: Path -> Option<nat>, k: nat)
    requires k <= |paths|
    ensures forall i :: 0 <= i < |Queued(paths, sizeOf, k)| ==> EntryOk(paths, sizeOf, k, Queued(paths, sizeOf, k)[i])
    ensures forall i, j :: 0 <= i < j < |Queued(paths, sizeOf, k)| ==>
              Queued(paths, sizeOf, k)[i].path != Queued(paths, sizeOf, k)[j].path
  {
    if k > 0 {
      QueueHasNoRepeats(paths, sizeOf, k - 1);
      var before, now := Queued(paths, sizeOf, k - 1), Queued(paths, sizeOf, k);
      forall i | 0 <= i < |before|
        ensures now[i] == before[i] && EntryOk(paths, sizeOf, k, now[i]) && now[i].path in paths[..k - 1]
      {
        assert EntryOk(paths, sizeOf, k - 1, before[i]);
        assert paths[..k - 1][before[i].barId] == before[i].path;
      }
    }
  }

  /** Every readable path is in the queue. */
  lemma {:induction false} QueueMissesNothing(paths: seq<Path>, sizeOf: Path -> Option<nat>, k: nat, p: Path)
    requires k <= |paths| && p in paths[..k] && sizeOf(p).Some?
    ensures exists j :: 0 <= j < |Queued(paths, sizeOf, k)| && Queued(paths, sizeOf, k)[j].path == p
  {
    var before, now := Queued(paths, sizeOf, k - 1), Queued(paths, sizeOf, k);
    assert paths[..k] == paths[..k - 1] + [paths[k - 1]];
    if p in paths[..k - 1] {
      QueueMissesNothing(paths, sizeOf, k - 1, p);
      var j :| 0 <= j < |before| && before[j].path == p;
      assert now[j] == before[j];
    } else {
      assert now[|now| - 1].path == p;
    }
  }
}
