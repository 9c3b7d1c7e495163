/** The messages of the "file" data channel and the values both ends keep about a transfer. */
module FileProtocol {
  import opened Bytes

  const CHUNK_SIZE: nat := 8192
  const MAX_CLIPBOARD_IMAGE: nat := 16 * 1024 * 1024
  const MAX_FILE_SIZE: nat := 1024 * 1024 * 1024
  const MAX_RECV: nat := 16
  const MAX_COMPLETED: nat := 64
  const MAX_QUEUE: nat := 64
  const MAX_HISTORY: nat := 200
  const NACK_BATCH: nat := 512
  const BURST: nat := 32

  // Clocks count milliseconds.
  const RECV_TTL: nat := 300_000
  const COMPLETED_TTL: nat := 3_600_000
  const RETRY_AFTER: nat := 1_000
  const START_DELAY: nat := 3_000

  type Path = string
  type Digest = string

  /** A session id: the process that made it, whether it was made when queueing
      ("tx<pid>-q<n>" rather than "tx<pid>-<n>"), and the counter value. */
  datatype Id = Id(peer: nat, queued: bool, seqNo: nat)

  datatype Kind = File | ClipboardImage

  datatype Message =
    | Meta(id: Id, name: string, size: nat, chunks: nat, hash: Option<Digest>, kind: Kind)
    | Chunk(id: Id, index: nat, payload: seq<byte>)
    | Done(id: Id, ok: bool)
    | Cancel(id: Id)
    | Nack(id: Id, missing: seq<nat>)
    | Request(path: Path)

  /** Rust's `Instant::elapsed`, which saturates at zero. */
  function Elapsed(now: nat, since: nat): nat {
    if now >= since then now - since else 0
  }

  function ChunkCount(size: nat): nat {
    CeilDiv(size, CHUNK_SIZE)
  }

  function ChunkStart(index: nat): nat {
    index * CHUNK_SIZE
  }

  function ChunkEnd(size: nat, index: nat): nat {
    Min((index + 1) * CHUNK_SIZE, size)
  }

  /** A valid index addresses a non-empty slice that lies inside the content. */
  lemma ChunkBounds(size: nat, index: nat)
    requires index < ChunkCount(size)
    ensures ChunkStart(index) < ChunkEnd(size, index) <= size
    ensures ChunkEnd(size, index) <= ChunkStart(index) + CHUNK_SIZE
  {
  }

  /** The payload of chunk `index`. */
  function Slice(content: seq<byte>, index: nat): seq<byte>
    requires index < ChunkCount(|content|)
  {
    ChunkBounds(|content|, index);
    content[ChunkStart(index)..ChunkEnd(|content|, index)]
  }

  // ---- file names ----

  /** The part of `p` after its last '/'. */
  function LastComponent(p: Path): (c: Path)
    ensures '/' !in c
    ensures |c| <= |p| && c == p[|p| - |c|..]
  {
    if p == [] || p[|p| - 1] == '/' then [] else LastComponent(p[..|p| - 1]) + [p[|p| - 1]]
  }

  /** `Path::file_name` on Unix: trailing '/' and "." components are ignored; a path ending
      in ".." has no name. */
  function FileName(p: Path): (name: Option<string>)
    ensures name.Some? ==> name.value != [] && '/' !in name.value && name.value != "." && name.value != ".."
  {
    if p == [] then None
    else if p[|p| - 1] == '/' then FileName(p[..|p| - 1])
    else
      var c := LastComponent(p);
      if c == "." then FileName(p[..|p| - 1])
      else if c == ".." then None
      else Some(c)
  }

  /** The name is the last component: what is before it, and separators after it, do not matter. */
  lemma FileNameIsLast(dir: Path, c: Path)
    requires c != [] && '/' !in c && c != "." && c != ".."
    ensures FileName(c) == Some(c)
    ensures FileName(dir + "/" + c) == Some(c) && FileName(dir + "/" + c + "/") == Some(c)
  {
    LastOfPlain(c);
    LastOfJoined(dir, c);
    var p := dir + "/" + c;
    assert p[|p| - 1] == c[|c| - 1];
    assert (p + "/")[..|p|] == p;
  }

  lemma {:induction false} LastOfPlain(c: Path)
    requires '/' !in c
    ensures LastComponent(c) == c
  {
    if c != [] {
      LastOfPlain(c[..|c| - 1]);
    }
  }

  lemma {:induction false} LastOfJoined(dir: Path, c: Path)
    requires '/' !in c
    ensures LastComponent(dir + "/" + c) == c
  {
    var p := dir + "/" + c;
    if c != [] {
      assert p[..|p| - 1] == dir + "/" + c[..|c| - 1];
      LastOfJoined(dir, c[..|c| - 1]);
      assert p[|p| - 1] == c[|c| - 1];
    }
  }

  /** The name a receiver stores a file under; empty when the offered name is unusable. */
  function SafeFileName(name: string): (safe: string)
    ensures '/' !in safe && safe != "." && safe != ".."
  {
    match FileName(name)
    case Some(s) => s
    case None => ""
  }

  /** The name a sender announces for `path`. */
  function SendName(path: Path): string {
    match FileName(path)
    case Some(s) => s
    case None => "file"
  }

  /** A path without a name is announced as "file", and nothing is stored under it. */
  lemma Nameless(dir: Path)
    ensures SendName(dir + "/..") == "file" && SafeFileName(dir + "/..") == ""
    ensures SendName("") == "file" && SendName("/") == "file" && SafeFileName("/") == ""
  {
    LastOfJoinedDots(dir);
    assert "/"[..0] == "";
  }

  lemma LastOfJoinedDots(dir: Path)
    ensures LastComponent(dir + "/..") == ".."
  {
    LastOfJoined(dir, "..");
    assert dir + "/" + ".." == dir + "/..";
  }
}
