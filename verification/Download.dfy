/** The resumable firmware download of nff_ota_handle_cmd (sdk-c/src/nff_ota.c): chunk
    callback, retry loop, restart when the server ignores Range, digest check. */
module Download {
  import opened Bytes
  import Sha256

  const MAX_ATTEMPTS := 4
  const ERR_OTA := -5
  const ERR_RESUME_UNSUPPORTED := -11

  /** One delivered body chunk and the flash driver's answer to writing it (0 is success). */
  datatype Chunk = Chunk(bytes: seq<byte>, writeRc: int)

  /** What one HTTPS request delivers, and the port's return code. */
  datatype Attempt = Attempt(chunks: seq<Chunk>, rc: int)

  /** The outside world: the request made in round `k` from a byte offset, whether the
      n-th begin succeeds, and whether the end call does. */
  datatype World = World(request: (nat, nat) -> Attempt, begin: nat -> bool, endOk: bool)

  datatype Outcome = BeginFailed | DownloadFailed | ShaMismatch | EndFailed | Installed

  function Body(chunks: seq<Chunk>): seq<byte> {
    if chunks == [] then [] else Body(chunks[..|chunks| - 1]) + chunks[|chunks| - 1].bytes
  }

  /** A server of `file`: every request yields a piece of the file from the asked offset,
      all of it when it reports success. */
  ghost predicate Serves(w: World, file: seq<byte>) {
    forall k: nat, offset: nat :: offset <= |file| ==>
      var a := w.request(k, offset);
      && Body(a.chunks) <= file[offset..]
      && (a.rc == 0 ==> Body(a.chunks) == file[offset..])
  }

  /** The flash works: every begin succeeds and no write fails. Requests may still stall, or
      report that the server ignores Range. */
  ghost predicate FlashWorks(w: World) {
    && (forall n: nat :: w.begin(n))
    && (forall k: nat, offset: nat :: Writable(w.request(k, offset)))
  }

  /** None of the four rounds completes. */
  ghost predicate NeverCompletes(w: World) {
    forall k: nat, offset: nat :: k < 4 ==> w.request(k, offset).rc != 0
  }

  /** In round `k` at the latest the server ignores Range, and the partition cannot be begun
      a second time. */
  ghost predicate CannotRestart(w: World, k: nat) {
    && (forall n: nat :: n > 0 ==> !w.begin(n))
    && (forall offset: nat :: w.request(k, offset).rc == -11)
    && (forall j: nat, offset: nat :: j < k ==> w.request(j, offset).rc != 0)
  }

  ghost predicate Writable(a: Attempt) {
    forall i :: 0 <= i < |a.chunks| ==> a.chunks[i].writeRc == 0
  }

  /** Round `k`'s request completes, wherever it resumes. */
  ghost predicate Completes(w: World, k: nat) {
    forall offset: nat :: w.request(k, offset).rc == 0
  }

  lemma {:induction false} BodyPrefix(chunks: seq<Chunk>, i: nat)
    requires i <= |chunks|
    ensures Body(chunks[..i]) <= Body(chunks)
  {
    if i < |chunks| {
      assert chunks[..|chunks| - 1][..i] == chunks[..i];
      BodyPrefix(chunks[..|chunks| - 1], i);
    } else {
      assert chunks[..i] == chunks;
    }
  }

  lemma BodyOfNone(chunks: seq<Chunk>)
    ensures Body(chunks[..0]) == [] && Body(chunks[..|chunks|]) == Body(chunks)
  {
    assert chunks[..|chunks|] == chunks;
  }

  lemma BodyStep(chunks: seq<Chunk>)
    requires chunks != []
    ensures Body(chunks) == Body(chunks[..|chunks| - 1]) + chunks[|chunks| - 1].bytes
  {
  }

  lemma BodyGrows(chunks: seq<Chunk>, i: nat)
    requires i < |chunks|
    ensures Body(chunks[..i + 1]) == Body(chunks[..i]) + chunks[i].bytes
    ensures Body(chunks[..i]) <= Body(chunks)
  {
    hide Body;
    BodyPrefix(chunks, i);
    BodyStep(chunks[..i + 1]);
    assert chunks[..i + 1][..i] == chunks[..i];
  }

  /** The download context together with the partition it writes. */
  class Session {
    /** Bytes written since the last begin. */
    var flash: seq<byte>
    var sha: Sha256.Context
    var written: nat
    var error: int

    ghost predicate Valid()
      reads this, sha, sha.state, sha.buf
    {
      && sha.Valid() && written == |flash|
      && (error == 0 ==> sha.msg == flash)
    }

    constructor ()
      ensures Valid() && flash == [] && error == 0
      ensures fresh(sha) && fresh(sha.state) && fresh(sha.buf)
    {
      hide Sha256.HashBlocks, Sha256.WholeBlocks, Sha256.Tail;
      sha := new Sha256.Context();
      flash, written, error := [], 0, 0;
    }

    /** `ota_chunk_cb` */
    method ChunkCb(c: Chunk) returns (rc: int)
      requires Valid()
      modifies this`flash, this`written, this`error, sha, sha.state, sha.buf
      ensures Valid() && sha == old(sha)
      ensures rc == 0 <==> old(error) == 0 && c.writeRc == 0
      ensures rc == 0 || rc == -1
      ensures flash == if rc == 0 then old(flash) + c.bytes else old(flash)
      ensures error == if old(error) != 0 then old(error) else c.writeRc
    {
      hide Sha256.HashBlocks, Sha256.WholeBlocks, Sha256.Tail;
      if error != 0 {
        return -1;
      }
      sha.Update(c.bytes);
      if c.writeRc != 0 {
        error := c.writeRc;
        return -1;
      }
      flash := flash + c.bytes;
      written := written + |c.bytes|;
      return 0;
    }

    /** `nff_port_https_get_stream`: hands over chunks until the callback refuses one. */
    method Stream(a: Attempt) returns (rc: int)
      requires Valid() && error == 0
      modifies this`flash, this`written, this`error, sha, sha.state, sha.buf
      ensures Valid()
      ensures error == 0 ==> rc == a.rc && flash == old(flash) + Body(a.chunks)
      ensures old(flash) <= flash <= old(flash) + Body(a.chunks)
      ensures Writable(a) ==> error == 0
      ensures sha == old(sha)
    {
      hide Sha256.HashBlocks, Sha256.WholeBlocks, Sha256.Tail, Body;
      BodyOfNone(a.chunks);
      for i := 0 to |a.chunks|
        invariant Valid() && error == 0 && sha == old(sha)
        invariant flash == old(flash) + Body(a.chunks[..i])
      {
        BodyGrows(a.chunks, i);
        var ok := ChunkCb(a.chunks[i]);
        if ok < 0 {
          return if a.rc < 0 then a.rc else -1;
        }
      }
      return a.rc;
    }

    /** Discards partial progress: a fresh partition write and a fresh digest. */
    method Restart()
      modifies this
      ensures Valid() && flash == [] && error == 0
      ensures fresh(sha) && fresh(sha.state) && fresh(sha.buf)
    {
      hide Sha256.HashBlocks, Sha256.WholeBlocks, Sha256.Tail;
      sha := new Sha256.Context();
      flash, written, error := [], 0, 0;
    }
  }

  /** What reaching `nff_port_ota_end` guarantees about the written image. */
  ghost predicate Verified(image: seq<byte>, size: nat, expected: seq<byte>) {
    Sha256.Digest(image) == expected && (size != 0 ==> |image| == size)
  }

  /** The download part of `nff_ota_handle_cmd`. `image` is what the partition holds; `file`
      and `lucky` only name a served file and a round for the last two guarantees. */
  method Fetch(w: World, size: nat, expected: seq<byte>, ghost file: seq<byte>, ghost lucky: nat)
    returns (r: Outcome, image: seq<byte>)
    ensures r == BeginFailed <==> !w.begin(0)
    // Integrity, against any network and any flash.
    ensures r == Installed || r == EndFailed ==> Verified(image, size, expected)
    ensures r == Installed ==> w.endOk
    // Resuming neither skips nor repeats bytes of an honestly served file.
    ensures Serves(w, file) && (r == Installed || r == EndFailed || r == ShaMismatch) ==> image == file
    // An honest transfer that stalls or starts over but completes in one of the rounds is installed.
    ensures (Serves(w, file) && FlashWorks(w) && lucky < 4 && Completes(w, lucky)
             && Verified(file, size, expected) && w.endOk) ==> r == Installed
    // Every other outcome has its cause.
    ensures r == EndFailed ==> !w.endOk
    ensures r == ShaMismatch ==> Sha256.Digest(image) != expected && (size != 0 ==> |image| == size)
    ensures NeverCompletes(w) || (lucky < 4 && CannotRestart(w, lucky)) ==> r == BeginFailed || r == DownloadFailed
  {
    hide Sha256.HashBlocks, Sha256.WholeBlocks, Sha256.Tail, Sha256.Digest, Serves, Completes, Sha256.Padded,
      NeverCompletes, CannotRestart;
    image := [];
    if !w.begin(0) {
      return BeginFailed, image;
    }
    var s := new Session();
    var dlRc := Transfer(w, size, s, file, lucky);
    image := s.flash;
    if s.error == ERR_OTA && dlRc == ERR_RESUME_UNSUPPORTED {
      // The partition could not be begun again; the C code finishes a freed digest here.
      return DownloadFailed, image;
    }
    var actual := new byte[32];
    s.sha.Finish(actual);
    if dlRc != 0 || s.error != 0 || (size != 0 && s.written != size) {
      return DownloadFailed, image;
    }
    if actual[..] != expected {
      return ShaMismatch, image;
    }
    r := if w.endOk then Installed else EndFailed;
  }

  /** The retry loop. */
  method Transfer(w: World, size: nat, s: Session, ghost file: seq<byte>, ghost lucky: nat) returns (dlRc: int)
    requires s.Valid() && s.flash == [] && s.error == 0
    modifies s, s.sha, s.sha.state, s.sha.buf
    ensures s.Valid() && (s.sha == old(s.sha) || (fresh(s.sha) && fresh(s.sha.state) && fresh(s.sha.buf)))
    ensures Serves(w, file) && s.error == 0 && dlRc == 0 && (size == 0 || s.written == size) ==> s.flash == file
    ensures (Serves(w, file) && FlashWorks(w) && lucky < 4 && Completes(w, lucky)
             && (size == 0 || size == |file|)) ==> s.error == 0 && dlRc == 0 && s.flash == file
    ensures NeverCompletes(w) || (lucky < 4 && CannotRestart(w, lucky)) ==> s.error != 0 || dlRc != 0
  {
    hide Sha256.HashBlocks, Sha256.WholeBlocks, Sha256.Tail;
    dlRc := 0;
    var begins := 1;
    var attempt := 0;
    while attempt < MAX_ATTEMPTS
      invariant attempt <= MAX_ATTEMPTS
      invariant s.Valid() && s.error == 0
      invariant s.sha == old(s.sha) || (fresh(s.sha) && fresh(s.sha.state) && fresh(s.sha.buf))
      invariant attempt > 0 && dlRc == 0 ==> s.written < size
      invariant Serves(w, file) ==> s.flash <= file
      invariant (Serves(w, file) && FlashWorks(w) && lucky < 4 && Completes(w, lucky)
                 && (size == 0 || size == |file|)) ==> attempt <= lucky
      invariant NeverCompletes(w) && attempt > 0 ==> dlRc != 0
      invariant lucky < 4 && CannotRestart(w, lucky) ==> attempt <= lucky && (attempt > 0 ==> dlRc != 0)
      invariant begins > 0
      decreases MAX_ATTEMPTS - attempt
    {
      var a := w.request(attempt, s.written);
      ghost var before := s.flash;
      dlRc := s.Stream(a);
      PieceOfFile(w, file, attempt, before, s.flash, s.error == 0 && dlRc == 0);
      if s.error != 0 {
        break;
      }
      if dlRc == 0 && (size == 0 || s.written >= size) {
        break;
      }
      if dlRc == ERR_RESUME_UNSUPPORTED {
        if !w.begin(begins) {
          s.error := ERR_OTA;
          break;
        }
        begins := begins + 1;
        s.Restart();
        dlRc := -1;
      }
      attempt := attempt + 1;
    }
  }

  /** One round of an honest server extends a prefix of the file to a prefix of the file,
      and to the whole file when it completes. */
  lemma PieceOfFile(w: World, file: seq<byte>, k: nat, before: seq<byte>, after: seq<byte>, complete: bool)
    requires before <= after <= before + Body(w.request(k, |before|).chunks)
    requires complete ==> w.request(k, |before|).rc == 0 && after == before + Body(w.request(k, |before|).chunks)
    ensures Serves(w, file) && before <= file ==> after <= file && (complete ==> after == file)
  {
    if Serves(w, file) && before <= file {
      var body := Body(w.request(k, |before|).chunks);
      assert |before| <= |file| && body <= file[|before|..];
      assert before + body <= file;
    }
  }
}
