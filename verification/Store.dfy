/** The credential store of sdk-c/src/nff_store.c over a string-only key-value flash. */
module Store {
  import opened Bytes
  import opened Wrappers
  import Base64
  import Decimal

  const CHUNK := 200

  // ---------------------------------------------------------------------
  // The flash
  // ---------------------------------------------------------------------

  datatype Value = Str(s: string) | U32(n: nat)

  type Table = map<string, Value>

  datatype Write = Write(key: string, value: Value)

  /** The flash and the number of writes it still performs before power is lost or a
      write fails. */
  datatype Flash = Flash(table: Table, budget: nat)

  /** Performs the writes in order until the budget runs out. */
  function Run(f: Flash, ws: seq<Write>): (Flash, bool) {
    if ws == [] then (f, true)
    else
      var (g, ok) := Run(f, ws[..|ws| - 1]);
      var w := ws[|ws| - 1];
      if !ok || g.budget == 0 then (g, false)
      else (Flash(g.table[w.key := w.value], g.budget - 1), true)
  }

  function Apply(t: Table, ws: seq<Write>): Table {
    if ws == [] then t
    else
      var w := ws[|ws| - 1];
      Apply(t, ws[..|ws| - 1])[w.key := w.value]
  }

  lemma {:induction false} RunAppend(f: Flash, u: seq<Write>, w: seq<Write>)
    ensures Run(f, u + w) == if Run(f, u).1 then Run(Run(f, u).0, w) else (Run(f, u).0, false)
  {
    if w == [] {
      assert u + w == u;
    } else {
      var n := |w| - 1;
      assert (u + w)[..|u + w| - 1] == u + w[..n];
      RunAppend(f, u, w[..n]);
    }
  }

  /** A run performs a prefix of its writes, all of them exactly when it reports success. */
  lemma {:induction false} RunIsPrefix(f: Flash, ws: seq<Write>) returns (k: nat)
    ensures k <= |ws| && k <= f.budget && Run(f, ws).0 == Flash(Apply(f.table, ws[..k]), f.budget - k)
    ensures k == if f.budget < |ws| then f.budget else |ws|
    ensures Run(f, ws).1 <==> k == |ws|
  {
    if ws == [] {
      k := 0;
    } else {
      var n := |ws| - 1;
      k := RunIsPrefix(f, ws[..n]);
      assert ws[..n][..k] == ws[..k];
      if Run(f, ws).1 {
        k := n + 1;
        assert ws[..n + 1] == ws;
      }
    }
  }

  lemma {:induction false} ApplyAppend(t: Table, u: seq<Write>, w: seq<Write>)
    ensures Apply(t, u + w) == Apply(Apply(t, u), w)
  {
    if w == [] {
      assert u + w == u;
    } else {
      var n := |w| - 1;
      assert (u + w)[..|u + w| - 1] == u + w[..n];
      ApplyAppend(t, u, w[..n]);
    }
  }

  /** Writes to other keys leave a key alone. */
  lemma {:induction false} ApplyElsewhere(t: Table, ws: seq<Write>, key: string)
    requires forall i :: 0 <= i < |ws| ==> ws[i].key != key
    ensures (key in Apply(t, ws) <==> key in t) && (key in t ==> Apply(t, ws)[key] == t[key])
  {
    if ws != [] {
      ApplyElsewhere(t, ws[..|ws| - 1], key);
    }
  }

  function GetU32(t: Table, key: string): Option<nat> {
    if key in t && t[key].U32? then Some(t[key].n) else None
  }

  /** Reading into a buffer of `cap` characters fails when the text and its NUL do not fit. */
  function GetStr(t: Table, key: string, cap: nat): Option<string> {
    if key in t && t[key].Str? && |t[key].s| < cap then Some(t[key].s) else None
  }

  // ---------------------------------------------------------------------
  // Keys
  // ---------------------------------------------------------------------

  const PROJECT := "op_project"
  const CLAIMED := "claimed"

  function ChunkKey(prefix: string, i: nat): string {
    prefix + "." + Decimal.Print(i)
  }

  function CountKey(prefix: string): string {
    prefix + ".n"
  }

  predicate IsPrefix(p: string) {
    '.' !in p
  }

  lemma KeysDiffer(p: string, i: nat, q: string, j: nat)
    requires IsPrefix(p) && IsPrefix(q)
    ensures ChunkKey(p, i) == ChunkKey(q, j) ==> p == q && i == j
    ensures ChunkKey(p, i) != CountKey(q)
    ensures CountKey(p) == CountKey(q) ==> p == q
    ensures ChunkKey(p, i) != PROJECT && ChunkKey(p, i) != CLAIMED
    ensures CountKey(p) != PROJECT && CountKey(p) != CLAIMED
  {
    assert ChunkKey(p, i)[|p|] == '.' && CountKey(p)[|p|] == '.';
    assert '.' !in PROJECT && '.' !in CLAIMED;
    if ChunkKey(p, i) == ChunkKey(q, j) {
      Decimal.SplitIsUnique('.', p, Decimal.Print(i), q, Decimal.Print(j));
      Decimal.PrintIsInjective(i, j);
    }
    Decimal.PrintIsDigits(i, "n");
    assert CountKey(q) == q + "." + "n";
    if ChunkKey(p, i) == CountKey(q) {
      Decimal.SplitIsUnique('.', p, Decimal.Print(i), q, "n");
    }
    if CountKey(p) == CountKey(q) {
      assert CountKey(p) == p + "." + "n" && CountKey(q) == q + "." + "n";
      Decimal.SplitIsUnique('.', p, "n", q, "n");
    }
  }

  // ---------------------------------------------------------------------
  // One blob
  // ---------------------------------------------------------------------

  function ChunkCount(text: string): nat {
    (|text| + CHUNK - 1) / CHUNK
  }

  /** Where chunk `i` starts. */
  function Cut(text: string, i: nat): (c: nat)
    ensures c <= |text|
  {
    if CHUNK * i < |text| then CHUNK * i else |text|
  }

  lemma CutsAdvance(text: string, i: nat)
    ensures Cut(text, 0) == 0 && Cut(text, ChunkCount(text)) == |text|
    ensures Cut(text, i) <= Cut(text, i + 1) <= Cut(text, i) + CHUNK
  {
  }

  function Piece(text: string, i: nat): (p: string)
    ensures |p| <= CHUNK
  {
    CutsAdvance(text, i);
    text[Cut(text, i)..Cut(text, i + 1)]
  }

  function ChunkWrites(prefix: string, text: string, n: nat): (ws: seq<Write>)
    requires n <= ChunkCount(text)
    ensures |ws| == n
  {
    seq(n, i requires 0 <= i < n => Write(ChunkKey(prefix, i), Str(Piece(text, i))))
  }

  lemma NoChunks(prefix: string, text: string)
    ensures ChunkWrites(prefix, text, 0) == []
  {
  }

  /** What one round of the chunking loop adds. */
  lemma NextChunk(prefix: string, text: string, i: nat)
    requires CHUNK * i < |text|
    ensures i + 1 <= ChunkCount(text)
    ensures var take := if |text| - CHUNK * i < CHUNK then |text| - CHUNK * i else CHUNK;
            ChunkWrites(prefix, text, i + 1)
              == ChunkWrites(prefix, text, i) + [Write(ChunkKey(prefix, i), Str(text[CHUNK * i..CHUNK * i + take]))]
  {
    hide ChunkKey;
    var take := if |text| - CHUNK * i < CHUNK then |text| - CHUNK * i else CHUNK;
    assert Piece(text, i) == text[CHUNK * i..CHUNK * i + take];
    hide Piece;
  }

  lemma AllChunks(text: string, chunks: nat)
    requires chunks <= ChunkCount(text) && CHUNK * chunks >= |text|
    ensures chunks == ChunkCount(text)
  {
  }

  /** The writes of `store_blob`: the chunks, then their number. */
  function BlobWrites(prefix: string, data: seq<byte>): seq<Write> {
    var text := Base64.EncodeText(data);
    ChunkWrites(prefix, text, ChunkCount(text)) + [Write(CountKey(prefix), U32(ChunkCount(text) % TWO32))]
  }

  /** The sizes the C code's `int` lengths allow. */
  predicate FitsInt(data: seq<byte>) {
    Base64.TextLength(|data|) < 0x8000_0000
  }

  function Joined(t: Table, prefix: string, n: nat): Option<string> {
    if n == 0 then Some([])
    else
      var rest := Joined(t, prefix, n - 1);
      var piece := GetStr(t, ChunkKey(prefix, n - 1), CHUNK + 1);
      if rest.Some? && piece.Some? then Some(rest.value + piece.value) else None
  }

  /** The stored text of a blob, if its count is positive and every chunk is there. */
  function BlobText(t: Table, prefix: string): Option<string> {
    var n := GetU32(t, CountKey(prefix));
    if n.None? || n.value == 0 then None else Joined(t, prefix, n.value)
  }

  datatype Error = Uninit | NoMemory | Checksum

  ghost predicate LoadsBlob(t: Table, prefix: string, r: Result<seq<byte>, Error>) {
    match BlobText(t, prefix)
    case None => r == Err(Uninit)
    case Some(text) => r.Ok? && Base64.IsDecoding(Base64.Payload(text), r.value)
  }

  function Flat(pieces: seq<string>): string {
    if pieces == [] then [] else Flat(pieces[..|pieces| - 1]) + pieces[|pieces| - 1]
  }

  /** The flash holds `pieces` as the chunks of a blob, each short enough for its buffer. */
  ghost predicate HasPieces(t: Table, prefix: string, pieces: seq<string>) {
    forall i :: 0 <= i < |pieces| ==>
      var key := prefix + "." + Decimal.Print(i);
      |pieces[i]| <= 200 && key in t && t[key] == Str(pieces[i])
  }

  lemma {:induction false} JoinedIsFlat(t: Table, prefix: string, pieces: seq<string>)
    requires HasPieces(t, prefix, pieces)
    ensures Joined(t, prefix, |pieces|) == Some(Flat(pieces))
  {
    hide Decimal.Print;
    if pieces != [] {
      JoinedIsFlat(t, prefix, pieces[..|pieces| - 1]);
      assert ChunkKey(prefix, |pieces| - 1) == prefix + "." + Decimal.Print(|pieces| - 1);
    }
  }

  lemma {:induction false} JoinedHasPieces(t: Table, prefix: string, n: nat) returns (pieces: seq<string>)
    requires Joined(t, prefix, n).Some?
    ensures |pieces| == n && HasPieces(t, prefix, pieces)
  {
    hide Decimal.Print;
    if n == 0 {
      pieces := [];
    } else {
      var before := JoinedHasPieces(t, prefix, n - 1);
      pieces := before + [GetStr(t, ChunkKey(prefix, n - 1), CHUNK + 1).value];
    }
  }

  /** A blob is readable exactly when its count is positive and that many chunks of at most
      200 characters are there; its text is the chunks in order. */
  lemma BlobTextIff(t: Table, prefix: string, text: string)
    ensures BlobText(t, prefix) == Some(text)
        <==> exists pieces: seq<string> ::
               && pieces != [] && HasPieces(t, prefix, pieces) && Flat(pieces) == text
               && prefix + ".n" in t && t[prefix + ".n"] == U32(|pieces|)
  {
    hide HasPieces, Joined;
    if BlobText(t, prefix) == Some(text) {
      var pieces := JoinedHasPieces(t, prefix, t[CountKey(prefix)].n);
      JoinedIsFlat(t, prefix, pieces);
    }
    forall pieces: seq<string> | pieces != [] && HasPieces(t, prefix, pieces) && Flat(pieces) == text
        && prefix + ".n" in t && t[prefix + ".n"] == U32(|pieces|)
      ensures BlobText(t, prefix) == Some(text)
    {
      JoinedIsFlat(t, prefix, pieces);
    }
  }

  lemma {:induction false} JoinedPieces(text: string, t: Table, prefix: string, n: nat)
    requires n <= ChunkCount(text)
    requires forall i :: 0 <= i < n ==> ChunkKey(prefix, i) in t && t[ChunkKey(prefix, i)] == Str(Piece(text, i))
    ensures Joined(t, prefix, n) == Some(text[..Cut(text, n)])
  {
    hide Cut, ChunkCount, ChunkKey, Piece;
    if n == 0 {
      CutsAdvance(text, 0);
    } else {
      JoinedPieces(text, t, prefix, n - 1);
      assert ChunkKey(prefix, n - 1) in t;
      PieceExtends(text, n - 1);
    }
  }

  lemma PieceExtends(text: string, i: nat)
    ensures text[..Cut(text, i)] + Piece(text, i) == text[..Cut(text, i + 1)]
  {
    CutsAdvance(text, i);
    hide Cut;
  }

  /** The keys a blob lives under. */
  ghost predicate Owns(prefix: string, key: string) {
    key == CountKey(prefix) || exists i: nat :: key == ChunkKey(prefix, i)
  }

  ghost predicate Avoids(ws: seq<Write>, prefix: string) {
    forall j :: 0 <= j < |ws| ==> !Owns(prefix, ws[j].key)
  }

  lemma OtherBlobAvoids(prefix: string, data: seq<byte>, other: string)
    requires IsPrefix(prefix) && IsPrefix(other) && prefix != other
    ensures Avoids(BlobWrites(prefix, data), other)
  {
    var ws := BlobWrites(prefix, data);
    forall j | 0 <= j < |ws| ensures !Owns(other, ws[j].key) {
      if j < |ws| - 1 {
        assert ws[j].key == ChunkKey(prefix, j);
        KeysDiffer(prefix, j, other, 0);
      } else {
        KeysDiffer(prefix, 0, other, 0);
      }
      forall i: nat ensures ws[j].key != ChunkKey(other, i) {
        if j < |ws| - 1 {
          KeysDiffer(prefix, j, other, i);
        } else {
          KeysDiffer(other, i, prefix, 0);
        }
      }
    }
  }

  lemma NoBlobOwns(prefix: string, key: string)
    requires IsPrefix(prefix) && (key == PROJECT || key == CLAIMED)
    ensures !Owns(prefix, key)
  {
    forall i: nat ensures key != ChunkKey(prefix, i) {
      KeysDiffer(prefix, i, prefix, i);
    }
    KeysDiffer(prefix, 0, prefix, 0);
  }

  /** What reading a blob needs of the table. */
  ghost predicate HoldsChunks(t: Table, prefix: string, text: string) {
    && CountKey(prefix) in t && t[CountKey(prefix)] == U32(ChunkCount(text))
    && forall i: nat :: i < ChunkCount(text) ==>
         ChunkKey(prefix, i) in t && t[ChunkKey(prefix, i)] == Str(Piece(text, i))
  }

  lemma ChunksReadBack(t: Table, prefix: string, text: string)
    requires HoldsChunks(t, prefix, text)
    ensures BlobText(t, prefix) == if text == [] then None else Some(text)
    ensures BlobPresent(t, prefix) <==> text != []
  {
    hide Piece, ChunkKey, CountKey, Joined;
    JoinedPieces(text, t, prefix, ChunkCount(text));
    CutsAdvance(text, 0);
    assert text[..|text|] == text;
  }

  lemma ChunkUnderCount(t: Table, prefix: string, text: string, n: nat, i: nat)
    requires IsPrefix(prefix) && i < n <= ChunkCount(text)
    ensures var t' := Apply(t, ChunkWrites(prefix, text, n))[CountKey(prefix) := U32(n)];
            ChunkKey(prefix, i) in t' && t'[ChunkKey(prefix, i)] == Str(Piece(text, i))
  {
    hide IsPrefix, Piece, ChunkKey, CountKey, ChunkCount, ChunkWrites, Apply;
    ChunkWritten(t, prefix, text, n, i);
    KeysDiffer(prefix, i, prefix, i);
  }

  /** The table after a blob's chunks and its count. */
  function Counted(t: Table, prefix: string, text: string): Table {
    Apply(t, ChunkWrites(prefix, text, ChunkCount(text)))[CountKey(prefix) := U32(ChunkCount(text))]
  }

  lemma CountedHoldsChunks(t: Table, prefix: string, text: string)
    requires IsPrefix(prefix)
    ensures HoldsChunks(Counted(t, prefix, text), prefix, text)
  {
    hide IsPrefix, Piece, ChunkKey, CountKey, ChunkCount, ChunkWrites, Apply;
    forall i: nat | i < ChunkCount(text)
      ensures ChunkKey(prefix, i) in Counted(t, prefix, text)
      ensures Counted(t, prefix, text)[ChunkKey(prefix, i)] == Str(Piece(text, i))
    {
      ChunkUnderCount(t, prefix, text, ChunkCount(text), i);
    }
  }

  lemma BlobIsCounted(t: Table, prefix: string, data: seq<byte>)
    requires FitsInt(data)
    ensures Apply(t, BlobWrites(prefix, data)) == Counted(t, prefix, Base64.EncodeText(data))
  {
    var text := Base64.EncodeText(data);
    CountFits(data);
    BlobWritesAre(prefix, data);
    hide ChunkKey, CountKey, ChunkCount, ChunkWrites, Base64.EncodeText, Apply, FitsInt, BlobWrites;
    ApplyOne(t, ChunkWrites(prefix, text, ChunkCount(text)), Write(CountKey(prefix), U32(ChunkCount(text))));
  }

  lemma BlobWritesAre(prefix: string, data: seq<byte>)
    requires FitsInt(data)
    ensures var text := Base64.EncodeText(data);
            BlobWrites(prefix, data) == ChunkWrites(prefix, text, ChunkCount(text)) + [Write(CountKey(prefix), U32(ChunkCount(text)))]
  {
    hide ChunkKey, CountKey, ChunkCount, ChunkWrites, Base64.EncodeText, FitsInt;
    CountFits(data);
  }

  lemma WrittenHoldsChunks(t: Table, prefix: string, data: seq<byte>)
    requires IsPrefix(prefix) && FitsInt(data)
    ensures HoldsChunks(Apply(t, BlobWrites(prefix, data)), prefix, Base64.EncodeText(data))
  {
    hide IsPrefix, FitsInt, HoldsChunks, Apply, Counted, Base64.EncodeText;
    BlobIsCounted(t, prefix, data);
    CountedHoldsChunks(t, prefix, Base64.EncodeText(data));
  }

  lemma CountFits(data: seq<byte>)
    requires FitsInt(data)
    ensures ChunkCount(Base64.EncodeText(data)) < TWO32
  {
    Base64.EncodeTextLength(data);
  }

  lemma ApplyOne(t: Table, ws: seq<Write>, w: Write)
    ensures Apply(t, ws + [w]) == Apply(t, ws)[w.key := w.value]
  {
    assert (ws + [w])[..|ws|] == ws;
  }

  lemma AvoidingKeepsChunks(t: Table, prefix: string, text: string, later: seq<Write>)
    requires HoldsChunks(t, prefix, text) && Avoids(later, prefix)
    ensures HoldsChunks(Apply(t, later), prefix, text)
  {
    hide Apply, Piece, ChunkKey, CountKey, ChunkCount;
    ApplyElsewhere(t, later, CountKey(prefix));
    forall i: nat | i < ChunkCount(text)
      ensures ChunkKey(prefix, i) in Apply(t, later) && Apply(t, later)[ChunkKey(prefix, i)] == Str(Piece(text, i))
    {
      ApplyElsewhere(t, later, ChunkKey(prefix, i));
    }
  }

  /** After its writes, and any later writes to other keys, a blob reads back as its text. */
  lemma StoredTextReadsBack(t: Table, prefix: string, data: seq<byte>, later: seq<Write>)
    requires IsPrefix(prefix) && FitsInt(data)
    requires Avoids(later, prefix)
    ensures BlobText(Apply(t, BlobWrites(prefix, data) + later), prefix)
         == if data == [] then None else Some(Base64.EncodeText(data))
    ensures BlobPresent(Apply(t, BlobWrites(prefix, data) + later), prefix) <==> data != []
  {
    hide Apply, BlobWrites, BlobText, BlobPresent, HoldsChunks, Avoids, FitsInt, IsPrefix;
    var text := Base64.EncodeText(data);
    var ws := BlobWrites(prefix, data);
    ApplyAppend(t, ws, later);
    WrittenHoldsChunks(t, prefix, data);
    AvoidingKeepsChunks(Apply(t, ws), prefix, text, later);
    ChunksReadBack(Apply(t, ws + later), prefix, text);
    Base64.EncodeTextLength(data);
  }

  lemma {:induction false} ChunkWritten(t: Table, prefix: string, text: string, n: nat, i: nat)
    requires IsPrefix(prefix) && i < n <= ChunkCount(text)
    ensures var t' := Apply(t, ChunkWrites(prefix, text, n));
            ChunkKey(prefix, i) in t' && t'[ChunkKey(prefix, i)] == Str(Piece(text, i))
  {
    hide IsPrefix, Piece, ChunkKey, CountKey, ChunkCount;
    var ws := ChunkWrites(prefix, text, n);
    assert ws[..n - 1] == ChunkWrites(prefix, text, n - 1);
    if i < n - 1 {
      ChunkWritten(t, prefix, text, n - 1, i);
      KeysDiffer(prefix, i, prefix, n - 1);
    }
  }

  // ---------------------------------------------------------------------
  // The credential set
  // ---------------------------------------------------------------------

  datatype Creds = Creds(project: string, cert: seq<byte>, key: seq<byte>, chain: seq<byte>,
                         ca: seq<byte>, verifyKey: seq<byte>)

  predicate Storable(c: Creds) {
    FitsInt(c.cert) && FitsInt(c.key) && FitsInt(c.chain) && FitsInt(c.ca) && FitsInt(c.verifyKey)
  }

  const CERT := "op_cert"
  const KEY := "op_key"
  const CHAIN := "op_chain"
  const CA := "op_ca"
  const VKEY := "op_vkey"

  /** The blobs in the order `nff_store_save` writes them. */
  function Blobs(c: Creds): seq<(string, seq<byte>)> {
    [(CERT, c.cert), (KEY, c.key), (CHAIN, c.chain), (CA, c.ca), (VKEY, c.verifyKey)]
  }

  function WritesOf(blobs: seq<(string, seq<byte>)>): seq<Write> {
    if blobs == [] then []
    else WritesOf(blobs[..|blobs| - 1]) + BlobWrites(blobs[|blobs| - 1].0, blobs[|blobs| - 1].1)
  }

  /** Everything `nff_store_save` writes: the blobs, the project, the claimed flag last. */
  function SaveWrites(c: Creds): seq<Write> {
    WritesOf(Blobs(c)) + [Write(PROJECT, Str(c.project)), Write(CLAIMED, U32(1))]
  }

  predicate IsClaimed(t: Table) {
    GetU32(t, CLAIMED) == Some(1)
  }

  datatype Config = Config(project: string, clientCert: seq<byte>, intermediate: Option<seq<byte>>,
                           clientKey: seq<byte>, ca: Option<seq<byte>>, verifyKey: seq<byte>)

  /** What follows the leaf in the chain, when the chain starts with the leaf. */
  function SplitChain(chain: seq<byte>, leaf: seq<byte>): Option<seq<byte>> {
    if |chain| > |leaf| && leaf <= chain then Some(chain[|leaf|..]) else None
  }

  predicate Complete(c: Creds) {
    c.cert != [] && c.key != [] && c.chain != [] && c.verifyKey != [] && |c.project| < 64
  }

  function Expected(c: Creds): Result<Config, Error> {
    if Complete(c) then
      Ok(Config(c.project, c.chain, SplitChain(c.chain, c.cert), c.key,
                if c.ca == [] then None else Some(c.ca), c.verifyKey))
    else Err(Uninit)
  }

  /** The result of `nff_store_load` on a flash table. */
  ghost predicate LoadsConfig(t: Table, r: Result<Config, Error>) {
    if !IsClaimed(t) || GetStr(t, PROJECT, 64).None? || BlobText(t, CERT).None? || BlobText(t, KEY).None?
       || BlobText(t, CHAIN).None? || BlobText(t, VKEY).None? || (BlobPresent(t, CA) && BlobText(t, CA).None?)
    then r == Err(Uninit)
    else
      exists cert :: LoadsBlob(t, CERT, Ok(cert))
        && r.Ok?
        && r.value.project == GetStr(t, PROJECT, 64).value
        && LoadsBlob(t, CHAIN, Ok(r.value.clientCert))
        && r.value.intermediate == SplitChain(r.value.clientCert, cert)
        && LoadsBlob(t, KEY, Ok(r.value.clientKey))
        && (if BlobPresent(t, CA) then r.value.ca.Some? && LoadsBlob(t, CA, Ok(r.value.ca.value)) else r.value.ca == None)
        && LoadsBlob(t, VKEY, Ok(r.value.verifyKey))
  }

  predicate BlobPresent(t: Table, prefix: string) {
    GetU32(t, CountKey(prefix)).Some? && GetU32(t, CountKey(prefix)).value > 0
  }

  // ---------------------------------------------------------------------
  // Crash atomicity
  // ---------------------------------------------------------------------

  lemma {:induction false} WritesAvoid(blobs: seq<(string, seq<byte>)>, key: string)
    requires forall b :: b in blobs ==> IsPrefix(b.0)
    requires key == PROJECT || key == CLAIMED
    ensures forall i :: 0 <= i < |WritesOf(blobs)| ==> WritesOf(blobs)[i].key != key
  {
    if blobs != [] {
      var n := |blobs| - 1;
      WritesAvoid(blobs[..n], key);
      var b := blobs[n];
      assert b in blobs;
      NoBlobOwns(b.0, key);
      var ws := BlobWrites(b.0, b.1);
      assert forall i :: 0 <= i < |ws| - 1 ==> ws[i].key == ChunkKey(b.0, i);
    }
  }

  lemma PrefixesAreNames(c: Creds)
    ensures forall b :: b in Blobs(c) ==> IsPrefix(b.0)
  {
    assert '.' !in CERT && '.' !in KEY && '.' !in CHAIN && '.' !in CA && '.' !in VKEY;
  }

  /** Stopping after any proper prefix of the writes leaves the claimed flag as it was:
      an unclaimed device stays unclaimed. */
  lemma InterruptedSaveKeepsClaim(t: Table, c: Creds, k: nat)
    requires k < |SaveWrites(c)|
    ensures IsClaimed(Apply(t, SaveWrites(c)[..k])) <==> IsClaimed(t)
  {
    PrefixesAreNames(c);
    WritesAvoid(Blobs(c), CLAIMED);
    var ws := SaveWrites(c)[..k];
    forall i | 0 <= i < |ws| ensures ws[i].key != CLAIMED {
      if i < |WritesOf(Blobs(c))| {
        assert ws[i] == WritesOf(Blobs(c))[i];
      }
    }
    ApplyElsewhere(t, ws, CLAIMED);
  }

  lemma FullSaveClaims(t: Table, c: Creds)
    ensures IsClaimed(Apply(t, SaveWrites(c)))
  {
    var ws := SaveWrites(c);
    assert ws[|ws| - 1] == Write(CLAIMED, U32(1));
  }

  // ---------------------------------------------------------------------
  // Round trip
  // ---------------------------------------------------------------------

  lemma {:induction false} WritesOfAvoidPrefix(blobs: seq<(string, seq<byte>)>, prefix: string)
    requires IsPrefix(prefix) && forall b :: b in blobs ==> IsPrefix(b.0) && b.0 != prefix
    ensures Avoids(WritesOf(blobs), prefix)
  {
    if blobs != [] {
      hide Owns, BlobWrites;
      var n := |blobs| - 1;
      WritesOfAvoidPrefix(blobs[..n], prefix);
      var b := blobs[n];
      assert b in blobs;
      OtherBlobAvoids(b.0, b.1, prefix);
    }
  }

  lemma {:induction false} WritesOfAppend(a: seq<(string, seq<byte>)>, b: seq<(string, seq<byte>)>)
    ensures WritesOf(a + b) == WritesOf(a) + WritesOf(b)
  {
    hide BlobWrites;
    if b == [] {
      assert a + b == a;
    } else {
      var n := |b| - 1;
      assert (a + b)[..|a + b| - 1] == a + b[..n];
      WritesOfAppend(a, b[..n]);
    }
  }

  /** The layout on flash: five blobs in chunks of at most 200 characters under their own
      names, then the project, and the claimed flag behind everything else. */
  lemma SaveLayout(t: Table, c: Creds)
    ensures Blobs(c) == [("op_cert", c.cert), ("op_key", c.key), ("op_chain", c.chain), ("op_ca", c.ca),
                         ("op_vkey", c.verifyKey)]
    ensures var ws := SaveWrites(c);
            && |ws| >= 2 && ws[|ws| - 2] == Write("op_project", Str(c.project))
            && ws[|ws| - 1] == Write("claimed", U32(1))
            && forall i :: 0 <= i < |ws| - 2 ==>
                 && ws[i].key != "op_project" && ws[i].key != "claimed"
                 && (ws[i].value.Str? ==> |ws[i].value.s| <= 200)
    ensures IsClaimed(t) <==> "claimed" in t && t["claimed"] == U32(1)
  {
    PrefixesAreNames(c);
    WritesAvoid(Blobs(c), PROJECT);
    WritesAvoid(Blobs(c), CLAIMED);
    ShortChunks(Blobs(c));
    hide WritesOf, IsPrefix;
    var ws, blobs := SaveWrites(c), WritesOf(Blobs(c));
    assert forall i :: 0 <= i < |blobs| ==> ws[i] == blobs[i];
  }

  lemma {:induction false} ShortChunks(blobs: seq<(string, seq<byte>)>)
    ensures forall i :: 0 <= i < |WritesOf(blobs)| ==>
              WritesOf(blobs)[i].value.Str? ==> |WritesOf(blobs)[i].value.s| <= 200
  {
    hide Base64.EncodeText, ChunkCount, Piece, ChunkKey, CountKey;
    if blobs != [] {
      ShortChunks(blobs[..|blobs| - 1]);
    }
  }

  /** What `nff_store_save` writes after blob `i`. */
  function LaterWrites(c: Creds, i: nat): seq<Write>
    requires i < 5
  {
    WritesOf(Blobs(c)[i + 1..]) + [Write(PROJECT, Str(c.project)), Write(CLAIMED, U32(1))]
  }

  lemma SaveSplits(c: Creds, i: nat)
    requires i < 5
    ensures var b := Blobs(c)[i];
            SaveWrites(c) == WritesOf(Blobs(c)[..i]) + (BlobWrites(b.0, b.1) + LaterWrites(c, i))
  {
    hide BlobWrites, WritesOf;
    var blobs := Blobs(c);
    assert blobs == blobs[..i] + ([blobs[i]] + blobs[i + 1..]);
    WritesOfAppend(blobs[..i], [blobs[i]] + blobs[i + 1..]);
    WritesOfAppend([blobs[i]], blobs[i + 1..]);
    WritesOfOne(blobs[i]);
  }

  lemma LaterWritesAvoid(c: Creds, i: nat)
    requires i < 5
    ensures IsPrefix(Blobs(c)[i].0) && Avoids(LaterWrites(c, i), Blobs(c)[i].0)
  {
    hide Owns, BlobWrites, WritesOf;
    PrefixesAreNames(c);
    assert Blobs(c)[i] in Blobs(c);
    OtherNames(c, i);
    WritesOfAvoidPrefix(Blobs(c)[i + 1..], Blobs(c)[i].0);
    NoBlobOwns(Blobs(c)[i].0, PROJECT);
    NoBlobOwns(Blobs(c)[i].0, CLAIMED);
  }

  /** After a full save every blob reads back as its text, whatever the flash held before. */
  lemma SavedBlobReadsBack(t: Table, c: Creds, i: nat)
    requires Storable(c) && i < 5
    ensures var b := Blobs(c)[i];
            && BlobText(Apply(t, SaveWrites(c)), b.0) == (if b.1 == [] then None else Some(Base64.EncodeText(b.1)))
            && (BlobPresent(Apply(t, SaveWrites(c)), b.0) <==> b.1 != [])
  {
    hide Owns, BlobWrites, BlobText, BlobPresent, Apply, WritesOf, SaveWrites, LaterWrites, Avoids;
    var b, before := Blobs(c)[i], WritesOf(Blobs(c)[..i]);
    SaveSplits(c, i);
    ApplyAppend(t, before, BlobWrites(b.0, b.1) + LaterWrites(c, i));
    LaterWritesAvoid(c, i);
    StoredTextReadsBack(Apply(t, before), b.0, b.1, LaterWrites(c, i));
  }

  lemma WritesOfOne(b: (string, seq<byte>))
    ensures WritesOf([b]) == BlobWrites(b.0, b.1)
  {
    assert [b][..0] == [];
  }

  lemma OtherNames(c: Creds, i: nat)
    requires i < 5
    ensures forall b :: b in Blobs(c)[i + 1..] ==> IsPrefix(b.0) && b.0 != Blobs(c)[i].0
  {
    PrefixesAreNames(c);
    assert CERT[3] == 'c' && KEY[3] == 'k' && CHAIN[3] == 'c' && CA[3] == 'c' && VKEY[3] == 'v';
    assert |CERT| == 7 && |KEY| == 6 && |CHAIN| == 8 && |CA| == 5 && |VKEY| == 7;
    assert forall b :: b in Blobs(c)[i + 1..] ==> b in Blobs(c);
  }

  lemma SavedScalars(t: Table, c: Creds)
    ensures GetStr(Apply(t, SaveWrites(c)), PROJECT, 64) == if |c.project| < 64 then Some(c.project) else None
    ensures IsClaimed(Apply(t, SaveWrites(c)))
  {
    var ws := SaveWrites(c);
    var n := |ws| - 2;
    assert ws[n + 1] == Write(CLAIMED, U32(1)) && ws[n] == Write(PROJECT, Str(c.project));
    assert ws[..n + 1][..n] == ws[..n];
    assert PROJECT[0] != CLAIMED[0];
  }

  lemma BlobLoadsExactly(t: Table, prefix: string, data: seq<byte>, r: seq<byte>)
    requires BlobText(t, prefix) == Some(Base64.EncodeText(data))
    ensures LoadsBlob(t, prefix, Ok(r)) <==> r == data
  {
    if LoadsBlob(t, prefix, Ok(r)) {
      Base64.RoundTrip(data, r);
    }
    Base64.EncodingDecodes(data);
  }

  /** A full save followed by a load gives exactly the saved credentials, with the chain
      split behind the leaf, when every required part is non-empty and the project fits its
      buffer; otherwise the load fails and the device re-enrolls. Leftovers of an earlier,
      longer save do not show. */
  lemma SaveThenLoad(t: Table, c: Creds, r: Result<Config, Error>)
    requires Storable(c)
    ensures LoadsConfig(Apply(t, SaveWrites(c)), r) <==> r == Expected(c)
    ensures Expected(c) ==
              if c.cert != [] && c.key != [] && c.chain != [] && c.verifyKey != [] && |c.project| <= 63 then
                Ok(Config(c.project, c.chain, SplitChain(c.chain, c.cert), c.key,
                          if c.ca == [] then None else Some(c.ca), c.verifyKey))
              else Err(Uninit)
  {
    hide BlobText, BlobPresent, Apply, SaveWrites, Base64.IsDecoding;
    var t' := Apply(t, SaveWrites(c));
    SavedScalars(t, c);
    SavedBlobReadsBack(t, c, 0);
    SavedBlobReadsBack(t, c, 1);
    SavedBlobReadsBack(t, c, 2);
    SavedBlobReadsBack(t, c, 3);
    SavedBlobReadsBack(t, c, 4);
    if Complete(c) && r.Ok? {
      BlobLoadsExactly(t', CERT, c.cert, c.cert);
      if LoadsConfig(t', r) {
        var cert :| LoadsBlob(t', CERT, Ok(cert))
          && r.value.intermediate == SplitChain(r.value.clientCert, cert);
        BlobLoadsExactly(t', CERT, c.cert, cert);
      }
      BlobLoadsExactly(t', KEY, c.key, r.value.clientKey);
      BlobLoadsExactly(t', CHAIN, c.chain, r.value.clientCert);
      if c.ca != [] && r.value.ca.Some? {
        BlobLoadsExactly(t', CA, c.ca, r.value.ca.value);
      }
      BlobLoadsExactly(t', VKEY, c.verifyKey, r.value.verifyKey);
    }
  }

  /** An intermediate is split off exactly when the chain is the leaf with something behind it. */
  lemma SplitChainIff(chain: seq<byte>, leaf: seq<byte>)
    ensures match SplitChain(chain, leaf)
            case Some(rest) => rest != [] && chain == leaf + rest
            case None => forall rest :: rest != [] ==> chain != leaf + rest
  {
  }

  /** The chain a rollover builds splits back into leaf and intermediate. */
  lemma ChainSplitsBack(leaf: seq<byte>, intermediate: seq<byte>)
    ensures SplitChain(leaf + intermediate, leaf) == if intermediate == [] then None else Some(intermediate)
  {
    assert (leaf + intermediate)[|leaf|..] == intermediate;
  }

  // ---------------------------------------------------------------------
  // The imperative store
  // ---------------------------------------------------------------------

  class Nvs {
    var table: Table
    /** Writes that still succeed; the next one after them fails. */
    var budget: nat

    constructor (t: Table, b: nat)
      ensures Snapshot() == Flash(t, b)
    {
      table, budget := t, b;
    }

    function Snapshot(): Flash
      reads this
    {
      Flash(table, budget)
    }

    method Set(key: string, value: Value) returns (ok: bool)
      modifies this
      ensures (Snapshot(), ok) == Run(old(Snapshot()), [Write(key, value)])
    {
      assert [Write(key, value)][..0] == [];
      if budget == 0 {
        return false;
      }
      table := table[key := value];
      budget := budget - 1;
      return true;
    }

    /** `store_blob` */
    method StoreBlob(prefix: string, data: seq<byte>) returns (ok: bool)
      requires FitsInt(data)
      modifies this
      ensures (Snapshot(), ok) == Run(old(Snapshot()), BlobWrites(prefix, data))
    {
      hide Run, ChunkWrites, Piece, ChunkCount, ChunkKey, CountKey;
      Base64.EncodeTextLength(data);
      ghost var f := Snapshot();
      ghost var text := Base64.EncodeText(data);
      var b64 := new char[Base64.TextLength(|data|) + 1];
      var n := Base64.Encode(data, b64);
      var chunks, off := 0, 0;
      RunNothing(f);
      NoChunks(prefix, text);
      while off < n
        invariant chunks <= ChunkCount(text) && off == CHUNK * chunks
        invariant b64[..n] == text && n == |text|
        invariant (Snapshot(), true) == Run(f, ChunkWrites(prefix, text, chunks))
        decreases n - off
      {
        var take := if n - off < CHUNK then n - off else CHUNK;
        var piece := b64[..n][off..off + take];
        NextChunk(prefix, text, chunks);
        ghost var w := Write(ChunkKey(prefix, chunks), Str(piece));
        RunAppend(f, ChunkWrites(prefix, text, chunks), [w]);
        ok := Set(ChunkKey(prefix, chunks), Str(piece));
        if !ok {
          RunStops(f, ChunkWrites(prefix, text, chunks + 1), prefix, text, data);
          return;
        }
        chunks, off := chunks + 1, off + CHUNK;
      }
      AllChunks(text, chunks);
      ghost var count := Write(CountKey(prefix), U32(chunks % TWO32));
      RunAppend(f, ChunkWrites(prefix, text, chunks), [count]);
      ok := Set(CountKey(prefix), U32(chunks % TWO32));
    }

    /** `nff_store_save`: the claimed flag last. */
    method Save(c: Creds) returns (ok: bool)
      requires Storable(c)
      modifies this
      ensures (Snapshot(), ok) == Run(old(Snapshot()), SaveWrites(c))
    {
      hide Run, BlobWrites;
      ghost var f := Snapshot();
      SaveOrder(c);
      ghost var w0, w1, w2 := BlobWrites(CERT, c.cert), BlobWrites(KEY, c.key), BlobWrites(CHAIN, c.chain);
      ghost var w3, w4 := BlobWrites(CA, c.ca), BlobWrites(VKEY, c.verifyKey);
      ghost var w5, w6 := [Write(PROJECT, Str(c.project))], [Write(CLAIMED, U32(1))];
      RunAppend(f, w0, w1 + (w2 + (w3 + (w4 + (w5 + w6)))));
      ok := StoreBlob(CERT, c.cert);
      if !ok { return; }
      RunAppend(Snapshot(), w1, w2 + (w3 + (w4 + (w5 + w6))));
      ok := StoreBlob(KEY, c.key);
      if !ok { return; }
      RunAppend(Snapshot(), w2, w3 + (w4 + (w5 + w6)));
      ok := StoreBlob(CHAIN, c.chain);
      if !ok { return; }
      RunAppend(Snapshot(), w3, w4 + (w5 + w6));
      ok := StoreBlob(CA, c.ca);
      if !ok { return; }
      RunAppend(Snapshot(), w4, w5 + w6);
      ok := StoreBlob(VKEY, c.verifyKey);
      if !ok { return; }
      RunAppend(Snapshot(), w5, w6);
      ok := Set(PROJECT, Str(c.project));
      if !ok { return; }
      ok := Set(CLAIMED, U32(1));
    }

    /** `load_blob` */
    method LoadBlob(prefix: string) returns (r: Result<seq<byte>, Error>)
      ensures LoadsBlob(table, prefix, r)
    {
      var count := GetU32(table, CountKey(prefix));
      if count.None? || count.value == 0 {
        return Err(Uninit);
      }
      var text := "";
      for i := 0 to count.value
        invariant Joined(table, prefix, i) == Some(text) && |text| <= CHUNK * i
      {
        var piece := GetStr(table, ChunkKey(prefix, i), CHUNK + 1);
        if piece.None? {
          MissingPiece(table, prefix, i, count.value);
          return Err(Uninit);
        }
        text := text + piece.value;
      }
      var buf := new byte[|text|];
      Base64.PayloadLength(text);
      var n := Base64.Decode(text, buf);
      return Ok(buf[..n]);
    }

    /** `nff_store_load` */
    method Load() returns (r: Result<Config, Error>)
      ensures LoadsConfig(table, r)
    {
      hide BlobText, Base64.IsDecoding;
      if !IsClaimed(table) { return Err(Uninit); }
      var project := GetStr(table, PROJECT, 64);
      if project.None? { return Err(Uninit); }
      var cert := LoadBlob(CERT);
      if cert.Err? { return Err(cert.error); }
      var key := LoadBlob(KEY);
      if key.Err? { return Err(key.error); }
      var chain := LoadBlob(CHAIN);
      if chain.Err? { return Err(chain.error); }
      var ca: Option<seq<byte>> := None;
      if BlobPresent(table, CA) {
        var blob := LoadBlob(CA);
        if blob.Err? { return Err(blob.error); }
        ca := Some(blob.value);
      }
      var vkey := LoadBlob(VKEY);
      if vkey.Err? { return Err(vkey.error); }
      var intermediate := if |chain.value| > |cert.value| && chain.value[..|cert.value|] == cert.value
        then Some(chain.value[|cert.value|..]) else None;
      assert LoadsBlob(table, CERT, Ok(cert.value));
      r := Ok(Config(project.value, chain.value, intermediate, key.value, ca, vkey.value));
    }
  }

  lemma RunNothing(f: Flash)
    ensures Run(f, []) == (f, true)
  {
  }

  /** Once a write failed, the remaining ones are not attempted. */
  lemma RunStops(f: Flash, done: seq<Write>, prefix: string, text: string, data: seq<byte>)
    requires text == Base64.EncodeText(data) && |done| <= ChunkCount(text)
    requires done == ChunkWrites(prefix, text, |done|) && !Run(f, done).1
    ensures Run(f, BlobWrites(prefix, data)) == Run(f, done)
  {
    hide Run, Piece, ChunkKey, CountKey, ChunkCount;
    var ws := BlobWrites(prefix, data);
    assert ws == done + ws[|done|..];
    RunAppend(f, done, ws[|done|..]);
  }

  lemma SaveOrder(c: Creds)
    ensures SaveWrites(c) ==
              BlobWrites(CERT, c.cert) + (BlobWrites(KEY, c.key) + (BlobWrites(CHAIN, c.chain)
              + (BlobWrites(CA, c.ca) + (BlobWrites(VKEY, c.verifyKey)
              + ([Write(PROJECT, Str(c.project))] + [Write(CLAIMED, U32(1))])))))
  {
    hide BlobWrites;
    var b := Blobs(c);
    assert b[..5] == b && b[..5][..4] == b[..4] && b[..4][..3] == b[..3] && b[..3][..2] == b[..2];
    assert b[..2][..1] == b[..1];
    assert WritesOf(b[..1]) == BlobWrites(CERT, c.cert);
    assert WritesOf(b[..2]) == WritesOf(b[..1]) + BlobWrites(KEY, c.key);
    assert WritesOf(b[..3]) == WritesOf(b[..2]) + BlobWrites(CHAIN, c.chain);
    assert WritesOf(b[..4]) == WritesOf(b[..3]) + BlobWrites(CA, c.ca);
    assert WritesOf(b[..5]) == WritesOf(b[..4]) + BlobWrites(VKEY, c.verifyKey);
  }

  lemma {:induction false} MissingPiece(t: Table, prefix: string, i: nat, n: nat)
    requires i < n && GetStr(t, ChunkKey(prefix, i), CHUNK + 1).None?
    ensures Joined(t, prefix, n).None?
    decreases n
  {
    if i < n - 1 {
      MissingPiece(t, prefix, i, n - 1);
    }
  }
}
