/** The device side of a certificate rollover (sdk-c/src/nff_claim.c): extract, decode,
    chain, store. */
module Claim {
  import opened Bytes
  import opened Wrappers
  import Base64
  import Json
  import Sha256
  import Store

  const FIELD_BUFFER := 8192

  /** Field `key` holds base64 text that decodes to `der`. */
  ghost predicate FieldDer(payload: string, key: string, der: seq<byte>) {
    var text := Json.GetStr(payload, key, FIELD_BUFFER);
    text.Some? && Base64.IsDecoding(Base64.Payload(text.value), der)
  }

  /** The credential set a rollover payload delivers. */
  ghost predicate Delivers(payload: string, c: Store.Creds, intermediate: seq<byte>) {
    && Json.GetStr(payload, "project_id", 64) == Some(c.project)
    && FieldDer(payload, "device_cert", c.cert)
    && FieldDer(payload, "device_key", c.key)
    && FieldDer(payload, "intermediate_cert", intermediate)
    && FieldDer(payload, "ca_cert", c.ca) && c.ca != []
    && FieldDer(payload, "verify_key", c.verifyKey)
    && c.chain == c.cert + intermediate
  }

  /** `extract_der` */
  method ExtractDer(payload: string, key: string) returns (r: Option<seq<byte>>)
    ensures r.Some? ==> FieldDer(payload, key, r.value) && |r.value| < FIELD_BUFFER
    ensures r.None? ==> forall der :: !FieldDer(payload, key, der)
    ensures r.None? <==> Json.GetStr(payload, key, FIELD_BUFFER).None?
  {
    hide Base64.IsDecoding;
    var field := Json.GetStr(payload, key, FIELD_BUFFER);
    if field.None? {
      return None;
    }
    var text := field.value;
    FieldFits(payload, key);
    var buf := new byte[if text == "" then 1 else |text|];
    Base64.PayloadLength(text);
    var n := Base64.Decode(text, buf);
    return Some(buf[..n]);
  }

  lemma FieldFits(payload: string, key: string)
    requires Json.GetStr(payload, key, FIELD_BUFFER).Some?
    ensures |Json.GetStr(payload, key, FIELD_BUFFER).value| < FIELD_BUFFER
  {
    Json.CopiedFits(payload, Json.Find(payload, key).value + 1, FIELD_BUFFER - 1);
  }

  function Sha256Hex(der: seq<byte>): (s: string)
    ensures |s| == 64
  {
    Hex(Sha256.Digest(der))
  }

  /** The bound certificate hash of a rollover: the decoded leaf's digest in hex. */
  ghost predicate CertSha(payload: string, sha: string) {
    exists der :: FieldDer(payload, "device_cert", der) && sha == Sha256Hex(der)
  }

  lemma OneCertSha(payload: string, a: string, b: string)
    requires CertSha(payload, a) && CertSha(payload, b)
    ensures a == b
  {
    hide FieldDer;
    var x :| FieldDer(payload, "device_cert", x) && a == Sha256Hex(x);
    OneDecoding(payload, "device_cert", x);
  }

  /** `nff_claim_cert_sha_hex` */
  method CertShaHex(payload: string) returns (r: Option<string>)
    ensures r.None? <==> Json.GetStr(payload, "device_cert", FIELD_BUFFER).None?
    ensures r.Some? ==> CertSha(payload, r.value)
  {
    hide Json.GetStr, Sha256.Digest, Base64.Payload, Base64.IsDecoding, Sha256Hex;
    var der := ExtractDer(payload, "device_cert");
    if der.None? {
      return None;
    }
    var sha := DigestHex(der.value);
    return Some(sha);
  }

  method DigestHex(der: seq<byte>) returns (s: string)
    ensures s == Sha256Hex(der)
  {
    hide Sha256.HashBlocks, Sha256.Padded, Sha256.Output, Sha256.WholeBlocks, Sha256.Tail, Sha256.Digest, Hex;
    var digest := new byte[32];
    var ctx := new Sha256.Context();
    ctx.Update(der);
    assert ctx.msg == der;
    ctx.Finish(digest);
    s := Hex(digest[..]);
  }

  /** `nff_claim_handle_rollover`: true when the "applied" answer is published. The flash is
      untouched when a field is missing, and otherwise holds a prefix of the save. */
  method HandleRollover(payload: string, nvs: Store.Nvs) returns (applied: bool, ghost c: Option<Store.Creds>)
    modifies nvs
    ensures c.None? ==> !applied && nvs.Snapshot() == old(nvs.Snapshot())
    ensures c.None? ==> forall d, intermediate :: !Delivers(payload, d, intermediate)
    ensures c.Some? ==> Store.Storable(c.value) && exists intermediate :: Delivers(payload, c.value, intermediate)
    ensures c.Some? ==> (nvs.Snapshot(), applied) == Store.Run(old(nvs.Snapshot()), Store.SaveWrites(c.value))
  {
    hide Json.GetStr, Base64.IsDecoding, Base64.Payload, Store.Run, Store.SaveWrites;
    c := None;
    var project := Json.GetStr(payload, "project_id", 64);
    if project.None? { return false, c; }
    var cert := ExtractDer(payload, "device_cert");
    if cert.None? { return false, c; }
    var key := ExtractDer(payload, "device_key");
    if key.None? { return false, c; }
    var intermediate := ExtractDer(payload, "intermediate_cert");
    if intermediate.None? { return false, c; }
    var ca := ExtractDer(payload, "ca_cert");
    if ca.None? { return false, c; }
    if ca.value == [] {
      OneDecoding(payload, "ca_cert", []);
      return false, c;
    }
    var vkey := ExtractDer(payload, "verify_key");
    if vkey.None? { return false, c; }
    var creds := Store.Creds(project.value, cert.value, key.value, cert.value + intermediate.value, ca.value, vkey.value);
    assert Delivers(payload, creds, intermediate.value);
    c := Some(creds);
    applied := nvs.Save(creds);
  }

  lemma OneDecoding(payload: string, key: string, der: seq<byte>)
    requires FieldDer(payload, key, der)
    ensures forall other :: FieldDer(payload, key, other) ==> other == der
  {
    forall other | FieldDer(payload, key, other) ensures other == der {
      Base64.NumberIsInjective(other, der);
    }
  }

  // ---------------------------------------------------------------------
  // End to end
  // ---------------------------------------------------------------------

  /** The bound fields of the payload `build_rollover_payload` assembles, among others. */
  ghost predicate Carries(ms: seq<Json.Member>, c: Store.Creds, intermediate: seq<byte>) {
    && Json.Lookup(ms, "project_id") == Some(Json.Text(c.project))
    && Json.Lookup(ms, "device_cert") == Some(Json.Text(Base64.EncodeText(c.cert)))
    && Json.Lookup(ms, "device_key") == Some(Json.Text(Base64.EncodeText(c.key)))
    && Json.Lookup(ms, "intermediate_cert") == Some(Json.Text(Base64.EncodeText(intermediate)))
    && Json.Lookup(ms, "ca_cert") == Some(Json.Text(Base64.EncodeText(c.ca)))
    && Json.Lookup(ms, "verify_key") == Some(Json.Text(Base64.EncodeText(c.verifyKey)))
    && c.chain == c.cert + intermediate
  }

  predicate FitsField(der: seq<byte>) {
    Base64.TextLength(|der|) < FIELD_BUFFER
  }

  lemma CarriedField(ms: seq<Json.Member>, y: Json.Style, key: string, der: seq<byte>)
    requires Json.IsObject(ms) && Json.IsStyle(y) && Json.IsIdentifier(key) && FitsField(der)
    requires Json.Lookup(ms, key) == Some(Json.Text(Base64.EncodeText(der)))
    ensures FieldDer(Json.PrintObject(ms, y), key, der)
  {
    hide Json.PrintObject, Json.GetStr, Base64.IsDecoding;
    Json.ExtractInvertsPrint(ms, y, key, FIELD_BUFFER);
    Base64.EncodeTextLength(der);
    Base64.EncodingDecodes(der);
  }

  /** The printed payload delivers exactly the credential set it was built from. */
  lemma PrintedPayloadDelivers(ms: seq<Json.Member>, y: Json.Style, c: Store.Creds, intermediate: seq<byte>)
    requires Json.IsObject(ms) && Json.IsStyle(y) && Carries(ms, c, intermediate)
    requires |c.project| < 64 && c.ca != []
    requires FitsField(c.cert) && FitsField(c.key) && FitsField(intermediate) && FitsField(c.ca) && FitsField(c.verifyKey)
    ensures forall d, other :: Delivers(Json.PrintObject(ms, y), d, other) <==> d == c && other == intermediate
  {
    hide Json.PrintObject, Json.GetStr, FieldDer, Json.IsObject, Json.IsStyle;
    var t := Json.PrintObject(ms, y);
    FieldNames();
    Json.ExtractInvertsPrint(ms, y, "project_id", 64);
    CarriedField(ms, y, "device_cert", c.cert);
    CarriedField(ms, y, "device_key", c.key);
    CarriedField(ms, y, "intermediate_cert", intermediate);
    CarriedField(ms, y, "ca_cert", c.ca);
    CarriedField(ms, y, "verify_key", c.verifyKey);
    OneDecoding(t, "device_cert", c.cert);
    OneDecoding(t, "device_key", c.key);
    OneDecoding(t, "intermediate_cert", intermediate);
    OneDecoding(t, "ca_cert", c.ca);
    OneDecoding(t, "verify_key", c.verifyKey);
  }

  lemma FieldNames()
    ensures Json.IsIdentifier("project_id") && Json.IsIdentifier("device_cert") && Json.IsIdentifier("device_key")
    ensures Json.IsIdentifier("intermediate_cert") && Json.IsIdentifier("ca_cert") && Json.IsIdentifier("verify_key")
  {
  }

  /** From the fleet's JSON to the loaded configuration: a rollover handled without an
      interruption leaves flash from which exactly the issued credentials load. */
  method RolloverThenLoad(ms: seq<Json.Member>, y: Json.Style, nvs: Store.Nvs, ghost c: Store.Creds,
                          ghost intermediate: seq<byte>)
    returns (r: Result<Store.Config, Store.Error>)
    requires Json.IsObject(ms) && Json.IsStyle(y) && Carries(ms, c, intermediate)
    requires Store.Complete(c) && c.ca != [] && intermediate != []
    requires FitsField(c.cert) && FitsField(c.key) && FitsField(intermediate) && FitsField(c.ca) && FitsField(c.verifyKey)
    requires nvs.budget >= |Store.SaveWrites(c)|
    modifies nvs
    ensures r == Ok(Store.Config(c.project, c.chain, Some(intermediate), c.key, Some(c.ca), c.verifyKey))
  {
    hide Json.PrintObject, Json.GetStr, Store.SaveWrites, Store.Run, Store.LoadsConfig;
    PrintedPayloadDelivers(ms, y, c, intermediate);
    var payload := Json.PrintObject(ms, y);
    ghost var before := nvs.Snapshot();
    var applied, d := HandleRollover(payload, nvs);
    assert d == Some(c) by {
      assert Delivers(payload, c, intermediate);
    }
    ghost var k := Store.RunIsPrefix(before, Store.SaveWrites(c));
    assert Store.SaveWrites(c)[..k] == Store.SaveWrites(c);
    r := nvs.Load();
    Store.SaveThenLoad(before.table, c, r);
    Store.ChainSplitsBack(c.cert, intermediate);
  }
}
