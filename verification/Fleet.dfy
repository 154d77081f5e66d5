/** The signer of the fleet (observability/nff-fleet/nff_fleet/signing.py) against the
    device's verification: a command signed here is accepted there, once. */
module Fleet {
  import opened Bytes
  import opened Wrappers
  import Base64
  import Claim
  import Decimal
  import Json
  import Security
  import Sha256

  /** `_build_tbs` on the members of a payload; `der` is what the base64 text of the device
      certificate decodes to. None stands for a missing member, which raises. */
  function BuildTbs(ms: seq<Json.Member>, der: seq<byte>): Option<string> {
    match (Json.Lookup(ms, "action"), Json.Lookup(ms, "nonce"), Json.Lookup(ms, "timestamp"))
    case (Some(Text(action)), Some(Text(nonce)), Some(Number(timestamp))) =>
      var ts := Decimal.Print(timestamp);
      if action == "ota" then
        match (Json.Lookup(ms, "version"), Json.Lookup(ms, "sha256"))
        case (Some(Text(version)), Some(Text(sha256))) =>
          Some("ota|" + version + "|" + sha256 + "|" + nonce + "|" + ts)
        case _ => None
      else if action == "rollover_cert" then
        match (Json.Lookup(ms, "project_id"), Json.Lookup(ms, "device_id"), Json.Lookup(ms, "device_cert"))
        case (Some(Text(project)), Some(Text(device)), Some(Text(_))) =>
          var sha := Hex(Sha256.Digest(der));
          Some("rollover_cert|" + project + "|" + device + "|" + sha + "|" + nonce + "|" + ts)
        case _ => None
      else Some(action + "|" + nonce + "|" + ts)
    case _ => None
  }

  /** `sign` and `sign_rollover`: the payload with the hex signature appended. */
  function Signed(ms: seq<Json.Member>, sig: seq<byte>): seq<Json.Member> {
    ms + [Json.Member("cmd_sig", Json.Text(Hex(sig)))]
  }

  /** The certificate member, when the command is a rollover, is the text of `der`. */
  predicate CertIs(ms: seq<Json.Member>, der: seq<byte>) {
    Json.Lookup(ms, "device_cert") == Some(Json.Text(Base64.EncodeText(der)))
  }

  /** The payload asks for `c`. */
  predicate Requests(ms: seq<Json.Member>, der: seq<byte>, c: Security.Command) {
    && Json.Lookup(ms, "nonce") == Some(Json.Text(c.nonce))
    && Json.Lookup(ms, "timestamp") == Some(Json.Number(c.timestamp))
    && match c
       case Ota(version, sha256, _, _) =>
         && Json.Lookup(ms, "action") == Some(Json.Text("ota"))
         && Json.Lookup(ms, "version") == Some(Json.Text(version))
         && Json.Lookup(ms, "sha256") == Some(Json.Text(sha256))
       case Rollover(project, device, certSha, _, _) =>
         && Json.Lookup(ms, "action") == Some(Json.Text("rollover_cert"))
         && Json.Lookup(ms, "project_id") == Some(Json.Text(project))
         && Json.Lookup(ms, "device_id") == Some(Json.Text(device))
         && CertIs(ms, der) && certSha == Hex(Sha256.Digest(der))
       case Plain(action, _, _) =>
         Json.Lookup(ms, "action") == Some(Json.Text(action)) && action != "ota" && action != "rollover_cert"
  }

  /** The two sides build the same string. */
  lemma DeviceBuildsTheSame(ms: seq<Json.Member>, der: seq<byte>) returns (c: Security.Command)
    requires BuildTbs(ms, der).Some?
    requires Json.Lookup(ms, "action") == Some(Json.Text("rollover_cert")) ==> CertIs(ms, der)
    ensures Requests(ms, der, c) && BuildTbs(ms, der) == Some(Security.Tbs(c))
  {
    hide Json.Lookup, Decimal.Print, Hex, Sha256.Digest, Base64.EncodeText;
    var action, nonce := Json.Lookup(ms, "action").value.s, Json.Lookup(ms, "nonce").value.s;
    var timestamp := Json.Lookup(ms, "timestamp").value.n;
    if action == "ota" {
      var version, sha256 := Json.Lookup(ms, "version").value.s, Json.Lookup(ms, "sha256").value.s;
      c := Security.Ota(version, sha256, nonce, timestamp);
      assert Security.OTA + "|" == "ota|";
    } else if action == "rollover_cert" {
      var project, device := Json.Lookup(ms, "project_id").value.s, Json.Lookup(ms, "device_id").value.s;
      c := Security.Rollover(project, device, Hex(Sha256.Digest(der)), nonce, timestamp);
      assert Security.ROLLOVER + "|" == "rollover_cert|";
    } else {
      c := Security.Plain(action, nonce, timestamp);
    }
  }

  /** The sizes of the buffers the device extracts into. */
  predicate FitsDevice(c: Security.Command, der: seq<byte>) {
    && |c.nonce| <= 8
    && match c
       case Ota(version, sha256, _, _) => |version| <= 31 && |sha256| <= 64
       case Rollover(project, device, _, _, _) =>
         |project| <= 63 && |device| <= 63 && (|der| + 2) / 3 * 4 <= 8191
       case Plain(action, _, _) => |action| <= 31
  }

  lemma {:induction false} LookupAppended(ms: seq<Json.Member>, m: Json.Member, key: string)
    ensures Json.Lookup(ms + [m], key) ==
              if Json.Lookup(ms, key).Some? then Json.Lookup(ms, key)
              else if m.key == key then Some(m.value) else None
  {
    if ms == [] {
      assert ms + [m] == [m];
    } else {
      assert (ms + [m])[1..] == ms[1..] + [m];
      LookupAppended(ms[1..], m, key);
    }
  }

  /** What the device reads of a signed and printed payload under a key. */
  lemma Reads(ms: seq<Json.Member>, y: Json.Style, sig: seq<byte>, key: string, cap: nat)
    requires Json.IsObject(Signed(ms, sig)) && Json.IsStyle(y) && Json.IsIdentifier(key) && key != "cmd_sig" && cap > 0
    ensures var t := Json.PrintObject(Signed(ms, sig), y);
            && Json.GetStr(t, key, cap) ==
                 (match Json.Lookup(ms, key)
                  case Some(Text(s)) => (if |s| < cap then Some(s) else None)
                  case _ => None)
            && Json.GetU32(t, key) ==
                 (match Json.Lookup(ms, key)
                  case Some(Number(n)) => Some(n)
                  case _ => None)
  {
    hide Json.PrintObject, Json.GetStr, Json.GetU32, Json.IsObject, Json.IsStyle, Json.IsIdentifier, Json.Lookup, Hex;
    LookupAppended(ms, Json.Member("cmd_sig", Json.Text(Hex(sig))), key);
    Json.ExtractInvertsPrint(Signed(ms, sig), y, key, cap);
  }

  lemma Keys()
    ensures Json.IsIdentifier("action") && Json.IsIdentifier("nonce") && Json.IsIdentifier("timestamp")
    ensures Json.IsIdentifier("version") && Json.IsIdentifier("sha256")
  {
  }

  lemma MoreKeys()
    ensures Json.IsIdentifier("project_id") && Json.IsIdentifier("device_id")
    ensures Json.IsIdentifier("device_cert") && Json.IsIdentifier("cmd_sig")
  {
  }

  /** The device reads the certificate's digest exactly when the text fits its buffer. */
  lemma ReadsCert(ms: seq<Json.Member>, y: Json.Style, sig: seq<byte>, der: seq<byte>, sha: string)
    requires Json.IsObject(Signed(ms, sig)) && Json.IsStyle(y) && CertIs(ms, der)
    ensures Claim.CertSha(Json.PrintObject(Signed(ms, sig), y), sha)
        <==> (|der| + 2) / 3 * 4 <= 8191 && sha == Hex(Sha256.Digest(der))
  {
    hide Json.PrintObject, Json.GetStr, Json.GetU32, Json.IsObject, Json.IsStyle, Json.Lookup, Hex, Sha256.Digest,
      Base64.IsDecoding, Base64.EncodeText, Signed;
    var t := Json.PrintObject(Signed(ms, sig), y);
    MoreKeys();
    hide Json.IsIdentifier;
    Reads(ms, y, sig, "device_cert", 8192);
    Base64.EncodeTextLength(der);
    Base64.EncodingDecodes(der);
    if (|der| + 2) / 3 * 4 <= 8191 {
      assert Claim.FieldDer(t, "device_cert", der);
      assert Claim.CertSha(t, Claim.Sha256Hex(der));
      if Claim.CertSha(t, sha) {
        Claim.OneCertSha(t, sha, Claim.Sha256Hex(der));
      }
    }
  }

  /** The device takes a printed payload for the command it was signed as, or, when a field
      does not fit its buffer, for none. */
  lemma PrintedDescribes(ms: seq<Json.Member>, y: Json.Style, sig: seq<byte>, der: seq<byte>, c: Security.Command)
    requires Json.IsObject(Signed(ms, sig)) && Json.IsStyle(y) && Requests(ms, der, c)
    ensures forall d :: Security.Describes(Json.PrintObject(Signed(ms, sig), y), d) <==> FitsDevice(c, der) && d == c
  {
    hide Json.PrintObject, Json.GetStr, Json.GetU32, Json.IsObject, Json.IsStyle, Json.Lookup, Hex, Sha256.Digest,
      Base64.EncodeText, Signed;
    var t := Json.PrintObject(Signed(ms, sig), y);
    Keys();
    MoreKeys();
    hide Json.IsIdentifier;
    Reads(ms, y, sig, "action", 32);
    Reads(ms, y, sig, "nonce", 9);
    Reads(ms, y, sig, "timestamp", 9);
    match c
    case Ota(_, _, _, _) =>
      Reads(ms, y, sig, "version", 32);
      Reads(ms, y, sig, "sha256", 65);
    case Rollover(_, _, _, _, _) =>
      Reads(ms, y, sig, "project_id", 64);
      Reads(ms, y, sig, "device_id", 64);
      forall sha ensures Claim.CertSha(t, sha) <==> (|der| + 2) / 3 * 4 <= 8191 && sha == Hex(Sha256.Digest(der)) {
        ReadsCert(ms, y, sig, der, sha);
      }
    case Plain(_, _, _) =>
  }

  /** Whether the device accepts a command of the fleet depends on nothing but this: its
      fields fit, its nonce is not empty and not among the last sixteen, the clock, if it
      shows a plausible epoch, is within five minutes, and the signature is good. */
  lemma SignedIsAcceptedIff(ms: seq<Json.Member>, y: Json.Style, sig: seq<byte>, der: seq<byte>, c: Security.Command,
                            millis: nat, recent: seq<string>, ecdsa: (string, string) -> bool)
    requires Json.IsObject(Signed(ms, sig)) && Json.IsStyle(y) && Requests(ms, der, c) && 1 <= |sig| <= 72
    ensures Security.Acceptable(Json.PrintObject(Signed(ms, sig), y), millis, recent, ecdsa)
        <==> && FitsDevice(c, der) && c.nonce != "" && c.nonce !in recent
             && (millis / 1000 <= 1_000_000_000 || -300 <= c.timestamp - millis / 1000 <= 300)
             && ecdsa(Security.Tbs(c), Hex(sig))
  {
    hide Json.PrintObject, Json.GetStr, Json.IsObject, Json.IsStyle, Hex, Security.Describes, Security.Tbs, Requests,
      FitsDevice, Signed, Security.InWindow;
    PrintedDescribes(ms, y, sig, der, c);
    ReadsSignature(ms, y, sig);
    Security.WindowIsFiveMinutes(millis, c.timestamp);
    hide Requests;
  }

  lemma SignatureIsLookedUp(ms: seq<Json.Member>, sig: seq<byte>)
    requires Json.IsObject(Signed(ms, sig))
    ensures Json.Lookup(Signed(ms, sig), "cmd_sig") == Some(Json.Text(Hex(sig)))
  {
    hide Json.Lookup, Hex, Json.IsObject;
    Json.LookupMember(Signed(ms, sig), |ms|);
  }

  lemma ReadsSignature(ms: seq<Json.Member>, y: Json.Style, sig: seq<byte>)
    requires Json.IsObject(Signed(ms, sig)) && Json.IsStyle(y) && 1 <= |sig| <= 72
    ensures Json.GetStr(Json.PrintObject(Signed(ms, sig), y), "cmd_sig", 145) == Some(Hex(sig))
  {
    MoreKeys();
    hide Json.PrintObject, Json.GetStr, Json.GetU32, Json.IsStyle, Json.Lookup, Hex, Json.IsObject, Json.IsIdentifier, Signed;
    SignatureIsLookedUp(ms, sig);
    Json.ExtractInvertsPrint(Signed(ms, sig), y, "cmd_sig", 145);
  }

  /** A command that the fleet signs and that fits is accepted when it arrives with a nonce
      the device has not seen lately, and refused when it arrives again. */
  method SignedOnlyOnce(ms: seq<Json.Member>, y: Json.Style, sig: seq<byte>, der: seq<byte>, ghost c: Security.Command,
                        v: Security.Verifier, millis: nat, ecdsa: (string, string) -> bool)
    returns (first: bool, second: bool)
    requires Json.IsObject(Signed(ms, sig)) && Json.IsStyle(y) && Requests(ms, der, c) && 1 <= |sig| <= 72
    requires BuildTbs(ms, der).Some? && ecdsa(BuildTbs(ms, der).value, Hex(sig))
    requires FitsDevice(c, der) && c.nonce != "" && millis < TWO32
    requires v.Valid() && c.nonce !in Security.Recent(v.accepted)
    modifies v, v.slots
    ensures first && !second && v.Valid() && v.accepted == old(v.accepted) + [c.nonce]
  {
    hide Json.PrintObject, Json.IsObject, Json.IsStyle, Json.Lookup, Hex, Sha256.Digest, Security.Describes,
      Security.Tbs, Security.Acceptable, BuildTbs, Requests, FitsDevice;
    var payload := Json.PrintObject(Signed(ms, sig), y);
    PrintedDescribes(ms, y, sig, der, c);
    SameRequest(ms, der, c);
    SignedIsAcceptedIff(ms, y, sig, der, c, millis, Security.Recent(v.accepted), ecdsa);
    first := v.Verify(payload, millis, ecdsa);
    LastIsRecent(v.accepted);
    SignedIsAcceptedIff(ms, y, sig, der, c, millis, Security.Recent(v.accepted), ecdsa);
    second := v.Verify(payload, millis, ecdsa);
  }

  lemma SameRequest(ms: seq<Json.Member>, der: seq<byte>, c: Security.Command)
    requires Requests(ms, der, c)
    ensures BuildTbs(ms, der) == Some(Security.Tbs(c))
  {
    hide Json.Lookup, Decimal.Print, Hex, Sha256.Digest, Base64.EncodeText;
    assert Security.OTA + "|" == "ota|" && Security.ROLLOVER + "|" == "rollover_cert|";
  }

  lemma LastIsRecent(accepted: seq<string>)
    ensures accepted != [] ==> accepted[|accepted| - 1] in Security.Recent(accepted)
  {
    if accepted != [] {
      Security.RecentAt(accepted, |accepted| - 1);
    }
  }
}
