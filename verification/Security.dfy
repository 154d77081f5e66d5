/** Command verification of sdk-c/src/nff_security.c: the nonce ring, the canonical
    to-be-signed string and the verify entry point. */
module Security {
  import opened Wrappers
  import opened Bytes
  import Claim
  import Decimal
  import Json

  const RING := 16
  const NONCE_LEN := 9

  // ---------------------------------------------------------------------
  // The canonical string
  // ---------------------------------------------------------------------

  /** What a signature binds. */
  datatype Command =
    | Ota(version: string, sha256: string, nonce: string, timestamp: nat)
    | Rollover(project: string, device: string, certSha: string, nonce: string, timestamp: nat)
    | Plain(action: string, nonce: string, timestamp: nat)

  const OTA := "ota"
  const ROLLOVER := "rollover_cert"

  /** The fields from left to right, as the format string lists them. */
  function Fields(c: Command): seq<string> {
    match c
    case Ota(v, h, n, t) => [OTA, v, h, n, Decimal.Print(t)]
    case Rollover(p, d, h, n, t) => [ROLLOVER, p, d, h, n, Decimal.Print(t)]
    case Plain(a, n, t) => [a, n, Decimal.Print(t)]
  }

  function Joined(fields: seq<string>): string {
    if fields == [] then []
    else if |fields| == 1 then fields[0]
    else fields[0] + "|" + Joined(fields[1..])
  }

  /** `build_tbs` */
  function Tbs(c: Command): string {
    match c
    case Ota(v, h, n, t) => OTA + "|" + v + "|" + h + "|" + n + "|" + Decimal.Print(t)
    case Rollover(p, d, h, n, t) =>
      ROLLOVER + "|" + p + "|" + d + "|" + h + "|" + n + "|" + Decimal.Print(t)
    case Plain(a, n, t) => a + "|" + n + "|" + Decimal.Print(t)
  }

  lemma JoinedStep(f: string, rest: seq<string>)
    requires rest != []
    ensures Joined([f] + rest) == f + "|" + Joined(rest)
  {
    assert ([f] + rest)[1..] == rest;
  }

  lemma JoinedOne(f: string)
    ensures Joined([f]) == f
  {
  }

  lemma JoinedTail(h: string, n: string, t: string)
    ensures Joined([n, t]) == n + "|" + t && Joined([h, n, t]) == h + "|" + (n + "|" + t)
  {
    hide Joined;
    JoinedOne(t);
    JoinedStep(n, [t]);
    JoinedStep(h, [n, t]);
    assert [n] + [t] == [n, t] && [h] + [n, t] == [h, n, t];
  }

  lemma TbsIsJoined(c: Command)
    ensures Tbs(c) == Joined(Fields(c))
  {
    hide Joined, Decimal.Print;
    var ts := Decimal.Print(c.timestamp);
    match c
    case Ota(v, h, n, _) =>
      JoinedTail(h, n, ts);
      JoinedStep(v, [h, n, ts]);
      JoinedStep(OTA, [v] + [h, n, ts]);
      assert [OTA] + ([v] + [h, n, ts]) == Fields(c);
    case Rollover(p, d, h, n, _) =>
      JoinedTail(h, n, ts);
      JoinedStep(d, [h, n, ts]);
      JoinedStep(p, [d] + [h, n, ts]);
      JoinedStep(ROLLOVER, [p] + ([d] + [h, n, ts]));
      assert [ROLLOVER] + ([p] + ([d] + [h, n, ts])) == Fields(c);
    case Plain(a, n, _) =>
      JoinedTail(a, n, ts);
  }

  predicate NoBars(fields: seq<string>) {
    forall f :: f in fields ==> '|' !in f
  }

  lemma {:induction false} JoinedHasBar(fields: seq<string>)
    requires |fields| > 1
    ensures '|' in Joined(fields)
  {
    assert Joined(fields)[|fields[0]|] == '|';
  }

  /** A bar-joined list of bar-free fields can be read back in one way only. */
  lemma {:induction false} JoinedIsInjective(a: seq<string>, b: seq<string>)
    requires a != [] && b != [] && NoBars(a) && NoBars(b) && Joined(a) == Joined(b)
    ensures a == b
  {
    assert a[0] in a && b[0] in b;
    if |a| > 1 { JoinedHasBar(a); }
    if |b| > 1 { JoinedHasBar(b); }
    if |a| > 1 && |b| > 1 {
      assert Joined(a) == a[0] + ['|'] + Joined(a[1..]) && Joined(b) == b[0] + ['|'] + Joined(b[1..]);
      Decimal.SplitIsUnique('|', a[0], Joined(a[1..]), b[0], Joined(b[1..]));
      JoinedIsInjective(a[1..], b[1..]);
      assert a == [a[0]] + a[1..] && b == [b[0]] + b[1..];
    }
  }

  /** On fields without bars the canonical string determines the whole command. */
  lemma TbsIsInjective(c: Command, d: Command)
    requires NoBars(Fields(c)) && NoBars(Fields(d)) && Tbs(c) == Tbs(d)
    ensures c == d
  {
    TbsIsJoined(c);
    TbsIsJoined(d);
    JoinedIsInjective(Fields(c), Fields(d));
    var f, g := Fields(c), Fields(d);
    assert f[|f| - 1] == g[|g| - 1];
    Decimal.PrintIsInjective(c.timestamp, d.timestamp);
  }

  predicate SameFormat(c: Command, d: Command) {
    (c.Ota? && d.Ota?) || (c.Rollover? && d.Rollover?) || (c.Plain? && d.Plain?)
  }

  function Bars(s: string): nat {
    if s == [] then 0 else (if s[0] == '|' then 1 else 0) + Bars(s[1..])
  }

  function TotalBars(fields: seq<string>): nat {
    if fields == [] then 0 else Bars(fields[0]) + TotalBars(fields[1..])
  }

  lemma {:induction false} BarsAppend(s: string, t: string)
    ensures Bars(s + t) == Bars(s) + Bars(t)
  {
    if s == [] {
      assert s + t == t;
    } else {
      assert (s + t)[1..] == s[1..] + t;
      BarsAppend(s[1..], t);
    }
  }

  lemma {:induction false} BarsIfAny(s: string)
    ensures Bars(s) == 0 <==> '|' !in s
  {
    if s != [] {
      BarsIfAny(s[1..]);
      assert s == [s[0]] + s[1..];
    }
  }

  lemma {:induction false} TotalBarsIfAny(fields: seq<string>)
    ensures TotalBars(fields) == 0 <==> NoBars(fields)
  {
    if fields != [] {
      BarsIfAny(fields[0]);
      TotalBarsIfAny(fields[1..]);
      assert forall f :: f in fields <==> f == fields[0] || f in fields[1..];
    }
  }

  lemma {:induction false} BarsOfJoined(fields: seq<string>)
    requires fields != []
    ensures Bars(Joined(fields)) == |fields| - 1 + TotalBars(fields)
  {
    hide Bars;
    if |fields| == 1 {
      assert TotalBars(fields[1..]) == 0;
    } else {
      BarsOfJoined(fields[1..]);
      OneBar();
      BarsAppend(fields[0] + "|", Joined(fields[1..]));
      BarsAppend(fields[0], "|");
    }
  }

  lemma OneBar()
    ensures Bars("|") == 1
  {
  }

  /** A bar-free command is the only one of its format with its canonical string. */
  lemma UniqueInFormat(c: Command, d: Command)
    requires NoBars(Fields(c)) && SameFormat(c, d) && Tbs(c) == Tbs(d)
    ensures c == d
  {
    hide Tbs, Joined, NoBars, Bars, TotalBars;
    TbsIsJoined(c);
    TbsIsJoined(d);
    BarsOfJoined(Fields(c));
    BarsOfJoined(Fields(d));
    TotalBarsIfAny(Fields(c));
    TotalBarsIfAny(Fields(d));
    TbsIsInjective(c, d);
  }

  lemma {:induction false} SplitAtBar(s: string) returns (x: string, y: string)
    requires '|' in s
    ensures s == x + "|" + y && |x| < |s|
  {
    if s[0] == '|' {
      x, y := [], s[1..];
    } else {
      x, y := SplitAtBar(s[1..]);
      assert s == [s[0]] + s[1..];
      x := [s[0]] + x;
    }
  }

  /** A field that holds a bar joins like two fields. */
  lemma {:induction false} FieldSplits(pre: seq<string>, x: string, y: string, post: seq<string>)
    ensures Joined(pre + [x + "|" + y] + post) == Joined(pre + [x, y] + post)
  {
    var a, b := pre + [x + "|" + y] + post, pre + [x, y] + post;
    if pre == [] {
      assert a[1..] == post && b[1..] == [y] + post && b[1..][1..] == post;
    } else {
      FieldSplits(pre[1..], x, y, post);
      assert a[1..] == pre[1..] + [x + "|" + y] + post && b[1..] == pre[1..] + [x, y] + post;
    }
  }

  /** Moving a bar from one field into the next leaves the joined string alone. */
  lemma BarMoves(pre: seq<string>, x: string, y: string, b: string, post: seq<string>)
    ensures Joined(pre + [x + "|" + y, b] + post) == Joined(pre + [x, y + "|" + b] + post)
  {
    hide Joined;
    FieldSplits(pre, x, y, [b] + post);
    FieldSplits(pre + [x], y, b, post);
    assert pre + [x + "|" + y, b] + post == pre + [x + "|" + y] + ([b] + post);
    assert pre + [x, y] + ([b] + post) == (pre + [x]) + [y, b] + post;
    assert (pre + [x]) + [y + "|" + b] + post == pre + [x, y + "|" + b] + post;
  }

  /** Two commands whose fields differ by such a move share their canonical string. */
  lemma MovedBar(c: Command, d: Command, pre: seq<string>, x: string, y: string, b: string, post: seq<string>)
    requires Fields(c) == pre + [x + "|" + y, b] + post && Fields(d) == pre + [x, y + "|" + b] + post
    ensures Tbs(c) == Tbs(d)
  {
    hide Joined, Tbs, Fields;
    TbsIsJoined(c);
    TbsIsJoined(d);
    BarMoves(pre, x, y, b, post);
  }

  /** The condition is needed: every command with a bar in a field shares its canonical
      string with a different command of the same format. */
  lemma BarsAreAmbiguous(c: Command) returns (d: Command)
    requires !NoBars(Fields(c))
    ensures d != c && SameFormat(c, d) && Tbs(d) == Tbs(c)
  {
    DigitsAreBarFree(c.timestamp);
    match c
    case Ota(v, h, n, t) => d := AmbiguousOta(v, h, n, t);
    case Rollover(p, e, h, n, t) => d := AmbiguousRollover(p, e, h, n, t);
    case Plain(a, n, t) => d := AmbiguousPlain(a, n, t);
  }

  lemma DigitsAreBarFree(t: nat)
    ensures '|' !in Decimal.Print(t) && '|' !in OTA && '|' !in ROLLOVER
  {
  }

  lemma AmbiguousPlain(a: string, n: string, t: nat) returns (d: Command)
    requires '|' in a || '|' in n
    ensures d.Plain? && d != Plain(a, n, t) && Tbs(d) == Tbs(Plain(a, n, t))
  {
    hide Tbs;
    var c, ts := Plain(a, n, t), Decimal.Print(t);
    hide Decimal.Print;
    if '|' in a {
      var x, y := SplitAtBar(a);
      d := Plain(x, y + "|" + n, t);
      MovedBar(c, d, [], x, y, n, [ts]);
    } else {
      var x, y := SplitAtBar(n);
      d := Plain(a + "|" + x, y, t);
      MovedBar(d, c, [], a, x, y, [ts]);
    }
  }

  lemma AmbiguousOta(v: string, h: string, n: string, t: nat) returns (d: Command)
    requires '|' in v || '|' in h || '|' in n
    ensures d.Ota? && d != Ota(v, h, n, t) && Tbs(d) == Tbs(Ota(v, h, n, t))
  {
    hide Tbs;
    var c, ts := Ota(v, h, n, t), Decimal.Print(t);
    hide Decimal.Print;
    if '|' in v {
      var x, y := SplitAtBar(v);
      d := Ota(x, y + "|" + h, n, t);
      MovedBar(c, d, [OTA], x, y, h, [n, ts]);
    } else if '|' in h {
      var x, y := SplitAtBar(h);
      d := Ota(v + "|" + x, y, n, t);
      MovedBar(d, c, [OTA], v, x, y, [n, ts]);
    } else {
      var x, y := SplitAtBar(n);
      d := Ota(v, h + "|" + x, y, t);
      MovedBar(d, c, [OTA, v], h, x, y, [ts]);
    }
  }

  lemma AmbiguousRollover(p: string, e: string, h: string, n: string, t: nat) returns (d: Command)
    requires '|' in p || '|' in e || '|' in h || '|' in n
    ensures d.Rollover? && d != Rollover(p, e, h, n, t) && Tbs(d) == Tbs(Rollover(p, e, h, n, t))
  {
    hide Tbs;
    var c, ts := Rollover(p, e, h, n, t), Decimal.Print(t);
    hide Decimal.Print;
    if '|' in p {
      var x, y := SplitAtBar(p);
      d := Rollover(x, y + "|" + e, h, n, t);
      MovedBar(c, d, [ROLLOVER], x, y, e, [h, n, ts]);
    } else if '|' in e {
      var x, y := SplitAtBar(e);
      d := Rollover(p + "|" + x, y, h, n, t);
      MovedBar(d, c, [ROLLOVER], p, x, y, [h, n, ts]);
    } else if '|' in h {
      var x, y := SplitAtBar(h);
      d := Rollover(p, e + "|" + x, y, n, t);
      MovedBar(d, c, [ROLLOVER, p], e, x, y, [n, ts]);
    } else {
      var x, y := SplitAtBar(n);
      d := Rollover(p, e, h + "|" + x, y, t);
      MovedBar(d, c, [ROLLOVER, p, e], h, x, y, [ts]);
    }
  }

  /** A canonical string belongs to one command of its format exactly when no field holds a bar. */
  lemma TbsIsUniqueIff(c: Command)
    ensures NoBars(Fields(c)) <==> forall d :: SameFormat(c, d) && Tbs(d) == Tbs(c) ==> d == c
  {
    hide Fields, Tbs, NoBars;
    if NoBars(Fields(c)) {
      forall d | SameFormat(c, d) && Tbs(d) == Tbs(c) ensures d == c {
        UniqueInFormat(c, d);
      }
    } else {
      var d := BarsAreAmbiguous(c);
    }
  }

  /** The field sizes that extraction into the C buffers allows. */
  predicate FitsBuffers(c: Command) {
    && |c.nonce| < NONCE_LEN && c.timestamp < TWO32
    && (match c
        case Ota(v, h, _, _) => |v| < 32 && |h| < 65
        case Rollover(p, d, h, _, _) => |p| < 64 && |d| < 64 && |h| == 64
        case Plain(a, _, _) => |a| < 32)
  }

  /** Whatever passes field extraction fits the 256-byte buffer with its terminator. */
  lemma TbsFitsBuffer(c: Command)
    requires FitsBuffers(c)
    ensures |Tbs(c)| < 256
  {
    Decimal.PrintLength(c.timestamp);
  }

  /** The command a payload describes, if every bound field can be extracted. */
  ghost predicate Describes(payload: string, c: Command) {
    var action := Json.GetStr(payload, "action", 32);
    var nonce := Json.GetStr(payload, "nonce", NONCE_LEN);
    var timestamp := Json.GetU32(payload, "timestamp");
    && action.Some? && nonce.Some? && timestamp.Some?
    && c.nonce == nonce.value && c.timestamp == timestamp.value
    && (if action.value == OTA then
          && c.Ota?
          && Json.GetStr(payload, "version", 32) == Some(c.version)
          && Json.GetStr(payload, "sha256", 65) == Some(c.sha256)
        else if action.value == ROLLOVER then
          && c.Rollover?
          && Json.GetStr(payload, "project_id", 64) == Some(c.project)
          && Json.GetStr(payload, "device_id", 64) == Some(c.device)
          && Claim.CertSha(payload, c.certSha)
        else c.Plain? && c.action == action.value)
  }

  lemma GetStrLength(payload: string, key: string, cap: nat)
    requires cap > 0
    ensures Json.GetStr(payload, key, cap).Some? ==>
              |Json.GetStr(payload, key, cap).value| < cap && '\0' !in Json.GetStr(payload, key, cap).value
  {
    var v := Json.Find(payload, key);
    if v.Some? {
      Json.CopiedFits(payload, v.value + 1, cap - 1);
      Json.CopiedHasNoNul(payload, v.value + 1, cap - 1);
    }
  }

  lemma U32Bound(payload: string, key: string)
    ensures Json.GetU32(payload, key).Some? ==> Json.GetU32(payload, key).value < TWO32
  {
    var v := Json.Find(payload, key);
    if v.Some? {
      DigitsBound(payload, v.value, 0);
    }
  }

  lemma {:induction false} DigitsBound(t: string, v: nat, sofar: nat)
    requires sofar < TWO32
    ensures Json.Digits(t, v, sofar) < TWO32
    decreases |t| - v
  {
    if v < |t| && Decimal.IsDigit(t[v]) {
      DigitsBound(t, v + 1, (sofar * 10 + Decimal.DigitValue(t[v])) % TWO32);
    }
  }

  lemma DescribedSizes(payload: string, c: Command)
    requires Describes(payload, c)
    ensures FitsBuffers(c)
  {
    hide Json.GetStr, Json.GetU32;
    GetStrLength(payload, "action", 32);
    GetStrLength(payload, "nonce", NONCE_LEN);
    U32Bound(payload, "timestamp");
    match c
    case Ota(_, _, _, _) =>
      GetStrLength(payload, "version", 32);
      GetStrLength(payload, "sha256", 65);
    case Rollover(_, _, _, _, _) =>
      GetStrLength(payload, "project_id", 64);
      GetStrLength(payload, "device_id", 64);
    case Plain(_, _, _) =>
  }

  /** Hence the canonical string of every extractable command is complete. */
  lemma DescribedFits(payload: string, c: Command)
    requires Describes(payload, c)
    ensures FitsBuffers(c) && |Tbs(c)| < 256
  {
    hide Describes, FitsBuffers, Tbs;
    DescribedSizes(payload, c);
    TbsFitsBuffer(c);
  }

  /** A payload describes at most one command. */
  lemma DescribesOne(payload: string, c: Command, d: Command)
    requires Describes(payload, c) && Describes(payload, d)
    ensures c == d
  {
    hide Json.GetStr, Json.GetU32;
    if c.Rollover? {
      Claim.OneCertSha(payload, c.certSha, d.certSha);
    }
  }

  /** The field extraction of `build_tbs`. */
  method Extract(payload: string) returns (r: Option<Command>)
    ensures r.Some? ==> Describes(payload, r.value)
    ensures r.None? ==> forall c :: !Describes(payload, c)
  {
    hide Json.GetStr, Json.GetU32;
    var action := Json.GetStr(payload, "action", 32);
    if action.None? { return None; }
    var nonce := Json.GetStr(payload, "nonce", NONCE_LEN);
    if nonce.None? { return None; }
    var timestamp := Json.GetU32(payload, "timestamp");
    if timestamp.None? { return None; }
    if action.value == OTA {
      var version := Json.GetStr(payload, "version", 32);
      if version.None? { return None; }
      var sha := Json.GetStr(payload, "sha256", 65);
      if sha.None? { return None; }
      return Some(Ota(version.value, sha.value, nonce.value, timestamp.value));
    }
    if action.value == ROLLOVER {
      var project := Json.GetStr(payload, "project_id", 64);
      if project.None? { return None; }
      var device := Json.GetStr(payload, "device_id", 64);
      if device.None? { return None; }
      var sha := Claim.CertShaHex(payload);
      if sha.None? { return None; }
      return Some(Rollover(project.value, device.value, sha.value, nonce.value, timestamp.value));
    }
    return Some(Plain(action.value, nonce.value, timestamp.value));
  }

  // ---------------------------------------------------------------------
  // The nonce ring
  // ---------------------------------------------------------------------

  predicate IsNonce(n: string) {
    0 < |n| < NONCE_LEN && '\0' !in n
  }

  /** A nonce in its fixed-width, zero-padded buffer. */
  function Pad(n: string): (p: seq<char>)
    requires |n| < NONCE_LEN
    ensures |p| == NONCE_LEN
  {
    n + seq(NONCE_LEN - |n|, _ => '\0')
  }

  /** Comparing padded buffers is comparing the strings. */
  lemma PadIsInjective(m: string, n: string)
    requires IsNonce(m) && IsNonce(n) && Pad(m) == Pad(n)
    ensures m == n
  {
    var x, y := seq(NONCE_LEN - 1 - |m|, _ => '\0'), seq(NONCE_LEN - 1 - |n|, _ => '\0');
    assert Pad(m) == m + ['\0'] + x && Pad(n) == n + ['\0'] + y;
    Decimal.SplitIsUnique('\0', m, x, n, y);
  }

  function Min(a: nat, b: nat): nat {
    if a < b then a else b
  }

  /** The last `RING` accepted nonces. */
  function Recent(accepted: seq<string>): seq<string> {
    accepted[|accepted| - Min(|accepted|, RING)..]
  }

  /** A nonce is recent when one of the last sixteen acceptances was it. */
  lemma RecentIsLastSixteen(accepted: seq<string>, n: string)
    ensures n in Recent(accepted) <==> exists i :: 0 <= i < |accepted| && |accepted| - 16 <= i && accepted[i] == n
  {
    var recent := Recent(accepted);
    forall i | 0 <= i < |accepted| && |accepted| - 16 <= i && accepted[i] == n ensures n in recent {
      assert recent[i - (|accepted| - |recent|)] == n;
    }
  }

  /** Equal nonces lie more than sixteen acceptances apart. */
  ghost predicate Spaced(accepted: seq<string>) {
    forall i, j :: 0 <= i < j < |accepted| && j - i <= 16 ==> accepted[i] != accepted[j]
  }

  lemma SpacedGrows(accepted: seq<string>, n: string)
    requires Spaced(accepted) && n !in Recent(accepted)
    ensures Spaced(accepted + [n])
  {
    var k := |accepted|;
    forall i | 0 <= i < k && k - i <= RING ensures accepted[i] != n {
      assert Recent(accepted)[i - (k - Min(k, RING))] == accepted[i];
    }
  }

  /** The acceptance that ring row `r` holds after `k` acceptances. */
  function HolderOf(k: nat, r: nat): (i: int)
    requires r < RING && r < k
    ensures k - Min(k, RING) <= i < k && i % RING == r
  {
    if k <= RING then r else k - 1 - (k - 1 - r) % RING
  }

  // ---------------------------------------------------------------------
  // The verify entry point
  // ---------------------------------------------------------------------

  /** The window test on the uptime clock: only applied above a plausible epoch. */
  predicate InWindow(millis: nat, timestamp: nat) {
    var now := millis / 1000;
    now > 1_000_000_000 ==> (if timestamp > now then timestamp - now else now - timestamp) <= 300
  }

  /** The window is five minutes to either side, once the clock is past a plausible epoch. */
  lemma WindowIsFiveMinutes(millis: nat, timestamp: nat)
    ensures InWindow(millis, timestamp) <==>
              millis / 1000 <= 1_000_000_000 || -300 <= timestamp - millis / 1000 <= 300
  {
  }

  /** The clock is a 32-bit millisecond counter, so the window never rejects anything. */
  lemma WindowNeverActs(millis: nat, timestamp: nat)
    requires millis < TWO32
    ensures InWindow(millis, timestamp)
  {
    assert millis / 1000 <= 4_294_967;
  }

  /** A signature as hex digits: 1 to 72 octets. */
  predicate IsSignatureText(s: string) {
    s != [] && |s| % 2 == 0 && |s| <= 144
  }

  /** One to seventy-two whole octets, two digits each. */
  lemma SignatureOctets(s: string)
    ensures IsSignatureText(s) <==> exists octets :: 1 <= octets <= 72 && |s| == 2 * octets
  {
    if IsSignatureText(s) {
      assert |s| == 2 * (|s| / 2);
    }
  }

  /** When a payload is accepted, given the recently accepted nonces; `ecdsa` is the
      verification of a hex signature over a canonical string. */
  ghost predicate Acceptable(payload: string, millis: nat, recent: seq<string>, ecdsa: (string, string) -> bool) {
    var sig := Json.GetStr(payload, "cmd_sig", 145);
    && sig.Some? && IsSignatureText(sig.value)
    && exists c :: Describes(payload, c) && InWindow(millis, c.timestamp)
         && c.nonce != "" && c.nonce !in recent && ecdsa(Tbs(c), sig.value)
  }

  class Verifier {
    const slots: array2<char>
    var head: nat
    var count: nat
    /** Every nonce accepted so far, oldest first. */
    ghost var accepted: seq<string>

    predicate Shape() {
      slots.Length0 == RING && slots.Length1 == NONCE_LEN
    }

    /** Row `r` holds the padded nonce `n`. */
    predicate RowIs(r: nat, n: string)
      requires Shape() && r < RING && |n| < NONCE_LEN
      reads slots
    {
      forall k :: 0 <= k < NONCE_LEN ==> slots[r, k] == Pad(n)[k]
    }

    /** The ring holds exactly the last min(k, 16) accepted nonces, all of them distinct. */
    ghost predicate Valid()
      reads this, slots
    {
      && Shape()
      && count == Min(|accepted|, RING) && head == |accepted| % RING
      && (forall i :: 0 <= i < |accepted| ==> IsNonce(accepted[i]))
      && (forall i :: |accepted| - count <= i < |accepted| ==> RowIs(i % RING, accepted[i]))
      && Spaced(accepted)
    }

    constructor ()
      ensures Valid() && accepted == [] && fresh(slots)
    {
      slots := new char[RING, NONCE_LEN]((i, j) => '\0');
      head, count, accepted := 0, 0, [];
    }

    /** `ct_memcmp`: no early exit; an XOR of two characters is zero only if they agree. */
    method RowDiffers(r: nat, n: string) returns (diff: bool)
      requires Shape() && r < RING && |n| < NONCE_LEN
      ensures !diff <==> RowIs(r, n)
    {
      var padded := Pad(n);
      diff := false;
      for k := 0 to NONCE_LEN
        invariant !diff <==> forall j :: 0 <= j < k ==> slots[r, j] == padded[j]
      {
        diff := diff || slots[r, k] != padded[k];
      }
    }

    /** `nonce_seen` */
    method Seen(n: string) returns (seen: bool)
      requires Valid() && '\0' !in n
      ensures seen <==> !IsNonce(n) || n in Recent(accepted)
    {
      if |n| == 0 || |n| >= NONCE_LEN {
        return true;
      }
      var limit := if count < RING then count else RING;
      for r := 0 to limit
        invariant forall q :: 0 <= q < r ==> accepted[HolderOf(|accepted|, q)] != n
      {
        ghost var i := HolderOf(|accepted|, r);
        assert RowIs(i % RING, accepted[i]);
        var differs := RowDiffers(r, n);
        if !differs {
          SameRow(r, n, accepted[i]);
          RecentAt(accepted, i);
          return true;
        }
      }
      RecentCovered(accepted, n);
      return false;
    }

    lemma SameRow(r: nat, m: string, n: string)
      requires Shape() && r < RING && IsNonce(m) && IsNonce(n) && RowIs(r, m) && RowIs(r, n)
      ensures m == n
    {
      assert Pad(m) == Pad(n) by {
        forall k | 0 <= k < NONCE_LEN ensures Pad(m)[k] == Pad(n)[k] {
          assert slots[r, k] == Pad(m)[k];
        }
      }
      PadIsInjective(m, n);
    }

    /** The memset and strncpy of one slot. */
    method WriteRow(r: nat, n: string)
      requires Shape() && r < RING && |n| < NONCE_LEN
      modifies slots
      ensures RowIs(r, n)
      ensures forall q, k :: 0 <= q < RING && 0 <= k < NONCE_LEN && q != r ==> slots[q, k] == old(slots[q, k])
    {
      var padded := Pad(n);
      for k := 0 to NONCE_LEN
        invariant forall j :: 0 <= j < k ==> slots[r, j] == padded[j]
        invariant forall q, j :: 0 <= q < RING && 0 <= j < NONCE_LEN && q != r ==> slots[q, j] == old(slots[q, j])
      {
        slots[r, k] := padded[k];
      }
    }

    /** `nonce_record` */
    method Record(n: string)
      requires Valid() && IsNonce(n) && n !in Recent(accepted)
      modifies this, slots
      ensures Valid() && accepted == old(accepted) + [n]
    {
      hide Pad, Recent;
      SpacedGrows(accepted, n);
      ghost var k := |accepted|;
      WriteRow(head, n);
      forall i | k - Min(k, RING - 1) <= i < k ensures RowIs(i % RING, accepted[i]) {
        OtherRow(k, i);
        assert old(RowIs(i % RING, accepted[i]));
      }
      head := (head + 1) % RING;
      if count < RING {
        count := count + 1;
      }
      accepted := accepted + [n];
      NextRow(k);
    }

    /** `nff_security_verify_cmd` */
    method Verify(payload: string, millis: nat, ecdsa: (string, string) -> bool) returns (ok: bool)
      requires Valid()
      modifies this, slots
      ensures Valid()
      ensures ok <==> Acceptable(payload, millis, Recent(old(accepted)), ecdsa)
      ensures ok ==> exists c :: Describes(payload, c) && accepted == old(accepted) + [c.nonce]
      ensures !ok ==> accepted == old(accepted)
    {
      hide Json.GetStr, Json.GetU32, Recent, Tbs;
      var nonce := Json.GetStr(payload, "nonce", NONCE_LEN);
      if nonce.None? { return false; }
      GetStrLength(payload, "nonce", NONCE_LEN);
      var timestamp := Json.GetU32(payload, "timestamp");
      if timestamp.None? { return false; }
      var sig := Json.GetStr(payload, "cmd_sig", 145);
      if sig.None? { return false; }
      if !InWindow(millis, timestamp.value) { return false; }
      var seen := Seen(nonce.value);
      if seen { return false; }
      var c := Extract(payload);
      if c.None? { return false; }
      forall d | Describes(payload, d) ensures d == c.value {
        DescribesOne(payload, c.value, d);
      }
      if !IsSignatureText(sig.value) { return false; }
      if !ecdsa(Tbs(c.value), sig.value) { return false; }
      Record(nonce.value);
      return true;
    }
  }

  /** Of the last 16 acceptances only the oldest shares the row of the next one. */
  lemma OtherRow(k: nat, i: int)
    requires k - Min(k, RING - 1) <= i < k
    ensures i % RING != k % RING
  {
  }

  lemma NextRow(k: nat)
    ensures (k % RING + 1) % RING == (k + 1) % RING
    ensures Min(k + 1, RING) == if Min(k, RING) < RING then Min(k, RING) + 1 else RING
  {
  }

  lemma RecentAt(accepted: seq<string>, i: int)
    requires |accepted| - Min(|accepted|, RING) <= i < |accepted|
    ensures accepted[i] in Recent(accepted)
  {
    assert Recent(accepted)[i - (|accepted| - Min(|accepted|, RING))] == accepted[i];
  }

  lemma RecentCovered(accepted: seq<string>, n: string)
    requires forall q :: 0 <= q < Min(|accepted|, RING) ==> accepted[HolderOf(|accepted|, q)] != n
    ensures n !in Recent(accepted)
  {
    var k := |accepted|;
    var recent := Recent(accepted);
    forall x | 0 <= x < |recent| ensures recent[x] != n {
      var i := k - |recent| + x;
      var q := i % RING;
      assert HolderOf(k, q) == i;
    }
  }
}
