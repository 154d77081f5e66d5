/** The flat JSON field extractor of sdk-c/src/nff_json.h and a printer for flat objects. */
module Json {
  import opened Bytes
  import opened Wrappers
  import Decimal

  // ---------------------------------------------------------------------
  // Scanning
  // ---------------------------------------------------------------------

  predicate IsSpace(c: char) {
    c == ' ' || c == '\t' || c == '\n' || c == '\r'
  }

  /** The character at `i`, with the terminating NUL behind the end. */
  function CharAt(t: string, i: nat): char {
    if i < |t| then t[i] else '\0'
  }

  /** The first position from `i` that is not white space, or the end. */
  function SkipSpaces(t: string, i: nat): (j: nat)
    requires i <= |t|
    ensures i <= j <= |t|
    decreases |t| - i
  {
    if i < |t| && IsSpace(t[i]) then SkipSpaces(t, i + 1) else i
  }

  /** The value position if `p` starts `"key"`, white space, a colon, white space and
      something more. */
  function MatchAt(t: string, key: string, p: nat): Option<nat> {
    if p + |key| + 3 < |t| && t[p] == '"' && t[p + 1..p + 1 + |key|] == key && t[p + 1 + |key|] == '"' then
      var q := SkipSpaces(t, p + |key| + 2);
      if q < |t| && t[q] == ':' then
        var v := SkipSpaces(t, q + 1);
        if v < |t| then Some(v) else None
      else None
    else None
  }

  /** The value position of the first match at or after `p`. */
  function FindFrom(t: string, key: string, p: nat): Option<nat>
    decreases |t| - p
  {
    if p >= |t| then None
    else if MatchAt(t, key, p).Some? then MatchAt(t, key, p)
    else FindFrom(t, key, p + 1)
  }

  function Find(t: string, key: string): Option<nat> {
    FindFrom(t, key, 0)
  }

  method Spaces(t: string, i: nat) returns (j: nat)
    requires i <= |t|
    ensures j == SkipSpaces(t, i)
  {
    j := i;
    while j < |t| && IsSpace(t[j])
      invariant i <= j <= |t|
      invariant SkipSpaces(t, i) == SkipSpaces(t, j)
      decreases |t| - j
    {
      j := j + 1;
    }
  }

  lemma {:induction false} NoMatchNearEnd(t: string, key: string, p: nat)
    requires p + |key| + 3 >= |t|
    ensures FindFrom(t, key, p) == None
    decreases |t| - p
  {
    if p < |t| {
      NoMatchNearEnd(t, key, p + 1);
    }
  }

  /** `nff_json_find_value` */
  method FindValue(t: string, key: string) returns (r: Option<nat>)
    ensures r == Find(t, key)
  {
    var p := 0;
    while p + |key| + 3 < |t|
      invariant FindFrom(t, key, 0) == FindFrom(t, key, p)
      decreases |t| - p
    {
      if t[p] == '"' && t[p + 1..p + 1 + |key|] == key && t[p + 1 + |key|] == '"' {
        var q := Spaces(t, p + |key| + 2);
        if q < |t| && t[q] == ':' {
          q := Spaces(t, q + 1);
          if q < |t| {
            return Some(q);
          }
        }
      }
      p := p + 1;
    }
    NoMatchNearEnd(t, key, p);
    return None;
  }

  function Unescaped(c: char): char {
    if c == 'n' then '\n' else if c == 't' then '\t' else c
  }

  /** The escapes: `\n` and `\t` stand for line feed and tab, any other for the character itself. */
  lemma EscapeTable(c: char)
    ensures Unescaped('n') == '\n' && Unescaped('t') == '\t' && (c != 'n' && c != 't' ==> Unescaped(c) == c)
  {
  }

  /** The characters copied from position `v` with room for `room` of them, and where
      the scan stops. */
  function Copied(t: string, v: nat, room: nat): (string, nat)
    decreases room
  {
    var c := CharAt(t, v);
    if c == '"' || c == '\0' || room == 0 then ([], v)
    else if c == '\\' then
      if CharAt(t, v + 1) == '\0' then ([], v + 1)
      else
        var (rest, stop) := Copied(t, v + 2, room - 1);
        ([Unescaped(CharAt(t, v + 1))] + rest, stop)
    else
      var (rest, stop) := Copied(t, v + 1, room - 1);
      ([c] + rest, stop)
  }

  /** The value of `nff_json_get_str` into a buffer of `cap` characters. */
  function GetStr(t: string, key: string, cap: nat): Option<string>
    requires cap > 0
  {
    var v := Find(t, key);
    if v.None? || CharAt(t, v.value) != '"' then None
    else
      var (s, stop) := Copied(t, v.value + 1, cap - 1);
      if CharAt(t, stop) == '"' then Some(s) else None
  }

  lemma {:induction false} CopiedFits(t: string, v: nat, room: nat)
    ensures |Copied(t, v, room).0| <= room
    decreases room
  {
    var c := CharAt(t, v);
    if c != '"' && c != '\0' && room > 0 {
      if c == '\\' {
        if CharAt(t, v + 1) != '\0' {
          CopiedFits(t, v + 2, room - 1);
        }
      } else {
        CopiedFits(t, v + 1, room - 1);
      }
    }
  }

  /** Extracted text never holds a NUL. */
  lemma {:induction false} CopiedHasNoNul(t: string, v: nat, room: nat)
    ensures '\0' !in Copied(t, v, room).0
    decreases room
  {
    var c := CharAt(t, v);
    if c != '"' && c != '\0' && room > 0 {
      if c == '\\' {
        if CharAt(t, v + 1) != '\0' {
          CopiedHasNoNul(t, v + 2, room - 1);
        }
      } else {
        CopiedHasNoNul(t, v + 1, room - 1);
      }
    }
  }

  /** The scan from `start` with room for `room` characters has copied `copied` and stands at `v`. */
  ghost predicate SoFar(t: string, start: nat, room: nat, copied: string, v: nat) {
    && |copied| <= room
    && Copied(t, start, room)
         == (copied + Copied(t, v, room - |copied|).0, Copied(t, v, room - |copied|).1)
  }

  lemma NothingCopied(t: string, start: nat, room: nat)
    ensures SoFar(t, start, room, [], start)
  {
    assert [] + Copied(t, start, room).0 == Copied(t, start, room).0;
  }

  /** One round of the copy loop: where it goes on, and with which character. */
  lemma CopyRound(t: string, start: nat, room: nat, copied: string, v: nat)
    requires SoFar(t, start, room, copied, v) && |copied| < room
    requires CharAt(t, v) != '"' && CharAt(t, v) != '\0'
    ensures CharAt(t, v) != '\\' ==> SoFar(t, start, room, copied + [CharAt(t, v)], v + 1)
    ensures CharAt(t, v) == '\\' && CharAt(t, v + 1) != '\0' ==>
              SoFar(t, start, room, copied + [Unescaped(CharAt(t, v + 1))], v + 2)
    ensures CharAt(t, v) == '\\' && CharAt(t, v + 1) == '\0' ==> Copied(t, start, room) == (copied, v + 1)
  {
    hide CharAt, Unescaped;
    var left := room - |copied|;
    if CharAt(t, v) != '\\' {
      var c := CharAt(t, v);
      assert copied + ([c] + Copied(t, v + 1, left - 1).0) == (copied + [c]) + Copied(t, v + 1, left - 1).0;
    } else if CharAt(t, v + 1) != '\0' {
      var c := Unescaped(CharAt(t, v + 1));
      assert copied + ([c] + Copied(t, v + 2, left - 1).0) == (copied + [c]) + Copied(t, v + 2, left - 1).0;
    } else {
      assert copied + [] == copied;
    }
  }

  lemma CopyStops(t: string, start: nat, room: nat, copied: string, v: nat)
    requires SoFar(t, start, room, copied, v)
    requires CharAt(t, v) == '"' || CharAt(t, v) == '\0' || |copied| == room
    ensures Copied(t, start, room) == (copied, v)
  {
    assert copied + [] == copied;
  }

  /** `nff_json_get_str`: copies into `out` and terminates it. */
  method GetStrInto(t: string, key: string, out: array<char>) returns (ok: bool)
    requires out.Length > 0
    modifies out
    ensures ok <==> GetStr(t, key, out.Length).Some?
    ensures ok ==> var s := GetStr(t, key, out.Length).value;
                   |s| < out.Length && out[..|s|] == s && out[|s|] == '\0'
                   && forall k :: |s| < k < out.Length ==> out[k] == old(out[k])
    ensures Find(t, key).None? ==> out[..] == old(out[..])
  {
    var f := FindValue(t, key);
    if f.None? || CharAt(t, f.value) != '"' {
      return false;
    }
    hide SoFar, Copied, CharAt, Find, Unescaped;
    var v, i := f.value + 1, 0;
    ghost var start, room := v, out.Length - 1;
    ghost var copied: string := [];
    NothingCopied(t, start, room);
    while CharAt(t, v) != '"' && CharAt(t, v) != '\0' && i + 1 < out.Length
      invariant i == |copied| <= room && out[..i] == copied
      invariant SoFar(t, start, room, copied, v)
      invariant forall k :: i <= k < out.Length ==> out[k] == old(out[k])
      decreases out.Length - i
    {
      CopyRound(t, start, room, copied, v);
      if CharAt(t, v) == '\\' {
        v := v + 1;
        if CharAt(t, v) == '\0' {
          out[i] := '\0';
          return CharAt(t, v) == '"';
        }
        out[i] := Unescaped(CharAt(t, v));
      } else {
        out[i] := CharAt(t, v);
      }
      copied := copied + [out[i]];
      i := i + 1;
      v := v + 1;
    }
    CopyStops(t, start, room, copied, v);
    out[i] := '\0';
    ok := CharAt(t, v) == '"';
  }

  /** The digits from `v` as a number modulo 2^32, after what was read so far. */
  function Digits(t: string, v: nat, sofar: nat): nat
    decreases |t| - v
  {
    if Decimal.IsDigit(CharAt(t, v)) && v < |t| then
      Digits(t, v + 1, (sofar * 10 + Decimal.DigitValue(t[v])) % TWO32)
    else sofar
  }

  function GetU32(t: string, key: string): Option<nat> {
    var v := Find(t, key);
    if v.None? || !Decimal.IsDigit(CharAt(t, v.value)) then None
    else Some(Digits(t, v.value, 0))
  }

  /** `nff_json_get_u32` */
  method GetU32Of(t: string, key: string) returns (r: Option<nat>)
    ensures r == GetU32(t, key)
  {
    var f := FindValue(t, key);
    if f.None? || !Decimal.IsDigit(CharAt(t, f.value)) {
      return None;
    }
    var v, val: nat := f.value, 0;
    while Decimal.IsDigit(CharAt(t, v))
      invariant v <= |t| && Digits(t, f.value, 0) == Digits(t, v, val)
      decreases |t| - v
    {
      val := (val * 10 + Decimal.DigitValue(CharAt(t, v))) % TWO32;
      v := v + 1;
    }
    return Some(val);
  }

  // ---------------------------------------------------------------------
  // Printing
  // ---------------------------------------------------------------------

  datatype Field = Text(s: string) | Number(n: nat)

  datatype Member = Member(key: string, value: Field)

  /** The white space a printer puts after '{', around ':' and ',' and before '}'. */
  datatype Style = Style(open: string, beforeColon: string, afterColon: string,
                         beforeComma: string, afterComma: string, close: string)

  /** White space as JSON has it, whatever the scanner skips. */
  predicate AllSpaces(s: string) {
    forall c :: c in s ==> c in [' ', '\t', '\n', '\r']
  }

  predicate IsStyle(y: Style) {
    && AllSpaces(y.open) && AllSpaces(y.beforeColon) && AllSpaces(y.afterColon)
    && AllSpaces(y.beforeComma) && AllSpaces(y.afterComma) && AllSpaces(y.close)
  }

  predicate IsIdentifierChar(c: char) {
    'a' <= c <= 'z' || 'A' <= c <= 'Z' || '0' <= c <= '9' || c == '_'
  }

  predicate IsIdentifier(s: string) {
    s != [] && forall c :: c in s ==> IsIdentifierChar(c)
  }

  function Escaped(c: char): string {
    if c == '"' then "\\\""
    else if c == '\\' then "\\\\"
    else if c == '\n' then "\\n"
    else if c == '\t' then "\\t"
    else [c]
  }

  function EscapedText(s: string): string {
    if s == [] then [] else Escaped(s[0]) + EscapedText(s[1..])
  }

  function Quoted(s: string): string {
    "\"" + EscapedText(s) + "\""
  }

  function PrintField(f: Field): string {
    match f
    case Text(s) => Quoted(s)
    case Number(n) => Decimal.Print(n)
  }

  function PrintMember(m: Member, y: Style): string {
    "\"" + m.key + "\"" + y.beforeColon + ":" + y.afterColon + PrintField(m.value)
  }

  /** The members and the closing brace. */
  function PrintMembers(ms: seq<Member>, y: Style): string
    requires ms != []
  {
    PrintMember(ms[0], y)
    + (if |ms| == 1 then y.close + "}" else y.beforeComma + "," + y.afterComma + PrintMembers(ms[1..], y))
  }

  function PrintObject(ms: seq<Member>, y: Style): string {
    "{" + y.open + (if ms == [] then y.close + "}" else PrintMembers(ms, y))
  }

  predicate IsField(f: Field) {
    match f
    case Text(s) => '\0' !in s
    case Number(n) => n < TWO32
  }

  predicate IsObject(ms: seq<Member>) {
    && (forall i :: 0 <= i < |ms| ==> IsIdentifier(ms[i].key) && IsField(ms[i].value))
    && (forall i, j :: 0 <= i < j < |ms| ==> ms[i].key != ms[j].key)
  }

  // ---------------------------------------------------------------------
  // The search on any text
  // ---------------------------------------------------------------------

  /** `"key"`, white space, a colon and white space stand between `p` and `v`, and at `v`
      something else begins. */
  ghost predicate Leads(t: string, key: string, p: nat, v: nat) {
    && p <= v < |t| && t[v] !in [' ', '\t', '\n', '\r']
    && exists before, behind ::
         AllSpaces(before) && AllSpaces(behind) && t[p..v] == "\"" + key + "\"" + before + ":" + behind
  }

  lemma {:induction false} SkippedSpaces(t: string, i: nat)
    requires i <= |t|
    ensures var j := SkipSpaces(t, i);
            AllSpaces(t[i..j]) && (j < |t| ==> t[j] !in [' ', '\t', '\n', '\r'])
    decreases |t| - i
  {
    if i < |t| && IsSpace(t[i]) {
      SkippedSpaces(t, i + 1);
      var j := SkipSpaces(t, i);
      assert t[i..j] == [t[i]] + t[i + 1..j];
    }
  }

  /** White space ends in one place. */
  lemma {:induction false} SpacesEndOnce(t: string, i: nat, j: nat)
    requires i <= j < |t| && AllSpaces(t[i..j]) && t[j] !in [' ', '\t', '\n', '\r']
    ensures SkipSpaces(t, i) == j
    decreases j - i
  {
    if i < j {
      assert t[i] == t[i..j][0] && t[i..j][0] in t[i..j] && t[i + 1..j] == t[i..j][1..];
      SpacesEndOnce(t, i + 1, j);
    }
  }

  lemma ThreePieces(t: string, p: nat, a: nat, q: nat, v: nat)
    requires p <= a <= q < v <= |t|
    ensures t[p..v] == t[p..a] + t[a..q] + ([t[q]] + t[q + 1..v])
  {
  }

  lemma QuotedKey(t: string, p: nat, key: string)
    requires p + |key| + 2 <= |t|
    requires t[p] == '"' && t[p + 1..p + 1 + |key|] == key && t[p + 1 + |key|] == '"'
    ensures t[p..p + |key| + 2] == "\"" + key + "\""
  {
    assert t[p..p + |key| + 2] == [t[p]] + t[p + 1..p + 1 + |key|] + [t[p + 1 + |key|]];
  }

  lemma MatchLeads(t: string, key: string, p: nat)
    requires MatchAt(t, key, p).Some?
    ensures Leads(t, key, p, MatchAt(t, key, p).value)
  {
    hide AllSpaces, SkipSpaces;
    var a := p + |key| + 2;
    var q := SkipSpaces(t, a);
    var v := SkipSpaces(t, q + 1);
    SkippedSpaces(t, a);
    SkippedSpaces(t, q + 1);
    QuotedKey(t, p, key);
    ThreePieces(t, p, a, q, v);
    SpelledLeads(t, key, p, v, t[a..q], t[q + 1..v]);
  }

  lemma SpelledLeads(t: string, key: string, p: nat, v: nat, before: string, behind: string)
    requires p <= v < |t| && AllSpaces(before) && AllSpaces(behind) && t[v] !in [' ', '\t', '\n', '\r']
    requires t[p..v] == "\"" + key + "\"" + before + (":" + behind)
    ensures Leads(t, key, p, v)
  {
    hide AllSpaces;
    assert t[p..v] == "\"" + key + "\"" + before + ":" + behind;
  }

  lemma QuotedHead(u: string, key: string, rest: string)
    requires u == "\"" + key + "\"" + rest
    ensures u[0] == '"' && u[1..1 + |key|] == key && u[1 + |key|] == '"' && u[|key| + 2..] == rest
  {
    assert u[|key| + 2..] == rest;
  }

  lemma ColonMiddle(u: string, before: string, behind: string)
    requires u == before + ":" + behind
    ensures u[..|before|] == before && u[|before|] == ':' && u[|before| + 1..] == behind
  {
  }

  lemma Slice(t: string, p: nat, v: nat, i: nat, j: nat)
    requires p <= v <= |t| && i <= j <= v - p
    ensures t[p..v][i..j] == t[p + i..p + j]
  {
    var u := t[p..v];
    forall x | 0 <= x < j - i ensures u[i..j][x] == t[p + i..p + j][x] {
      assert u[i..j][x] == u[i + x] == t[p + (i + x)];
    }
  }

  lemma MatchParts(t: string, p: nat, v: nat, key: string, before: string, behind: string)
    requires p <= v < |t| && t[p..v] == "\"" + key + "\"" + (before + ":" + behind)
    ensures var a, q := p + |key| + 2, p + |key| + 2 + |before|;
            && q + 1 <= v && t[p] == '"' && t[p + 1..p + 1 + |key|] == key && t[p + 1 + |key|] == '"'
            && t[a..q] == before && t[q] == ':' && t[q + 1..v] == behind
  {
    var k, n, u := |key|, |before|, t[p..v];
    QuotedHead(u, key, before + ":" + behind);
    ColonMiddle(u[k + 2..], before, behind);
    Slice(t, p, v, 1, 1 + k);
    Slice(t, p, v, k + 2, v - p);
    Slice(t, p + k + 2, v, 0, n);
    Slice(t, p + k + 2, v, n + 1, v - p - k - 2);
    assert u[k + 2..] == t[p + k + 2..v];
  }

  lemma SpelledMatch(t: string, p: nat, v: nat, key: string, before: string, behind: string)
    requires p <= v < |t| && AllSpaces(before) && AllSpaces(behind) && t[v] !in [' ', '\t', '\n', '\r']
    requires t[p..v] == "\"" + key + "\"" + (before + ":" + behind)
    ensures MatchAt(t, key, p) == Some(v)
  {
    hide AllSpaces, SkipSpaces, MatchAt;
    var a, q := p + |key| + 2, p + |key| + 2 + |before|;
    MatchParts(t, p, v, key, before, behind);
    SpacesEndOnce(t, a, q);
    SpacesEndOnce(t, q + 1, v);
    MatchHolds(t, key, p, q, v);
  }

  lemma MatchHolds(t: string, key: string, p: nat, q: nat, v: nat)
    requires p + |key| + 3 < |t| && t[p] == '"' && t[p + 1..p + 1 + |key|] == key && t[p + 1 + |key|] == '"'
    requires SkipSpaces(t, p + |key| + 2) == q < v < |t| && t[q] == ':' && SkipSpaces(t, q + 1) == v
    ensures MatchAt(t, key, p) == Some(v)
  {
    hide SkipSpaces;
  }

  lemma LeadsMatch(t: string, key: string, p: nat, v: nat)
    requires Leads(t, key, p, v)
    ensures MatchAt(t, key, p) == Some(v)
  {
    hide AllSpaces, MatchAt;
    var before, behind :|
      AllSpaces(before) && AllSpaces(behind) && t[p..v] == "\"" + key + "\"" + before + ":" + behind;
    assert t[p..v] == "\"" + key + "\"" + (before + ":" + behind);
    SpelledMatch(t, p, v, key, before, behind);
  }

  lemma {:induction false} FindFromFirst(t: string, key: string, p: nat, k: nat)
    requires p <= k && forall j :: p <= j < k ==> MatchAt(t, key, j).None?
    ensures k < |t| && MatchAt(t, key, k).Some? ==> FindFrom(t, key, p) == MatchAt(t, key, k)
    ensures k >= |t| ==> FindFrom(t, key, p) == None
    decreases k - p
  {
    if p < k {
      FindFromFirst(t, key, p + 1, k);
    }
  }

  lemma {:induction false} FirstMatch(t: string, key: string, p: nat) returns (k: nat)
    ensures p <= k && forall j :: p <= j < k ==> MatchAt(t, key, j).None?
    ensures k >= |t| || MatchAt(t, key, k).Some?
    decreases |t| - p
  {
    k := p;
    if p < |t| && MatchAt(t, key, p).None? {
      k := FirstMatch(t, key, p + 1);
    }
  }

  /** On any text at all the search finds the first place where the quoted key, a colon and
      the white space around it lead to something, and fails exactly without such a place. */
  lemma FindsFirst(t: string, key: string)
    ensures match Find(t, key)
            case None => forall p: nat, v: nat :: !Leads(t, key, p, v)
            case Some(v) => exists p: nat :: Leads(t, key, p, v) && forall j: nat, x: nat :: j < p ==> !Leads(t, key, j, x)
  {
    hide Leads, MatchAt;
    var k := FirstMatch(t, key, 0);
    FindFromFirst(t, key, 0, k);
    forall j: nat, x: nat | j < k ensures !Leads(t, key, j, x) {
      if Leads(t, key, j, x) {
        LeadsMatch(t, key, j, x);
      }
    }
    if k < |t| {
      MatchLeads(t, key, k);
    } else {
      forall p: nat, v: nat ensures !Leads(t, key, p, v) {
        if Leads(t, key, p, v) {
          LeadsInside(t, key, p, v);
        }
      }
    }
  }

  lemma LeadsInside(t: string, key: string, p: nat, v: nat)
    requires Leads(t, key, p, v)
    ensures p < |t|
  {
  }

  // ---------------------------------------------------------------------
  // The search on suffixes
  // ---------------------------------------------------------------------

  function Strip(u: string): string {
    if u != [] && IsSpace(u[0]) then Strip(u[1..]) else u
  }

  /** `MatchAt` as a function of what follows: the text from the value on. */
  function MatchHead(u: string, key: string): Option<string> {
    if |key| + 3 < |u| && u[0] == '"' && u[1..1 + |key|] == key && u[1 + |key|] == '"' then
      var q := Strip(u[|key| + 2..]);
      if q != [] && q[0] == ':' then
        var v := Strip(q[1..]);
        if v != [] then Some(v) else None
      else None
    else None
  }

  function FindTail(u: string, key: string): Option<string> {
    if u == [] then None
    else if MatchHead(u, key).Some? then MatchHead(u, key)
    else FindTail(u[1..], key)
  }

  lemma {:induction false} StripIsSkip(t: string, i: nat)
    requires i <= |t|
    ensures Strip(t[i..]) == t[SkipSpaces(t, i)..]
    decreases |t| - i
  {
    if i < |t| {
      assert t[i..][1..] == t[i + 1..];
      StripIsSkip(t, i + 1);
    }
  }

  ghost predicate SameSpot(t: string, position: Option<nat>, tail: Option<string>) {
    match position
    case None => tail == None
    case Some(v) => v < |t| && tail == Some(t[v..])
  }

  lemma MatchSpots(t: string, key: string, p: nat)
    requires p < |t|
    ensures SameSpot(t, MatchAt(t, key, p), MatchHead(t[p..], key))
  {
    var u := t[p..];
    if |key| + 3 < |u| {
      assert u[1..1 + |key|] == t[p + 1..p + 1 + |key|];
      assert u[|key| + 2..] == t[p + |key| + 2..];
      var q := SkipSpaces(t, p + |key| + 2);
      StripIsSkip(t, p + |key| + 2);
      if q < |t| {
        assert t[q..][1..] == t[q + 1..];
        StripIsSkip(t, q + 1);
      }
    }
  }

  lemma {:induction false} FindSpots(t: string, key: string, p: nat)
    requires p <= |t|
    ensures SameSpot(t, FindFrom(t, key, p), FindTail(t[p..], key))
    decreases |t| - p
  {
    if p < |t| {
      MatchSpots(t, key, p);
      FindSpots(t, key, p + 1);
      assert t[p..][1..] == t[p + 1..];
    }
  }

  // ---------------------------------------------------------------------
  // Searching printed objects
  // ---------------------------------------------------------------------

  lemma {:induction false} StripPast(w: string, rest: string)
    requires AllSpaces(w) && (rest == [] || !IsSpace(rest[0]))
    ensures Strip(w + rest) == rest
  {
    if w == [] {
      assert w + rest == rest;
    } else {
      assert w[0] in w && (w + rest)[1..] == w[1..] + rest;
      StripPast(w[1..], rest);
    }
  }

  /** Text without quotes never matches. */
  lemma {:induction false} SkipPlain(w: string, rest: string, key: string)
    requires '"' !in w
    ensures FindTail(w + rest, key) == FindTail(rest, key)
  {
    if w == [] {
      assert w + rest == rest;
    } else {
      assert (w + rest)[1..] == w[1..] + rest;
      assert (w + rest)[0] == w[0];
      SkipPlain(w[1..], rest, key);
    }
  }

  /** Every quote inside is preceded by a backslash, except possibly a leading one. */
  ghost predicate Guarded(x: string) {
    forall j :: 1 <= j < |x| && x[j] == '"' ==> x[j - 1] == '\\'
  }

  /** What follows a closing quote that does not end a key. */
  ghost predicate NoColonNext(rest: string) {
    && (rest == [] || !IsIdentifierChar(rest[0]))
    && (Strip(rest) == [] || Strip(rest)[0] != ':')
  }

  /** A match that starts inside a literal's text runs up to the closing quote. */
  lemma MatchEndsLiteral(x: string, rest: string, key: string)
    requires IsIdentifier(key) && Guarded(x) && x != []
    requires MatchHead(x + "\"" + rest, key).Some?
    ensures x[0] == '"' && |x| == |key| + 1 && x[1..] == key
  {
    var u := x + "\"" + rest;
    var e := |key| + 1;
    assert u[|x|] == '"' && u[1..e] == key;
    assert forall j :: 1 <= j < e ==> u[j] == key[j - 1] && key[j - 1] in key;
    assert e <= |x|;
    assert u[e] == '"' && u[e - 1] == key[|key| - 1];
    assert forall j :: 0 <= j < |x| ==> u[j] == x[j];
    assert x[1..] == u[1..|x|];
  }

  /** A closing quote followed by something other than an identifier never matches. */
  lemma ClosingQuoteNoMatch(rest: string, key: string)
    requires IsIdentifier(key) && (rest == [] || !IsIdentifierChar(rest[0]))
    ensures MatchHead("\"" + rest, key) == None
  {
    var u := "\"" + rest;
    assert key[0] in key;
    if |key| + 3 < |u| {
      assert u[1..1 + |key|][0] == rest[0];
    }
  }

  /** The search passes over a string value, whatever text it holds. */
  lemma {:induction false} SkipLiteral(x: string, rest: string, key: string)
    requires IsIdentifier(key) && Guarded(x) && NoColonNext(rest)
    ensures FindTail(x + "\"" + rest, key) == FindTail(rest, key)
  {
    var u := x + "\"" + rest;
    if x == [] {
      assert u == "\"" + rest && u[1..] == rest;
      ClosingQuoteNoMatch(rest, key);
    } else {
      assert u[1..] == x[1..] + "\"" + rest;
      assert u[|x| + 1..] == rest;
      if MatchHead(u, key).Some? {
        MatchEndsLiteral(x, rest, key);
      }
      SkipLiteral(x[1..], rest, key);
    }
  }

  /** Guarded text that does not start with a quote may follow any guarded text. */
  lemma GuardedConcat(e: string, r: string)
    requires Guarded(e) && Guarded(r) && (r != [] ==> r[0] != '"')
    ensures Guarded(e + r)
  {
    var u := e + r;
    forall j | 1 <= j < |u| && u[j] == '"' ensures u[j - 1] == '\\' {
      if j > |e| {
        assert r[j - |e|] == '"';
      }
    }
  }

  lemma EscapedGuarded(c: char)
    ensures Guarded(Escaped(c)) && Escaped(c) != [] && Escaped(c)[0] != '"'
  {
  }

  lemma {:induction false} EscapedTextGuarded(s: string)
    ensures Guarded(EscapedText(s))
    ensures EscapedText(s) != [] ==> EscapedText(s)[0] != '"'
  {
    hide Guarded, Escaped;
    if s == [] {
      NothingGuarded();
    } else {
      EscapedTextGuarded(s[1..]);
      EscapedGuarded(s[0]);
      GuardedConcat(Escaped(s[0]), EscapedText(s[1..]));
    }
  }

  lemma NothingGuarded()
    ensures Guarded([])
  {
  }

  lemma QuotedGuarded(s: string)
    ensures Guarded("\"" + EscapedText(s))
  {
    EscapedTextGuarded(s);
    var e := EscapedText(s);
    forall j | 1 <= j < |"\"" + e| && ("\"" + e)[j] == '"' ensures ("\"" + e)[j - 1] == '\\' {
      assert e[j - 1] == '"';
    }
  }

  lemma SkipField(f: Field, rest: string, key: string)
    requires IsIdentifier(key) && NoColonNext(rest)
    ensures FindTail(PrintField(f) + rest, key) == FindTail(rest, key)
  {
    match f
    case Text(s) =>
      QuotedGuarded(s);
      assert PrintField(f) + rest == ("\"" + EscapedText(s)) + "\"" + rest;
      SkipLiteral("\"" + EscapedText(s), rest, key);
    case Number(n) =>
      SkipPlain(Decimal.Print(n), rest, key);
  }

  lemma SpacesHaveNoQuote(w: string)
    requires AllSpaces(w)
    ensures '"' !in w
  {
  }

  /** The search passes over another member's key and its colon. */
  lemma SkipKey(k: string, y: Style, rest: string, key: string)
    requires IsIdentifier(k) && IsIdentifier(key) && k != key && IsStyle(y)
    ensures FindTail("\"" + k + "\"" + y.beforeColon + ":" + y.afterColon + rest, key) == FindTail(rest, key)
  {
    var after := y.beforeColon + ":" + y.afterColon;
    var u := "\"" + k + "\"" + y.beforeColon + ":" + y.afterColon + rest;
    var x := "\"" + k;
    assert u == x + "\"" + (after + rest);
    assert Guarded(x) by {
      forall j | 1 <= j < |x| ensures x[j] != '"' {
        assert x[j] in k;
      }
    }
    assert x[1..] == k;
    if MatchHead(u, key).Some? {
      MatchEndsLiteral(x, after + rest, key);
    }
    assert u[1..] == k + ("\"" + (after + rest));
    assert '"' !in k;
    SkipPlain(k, "\"" + (after + rest), key);
    assert !IsIdentifierChar((after + rest)[0]) by {
      if y.beforeColon != [] {
        assert y.beforeColon[0] in y.beforeColon;
      }
    }
    ClosingQuoteNoMatch(after + rest, key);
    assert ("\"" + (after + rest))[1..] == after + rest;
    SpacesHaveNoQuote(y.beforeColon);
    SpacesHaveNoQuote(y.afterColon);
    SkipPlain(after, rest, key);
  }

  /** The member's own key matches and leads to its value. */
  lemma KeyMatches(key: string, y: Style, rest: string)
    requires IsIdentifier(key) && IsStyle(y) && rest != [] && !IsSpace(rest[0])
    ensures FindTail("\"" + key + "\"" + y.beforeColon + ":" + y.afterColon + rest, key) == Some(rest)
  {
    hide IsIdentifier, AllSpaces, IsSpace, Strip;
    var u := "\"" + key + "\"" + y.beforeColon + ":" + y.afterColon + rest;
    var tail := ":" + (y.afterColon + rest);
    assert u == "\"" + key + "\"" + (y.beforeColon + tail);
    assert u[1..1 + |key|] == key && u[1 + |key|] == '"';
    assert u[|key| + 2..] == y.beforeColon + tail;
    ColonIsNoSpace();
    StripPast(y.beforeColon, tail);
    assert tail[1..] == y.afterColon + rest;
    StripPast(y.afterColon, rest);
    assert MatchHead(u, key) == Some(rest);
  }

  lemma ColonIsNoSpace()
    ensures !IsSpace(':')
  {
  }

  // ---------------------------------------------------------------------
  // The round trip
  // ---------------------------------------------------------------------

  /** Where a value may end: white space, a comma or the closing brace. */
  predicate EndsValue(rest: string) {
    rest != [] && rest[0] in [' ', '\t', '\n', '\r', ',', '}']
  }

  function Lookup(ms: seq<Member>, key: string): Option<Field> {
    if ms == [] then None
    else if ms[0].key == key then Some(ms[0].value)
    else Lookup(ms[1..], key)
  }

  /** What follows the first member. */
  function AfterFirst(ms: seq<Member>, y: Style): string
    requires ms != []
  {
    if |ms| == 1 then y.close + "}" else y.beforeComma + "," + y.afterComma + PrintMembers(ms[1..], y)
  }

  lemma SpacesThen(w: string, c: char, more: string)
    requires AllSpaces(w) && (c == ',' || c == '}')
    ensures EndsValue(w + [c] + more) && NoColonNext(w + [c] + more)
  {
    var rest := w + [c] + more;
    assert rest == w + ([c] + more);
    StripPast(w, [c] + more);
    if w != [] {
      assert w[0] in w && rest[0] == w[0];
    }
  }

  lemma AfterFirstEnds(ms: seq<Member>, y: Style)
    requires ms != [] && IsStyle(y)
    ensures EndsValue(AfterFirst(ms, y)) && NoColonNext(AfterFirst(ms, y))
  {
    if |ms| == 1 {
      SpacesThen(y.close, '}', []);
      assert y.close + "}" + [] == y.close + "}";
    } else {
      SpacesThen(y.beforeComma, ',', y.afterComma + PrintMembers(ms[1..], y));
      assert AfterFirst(ms, y) == y.beforeComma + [','] + (y.afterComma + PrintMembers(ms[1..], y));
    }
  }

  lemma FieldStart(f: Field)
    ensures PrintField(f) != [] && !IsSpace(PrintField(f)[0])
  {
    if f.Number? {
      assert PrintField(f)[0] in PrintField(f);
    }
  }

  /** The tail the search must find: the printed value and something that ends it. */
  ghost predicate FoundField(found: Option<string>, f: Option<Field>) {
    match f
    case None => found == None
    case Some(v) => found.Some? && exists rest :: EndsValue(rest) && found.value == PrintField(v) + rest
  }

  lemma {:induction false} FindInMembers(ms: seq<Member>, y: Style, key: string)
    requires ms != [] && IsObject(ms) && IsStyle(y) && IsIdentifier(key)
    ensures FoundField(FindTail(PrintMembers(ms, y), key), Lookup(ms, key))
  {
    hide FindTail, EndsValue, NoColonNext, PrintField, IsIdentifier;
    var m := ms[0];
    var after := AfterFirst(ms, y);
    AfterFirstEnds(ms, y);
    FieldStart(m.value);
    var head := "\"" + m.key + "\"" + y.beforeColon + ":" + y.afterColon;
    var rest := PrintField(m.value) + after;
    assert PrintMembers(ms, y) == head + rest;
    if m.key == key {
      KeyMatches(key, y, rest);
    } else {
      SkipKey(m.key, y, rest, key);
      SkipField(m.value, after, key);
      if |ms| == 1 {
        SpacesHaveNoQuote(y.close);
        SkipPlain(y.close + "}", [], key);
        assert after + [] == after;
        NothingLeft(key);
      } else {
        var more := PrintMembers(ms[1..], y);
        SpacesHaveNoQuote(y.beforeComma);
        SpacesHaveNoQuote(y.afterComma);
        SkipPlain(y.beforeComma + "," + y.afterComma, more, key);
        FindInMembers(ms[1..], y, key);
      }
    }
  }

  lemma NothingLeft(key: string)
    ensures FindTail([], key) == None
  {
  }

  /** Searching a printed object finds a present key's value and nothing for an absent
      key, even when string values hold text that looks like a quoted key. */
  lemma FindInObject(ms: seq<Member>, y: Style, key: string)
    requires IsObject(ms) && IsStyle(y) && IsIdentifier(key)
    ensures var t := PrintObject(ms, y);
            match Lookup(ms, key)
            case None => Find(t, key) == None
            case Some(f) => Find(t, key).Some? && Find(t, key).value <= |t|
                            && exists rest :: EndsValue(rest) && t[Find(t, key).value..] == PrintField(f) + rest
  {
    hide FindTail, EndsValue, PrintField, IsIdentifier;
    var t := PrintObject(ms, y);
    var body := if ms == [] then y.close + "}" else PrintMembers(ms, y);
    SpacesHaveNoQuote(y.open);
    SkipPlain("{" + y.open, body, key);
    FindSpots(t, key, 0);
    assert t[0..] == t == ("{" + y.open) + body;
    if ms == [] {
      SpacesHaveNoQuote(y.close);
      SkipPlain(body, [], key);
      assert body + [] == body;
      NothingLeft(key);
    } else {
      FindInMembers(ms, y, key);
    }
  }

  /** One escaped character is read back as one character. */
  lemma CopyOne(t: string, v: nat, c: char, more: string, room: nat)
    requires v <= |t| && c != '\0' && t[v..] == Escaped(c) + more
    ensures CharAt(t, v) != '"'
    ensures v + |Escaped(c)| <= |t| && t[v + |Escaped(c)|..] == more
    ensures room == 0 ==> Copied(t, v, room) == ([], v)
    ensures room > 0 ==>
              Copied(t, v, room).0 == [c] + Copied(t, v + |Escaped(c)|, room - 1).0
              && Copied(t, v, room).1 == Copied(t, v + |Escaped(c)|, room - 1).1
  {
    var u := t[v..];
    assert u[0] == t[v] && |u| == |t| - v;
    assert |Escaped(c)| > 1 ==> u[1] == t[v + 1];
  }

  lemma CopyEnd(t: string, v: nat, rest: string, room: nat)
    requires v <= |t| && t[v..] == "\"" + rest
    ensures Copied(t, v, room) == ([], v) && CharAt(t, v) == '"'
  {
    assert t[v..][0] == t[v];
  }

  /** Copying a printed string stops at its closing quote when there is room, and in front
      of the first character that does not fit otherwise. */
  lemma {:induction false} CopyEscaped(t: string, v: nat, s: string, rest: string, room: nat)
    requires v <= |t| && '\0' !in s && t[v..] == EscapedText(s) + "\"" + rest
    ensures var (copied, stop) := Copied(t, v, room);
            if |s| <= room then copied == s && CharAt(t, stop) == '"' else CharAt(t, stop) != '"'
    decreases |s|
  {
    hide Copied, Escaped, CharAt;
    if s == [] {
      CopyEnd(t, v, rest, room);
    } else {
      assert s[0] in s;
      var more := EscapedText(s[1..]) + "\"" + rest;
      assert t[v..] == Escaped(s[0]) + more;
      CopyOne(t, v, s[0], more, room);
      if room > 0 {
        CopyEscaped(t, v + |Escaped(s[0])|, s[1..], rest, room - 1);
      }
    }
  }

  lemma {:induction false} DigitsSoFar(t: string, v: nat, d: string, k: nat)
    requires v + |d| <= |t| && t[v..v + |d|] == d && k <= |d|
    requires forall c :: c in d ==> Decimal.IsDigit(c)
    ensures Decimal.Parse(d[..k]) >= 0
    ensures Digits(t, v, 0) == Digits(t, v + k, Decimal.Parse(d[..k]) % TWO32)
  {
    if k > 0 {
      DigitsSoFar(t, v, d, k - 1);
      assert d[..k][..k - 1] == d[..k - 1];
      assert t[v + k - 1] == d[k - 1] && d[k - 1] in d;
      var x := Decimal.Parse(d[..k - 1]);
      WrapStep(x, Decimal.DigitValue(d[k - 1]));
    }
  }

  lemma WrapStep(x: nat, d: nat)
    ensures (x % TWO32 * 10 + d) % TWO32 == (x * 10 + d) % TWO32
  {
  }

  lemma DigitsOfPrinted(t: string, v: nat, n: nat, rest: string)
    requires v <= |t| && t[v..] == Decimal.Print(n) + rest && EndsValue(rest) && n < TWO32
    ensures Digits(t, v, 0) == n
  {
    hide Decimal.Print, Decimal.Parse, Digits;
    var d := Decimal.Print(n);
    assert t[v..][..|d|] == d && t[v..][|d|] == rest[0];
    assert t[v..v + |d|] == d && t[v + |d|] == rest[0];
    DigitsSoFar(t, v, d, |d|);
    assert d[..|d|] == d;
    Decimal.ParseInvertsPrint(n);
    DigitsStop(t, v + |d|, n);
  }

  lemma DigitsStop(t: string, v: nat, n: nat)
    requires v < |t| && (IsSpace(t[v]) || t[v] == ',' || t[v] == '}')
    ensures Digits(t, v, n) == n
  {
  }

  /** Extraction inverts printing: a present string comes back exactly when it fits the
      buffer, a present number comes back as it is, and neither comes back as the other. */
  lemma ExtractInvertsPrint(ms: seq<Member>, y: Style, key: string, cap: nat)
    requires IsObject(ms) && IsStyle(y) && IsIdentifier(key) && cap > 0
    ensures GetStr(PrintObject(ms, y), key, cap) ==
              match Lookup(ms, key)
              case Some(Text(s)) => (if |s| < cap then Some(s) else None)
              case _ => None
    ensures GetU32(PrintObject(ms, y), key) ==
              match Lookup(ms, key)
              case Some(Number(n)) => Some(n)
              case _ => None
  {
    hide Find, IsObject, IsIdentifier, IsStyle, EscapedText, PrintObject, Copied, EndsValue, GetStr, GetU32;
    var t := PrintObject(ms, y);
    FindInObject(ms, y, key);
    LookupIsField(ms, key);
    match Lookup(ms, key)
    case None => ExtractAbsent(t, key, cap);
    case Some(Text(s)) => ExtractText(t, key, s, cap);
    case Some(Number(n)) => ExtractNumber(t, key, n, cap);
  }

  lemma ExtractAbsent(t: string, key: string, cap: nat)
    requires cap > 0 && Find(t, key) == None
    ensures GetStr(t, key, cap) == None && GetU32(t, key) == None
  {
  }

  lemma ExtractText(t: string, key: string, s: string, cap: nat)
    requires cap > 0 && Find(t, key).Some? && Find(t, key).value <= |t| && '\0' !in s
    requires exists rest :: EndsValue(rest) && t[Find(t, key).value..] == PrintField(Text(s)) + rest
    ensures GetStr(t, key, cap) == (if |s| < cap then Some(s) else None) && GetU32(t, key) == None
  {
    hide Find, EndsValue, EscapedText, Copied;
    var v := Find(t, key).value;
    var rest :| EndsValue(rest) && t[v..] == PrintField(Text(s)) + rest;
    assert t[v..][0] == t[v];
    assert t[v + 1..] == t[v..][1..] == EscapedText(s) + "\"" + rest;
    CopyEscaped(t, v + 1, s, rest, cap - 1);
  }

  lemma ExtractNumber(t: string, key: string, n: nat, cap: nat)
    requires cap > 0 && Find(t, key).Some? && Find(t, key).value <= |t| && n < TWO32
    requires exists rest :: EndsValue(rest) && t[Find(t, key).value..] == PrintField(Number(n)) + rest
    ensures GetStr(t, key, cap) == None && GetU32(t, key) == Some(n)
  {
    hide Find, EndsValue, Copied;
    var v := Find(t, key).value;
    var rest :| EndsValue(rest) && t[v..] == PrintField(Number(n)) + rest;
    assert t[v..][0] == t[v] == Decimal.Print(n)[0];
    assert t[v] in Decimal.Print(n);
    DigitsOfPrinted(t, v, n, rest);
  }

  lemma {:induction false} LookupIsField(ms: seq<Member>, key: string)
    requires IsObject(ms)
    ensures Lookup(ms, key).Some? ==> IsField(Lookup(ms, key).value)
  {
    if ms != [] {
      LookupIsField(ms[1..], key);
    }
  }

  /** With distinct keys, a member is what its key looks up. */
  lemma {:induction false} LookupMember(ms: seq<Member>, i: nat)
    requires IsObject(ms) && i < |ms|
    ensures Lookup(ms, ms[i].key) == Some(ms[i].value)
  {
    if i > 0 {
      LookupMember(ms[1..], i - 1);
    }
  }
}
