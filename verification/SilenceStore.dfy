/**
 The signed alert silences an agent honours (`silence_store.rs`), the set that decides which one governs an alert
 (`bowery-analysis/src/silence.rs`), and the file they survive a restart in.

 The signature scheme is ideal: `Config.genuine` is the set of (operator, bytes, signature) triples some operator key
 holder produced. The record and base64 codecs are parameters with the laws of `Faithful`.
 */
module SilenceStore {
  import opened Basics

  newtype byte = x: int | 0 <= x < 256
  type Bytes = seq<byte>
  type u32 = x: nat | x < 0x1_0000_0000
  type u64 = x: nat | x < 0x1_0000_0000_0000_0000

  // -- Records and what is signed ---------------------------------------------------------------------

  datatype Record = Record(id: Bytes, cluster: Bytes, rule: Bytes, sha: Bytes, path: Bytes, host: Bytes, permille: u32,
                           reason: Bytes, issued: u64, expires: u64, operator: Bytes, sig: Bytes)

  const FULL_WEIGHT: u32 := 1000

  /** The `k` low-order bytes of `n`, most significant first. */
  function BigEndian(n: nat, k: nat): (b: Bytes)
    ensures |b| == k
  {
    if k == 0 then [] else BigEndian(n / 256, k - 1) + [(n % 256) as byte]
  }

  function Power256(k: nat): nat
  {
    if k == 0 then 1 else 256 * Power256(k - 1)
  }

  lemma {:induction false} BigEndianIsInjective(m: nat, n: nat, k: nat)
    requires m < Power256(k) && n < Power256(k) && BigEndian(m, k) == BigEndian(n, k)
    ensures m == n
  {
    if k > 0 {
      var a, b := BigEndian(m / 256, k - 1), BigEndian(n / 256, k - 1);
      assert a == (a + [(m % 256) as byte])[..k - 1] && b == (b + [(n % 256) as byte])[..k - 1];
      assert (a + [(m % 256) as byte])[k - 1] == (b + [(n % 256) as byte])[k - 1];
      BigEndianIsInjective(m / 256, n / 256, k - 1);
    }
  }

  /** A field behind its saturating 32-bit length. */
  function Prefixed(field: Bytes): Bytes
  {
    BigEndian(Min(|field|, 0xFFFF_FFFF), 4) + field
  }

  function PrefixedAll(fields: seq<Bytes>): Bytes
  {
    if fields == [] then [] else Prefixed(fields[0]) + PrefixedAll(fields[1..])
  }

  function Fields(r: Record): seq<Bytes>
  {
    [r.id, r.cluster, r.rule, r.sha, r.path, r.host, r.reason]
  }

  function Numbers(r: Record): (b: Bytes)
    ensures |b| == 20
  {
    BigEndian(r.permille, 4) + BigEndian(r.issued, 8) + BigEndian(r.expires, 8)
  }

  /** What an operator's signature covers, after the constant domain prefix; nothing when the fingerprint has the
      wrong size. */
  function SigningInput(r: Record): Option<Bytes>
  {
    if |r.operator| != 32 then None else Some(PrefixedAll(Fields(r)) + (Numbers(r) + r.operator))
  }

  predicate Fits(field: Bytes)
  {
    |field| <= 0xFFFF_FFFF
  }

  lemma PrefixedSplits(f: Bytes, g: Bytes, x: Bytes, y: Bytes)
    requires Fits(f) && Fits(g) && Prefixed(f) + x == Prefixed(g) + y
    ensures f == g && x == y
  {
    var p, q := Prefixed(f) + x, Prefixed(g) + y;
    var a, b := BigEndian(|f|, 4), BigEndian(|g|, 4);
    assert a == p[..4] && b == q[..4];
    assert Power256(4) == 256 * Power256(3) && Power256(3) == 256 * Power256(2) && Power256(2) == 256 * Power256(1);
    BigEndianIsInjective(|f|, |g|, 4);
    assert f == p[4..4 + |f|] && g == q[4..4 + |g|];
    assert x == p[4 + |f|..] && y == q[4 + |g|..];
  }

  lemma {:induction false} PrefixedAllSplits(fs: seq<Bytes>, gs: seq<Bytes>, x: Bytes, y: Bytes)
    requires |fs| == |gs| && PrefixedAll(fs) + x == PrefixedAll(gs) + y
    requires forall i :: 0 <= i < |fs| ==> Fits(fs[i]) && Fits(gs[i])
    ensures fs == gs && x == y
    decreases |fs|
  {
    if fs == [] {
      assert PrefixedAll(fs) + x == x && PrefixedAll(gs) + y == y;
    } else {
      var fx, gy := PrefixedAll(fs[1..]) + x, PrefixedAll(gs[1..]) + y;
      assert PrefixedAll(fs) + x == Prefixed(fs[0]) + fx;
      assert PrefixedAll(gs) + y == Prefixed(gs[0]) + gy;
      PrefixedSplits(fs[0], gs[0], fx, gy);
      PrefixedAllSplits(fs[1..], gs[1..], x, y);
      assert fs == [fs[0]] + fs[1..] && gs == [gs[0]] + gs[1..];
    }
  }

  lemma NumbersAreInjective(r: Record, s: Record)
    requires Numbers(r) == Numbers(s)
    ensures r.permille == s.permille && r.issued == s.issued && r.expires == s.expires
  {
    var p, q := Numbers(r), Numbers(s);
    assert p[..4] == BigEndian(r.permille, 4) && q[..4] == BigEndian(s.permille, 4);
    assert p[4..12] == BigEndian(r.issued, 8) && q[4..12] == BigEndian(s.issued, 8);
    assert p[12..] == BigEndian(r.expires, 8) && q[12..] == BigEndian(s.expires, 8);
    var k4 := Power256(4);
    assert k4 == 0x1_0000_0000;
    assert Power256(8) == 256 * (256 * (256 * (256 * k4)));
    BigEndianIsInjective(r.permille, s.permille, 4);
    BigEndianIsInjective(r.issued, s.issued, 8);
    BigEndianIsInjective(r.expires, s.expires, 8);
  }

  /** No two judgements sign alike: no boundary between fields can be shifted, so equal signed bytes mean equal
      records in every field but the signature. */
  lemma SigningInputIsInjective(r: Record, s: Record)
    requires SigningInput(r).Some? && SigningInput(r) == SigningInput(s)
    requires forall i :: 0 <= i < 7 ==> Fits(Fields(r)[i]) && Fits(Fields(s)[i])
    ensures r.(sig := []) == s.(sig := [])
  {
    var x, y := Numbers(r) + r.operator, Numbers(s) + s.operator;
    PrefixedAllSplits(Fields(r), Fields(s), x, y);
    assert x[..20] == Numbers(r) && y[..20] == Numbers(s) && x[20..] == r.operator && y[20..] == s.operator;
    NumbersAreInjective(r, s);
    forall i | 0 <= i < 7 ensures Fields(r)[i] == Fields(s)[i] {
    }
    assert Fields(r)[0] == Fields(s)[0] && Fields(r)[1] == Fields(s)[1] && Fields(r)[2] == Fields(s)[2];
    assert Fields(r)[3] == Fields(s)[3] && Fields(r)[4] == Fields(s)[4] && Fields(r)[5] == Fields(s)[5];
    assert Fields(r)[6] == Fields(s)[6];
  }

  // -- Silences and what they cover -------------------------------------------------------------------

  datatype Subject = Subject(rule: Bytes, sha: Bytes, path: Bytes, host: Bytes)

  function Digit(n: int): byte
    requires 0 <= n < 16
  {
    if n < 10 then (48 + n) as byte else (87 + n) as byte
  }

  function HexLower(b: Bytes): Bytes
  {
    if b == [] then [] else [Digit(b[0] as int / 16), Digit(b[0] as int % 16)] + HexLower(b[1..])
  }

  datatype Spec = Spec(rule: Bytes, sha: Bytes, path: Bytes, host: Bytes)
  {
    function Constrains(): nat
    {
      (if rule == [] then 0 else 1) + (if sha == [] then 0 else 1) + (if path == [] then 0 else 1) +
        (if host == [] then 0 else 1)
    }

    predicate Matches(s: Subject)
    {
      Constrains() != 0 && Field(rule, s.rule) && Field(sha, s.sha) && Field(path, s.path) && Field(host, s.host)
    }
  }

  predicate Field(pattern: Bytes, value: Bytes)
  {
    pattern == [] || pattern == value
  }

  datatype Silence = Silence(id: Bytes, spec: Spec, weight: real, reason: Bytes, issued: nat, expires: nat)

  function SpecOf(r: Record): Spec
  {
    Spec(r.rule, r.sha, r.path, HexLower(r.host))
  }

  function Convert(r: Record): Silence
  {
    Silence(r.id, SpecOf(r), Min(r.permille, FULL_WEIGHT) as real / 1000.0, r.reason, r.issued, r.expires)
  }

  // -- Verification ----------------------------------------------------------------------------------

  datatype Rejected =
    | Malformed | UntrustedOperator | BadSignature | ClusterMismatch | Expired | NoExpiry | Unconstrained | Full

  datatype Config = Config(cluster: Bytes, operators: set<Bytes>, genuine: set<(Bytes, Bytes, Bytes)>, cap: nat)

  /** Why a record is refused at `now`, in the order the checks are made. */
  function Verify(c: Config, r: Record, now: nat): Option<Rejected>
  {
    if r.cluster != c.cluster then Some(ClusterMismatch)
    else if r.expires == 0 then Some(NoExpiry)
    else if r.expires <= now then Some(Expired)
    else if SpecOf(r).Constrains() == 0 then Some(Unconstrained)
    else if |r.operator| != 32 then Some(Malformed)
    else if r.operator !in c.operators then Some(UntrustedOperator)
    else if |r.sig| != 64 then Some(BadSignature)
    else match SigningInput(r)
      case None => Some(Malformed)
      case Some(input) => if (r.operator, input, r.sig) in c.genuine then None else Some(BadSignature)
  }

  /** A configured operator signed exactly this judgement, for this cluster, and it names something. */
  predicate Sound(c: Config, r: Record)
  {
    && r.cluster == c.cluster
    && (r.rule != [] || r.sha != [] || r.path != [] || r.host != [])
    && r.operator in c.operators && |r.sig| == 64
    && SigningInput(r).Some? && (r.operator, SigningInput(r).value, r.sig) in c.genuine
  }

  lemma VerifiedMeansSound(c: Config, r: Record, now: nat)
    ensures Verify(c, r, now) == None <==> Sound(c, r) && now < r.expires
  {
    assert HexLower(r.host) == [] <==> r.host == [];
  }

  // -- The three maps --------------------------------------------------------------------------------

  datatype Count = Count(matched: nat, last: nat)

  /** The set, the match counters and the raw records, all keyed by silence id. */
  datatype State = State(held: map<Bytes, Silence>, counts: map<Bytes, Count>, meta: map<Bytes, Record>)

  const NOTHING := State(map[], map[], map[])

  /** A re-issue replaces what is held unless what is held was issued later. */
  function SetAfter(held: map<Bytes, Silence>, s: Silence): map<Bytes, Silence>
  {
    if s.id in held && held[s.id].issued > s.issued then held else held[s.id := s]
  }

  predicate Changes(s: State, r: Record)
  {
    r.id !in s.held || SetAfter(s.held, Convert(r))[r.id] != s.held[r.id]
  }

  function Insert(s: State, r: Record): State
  {
    var held := SetAfter(s.held, Convert(r));
    if Changes(s, r) then
      State(held, if r.id in s.counts then s.counts else s.counts[r.id := Count(0, 0)], s.meta[r.id := r])
    else
      s.(held := held)
  }

  datatype Answer = Accepted(changed: bool) | Refused(why: Rejected)

  function AnswerTo(c: Config, s: State, r: Record, now: nat): Answer
  {
    if Verify(c, r, now).Some? then Refused(Verify(c, r, now).value)
    else if |s.held| >= c.cap && r.id !in s.held then Refused(Full)
    else Accepted(Changes(s, r))
  }

  function AfterAccept(c: Config, s: State, r: Record, now: nat): State
  {
    if AnswerTo(c, s, r, now).Refused? then s else Insert(s, r)
  }

  function Live(held: map<Bytes, Silence>, now: nat): map<Bytes, Silence>
  {
    map id | id in held && now < held[id].expires :: held[id]
  }

  function Only<V>(m: map<Bytes, V>, ids: set<Bytes>): map<Bytes, V>
  {
    map id | id in m && id in ids :: m[id]
  }

  function AfterSweep(s: State, now: nat): State
  {
    var live := Live(s.held, now);
    if live == s.held then s
    else State(live, Only(s.counts, live.Keys), Only(s.meta, live.Keys))
  }

  /** What a restart at `now` makes of a store whose file is in step with it: the live silences, with no match
      counted. */
  function AfterRestart(s: State, now: nat): State
  {
    var live := Live(s.held, now);
    State(live, map id | id in live :: Count(0, 0), Only(s.meta, live.Keys))
  }

  /** The three maps hold the same ids, and each record converts to what the set holds under its id. */
  predicate Agree(s: State)
  {
    && s.held.Keys == s.counts.Keys == s.meta.Keys
    && forall id :: id in s.meta ==> s.meta[id].id == id && Convert(s.meta[id]) == s.held[id]
  }

  lemma InsertAgrees(s: State, r: Record)
    requires Agree(s)
    ensures Agree(Insert(s, r)) && r.id in Insert(s, r).held
    ensures !Changes(s, r) ==> Insert(s, r) == s
    ensures Insert(s, r).meta == s.meta || Insert(s, r).meta == s.meta[r.id := r]
  {
    if !Changes(s, r) {
      assert SetAfter(s.held, Convert(r)) == s.held;
    }
  }

  /** What an offered record comes to, in an agreeing store: it is accepted exactly when it is sound, not expired, and
      known or there is room; it then stands under its id unless what stood there was issued later; the answer says
      changed exactly when something changed; and every other silence, and every match counted so far, stays. */
  lemma AcceptMeans(c: Config, s: State, r: Record, now: nat)
    requires Agree(s)
    ensures AnswerTo(c, s, r, now).Accepted? <==>
      Sound(c, r) && now < r.expires && (r.id in s.held || |s.held| < c.cap)
    ensures AnswerTo(c, s, r, now).Refused? ==> AfterAccept(c, s, r, now) == s
    ensures AnswerTo(c, s, r, now) == Accepted(true) ==> AfterAccept(c, s, r, now) != s
    ensures AnswerTo(c, s, r, now) == Accepted(false) ==> AfterAccept(c, s, r, now) == s
    ensures AnswerTo(c, s, r, now).Accepted? ==>
      var t := AfterAccept(c, s, r, now);
      && t.held == (if r.id in s.held && s.held[r.id].issued > r.issued then s.held else s.held[r.id := Convert(r)])
      && t.counts == (if r.id in s.held then s.counts else s.counts[r.id := Count(0, 0)])
  {
    VerifiedMeansSound(c, r, now);
    InsertAgrees(s, r);
  }

  /** Whoever refuses a record names a fault it has. */
  lemma RefusedForAReason(c: Config, s: State, r: Record, now: nat)
    requires AnswerTo(c, s, r, now).Refused?
    ensures match AnswerTo(c, s, r, now).why
      case ClusterMismatch => r.cluster != c.cluster
      case NoExpiry => r.expires == 0
      case Expired => 0 < r.expires <= now
      case Unconstrained => r.rule == [] && r.sha == [] && r.path == [] && r.host == []
      case Malformed => |r.operator| != 32
      case UntrustedOperator => |r.operator| == 32 && r.operator !in c.operators
      case BadSignature =>
        |r.sig| != 64 || (SigningInput(r).Some? && (r.operator, SigningInput(r).value, r.sig) !in c.genuine)
      case Full => Sound(c, r) && now < r.expires && |s.held| >= c.cap && r.id !in s.held
  {
    VerifiedMeansSound(c, r, now);
    assert HexLower(r.host) == [] <==> r.host == [];
  }

  lemma CountAgrees(s: State, id: Bytes, n: Count)
    requires Agree(s) && id in s.counts
    ensures Agree(s.(counts := s.counts[id := n]))
  {
    assert s.counts[id := n].Keys == s.counts.Keys;
  }

  lemma SweepAgrees(s: State, now: nat)
    requires Agree(s)
    ensures Agree(AfterSweep(s, now)) && AfterSweep(s, now).held == Live(s.held, now)
    ensures forall id :: id in AfterSweep(s, now).meta <==> id in s.meta && now < s.meta[id].expires
    ensures forall id :: id in AfterSweep(s, now).meta ==>
      AfterSweep(s, now).meta[id] == s.meta[id] && AfterSweep(s, now).counts[id] == s.counts[id]
  {
    var live := Live(s.held, now);
    if live == s.held {
      forall id | id in s.meta ensures now < s.meta[id].expires {
        assert id in live;
      }
    }
  }

  // -- The file ---------------------------------------------------------------------------------------

  datatype Codec = Codec(enc: Record -> string, dec: string -> Option<Record>)

  predicate Base64Char(c: char)
  {
    'A' <= c <= 'Z' || 'a' <= c <= 'z' || '0' <= c <= '9' || c == '+' || c == '/' || c == '='
  }

  predicate Base64(s: string)
  {
    forall i :: 0 <= i < |s| ==> Base64Char(s[i])
  }

  /** The laws of a protobuf record in base64: decoding undoes encoding, the text uses the base64 alphabet (section 4 of
      RFC 4648), and a record with a non-zero field has a non-empty encoding. */
  ghost predicate Faithful(k: Codec)
  {
    forall r :: k.dec(k.enc(r)) == Some(r) && Base64(k.enc(r)) && (r.expires > 0 ==> k.enc(r) != "")
  }

  const COMMENT := "# operator-signed alert "
  const HEADER := COMMENT + "silences; re-verified on load"

  function Body(k: Codec, recs: seq<Record>): string
  {
    if recs == [] then "" else k.enc(recs[0]) + "\n" + Body(k, recs[1..])
  }

  function Render(k: Codec, recs: seq<Record>): string
  {
    HEADER + "\n" + Body(k, recs)
  }

  function LineEnd(raw: string): (k: nat)
    ensures k <= |raw|
  {
    if raw == "" || raw[0] == '\n' then 0 else 1 + LineEnd(raw[1..])
  }

  function Lines(raw: string): seq<string>
    decreases |raw|
  {
    if raw == "" then []
    else
      var k := LineEnd(raw);
      [raw[..k]] + if k < |raw| then Lines(raw[k + 1..]) else []
  }

  predicate White(c: char)
  {
    || '\t' <= c <= '\r' || c == ' ' || c == '\U{85}' || c == '\U{A0}' || c == '\U{1680}' ||
      '\U{2000}' <= c <= '\U{200A}'
    || c == '\U{2028}' || c == '\U{2029}' || c == '\U{202F}' || c == '\U{205F}' || c == '\U{3000}'
  }

  function Trim(s: string): string
    decreases |s|
  {
    if s == "" then ""
    else if White(s[0]) then Trim(s[1..])
    else if White(s[|s| - 1]) then Trim(s[..|s| - 1])
    else s
  }

  /** What a line of the file contributes: nothing when it is blank, a comment, undecodable or does not verify. */
  function LineRecord(c: Config, k: Codec, line: string, now: nat): Option<Record>
  {
    var text := Trim(line);
    if text == "" || text[0] == '#' then None
    else if k.dec(text) == None then None
    else if Verify(c, k.dec(text).value, now).Some? then None
    else k.dec(text)
  }

  function LoadLines(c: Config, k: Codec, lines: seq<string>, now: nat): State
  {
    if lines == [] then NOTHING
    else
      After(LoadLines(c, k, lines[..|lines| - 1], now), LineRecord(c, k, lines[|lines| - 1], now))
  }

  function After(s: State, r: Option<Record>): State
  {
    if r == None then s else Insert(s, r.value)
  }

  lemma LoadOneMore(c: Config, k: Codec, lines: seq<string>, i: nat, now: nat)
    requires i < |lines|
    ensures LoadLines(c, k, lines[..i + 1], now) ==
      After(LoadLines(c, k, lines[..i], now), LineRecord(c, k, lines[i], now))
  {
    assert lines[..i + 1][..i] == lines[..i];
  }

  function Loaded(c: Config, k: Codec, file: string, now: nat): State
  {
    LoadLines(c, k, Lines(file), now)
  }

  /** `recs` lists the values of a record map, each once, in some order. */
  predicate Lists(recs: seq<Record>, meta: map<Bytes, Record>)
  {
    && DistinctIds(recs)
    && (forall i :: 0 <= i < |recs| ==> recs[i].id in meta && meta[recs[i].id] == recs[i])
    && (forall id :: id in meta ==> meta[id] in recs)
  }

  predicate DistinctIds(recs: seq<Record>)
  {
    forall i, j :: 0 <= i < j < |recs| ==> recs[i].id != recs[j].id
  }

  lemma {:induction false} LineEndAfter(line: string, rest: string)
    requires '\n' !in line
    ensures LineEnd(line + "\n" + rest) == |line|
  {
    var raw := line + "\n" + rest;
    if line == "" {
      assert raw[0] == '\n';
    } else {
      assert raw[0] == line[0] && raw[1..] == line[1..] + "\n" + rest;
      LineEndAfter(line[1..], rest);
    }
  }

  lemma LinesAfter(line: string, rest: string)
    requires '\n' !in line
    ensures Lines(line + "\n" + rest) == [line] + Lines(rest)
  {
    var raw := line + "\n" + rest;
    LineEndAfter(line, rest);
    assert raw[..|line|] == line && raw[|line| + 1..] == rest;
  }

  function Texts(k: Codec, recs: seq<Record>): seq<string>
  {
    seq(|recs|, i requires 0 <= i < |recs| => k.enc(recs[i]))
  }

  lemma {:induction false} LinesOfBody(k: Codec, recs: seq<Record>)
    requires Faithful(k)
    ensures Lines(Body(k, recs)) == Texts(k, recs)
    decreases |recs|
  {
    if recs != [] {
      assert Base64(k.enc(recs[0]));
      LinesAfter(k.enc(recs[0]), Body(k, recs[1..]));
      LinesOfBody(k, recs[1..]);
      assert Texts(k, recs) == [k.enc(recs[0])] + Texts(k, recs[1..]);
    }
  }

  /** Splitting what was written into lines gives back the comment and one line per record. */
  lemma LinesOfRender(k: Codec, recs: seq<Record>)
    requires Faithful(k)
    ensures Lines(Render(k, recs)) == [HEADER] + Texts(k, recs)
  {
    assert '\n' !in COMMENT && '\n' !in HEADER;
    LinesAfter(HEADER, Body(k, recs));
    LinesOfBody(k, recs);
  }

  /** A record's own line is never taken for a blank or a comment. */
  lemma LineOfRecord(c: Config, k: Codec, r: Record, now: nat)
    requires Faithful(k) && Sound(c, r) && r.expires > 0
    ensures LineRecord(c, k, k.enc(r), now) == if now < r.expires then Some(r) else None
  {
    var text := k.enc(r);
    assert Base64(text) && text != "" && k.dec(text) == Some(r);
    assert Base64Char(text[0]) && Base64Char(text[|text| - 1]);
    assert Trim(text) == text;
    VerifiedMeansSound(c, r, now);
  }

  predicate Blank(s: string) { forall i :: 0 <= i < |s| ==> White(s[i]) }

  predicate Tight(s: string) { s == "" || (!White(s[0]) && !White(s[|s| - 1])) }

  /** Trimming takes the white space off both ends, and nothing else. */
  lemma {:induction false} TrimSplits(s: string) returns (i: nat, j: nat)
    ensures i <= j <= |s| && Trim(s) == s[i..j] && Tight(Trim(s))
    ensures (forall k :: 0 <= k < i ==> White(s[k])) && forall k :: j <= k < |s| ==> White(s[k])
    decreases |s|
  {
    i, j := 0, |s|;
    if s != "" && White(s[0]) {
      var rest := s[1..];
      var x, y := TrimSplits(rest);
      i, j := x + 1, y + 1;
      assert rest[x..y] == s[i..j] && forall k :: 0 < k < |s| ==> s[k] == rest[k - 1];
    } else if s != "" && White(s[|s| - 1]) {
      var front := s[..|s| - 1];
      i, j := TrimSplits(front);
      assert front[i..j] == s[i..j] && forall k :: 0 <= k < |front| ==> s[k] == front[k];
    } else {
      assert s[0..|s|] == s;
    }
  }

  lemma {:induction false} TrimFront(before: string, s: string)
    requires Blank(before)
    ensures Trim(before + s) == Trim(s)
    decreases |before|
  {
    if before == "" {
      assert before + s == s;
    } else {
      assert White(before[0]) && (before + s)[0] == before[0] && (before + s)[1..] == before[1..] + s;
      TrimFront(before[1..], s);
    }
  }

  lemma {:induction false} TrimBack(text: string, after: string)
    requires Blank(after) && text != "" && Tight(text)
    ensures Trim(text + after) == text
    decreases |after|
  {
    var s, n := text + after, |after| - 1;
    if after == "" {
      assert s == text;
    } else {
      assert White(after[n]) && s[|s| - 1] == after[n] && s[0] == text[0] && s[..|s| - 1] == text + after[..n];
      TrimBack(text, after[..n]);
    }
  }

  lemma TrimOf(before: string, text: string, after: string)
    requires Blank(before) && Blank(after) && Tight(text)
    ensures Trim(before + text + after) == text
  {
    assert before + text + after == before + (text + after);
    TrimFront(before, text + after);
    if text == "" {
      assert text + after == after + "";
      TrimFront(after, "");
    } else {
      TrimBack(text, after);
    }
  }

  /** The line is this text in any amount of white space. */
  ghost predicate Pads(line: string, text: string)
  {
    exists before, after :: Blank(before) && Blank(after) && line == before + text + after
  }

  /** A line of the file counts exactly when, white space around it aside, it is not empty, not a comment, and decodes
      to a sound record that has not expired. */
  lemma LineCountsExactlyWhen(c: Config, k: Codec, line: string, now: nat, r: Record)
    ensures LineRecord(c, k, line, now) == Some(r) <==>
      exists text :: Tight(text) && Pads(line, text) && text != "" && text[0] != '#' && k.dec(text) == Some(r)
                     && Sound(c, r) && now < r.expires
  {
    var i, j := TrimSplits(line);
    assert Blank(line[..i]) && Blank(line[j..]) && line == line[..i] + Trim(line) + line[j..];
    assert Pads(line, Trim(line));
    forall text | Tight(text) && Pads(line, text) ensures text == Trim(line) {
      var x, y :| Blank(x) && Blank(y) && line == x + text + y;
      TrimOf(x, text, y);
    }
    VerifiedMeansSound(c, r, now);
  }

  function Unlines(lines: seq<string>): string
  {
    if lines == [] then "" else lines[0] + "\n" + Unlines(lines[1..])
  }

  lemma {:induction false} LineEndIs(raw: string)
    ensures '\n' !in raw[..LineEnd(raw)] && (LineEnd(raw) < |raw| ==> raw[LineEnd(raw)] == '\n')
  {
    if raw != "" && raw[0] != '\n' {
      LineEndIs(raw[1..]);
      assert raw[..LineEnd(raw)] == [raw[0]] + raw[1..][..LineEnd(raw[1..])];
    }
  }

  /** The text is the lines, the last with or without its newline. */
  predicate IsJoined(raw: string, lines: seq<string>)
  {
    Unlines(lines) == raw || Unlines(lines) == raw + "\n"
  }

  lemma JoinedAfter(line: string, rest: string, lines: seq<string>)
    requires IsJoined(rest, lines)
    ensures IsJoined(line + "\n" + rest, [line] + lines)
  {
    assert ([line] + lines)[1..] == lines;
    assert line + "\n" + rest + "\n" == line + "\n" + (rest + "\n");
  }

  lemma JoinedLast(line: string)
    ensures IsJoined(line, [line])
  {
    assert [line][1..] == [];
    assert line + "\n" + "" == line + "\n";
  }

  /** The lines of any file, put together again, are the file, up to a newline at its end. */
  lemma {:induction false} LinesAreAll(raw: string)
    ensures IsJoined(raw, Lines(raw)) && forall line :: line in Lines(raw) ==> '\n' !in line
    decreases |raw|
  {
    if raw != "" {
      var n := LineEnd(raw);
      LineEndIs(raw);
      if n < |raw| {
        LinesAreAll(raw[n + 1..]);
        JoinedAfter(raw[..n], raw[n + 1..], Lines(raw[n + 1..]));
        assert raw == raw[..n] + "\n" + raw[n + 1..];
      } else {
        assert raw[..n] == raw;
        JoinedLast(raw);
      }
    }
  }

  /** `meta` is exactly the records of `recs` that outlive `now`. */
  predicate LiveOf(meta: map<Bytes, Record>, recs: seq<Record>, now: nat)
  {
    && (forall i :: 0 <= i < |recs| && now < recs[i].expires ==> recs[i].id in meta && meta[recs[i].id] == recs[i])
    && (forall id :: id in meta ==> meta[id] in recs && meta[id].id == id && now < meta[id].expires)
  }

  /** `s` holds exactly the records of `recs` that outlive `now`. */
  predicate HoldsLive(s: State, recs: seq<Record>, now: nat)
  {
    Agree(s) && LiveOf(s.meta, recs, now)
  }

  lemma LiveOfOneMore(meta: map<Bytes, Record>, recs: seq<Record>, r: Record, now: nat)
    requires LiveOf(meta, recs, now) && DistinctIds(recs + [r])
    ensures r.id !in meta
    ensures LiveOf(if now < r.expires then meta[r.id := r] else meta, recs + [r], now)
  {
    var all := recs + [r];
    forall i | 0 <= i < |recs| ensures recs[i].id != r.id {
      assert all[i] == recs[i] && all[|recs|] == r;
    }
  }

  lemma InsertHolds(s: State, recs: seq<Record>, r: Record, now: nat)
    requires HoldsLive(s, recs, now) && DistinctIds(recs + [r])
    ensures HoldsLive(if now < r.expires then Insert(s, r) else s, recs + [r], now)
  {
    LiveOfOneMore(s.meta, recs, r, now);
    InsertAgrees(s, r);
    assert Changes(s, r);
  }

  /** Every record is sound and has an expiry. */
  predicate Dated(c: Config, recs: seq<Record>)
  {
    forall i :: 0 <= i < |recs| ==> Sound(c, recs[i]) && recs[i].expires > 0
  }

  lemma DistinctFront(recs: seq<Record>, n: nat)
    requires DistinctIds(recs) && n <= |recs|
    ensures DistinctIds(recs[..n])
  {
  }

  lemma LoadAppend(c: Config, k: Codec, lines: seq<string>, line: string, now: nat)
    ensures LoadLines(c, k, lines + [line], now) == After(LoadLines(c, k, lines, now), LineRecord(c, k, line, now))
  {
    assert (lines + [line])[..|lines|] == lines;
  }

  lemma LoadOneRecord(c: Config, k: Codec, lines: seq<string>, recs: seq<Record>, r: Record, now: nat)
    requires Faithful(k) && DistinctIds(recs + [r]) && Sound(c, r) && r.expires > 0
    requires HoldsLive(LoadLines(c, k, lines, now), recs, now)
    ensures HoldsLive(LoadLines(c, k, lines + [k.enc(r)], now), recs + [r], now)
  {
    LoadAppend(c, k, lines, k.enc(r), now);
    LineOfRecord(c, k, r, now);
    InsertHolds(LoadLines(c, k, lines, now), recs, r, now);
  }

  lemma TextsAppend(k: Codec, start: seq<string>, recs: seq<Record>, r: Record)
    ensures start + Texts(k, recs + [r]) == start + Texts(k, recs) + [k.enc(r)]
  {
    assert Texts(k, recs + [r]) == Texts(k, recs) + [k.enc(r)];
  }

  lemma {:induction false} LoadAfter(c: Config, k: Codec, start: seq<string>, recs: seq<Record>, now: nat)
    requires Faithful(k) && DistinctIds(recs) && LoadLines(c, k, start, now) == NOTHING
    requires Dated(c, recs)
    ensures HoldsLive(LoadLines(c, k, start + Texts(k, recs), now), recs, now)
    decreases |recs|
  {
    if recs == [] {
      assert start + Texts(k, recs) == start;
    } else {
      var n := |recs| - 1;
      var front, r := recs[..n], recs[n];
      DistinctFront(recs, n);
      LoadAfter(c, k, start, front, now);
      assert recs == front + [r];
      LoadOneRecord(c, k, start + Texts(k, front), front, r, now);
      TextsAppend(k, start, front, r);
    }
  }

  /** Loading counts nothing. */
  lemma {:induction false} LoadCountsNothing(c: Config, k: Codec, lines: seq<string>, now: nat)
    ensures forall id :: id in LoadLines(c, k, lines, now).counts ==>
      LoadLines(c, k, lines, now).counts[id] == Count(0, 0)
  {
    if lines != [] {
      LoadCountsNothing(c, k, lines[..|lines| - 1], now);
    }
  }

  /** Loading the lines of a file that lists records with distinct ids gives exactly those that have not expired. */
  lemma LoadHolds(c: Config, k: Codec, recs: seq<Record>, now: nat)
    requires Faithful(k) && DistinctIds(recs)
    requires Dated(c, recs)
    ensures HoldsLive(LoadLines(c, k, [HEADER] + Texts(k, recs), now), recs, now)
  {
    HeaderIsAComment(c, k, now);
    LoadAppend(c, k, [], HEADER, now);
    assert [] + [HEADER] == [HEADER];
    LoadAfter(c, k, [HEADER], recs, now);
  }

  lemma HeaderIsAComment(c: Config, k: Codec, now: nat)
    ensures LineRecord(c, k, HEADER, now) == None
  {
    assert |COMMENT| == 24 && |HEADER| == 53;
    assert HEADER[0] == '#' && HEADER[52] == 'd';
    assert Trim(HEADER) == HEADER;
  }

  // -- Deciding --------------------------------------------------------------------------------------

  function Clamp(x: real): real
  {
    if x < 0.0 then 0.0 else if x > 1.0 then 1.0 else x
  }

  /** The suspicion a silence leaves behind: never more than there was, and all of it at full weight, which is how a
      silence is revoked. */
  function Damp(suspicion: real, weight: real): (to: real)
    ensures 0.0 <= suspicion <= 1.0 ==> 0.0 <= to <= suspicion
    ensures 0.0 <= suspicion <= 1.0 && weight >= 1.0 ==> to == suspicion
  {
    Clamp(Scaled(suspicion, Clamp(weight)))
  }

  function Scaled(x: real, w: real): (r: real)
    requires 0.0 <= w <= 1.0
    ensures 0.0 <= x ==> 0.0 <= r <= x
    ensures w == 1.0 ==> r == x
  {
    Product(x, w);
    x * w
  }

  lemma Product(x: real, w: real)
    requires 0.0 <= w <= 1.0
    ensures 0.0 <= x ==> 0.0 <= x * w <= x
    ensures w == 1.0 ==> x * w == x
  {
    if w == 1.0 {
      assert x * 1.0 == x;
    } else if 0.0 <= x {
      assert x * w <= x * 1.0;
    }
  }

  datatype Decision = Unaffected | Damped(id: Bytes, reason: Bytes, from: real, to: real)

  predicate Covers(s: Silence, subject: Subject, now: nat)
  {
    now < s.expires && s.spec.Matches(subject)
  }

  /** More fields pinned down, or as many and issued later. */
  predicate Beats(a: Silence, b: Silence)
  {
    a.spec.Constrains() > b.spec.Constrains() || (a.spec.Constrains() == b.spec.Constrains() && a.issued > b.issued)
  }

  /** The live silence that covers the subject and that no other such silence beats. */
  predicate Governs(held: map<Bytes, Silence>, id: Bytes, subject: Subject, now: nat)
  {
    && id in held && Covers(held[id], subject, now)
    && forall other :: other in held && Covers(held[other], subject, now) ==> !Beats(held[other], held[id])
  }

  /** `best` governs as far as the ids in `seen` are concerned. */
  predicate Best(held: map<Bytes, Silence>, seen: set<Bytes>, best: Option<Bytes>, subject: Subject, now: nat)
  {
    match best
    case None => forall id :: id in held && id in seen ==> !Covers(held[id], subject, now)
    case Some(b) =>
      && b in held && Covers(held[b], subject, now)
      && forall id :: id in held && id in seen && Covers(held[id], subject, now) ==> !Beats(held[id], held[b])
  }

  function Better(held: map<Bytes, Silence>, best: Option<Bytes>, id: Bytes, subject: Subject, now: nat): Option<Bytes>
    requires id in held && (best.Some? ==> best.value in held)
  {
    if Covers(held[id], subject, now) && (best == None || !Beats(held[best.value], held[id])) then Some(id) else best
  }

  lemma BeatsIsAnOrder(a: Silence, b: Silence, c: Silence)
    ensures !Beats(a, b) && !Beats(b, c) ==> !Beats(a, c)
    ensures !Beats(a, a)
  {
  }

  lemma BestStep(held: map<Bytes, Silence>, seen: set<Bytes>, best: Option<Bytes>, id: Bytes, subject: Subject,
      now: nat)
    requires Best(held, seen, best, subject, now) && id in held
    ensures Best(held, seen + {id}, Better(held, best, id, subject, now), subject, now)
  {
    var next := Better(held, best, id, subject, now);
    if next.Some? {
      forall other | other in held && other in seen + {id} && Covers(held[other], subject, now)
        ensures !Beats(held[other], held[next.value])
      {
        BeatsIsAnOrder(held[other], if best.Some? then held[best.value] else held[id], held[next.value]);
        BeatsIsAnOrder(held[id], held[id], held[id]);
      }
    }
  }

  /** The most specific live silence that covers the subject, the latest issued among equals, scanned in any order. */
  method Governing(held: map<Bytes, Silence>, subject: Subject, now: nat) returns (best: Option<Bytes>)
    ensures best == None <==> forall id :: id in held ==> !Covers(held[id], subject, now)
    ensures best.Some? ==> Governs(held, best.value, subject, now)
  {
    var todo := held.Keys;
    best := None;
    while todo != {}
      invariant todo <= held.Keys && Best(held, held.Keys - todo, best, subject, now)
      decreases todo
    {
      var id :| id in todo;
      BestStep(held, held.Keys - todo, best, id, subject, now);
      best := Better(held, best, id, subject, now);
      assert held.Keys - (todo - {id}) == (held.Keys - todo) + {id};
      todo := todo - {id};
    }
    assert held.Keys - todo == held.Keys;
  }

  // -- What a record covers, on its own fields ----------------------------------------------------------

  const HEX_DIGITS: Bytes := [48, 49, 50, 51, 52, 53, 54, 55, 56, 57, 97, 98, 99, 100, 101, 102]

  /** The text spells the bytes in lower-case hexadecimal, two digits each. */
  predicate Spells(text: Bytes, b: Bytes)
  {
    && |text| == 2 * |b|
    && forall i :: 0 <= i < |b| ==>
         text[2 * i] == HEX_DIGITS[b[i] as int / 16] && text[2 * i + 1] == HEX_DIGITS[b[i] as int % 16]
  }

  lemma {:induction false} HexSpells(b: Bytes)
    ensures Spells(HexLower(b), b)
  {
    if b != [] {
      HexSpells(b[1..]);
      var text, rest := HexLower(b), HexLower(b[1..]);
      forall i | 0 <= i < |b|
        ensures text[2 * i] == HEX_DIGITS[b[i] as int / 16] && text[2 * i + 1] == HEX_DIGITS[b[i] as int % 16]
      {
        if i > 0 {
          assert text[2 * i] == rest[2 * (i - 1)] && text[2 * i + 1] == rest[2 * (i - 1) + 1];
        }
      }
    }
  }

  lemma SpellsOnce(text: Bytes, other: Bytes, b: Bytes)
    requires Spells(text, b) && Spells(other, b)
    ensures text == other
  {
    forall k | 0 <= k < |text| ensures text[k] == other[k] {
      var i := k / 2;
      assert text[2 * i] == HEX_DIGITS[b[i] as int / 16] == other[2 * i];
      assert text[2 * i + 1] == HEX_DIGITS[b[i] as int % 16] == other[2 * i + 1];
    }
  }

  /** The judgement is about this alert, and in force: it has not expired, it names something, and every rule, hash and
      path it names is the alert's own, as is the host it names, spelt in hexadecimal. */
  predicate IsAbout(r: Record, subject: Subject, now: nat)
  {
    && now < r.expires
    && (r.rule != [] || r.sha != [] || r.path != [] || r.host != [])
    && (r.rule == [] || r.rule == subject.rule)
    && (r.sha == [] || r.sha == subject.sha)
    && (r.path == [] || r.path == subject.path)
    && (r.host == [] || Spells(subject.host, r.host))
  }

  /** How many of the four things the record names. */
  function Named(r: Record): nat
  {
    One(r.rule) + One(r.sha) + One(r.path) + One(r.host)
  }

  function One(field: Bytes): nat { if field == [] then 0 else 1 }

  /** What is stored covers an alert exactly when the record is about it. */
  lemma CoversExactlyWhen(r: Record, subject: Subject, now: nat)
    ensures Covers(Convert(r), subject, now) <==> IsAbout(r, subject, now)
  {
    HexSpells(r.host);
    if r.host != [] && Spells(subject.host, r.host) {
      SpellsOnce(subject.host, HexLower(r.host), r.host);
    }
  }

  /** And one silence beats another exactly when its record names more, or as much and was issued later. */
  lemma BeatsExactlyWhen(a: Record, b: Record)
    ensures Beats(Convert(a), Convert(b)) <==> Named(a) > Named(b) || (Named(a) == Named(b) && a.issued > b.issued)
  {
    ConstrainsIsNamed(a);
    ConstrainsIsNamed(b);
  }

  lemma ConstrainsIsNamed(r: Record)
    ensures SpecOf(r).Constrains() == Named(r)
  {
    assert HexLower(r.host) == [] <==> r.host == [];
  }

  /** The record under this id is about the alert, and no record about it names more, or as much and was issued
      later. */
  predicate IsInCharge(meta: map<Bytes, Record>, id: Bytes, subject: Subject, now: nat)
  {
    && id in meta && IsAbout(meta[id], subject, now)
    && forall other :: other in meta && IsAbout(meta[other], subject, now) ==>
         || Named(meta[other]) < Named(meta[id])
         || (Named(meta[other]) == Named(meta[id]) && meta[other].issued <= meta[id].issued)
  }

  /** What is left of a score: the share the record leaves, between 0 and 1. */
  predicate Leaves(r: Record, suspicion: real, to: real)
  {
    var share := suspicion * (if r.permille < 1000 then r.permille as real / 1000.0 else 1.0);
    0.0 <= to <= 1.0 && (to == share || (to == 0.0 && share < 0.0) || (to == 1.0 && share > 1.0))
  }

  /** Unaffected exactly when no record is about the alert; otherwise damped by one in charge, to what it leaves. */
  ghost predicate IsDecision(meta: map<Bytes, Record>, subject: Subject, suspicion: real, now: nat, d: Decision)
  {
    match d
    case Unaffected => forall id :: id in meta ==> !IsAbout(meta[id], subject, now)
    case Damped(id, reason, from, to) =>
      && IsInCharge(meta, id, subject, now)
      && reason == meta[id].reason && from == suspicion && Leaves(meta[id], suspicion, to)
  }

  lemma CoveredIsAbout(s: State, subject: Subject, now: nat)
    requires Agree(s)
    ensures forall id :: id in s.meta ==> (Covers(s.held[id], subject, now) <==> IsAbout(s.meta[id], subject, now))
  {
    forall id | id in s.meta ensures Covers(s.held[id], subject, now) <==> IsAbout(s.meta[id], subject, now) {
      CoversExactlyWhen(s.meta[id], subject, now);
    }
  }

  lemma GovernsMeansInCharge(s: State, id: Bytes, subject: Subject, now: nat)
    requires Agree(s)
    ensures Governs(s.held, id, subject, now) <==> IsInCharge(s.meta, id, subject, now)
  {
    CoveredIsAbout(s, subject, now);
    if id in s.meta {
      forall other | other in s.meta
        ensures Beats(s.held[other], s.held[id]) <==>
          || Named(s.meta[other]) > Named(s.meta[id])
          || (Named(s.meta[other]) == Named(s.meta[id]) && s.meta[other].issued > s.meta[id].issued)
      {
        BeatsExactlyWhen(s.meta[other], s.meta[id]);
      }
    }
  }

  lemma DampLeaves(r: Record, suspicion: real)
    ensures Leaves(r, suspicion, Damp(suspicion, Convert(r).weight))
  {
    var weight := Convert(r).weight;
    assert weight == if r.permille < 1000 then r.permille as real / 1000.0 else 1.0;
    assert Clamp(weight) == weight;
  }

  /** What becomes of a rewrite: no path is configured; it succeeds; the file cannot be opened and stays; or it was
      truncated and only the first `n` characters were written. */
  datatype Disk = NoPath | Writes | Locked | Cut(n: nat)

  /** The file after an operation: rewritten from the records when something changed, as far as the disk went along. */
  ghost predicate Written(k: Codec, before: string, after: string, meta: map<Bytes, Record>, changed: bool, disk: Disk)
  {
    if changed then Rewritten(k, before, after, meta, disk) else after == before
  }

  ghost predicate Rewritten(k: Codec, before: string, after: string, meta: map<Bytes, Record>, disk: Disk)
  {
    if disk == NoPath || disk == Locked then after == before
    else exists recs :: Lists(recs, meta) && after == OnDisk(Render(k, recs), disk)
  }

  function OnDisk(text: string, disk: Disk): string
  {
    if disk.Cut? then text[..Min(disk.n, |text|)] else text
  }

  class Store {
    const config: Config
    const codec: Codec
    var held: map<Bytes, Silence>
    var counts: map<Bytes, Count>
    var meta: map<Bytes, Record>
    var file: string

    ghost function Value(): State
      reads this
    {
      State(held, counts, meta)
    }

    ghost predicate Valid()
      reads this
    {
      Agree(Value())
    }

    /** Read the file back, re-verifying every line. */
    constructor Load(c: Config, k: Codec, raw: string, now: nat)
      ensures Valid() && Value() == Loaded(c, k, raw, now)
      ensures config == c && codec == k && file == raw
    {
      config, codec, file := c, k, raw;
      held, counts, meta := map[], map[], map[];
      new;
      var lines := Lines(raw);
      var i := 0;
      while i < |lines|
        invariant 0 <= i <= |lines| && config == c && codec == k && file == raw
        invariant Valid() && Value() == LoadLines(c, k, lines[..i], now)
      {
        LoadOneMore(c, k, lines, i, now);
        LoadLine(lines[i], now);
        i := i + 1;
      }
      assert lines[..i] == lines;
    }

    /** One line of the file: skipped, or inserted when it decodes and verifies. */
    method LoadLine(line: string, now: nat)
      requires Valid()
      modifies this`held, this`counts, this`meta
      ensures Valid() && Value() == After(old(Value()), LineRecord(config, codec, line, now))
    {
      var r := LineRecord(config, codec, line, now);
      if r.Some? {
        var _ := InsertVerified(r.value);
      }
    }

    method InsertVerified(r: Record) returns (changed: bool)
      requires Valid()
      modifies this`held, this`counts, this`meta
      ensures Valid() && Value() == Insert(old(Value()), r) && changed == Changes(old(Value()), r)
      ensures !changed ==> Value() == old(Value())
    {
      InsertAgrees(Value(), r);
      var had := r.id in held;
      var previous := if had then Some(held[r.id]) else None;
      held := SetAfter(held, Convert(r));
      changed := Some(held[r.id]) != previous;
      if changed {
        meta := meta[r.id := r];
        if r.id !in counts {
          counts := counts[r.id := Count(0, 0)];
        }
      }
    }

    /** Verify, store and persist; a copy that changes nothing does not rewrite the file. */
    method Accept(r: Record, now: nat, disk: Disk) returns (answer: Answer)
      requires Valid()
      modifies this
      ensures Valid() && Value() == AfterAccept(config, old(Value()), r, now)
      ensures answer == AnswerTo(config, old(Value()), r, now)
      ensures answer.Accepted? <==>
        Sound(config, r) && now < r.expires && (r.id in old(held) || |old(held)| < config.cap)
      ensures Written(codec, old(file), file, meta, answer == Accepted(true), disk)
    {
      AcceptMeans(config, Value(), r, now);
      var bad := Verify(config, r, now);
      if bad.Some? {
        return Refused(bad.value);
      }
      if |held| >= config.cap && r.id !in held {
        return Refused(Full);
      }
      var changed := Keep(r, disk);
      answer := Accepted(changed);
    }

    method Keep(r: Record, disk: Disk) returns (changed: bool)
      requires Valid()
      modifies this
      ensures Valid() && Value() == Insert(old(Value()), r) && changed == Changes(old(Value()), r)
      ensures Written(codec, old(file), file, meta, changed, disk)
    {
      changed := InsertVerified(r);
      if changed {
        Persist(disk);
      }
    }

    /** One line per record, in whatever order the map yields them. */
    method Text() returns (out: string)
      requires Valid()
      ensures exists recs :: Lists(recs, meta) && out == Render(codec, recs)
    {
      out := HEADER + "\n";
      var todo := meta.Keys;
      ghost var recs: seq<Record> := [];
      while todo != {}
        invariant todo <= meta.Keys && out == Render(codec, recs) && DistinctIds(recs)
        invariant forall i :: 0 <= i < |recs| ==>
          recs[i].id in meta && recs[i].id !in todo && meta[recs[i].id] == recs[i]
        invariant forall id :: id in meta && id !in todo ==> meta[id] in recs
        decreases todo
      {
        var id :| id in todo;
        out := out + codec.enc(meta[id]) + "\n";
        RenderAppend(codec, recs, meta[id]);
        recs := recs + [meta[id]];
        todo := todo - {id};
      }
      assert Lists(recs, meta);
    }

    /** Replace the file; a failure is logged and otherwise ignored. */
    method Persist(disk: Disk)
      requires Valid()
      modifies this`file
      ensures Rewritten(codec, old(file), file, meta, disk)
    {
      if disk == NoPath {
        return;
      }
      var out := Text();
      if disk != Locked {
        ghost var recs :| Lists(recs, meta) && out == Render(codec, recs);
        file := OnDisk(out, disk);
      }
    }

    /** What the governing silence makes of a score. */
    method Judge(subject: Subject, suspicion: real, now: nat) returns (d: Decision)
      requires Valid()
      ensures IsDecision(meta, subject, suspicion, now, d)
    {
      var best := Governing(held, subject, now);
      CoveredIsAbout(Value(), subject, now);
      if best == None {
        return Unaffected;
      }
      var id := best.value;
      GovernsMeansInCharge(Value(), id, subject, now);
      DampLeaves(meta[id], suspicion);
      d := Damped(id, held[id].reason, suspicion, Damp(suspicion, held[id].weight));
    }

    /** The decision, with its match counted, so a suppressed alert is never invisible. */
    method Decide(subject: Subject, suspicion: real, now: nat) returns (d: Decision)
      requires Valid()
      modifies this`counts
      ensures Valid()
      ensures IsDecision(meta, subject, suspicion, now, d)
      ensures d == Unaffected ==> counts == old(counts)
      ensures d.Damped? ==> counts == old(counts)[d.id := Count(old(counts)[d.id].matched + 1, now)]
    {
      d := Judge(subject, suspicion, now);
      if d.Damped? && d.id in counts {
        CountAgrees(Value(), d.id, Count(counts[d.id].matched + 1, now));
        counts := counts[d.id := Count(counts[d.id].matched + 1, now)];
      }
    }

    /** Drop what has expired from all three maps, and from the file when anything went. */
    method Sweep(now: nat, disk: Disk) returns (dropped: nat)
      requires Valid()
      modifies this
      ensures Valid() && Value() == AfterSweep(old(Value()), now)
      ensures dropped == |old(held)| - |held|
      ensures Written(codec, old(file), file, meta, Live(old(held), now) != old(held), disk)
    {
      var live := Live(held, now);
      LiveIsSmaller(held, now);
      dropped := |held| - |live|;
      if dropped > 0 {
        Retain(now);
        Persist(disk);
      }
    }

    /** Prune the three maps down to what is live. */
    method Retain(now: nat)
      requires Valid() && Live(held, now) != held
      modifies this`held, this`counts, this`meta
      ensures Valid() && Value() == AfterSweep(old(Value()), now) && held == Live(old(held), now)
    {
      SweepAgrees(Value(), now);
      var live := Live(held, now);
      held, counts, meta := live, Only(counts, live.Keys), Only(meta, live.Keys);
    }
  }

  lemma LiveIsSmaller(held: map<Bytes, Silence>, now: nat)
    ensures |Live(held, now)| <= |held|
    ensures |Live(held, now)| == |held| <==> Live(held, now) == held
  {
    var live := Live(held, now);
    assert live.Keys <= held.Keys;
    if live.Keys == held.Keys {
      assert live == held;
    } else {
      var id :| id in held && id !in live;
      SubsetFits(live.Keys, held.Keys - {id});
    }
    SubsetFits(live.Keys, held.Keys);
  }

  lemma RenderAppend(k: Codec, recs: seq<Record>, r: Record)
    ensures Render(k, recs + [r]) == Render(k, recs) + k.enc(r) + "\n"
  {
    BodyAppend(k, recs, r);
  }

  lemma {:induction false} BodyAppend(k: Codec, recs: seq<Record>, r: Record)
    ensures Body(k, recs + [r]) == Body(k, recs) + (k.enc(r) + "\n")
    decreases |recs|
  {
    if recs == [] {
      assert (recs + [r])[1..] == [] && (recs + [r])[0] == r;
    } else {
      var first := k.enc(recs[0]) + "\n";
      BodyAppend(k, recs[1..], r);
      assert (recs + [r])[1..] == recs[1..] + [r] && (recs + [r])[0] == recs[0];
      assert Body(k, recs + [r]) == first + Body(k, recs[1..] + [r]);
      assert Body(k, recs) == first + Body(k, recs[1..]);
    }
  }
}
