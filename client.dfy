/** The stream base class: the null-or-cast helper, the generic record clean-up
    that replaces spaces in column names, the signed request headers and the
    query parameters. */
module Client {
  import opened Values
  import opened Dicts
  import opened Decimal

  // ---------------------------------------------------------------------------
  // Casting

  /** `expected_type(value)` for the two target types of the cast tables:
      `int(s)` parses a decimal string and `int(f)` truncates a float,
      `float(s)` parses a string and `float(i)` converts an integer, a value of
      the type is returned as it is, and `int(None)`/`float(None)` raise. */
  function Cast(v: Value, t: PyType, fl: Floats): (r: Result<Value>)
    ensures r.Ok? ==> HasType(r.value, t)
    ensures r.Err? ==> r.error == CastError(v, t)
    ensures HasType(v, t) ==> r == Ok(v)
    ensures v == Null ==> r.Err?
    ensures t == IntType && v.Str? ==>
      (r.Ok? <==> ParseInt(v.s).Some?) && (r.Ok? ==> r.value == Int(ParseInt(v.s).value))
    ensures t == IntType && v.Num? ==>
      (r.Ok? <==> fl.toInt(v.f).Some?) && (r.Ok? ==> r.value == Int(fl.toInt(v.f).value))
    ensures t == FloatType && v.Str? ==>
      (r.Ok? <==> fl.parse(v.s).Some?) && (r.Ok? ==> r.value == Num(fl.parse(v.s).value))
    ensures t == FloatType && v.Int? ==>
      (r.Ok? <==> fl.fromInt(v.i).Some?) && (r.Ok? ==> r.value == Num(fl.fromInt(v.i).value))
  {
    match t
    case IntType =>
      (match v
       case Str(s) => (match ParseInt(s) case Some(n) => Ok(Int(n)) case None => Err(CastError(v, t)))
       case Int(_) => Ok(v)
       case Num(f) => (match fl.toInt(f) case Some(n) => Ok(Int(n)) case None => Err(CastError(v, t)))
       case Null => Err(CastError(v, t)))
    case FloatType =>
      (match v
       case Str(s) => (match fl.parse(s) case Some(x) => Ok(Num(x)) case None => Err(CastError(v, t)))
       case Int(i) => (match fl.fromInt(i) case Some(x) => Ok(Num(x)) case None => Err(CastError(v, t)))
       case Num(_) => Ok(v)
       case Null => Err(CastError(v, t)))
  }

  /** `set_none_or_cast(value, expected_type)`: `""` and `None` become `None`, a
      value that already has the expected type passes through, anything else is
      converted, and a failed conversion raises. */
  function SetNoneOrCast(v: Value, t: PyType, fl: Floats): (r: Result<Value>)
    ensures v == Str("") || v == Null ==> r == Ok(Null)
    ensures HasType(v, t) ==> r == Ok(v)
    ensures r.Ok? ==> r.value == Null || HasType(r.value, t)
    ensures r.Err? ==> r.error == CastError(v, t) && v != Str("") && v != Null && !HasType(v, t)
    ensures t == IntType && v.Str? && v.s != "" ==>
      (r.Ok? <==> ParseInt(v.s).Some?) && (r.Ok? ==> r.value == Int(ParseInt(v.s).value))
    ensures t == FloatType && v.Str? && v.s != "" ==>
      (r.Ok? <==> fl.parse(v.s).Some?) && (r.Ok? ==> r.value == Num(fl.parse(v.s).value))
    ensures t == IntType && v.Num? ==>
      (r.Ok? <==> fl.toInt(v.f).Some?) && (r.Ok? ==> r.value == Int(fl.toInt(v.f).value))
    ensures t == FloatType && v.Int? ==>
      (r.Ok? <==> fl.fromInt(v.i).Some?) && (r.Ok? ==> r.value == Num(fl.fromInt(v.i).value))
  {
    if v == Str("") || v == Null then Ok(Null)
    else if !HasType(v, t) then Cast(v, t, fl)
    else Ok(v)
  }

  /** Casting a value twice gives what casting it once gave. */
  lemma SetNoneOrCastIdempotent(v: Value, t: PyType, fl: Floats)
    ensures SetNoneOrCast(v, t, fl).Ok? ==>
      SetNoneOrCast(SetNoneOrCast(v, t, fl).value, t, fl) == SetNoneOrCast(v, t, fl)
  {
  }

  /** Empty strings become `None`; decimal strings become integers; non-numeric
      strings are an error rather than `None`. */
  lemma SetNoneOrCastExamples(fl: Floats)
    ensures SetNoneOrCast(Str(""), IntType, fl) == Ok(Null)
    ensures SetNoneOrCast(Str(""), FloatType, fl) == Ok(Null)
    ensures SetNoneOrCast(Str("123"), IntType, fl) == Ok(Int(123))
    ensures SetNoneOrCast(Int(123), IntType, fl) == Ok(Int(123))
    ensures SetNoneOrCast(Str("abc"), IntType, fl) == Err(CastError(Str("abc"), IntType))
  {
    ParseIntExamples();
  }

  // ---------------------------------------------------------------------------
  // Record clean-up

  /** `key.replace(" ", "_")`. */
  function NormalizeKey(k: string): (r: string)
    ensures |r| == |k|
    ensures forall i :: 0 <= i < |k| ==> r[i] == (if k[i] == ' ' then '_' else k[i])
    ensures ' ' !in r
  {
    if k == [] then [] else [if k[0] == ' ' then '_' else k[0]] + NormalizeKey(k[1..])
  }

  /** Normalising twice is normalising once, and a key without spaces is left alone. */
  lemma NormalizeKeyFixes(k: string)
    ensures NormalizeKey(NormalizeKey(k)) == NormalizeKey(k)
    ensures ' ' !in k ==> NormalizeKey(k) == k
  {
  }

  /** Normalisation works character by character, so it distributes over concatenation. */
  lemma NormalizeKeyAppend(a: string, b: string)
    ensures NormalizeKey(a + b) == NormalizeKey(a) + NormalizeKey(b)
  {
    var l, r := NormalizeKey(a + b), NormalizeKey(a) + NormalizeKey(b);
    assert |l| == |r|;
    forall i | 0 <= i < |l| ensures l[i] == r[i] {
      if i < |a| { assert (a + b)[i] == a[i]; } else { assert (a + b)[i] == b[i - |a|]; }
    }
  }

  /** The record `post_process` of the base class builds: each entry of `row`,
      in iteration order, assigned into a fresh dict under its normalised key. */
  function Cleaned<V>(row: Dict<V>): Dict<V>
    decreases |row|
  {
    if row == [] then []
    else
      var last := row[|row| - 1];
      Set(Cleaned(row[..|row| - 1]), NormalizeKey(last.0), last.1)
  }

  /** The input keys, normalised, in iteration order. */
  function NormalizedKeys<V>(row: Dict<V>): (ks: seq<string>)
    ensures |ks| == |row|
    ensures forall i :: 0 <= i < |row| ==> ks[i] == NormalizeKey(row[i].0)
  {
    seq(|row|, i requires 0 <= i < |row| => NormalizeKey(row[i].0))
  }

  lemma NormalizedKeysSnoc<V>(row: Dict<V>)
    requires row != []
    ensures NormalizedKeys(row) == NormalizedKeys(row[..|row| - 1]) + [NormalizeKey(row[|row| - 1].0)]
  {
    var ks, ps := NormalizedKeys(row), NormalizedKeys(row[..|row| - 1]) + [NormalizeKey(row[|row| - 1].0)];
    assert |ks| == |ps|;
    forall i | 0 <= i < |ks| ensures ks[i] == ps[i] {
      if i < |row| - 1 {
        assert row[..|row| - 1][i] == row[i];
      }
    }
  }

  /** The cleaned keys are exactly the normalised input keys: none holds a
      space, none occurs twice, and there are never more of them than input
      entries. */
  lemma {:induction false} CleanedKeys<V>(row: Dict<V>)
    ensures forall k :: k in Keys(Cleaned(row)) <==> k in NormalizedKeys(row)
    ensures forall k :: k in Keys(Cleaned(row)) ==> ' ' !in k
    ensures UniqueKeys(Cleaned(row))
    ensures |Cleaned(row)| <= |row|
    decreases |row|
  {
    if row != [] {
      var p, last := row[..|row| - 1], row[|row| - 1];
      CleanedKeys(p);
      var c, cp, nk := Cleaned(row), Cleaned(p), NormalizeKey(last.0);
      assert c == Set(cp, nk, last.1);
      NormalizedKeysSnoc(row);
      SetKeys(cp, nk, last.1);
      assert Keys(c) == Keys(cp) + {nk};
      assert |c| == |KeySeq(c)| && |KeySeq(c)| <= |KeySeq(cp)| + 1;
    }
  }

  /** An entry whose normalised key is new is appended to the cleaned record. */
  lemma CleanedSnocFresh<V>(row: Dict<V>, c: Dict<V>)
    requires row != [] && Cleaned(row[..|row| - 1]) == c
    requires NormalizeKey(row[|row| - 1].0) !in KeySeq(c)
    ensures Cleaned(row) == c + [(NormalizeKey(row[|row| - 1].0), row[|row| - 1].1)]
  {
    KeysAreKeySeq(c, NormalizeKey(row[|row| - 1].0));
  }

  /** When several input keys normalise to the same name, the one that comes
      last in iteration order supplies the value, unchanged. */
  lemma {:induction false} CleanedLastWins<V>(row: Dict<V>, i: nat)
    requires i < |row|
    requires forall j :: i < j < |row| ==> NormalizeKey(row[j].0) != NormalizeKey(row[i].0)
    ensures Get(Cleaned(row), NormalizeKey(row[i].0)) == Some(row[i].1)
    decreases |row|
  {
    if i < |row| - 1 {
      var p := row[..|row| - 1];
      assert p[i] == row[i];
      forall j | i < j < |p| ensures NormalizeKey(p[j].0) != NormalizeKey(p[i].0) {
        assert p[j] == row[j];
      }
      CleanedLastWins(p, i);
    }
    var last := row[|row| - 1];
    SetGet(Cleaned(row[..|row| - 1]), NormalizeKey(last.0), last.1);
  }

  /** When no two input keys normalise to the same name, the cleaned record is
      the input with its keys normalised, entry for entry and in the same order. */
  lemma {:induction false} CleanedNoCollision<V>(row: Dict<V>)
    requires forall i, j :: 0 <= i < j < |row| ==> NormalizeKey(row[i].0) != NormalizeKey(row[j].0)
    ensures |Cleaned(row)| == |row|
    ensures forall i :: 0 <= i < |row| ==> Cleaned(row)[i] == (NormalizeKey(row[i].0), row[i].1)
    decreases |row|
  {
    if row != [] {
      var p, last := row[..|row| - 1], row[|row| - 1];
      assert forall i :: 0 <= i < |p| ==> p[i] == row[i];
      CleanedNoCollision(p);
      var cp, nk := Cleaned(p), NormalizeKey(last.0);
      assert nk !in KeySeq(cp) by {
        forall i | 0 <= i < |cp| ensures KeySeq(cp)[i] != nk {
          assert cp[i].0 == NormalizeKey(row[i].0);
        }
      }
      CleanedSnocFresh(row, cp);
      var c := cp + [(nk, last.1)];
      forall i | 0 <= i < |row| ensures c[i] == (NormalizeKey(row[i].0), row[i].1) {
        if i < |p| {
          assert c[i] == cp[i];
        }
      }
    }
  }

  /** `ShareasaleStream.post_process`. */
  method PostProcess(row: Dict<Value>) returns (newRow: Dict<Value>)
    ensures newRow == Cleaned(row)
    ensures forall k :: k in Keys(newRow) <==> k in NormalizedKeys(row)
    ensures forall k :: k in Keys(newRow) ==> ' ' !in k
    ensures UniqueKeys(newRow) && |newRow| <= |row|
  {
    newRow := [];
    for i := 0 to |row|
      invariant newRow == Cleaned(row[..i])
    {
      var (key, value) := row[i];
      assert row[..i + 1][..i] == row[..i];
      newRow := Set(newRow, NormalizeKey(key), value);
    }
    assert row[..|row|] == row;
    CleanedKeys(row);
  }

  // ---------------------------------------------------------------------------
  // Request headers

  /** The string whose SHA-256 digest authenticates a request. */
  function Signature(token: string, timestamp: string, action: string, secret: string): string
  {
    token + ":" + timestamp + ":" + action + ":" + secret
  }

  /** With the credentials and the action fixed, the signed string determines
      the timestamp string: different timestamp strings give different signed
      strings. The timestamp counts whole seconds, so two requests sent within
      the same second sign the same string. */
  lemma SignatureDeterminesTimestamp(token: string, t1: string, t2: string, action: string, secret: string)
    requires Signature(token, t1, action, secret) == Signature(token, t2, action, secret)
    ensures t1 == t2
  {
    var s1, s2 := Signature(token, t1, action, secret), Signature(token, t2, action, secret);
    assert |s1| == |s2|;
    assert s1[|token| + 1..|token| + 1 + |t1|] == t1;
    assert s2[|token| + 1..|token| + 1 + |t2|] == t2;
  }

  /** `http_headers`: `timestamp` is the `strftime` rendering of the clock and
      `sha256Hex` the hex SHA-256 digest of a string's UTF-8 bytes. A missing
      token or secret makes the string concatenation raise. */
  method HttpHeaders(config: map<string, string>, name: string, timestamp: string, sha256Hex: string -> string)
    returns (r: Result<Dict<string>>)
    ensures r.Err? <==> "auth_token" !in config || "api_secret_key" !in config
    ensures r.Err? ==>
      r.error == MissingConfig(if "auth_token" !in config then "auth_token" else "api_secret_key")
    ensures r.Ok? ==> UniqueKeys(r.value)
    ensures r.Ok? ==> (KeySeq(r.value) ==
      (if "user_agent" in config then ["User-Agent"] else []) + ["X-ShareASale-Date", "X-ShareASale-Authentication"])
    ensures r.Ok? && "user_agent" in config ==> Get(r.value, "User-Agent") == Some(config["user_agent"])
    ensures r.Ok? ==> Get(r.value, "X-ShareASale-Date") == Some(timestamp)
    ensures r.Ok? ==> (Get(r.value, "X-ShareASale-Authentication") ==
      Some(sha256Hex(Signature(config["auth_token"], timestamp, name, config["api_secret_key"]))))
  {
    var headers: Dict<string> := [];
    if "user_agent" in config {
      headers := Set(headers, "User-Agent", config["user_agent"]);
    }
    if "auth_token" !in config {
      return Err(MissingConfig("auth_token"));
    }
    if "api_secret_key" !in config {
      return Err(MissingConfig("api_secret_key"));
    }
    var sig := Signature(config["auth_token"], timestamp, name, config["api_secret_key"]);
    var sigHash := sha256Hex(sig);
    assert headers == AgentHeader(config);
    headers := Set(headers, "X-ShareASale-Date", timestamp);
    headers := Set(headers, "X-ShareASale-Authentication", sigHash);
    SignedHeaders(config, timestamp, sigHash);
    HeaderEntries(config, headers, timestamp, sigHash);
    r := Ok(headers);
  }

  /** Setting the date and then the signature after the optional `User-Agent`
      appends the two entries in that order. */
  lemma SignedHeaders(config: map<string, string>, timestamp: string, sigHash: string)
    ensures Set(Set(AgentHeader(config), "X-ShareASale-Date", timestamp), "X-ShareASale-Authentication", sigHash)
      == AgentHeader(config) + [("X-ShareASale-Date", timestamp), ("X-ShareASale-Authentication", sigHash)]
  {
    var agent := AgentHeader(config);
    var dated := agent + [("X-ShareASale-Date", timestamp)];
    assert KeySeq(agent) == if "user_agent" in config then ["User-Agent"] else [];
    SetFresh(agent, "X-ShareASale-Date", timestamp);
    assert KeySeq(dated) == KeySeq(agent) + ["X-ShareASale-Date"];
    SetFresh(dated, "X-ShareASale-Authentication", sigHash);
  }

  /** The `User-Agent` entry, when the setting is present. */
  function AgentHeader(config: map<string, string>): Dict<string>
  {
    if "user_agent" in config then [("User-Agent", config["user_agent"])] else []
  }

  /** What the header dict holds under each of its keys. */
  lemma HeaderEntries(config: map<string, string>, headers: Dict<string>, timestamp: string, sigHash: string)
    requires headers == AgentHeader(config) + [("X-ShareASale-Date", timestamp), ("X-ShareASale-Authentication", sigHash)]
    ensures UniqueKeys(headers)
    ensures KeySeq(headers) ==
      (if "user_agent" in config then ["User-Agent"] else []) + ["X-ShareASale-Date", "X-ShareASale-Authentication"]
    ensures "user_agent" in config ==> Get(headers, "User-Agent") == Some(config["user_agent"])
    ensures Get(headers, "X-ShareASale-Date") == Some(timestamp)
    ensures Get(headers, "X-ShareASale-Authentication") == Some(sigHash)
  {
    var n := |AgentHeader(config)|;
    assert headers[n] == ("X-ShareASale-Date", timestamp) && headers[n + 1] == ("X-ShareASale-Authentication", sigHash);
    assert UniqueKeys(headers);
    GetAt(headers, n);
    GetAt(headers, n + 1);
    if n == 1 {
      GetAt(headers, 0);
    }
  }

  // ---------------------------------------------------------------------------
  // Query parameters

  /** The calendar fields of a datetime, as `strftime` sees them. */
  datatype Date = Date(year: nat, month: nat, day: nat)

  function Zeros(n: nat): (s: string)
    ensures |s| == n && forall i :: 0 <= i < n ==> s[i] == '0'
  {
    if n == 0 then [] else "0" + Zeros(n - 1)
  }

  /** `n` in decimal, zero-padded on the left to at least `width` digits. */
  function Pad(n: nat, width: nat): (s: string)
    ensures |s| >= width && |s| > 0 && AllDigits(s)
    ensures 0 < width && n < Power10(width) ==> |s| == width
  {
    var d := ShowNat(n);
    ShowNatLength(n, width);
    if |d| >= width then d else Zeros(width - |d|) + d
  }

  function Power10(n: nat): nat
  {
    if n == 0 then 1 else 10 * Power10(n - 1)
  }

  lemma {:induction false} ShowNatLength(n: nat, width: nat)
    ensures 0 < width && n < Power10(width) ==> |ShowNat(n)| <= width
    decreases n
  {
    if n >= 10 && width > 0 && n < Power10(width) {
      assert n / 10 < Power10(width - 1);
      ShowNatLength(n / 10, width - 1);
    }
  }

  /** Leading zeros do not change the value of a digit string. */
  lemma {:induction false} DigitsValueLeadingZeros(z: nat, s: string)
    requires |s| > 0 && AllDigits(s)
    ensures DigitsValue(Zeros(z) + s) == DigitsValue(s)
    decreases |s|
  {
    var zs := Zeros(z) + s;
    if |s| == 1 {
      if z > 0 {
        assert zs[..|zs| - 1] == Zeros(z);
        ZerosValue(z);
      }
    } else {
      assert zs[..|zs| - 1] == Zeros(z) + s[..|s| - 1];
      DigitsValueLeadingZeros(z, s[..|s| - 1]);
    }
  }

  lemma {:induction false} ZerosValue(z: nat)
    requires z > 0
    ensures DigitsValue(Zeros(z)) == 0
    decreases z
  {
    if z > 1 {
      assert Zeros(z)[..z - 1] == Zeros(z - 1);
      ZerosValue(z - 1);
    }
  }

  /** A padded number reads back as the number. */
  lemma PadValue(n: nat, width: nat)
    ensures DigitsValue(Pad(n, width)) == n
  {
    var d, s := ShowNat(n), Pad(n, width);
    DigitsValueShowNat(n);
    if |d| < width {
      var z := Zeros(width - |d|);
      assert s == z + d;
      DigitsValueLeadingZeros(width - |d|, d);
      assert DigitsValue(z + d) == n;
    } else {
      assert s == d;
    }
  }

  /** `strftime(date, "%Y-%m-%d")`. */
  function FormatYmd(d: Date): (s: string)
    ensures |s| >= 10
  {
    Pad(d.year, 4) + "-" + Pad(d.month, 2) + "-" + Pad(d.day, 2)
  }

  /** For any date of years 0 to 9999 the rendering is ten characters, with
      the dashes in place and the three fields reading back as the date. */
  lemma FormatYmdRoundTrip(d: Date)
    requires d.year < 10000 && d.month < 100 && d.day < 100
    ensures var s := FormatYmd(d);
      |s| == 10 && s[4] == '-' && s[7] == '-' &&
      ParseInt(s[..4]) == Some(d.year as int) &&
      ParseInt(s[5..7]) == Some(d.month as int) &&
      ParseInt(s[8..]) == Some(d.day as int)
  {
    assert Power10(4) == 10000 && Power10(2) == 100;
    var s := FormatYmd(d);
    assert s[..4] == Pad(d.year, 4);
    assert s[5..7] == Pad(d.month, 2);
    assert s[8..] == Pad(d.day, 2);
    PadValue(d.year, 4);
    PadValue(d.month, 2);
    PadValue(d.day, 2);
  }

  /** `self.config.get(key)`. */
  function ConfigValue(config: map<string, string>, key: string): Value
  {
    if key in config then Str(config[key]) else Null
  }

  /** The five query-parameter names are distinct. */
  lemma FiveKeysUnique<V>(d: Dict<V>)
    requires KeySeq(d) == ["affiliateId", "token", "version", "action", "dateStart"]
    ensures UniqueKeys(d)
  {
    var ks := KeySeq(d);
    forall i, j | 0 <= i < j < |d| ensures d[i].0 != d[j].0 {
      assert d[i].0 == ks[i] && d[j].0 == ks[j];
    }
  }

  /** What a five-entry dict with distinct keys holds under each of them. */
  lemma FiveEntries<V>(d: Dict<V>)
    requires KeySeq(d) == ["affiliateId", "token", "version", "action", "dateStart"]
    ensures UniqueKeys(d)
    ensures forall i :: 0 <= i < 5 ==> Get(d, d[i].0) == Some(d[i].1)
  {
    FiveKeysUnique(d);
    GetAt(d, 0); GetAt(d, 1); GetAt(d, 2); GetAt(d, 3); GetAt(d, 4);
  }

  /** `dateStart` is a new key for the four fixed parameters. */
  lemma DateStartAppended(params: Dict<Value>, date: Value)
    requires KeySeq(params) == ["affiliateId", "token", "version", "action"]
    ensures Set(params, "dateStart", date) == params + [("dateStart", date)]
    ensures KeySeq(params + [("dateStart", date)]) == ["affiliateId", "token", "version", "action", "dateStart"]
  {
    SetFresh(params, "dateStart", date);
  }

  /** `get_url_params`: `pageDate` is the paginator's datetime and `calendar`
      gives its calendar fields. The source sets `dateStart` only when the
      rendering is non-empty, which it always is. */
  function UrlParams(config: map<string, string>, name: string, pageDate: int, calendar: int -> Date): (params: Dict<Value>)
    ensures UniqueKeys(params)
    ensures KeySeq(params) == ["affiliateId", "token", "version", "action", "dateStart"]
    ensures Get(params, "affiliateId") == Some(ConfigValue(config, "affiliate_id"))
    ensures Get(params, "token") == Some(ConfigValue(config, "auth_token"))
    ensures Get(params, "version") == Some(ConfigValue(config, "api_version"))
    ensures Get(params, "action") == Some(Str(name))
    ensures Get(params, "dateStart") == Some(Str(FormatYmd(calendar(pageDate))))
  {
    var params: Dict<Value> := [
      ("affiliateId", ConfigValue(config, "affiliate_id")),
      ("token", ConfigValue(config, "auth_token")),
      ("version", ConfigValue(config, "api_version")),
      ("action", Str(name))];
    var nextPageDate := FormatYmd(calendar(pageDate));
    var r := if nextPageDate != "" then Set(params, "dateStart", Str(nextPageDate)) else params;
    assert KeySeq(params) == ["affiliateId", "token", "version", "action"];
    DateStartAppended(params, Str(nextPageDate));
    FiveEntries(r);
    assert r[0].0 == "affiliateId" && r[1].0 == "token" && r[2].0 == "version";
    assert r[3].0 == "action" && r[4].0 == "dateStart";
    r
  }
}
