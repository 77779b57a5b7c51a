/** Object keys of schemas and records: printing, validating and the three parsers. */
module KeyLayout {
  import opened Primitives

  const XT_PREFIX := "_xtable"
  const SCHEMA_SEG := "_schema"
  const JSON := ".json"

  // ---------- Segments ----------

  predicate IsSafe(c: char) {
    'a' <= c <= 'z' || 'A' <= c <= 'Z' || '0' <= c <= '9' || c == '.' || c == '_' || c == '-' || c == ':'
  }

  predicate ValidSegment(s: string) {
    0 < |s| <= 128 && forall i :: 0 <= i < |s| ==> IsSafe(s[i])
  }

  // ---------- Decimal numbers ----------

  function Digit(n: nat): (c: char)
    requires n < 10
    ensures '0' <= c <= '9'
  {
    '0' + n as char
  }

  function Dec(n: nat): (s: string)
    ensures s != [] && forall i :: 0 <= i < |s| ==> '0' <= s[i] <= '9'
  {
    if n < 10 then [Digit(n)] else Dec(n / 10) + [Digit(n % 10)]
  }

  predicate AllDigits(s: string) {
    forall i :: 0 <= i < |s| ==> '0' <= s[i] <= '9'
  }

  function ValueOf(s: string): nat
    requires AllDigits(s)
  {
    if s == [] then 0 else 10 * ValueOf(s[..|s| - 1]) + (s[|s| - 1] as int - '0' as int)
  }

  /** An optional plus sign, then at least one digit, leading zeros allowed, no overflow. */
  function ParseU32(s: string): Option<u32> {
    var d := if s != [] && s[0] == '+' then s[1..] else s;
    if d == [] || !AllDigits(d) || ValueOf(d) > U32_MAX then None else Some(ValueOf(d))
  }

  lemma {:induction false} DecValue(n: nat)
    ensures ValueOf(Dec(n)) == n
  {
    if n >= 10 {
      DecValue(n / 10);
      assert Dec(n)[..|Dec(n)| - 1] == Dec(n / 10);
    }
  }

  /** Digits as the printer writes them: no leading zero unless it is the only digit. */
  predicate Canonical(d: string) {
    d != [] && AllDigits(d) && (|d| == 1 || d[0] != '0')
  }

  lemma {:induction false} DecIsCanonical(n: nat)
    ensures Canonical(Dec(n)) && (Dec(n)[0] == '0' ==> n == 0)
  {
    if n >= 10 {
      DecIsCanonical(n / 10);
    }
  }

  lemma {:induction false} ValuePositive(d: string)
    requires AllDigits(d) && d != [] && d[0] != '0'
    ensures ValueOf(d) > 0
  {
    if |d| > 1 {
      ValuePositive(d[..|d| - 1]);
    }
  }

  /** Printing a number read from digits gives the digits back if and only if they were canonical. */
  lemma {:induction false} DecOfValue(d: string)
    requires d != [] && AllDigits(d)
    ensures Dec(ValueOf(d)) == d <==> |d| == 1 || d[0] != '0'
  {
    DecIsCanonical(ValueOf(d));
    var front, c := d[..|d| - 1], d[|d| - 1];
    assert d == front + [c];
    if |d| > 1 && d[0] != '0' {
      DecOfValue(front);
      ValuePositive(front);
      DecStep(ValueOf(front), c);
    } else if |d| == 1 {
      DecOne(c);
    }
  }

  lemma DecStep(n: nat, c: char)
    requires n > 0 && '0' <= c <= '9'
    ensures Dec(10 * n + (c as int - '0' as int)) == Dec(n) + [c]
  {
    var m := 10 * n + (c as int - '0' as int);
    assert m / 10 == n && m % 10 == c as int - '0' as int;
  }

  lemma DecOne(c: char)
    requires '0' <= c <= '9'
    ensures AllDigits([c]) && Dec(ValueOf([c])) == [c]
  {
    assert ValueOf([c][..0]) == 0;
  }

  lemma {:induction false} ZeroBefore(d: string)
    requires AllDigits(d)
    ensures AllDigits("0" + d) && ValueOf("0" + d) == ValueOf(d)
  {
    var z := "0" + d;
    if d != [] {
      ZeroBefore(d[..|d| - 1]);
      assert z[..|z| - 1] == "0" + d[..|d| - 1];
    } else {
      assert z[..0] == [];
    }
  }

  lemma ParseDec(v: u32)
    ensures ParseU32(Dec(v)) == Some(v)
  {
    DecValue(v);
  }

  // ---------- Splitting ----------

  function Split(s: string): (parts: seq<string>)
    ensures parts != []
  {
    if s == [] then [[]]
    else
      var rest := Split(s[1..]);
      if s[0] == '/' then [[]] + rest else [[s[0]] + rest[0]] + rest[1..]
  }

  predicate NoSlash(s: string) {
    forall i :: 0 <= i < |s| ==> s[i] != '/'
  }

  lemma {:induction false} SplitFirst(a: string, b: string)
    requires NoSlash(a)
    ensures Split(a + "/" + b) == [a] + Split(b)
  {
    var s := a + "/" + b;
    if a == [] {
      assert s[1..] == b;
    } else {
      assert s[1..] == a[1..] + "/" + b;
      SplitFirst(a[1..], b);
      assert [a[0]] + a[1..] == a;
      assert ([a[1..]] + Split(b))[1..] == Split(b);
    }
  }

  lemma {:induction false} SplitLast(a: string)
    requires NoSlash(a)
    ensures Split(a) == [a]
  {
    if a != [] {
      SplitLast(a[1..]);
      assert [a[0]] + a[1..] == a;
    }
  }

  /** The text before the first slash and the text after it. */
  function Cut(s: string): Option<(string, string)> {
    if s == [] then None
    else if s[0] == '/' then Some(([], s[1..]))
    else match Cut(s[1..])
      case None => None
      case Some((a, b)) => Some(([s[0]] + a, b))
  }

  lemma {:induction false} CutFirst(a: string, b: string)
    requires NoSlash(a)
    ensures Cut(a + "/" + b) == Some((a, b))
  {
    var s := a + "/" + b;
    if a != [] {
      assert s[1..] == a[1..] + "/" + b;
      CutFirst(a[1..], b);
      assert [a[0]] + a[1..] == a;
    } else {
      assert s[1..] == b;
    }
  }

  function StripPrefix(s: string, p: string): Option<string> {
    if |p| <= |s| && s[..|p|] == p then Some(s[|p|..]) else None
  }

  function StripSuffix(s: string, p: string): Option<string> {
    if |p| <= |s| && s[|s| - |p|..] == p then Some(s[..|s| - |p|]) else None
  }

  // ---------- Printers and parsers of the schema layer ----------

  datatype SchemaParts = SchemaParts(space: string, name: string, version: u32)
  datatype RecordParts = RecordParts(space: string, table: string, recordId: string)

  function VersionFile(v: u32): string {
    "v" + Dec(v) + JSON
  }

  /** A schema key whose version is written as the given text. */
  function SchemaPath(space: string, name: string, digits: string): string {
    XT_PREFIX + "/" + (space + "/" + (SCHEMA_SEG + "/" + (name + "/" + ("v" + digits + JSON))))
  }

  function PrintSchema(space: string, name: string, v: u32): string {
    SchemaPath(space, name, Dec(v))
  }

  function PrintRecord(space: string, table: string, recordId: string): string {
    XT_PREFIX + "/" + (space + "/" + (table + "/" + (recordId + JSON)))
  }

  function SchemaKey(space: string, name: string, v: u32): Result<string> {
    if !ValidSegment(space) then Err("space")
    else if !ValidSegment(name) then Err("name")
    else Ok(PrintSchema(space, name, v))
  }

  function RecordKey(space: string, table: string, recordId: string): Result<string> {
    if !ValidSegment(space) then Err("space")
    else if !ValidSegment(table) then Err("table")
    else if !ValidSegment(recordId) then Err("record_id")
    else if table == SCHEMA_SEG then Err("reserved")
    else Ok(PrintRecord(space, table, recordId))
  }

  function ParseVersionFile(last: string): Option<u32> {
    match StripPrefix(last, "v")
    case None => None
    case Some(rest) =>
      match StripSuffix(rest, JSON)
      case None => None
      case Some(digits) => ParseU32(digits)
  }

  function ParseSchemaKey(key: string): Option<SchemaParts> {
    var p := Split(key);
    if |p| != 5 || p[0] != XT_PREFIX || p[2] != SCHEMA_SEG then None
    else match ParseVersionFile(p[4])
      case None => None
      case Some(v) => Some(SchemaParts(p[1], p[3], v))
  }

  function ParseRecordKey(key: string): Option<RecordParts> {
    var p := Split(key);
    if |p| != 4 || p[0] != XT_PREFIX || p[2] == SCHEMA_SEG then None
    else match StripSuffix(p[3], JSON)
      case None => None
      case Some(id) => Some(RecordParts(p[1], p[2], id))
  }

  // ---------- The coordinator's parser and the engine's ----------

  /** Everything after the prefix, cut at its first two slashes. */
  function CutTwice(key: string): Option<(string, string, string)> {
    match StripPrefix(key, XT_PREFIX + "/")
    case None => None
    case Some(s) =>
      match Cut(s)
      case None => None
      case Some((space, more)) =>
        match Cut(more)
        case None => None
        case Some((second, rest)) => Some((space, second, rest))
  }

  function CoordinatorParse(key: string): Option<(string, string, string)> {
    match CutTwice(key)
    case None => None
    case Some((space, second, rest)) =>
      if second == SCHEMA_SEG then Some((space, SCHEMA_SEG, rest))
      else match StripSuffix(rest, JSON)
        case None => None
        case Some(id) => Some((space, second, id))
  }

  function SchemaRecordParts(key: string): Option<(string, string, string)> {
    match CutTwice(key)
    case None => None
    case Some((space, second, rest)) => if second == SCHEMA_SEG then Some((space, SCHEMA_SEG, rest)) else None
  }

  /** The record id under which the engine looks a schema version up. */
  function SchemaRecordId(name: string, v: u32): string {
    name + "/" + VersionFile(v)
  }

  /** The printed keys, spelled out. */
  lemma PrintedForms(space: string, table: string, id: string, v: u32)
    ensures PrintRecord(space, table, id) == "_xtable/" + space + "/" + table + "/" + id + ".json"
    ensures PrintSchema(space, table, v) == "_xtable/" + space + "/_schema/" + table + "/v" + Dec(v) + ".json"
    ensures ValueOf(Dec(v)) == v && (v >= 10 ==> Dec(v)[0] != '0')
  {
    var r, s := PrintRecord(space, table, id), PrintSchema(space, table, v);
    DecValue(v);
    DecLeads(v);
    assert "_xtable" + "/" == "_xtable/" && "/" + ("_schema" + "/") == "/_schema/" && "/" + "v" == "/v";
    assert r == "_xtable/" + space + "/" + table + "/" + id + ".json";
    assert s == "_xtable/" + space + ("/" + ("_schema" + "/")) + table + ("/" + "v") + Dec(v) + ".json";
  }

  lemma {:induction false} DecLeads(n: nat)
    ensures n > 0 ==> Dec(n)[0] != '0'
  {
    if n >= 10 {
      DecLeads(n / 10);
    }
  }

  // ---------- They undo each other ----------

  lemma WordsHaveNoSlash()
    ensures NoSlash(XT_PREFIX) && NoSlash(SCHEMA_SEG) && NoSlash(JSON)
  {
  }

  lemma JoinHasNoSlash(a: string, b: string)
    requires NoSlash(a) && NoSlash(b)
    ensures NoSlash(a + b)
  {
  }

  lemma DecHasNoSlash(v: u32)
    ensures NoSlash(Dec(v))
  {
  }

  lemma VersionFileParses(v: u32)
    ensures NoSlash(VersionFile(v)) && ParseVersionFile(VersionFile(v)) == Some(v)
  {
    ParseDec(v);
    DecHasNoSlash(v);
    WordsHaveNoSlash();
    hide Dec, ParseU32;
    var rest := Dec(v) + JSON;
    assert VersionFile(v) == "v" + rest;
    JoinHasNoSlash(Dec(v), JSON);
    JoinHasNoSlash("v", rest);
    hide NoSlash;
    Strips("v", rest);
    StripsJson(Dec(v));
  }

  lemma Strips(p: string, s: string)
    ensures StripPrefix(p + s, p) == Some(s)
  {
    assert (p + s)[..|p|] == p && (p + s)[|p|..] == s;
  }

  lemma PathSplits(space: string, name: string, d: string)
    requires NoSlash(space) && NoSlash(name) && NoSlash(d)
    ensures Split(SchemaPath(space, name, d)) == [XT_PREFIX, space, SCHEMA_SEG, name, "v" + d + JSON]
  {
    WordsHaveNoSlash();
    JoinHasNoSlash("v", d);
    JoinHasNoSlash("v" + d, JSON);
    hide NoSlash, Split;
    var file := "v" + d + JSON;
    SplitLast(file);
    SplitFirst(name, file);
    SplitFirst(SCHEMA_SEG, name + "/" + file);
    SplitFirst(space, SCHEMA_SEG + "/" + (name + "/" + file));
    SplitFirst(XT_PREFIX, space + "/" + (SCHEMA_SEG + "/" + (name + "/" + file)));
  }

  lemma SchemaSplits(space: string, name: string, v: u32)
    requires NoSlash(space) && NoSlash(name)
    ensures Split(PrintSchema(space, name, v)) == [XT_PREFIX, space, SCHEMA_SEG, name, VersionFile(v)]
  {
    DecHasNoSlash(v);
    hide Split, NoSlash, Dec;
    PathSplits(space, name, Dec(v));
  }

  lemma RecordSplits(space: string, table: string, recordId: string)
    requires NoSlash(space) && NoSlash(table) && NoSlash(recordId)
    ensures Split(PrintRecord(space, table, recordId)) == [XT_PREFIX, space, table, recordId + JSON]
  {
    WordsHaveNoSlash();
    JoinHasNoSlash(recordId, JSON);
    hide NoSlash, Split;
    SplitLast(recordId + JSON);
    SplitFirst(table, recordId + JSON);
    SplitFirst(space, table + "/" + (recordId + JSON));
    SplitFirst(XT_PREFIX, space + "/" + (table + "/" + (recordId + JSON)));
  }

  lemma StripsJson(id: string)
    ensures StripSuffix(id + JSON, JSON) == Some(id)
  {
    assert (id + JSON)[..|id|] == id && (id + JSON)[|id|..] == JSON;
  }

  /** Printing a schema key and parsing it gives the parts back; the record parser refuses it. */
  lemma SchemaRoundTrip(space: string, name: string, v: u32)
    requires SchemaKey(space, name, v).Ok?
    ensures ParseSchemaKey(SchemaKey(space, name, v).value) == Some(SchemaParts(space, name, v))
    ensures ParseRecordKey(SchemaKey(space, name, v).value) == None
  {
    SchemaSplits(space, name, v);
    VersionFileParses(v);
  }

  /** Printing a record key and parsing it gives the parts back; the schema parser refuses it. */
  lemma RecordRoundTrip(space: string, table: string, recordId: string)
    requires RecordKey(space, table, recordId).Ok?
    ensures ParseRecordKey(RecordKey(space, table, recordId).value) == Some(RecordParts(space, table, recordId))
    ensures ParseSchemaKey(RecordKey(space, table, recordId).value) == None
  {
    RecordSplits(space, table, recordId);
    StripsJson(recordId);
  }

  /** Distinct valid parts print to distinct keys, and no schema key is a record key. */
  lemma KeysAreDistinct(s1: string, n1: string, v1: u32, s2: string, n2: string, v2: u32, r1: string, r2: string)
    ensures SchemaKey(s1, n1, v1).Ok? && SchemaKey(s1, n1, v1) == SchemaKey(s2, n2, v2) ==> (s1, n1, v1) == (s2, n2, v2)
    ensures RecordKey(s1, n1, r1).Ok? && RecordKey(s1, n1, r1) == RecordKey(s2, n2, r2) ==> (s1, n1, r1) == (s2, n2, r2)
    ensures SchemaKey(s1, n1, v1).Ok? ==> SchemaKey(s1, n1, v1) != RecordKey(s2, n2, r2)
  {
    if SchemaKey(s1, n1, v1).Ok? { SchemaRoundTrip(s1, n1, v1); }
    if SchemaKey(s2, n2, v2).Ok? { SchemaRoundTrip(s2, n2, v2); }
    if RecordKey(s1, n1, r1).Ok? { RecordRoundTrip(s1, n1, r1); }
    if RecordKey(s2, n2, r2).Ok? { RecordRoundTrip(s2, n2, r2); }
  }

  lemma PrintedCuts(space: string, second: string, rest: string)
    requires NoSlash(space) && NoSlash(second)
    ensures CutTwice(XT_PREFIX + "/" + (space + "/" + (second + "/" + rest))) == Some((space, second, rest))
  {
    var tail := space + "/" + (second + "/" + rest);
    var key := XT_PREFIX + "/" + tail;
    assert key[..|XT_PREFIX + "/"|] == XT_PREFIX + "/" && key[|XT_PREFIX + "/"|..] == tail;
    CutFirst(space, second + "/" + rest);
    CutFirst(second, rest);
  }

  /** The coordinator and the engine take a printed key apart into the triple the schema layer reads it under. */
  lemma ParsersAgree(space: string, table: string, recordId: string, v: u32)
    ensures RecordKey(space, table, recordId).Ok? ==>
              && CoordinatorParse(RecordKey(space, table, recordId).value) == Some((space, table, recordId))
              && SchemaRecordParts(RecordKey(space, table, recordId).value) == None
    ensures SchemaKey(space, table, v).Ok? ==>
              && CoordinatorParse(SchemaKey(space, table, v).value) == Some((space, SCHEMA_SEG, SchemaRecordId(table, v)))
              && SchemaRecordParts(SchemaKey(space, table, v).value) == Some((space, SCHEMA_SEG, SchemaRecordId(table, v)))
  {
    if RecordKey(space, table, recordId).Ok? {
      PrintedCuts(space, table, recordId + JSON);
      StripsJson(recordId);
    }
    if SchemaKey(space, table, v).Ok? {
      PrintedCuts(space, SCHEMA_SEG, SchemaRecordId(table, v));
    }
  }

  // ---------- And back: what a parser accepted ----------

  function Join(parts: seq<string>): string
    requires parts != []
  {
    if |parts| == 1 then parts[0] else parts[0] + "/" + Join(parts[1..])
  }

  lemma {:induction false} JoinSplit(s: string)
    ensures Join(Split(s)) == s
  {
    if s != [] {
      JoinSplit(s[1..]);
      var rest := Split(s[1..]);
      if s[0] == '/' {
        assert ([[]] + rest)[1..] == rest;
        assert Join(Split(s)) == [] + "/" + s[1..];
      } else {
        assert ([[s[0]] + rest[0]] + rest[1..])[1..] == rest[1..];
        assert Join(Split(s)) == [s[0]] + Join(rest);
      }
    }
  }

  lemma JoinPeels(parts: seq<string>, i: nat)
    requires i + 1 < |parts|
    ensures Join(parts[i..]) == parts[i] + "/" + Join(parts[i + 1..])
    ensures i == 0 ==> parts[i..] == parts
    ensures i + 2 == |parts| ==> Join(parts[i + 1..]) == parts[i + 1]
  {
    assert parts[i..][1..] == parts[i + 1..];
  }

  /**
   Whatever the record parser accepts is what printing its parts gives; the printer itself refuses it exactly
   when a part is no valid segment, which the parser does not look at.
   */
  lemma RecordParseIsExact(key: string)
    requires ParseRecordKey(key).Some?
    ensures var p := ParseRecordKey(key).value;
            && PrintRecord(p.space, p.table, p.recordId) == key
            && (RecordKey(p.space, p.table, p.recordId) == Ok(key) <==>
                ValidSegment(p.space) && ValidSegment(p.table) && ValidSegment(p.recordId))
  {
    hide ValidSegment;
    var p := Split(key);
    JoinSplit(key);
    JoinPeels(p, 0);
    JoinPeels(p, 1);
    JoinPeels(p, 2);
  }

  /** The text between "v" and ".json" in an accepted schema key. */
  function VersionText(key: string): (d: string)
    requires ParseSchemaKey(key).Some?
    ensures Split(key)[4] == "v" + d + JSON && ParseU32(d) == Some(ParseSchemaKey(key).value.version)
  {
    var last := Split(key)[4];
    assert last == "v" + last[1..|last| - 5] + JSON;
    assert last[1..][..|last| - 6] == last[1..|last| - 5];
    last[1..|last| - 5]
  }

  /**
   What the schema parser accepts prints back unchanged exactly when its version is written in digits without a
   leading zero; the printer itself also wants valid segments, which the parser does not look at.
   */
  lemma SchemaParseIsExact(key: string)
    requires ParseSchemaKey(key).Some?
    ensures var p := ParseSchemaKey(key).value;
            && (PrintSchema(p.space, p.name, p.version) == key <==> Canonical(VersionText(key)))
            && (SchemaKey(p.space, p.name, p.version) == Ok(key) <==>
                ValidSegment(p.space) && ValidSegment(p.name) && Canonical(VersionText(key)))
  {
    var p, d := ParseSchemaKey(key).value, VersionText(key);
    KeyIsPath(key);
    hide ParseSchemaKey, VersionText, ValidSegment, ParseU32;
    VersionPrints(d, p.version);
    hide Canonical, Dec;
    PathEnds(p.space, p.name, d, Dec(p.version));
  }

  lemma KeyIsPath(key: string)
    requires ParseSchemaKey(key).Some?
    ensures var p := ParseSchemaKey(key).value; SchemaPath(p.space, p.name, VersionText(key)) == key
  {
    hide ParseU32;
    var s := Split(key);
    JoinSplit(key);
    hide Split, Join;
    JoinPeels(s, 0);
    JoinPeels(s, 1);
    JoinPeels(s, 2);
    JoinPeels(s, 3);
  }

  lemma VersionPrints(d: string, v: u32)
    requires ParseU32(d) == Some(v)
    ensures Dec(v) == d <==> Canonical(d)
  {
    DecIsCanonical(v);
    if AllDigits(d) {
      DecOfValue(d);
    }
  }

  lemma PathEnds(space: string, name: string, d1: string, d2: string)
    ensures SchemaPath(space, name, d1) == SchemaPath(space, name, d2) <==> d1 == d2
  {
    var front := XT_PREFIX + "/" + (space + "/" + (SCHEMA_SEG + "/" + (name + "/" + "v")));
    assert SchemaPath(space, name, d1) == front + d1 + JSON && SchemaPath(space, name, d2) == front + d2 + JSON;
    var k1, k2 := front + d1 + JSON, front + d2 + JSON;
    assert k1[|front|..|k1| - 5] == d1 && k2[|front|..|k2| - 5] == d2;
  }

  lemma PathParses(space: string, name: string, d: string, v: u32)
    requires NoSlash(space) && NoSlash(name) && NoSlash(d) && ParseU32(d) == Some(v)
    ensures ParseSchemaKey(SchemaPath(space, name, d)) == Some(SchemaParts(space, name, v))
  {
    hide ParseU32;
    PathSplits(space, name, d);
    hide NoSlash, Split;
    assert "v" + d + JSON == "v" + (d + JSON);
    Strips("v", d + JSON);
    StripsJson(d);
  }

  lemma ParseOther(v: u32)
    ensures ParseU32("0" + Dec(v)) == Some(v) && ParseU32("+" + Dec(v)) == Some(v)
    ensures NoSlash("0" + Dec(v)) && NoSlash("+" + Dec(v))
  {
    var d := Dec(v);
    DecValue(v);
    DecHasNoSlash(v);
    ZeroBefore(d);
    hide Dec, ValueOf;
    assert ("+" + d)[1..] == d;
    assert ("0" + d)[0] == '0';
  }

  /** Every version also has the accepted spellings with a leading zero and with a plus sign, which do not print back. */
  lemma OtherSpellings(space: string, name: string, v: u32)
    requires NoSlash(space) && NoSlash(name)
    ensures ParseSchemaKey(SchemaPath(space, name, "0" + Dec(v))) == Some(SchemaParts(space, name, v))
    ensures ParseSchemaKey(SchemaPath(space, name, "+" + Dec(v))) == Some(SchemaParts(space, name, v))
    ensures SchemaPath(space, name, "0" + Dec(v)) != PrintSchema(space, name, v)
    ensures SchemaPath(space, name, "+" + Dec(v)) != PrintSchema(space, name, v)
  {
    var d := Dec(v);
    ParseOther(v);
    hide ParseU32, Dec;
    PathParses(space, name, "0" + d, v);
    PathParses(space, name, "+" + d, v);
    hide SchemaPath, ParseSchemaKey;
    PathEnds(space, name, "0" + d, d);
    PathEnds(space, name, "+" + d, d);
  }
}
