/** Values and string operations shared by the browser script and the Flask backend:
    JSON/YAML values, JavaScript truthiness and whitespace, first-occurrence `replace`,
    decimal and hexadecimal digit strings, and the "first missing required field" scan. */
module Common {

  datatype Option<+T> = None | Some(value: T) {
    function GetOr(default: T): T {
      match this
      case Some(v) => v
      case None => default
    }
  }

  /** A decoded JSON or YAML value. Numbers are modelled as integers. */
  datatype Json =
    | JNull
    | JBool(b: bool)
    | JNum(n: int)
    | JStr(s: string)
    | JArr(items: seq<Json>)
    | JObj(fields: map<string, Json>)

  /** JavaScript truthiness of a property read: `None` is `undefined`. */
  predicate Truthy(v: Option<Json>) {
    match v
    case None => false
    case Some(JNull) => false
    case Some(JBool(b)) => b
    case Some(JNum(n)) => n != 0
    case Some(JStr(s)) => s != ""
    case Some(JArr(_)) => true
    case Some(JObj(_)) => true
  }

  /** JavaScript `a || b` on a property read that may be absent. */
  function Or(v: Option<Json>, fallback: Json): (r: Json)
    ensures Truthy(v) ==> Some(r) == v
    ensures !Truthy(v) ==> r == fallback
  {
    if Truthy(v) then v.value else fallback
  }

  /** `s || fallback` for a string-valued property that may be absent. */
  function OrString(v: Option<string>, fallback: string): (r: string)
    ensures v.Some? && v.value != "" ==> r == v.value
    ensures v.None? || v.value == "" ==> r == fallback
  {
    if v.Some? && v.value != "" then v.value else fallback
  }

  /** The characters matched by `\s` in a JavaScript regular expression and removed by
      `String.prototype.trim`: WhiteSpace and LineTerminator of ECMAScript. */
  predicate IsJsWhitespace(c: char) {
    c == '\t' || c == '\n' || c == '\U{000B}' || c == '\U{000C}' || c == '\r' || c == ' '
    || c == '\U{00A0}' || c == '\U{1680}' || ('\U{2000}' <= c <= '\U{200A}')
    || c == '\U{2028}' || c == '\U{2029}' || c == '\U{202F}' || c == '\U{205F}'
    || c == '\U{3000}' || c == '\U{FEFF}'
  }

  predicate AllWhitespace(s: string) {
    forall i :: 0 <= i < |s| ==> IsJsWhitespace(s[i])
  }

  /** The number of whitespace characters at the front of `s`. */
  function LeadingWhitespace(s: string): (n: nat)
    ensures n <= |s|
    ensures forall i :: 0 <= i < n ==> IsJsWhitespace(s[i])
    ensures n < |s| ==> !IsJsWhitespace(s[n])
  {
    if s != [] && IsJsWhitespace(s[0]) then 1 + LeadingWhitespace(s[1..]) else 0
  }

  function TrimStart(s: string): (r: string)
    ensures |r| <= |s| && r == s[|s| - |r|..]
    ensures AllWhitespace(s[..|s| - |r|])
    ensures r != "" ==> !IsJsWhitespace(r[0])
    ensures s != [] && IsJsWhitespace(s[0]) ==> |r| < |s|
  {
    var n := LeadingWhitespace(s);
    assert forall i :: 0 <= i < n ==> s[..n][i] == s[i];
    s[n..]
  }

  function TrimEnd(s: string): (r: string)
    ensures |r| <= |s| && r == s[..|r|]
    ensures AllWhitespace(s[|r|..])
    ensures r != "" ==> !IsJsWhitespace(r[|r| - 1])
  {
    if s != [] && IsJsWhitespace(s[|s| - 1]) then
      var r := TrimEnd(s[..|s| - 1]);
      TrimEndStep(s, r);
      r
    else s
  }

  /** One step of `TrimEnd`: a whitespace character after a trimmed head. */
  lemma TrimEndStep(s: string, r: string)
    requires s != [] && IsJsWhitespace(s[|s| - 1])
    requires |r| <= |s| - 1 && r == s[..|s| - 1][..|r|] && AllWhitespace(s[..|s| - 1][|r|..])
    ensures |r| <= |s| && r == s[..|r|] && AllWhitespace(s[|r|..])
  {
    assert s[|r|..] == s[..|s| - 1][|r|..] + [s[|s| - 1]];
    AllWhitespaceConcat(s[..|s| - 1][|r|..], [s[|s| - 1]]);
  }

  lemma AllWhitespaceConcat(a: string, b: string)
    ensures AllWhitespace(a + b) <==> AllWhitespace(a) && AllWhitespace(b)
  {
    if AllWhitespace(a + b) {
      forall i | 0 <= i < |a| ensures IsJsWhitespace(a[i]) {
        assert a[i] == (a + b)[i];
      }
      forall i | 0 <= i < |b| ensures IsJsWhitespace(b[i]) {
        assert b[i] == (a + b)[|a| + i];
      }
    }
    if AllWhitespace(a) && AllWhitespace(b) {
      forall i | 0 <= i < |a + b| ensures IsJsWhitespace((a + b)[i]) {
        if i < |a| {
          assert (a + b)[i] == a[i];
        } else {
          assert (a + b)[i] == b[i - |a|];
        }
      }
    }
  }

  /** `String.prototype.trim`: the longest middle slice of `s` that neither starts nor ends
      with whitespace, everything cut off being whitespace. */
  function Trim(s: string): (r: string)
    ensures r != "" ==> !IsJsWhitespace(r[0]) && !IsJsWhitespace(r[|r| - 1])
  {
    var t := TrimStart(s);
    var r := TrimEnd(t);
    assert r != "" ==> r[0] == t[0];
    r
  }

  /** What `Trim` cuts off is whitespace, at both ends. */
  lemma TrimIsMiddleSlice(s: string)
    ensures exists i :: 0 <= i <= |s| - |Trim(s)| && Trim(s) == s[i..i + |Trim(s)|]
              && AllWhitespace(s[..i]) && AllWhitespace(s[i + |Trim(s)|..])
  {
    var t := TrimStart(s);
    TrimParts(s, t, TrimEnd(t));
    var i := |s| - |t|;
    assert 0 <= i <= |s| - |Trim(s)| && Trim(s) == s[i..i + |Trim(s)|]
           && AllWhitespace(s[..i]) && AllWhitespace(s[i + |Trim(s)|..]);
  }

  /** Trimming the front to `t` and then the back of `t` to `r` leaves a middle slice of `s`. */
  lemma TrimParts(s: string, t: string, r: string)
    requires |t| <= |s| && t == s[|s| - |t|..] && AllWhitespace(s[..|s| - |t|])
    requires t != "" ==> !IsJsWhitespace(t[0])
    requires |r| <= |t| && r == t[..|r|] && AllWhitespace(t[|r|..])
    requires r != "" ==> !IsJsWhitespace(r[|r| - 1])
    ensures var i := |s| - |t|;
            r == s[i..i + |r|] && AllWhitespace(s[i + |r|..])
    ensures r != "" ==> !IsJsWhitespace(r[0])
  {
    var i := |s| - |t|;
    assert s[i + |r|..] == t[|r|..];
    assert r != "" ==> r[0] == t[0];
  }

  /** A string trims to "" exactly when every character of it is whitespace. */
  lemma TrimEmptyIffBlank(s: string)
    ensures Trim(s) == "" <==> AllWhitespace(s)
  {
    var t := TrimStart(s);
    assert t == "" ==> s[..|s|] == s;
    if AllWhitespace(s) {
      assert AllWhitespace(s[|s| - |t|..]);
    }
  }

  /** Does `pat` occur in `s` starting at index `i`? */
  predicate OccursAt(s: string, pat: string, i: int) {
    0 <= i && i + |pat| <= |s| && s[i..i + |pat|] == pat
  }

  /** Index of the first occurrence of `pat` in `s`, as `String.prototype.indexOf`. */
  function IndexOf(s: string, pat: string): (r: Option<nat>)
    ensures r.Some? ==> OccursAt(s, pat, r.value)
    ensures r.Some? ==> forall j :: 0 <= j < r.value ==> !OccursAt(s, pat, j)
    ensures r.None? ==> forall j :: 0 <= j ==> !OccursAt(s, pat, j)
    decreases |s|
  {
    if |s| < |pat| then None
    else if s[..|pat|] == pat then Some(0)
    else
      match IndexOf(s[1..], pat)
      case None =>
        assert forall j :: 1 <= j ==> (OccursAt(s, pat, j) <==> OccursAt(s[1..], pat, j - 1));
        None
      case Some(k) =>
        assert forall j :: 1 <= j ==> (OccursAt(s, pat, j) <==> OccursAt(s[1..], pat, j - 1));
        Some(k + 1)
  }

  /** `s.replace(pat, rep)` with a string pattern: only the FIRST occurrence is replaced. */
  function ReplaceFirst(s: string, pat: string, rep: string): (r: string)
    ensures IndexOf(s, pat).None? ==> r == s
    ensures IndexOf(s, pat).Some? ==>
              var i := IndexOf(s, pat).value;
              r == s[..i] + rep + s[i + |pat|..]
  {
    match IndexOf(s, pat)
    case None => s
    case Some(i) => s[..i] + rep + s[i + |pat|..]
  }

  // ---------------------------------------------------------------------------
  // Decimal digits (JavaScript number-to-string of a non-negative integer)

  function DigitChar(d: nat): char
    requires d < 10
  {
    ('0' as int + d) as char
  }

  function DigitValue(c: char): nat {
    if '0' <= c <= '9' then (c as int - '0' as int) as nat else 0
  }

  /** Decimal digits of `n` with no leading zero, as `${n}` prints it. */
  function Decimal(n: nat): (r: string)
    ensures |r| >= 1
    ensures forall i :: 0 <= i < |r| ==> '0' <= r[i] <= '9'
  {
    if n < 10 then [DigitChar(n)] else Decimal(n / 10) + [DigitChar(n % 10)]
  }

  function DecimalValue(s: string): nat {
    if s == [] then 0 else DecimalValue(s[..|s| - 1]) * 10 + DigitValue(s[|s| - 1])
  }

  lemma {:induction false} DecimalRoundTrip(n: nat)
    ensures DecimalValue(Decimal(n)) == n
  {
    if n >= 10 {
      var s := Decimal(n);
      assert s[..|s| - 1] == Decimal(n / 10);
      DecimalRoundTrip(n / 10);
    }
  }

  /** Distinct numbers print differently. */
  lemma DecimalInjective(a: nat, b: nat)
    requires Decimal(a) == Decimal(b)
    ensures a == b
  {
    DecimalRoundTrip(a);
    DecimalRoundTrip(b);
  }

  // ---------------------------------------------------------------------------
  // Hexadecimal digits (str() of a BSON ObjectId)

  function Pow16(k: nat): (r: nat)
    ensures r >= 1
  {
    if k == 0 then 1 else 16 * Pow16(k - 1)
  }

  lemma {:induction false} Pow16Split(a: nat, b: nat)
    ensures Pow16(a + b) == Pow16(a) * Pow16(b)
    decreases a
  {
    if a > 0 {
      Pow16Split(a - 1, b);
    }
  }

  function HexChar(d: nat): char
    requires d < 16
  {
    if d < 10 then ('0' as int + d) as char else ('a' as int + d - 10) as char
  }

  function HexCharValue(c: char): nat {
    if '0' <= c <= '9' then (c as int - '0' as int) as nat
    else if 'a' <= c <= 'f' then (c as int - 'a' as int + 10) as nat
    else 0
  }

  /** The `width` low hexadecimal digits of `n`, most significant first, zero-padded. */
  function HexDigits(n: nat, width: nat): (r: string)
    ensures |r| == width
    ensures forall i :: 0 <= i < |r| ==> ('0' <= r[i] <= '9' || 'a' <= r[i] <= 'f')
  {
    if width == 0 then [] else HexDigits(n / 16, width - 1) + [HexChar(n % 16)]
  }

  function HexValue(s: string): nat {
    if s == [] then 0 else HexValue(s[..|s| - 1]) * 16 + HexCharValue(s[|s| - 1])
  }

  lemma {:induction false} HexRoundTrip(n: nat, width: nat)
    requires n < Pow16(width)
    ensures HexValue(HexDigits(n, width)) == n
  {
    if width > 0 {
      var s := HexDigits(n, width);
      assert s[..|s| - 1] == HexDigits(n / 16, width - 1);
      assert HexCharValue(HexChar(n % 16)) == n % 16;
      HexRoundTrip(n / 16, width - 1);
    }
  }

  // ---------------------------------------------------------------------------
  // The backend's `for field in required_fields: if field not in data` scan

  /** The first of `fields` that is not a key of `data`, if any. */
  function FirstMissing(data: map<string, Json>, fields: seq<string>): (r: Option<string>)
    ensures r.None? <==> forall j :: 0 <= j < |fields| ==> fields[j] in data
    ensures r.Some? ==> exists i :: 0 <= i < |fields| && fields[i] == r.value && r.value !in data
                          && forall j :: 0 <= j < i ==> fields[j] in data
  {
    if fields == [] then None
    else if fields[0] !in data then Some(fields[0])
    else
      var rest := FirstMissing(data, fields[1..]);
      if rest.Some? then
        var i :| 0 <= i < |fields[1..]| && fields[1..][i] == rest.value && rest.value !in data
                 && forall j :: 0 <= j < i ==> fields[1..][j] in data;
        assert fields[i + 1] == rest.value;
        rest
      else rest
  }

  // ---------------------------------------------------------------------------
  // Python's `in` on a decoded request body

  /** `key in container` for a decoded JSON value: key membership for an object, element
      membership for a list, substring for a string; `None` where Python raises TypeError. */
  function PyContains(container: Json, key: string): (r: Option<bool>)
    ensures r.None? <==> !(container.JObj? || container.JArr? || container.JStr?)
    ensures container.JObj? ==> r == Some(key in container.fields)
  {
    match container
    case JObj(m) => Some(key in m)
    case JArr(items) => Some(JStr(key) in items)
    case JStr(s) => Some(IndexOf(s, key).Some?)
    case _ => None
  }

  /** The outcome of `for field in required: if field not in data: return …`. */
  datatype Scan = AllPresent | Missing(field: string) | Raises

  function ScanRequired(data: Json, required: seq<string>): Scan {
    if required == [] then AllPresent
    else
      match PyContains(data, required[0])
      case None => Raises
      case Some(false) => Missing(required[0])
      case Some(true) => ScanRequired(data, required[1..])
  }

  /** The handlers' `for field in required_fields: if field not in data: ...` loop. */
  method CheckRequired(data: Json, required: seq<string>) returns (scan: Scan)
    ensures scan == ScanRequired(data, required)
  {
    var i := 0;
    while i < |required|
      invariant 0 <= i <= |required|
      invariant ScanRequired(data, required) == ScanRequired(data, required[i..])
    {
      var present := PyContains(data, required[i]);
      if present.None? {
        return Raises;
      }
      if !present.value {
        return Missing(required[i]);
      }
      assert required[i..][1..] == required[i + 1..];
      i := i + 1;
    }
    return AllPresent;
  }

  /** On an object body the scan reports exactly the first missing field; on a body that is
      not a container it raises at the first test; on a list or string it never raises. */
  lemma {:induction false} ScanRequiredMeaning(data: Json, required: seq<string>)
    ensures data.JObj? ==>
              (ScanRequired(data, required).AllPresent? <==> FirstMissing(data.fields, required).None?)
              && (ScanRequired(data, required).Missing? <==> FirstMissing(data.fields, required).Some?)
              && (ScanRequired(data, required).Missing? ==>
                    ScanRequired(data, required).field == FirstMissing(data.fields, required).value)
    ensures ScanRequired(data, required).Raises? <==>
              required != [] && !(data.JObj? || data.JArr? || data.JStr?)
    decreases |required|
  {
    if required != [] {
      ScanRequiredMeaning(data, required[1..]);
      if data.JObj? && required[0] in data.fields {
        FirstMissingTail(data.fields, required);
      }
    }
  }

  lemma FirstMissingTail(data: map<string, Json>, fields: seq<string>)
    requires fields != [] && fields[0] in data
    ensures FirstMissing(data, fields) == FirstMissing(data, fields[1..])
  {
  }
}
