/**
 * `JSON.stringify` on the values of `JsonValues`: compact text with no white
 * space, strings quoted and escaped as ECMAScript's QuoteJSONString does
 * (the short escapes \b \t \n \f \r \" \\, other control characters as a
 * lowercase \u00XX, everything else as itself), integers in decimal.
 *
 * `ParseValue` reads such text back (standard JSON without white space,
 * integers only). Reading back what `Stringify` wrote gives the value that
 * was written, so a serialised value carries exactly that value's content.
 */
module JsonText {
  import opened Wrappers
  import opened Text
  import opened JsonValues

  // ---------------------------------------------------------------------------
  // Writing
  // ---------------------------------------------------------------------------

  /** A lowercase hexadecimal digit. */
  function HexChar(d: int): char
    requires 0 <= d < 16
  {
    if d < 10 then ('0' as int + d) as char else ('a' as int + (d - 10)) as char
  }

  /** How one character of a string is written between the quotes. */
  function EscapeChar(c: char): string {
    if c == '"' then "\\\""
    else if c == '\\' then "\\\\"
    else if c == '\U{0008}' then "\\b"
    else if c == '\U{000C}' then "\\f"
    else if c == '\n' then "\\n"
    else if c == '\r' then "\\r"
    else if c == '\t' then "\\t"
    else if c < ' ' then ['\\', 'u', '0', '0', HexChar(c as int / 16), HexChar(c as int % 16)]
    else [c]
  }

  function EscapeString(s: string): string {
    if s == [] then "" else EscapeChar(s[0]) + EscapeString(s[1..])
  }

  /** A string literal: the escaped characters between double quotes. */
  function Quote(s: string): string {
    "\"" + EscapeString(s) + "\""
  }

  /** `JSON.stringify(v)`. */
  function Stringify(v: Json): string {
    match v
    case JNull => "null"
    case JBool(b) => if b then "true" else "false"
    case JNum(n) => IntToString(n)
    case JStr(s) => Quote(s)
    case JArr(items) =>
      "[" + Join(seq(|items|, i requires 0 <= i < |items| => Stringify(items[i])), ',') + "]"
    case JObj(entries) =>
      "{" + Join(seq(|entries|, i requires 0 <= i < |entries| =>
                       var e := entries[i];
                       assert e in entries;
                       Quote(e.0) + ":" + Stringify(e.1)), ',') + "}"
  }

  /** The texts of the elements of an array, in order. */
  function ItemTexts(items: seq<Json>): (ts: seq<string>)
    ensures |ts| == |items|
    ensures forall i :: 0 <= i < |items| ==> ts[i] == Stringify(items[i])
  {
    seq(|items|, i requires 0 <= i < |items| => Stringify(items[i]))
  }

  /** The `"key":value` texts of the properties of an object, in order. */
  function MemberTexts(entries: seq<(string, Json)>): (ts: seq<string>)
    ensures |ts| == |entries|
    ensures forall i :: 0 <= i < |entries| ==> ts[i] == Quote(entries[i].0) + ":" + Stringify(entries[i].1)
  {
    seq(|entries|, i requires 0 <= i < |entries| => Quote(entries[i].0) + ":" + Stringify(entries[i].1))
  }

  lemma StringifyArray(items: seq<Json>)
    ensures Stringify(JArr(items)) == "[" + Join(ItemTexts(items), ',') + "]"
  {
    var ts := seq(|items|, i requires 0 <= i < |items| => Stringify(items[i]));
    assert ts == ItemTexts(items);
  }

  lemma StringifyObject(entries: seq<(string, Json)>)
    ensures Stringify(JObj(entries)) == "{" + Join(MemberTexts(entries), ',') + "}"
  {
    var ts := seq(|entries|, i requires 0 <= i < |entries| =>
                    var e := entries[i];
                    Quote(e.0) + ":" + Stringify(e.1));
    assert ts == MemberTexts(entries);
  }

  // ---------------------------------------------------------------------------
  // Reading
  // ---------------------------------------------------------------------------

  function HexValue(c: char): (r: Option<int>)
    ensures r.Some? ==> 0 <= r.value < 16
  {
    if '0' <= c <= '9' then Some(c as int - '0' as int)
    else if 'a' <= c <= 'f' then Some(c as int - 'a' as int + 10)
    else if 'A' <= c <= 'F' then Some(c as int - 'A' as int + 10)
    else None
  }

  /** The character a `\uXXXX` escape stands for; `None` for a surrogate code unit. */
  function UnicodeEscape(h0: char, h1: char, h2: char, h3: char): Option<char> {
    if HexValue(h0).Some? && HexValue(h1).Some? && HexValue(h2).Some? && HexValue(h3).Some? then
      var d0, d1, d2, d3 := HexValue(h0).value, HexValue(h1).value, HexValue(h2).value, HexValue(h3).value;
      var n := ((d0 * 16 + d1) * 16 + d2) * 16 + d3;
      if 0xD800 <= n < 0xE000 then None else Some(n as char)
    else None
  }

  /**
   * The characters of a string literal up to its closing quote (the opening
   * quote already read), and the text after the closing quote.
   */
  function ParseStringBody(s: string): (r: Option<(string, string)>)
    ensures r.Some? ==> |r.value.1| < |s|
  {
    if |s| == 0 then None
    else if s[0] == '"' then Some(("", s[1..]))
    else if s[0] < ' ' then None
    else if s[0] == '\\' then
      if |s| < 2 then None
      else
        var e := s[1];
        var simple :=
          if e == '"' then Some('"') else if e == '\\' then Some('\\') else if e == '/' then Some('/')
          else if e == 'b' then Some('\U{0008}') else if e == 'f' then Some('\U{000C}')
          else if e == 'n' then Some('\n') else if e == 'r' then Some('\r') else if e == 't' then Some('\t')
          else None;
        if simple.Some? then
          match ParseStringBody(s[2..])
          case None => None
          case Some((t, rest)) => Some(([simple.value] + t, rest))
        else if e == 'u' && |s| >= 6 && UnicodeEscape(s[2], s[3], s[4], s[5]).Some? then
          match ParseStringBody(s[6..])
          case None => None
          case Some((t, rest)) => Some(([UnicodeEscape(s[2], s[3], s[4], s[5]).value] + t, rest))
        else None
    else
      match ParseStringBody(s[1..])
      case None => None
      case Some((t, rest)) => Some(([s[0]] + t, rest))
  }

  /** The longest prefix of `s` made of decimal digits. */
  function DigitRun(s: string): (d: string)
    ensures |d| <= |s| && d == s[..|d|]
    ensures forall i :: 0 <= i < |d| ==> IsDigit(d[i])
    ensures |d| < |s| ==> !IsDigit(s[|d|])
  {
    if |s| > 0 && IsDigit(s[0]) then [s[0]] + DigitRun(s[1..]) else ""
  }

  /** A natural number without superfluous leading zeros, and the text after it. */
  function ParseNat(s: string): (r: Option<(nat, string)>)
    ensures r.Some? ==> |r.value.1| < |s|
  {
    var d := DigitRun(s);
    if |d| == 0 || (|d| > 1 && d[0] == '0') then None
    else Some((DigitsValue(d), s[|d|..]))
  }

  function ParseNumber(s: string): (r: Option<(Json, string)>)
    ensures r.Some? ==> |r.value.1| < |s|
  {
    if |s| > 0 && s[0] == '-' then
      match ParseNat(s[1..])
      case None => None
      case Some((n, rest)) => Some((JNum(-(n as int)), rest))
    else
      match ParseNat(s)
      case None => None
      case Some((n, rest)) => Some((JNum(n), rest))
  }

  /** `null`, `true` or `false` at the start of `s`. */
  function ParseLiteral(s: string): (r: Option<(Json, string)>)
    ensures r.Some? ==> |r.value.1| < |s|
  {
    if StartsWith(s, "null") then Some((JNull, s[4..]))
    else if StartsWith(s, "true") then Some((JBool(true), s[4..]))
    else if StartsWith(s, "false") then Some((JBool(false), s[5..]))
    else None
  }

  /** A string literal at the start of `s`. */
  function ParseString(s: string): (r: Option<(Json, string)>)
    requires |s| > 0
    ensures r.Some? ==> |r.value.1| < |s|
  {
    match ParseStringBody(s[1..])
    case None => None
    case Some((t, rest)) => Some((JStr(t), rest))
  }

  /** One JSON value at the start of `s`, and the text after it. */
  function ParseValue(s: string): (r: Option<(Json, string)>)
    ensures r.Some? ==> |r.value.1| < |s|
    decreases |s|, 1
  {
    if |s| == 0 then None
    else if s[0] == '-' || IsDigit(s[0]) then ParseNumber(s)
    else if s[0] == '"' then ParseString(s)
    else if s[0] == '[' then ParseArray(s)
    else if s[0] == '{' then ParseObject(s)
    else ParseLiteral(s)
  }

  /** An array at the start of `s` (which starts with `[`). */
  function ParseArray(s: string): (r: Option<(Json, string)>)
    requires |s| > 0
    ensures r.Some? ==> |r.value.1| < |s|
    decreases |s|, 0
  {
    if |s| > 1 && s[1] == ']' then Some((JArr([]), s[2..]))
    else
      match ParseElements(s[1..])
      case None => None
      case Some((items, rest)) => Some((JArr(items), rest))
  }

  /** An object at the start of `s` (which starts with `{`). */
  function ParseObject(s: string): (r: Option<(Json, string)>)
    requires |s| > 0
    ensures r.Some? ==> |r.value.1| < |s|
    decreases |s|, 0
  {
    if |s| > 1 && s[1] == '}' then Some((JObj([]), s[2..]))
    else
      match ParseMembers(s[1..])
      case None => None
      case Some((entries, rest)) => Some((JObj(entries), rest))
  }

  /** `value (',' value)* ']'`: the elements of a non-empty array and the text after it. */
  function ParseElements(s: string): (r: Option<(seq<Json>, string)>)
    ensures r.Some? ==> |r.value.1| < |s|
    decreases |s|, 2
  {
    match ParseValue(s)
    case None => None
    case Some((v, rest)) =>
      if |rest| > 0 && rest[0] == ']' then Some(([v], rest[1..]))
      else if |rest| > 0 && rest[0] == ',' then
        match ParseElements(rest[1..])
        case None => None
        case Some((vs, rest2)) => Some(([v] + vs, rest2))
      else None
  }

  /** `"key":value (',' "key":value)* '}'`: the properties of a non-empty object and the text after it. */
  function ParseMembers(s: string): (r: Option<(seq<(string, Json)>, string)>)
    ensures r.Some? ==> |r.value.1| < |s|
    decreases |s|, 2
  {
    if |s| == 0 || s[0] != '"' then None
    else
      match ParseStringBody(s[1..])
      case None => None
      case Some((k, rest)) =>
        if |rest| == 0 || rest[0] != ':' then None
        else
          match ParseValue(rest[1..])
          case None => None
          case Some((v, rest2)) =>
            if |rest2| > 0 && rest2[0] == '}' then Some(([(k, v)], rest2[1..]))
            else if |rest2| > 0 && rest2[0] == ',' then
              match ParseMembers(rest2[1..])
              case None => None
              case Some((es, rest3)) => Some(([(k, v)] + es, rest3))
            else None
  }

  /** `JSON.parse(text)` for the texts this module reads: one value and nothing after it. */
  function Parse(text: string): Option<Json> {
    match ParseValue(text)
    case Some((v, rest)) => if rest == "" then Some(v) else None
    case None => None
  }

  // ---------------------------------------------------------------------------
  // Reading back what was written
  // ---------------------------------------------------------------------------

  /** What may follow a value for the value to end where it does: anything but a digit. */
  predicate Delimited(rest: string) {
    rest == [] || !IsDigit(rest[0])
  }

  /** Putting `c` in front of a parsed string body. */
  function ConsChar(c: char, o: Option<(string, string)>): Option<(string, string)> {
    match o
    case None => None
    case Some((t, rest)) => Some(([c] + t, rest))
  }

  lemma HexRoundTrip(d: int)
    requires 0 <= d < 16
    ensures HexValue(HexChar(d)) == Some(d)
  {
  }

  /** Reading an escaped character yields that character, then reading goes on after it. */
  lemma EscapeCharRoundTrip(c: char, t: string)
    ensures ParseStringBody(EscapeChar(c) + t) == ConsChar(c, ParseStringBody(t))
  {
    var s := EscapeChar(c) + t;
    if c == '"' || c == '\\' || c == '\U{0008}' || c == '\U{000C}' || c == '\n' || c == '\r' || c == '\t' {
      assert s[2..] == t;
    } else if c < ' ' {
      ControlCharRoundTrip(c, t);
    } else {
      assert s[1..] == t;
    }
  }

  /** A control character without a short escape is read back from its `\u00XX` escape. */
  lemma ControlCharRoundTrip(c: char, t: string)
    requires c < ' ' && c != '\U{0008}' && c != '\U{000C}' && c != '\n' && c != '\r' && c != '\t'
    ensures ParseStringBody(EscapeChar(c) + t) == ConsChar(c, ParseStringBody(t))
  {
    var s := EscapeChar(c) + t;
    var hi, lo := HexChar(c as int / 16), HexChar(c as int % 16);
    HexRoundTrip(c as int / 16);
    HexRoundTrip(c as int % 16);
    assert EscapeChar(c) == ['\\', 'u', '0', '0', hi, lo];
    assert s[0] == '\\' && s[1] == 'u' && s[2] == '0' && s[3] == '0' && s[4] == hi && s[5] == lo;
    assert UnicodeEscape('0', '0', hi, lo) == Some(c);
    assert s[6..] == t;
  }

  /** Reading an escaped string and its closing quote yields the string. */
  lemma {:induction false} StringBodyRoundTrip(str: string, rest: string)
    ensures ParseStringBody(EscapeString(str) + "\"" + rest) == Some((str, rest))
  {
    if str == [] {
      assert EscapeString(str) + "\"" + rest == "\"" + rest;
    } else {
      var tail := EscapeString(str[1..]) + "\"" + rest;
      assert EscapeString(str) + "\"" + rest == EscapeChar(str[0]) + tail;
      EscapeCharRoundTrip(str[0], tail);
      StringBodyRoundTrip(str[1..], rest);
      assert [str[0]] + str[1..] == str;
    }
  }

  lemma {:induction false} DigitRunOfDigits(d: string, rest: string)
    requires forall i :: 0 <= i < |d| ==> IsDigit(d[i])
    requires Delimited(rest)
    ensures DigitRun(d + rest) == d
  {
    if d != [] {
      DigitRunOfDigits(d[1..], rest);
      assert (d + rest)[1..] == d[1..] + rest;
      assert [d[0]] + d[1..] == d;
    }
  }

  lemma NatRoundTrip(n: nat, rest: string)
    requires Delimited(rest)
    ensures ParseNat(NatToString(n) + rest) == Some((n, rest))
  {
    var d := NatToString(n);
    DigitRunOfDigits(d, rest);
    NatToStringValue(n);
    assert (d + rest)[|d|..] == rest;
  }

  lemma NonNegativeRoundTrip(n: nat, rest: string)
    requires Delimited(rest)
    ensures ParseNumber(NatToString(n) + rest) == Some((JNum(n), rest))
  {
    NatRoundTrip(n, rest);
    assert (NatToString(n) + rest)[0] == NatToString(n)[0];
  }

  lemma NegativeRoundTrip(m: nat, rest: string)
    requires Delimited(rest)
    ensures ParseNumber("-" + NatToString(m) + rest) == Some((JNum(-(m as int)), rest))
  {
    var s := "-" + NatToString(m) + rest;
    assert s[0] == '-';
    assert s[1..] == NatToString(m) + rest;
    NatRoundTrip(m, rest);
  }

  lemma NumberRoundTrip(n: int, rest: string)
    requires Delimited(rest)
    ensures ParseNumber(IntToString(n) + rest) == Some((JNum(n), rest))
  {
    if n < 0 {
      NegativeRoundTrip(-n, rest);
    } else {
      NonNegativeRoundTrip(n, rest);
    }
  }

  /** The text of a value never starts with a closing bracket or brace. */
  lemma FirstChar(v: Json)
    ensures |Stringify(v)| > 0
    ensures Stringify(v)[0] in "ntf\"[{-" || IsDigit(Stringify(v)[0])
  {
    match v
    case JNum(n) => if n >= 0 { assert IsDigit(NatToString(n)[0]); }
    case _ =>
  }

  /** Reading the text of a value gives the value back, and stops right after it. */
  lemma {:induction false} ValueRoundTrip(v: Json, rest: string)
    requires Delimited(rest)
    ensures ParseValue(Stringify(v) + rest) == Some((v, rest))
    decreases v, 1
  {
    match v
    case JArr(_) => ArrayRoundTrip(v, rest);
    case JObj(_) => ObjectRoundTrip(v, rest);
    case _ => ScalarRoundTrip(v, rest);
  }

  lemma ScalarRoundTrip(v: Json, rest: string)
    requires !v.JArr? && !v.JObj?
    requires Delimited(rest)
    ensures ParseValue(Stringify(v) + rest) == Some((v, rest))
  {
    match v
    case JNull => NullRoundTrip(rest);
    case JBool(b) => BoolRoundTrip(b, rest);
    case JNum(n) => NumberValueRoundTrip(n, rest);
    case JStr(str) => StringRoundTrip(str, rest);
  }

  lemma NullRoundTrip(rest: string)
    ensures ParseValue(Stringify(JNull) + rest) == Some((JNull, rest))
  {
    var s := "null" + rest;
    assert s[0] == 'n' && s[..4] == "null" && s[4..] == rest;
  }

  lemma BoolRoundTrip(b: bool, rest: string)
    ensures ParseValue(Stringify(JBool(b)) + rest) == Some((JBool(b), rest))
  {
    if b {
      var s := "true" + rest;
      assert s[0] == 't' && s[..4] == "true" && s[4..] == rest;
    } else {
      var s := "false" + rest;
      assert s[0] == 'f' && s[..5] == "false" && s[5..] == rest;
    }
  }

  lemma NumberValueRoundTrip(n: int, rest: string)
    requires Delimited(rest)
    ensures ParseValue(Stringify(JNum(n)) + rest) == Some((JNum(n), rest))
  {
    var s := IntToString(n) + rest;
    NumberRoundTrip(n, rest);
    if n < 0 {
      assert s[0] == '-';
    } else {
      assert IsDigit(NatToString(n)[0]);
      assert s[0] == NatToString(n)[0];
    }
  }

  lemma StringRoundTrip(str: string, rest: string)
    ensures ParseValue(Stringify(JStr(str)) + rest) == Some((JStr(str), rest))
  {
    var s := Quote(str) + rest;
    assert s == "\"" + (EscapeString(str) + "\"" + rest);
    assert s[0] == '"';
    assert s[1..] == EscapeString(str) + "\"" + rest;
    StringBodyRoundTrip(str, rest);
  }

  lemma {:induction false} ArrayRoundTrip(v: Json, rest: string)
    requires v.JArr?
    requires Delimited(rest)
    ensures ParseValue(Stringify(v) + rest) == Some((v, rest))
    decreases v, 0, |v.items| + 1
  {
    var items := v.items;
    var s := Stringify(v) + rest;
    StringifyArray(items);
    if |items| == 0 {
      assert Join(ItemTexts(items), ',') == "";
      assert s == "[]" + rest;
      assert s[2..] == rest;
    } else {
      var body := Join(ItemTexts(items), ',') + "]" + rest;
      assert s == "[" + body;
      assert s[1..] == body;
      ElementsRoundTrip(v, 0, rest);
      assert items[0..] == items;
      JoinHead(ItemTexts(items));
      FirstChar(items[0]);
      assert s[1] == Stringify(items[0])[0];
    }
  }

  lemma {:induction false} ObjectRoundTrip(v: Json, rest: string)
    requires v.JObj?
    requires Delimited(rest)
    ensures ParseValue(Stringify(v) + rest) == Some((v, rest))
    decreases v, 0, |v.entries| + 1
  {
    var entries := v.entries;
    var s := Stringify(v) + rest;
    StringifyObject(entries);
    if |entries| == 0 {
      assert Join(MemberTexts(entries), ',') == "";
      assert s == "{}" + rest;
      assert s[2..] == rest;
    } else {
      var body := Join(MemberTexts(entries), ',') + "}" + rest;
      assert s == "{" + body;
      assert s[1..] == body;
      MembersRoundTrip(v, 0, rest);
      assert entries[0..] == entries;
      JoinHead(MemberTexts(entries));
      assert s[1] == MemberTexts(entries)[0][0];
    }
  }

  /** A join of non-empty parts starts with its first part. */
  lemma JoinHead(parts: seq<string>)
    requires |parts| > 0
    ensures |Join(parts, ',')| >= |parts[0]| && Join(parts, ',')[..|parts[0]|] == parts[0]
  {
    if |parts| > 1 {
      assert Join(parts, ',') == parts[0] + ([','] + Join(parts[1..], ','));
    }
  }

  /** A join of two or more parts is the first part, a comma, and the join of the others. */
  lemma JoinCons(parts: seq<string>)
    requires |parts| > 1
    ensures Join(parts, ',') == parts[0] + ([','] + Join(parts[1..], ','))
  {
  }

  /** The text of elements `k..` of an array: the first element's text, then what follows it. */
  lemma ElementsLayout(v: Json, k: nat, rest: string) returns (after: string)
    requires v.JArr? && k < |v.items|
    ensures Join(ItemTexts(v.items[k..]), ',') + "]" + rest == Stringify(v.items[k]) + after
    ensures k == |v.items| - 1 ==> after == "]" + rest
    ensures k < |v.items| - 1 ==> after == "," + (Join(ItemTexts(v.items[k + 1..]), ',') + "]" + rest)
  {
    var items := v.items;
    var ts := ItemTexts(items[k..]);
    if k == |items| - 1 {
      after := "]" + rest;
      assert Join(ts, ',') == ts[0];
    } else {
      var ts' := ItemTexts(items[k + 1..]);
      assert ts[1..] == ts';
      JoinCons(ts);
      after := "," + (Join(ts', ',') + "]" + rest);
    }
  }

  lemma {:induction false} ElementsRoundTrip(v: Json, k: nat, rest: string)
    requires v.JArr? && k < |v.items|
    requires Delimited(rest)
    ensures ParseElements(Join(ItemTexts(v.items[k..]), ',') + "]" + rest) == Some((v.items[k..], rest))
    decreases v, 0, |v.items| - k
  {
    var items := v.items;
    var after := ElementsLayout(v, k, rest);
    ValueRoundTrip(items[k], after);
    if k == |items| - 1 {
      assert after[1..] == rest;
      assert items[k..] == [items[k]];
    } else {
      var tail := Join(ItemTexts(items[k + 1..]), ',') + "]" + rest;
      assert after[1..] == tail;
      ElementsRoundTrip(v, k + 1, rest);
      assert items[k..] == [items[k]] + items[k + 1..];
    }
  }

  /** One step of `ParseMembers`: a key, a colon, a value, then a brace or a comma. */
  lemma ParseMembersStep(s: string, key: string, val: Json, m: string, after: string)
    requires |s| > 0 && s[0] == '"' && ParseStringBody(s[1..]) == Some((key, m))
    requires |m| > 0 && m[0] == ':' && ParseValue(m[1..]) == Some((val, after))
    requires |after| > 0 && (after[0] == '}' || after[0] == ',')
    ensures after[0] == '}' ==> ParseMembers(s) == Some(([(key, val)], after[1..]))
    ensures after[0] == ',' ==>
              ParseMembers(s) == match ParseMembers(after[1..])
                                 case None => None
                                 case Some((es, rest3)) => Some(([(key, val)] + es, rest3))
  {
  }

  lemma MemberTextAssoc(key: string, val: Json, after: string)
    ensures Quote(key) + ":" + Stringify(val) + after
         == "\"" + (EscapeString(key) + "\"" + (":" + (Stringify(val) + after)))
  {
  }

  /** Reading one `"key":value` text: the key, then the colon, then the value. */
  lemma {:induction false} MemberRoundTrip(v: Json, k: nat, after: string)
    requires v.JObj? && k < |v.entries|
    requires |after| > 0 && (after[0] == '}' || after[0] == ',')
    ensures var s := Quote(v.entries[k].0) + ":" + Stringify(v.entries[k].1) + after;
            var m := ":" + (Stringify(v.entries[k].1) + after);
            && |s| > 0 && s[0] == '"' && ParseStringBody(s[1..]) == Some((v.entries[k].0, m))
            && |m| > 0 && m[0] == ':' && ParseValue(m[1..]) == Some((v.entries[k].1, after))
    decreases v, 0, 0
  {
    var key, val := v.entries[k].0, v.entries[k].1;
    assert v.entries[k] in v.entries;
    var s := Quote(key) + ":" + Stringify(val) + after;
    MemberTextAssoc(key, val, after);
    var m := ":" + (Stringify(val) + after);
    assert s[1..] == EscapeString(key) + "\"" + m;
    StringBodyRoundTrip(key, m);
    assert m[1..] == Stringify(val) + after;
    ValueRoundTrip(val, after);
  }

  /** The text of properties `k..` of an object: the first `"key":value`, then what follows it. */
  lemma MembersLayout(v: Json, k: nat, rest: string) returns (after: string)
    requires v.JObj? && k < |v.entries|
    ensures Join(MemberTexts(v.entries[k..]), ',') + "}" + rest
         == Quote(v.entries[k].0) + ":" + Stringify(v.entries[k].1) + after
    ensures k == |v.entries| - 1 ==> after == "}" + rest
    ensures k < |v.entries| - 1 ==>
              after == "," + (Join(MemberTexts(v.entries[k + 1..]), ',') + "}" + rest)
  {
    var entries := v.entries;
    var ts := MemberTexts(entries[k..]);
    if k == |entries| - 1 {
      after := "}" + rest;
      assert Join(ts, ',') == ts[0];
    } else {
      var ts' := MemberTexts(entries[k + 1..]);
      assert ts[1..] == ts';
      JoinCons(ts);
      after := "," + (Join(ts', ',') + "}" + rest);
    }
  }

  lemma {:induction false} MembersRoundTrip(v: Json, k: nat, rest: string)
    requires v.JObj? && k < |v.entries|
    requires Delimited(rest)
    ensures ParseMembers(Join(MemberTexts(v.entries[k..]), ',') + "}" + rest) == Some((v.entries[k..], rest))
    decreases v, 0, |v.entries| - k
  {
    var entries := v.entries;
    var s := Join(MemberTexts(entries[k..]), ',') + "}" + rest;
    var key, val := entries[k].0, entries[k].1;
    var after := MembersLayout(v, k, rest);
    MemberRoundTrip(v, k, after);
    ParseMembersStep(s, key, val, ":" + (Stringify(val) + after), after);
    if k == |entries| - 1 {
      assert after[1..] == rest;
      assert entries[k..] == [(key, val)];
    } else {
      var tail := Join(MemberTexts(entries[k + 1..]), ',') + "}" + rest;
      assert after[1..] == tail;
      MembersRoundTrip(v, k + 1, rest);
      assert ParseMembers(tail) == Some((entries[k + 1..], rest));
      assert entries[k..] == [(key, val)] + entries[k + 1..];
    }
  }

  /** `JSON.parse(JSON.stringify(v))` is `v`. */
  lemma ParseStringify(v: Json)
    ensures Parse(Stringify(v)) == Some(v)
  {
    ValueRoundTrip(v, "");
    assert Stringify(v) + "" == Stringify(v);
  }
}
