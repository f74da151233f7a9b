/**
 The canonical text of a JSON document and the digest taken of it, which is the precondition of
 every access-document write.
 */
module Canonical {
  import opened Common
  import opened Text
  import opened Json

  /****** strings (section 7 of RFC 8259, with the short escapes where there are any) ******/

  function Hex(n: nat): char
    requires n < 16
  {
    if n < 10 then '0' + n as char else 'a' + (n - 10) as char
  }

  function UnHex(c: char): nat {
    if '0' <= c <= '9' then (c - '0') as nat else if 'a' <= c <= 'f' then (c - 'a') as nat + 10 else 0
  }

  function EscapeChar(c: char): string {
    if c == '\"' then "\\\""
    else if c == '\\' then "\\\\"
    else if c == '\U{08}' then "\\b"
    else if c == '\U{0C}' then "\\f"
    else if c == '\n' then "\\n"
    else if c == '\r' then "\\r"
    else if c == '\t' then "\\t"
    else if c < ' ' then "\\u00" + [Hex(c as nat / 16), Hex(c as nat % 16)]
    else [c]
  }

  /** Reads one character back, with what follows it. */
  function UnescapeFirst(s: string): (r: Option<(char, string)>)
    ensures r.Some? ==> |r.value.1| < |s|
  {
    if s == "" || s[0] == '\"' then None
    else if s[0] != '\\' then Some((s[0], s[1..]))
    else if |s| < 2 then None
    else if s[1] == 'u' then
      if |s| < 6 || 16 * UnHex(s[4]) + UnHex(s[5]) >= 256 then None
      else Some(((16 * UnHex(s[4]) + UnHex(s[5])) as char, s[6..]))
    else
      var c := if s[1] == 'b' then '\U{08}' else if s[1] == 'f' then '\U{0C}' else if s[1] == 'n' then '\n'
               else if s[1] == 'r' then '\r' else if s[1] == 't' then '\t' else s[1];
      Some((c, s[2..]))
  }

  lemma EscapeReadsBack(c: char, rest: string)
    ensures UnescapeFirst(EscapeChar(c) + rest) == Some((c, rest))
  {
    var s := EscapeChar(c) + rest;
    if |EscapeChar(c)| == 6 {
      assert s[4] == Hex(c as nat / 16) && s[5] == Hex(c as nat % 16) && s[6..] == rest;
    } else if |EscapeChar(c)| == 2 {
      assert s[2..] == rest;
    } else {
      assert s[1..] == rest;
    }
  }

  function EscapeAll(s: string): string {
    if s == "" then "" else EscapeChar(s[0]) + EscapeAll(s[1..])
  }

  function Quote(s: string): string { "\"" + (EscapeAll(s) + "\"") }

  /** A string's escaped characters, its closing quote, and what follows. */
  function Body(s: string, rest: string): string { EscapeAll(s) + ("\"" + rest) }

  lemma Assoc(a: string, b: string, c: string)
    ensures (a + b) + c == a + (b + c)
  {
  }

  lemma NothingBefore(s: string)
    ensures "" + s == s
  {
  }

  lemma BodyReadsBack(s: string, rest: string)
    ensures s == "" ==> Body(s, rest) == "\"" + rest && UnescapeFirst(Body(s, rest)) == None
    ensures s != "" ==> UnescapeFirst(Body(s, rest)) == Some((s[0], Body(s[1..], rest)))
  {
    if s != "" {
      EscapeReadsBack(s[0], Body(s[1..], rest));
      Assoc(EscapeChar(s[0]), EscapeAll(s[1..]), "\"" + rest);
    } else {
      NothingBefore("\"" + rest);
    }
  }

  /** A quoted string says where it ends and what it says. */
  lemma QuotePrefix(a: string, b: string, x: string, y: string)
    requires Body(a, x) == Body(b, y)
    ensures a == b && x == y
  {
    StringReadsBack(a, x);
    StringReadsBack(b, y);
  }

  lemma Cut(p: string, s: string)
    ensures (p + s)[|p|..] == s
  {
  }

  /****** values ******/

  ghost function Canon(v: Value): string
    decreases v, 1
  {
    match v
    case Null => "null"
    case Bool(b) => if b then "true" else "false"
    case Number(text) => text
    case String(s) => Quote(s)
    case Array(_) => "[" + Items(v, 0)
    case Object(_) => "{" + Fields(v, SortedKeys(v.fields.Keys), 0)
  }

  function Comma(i: nat): string { if i > 0 then "," else "" }

  /** The items from i on, with the closing bracket. */
  ghost function Items(v: Value, i: nat): string
    requires v.Array? && i <= |v.items|
    decreases v, 0, |v.items| - i
  {
    if i == |v.items| then "]" else Comma(i) + Canon(v.items[i]) + Items(v, i + 1)
  }

  /** The fields from the i-th key on, with the closing brace. */
  ghost function Fields(v: Value, keys: seq<string>, i: nat): string
    requires v.Object? && i <= |keys| && forall k | k in keys :: k in v.fields
    decreases v, 0, |keys| - i
  {
    if i == |keys| then "}"
    else Comma(i) + Quote(keys[i]) + ":" + Canon(v.fields[keys[i]]) + Fields(v, keys, i + 1)
  }

  /** What may follow a value inside a document, or its end. */
  predicate Stop(s: string) { s == "" || s[0] in ",]}" }

  lemma FirstChar(v: Value)
    ensures Canon(v) != ""
    ensures var c := Canon(v)[0];
            match v
            case Null => c == 'n'
            case Bool(b) => c == if b then 't' else 'f'
            case Number(text) => NumberChar(c)
            case String(_) => c == '\"'
            case Array(_) => c == '['
            case Object(_) => c == '{'
  {
  }

  /** The length of the leading run of characters of a number. */
  function Lead(s: string): (n: nat)
    ensures n <= |s| && forall i | 0 <= i < n :: NumberChar(s[i])
  {
    if s != "" && NumberChar(s[0]) then 1 + Lead(s[1..]) else 0
  }

  lemma {:induction false} LeadOf(a: string, x: string)
    requires (forall i | 0 <= i < |a| :: NumberChar(a[i])) && Stop(x)
    ensures Lead(a + x) == |a|
    decreases |a|
  {
    if a == "" {
      assert a + x == x;
    } else {
      LeadOf(a[1..], x);
      assert (a + x)[1..] == a[1..] + x;
    }
  }

  lemma NumberPrefix(a: Numeral, b: Numeral, x: string, y: string)
    requires a + x == b + y && Stop(x) && Stop(y)
    ensures a == b && x == y
  {
    LeadOf(a, x);
    LeadOf(b, y);
    assert a == (a + x)[..|a|] && b == (b + y)[..|b|];
    Cut(a, x);
    Cut(b, y);
  }

  lemma StringText(v: Value, x: string)
    requires v.String?
    ensures Canon(v) + x == "\"" + Body(v.s, x)
  {
  }

  lemma ItemsText(v: Value, i: nat, x: string)
    requires v.Array? && i < |v.items|
    ensures Items(v, i) + x == Comma(i) + (Canon(v.items[i]) + (Items(v, i + 1) + x))
  {
  }

  lemma FieldsText(v: Value, keys: seq<string>, i: nat, x: string)
    requires v.Object? && i < |keys| && forall k | k in keys :: k in v.fields
    ensures Fields(v, keys, i) + x
         == (Comma(i) + "\"") + Body(keys[i], ":" + (Canon(v.fields[keys[i]]) + (Fields(v, keys, i + 1) + x)))
  {
    Regroup(Comma(i), EscapeAll(keys[i]), Canon(v.fields[keys[i]]), Fields(v, keys, i + 1), x);
  }

  lemma Regroup(comma: string, key: string, value: string, rest: string, x: string)
    ensures comma + ("\"" + (key + "\"")) + ":" + value + rest + x
         == (comma + "\"") + (key + ("\"" + (":" + (value + (rest + x)))))
  {
  }

  lemma ArrayText(v: Value, x: string)
    requires v.Array?
    ensures Canon(v) + x == "[" + (Items(v, 0) + x) && (Canon(v) + x)[1..] == Items(v, 0) + x
  {
    Assoc("[", Items(v, 0), x);
    Cut("[", Items(v, 0) + x);
  }

  /****** a reader of the text ******/

  /** A string's characters up to its closing quote, and what follows it. */
  function ReadString(s: string): (r: Option<(string, string)>)
    ensures r.Some? ==> |r.value.1| < |s|
    decreases |s|
  {
    if s != "" && s[0] == '\"' then Some(("", s[1..]))
    else
      match UnescapeFirst(s)
      case None => None
      case Some((c, rest)) =>
        match ReadString(rest)
        case None => None
        case Some((more, after)) => Some(([c] + more, after))
  }

  /** The JSON value at the start of the text, and what follows it. */
  function ReadValue(s: string): (r: Option<(Value, string)>)
    ensures r.Some? ==> |r.value.1| < |s|
    decreases |s|, 0
  {
    if s == "" then None
    else if s[0] == '\"' then
      match ReadString(s[1..]) case None => None case Some((text, rest)) => Some((String(text), rest))
    else if s[0] == '[' then
      if |s| > 1 && s[1] == ']' then Some((Array([]), s[2..])) else ReadItems(s[1..], [])
    else if s[0] == '{' then
      if |s| > 1 && s[1] == '}' then Some((Object(map[]), s[2..])) else ReadFields(s[1..], map[])
    else if NumberChar(s[0]) then Some((Number(s[..Lead(s)]), s[Lead(s)..]))
    else if |s| >= 4 && s[..4] == "null" then Some((Null, s[4..]))
    else if |s| >= 4 && s[..4] == "true" then Some((Bool(true), s[4..]))
    else if |s| >= 5 && s[..5] == "false" then Some((Bool(false), s[5..]))
    else None
  }

  /** The rest of an array, from an item on. */
  function ReadItems(s: string, items: seq<Value>): (r: Option<(Value, string)>)
    ensures r.Some? ==> |r.value.1| < |s|
    decreases |s|, 1
  {
    match ReadValue(s)
    case None => None
    case Some((v, rest)) =>
      if rest == "" then None
      else if rest[0] == ']' then Some((Array(items + [v]), rest[1..]))
      else if rest[0] == ',' then ReadItems(rest[1..], items + [v])
      else None
  }

  /** The rest of an object, from a field on. */
  function ReadFields(s: string, fields: map<string, Value>): (r: Option<(Value, string)>)
    ensures r.Some? ==> |r.value.1| < |s|
    decreases |s|, 1
  {
    if s == "" || s[0] != '\"' then None
    else
      match ReadString(s[1..])
      case None => None
      case Some((key, after)) =>
        if after == "" || after[0] != ':' then None
        else
          match ReadValue(after[1..])
          case None => None
          case Some((v, rest)) =>
            if rest == "" then None
            else if rest[0] == '}' then Some((Object(fields[key := v]), rest[1..]))
            else if rest[0] == ',' then ReadFields(rest[1..], fields[key := v])
            else None
  }

  lemma {:induction false} StringReadsBack(s: string, x: string)
    ensures ReadString(Body(s, x)) == Some((s, x))
    decreases |s|
  {
    BodyReadsBack(s, x);
    if s == "" {
      Cut("\"", x);
    } else {
      StringReadsBack(s[1..], x);
      assert s == [s[0]] + s[1..];
      assert Body(s, x)[0] == EscapeChar(s[0])[0];
    }
  }

  lemma NumberReadsBack(text: Numeral, x: string)
    requires Stop(x)
    ensures ReadValue(text + x) == Some((Number(text), x))
  {
    LeadOf(text, x);
    Cut(text, x);
    assert (text + x)[0] == text[0] && (text + x)[..|text|] == text;
  }

  lemma ConstantsReadBack(x: string)
    ensures ReadValue("null" + x) == Some((Null, x))
    ensures ReadValue("true" + x) == Some((Bool(true), x))
    ensures ReadValue("false" + x) == Some((Bool(false), x))
  {
    Cut("null", x);
    Cut("true", x);
    Cut("false", x);
    assert ("null" + x)[..4] == "null" && ("true" + x)[..4] == "true" && ("false" + x)[..5] == "false";
  }

  lemma QuoteReadsBack(v: Value, x: string)
    requires v.String?
    ensures ReadValue(Canon(v) + x) == Some((v, x))
  {
    StringText(v, x);
    Cut("\"", Body(v.s, x));
    assert (Canon(v) + x)[0] == '\"';
    StringReadsBack(v.s, x);
  }

  /** Reading the canonical text of a value gives the value, and what followed it. */
  lemma {:induction false} CanonReadsBack(v: Value, x: string)
    requires Stop(x)
    ensures ReadValue(Canon(v) + x) == Some((v, x))
    decreases v, 1
  {
    match v {
      case Number(text) => NumberReadsBack(text, x);
      case String(_) => QuoteReadsBack(v, x);
      case Array(_) => ArrayReadsBack(v, x);
      case Object(_) => ObjectReadsBack(v, x);
      case _ => ConstantsReadBack(x);
    }
  }

  lemma OpenArray(t: string)
    requires t != ""
    ensures ReadValue("[" + t) == if t[0] == ']' then Some((Array([]), t[1..])) else ReadItems(t, [])
  {
    Cut("[", t);
    assert ("[" + t)[2..] == ("[" + t)[1..][1..];
  }

  lemma OpenObject(t: string)
    requires t != ""
    ensures ReadValue("{" + t) == if t[0] == '}' then Some((Object(map[]), t[1..])) else ReadFields(t, map[])
  {
    Cut("{", t);
    assert ("{" + t)[2..] == ("{" + t)[1..][1..];
  }

  lemma {:induction false} ArrayReadsBack(v: Value, x: string)
    requires v.Array?
    ensures ReadValue(Canon(v) + x) == Some((v, x))
    decreases v, 0, |v.items| + 1
  {
    var t := Items(v, 0) + x;
    ArrayText(v, x);
    ItemsFirst(v, 0);
    assert t[0] == Items(v, 0)[0];
    OpenArray(t);
    if v.items == [] {
      Cut("]", x);
    } else {
      ItemsText(v, 0, x);
      NothingBefore(Canon(v.items[0]) + (Items(v, 1) + x));
      ItemsReadBack(v, 0, x);
      assert v.items[..0] == [];
    }
  }

  lemma {:induction false} ItemsReadBack(v: Value, i: nat, x: string)
    requires v.Array? && i < |v.items|
    ensures ReadItems(Canon(v.items[i]) + (Items(v, i + 1) + x), v.items[..i]) == Some((v, x))
    decreases v, 0, |v.items| - i
  {
    var rest := Items(v, i + 1) + x;
    ItemsFirst(v, i + 1);
    assert rest[0] == Items(v, i + 1)[0];
    CanonReadsBack(v.items[i], rest);
    assert v.items[..i + 1] == v.items[..i] + [v.items[i]];
    if i + 1 == |v.items| {
      assert v.items[..i + 1] == v.items;
      Cut("]", x);
    } else {
      ItemsText(v, i + 1, x);
      Cut(",", Canon(v.items[i + 1]) + (Items(v, i + 2) + x));
      ItemsReadBack(v, i + 1, x);
    }
  }

  /** The first i fields. */
  function FieldsUpTo(v: Value, keys: seq<string>, i: nat): map<string, Value>
    requires v.Object? && i <= |keys| && forall k | k in keys :: k in v.fields
  {
    if i == 0 then map[] else FieldsUpTo(v, keys, i - 1)[keys[i - 1] := v.fields[keys[i - 1]]]
  }

  lemma {:induction false} FieldsUpToHas(v: Value, keys: seq<string>, i: nat)
    requires v.Object? && i <= |keys| && forall k | k in keys :: k in v.fields
    ensures FieldsUpTo(v, keys, i).Keys == Elements(keys[..i])
    ensures forall k | k in FieldsUpTo(v, keys, i) :: k in v.fields && FieldsUpTo(v, keys, i)[k] == v.fields[k]
    decreases i
  {
    if i > 0 {
      FieldsUpToHas(v, keys, i - 1);
      assert keys[..i] == keys[..i - 1] + [keys[i - 1]];
      assert Elements(keys[..i]) == Elements(keys[..i - 1]) + {keys[i - 1]};
    }
  }

  lemma AllFields(v: Value, keys: seq<string>)
    requires v.Object? && Elements(keys) == v.fields.Keys
    ensures (forall k | k in keys :: k in v.fields) && FieldsUpTo(v, keys, |keys|) == v.fields
  {
    assert forall k | k in keys :: k in Elements(keys);
    FieldsUpToHas(v, keys, |keys|);
    assert keys[..|keys|] == keys;
  }

  lemma {:induction false} ObjectReadsBack(v: Value, x: string)
    requires v.Object?
    ensures ReadValue(Canon(v) + x) == Some((v, x))
    decreases v, 0, |SortedKeys(v.fields.Keys)| + 1
  {
    var keys := SortedKeys(v.fields.Keys);
    var t := Fields(v, keys, 0) + x;
    AllFields(v, keys);
    ObjectText(v, x);
    FieldsFirst(v, keys, 0);
    assert t[0] == Fields(v, keys, 0)[0];
    OpenObject(t);
    if keys == [] {
      Cut("}", x);
    } else {
      FieldTextAfterComma(v, keys, 0, x);
      NothingBefore(FieldText(v, keys, 0, x));
      FieldsReadBack(v, keys, 0, x);
    }
  }

  /** A field's text after its comma: its key, its value, and the rest of the object. */
  ghost function FieldText(v: Value, keys: seq<string>, i: nat, x: string): string
    requires v.Object? && i < |keys| && forall k | k in keys :: k in v.fields
  {
    "\"" + Body(keys[i], ":" + (Canon(v.fields[keys[i]]) + (Fields(v, keys, i + 1) + x)))
  }

  lemma FieldTextAfterComma(v: Value, keys: seq<string>, i: nat, x: string)
    requires v.Object? && i < |keys| && forall k | k in keys :: k in v.fields
    ensures Fields(v, keys, i) + x == Comma(i) + FieldText(v, keys, i, x)
  {
    FieldsText(v, keys, i, x);
    Assoc(Comma(i), "\"", Body(keys[i], ":" + (Canon(v.fields[keys[i]]) + (Fields(v, keys, i + 1) + x))));
  }

  lemma {:induction false} FieldsReadBack(v: Value, keys: seq<string>, i: nat, x: string)
    requires v.Object? && i < |keys| && (forall k | k in keys :: k in v.fields)
    requires FieldsUpTo(v, keys, |keys|) == v.fields
    ensures ReadFields(FieldText(v, keys, i, x), FieldsUpTo(v, keys, i)) == Some((v, x))
    decreases v, 0, |keys| - i
  {
    var key, rest := keys[i], Fields(v, keys, i + 1) + x;
    FieldsFirst(v, keys, i + 1);
    assert rest[0] == Fields(v, keys, i + 1)[0];
    var value := Canon(v.fields[key]) + rest;
    Cut("\"", Body(key, ":" + value));
    StringReadsBack(key, ":" + value);
    Cut(":", value);
    CanonReadsBack(v.fields[key], rest);
    if i + 1 == |keys| {
      Cut("}", x);
    } else {
      FieldTextAfterComma(v, keys, i + 1, x);
      Cut(",", FieldText(v, keys, i + 1, x));
      FieldsReadBack(v, keys, i + 1, x);
    }
  }

  lemma ObjectText(v: Value, x: string)
    requires v.Object?
    ensures Canon(v) + x == "{" + (Fields(v, SortedKeys(v.fields.Keys), 0) + x)
  {
  }

  lemma ItemsFirst(v: Value, i: nat)
    requires v.Array? && i <= |v.items|
    ensures Items(v, i) != "" && (Items(v, i)[0] == ']' <==> i == |v.items|)
    ensures 0 < i ==> Stop(Items(v, i))
  {
    if i < |v.items| { FirstChar(v.items[i]); }
  }

  lemma FieldsFirst(v: Value, keys: seq<string>, i: nat)
    requires v.Object? && i <= |keys| && forall k | k in keys :: k in v.fields
    ensures Fields(v, keys, i) != "" && (Fields(v, keys, i)[0] == '}' <==> i == |keys|)
    ensures 0 < i ==> Stop(Fields(v, keys, i))
  {
  }

  /** The text of a value says where it ends and which value it is. */
  lemma CanonPrefix(a: Value, b: Value, x: string, y: string)
    requires Canon(a) + x == Canon(b) + y && Stop(x) && Stop(y)
    ensures a == b && x == y
  {
    CanonReadsBack(a, x);
    CanonReadsBack(b, y);
  }

  /** Two values have one canonical text exactly when they are equal. */
  lemma CanonicalFormDecidesEquality(a: Value, b: Value)
    ensures Canon(a) == Canon(b) <==> a == b
  {
    if Canon(a) == Canon(b) {
      assert Canon(a) + "" == Canon(b) + "";
      CanonPrefix(a, b, "", "");
    }
  }

  /****** the library's equality ******/

  /** `==` on values: as here, but for the two zeros that are not integers. */
  predicate LibraryEqual(a: Value, b: Value)
    decreases a
  {
    match (a, b)
    case (Number(s), Number(t)) => s == t || (s in {"0.0", "-0.0"} && t in {"0.0", "-0.0"})
    case (Array(s), Array(t)) => |s| == |t| && forall i | 0 <= i < |s| :: LibraryEqual(s[i], t[i])
    case (Object(f), Object(g)) => f.Keys == g.Keys && forall k | k in f :: LibraryEqual(f[k], g[k])
    case _ => a == b
  }

  predicate NoNegativeZero(v: Value)
    decreases v
  {
    match v
    case Number(text) => text != "-0.0"
    case Array(items) => forall i | 0 <= i < |items| :: NoNegativeZero(items[i])
    case Object(fields) => forall k | k in fields :: NoNegativeZero(fields[k])
    case _ => true
  }

  lemma {:induction false} LibraryEqualIsEqual(a: Value, b: Value)
    requires NoNegativeZero(a) && NoNegativeZero(b)
    ensures LibraryEqual(a, b) <==> a == b
    decreases a
  {
    if a.Array? && b.Array? && |a.items| == |b.items| {
      forall i | 0 <= i < |a.items| ensures LibraryEqual(a.items[i], b.items[i]) <==> a.items[i] == b.items[i] {
        LibraryEqualIsEqual(a.items[i], b.items[i]);
      }
    } else if a.Object? && b.Object? && a.fields.Keys == b.fields.Keys {
      forall k | k in a.fields ensures LibraryEqual(a.fields[k], b.fields[k]) <==> a.fields[k] == b.fields[k] {
        LibraryEqualIsEqual(a.fields[k], b.fields[k]);
      }
      assert (forall k | k in a.fields :: a.fields[k] == b.fields[k]) ==> a.fields == b.fields;
    }
  }

  /** Without a negative zero, values the library holds equal, and only they, have one canonical text. */
  lemma LibraryEqualIffSameText(a: Value, b: Value)
    requires NoNegativeZero(a) && NoNegativeZero(b)
    ensures Canon(a) == Canon(b) <==> LibraryEqual(a, b)
  {
    LibraryEqualIsEqual(a, b);
    CanonicalFormDecidesEquality(a, b);
  }

  /** Neither zero that is not an integer, anywhere. */
  predicate NoZero(v: Value)
    decreases v
  {
    match v
    case Number(text) => text != "0.0" && text != "-0.0"
    case Array(items) => forall i | 0 <= i < |items| :: NoZero(items[i])
    case Object(fields) => forall k | k in fields :: NoZero(fields[k])
    case _ => true
  }

  lemma {:induction false} NoZeroIsRigid(v: Value, w: Value)
    requires NoZero(v) && LibraryEqual(v, w)
    ensures v == w
    decreases v
  {
    match v {
      case Array(items) =>
        forall i | 0 <= i < |items| ensures items[i] == w.items[i] { NoZeroIsRigid(items[i], w.items[i]); }
      case Object(fields) =>
        forall k | k in fields ensures fields[k] == w.fields[k] { NoZeroIsRigid(fields[k], w.fields[k]); }
        assert fields == w.fields;
      case _ =>
    }
  }

  /** The value with each such zero for the other. */
  function Flipped(v: Value): Value
    decreases v
  {
    match v
    case Number(text) => if text == "0.0" then Number("-0.0") else if text == "-0.0" then Number("0.0") else v
    case Array(items) => Array(seq(|items|, i requires 0 <= i < |items| => Flipped(items[i])))
    case Object(fields) => Object(map k | k in fields :: Flipped(fields[k]))
    case _ => v
  }

  lemma {:induction false} FlippedIsEqual(v: Value)
    ensures LibraryEqual(v, Flipped(v))
    ensures Flipped(v) == v ==> NoZero(v)
    decreases v
  {
    match v {
      case Number(text) => assert "0.0"[0] != "-0.0"[0];
      case Array(items) =>
        forall i | 0 <= i < |items| ensures LibraryEqual(items[i], Flipped(items[i])) && (Flipped(items[i]) == items[i] ==> NoZero(items[i])) {
          FlippedIsEqual(items[i]);
        }
        forall i | 0 <= i < |items| && Flipped(v) == v ensures NoZero(items[i]) { assert Flipped(v).items[i] == Flipped(items[i]); }
      case Object(fields) =>
        forall k | k in fields ensures LibraryEqual(fields[k], Flipped(fields[k])) && (Flipped(fields[k]) == fields[k] ==> NoZero(fields[k])) {
          FlippedIsEqual(fields[k]);
        }
        forall k | k in fields && Flipped(v) == v ensures NoZero(fields[k]) { assert Flipped(v).fields[k] == Flipped(fields[k]); }
      case _ =>
    }
  }

  /** All that the library holds equal to a value have its canonical text exactly if it has no such zero. */
  lemma OneTextIffNoZero(v: Value)
    ensures NoZero(v) <==> forall w :: LibraryEqual(v, w) ==> Canon(w) == Canon(v)
  {
    if NoZero(v) {
      forall w | LibraryEqual(v, w) ensures Canon(w) == Canon(v) { NoZeroIsRigid(v, w); }
    } else {
      FlippedIsEqual(v);
      CanonicalFormDecidesEquality(Flipped(v), v);
      assert LibraryEqual(v, Flipped(v)) && Canon(Flipped(v)) != Canon(v);
    }
  }

  /** With one, equal values can have two: a reviewed document and its equal have two digests. */
  lemma ZeroHasTwoTexts()
    ensures var a, b := Number("0.0"), Number("-0.0"); LibraryEqual(a, b) && Canon(a) != Canon(b)
  {
    assert "0.0"[0] != "-0.0"[0];
  }

  /** The writer, appending to one buffer; the keys come in whatever order the map yields them. */
  class Writer {
    var output: string

    constructor ()
      ensures output == ""
    {
      output := "";
    }

    method Write(v: Value)
      modifies this
      ensures output == old(output) + Canon(v)
      decreases v, 1
    {
      match v {
        case Array(_) => WriteItems(v);
        case Object(_) => WriteFields(v);
        case Null => output := output + "null";
        case Bool(b) => output := output + if b then "true" else "false";
        case Number(text) => output := output + text;
        case String(s) => output := output + Quote(s);
      }
    }

    method WriteItems(v: Value)
      requires v.Array?
      modifies this
      ensures output == old(output) + Canon(v)
      decreases v, 0
    {
      output := output + "[";
      var i := 0;
      while i < |v.items|
        invariant 0 <= i <= |v.items|
        invariant output + Items(v, i) == old(output) + Canon(v)
      {
        ghost var was := output;
        output := output + Comma(i);
        Write(v.items[i]);
        ItemsText(v, i, "");
        Assoc3(was, Comma(i), Canon(v.items[i]), Items(v, i + 1));
        i := i + 1;
      }
      output := output + "]";
    }

    method WriteFields(v: Value)
      requires v.Object?
      modifies this
      ensures output == old(output) + Canon(v)
      decreases v, 0
    {
      output := output + "{";
      var keys := Sort(v.fields.Keys);
      assert forall k | k in keys :: k in Elements(keys);
      var i := 0;
      while i < |keys|
        invariant 0 <= i <= |keys|
        invariant output + Fields(v, keys, i) == old(output) + Canon(v)
      {
        ghost var was := output;
        var name := Comma(i) + Quote(keys[i]) + ":";
        output := output + name;
        Write(v.fields[keys[i]]);
        assert Fields(v, keys, i) == name + Canon(v.fields[keys[i]]) + Fields(v, keys, i + 1);
        Assoc3(was, name, Canon(v.fields[keys[i]]), Fields(v, keys, i + 1));
        i := i + 1;
      }
      output := output + "}";
    }
  }

  lemma Assoc3(a: string, b: string, c: string, d: string)
    ensures ((a + b) + c) + d == a + (b + c + d)
  {
  }

  /****** the digest and the precondition it makes ******/

  function LowerChar(c: char): char { if 'A' <= c <= 'Z' then c - 'A' + 'a' else c }

  function Lower(s: string): (r: string)
    ensures |r| == |s| && forall i | 0 <= i < |s| :: r[i] == LowerChar(s[i])
  {
    seq(|s|, i requires 0 <= i < |s| => LowerChar(s[i]))
  }

  type Hash = string -> string

  /** What SHA-256 in lowercase hex is taken to be: collision-free, and free of capitals. */
  ghost predicate GoodHash(hash: Hash) {
    && (forall s, t :: hash(s) == hash(t) ==> s == t)
    && (forall s, i :: 0 <= i < |hash(s)| ==> !('A' <= hash(s)[i] <= 'Z'))
  }

  ghost function Digest(hash: Hash, v: Value): string { hash(Canon(v)) }

  /** Passes when no digest is expected, or the live one matches it but for case. */
  ghost predicate CheckDigest(hash: Hash, expected: Option<string>, document: Value) {
    expected.Some? ==> Lower(Digest(hash, document)) == Lower(expected.value)
  }

  lemma LowercaseStays(s: string)
    requires forall i | 0 <= i < |s| :: !('A' <= s[i] <= 'Z')
    ensures Lower(s) == s
  {
  }

  /** The digest precondition passes exactly on the document the digest was taken of. */
  lemma DigestPreconditionMeansEquality(hash: Hash, reviewed: Value, live: Value)
    requires GoodHash(hash)
    ensures CheckDigest(hash, Some(Digest(hash, reviewed)), live) <==> live == reviewed
  {
    LowercaseStays(Digest(hash, reviewed));
    LowercaseStays(Digest(hash, live));
    CanonicalFormDecidesEquality(live, reviewed);
  }
}
