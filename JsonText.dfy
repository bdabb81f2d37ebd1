/**
 * The text form of the `answers_json` column: `json.dumps` on write and
 * `json.loads` on the admin read. The format is a compact JSON (no
 * whitespace; inside strings only `"` and `\` are escaped). What the store
 * relies on is that reading back what was written gives the same value,
 * and that the reader rejects text it cannot parse.
 */
module JsonText {
  import opened Wrappers
  import opened Json
  import Numerals

  // ---------------------------------------------------------------- writing

  function EscapeChar(c: char): string
  {
    if c == '"' || c == '\\' then ['\\', c] else [c]
  }

  function Escape(s: string): string
    decreases |s|
  {
    if s == [] then "" else EscapeChar(s[0]) + Escape(s[1..])
  }

  function Quote(s: string): string
  {
    "\"" + Escape(s) + "\""
  }

  /** `json.dumps(j)`. */
  function Encode(j: Json): string
    decreases j, 1
  {
    match j
    case Null => "null"
    case Bool(b) => if b then "true" else "false"
    case Int(i) => Numerals.IntToDecimal(i)
    case Str(s) => Quote(s)
    case List(items) => "[" + EncodeItems(items) + "]"
    case Object(ms) => "{" + EncodeMembers(ms) + "}"
  }

  /** The items of a list, separated by commas. */
  function EncodeItems(items: seq<Json>): string
    decreases items, 0
  {
    if items == [] then ""
    else if |items| == 1 then Encode(items[0])
    else Encode(items[0]) + "," + EncodeItems(items[1..])
  }

  /** The members of an object, `"key":value`, separated by commas. */
  function EncodeMembers(ms: seq<Member>): string
    decreases ms, 0
  {
    if ms == [] then ""
    else
      var first := Quote(ms[0].key) + ":" + Encode(ms[0].value);
      if |ms| == 1 then first else first + "," + EncodeMembers(ms[1..])
  }

  // ---------------------------------------------------------------- reading

  /** Reads the rest of a string literal after its opening quote. */
  function ParseChars(s: string): (r: Option<(string, string)>)
    ensures r.Some? ==> |r.value.1| < |s|
    decreases |s|
  {
    if s == [] then None
    else if s[0] == '"' then Some(([], s[1..]))
    else if s[0] == '\\' then
      if |s| >= 2 && (s[1] == '"' || s[1] == '\\') then
        match ParseChars(s[2..])
        case Some((cs, rest)) => Some(([s[1]] + cs, rest))
        case None => None
      else None
    else
      match ParseChars(s[1..])
      case Some((cs, rest)) => Some(([s[0]] + cs, rest))
      case None => None
  }

  /** Reads a run of digits as a natural number. */
  function ParseDigitRun(s: string): (r: Option<(nat, string)>)
    ensures r.Some? ==> |r.value.1| < |s|
  {
    var k := Numerals.DigitRun(s);
    if k == 0 then None else Some((Numerals.DigitsValue(s[..k]), s[k..]))
  }

  /** Reads an integer: an optional minus sign and at least one digit. */
  function ParseNumber(s: string): (r: Option<(Json, string)>)
    ensures r.Some? ==> |r.value.1| < |s|
  {
    if s != [] && s[0] == '-' then
      match ParseDigitRun(s[1..])
      case Some((v, rest)) => Some((Int(-(v as int)), rest))
      case None => None
    else
      match ParseDigitRun(s)
      case Some((v, rest)) => Some((Int(v), rest))
      case None => None
  }

  /** Reads the keyword `word`, standing for `j`. */
  function ParseLiteral(s: string, word: string, j: Json): (r: Option<(Json, string)>)
    requires word != []
    ensures r.Some? ==> |r.value.1| < |s|
  {
    if |s| >= |word| && s[..|word|] == word then Some((j, s[|word|..])) else None
  }

  /** Reads a string literal; `s` starts with its opening quote. */
  function ParseString(s: string): (r: Option<(Json, string)>)
    requires s != []
    ensures r.Some? ==> |r.value.1| < |s|
  {
    match ParseChars(s[1..])
    case Some((cs, rest)) => Some((Str(cs), rest))
    case None => None
  }

  /** Reads a list; `s` starts with its `[`. */
  function ParseList(s: string): (r: Option<(Json, string)>)
    requires s != []
    ensures r.Some? ==> |r.value.1| < |s|
    decreases |s|, 1
  {
    if |s| >= 2 && s[1] == ']' then Some((List([]), s[2..]))
    else
      match ParseItems(s[1..])
      case Some((items, rest)) => Some((List(items), rest))
      case None => None
  }

  /** Reads an object; `s` starts with its `{`. */
  function ParseObject(s: string): (r: Option<(Json, string)>)
    requires s != []
    ensures r.Some? ==> |r.value.1| < |s|
    decreases |s|, 1
  {
    if |s| >= 2 && s[1] == '}' then Some((Object([]), s[2..]))
    else
      match ParseMembers(s[1..])
      case Some((ms, rest)) => Some((Object(ms), rest))
      case None => None
  }

  /**
   * Reads one value from the front of `s` and returns it with the text
   * after it. The remainder is always shorter than `s`, which is what lets
   * the mutually recursive readers terminate.
   */
  function ParseValue(s: string): (r: Option<(Json, string)>)
    ensures r.Some? ==> |r.value.1| < |s|
    decreases |s|, 2
  {
    if s == [] then None
    else if s[0] == 'n' then ParseLiteral(s, "null", Null)
    else if s[0] == 't' then ParseLiteral(s, "true", Bool(true))
    else if s[0] == 'f' then ParseLiteral(s, "false", Bool(false))
    else if s[0] == '"' then ParseString(s)
    else if s[0] == '[' then ParseList(s)
    else if s[0] == '{' then ParseObject(s)
    else ParseNumber(s)
  }

  /** Reads `item,item,...,item]` and returns the items and the text after `]`. */
  function ParseItems(s: string): (r: Option<(seq<Json>, string)>)
    ensures r.Some? ==> |r.value.1| < |s|
    decreases |s|, 3
  {
    match ParseValue(s)
    case None => None
    case Some((v, rest)) => ItemsAfter(v, rest)
  }

  /** What follows an item: `]` closes the list, `,` starts the next item. */
  function ItemsAfter(v: Json, rest: string): (r: Option<(seq<Json>, string)>)
    ensures r.Some? ==> |r.value.1| < |rest|
    decreases |rest|, 4
  {
    if rest != [] && rest[0] == ']' then Some(([v], rest[1..]))
    else if rest != [] && rest[0] == ',' then
      match ParseItems(rest[1..])
      case Some((vs, rest')) => Some(([v] + vs, rest'))
      case None => None
    else None
  }

  /** Reads one `"key":value`. */
  function ParseMember(s: string): (r: Option<(Member, string)>)
    ensures r.Some? ==> |r.value.1| < |s|
    decreases |s|, 3
  {
    if s == [] || s[0] != '"' then None
    else
      match ParseChars(s[1..])
      case None => None
      case Some((key, afterKey)) => ParseMemberValue(key, afterKey)
  }

  /** Reads the `:value` after a member's key. */
  function ParseMemberValue(key: string, t: string): (r: Option<(Member, string)>)
    ensures r.Some? ==> |r.value.1| < |t|
    decreases |t|, 3
  {
    if t == [] || t[0] != ':' then None
    else
      match ParseValue(t[1..])
      case None => None
      case Some((v, rest)) => Some((Member(key, v), rest))
  }

  /** Reads `"key":value,...,"key":value}` and returns the members and the text after `}`. */
  function ParseMembers(s: string): (r: Option<(seq<Member>, string)>)
    ensures r.Some? ==> |r.value.1| < |s|
    decreases |s|, 4
  {
    match ParseMember(s)
    case None => None
    case Some((m, rest)) => MembersAfter(m, rest)
  }

  /** What follows a member: `}` closes the object, `,` starts the next member. */
  function MembersAfter(m: Member, rest: string): (r: Option<(seq<Member>, string)>)
    ensures r.Some? ==> |r.value.1| < |rest|
    decreases |rest|, 4
  {
    if rest != [] && rest[0] == '}' then Some(([m], rest[1..]))
    else if rest != [] && rest[0] == ',' then
      match ParseMembers(rest[1..])
      case Some((ms, rest')) => Some(([m] + ms, rest'))
      case None => None
    else None
  }

  /** `json.loads(text)`: the text must hold exactly one value. */
  function Decode(text: string): Option<Json>
  {
    match ParseValue(text)
    case Some((j, rest)) => if rest == [] then Some(j) else None
    case None => None
  }

  // ---------------------------------------------------------------- round trip

  /** Text that cannot continue a number written before it: it does not start with a digit. */
  predicate Delimited(rest: string)
  {
    rest == [] || !Numerals.IsDigit(rest[0])
  }

  /** Reading back what `json.dumps` wrote gives the same value. */
  lemma DecodeEncode(j: Json)
    ensures Decode(Encode(j)) == Some(j)
  {
    ParseEncoded(j, "");
    assert Encode(j) + "" == Encode(j);
  }

  /** Text that is not a value is rejected: the empty text among it. */
  lemma DecodeEmpty()
    ensures Decode("") == None
  {
  }

  /**
   * Text with something after the value is rejected. After a number, the
   * extra text must not start with a digit, which would extend the number.
   */
  lemma DecodeRejectsTrailing(j: Json, extra: string)
    requires extra != []
    requires !j.Int? || Delimited(extra)
    ensures Decode(Encode(j) + extra) == None
  {
    ParseEncoded(j, extra);
  }

  /** Why the number case needs its condition: `5` followed by `7` reads as 57. */
  lemma DigitsAfterNumberExtendIt()
    ensures Decode(Encode(Int(5)) + "7") == Some(Int(57))
  {
    var s := "57";
    assert Encode(Int(5)) + "7" == s;
    assert s[1..] == "7" && s[2..] == [];
    assert Numerals.DigitRun(s[2..]) == 0;
    assert Numerals.DigitRun(s) == 2;
    assert s[..2] == s && s[..1] == "5";
    assert Numerals.DigitsValue(s[..2]) == 57;
    assert ParseNumber(s) == Some((Int(57), ""));
  }

  lemma {:induction false} ParseCharsEscaped(s: string, rest: string)
    ensures ParseChars(Escape(s) + "\"" + rest) == Some((s, rest))
    decreases |s|
  {
    if s == [] {
      assert Escape(s) + "\"" + rest == "\"" + rest;
    } else {
      var e := EscapeChar(s[0]);
      assert Escape(s) + "\"" + rest == e + (Escape(s[1..]) + "\"" + rest);
      ParseCharsEscaped(s[1..], rest);
      var t := e + (Escape(s[1..]) + "\"" + rest);
      if |e| == 2 {
        assert t[0] == '\\' && t[1] == s[0];
        assert t[2..] == Escape(s[1..]) + "\"" + rest;
      } else {
        assert t[0] == s[0];
        assert t[1..] == Escape(s[1..]) + "\"" + rest;
      }
      assert [s[0]] + s[1..] == s;
    }
  }

  /** A run of digits followed by a non-digit is read as its value. */
  lemma ParseDigits(ds: string, rest: string)
    requires ds != [] && Numerals.AllDigits(ds)
    requires rest == [] || !Numerals.IsDigit(rest[0])
    ensures ParseDigitRun(ds + rest) == Some((Numerals.DigitsValue(ds), rest))
  {
    Numerals.DigitRunStops(ds, rest);
    var s := ds + rest;
    assert s[..|ds|] == ds;
    assert s[|ds|..] == rest;
  }

  lemma ParseNumberEncoded(i: int, rest: string)
    requires Delimited(rest)
    ensures ParseNumber(Numerals.IntToDecimal(i) + rest) == Some((Int(i), rest))
  {
    var n: nat := if i < 0 then -i else i;
    var ds := Numerals.NatToDecimal(n);
    Numerals.DecimalValue(n);
    ParseDigits(ds, rest);
    if i < 0 {
      assert Numerals.IntToDecimal(i) == "-" + ds;
      ParseNegative(ds, rest, n);
    } else {
      assert Numerals.IntToDecimal(i) == ds;
      ParseNonNegative(ds, rest, n);
    }
  }

  /** Digits with no sign in front are read as their value. */
  lemma ParseNonNegative(ds: string, rest: string, v: nat)
    requires ds != [] && Numerals.IsDigit(ds[0])
    requires ParseDigitRun(ds + rest) == Some((v, rest))
    ensures ParseNumber(ds + rest) == Some((Int(v), rest))
  {
    assert (ds + rest)[0] == ds[0];
  }

  /** A minus sign and digits are read as the negated value. */
  lemma ParseNegative(ds: string, rest: string, v: nat)
    requires ParseDigitRun(ds + rest) == Some((v, rest))
    ensures ParseNumber("-" + ds + rest) == Some((Int(-(v as int)), rest))
  {
    ParseMinus(ds + rest);
    assert "-" + ds + rest == "-" + (ds + rest);
  }

  /** After a minus sign, the number is the negated digit run. */
  lemma ParseMinus(t: string)
    ensures ParseNumber("-" + t) ==
      match ParseDigitRun(t)
      case Some((v, rest)) => Some((Int(-(v as int)), rest))
      case None => None
  {
    assert ("-" + t)[1..] == t;
  }

  /** What a value's text begins with. */
  lemma EncodeStart(j: Json)
    ensures |Encode(j)| > 0
    ensures Encode(j)[0] != ']' && Encode(j)[0] != '}'
  {
    match j
    case Int(i) =>
      var n: nat := if i < 0 then -i else i;
      assert Numerals.IsDigit(Numerals.NatToDecimal(n)[0]);
    case _ =>
  }

  lemma {:induction false} ParseEncoded(j: Json, rest: string)
    requires !j.Int? || Delimited(rest)
    ensures ParseValue(Encode(j) + rest) == Some((j, rest))
    decreases j, 2
  {
    match j
    case List(items) => ParseEncodedList(items, rest);
    case Object(ms) => ParseEncodedObject(ms, rest);
    case _ => ParseEncodedScalar(j, rest);
  }

  lemma ParseEncodedScalar(j: Json, rest: string)
    requires !j.List? && !j.Object?
    requires !j.Int? || Delimited(rest)
    ensures ParseValue(Encode(j) + rest) == Some((j, rest))
  {
    match j
    case Null => ParseEncodedLiteral(j, rest);
    case Bool(_) => ParseEncodedLiteral(j, rest);
    case Int(i) => ParseEncodedInt(i, rest);
    case Str(cs) => ParseEncodedStr(cs, rest);
  }

  lemma ParseEncodedLiteral(j: Json, rest: string)
    requires j.Null? || j.Bool?
    ensures ParseValue(Encode(j) + rest) == Some((j, rest))
  {
    var s := Encode(j) + rest;
    if j.Null? {
      assert s[0] == 'n' && s[..4] == "null" && s[4..] == rest;
    } else if j.b {
      assert s[0] == 't' && s[..4] == "true" && s[4..] == rest;
    } else {
      assert s[0] == 'f' && s[..5] == "false" && s[5..] == rest;
    }
  }

  lemma ParseEncodedInt(i: int, rest: string)
    requires Delimited(rest)
    ensures ParseValue(Encode(Int(i)) + rest) == Some((Int(i), rest))
  {
    var s := Encode(Int(i)) + rest;
    var n: nat := if i < 0 then -i else i;
    assert Numerals.IsDigit(Numerals.NatToDecimal(n)[0]);
    assert s[0] == '-' || Numerals.IsDigit(s[0]);
    ParseNumberEncoded(i, rest);
  }

  lemma ParseEncodedStr(cs: string, rest: string)
    ensures ParseValue(Encode(Str(cs)) + rest) == Some((Str(cs), rest))
  {
    var s := Encode(Str(cs)) + rest;
    assert s[0] == '"';
    assert s[1..] == Escape(cs) + "\"" + rest;
    ParseCharsEscaped(cs, rest);
  }

  lemma {:induction false} ParseEncodedList(items: seq<Json>, rest: string)
    ensures ParseValue(Encode(List(items)) + rest) == Some((List(items), rest))
    decreases items, 1
  {
    var s := Encode(List(items)) + rest;
    assert s[0] == '[';
    if items == [] {
      assert Encode(List(items)) == "[]";
      assert s[1] == ']' && s[2..] == rest;
    } else {
      assert s[1..] == EncodeItems(items) + "]" + rest;
      EncodeStart(items[0]);
      assert s[1] == Encode(items[0])[0];
      ParseEncodedItems(items, rest);
    }
  }

  lemma {:induction false} ParseEncodedObject(ms: seq<Member>, rest: string)
    ensures ParseValue(Encode(Object(ms)) + rest) == Some((Object(ms), rest))
    decreases ms, 1
  {
    var s := Encode(Object(ms)) + rest;
    if ms == [] {
      assert Encode(Object(ms)) == "{}";
      assert s[0] == '{' && s[1] == '}' && s[2..] == rest;
    } else {
      var body := EncodeMembers(ms) + "}" + rest;
      assert s == "{" + body;
      assert body[0] == '"';
      ParseEncodedMembers(ms, rest);
      ObjectOf(body, ms, rest);
    }
  }

  lemma ObjectOf(body: string, ms: seq<Member>, rest: string)
    requires body != [] && body[0] != '}'
    requires ParseMembers(body) == Some((ms, rest))
    ensures ParseValue("{" + body) == Some((Object(ms), rest))
  {
    assert ("{" + body)[0] == '{' && ("{" + body)[1] == body[0];
    assert ("{" + body)[1..] == body;
  }

  lemma {:induction false} ParseEncodedItems(items: seq<Json>, rest: string)
    requires items != []
    ensures ParseItems(EncodeItems(items) + "]" + rest) == Some((items, rest))
    decreases items, 0
  {
    var head := Encode(items[0]);
    if |items| == 1 {
      var after := "]" + rest;
      ParseEncoded(items[0], after);
      LastItem(items[0], head, rest);
      assert EncodeItems(items) + "]" + rest == head + after;
      assert [items[0]] == items;
    } else {
      var tail := EncodeItems(items[1..]) + "]" + rest;
      ParseEncoded(items[0], "," + tail);
      ParseEncodedItems(items[1..], rest);
      NextItem(items[0], items[1..], head, tail, rest);
      EncodeItemsCons(items, rest);
      assert [items[0]] + items[1..] == items;
    }
  }

  lemma EncodeItemsCons(items: seq<Json>, rest: string)
    requires |items| >= 2
    ensures EncodeItems(items) + "]" + rest ==
      Encode(items[0]) + ("," + (EncodeItems(items[1..]) + "]" + rest))
  {
    Regroup(Encode(items[0]), EncodeItems(items[1..]), "]", rest);
  }

  /** `a,b` followed by a closing bracket and `rest`, grouped from the right. */
  lemma Regroup(a: string, b: string, close: string, rest: string)
    ensures a + "," + b + close + rest == a + ("," + (b + close + rest))
  {
  }

  lemma LastItem(v: Json, head: string, rest: string)
    requires ParseValue(head + ("]" + rest)) == Some((v, "]" + rest))
    ensures ParseItems(head + ("]" + rest)) == Some(([v], rest))
  {
    assert ("]" + rest)[1..] == rest;
  }

  lemma NextItem(v: Json, vs: seq<Json>, head: string, tail: string, rest: string)
    requires ParseValue(head + ("," + tail)) == Some((v, "," + tail))
    requires ParseItems(tail) == Some((vs, rest))
    ensures ParseItems(head + ("," + tail)) == Some(([v] + vs, rest))
  {
    assert ("," + tail)[1..] == tail;
  }

  lemma {:induction false} ParseEncodedMembers(ms: seq<Member>, rest: string)
    requires ms != []
    ensures ParseMembers(EncodeMembers(ms) + "}" + rest) == Some((ms, rest))
    decreases ms, 0
  {
    var m := Member(ms[0].key, ms[0].value);
    var first := Quote(ms[0].key) + ":" + Encode(ms[0].value);
    if |ms| == 1 {
      var after := "}" + rest;
      ParseEncodedMember(ms[0].key, ms[0].value, after);
      LastMember(m, first, rest);
      assert EncodeMembers(ms) + "}" + rest == first + after;
      assert [m] == ms;
    } else {
      var tail := EncodeMembers(ms[1..]) + "}" + rest;
      ParseEncodedMember(ms[0].key, ms[0].value, "," + tail);
      ParseEncodedMembers(ms[1..], rest);
      NextMember(m, ms[1..], first, tail, rest);
      EncodeMembersCons(ms, rest);
      assert [m] + ms[1..] == ms;
    }
  }

  lemma EncodeMembersCons(ms: seq<Member>, rest: string)
    requires |ms| >= 2
    ensures EncodeMembers(ms) + "}" + rest ==
      Quote(ms[0].key) + ":" + Encode(ms[0].value) + ("," + (EncodeMembers(ms[1..]) + "}" + rest))
  {
    var first := Quote(ms[0].key) + ":" + Encode(ms[0].value);
    assert EncodeMembers(ms) == first + "," + EncodeMembers(ms[1..]);
    Regroup(first, EncodeMembers(ms[1..]), "}", rest);
  }

  lemma LastMember(m: Member, first: string, rest: string)
    requires ParseMember(first + ("}" + rest)) == Some((m, "}" + rest))
    ensures ParseMembers(first + ("}" + rest)) == Some(([m], rest))
  {
    assert ("}" + rest)[1..] == rest;
  }

  lemma NextMember(m: Member, ms: seq<Member>, first: string, tail: string, rest: string)
    requires ParseMember(first + ("," + tail)) == Some((m, "," + tail))
    requires ParseMembers(tail) == Some((ms, rest))
    ensures ParseMembers(first + ("," + tail)) == Some(([m] + ms, rest))
  {
    assert ("," + tail)[1..] == tail;
  }

  /** One member's text is read back, leaving the text after it. */
  lemma {:induction false} ParseEncodedMember(key: string, v: Json, after: string)
    requires Delimited(after)
    ensures ParseMember(Quote(key) + ":" + Encode(v) + after) == Some((Member(key, v), after))
    decreases v, 3
  {
    var q, e := Quote(key), Encode(v);
    var t := ":" + e + after;
    assert q + ":" + e + after == q + t;
    QuoteThen(key, t);
    ParseEncoded(v, after);
    ColonValue(key, e, after, v);
    MemberAfterKey(q + t, key, t);
  }

  lemma MemberAfterKey(s: string, key: string, t: string)
    requires s != [] && s[0] == '"'
    requires ParseChars(s[1..]) == Some((key, t))
    ensures ParseMember(s) == ParseMemberValue(key, t)
  {
  }

  lemma ColonValue(key: string, e: string, after: string, v: Json)
    requires ParseValue(e + after) == Some((v, after))
    ensures ParseMemberValue(key, ":" + e + after) == Some((Member(key, v), after))
  {
    var t := ":" + e + after;
    assert t[0] == ':' && t[1..] == e + after;
  }

  /** A quoted key is read back, leaving the text after its closing quote. */
  lemma QuoteThen(key: string, t: string)
    ensures (Quote(key) + t)[0] == '"'
    ensures ParseChars((Quote(key) + t)[1..]) == Some((key, t))
  {
    assert (Quote(key) + t)[1..] == Escape(key) + "\"" + t;
    ParseCharsEscaped(key, t);
  }
}
