/** The secret payload of a stored datasource: how the reconciler prints it and
    how it reads the token back.  Text is a sequence of Unicode scalar values;
    decoding follows JSON's string grammar (section 7 of RFC 8259) with the
    rules of Go's decoder into a map from strings to strings. */
module SecureJson {
  import opened Wrappers

  const HEADER_KEY := "httpHeaderValue1"
  const BEARER := "Bearer "

  datatype JsonError = Syntax | NoToken | NoBearerPrefix

  // ----- printing -------------------------------------------------------

  function RenderHeader(value: string): string {
    "{\"" + HEADER_KEY + "\": \"" + value + "\"}"
  }

  /** The in-cluster writers: the token behind a bearer prefix. */
  function RenderBearer(token: string): string {
    RenderHeader(BEARER + token)
  }

  // ----- decoding -------------------------------------------------------

  function SkipSpace(s: string): (r: string)
    ensures |r| <= |s|
  {
    if s != "" && s[0] in {' ', '\t', '\n', '\r'} then SkipSpace(s[1..]) else s
  }

  function HexValue(c: char): (r: Option<nat>)
    ensures r.Some? ==> r.value < 16
  {
    if '0' <= c <= '9' then Some(c as int - '0' as int)
    else if 'a' <= c <= 'f' then Some(c as int - 'a' as int + 10)
    else if 'A' <= c <= 'F' then Some(c as int - 'A' as int + 10)
    else None
  }

  /** The code unit of a leading four-digit escape, if there is one. */
  function Unit(s: string): (r: Option<nat>)
    ensures r.Some? ==> |s| >= 6 && r.value < 0x10000
  {
    if |s| < 6 || s[0] != '\\' || s[1] != 'u' then None else
    var (a, b, c, d) := (HexValue(s[2]), HexValue(s[3]), HexValue(s[4]), HexValue(s[5]));
    if a.None? || b.None? || c.None? || d.None? then None
    else Some(a.value * 4096 + b.value * 256 + c.value * 16 + d.value)
  }

  const REPLACEMENT: char := 0xFFFD as char

  /** Decodes the escape at the head of s: the character and how many characters
      of text it takes.  A surrogate pair is one character; a lone surrogate
      becomes the replacement character. */
  function Escape(s: string): (r: Option<(char, nat)>)
    requires s != "" && s[0] == '\\'
    ensures r.Some? ==> 2 <= r.value.1 <= |s|
  {
    if |s| < 2 then None else
    match s[1]
    case '\"' => Some(('\"', 2))
    case '\\' => Some(('\\', 2))
    case '/' => Some(('/', 2))
    case 'b' => Some((8 as char, 2))
    case 'f' => Some((12 as char, 2))
    case 'n' => Some(('\n', 2))
    case 'r' => Some(('\r', 2))
    case 't' => Some(('\t', 2))
    case 'u' =>
      (match Unit(s)
       case None => None
       case Some(u) =>
         if u < 0xD800 || 0xE000 <= u then Some((u as char, 6)) else
         match Unit(s[6..])
         case Some(l) =>
           if u < 0xDC00 && 0xDC00 <= l < 0xE000
           then Some((((u - 0xD800) * 0x400 + (l - 0xDC00) + 0x10000) as char, 12))
           else Some((REPLACEMENT, 6))
         case None => Some((REPLACEMENT, 6)))
    case _ => None
  }

  /** Reads string contents up to the closing quote; returns them and the rest. */
  function ParseChars(s: string): (r: Option<(string, string)>)
    ensures r.Some? ==> |r.value.0| + 1 + |r.value.1| <= |s|
  {
    if s == "" then None
    else if s[0] == '\"' then Some(("", s[1..]))
    else if s[0] == '\\' then
      match Escape(s)
      case None => None
      case Some((c, n)) =>
        (match ParseChars(s[n..])
         case None => None
         case Some((v, rest)) => Some(([c] + v, rest)))
    else if s[0] < ' ' then None
    else
      match ParseChars(s[1..])
      case None => None
      case Some((v, rest)) => Some(([s[0]] + v, rest))
  }

  /** Reads a value that can go into a string: a string, or null (left at ""). */
  function ParseValue(s: string): (r: Option<(string, string)>)
    ensures r.Some? ==> |r.value.0| + 2 + |r.value.1| <= |s|
  {
    if s == "" then None
    else if s[0] == '\"' then ParseChars(s[1..])
    else if "null" <= s then Some(("", s[4..]))
    else None
  }

  /** Reads one or more members and the closing brace; a repeated key keeps its
      last value.  Only space may follow. */
  function ParseMembers(s: string, seen: map<string, string>): Option<map<string, string>>
    decreases |s|
  {
    if s == "" || s[0] != '\"' then None else
    match ParseChars(s[1..])
    case None => None
    case Some((key, s1)) =>
      var s2 := SkipSpace(s1);
      if s2 == "" || s2[0] != ':' then None else
      match ParseValue(SkipSpace(s2[1..]))
      case None => None
      case Some((value, s3)) =>
        var s4 := SkipSpace(s3);
        if s4 == "" then None
        else if s4[0] == '}' then
          if SkipSpace(s4[1..]) == "" then Some(seen[key := value]) else None
        else if s4[0] == ',' then ParseMembers(SkipSpace(s4[1..]), seen[key := value])
        else None
  }

  function Decode(text: string): Option<map<string, string>> {
    var s := SkipSpace(text);
    if "null" <= s then (if SkipSpace(s[4..]) == "" then Some(map[]) else None)
    else if s == "" || s[0] != '{' then None
    else
      var s1 := SkipSpace(s[1..]);
      if s1 != "" && s1[0] == '}' then (if SkipSpace(s1[1..]) == "" then Some(map[]) else None)
      else ParseMembers(s1, map[])
  }

  function ExtractToken(text: string): Result<string, JsonError> {
    match Decode(text)
    case None => Err(Syntax)
    case Some(data) =>
      if HEADER_KEY !in data then Err(NoToken)
      else if |data[HEADER_KEY]| > |BEARER| && BEARER <= data[HEADER_KEY]
      then Ok(data[HEADER_KEY][|BEARER|..])
      else Err(NoBearerPrefix)
  }

  // ----- what survives the round trip -----------------------------------

  /** Characters that stand for themselves inside a JSON string. */
  predicate Plain(c: char) { c != '\"' && c != '\\' && ' ' <= c }

  predicate AllPlain(s: string) { forall i :: 0 <= i < |s| ==> Plain(s[i]) }

  /** The alphabet of a compact token (section 7.1 of RFC 7515). */
  predicate TokenChar(c: char) {
    'A' <= c <= 'Z' || 'a' <= c <= 'z' || '0' <= c <= '9' || c == '-' || c == '_' || c == '.'
  }

  lemma {:induction false} PlainCharsParse(v: string, rest: string)
    requires AllPlain(v)
    ensures ParseChars(v + "\"" + rest) == Some((v, rest))
  {
    var s := v + "\"" + rest;
    if v == "" {
      assert s[1..] == rest;
    } else {
      assert s[1..] == v[1..] + "\"" + rest;
      PlainCharsParse(v[1..], rest);
      assert [v[0]] + v[1..] == v;
    }
  }

  /** Contents as long as the text they were read from contain no escape. */
  lemma {:induction false} FullLengthIsVerbatim(s: string)
    requires ParseChars(s).Some?
    requires |ParseChars(s).value.0| + 1 + |ParseChars(s).value.1| == |s|
    ensures ParseChars(s).value.0 == s[..|ParseChars(s).value.0|] && AllPlain(ParseChars(s).value.0)
  {
    if s[0] == '\"' {
    } else if s[0] == '\\' {
      assert false;
    } else {
      FullLengthIsVerbatim(s[1..]);
      var v := ParseChars(s[1..]).value.0;
      assert s[..|v| + 1] == [s[0]] + s[1..][..|v|];
    }
  }

  /** Every value read by ParseMembers is shorter than the text it came from. */
  lemma {:induction false} MembersAreShort(s: string, seen: map<string, string>, k: string)
    requires ParseMembers(s, seen).Some? && k in ParseMembers(s, seen).value
    ensures (k in seen && ParseMembers(s, seen).value[k] == seen[k]) || |ParseMembers(s, seen).value[k]| + 6 <= |s|
    decreases |s|
  {
    var (key, s1) := ParseChars(s[1..]).value;
    var s2 := SkipSpace(s1);
    var (value, s3) := ParseValue(SkipSpace(s2[1..])).value;
    var s4 := SkipSpace(s3);
    if s4[0] == ',' {
      MembersAreShort(SkipSpace(s4[1..]), seen[key := value], k);
    }
  }

  /** What decoding does with text after the opening quote of the first value. */
  function AfterFirstValue(key: string, s: string): Option<map<string, string>> {
    match ParseChars(s)
    case None => None
    case Some((v, rest)) =>
      var s4 := SkipSpace(rest);
      if s4 == "" then None
      else if s4[0] == '}' then (if SkipSpace(s4[1..]) == "" then Some(map[key := v]) else None)
      else if s4[0] == ',' then ParseMembers(SkipSpace(s4[1..]), map[key := v])
      else None
  }

  lemma FirstMemberIsRead(key: string, tail: string)
    requires AllPlain(key)
    ensures ParseMembers("\"" + key + "\": \"" + tail, map[]) == AfterFirstValue(key, tail)
  {
    var s1 := "\"" + key + "\": \"" + tail;
    var s2 := ": \"" + tail;
    assert s1[1..] == key + "\"" + s2;
    PlainCharsParse(key, s2);
    var s3 := s2[1..];
    assert SkipSpace(s3) == "\"" + tail by { assert s3[1..] == "\"" + tail; }
    assert ("\"" + tail)[1..] == tail;
    assert forall v: string :: (map[])[key := v] == map[key := v];
  }

  lemma FirstMemberIsDecoded(key: string, tail: string)
    requires AllPlain(key)
    ensures Decode("{\"" + key + "\": \"" + tail) == AfterFirstValue(key, tail)
  {
    hide ParseMembers, AfterFirstValue;
    var members := "\"" + key + "\": \"" + tail;
    assert "{\"" + key + "\": \"" + tail == ['{'] + members;
    ObjectIsDecoded(members);
    FirstMemberIsRead(key, tail);
  }

  lemma ObjectIsDecoded(members: string)
    requires members != "" && members[0] == '"'
    ensures Decode(['{'] + members) == ParseMembers(members, map[])
  {
    hide ParseMembers;
    var text := ['{'] + members;
    assert SkipSpace(text) == text && text[1..] == members && SkipSpace(members) == members;
    assert "null"[0] != text[0];
  }

  lemma HeaderIsRead(value: string)
    ensures Decode(RenderHeader(value)) == AfterFirstValue(HEADER_KEY, value + "\"}")
  {
    hide Decode, AfterFirstValue;
    FirstMemberIsDecoded(HEADER_KEY, value + "\"}");
    assert RenderHeader(value) == "{\"" + HEADER_KEY + "\": \"" + (value + "\"}");
  }

  /** A plain header value is read back as it was written. */
  lemma PlainHeaderDecodes(value: string)
    requires AllPlain(value)
    ensures Decode(RenderHeader(value)) == Some(map[HEADER_KEY := value])
  {
    HeaderIsRead(value);
    PlainCharsParse(value, "}");
    assert value + "\"" + "}" == value + "\"}";
  }

  /** Reading back what an in-cluster writer stored gives the token exactly when
      the token is non-empty and needs no escaping. */
  lemma TokenRoundTrip(token: string)
    ensures ExtractToken(RenderBearer(token)) == Ok(token) <==> token != "" && AllPlain(token)
  {
    var value := BEARER + token;
    if token != "" && AllPlain(token) {
      PlainHeaderDecodes(value);
      assert value[..|BEARER|] == BEARER && value[|BEARER|..] == token;
    }
    if ExtractToken(RenderBearer(token)) == Ok(token) {
      HeaderIsRead(value);
      var s := value + "\"}";
      var data := Decode(RenderBearer(token)).value;
      assert |data[HEADER_KEY]| == |BEARER| + |token|;
      var (v, rest) := ParseChars(s).value;
      var s4 := SkipSpace(rest);
      if s4[0] == ',' {
        MembersAreShort(SkipSpace(s4[1..]), map[HEADER_KEY := v], HEADER_KEY);
      }
      assert |v| + 1 + |rest| == |s|;
      FullLengthIsVerbatim(s);
      assert v == value;
      assert forall i :: 0 <= i < |token| ==> token[i] == value[|BEARER| + i];
    }
  }

  /** Compact tokens satisfy the round-trip condition. */
  lemma CompactTokenRoundTrip(token: string)
    requires token != "" && forall i :: 0 <= i < |token| ==> TokenChar(token[i])
    ensures ExtractToken(RenderBearer(token)) == Ok(token)
  {
    assert AllPlain(token) by {
      forall i | 0 <= i < |token| ensures Plain(token[i]) { assert TokenChar(token[i]); }
    }
    TokenRoundTrip(token);
  }

  /** Of the tokens that need no escaping, only the empty one is lost. */
  lemma BearerExtraction(token: string)
    requires AllPlain(token)
    ensures ExtractToken(RenderBearer(token)) == if token == "" then Err(NoBearerPrefix) else Ok(token)
  {
    PlainHeaderDecodes(BEARER + token);
    assert (BEARER + token)[..|BEARER|] == BEARER;
    assert (BEARER + token)[|BEARER|..] == token;
  }

  /** The MCOO writer stores the bare token; reading it back works only when the
      token happens to carry the prefix itself, and then drops it. */
  lemma BareTokenExtraction(token: string)
    requires AllPlain(token)
    ensures ExtractToken(RenderHeader(token)) ==
      if BEARER <= token && |token| > |BEARER| then Ok(token[|BEARER|..]) else Err(NoBearerPrefix)
  {
    PlainHeaderDecodes(token);
  }

  // ----- every way to write a character ---------------------------------

  const DIGITS := "0123456789abcdef"
  const CAPITALS := "0123456789ABCDEF"

  /** A code unit as an escape of four hexadecimal digits, small or capital. */
  function Coded(u: nat, capital: bool): string
    requires u < 0x10000
  {
    var digits := if capital then CAPITALS else DIGITS;
    ['\\', 'u', digits[u / 4096], digits[u / 256 % 16], digits[u / 16 % 16], digits[u % 16]]
  }

  /** A character as one escape, or as two if it lies outside the basic plane. */
  function Spelled(c: char, capital: bool): string {
    var n := c as int;
    if n < 0x10000 then Coded(n, capital)
    else Coded(0xD800 + (n - 0x10000) / 0x400, capital) + Coded(0xDC00 + (n - 0x10000) % 0x400, capital)
  }

  function SpelledText(v: string, capital: bool): string {
    if v == "" then "" else Spelled(v[0], capital) + SpelledText(v[1..], capital)
  }

  lemma DigitReads(n: nat, capital: bool)
    requires n < 16
    ensures HexValue((if capital then CAPITALS else DIGITS)[n]) == Some(n)
  {
  }

  lemma Recombined(u: nat)
    requires u < 0x10000
    ensures u / 4096 < 16 && u == u / 4096 * 4096 + u / 256 % 16 * 256 + u / 16 % 16 * 16 + u % 16
  {
    assert u / 16 / 16 == u / 256 && u / 256 / 16 == u / 4096;
  }

  lemma UnitReads(u: nat, capital: bool, rest: string)
    requires u < 0x10000
    ensures Unit(Coded(u, capital) + rest) == Some(u)
  {
    hide HexValue, DIGITS, CAPITALS;
    Recombined(u);
    DigitsRead(u / 4096, u / 256 % 16, u / 16 % 16, u % 16, capital, rest);
  }

  lemma DigitsRead(a: nat, b: nat, c: nat, d: nat, capital: bool, rest: string)
    requires a < 16 && b < 16 && c < 16 && d < 16
    ensures |DIGITS| == |CAPITALS| == 16
    ensures var digits := if capital then CAPITALS else DIGITS;
      Unit(['\\', 'u', digits[a], digits[b], digits[c], digits[d]] + rest) == Some(a * 4096 + b * 256 + c * 16 + d)
  {
    assert |DIGITS| == |CAPITALS| == 16;
    hide HexValue, DIGITS, CAPITALS;
    DigitReads(a, capital);
    DigitReads(b, capital);
    DigitReads(c, capital);
    DigitReads(d, capital);
  }

  lemma EscapeReads(c: char, capital: bool, rest: string)
    ensures var s := Spelled(c, capital) + rest;
      s[0] == '\\' && Escape(s) == Some((c, |Spelled(c, capital)|)) && s[|Spelled(c, capital)|..] == rest
  {
    hide Unit, Coded, Escape;
    var n, s := c as int, Spelled(c, capital) + rest;
    if n < 0x10000 {
      BasicReads(n, capital, rest);
    } else {
      var high, low := (n - 0x10000) / 0x400, (n - 0x10000) % 0x400;
      assert n == high * 0x400 + low + 0x10000;
      PairReads(high, low, capital, rest);
      assert s == Coded(0xD800 + high, capital) + (Coded(0xDC00 + low, capital) + rest);
    }
  }

  lemma CodedShape(u: nat, capital: bool, rest: string)
    requires u < 0x10000
    ensures |Coded(u, capital)| == 6 && Coded(u, capital)[0] == '\\' && Coded(u, capital)[1] == 'u'
    ensures (Coded(u, capital) + rest)[6..] == rest
  {
    hide DIGITS, CAPITALS;
  }

  lemma BasicReads(u: nat, capital: bool, rest: string)
    requires u < 0xD800 || 0xE000 <= u < 0x10000
    ensures var s := Coded(u, capital) + rest; s[0] == '\\' && Escape(s) == Some((u as char, 6)) && s[6..] == rest
    ensures |Coded(u, capital)| == 6
  {
    hide Unit, Coded;
    CodedShape(u, capital, rest);
    UnitReads(u, capital, rest);
  }

  lemma PairReads(high: nat, low: nat, capital: bool, rest: string)
    requires high < 0x400 && low < 0x400
    ensures var s := Coded(0xD800 + high, capital) + (Coded(0xDC00 + low, capital) + rest);
      s[0] == '\\' && Escape(s) == Some(((high * 0x400 + low + 0x10000) as char, 12)) && s[12..] == rest
    ensures |Coded(0xD800 + high, capital)| == 6 == |Coded(0xDC00 + low, capital)|
  {
    hide Unit, Coded;
    var more := Coded(0xDC00 + low, capital) + rest;
    CodedShape(0xD800 + high, capital, more);
    CodedShape(0xDC00 + low, capital, rest);
    UnitReads(0xD800 + high, capital, more);
    UnitReads(0xDC00 + low, capital, rest);
    assert (Coded(0xD800 + high, capital) + more)[12..] == more[6..];
  }

  /** Text of any characters, all written as escapes, is read back as it was. */
  lemma {:induction false} EscapedTextReads(v: string, capital: bool, rest: string)
    ensures ParseChars(SpelledText(v, capital) + "\"" + rest) == Some((v, rest))
  {
    hide Escape, Spelled;
    var s := SpelledText(v, capital) + "\"" + rest;
    if v == "" {
      assert s[1..] == rest;
    } else {
      EscapeReads(v[0], capital, SpelledText(v[1..], capital) + "\"" + rest);
      assert s == Spelled(v[0], capital) + (SpelledText(v[1..], capital) + "\"" + rest);
      EscapedTextReads(v[1..], capital, rest);
      assert [v[0]] + v[1..] == v;
    }
  }

  /** The short escapes, an escape that there is not, and a raw line end. */
  lemma OtherEscapes(rest: string)
    ensures Escape("\\n" + rest) == Some(('\n', 2)) && Escape("\\r" + rest) == Some(('\r', 2))
    ensures Escape("\\t" + rest) == Some(('\t', 2)) && Escape("\\\"" + rest) == Some(('\"', 2))
    ensures Escape("\\\\" + rest) == Some(('\\', 2)) && Escape("\\/" + rest) == Some(('/', 2))
    ensures Escape("\\b" + rest) == Some((8 as char, 2)) && Escape("\\f" + rest) == Some((12 as char, 2))
    ensures Escape("\\x" + rest) == None && ParseChars("\n" + rest) == None
  {
  }

  /** Half a surrogate pair reads as the replacement character, and what follows stays. */
  lemma HalfPairs(half: nat, other: nat, capital: bool, rest: string)
    requires 0xD800 <= half < 0xE000 && other < 0x10000
    requires half < 0xDC00 ==> other < 0xDC00 || 0xE000 <= other
    ensures Escape(Coded(half, capital) + (Coded(other, capital) + rest)) == Some((0xFFFD as char, 6))
    ensures rest == "" || rest[0] != '\\' ==> Escape(Coded(half, capital) + rest) == Some((0xFFFD as char, 6))
  {
    hide Coded;
    var more := Coded(other, capital) + rest;
    CodedShape(half, capital, more);
    CodedShape(half, capital, rest);
    UnitReads(half, capital, more);
    UnitReads(half, capital, rest);
    UnitReads(other, capital, rest);
  }

  /** Null and an object without members are read as no members at all. */
  lemma NothingInIt()
    ensures Decode("null") == Some(map[]) && Decode(" { } ") == Some(map[]) && Decode("") == None
      && Decode("null x") == None
    ensures ExtractToken("null") == Err(NoToken) && ExtractToken("{}") == Err(NoToken)
      && ExtractToken("[]") == Err(Syntax)
  {
    assert SkipSpace("") == "" && SkipSpace(" ") == "" by { assert " "[1..] == ""; }
    assert "null"[4..] == "" && "{}"[1..] == "}" && "}"[1..] == "" && " { } "[1..] == "{ } " && "{ } "[1..] == " } ";
    assert " } "[1..] == "} " && "} "[1..] == " " && "null x"[4..] == " x" && " x"[1..] == "x";
    assert SkipSpace(" { } ") == "{ } " && SkipSpace(" } ") == "} " && SkipSpace(" x") == "x";
  }

  /** Of members with one key the last counts, and null reads as empty. */
  lemma LaterMembersCount(key: string, first: string, other: string, second: string)
    requires AllPlain(key) && AllPlain(first) && AllPlain(other) && AllPlain(second)
    ensures Decode("{\"" + key + "\": \"" + first + "\",\"" + other + "\": \"" + second + "\"}")
      == Some(map[key := first][other := second])
    ensures Decode("{\"" + key + "\": \"" + first + "\",\"" + other + "\": null}") ==
      Some(map[key := first][other := ""])
  {
    hide Decode, ParseMembers;
    var tail := "\"" + other + "\": \"" + second + "\"}";
    var none := "\"" + other + "\": null}";
    FirstMemberIsDecoded(key, first + "\"," + tail);
    FirstMemberIsDecoded(key, first + "\"," + none);
    assert "{\"" + key + "\": \"" + first + "\",\"" + other + "\": \"" + second + "\"}"
      == "{\"" + key + "\": \"" + (first + "\"," + tail);
    assert "{\"" + key + "\": \"" + first + "\",\"" + other + "\": null}"
      == "{\"" + key + "\": \"" + (first + "\"," + none);
    PlainCharsParse(first, "," + tail);
    PlainCharsParse(first, "," + none);
    assert first + "\"" + ("," + tail) == first + "\"," + tail && first + "\"" + ("," + none) == first + "\"," + none;
    assert ("," + tail)[1..] == tail && ("," + none)[1..] == none;
    LastMember(other, second, map[key := first]);
  }

  lemma LastMember(key: string, value: string, seen: map<string, string>)
    requires AllPlain(key) && AllPlain(value)
    ensures ParseMembers("\"" + key + "\": \"" + value + "\"}", seen) == Some(seen[key := value])
    ensures ParseMembers("\"" + key + "\": null}", seen) == Some(seen[key := ""])
  {
    hide ParseMembers;
    PlainCharsParse(value, "}");
    assert "\"" + value + "\"}" == "\"" + (value + "\"" + "}");
    assert ("\"" + value + "\"}")[1..] == value + "\"" + "}";
    MemberReads(key, "\"" + value + "\"}", value, seen);
    MemberReads(key, "null}", "", seen);
    assert "\"" + key + "\": " + ("\"" + value + "\"}") == "\"" + key + "\": \"" + value + "\"}";
    assert "\"" + key + "\": " + "null}" == "\"" + key + "\": null}";
  }

  lemma MemberReads(key: string, rest: string, value: string, seen: map<string, string>)
    requires AllPlain(key) && rest != "" && rest[0] in {'"', 'n'} && ParseValue(rest) == Some((value, "}"))
    ensures ParseMembers("\"" + key + "\": " + rest, seen) == Some(seen[key := value])
  {
    hide ParseValue;
    var s, s2 := "\"" + key + "\": " + rest, ": " + rest;
    assert s[1..] == key + "\"" + s2;
    PlainCharsParse(key, s2);
    assert SkipSpace(s2) == s2;
    assert SkipSpace(s2[1..]) == rest by { assert s2[1..][1..] == rest; }
    assert "}"[1..] == "" && SkipSpace("}") == "}" && SkipSpace("") == "";
  }
}
