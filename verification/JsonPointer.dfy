/** Local contract references: JSON Pointers (RFC 6901, sections 3, 4 and 6) inside
    percent-encoded URI fragments. */
module JsonPointer {
  import opened Wrappers

  datatype Field = Field(key: string, value: Json)

  datatype Json =
    | Null
    | Bool(b: bool)
    | Number(text: string)
    | String(text: string)
    | Array(items: seq<Json>)
    | Object(fields: seq<Field>)

  datatype Token = Key(name: string) | Index(i: nat)

  type Path = seq<Token>

  datatype PointerError = NotLocal | MalformedPercent | BadEncoding | MalformedTilde | Unresolved | NotASchema

  // ----- documents

  function Lookup(fields: seq<Field>, key: string): Option<Json> {
    if fields == [] then None
    else if fields[0].key == key then Some(fields[0].value)
    else Lookup(fields[1..], key)
  }

  function Member(v: Json, t: Token): Option<Json> {
    match t
    case Key(name) => if v.Object? then Lookup(v.fields, name) else None
    case Index(i) => if v.Array? && i < |v.items| then Some(v.items[i]) else None
  }

  /** The value at a path. */
  function At(doc: Json, path: Path): Option<Json>
    decreases |path|
  {
    if path == [] then Some(doc)
    else
      match Member(doc, path[0])
      case None => None
      case Some(v) => At(v, path[1..])
  }

  predicate IsSchema(v: Json) {
    v.Object? || v.Bool?
  }

  // ----- UTF-8

  type Bytes = seq<int>

  predicate AllBytes(bs: Bytes) {
    forall i :: 0 <= i < |bs| ==> 0 <= bs[i] < 256
  }

  function EncodeChar(c: char): (bs: Bytes)
    ensures AllBytes(bs) && 1 <= |bs| <= 4
  {
    var n := c as int;
    if n < 0x80 then [n]
    else if n < 0x800 then [0xC0 + n / 64, 0x80 + n % 64]
    else if n < 0x10000 then [0xE0 + n / 4096, 0x80 + n / 64 % 64, 0x80 + n % 64]
    else [0xF0 + n / 262144, 0x80 + n / 4096 % 64, 0x80 + n / 64 % 64, 0x80 + n % 64]
  }

  function Encode(s: string): Bytes {
    if s == "" then [] else EncodeChar(s[0]) + Encode(s[1..])
  }

  predicate Continuation(b: int) {
    0x80 <= b < 0xC0
  }

  predicate Scalar(n: int) {
    0 <= n < 0xD800 || 0xE000 <= n < 0x110000
  }

  /** The character at the front of the bytes and how many it takes; strict. */
  function DecodeFront(bs: Bytes): Option<(char, nat)>
    requires bs != []
    ensures DecodeFront(bs).Some? ==> 0 < DecodeFront(bs).value.1 <= |bs|
  {
    var b := bs[0];
    if 0 <= b < 0x80 then Some((b as char, 1))
    else if 0xC2 <= b < 0xE0 && |bs| >= 2 && Continuation(bs[1]) then
      Some((((b - 0xC0) * 64 + (bs[1] - 0x80)) as char, 2))
    else if 0xE0 <= b < 0xF0 && |bs| >= 3 && Continuation(bs[1]) && Continuation(bs[2]) then
      var n := (b - 0xE0) * 4096 + (bs[1] - 0x80) * 64 + (bs[2] - 0x80);
      if n >= 0x800 && Scalar(n) then Some((n as char, 3)) else None
    else if 0xF0 <= b < 0xF5 && |bs| >= 4 && Continuation(bs[1]) && Continuation(bs[2]) && Continuation(bs[3]) then
      var n := (b - 0xF0) * 262144 + (bs[1] - 0x80) * 4096 + (bs[2] - 0x80) * 64 + (bs[3] - 0x80);
      if n >= 0x10000 && Scalar(n) then Some((n as char, 4)) else None
    else None
  }

  function Decode(bs: Bytes): Option<string>
    decreases |bs|
  {
    if bs == [] then Some("")
    else
      match DecodeFront(bs)
      case None => None
      case Some((c, n)) =>
        match Decode(bs[n..])
        case None => None
        case Some(s) => Some([c] + s)
  }

  lemma DecodeChar(c: char, rest: Bytes)
    ensures DecodeFront(EncodeChar(c) + rest) == Some((c, |EncodeChar(c)|))
    ensures (EncodeChar(c) + rest)[|EncodeChar(c)|..] == rest
  {
    var n, e := c as int, EncodeChar(c);
    var bs := e + rest;
    assert forall i :: 0 <= i < |e| ==> bs[i] == e[i];
    if n < 0x80 {
    } else if n < 0x800 {
      assert (e[0] - 0xC0) * 64 + (e[1] - 0x80) == n;
    } else if n < 0x10000 {
      ThreeBytes(n);
    } else {
      FourBytes(n);
    }
  }

  lemma ThreeBytes(n: int)
    requires 0x800 <= n < 0x10000
    ensures n / 4096 * 4096 + n / 64 % 64 * 64 + n % 64 == n && 0 <= n / 4096 < 16
  {
  }

  lemma FourBytes(n: int)
    requires 0x10000 <= n < 0x110000
    ensures n / 262144 * 262144 + n / 4096 % 64 * 4096 + n / 64 % 64 * 64 + n % 64 == n && 0 <= n / 262144 < 5
  {
  }

  lemma {:induction false} DecodeEncode(s: string)
    ensures Decode(Encode(s)) == Some(s)
  {
    if s != "" {
      DecodeChar(s[0], Encode(s[1..]));
      DecodeEncode(s[1..]);
      assert [s[0]] + s[1..] == s;
    }
  }

  lemma {:induction false} EncodeSnoc(s: string, c: char)
    ensures Encode(s + [c]) == Encode(s) + EncodeChar(c)
  {
    if s == "" {
      assert Encode([c]) == EncodeChar(c) + Encode("");
    } else {
      assert (s + [c])[1..] == s[1..] + [c];
      EncodeSnoc(s[1..], c);
    }
  }

  // ----- percent encoding

  function HexDigit(n: int): char
    requires 0 <= n < 16
  {
    if n < 10 then '0' + n as char else 'A' + (n - 10) as char
  }

  function HexValue(c: char): Option<int> {
    if '0' <= c <= '9' then Some(c as int - '0' as int)
    else if 'A' <= c <= 'F' then Some(c as int - 'A' as int + 10)
    else if 'a' <= c <= 'f' then Some(c as int - 'a' as int + 10)
    else None
  }

  predicate EscapeAt(s: string) {
    |s| >= 3 && s[0] == '%' && HexValue(s[1]).Some? && HexValue(s[2]).Some?
  }

  /** Every percent sign starts an escape. */
  predicate PercentOk(s: string) {
    s == "" || ((s[0] == '%' ==> EscapeAt(s)) && PercentOk(s[1..]))
  }

  /** Decoding of escapes: each run of ASCII text is decoded as UTF-8 on its own,
      other characters stand for themselves. `run` is the run read so far. */
  function UnquoteFrom(s: string, run: Bytes): Option<string>
    decreases |s|
  {
    if s == "" then Decode(run)
    else if EscapeAt(s) then UnquoteFrom(s[3..], run + [16 * HexValue(s[1]).value + HexValue(s[2]).value])
    else if s[0] as int < 0x80 then UnquoteFrom(s[1..], run + [s[0] as int])
    else
      match (Decode(run), UnquoteFrom(s[1..], []))
      case (Some(before), Some(after)) => Some(before + [s[0]] + after)
      case _ => None
  }

  function Unquote(s: string): Option<string> {
    UnquoteFrom(s, [])
  }

  function PercentBytes(bs: Bytes): string {
    if bs == [] then ""
    else if 0 <= bs[0] < 256 then "%" + [HexDigit(bs[0] / 16), HexDigit(bs[0] % 16)] + PercentBytes(bs[1..])
    else PercentBytes(bs[1..])
  }

  /** Percent-encoding with any choice of characters to escape, percent signs included. */
  function Quote(s: string, escape: char -> bool): string {
    if s == "" then ""
    else (if s[0] == '%' || escape(s[0]) then PercentBytes(EncodeChar(s[0])) else [s[0]]) + Quote(s[1..], escape)
  }

  lemma HexRoundTrip(n: int)
    requires 0 <= n < 16
    ensures HexValue(HexDigit(n)) == Some(n) && HexDigit(n) != '%'
  {
  }

  /** An escaped byte in front of some text. */
  lemma EscapeInFront(b: int, tail: string)
    requires 0 <= b < 256
    ensures var s := "%" + [HexDigit(b / 16), HexDigit(b % 16)] + tail;
            && s[0] == '%' && EscapeAt(s) && s[3..] == tail && s[1..][1..][1..] == tail
            && 16 * HexValue(s[1]).value + HexValue(s[2]).value == b
            && (PercentOk(tail) ==> PercentOk(s))
  {
    HexRoundTrip(b / 16);
    HexRoundTrip(b % 16);
    var s := "%" + [HexDigit(b / 16), HexDigit(b % 16)] + tail;
    assert s[1..][1..][1..] == tail && s[3..] == tail;
  }

  lemma {:induction false} UnquotePercent(bs: Bytes, rest: string, run: Bytes)
    requires AllBytes(bs)
    ensures UnquoteFrom(PercentBytes(bs) + rest, run) == UnquoteFrom(rest, run + bs)
    ensures PercentOk(rest) ==> PercentOk(PercentBytes(bs) + rest)
    decreases |bs|
  {
    hide Decode, HexDigit, HexValue, PercentOk, EscapeAt;
    if bs == [] {
      assert PercentBytes(bs) + rest == rest && run + bs == run;
    } else {
      var b := bs[0];
      var s, tail := PercentBytes(bs) + rest, PercentBytes(bs[1..]) + rest;
      assert s == "%" + [HexDigit(b / 16), HexDigit(b % 16)] + tail;
      EscapeInFront(b, tail);
      UnquotePercent(bs[1..], rest, run + [b]);
      assert run + [b] + bs[1..] == run + bs;
    }
  }

  lemma {:induction false} UnquoteQuote(s: string, escape: char -> bool, before: string)
    ensures UnquoteFrom(Quote(s, escape), Encode(before)) == Some(before + s)
    ensures PercentOk(Quote(s, escape))
    decreases |s|
  {
    if s == "" {
      DecodeEncode(before);
      assert before + s == before;
    } else {
      var c, rest := s[0], Quote(s[1..], escape);
      assert before + [c] + s[1..] == before + s;
      if c == '%' || escape(c) {
        UnquotePercent(EncodeChar(c), rest, Encode(before));
        EncodeSnoc(before, c);
        UnquoteQuote(s[1..], escape, before + [c]);
      } else {
        assert Quote(s, escape)[1..] == rest && Quote(s, escape)[0] == c;
        if c as int < 0x80 {
          EncodeSnoc(before, c);
          UnquoteQuote(s[1..], escape, before + [c]);
        } else {
          DecodeEncode(before);
          UnquoteQuote(s[1..], escape, "");
          assert Encode("") == [] && "" + s[1..] == s[1..];
        }
      }
    }
  }

  // ----- tilde escapes

  /** `s.replace(ab, c)` for a two-character pattern. */
  function Replace(s: string, a: char, b: char, c: char): string {
    if s == "" then ""
    else if |s| >= 2 && s[0] == a && s[1] == b then [c] + Replace(s[2..], a, b, c)
    else [s[0]] + Replace(s[1..], a, b, c)
  }

  /** First `~1` to `/`, then `~0` to `~`. */
  function Unescape(component: string): string {
    Replace(Replace(component, '~', '1', '/'), '~', '0', '~')
  }

  function Escape(name: string): string {
    if name == "" then ""
    else (if name[0] == '~' then "~0" else if name[0] == '/' then "~1" else [name[0]]) + Escape(name[1..])
  }

  /** Every tilde is followed by 0 or 1. */
  predicate TildeOk(s: string) {
    s == "" || ((s[0] == '~' ==> |s| >= 2 && (s[1] == '0' || s[1] == '1')) && TildeOk(s[1..]))
  }

  predicate NoSlash(s: string) {
    s == "" || (s[0] != '/' && NoSlash(s[1..]))
  }

  lemma {:induction false} EscapeOk(name: string)
    ensures TildeOk(Escape(name)) && NoSlash(Escape(name))
  {
    if name != "" {
      EscapeOk(name[1..]);
      var e, rest := Escape(name), Escape(name[1..]);
      if name[0] == '~' || name[0] == '/' {
        assert e[1..][1..] == rest;
      } else {
        assert e[1..] == rest;
      }
    }
  }

  /** Text with only the tildes escaped. */
  function EscapeTildes(name: string): string {
    if name == "" then "" else (if name[0] == '~' then "~0" else [name[0]]) + EscapeTildes(name[1..])
  }

  lemma ReplaceHit(s: string, a: char, b: char, c: char)
    ensures Replace([a, b] + s, a, b, c) == [c] + Replace(s, a, b, c)
  {
    assert ([a, b] + s)[2..] == s;
  }

  lemma ReplaceSkip(x: char, s: string, a: char, b: char, c: char)
    requires x != a || s == "" || s[0] != b
    ensures Replace([x] + s, a, b, c) == [x] + Replace(s, a, b, c)
  {
    assert ([x] + s)[1..] == s;
  }

  lemma {:induction false} FirstPass(name: string)
    ensures Replace(Escape(name), '~', '1', '/') == EscapeTildes(name)
  {
    hide Replace;
    if name == "" {
      ReplaceNothing();
    } else {
      FirstPass(name[1..]);
      var rest := Escape(name[1..]);
      if name[0] == '~' {
        ReplaceSkip('0', rest, '~', '1', '/');
        ReplaceSkip('~', ['0'] + rest, '~', '1', '/');
        assert Escape(name) == ['~'] + (['0'] + rest);
        assert EscapeTildes(name) == ['~'] + (['0'] + EscapeTildes(name[1..]));
      } else if name[0] == '/' {
        ReplaceHit(rest, '~', '1', '/');
        assert Escape(name) == ['~', '1'] + rest;
      } else {
        ReplaceSkip(name[0], rest, '~', '1', '/');
      }
    }
  }

  lemma ReplaceNothing()
    ensures Replace("", '~', '1', '/') == ""
  {
  }

  lemma {:induction false} SecondPass(name: string)
    ensures Replace(EscapeTildes(name), '~', '0', '~') == name
  {
    if name != "" {
      SecondPass(name[1..]);
      var e, rest := EscapeTildes(name), EscapeTildes(name[1..]);
      if name[0] == '~' {
        assert e[2..] == rest;
      } else {
        assert e[1..] == rest;
      }
    }
  }

  lemma UnescapeEscape(name: string)
    ensures Unescape(Escape(name)) == name
  {
    FirstPass(name);
    SecondPass(name);
  }

  /** A well-formed component is the escape of what it decodes to. */
  lemma {:induction false} EscapeUnescape(component: string)
    requires TildeOk(component) && NoSlash(component)
    ensures Escape(Unescape(component)) == component
    decreases |component|
  {
    if component == "" {
    } else if component[0] == '~' {
      var rest := component[2..];
      assert component[1..][1..] == rest && component == [component[0], component[1]] + rest;
      EscapeUnescape(rest);
      var r1 := Replace(rest, '~', '1', '/');
      if component[1] == '0' {
        assert Replace(component[1..], '~', '1', '/') == ['0'] + r1;
        var first := Replace(component, '~', '1', '/');
        assert first == ['~'] + (['0'] + r1) && first[2..] == r1;
        assert Unescape(component) == ['~'] + Unescape(rest);
      } else {
        var first := Replace(component, '~', '1', '/');
        assert first == ['/'] + r1 && first[1..] == r1;
        assert Unescape(component) == ['/'] + Unescape(rest);
      }
    } else {
      var rest := component[1..];
      EscapeUnescape(rest);
      var first := Replace(component, '~', '1', '/');
      assert first == [component[0]] + Replace(rest, '~', '1', '/');
      assert first[1..] == Replace(rest, '~', '1', '/');
      assert Unescape(component) == [component[0]] + Unescape(rest);
    }
  }

  /** The order of the two passes matters: `~01` is the name `~1`, not `/`. */
  lemma PassOrderMatters()
    ensures Unescape("~01") == "~1"
    ensures Replace(Replace("~01", '~', '0', '~'), '~', '1', '/') == "/"
  {
    assert Escape("~1") == "~0" + Escape("1") && Escape("1") == "1" + Escape("");
    assert Escape("~1") == "~01";
    UnescapeEscape("~1");
    assert "~01"[2..] == "1";
    assert Replace("1", '~', '0', '~') == "1" + Replace("", '~', '0', '~');
    assert Replace("~01", '~', '0', '~') == "~1";
  }

  // ----- array indices

  predicate Digit(c: char) {
    '0' <= c <= '9'
  }

  predicate IsIndexText(s: string) {
    s == "0" || (s != "" && '1' <= s[0] <= '9' && forall i :: 0 <= i < |s| ==> Digit(s[i]))
  }

  function DigitChar(n: nat): char
    requires n < 10
  {
    '0' + n as char
  }

  function Decimal(n: nat): string {
    if n < 10 then [DigitChar(n)] else Decimal(n / 10) + [DigitChar(n % 10)]
  }

  function ParseNat(s: string): nat
    requires forall i :: 0 <= i < |s| ==> Digit(s[i])
  {
    if s == "" then 0 else assert Digit(s[|s| - 1]); ParseNat(s[..|s| - 1]) * 10 + (s[|s| - 1] as int - '0' as int)
  }

  lemma {:induction false} ParseDecimal(n: nat)
    ensures IsIndexText(Decimal(n)) && ParseNat(Decimal(n)) == n
    ensures n > 0 ==> '1' <= Decimal(n)[0] <= '9'
  {
    if n >= 10 {
      ParseDecimal(n / 10);
      assert Decimal(n)[..|Decimal(n)| - 1] == Decimal(n / 10);
    } else {
      assert Decimal(n)[..0] == "";
    }
  }

  lemma {:induction false} DecimalParse(s: string)
    requires IsIndexText(s)
    ensures Decimal(ParseNat(s)) == s
    ensures '1' <= s[0] <= '9' ==> ParseNat(s) > 0
    decreases |s|
  {
    if |s| == 1 {
      assert s[..0] == "";
    } else {
      var t := s[..|s| - 1];
      DecimalParse(t);
      assert s == t + [s[|s| - 1]];
    }
  }

  // ----- pointers

  function TokenText(t: Token): string {
    match t
    case Key(name) => Escape(name)
    case Index(i) => Decimal(i)
  }

  function Components(path: Path): (r: seq<string>)
    ensures |r| == |path|
  {
    if path == [] then [] else [TokenText(path[0])] + Components(path[1..])
  }

  /** Non-empty component lists, separated by slashes. */
  function JoinSlash(cs: seq<string>): string
    requires cs != []
  {
    if |cs| == 1 then cs[0] else cs[0] + "/" + JoinSlash(cs[1..])
  }

  function Split(s: string): (r: seq<string>)
    ensures r != []
  {
    if s == "" then [""]
    else if s[0] == '/' then [""] + Split(s[1..])
    else
      var rest := Split(s[1..]);
      [[s[0]] + rest[0]] + rest[1..]
  }

  lemma {:induction false} SplitOne(s: string)
    requires NoSlash(s)
    ensures Split(s) == [s]
  {
    if s != "" {
      SplitOne(s[1..]);
      assert [s[0]] + s[1..] == s;
    }
  }

  lemma {:induction false} SplitFirst(c: string, rest: string)
    requires NoSlash(c)
    ensures Split(c + "/" + rest) == [c] + Split(rest)
  {
    var s := c + "/" + rest;
    if c == "" {
      assert s[1..] == rest;
    } else {
      assert s[1..] == c[1..] + "/" + rest;
      SplitFirst(c[1..], rest);
      assert [c[0]] + c[1..] == c;
    }
  }

  lemma {:induction false} SplitJoin(cs: seq<string>)
    requires cs != [] && forall i :: 0 <= i < |cs| ==> NoSlash(cs[i])
    ensures Split(JoinSlash(cs)) == cs
  {
    if |cs| == 1 {
      SplitOne(cs[0]);
    } else {
      SplitJoin(cs[1..]);
      SplitFirst(cs[0], JoinSlash(cs[1..]));
    }
  }

  lemma {:induction false} JoinSplit(s: string)
    ensures JoinSlash(Split(s)) == s
    ensures forall i :: 0 <= i < |Split(s)| ==> NoSlash(Split(s)[i])
  {
    hide JoinSlash, NoSlash;
    if s == "" {
      OneEmpty();
    } else {
      JoinSplit(s[1..]);
      var rest := Split(s[1..]);
      assert [s[0]] + s[1..] == s;
      if s[0] == '/' {
        EmptyFirst(rest);
      } else {
        LongerFirst(s[0], rest);
      }
    }
  }

  /** The components after the first, each with its slash. */
  function AfterFirst(rest: seq<string>): string {
    if rest == [] then "" else "/" + JoinSlash(rest)
  }

  lemma JoinFirst(cs: seq<string>)
    requires cs != []
    ensures JoinSlash(cs) == cs[0] + AfterFirst(cs[1..])
  {
    if |cs| == 1 {
      assert cs[0] + "" == cs[0];
    } else {
      assert (cs[0] + "/") + JoinSlash(cs[1..]) == cs[0] + ("/" + JoinSlash(cs[1..]));
    }
  }

  lemma OneEmpty()
    ensures JoinSlash([""]) == "" && NoSlash("")
  {
  }

  lemma EmptyFirst(rest: seq<string>)
    requires rest != []
    ensures JoinSlash([""] + rest) == ['/'] + JoinSlash(rest) && NoSlash("")
  {
    assert ([""] + rest)[1..] == rest;
    JoinFirst([""] + rest);
  }

  lemma LongerNoSlash(c: char, s: string)
    requires c != '/' && NoSlash(s)
    ensures NoSlash([c] + s)
  {
    assert ([c] + s)[1..] == s;
  }

  /** A character in front of the first component. */
  lemma LongerFirst(c: char, rest: seq<string>)
    requires rest != [] && c != '/' && forall i :: 0 <= i < |rest| ==> NoSlash(rest[i])
    ensures var longer := [[c] + rest[0]] + rest[1..];
            JoinSlash(longer) == [c] + JoinSlash(rest) && forall i :: 0 <= i < |longer| ==> NoSlash(longer[i])
  {
    hide JoinSlash, NoSlash, AfterFirst;
    var longer := [[c] + rest[0]] + rest[1..];
    assert longer[1..] == rest[1..];
    JoinFirst(rest);
    JoinFirst(longer);
    LongerNoSlash(c, rest[0]);
    assert ([c] + rest[0]) + AfterFirst(rest[1..]) == [c] + (rest[0] + AfterFirst(rest[1..]));
  }

  /** The pointer text of a path: each component after a slash. */
  function PointerText(path: Path): string {
    if path == [] then "" else "/" + JoinSlash(Components(path))
  }

  // ----- resolution

  /** One component against one value. */
  function Step(v: Json, component: string): Result<Token, PointerError> {
    if !TildeOk(component) then Err(MalformedTilde)
    else
      var name := Unescape(component);
      if v.Object? && Lookup(v.fields, name).Some? then Ok(Key(name))
      else if v.Array? && IsIndexText(name) then
        if ParseNat(name) >= |v.items| then Err(Unresolved) else Ok(Index(ParseNat(name)))
      else Err(Unresolved)
  }

  lemma StepMember(v: Json, component: string)
    requires Step(v, component).Ok?
    ensures Member(v, Step(v, component).value).Some?
  {
  }

  function Follow(v: Json, components: seq<string>): Result<Path, PointerError>
    decreases |components|
  {
    if components == [] then Ok([])
    else
      var t :- Step(v, components[0]);
      StepMember(v, components[0]);
      var path :- Follow(Member(v, t).value, components[1..]);
      Ok([t] + path)
  }

  predicate Local(reference: string) {
    reference == "#" || (|reference| >= 2 && reference[..2] == "#/")
  }

  /** The path a reference denotes, or why it is refused. */
  function Resolve(doc: Json, reference: string): Result<Path, PointerError> {
    if !Local(reference) then Err(NotLocal)
    else if !PercentOk(reference) then Err(MalformedPercent)
    else
      match Unquote(reference[1..])
      case None => Err(BadEncoding)
      case Some(pointer) =>
        var path :- if pointer == "" then Ok([]) else Follow(doc, Split(pointer[1..]));
        if At(doc, path).Some? && IsSchema(At(doc, path).value) then Ok(path) else Err(NotASchema)
  }

  // ----- the round trip

  lemma TokenTextOk(t: Token)
    ensures TildeOk(TokenText(t)) && NoSlash(TokenText(t))
  {
    match t
    case Key(name) => EscapeOk(name);
    case Index(i) =>
      ParseDecimal(i);
      DigitsOk(Decimal(i));
  }

  lemma {:induction false} DigitsOk(s: string)
    requires forall i :: 0 <= i < |s| ==> Digit(s[i])
    ensures TildeOk(s) && NoSlash(s) && Escape(s) == s
  {
    if s != "" {
      DigitsOk(s[1..]);
      assert Digit(s[0]) && [s[0]] + s[1..] == s;
    }
  }

  lemma StepText(v: Json, t: Token)
    requires Member(v, t).Some?
    ensures Step(v, TokenText(t)) == Ok(t)
  {
    TokenTextOk(t);
    match t
    case Key(name) => UnescapeEscape(name);
    case Index(i) =>
      ParseDecimal(i);
      DigitsOk(Decimal(i));
      UnescapeEscape(Decimal(i));
  }

  lemma {:induction false} FollowPath(v: Json, path: Path)
    requires At(v, path).Some?
    ensures Follow(v, Components(path)) == Ok(path)
    decreases |path|
  {
    if path != [] {
      StepText(v, path[0]);
      FollowPath(Member(v, path[0]).value, path[1..]);
      assert [path[0]] + path[1..] == path;
    }
  }

  lemma {:induction false} ComponentsOk(path: Path)
    ensures forall i :: 0 <= i < |path| ==> Components(path)[i] == TokenText(path[i]) && NoSlash(Components(path)[i])
  {
    if path != [] {
      TokenTextOk(path[0]);
      ComponentsOk(path[1..]);
    }
  }

  /** The fragment reference of a path, with any choice of characters escaped. */
  function Reference(path: Path, escape: char -> bool): string {
    if path == [] then "#" else "#/" + Quote(JoinSlash(Components(path)), escape)
  }

  lemma UnquoteReference(path: Path, escape: char -> bool)
    ensures Local(Reference(path, escape)) && PercentOk(Reference(path, escape))
    ensures Unquote(Reference(path, escape)[1..]) == Some(PointerText(path))
  {
    var r := Reference(path, escape);
    if path == [] {
      assert Decode([]) == Some("");
    } else {
      var text := JoinSlash(Components(path));
      var q := Quote(text, escape);
      assert r[1..] == "/" + q && r[1..][1..] == q;
      UnquoteQuote(text, escape, "/");
      assert Encode("/") == EncodeChar('/') + Encode("") && EncodeChar('/') == ['/' as int];
      assert Encode("/") == [] + ['/' as int];
      assert Unquote(r[1..]) == UnquoteFrom(q, [] + ['/' as int]);
    }
  }

  /** Every path to a schema is denoted by its reference, however it is escaped. */
  lemma PointerRoundTrip(doc: Json, path: Path, escape: char -> bool)
    requires At(doc, path).Some? && IsSchema(At(doc, path).value)
    ensures Resolve(doc, Reference(path, escape)) == Ok(path)
  {
    UnquoteReference(path, escape);
    if path != [] {
      ComponentsOk(path);
      SplitJoin(Components(path));
      assert PointerText(path)[1..] == JoinSlash(Components(path));
      FollowPath(doc, path);
    }
  }

  lemma {:induction false} FollowText(v: Json, components: seq<string>)
    requires Follow(v, components).Ok? && forall i :: 0 <= i < |components| ==> NoSlash(components[i])
    ensures var path := Follow(v, components).value;
            |path| == |components| && Components(path) == components && At(v, path).Some?
    decreases |components|
  {
    if components != [] {
      var t := Step(v, components[0]).value;
      StepMember(v, components[0]);
      FollowText(Member(v, t).value, components[1..]);
      StepDenotes(v, components[0]);
      var path := Follow(v, components).value;
      assert path[1..] == Follow(Member(v, t).value, components[1..]).value;
    }
  }

  lemma StepDenotes(v: Json, component: string)
    requires Step(v, component).Ok? && NoSlash(component)
    ensures TokenText(Step(v, component).value) == component
  {
    var name := Unescape(component);
    EscapeUnescape(component);
    if Step(v, component).value.Index? {
      DecimalParse(name);
      DigitsOk(name);
    }
  }

  /** An accepted reference denotes a path to a schema, and decodes to exactly that
      path's pointer text. */
  lemma AcceptedReference(doc: Json, reference: string)
    requires Resolve(doc, reference).Ok?
    ensures var path := Resolve(doc, reference).value;
            && At(doc, path).Some? && IsSchema(At(doc, path).value)
            && Unquote(reference[1..]) == Some(PointerText(path))
  {
    var pointer := Unquote(reference[1..]).value;
    if pointer != "" {
      var cs := Split(pointer[1..]);
      JoinSplit(pointer[1..]);
      FollowText(doc, cs);
      SlashFirst(reference);
      assert pointer == "/" + pointer[1..];
    }
  }

  /** The decoded text starts with the slash the reference starts with. */
  lemma SlashFirst(reference: string)
    requires Local(reference) && Unquote(reference[1..]).Some? && Unquote(reference[1..]).value != ""
    ensures Unquote(reference[1..]).value[0] == '/'
  {
    if reference != "#" {
      var rest := reference[2..];
      assert reference[1..] == "/" + rest && reference[1..][1..] == rest;
      assert Unquote(reference[1..]) == UnquoteFrom(rest, [] + ['/' as int]);
      RunFirst(rest, [] + ['/' as int]);
    }
  }

  lemma {:induction false} RunFirst(s: string, run: Bytes)
    requires run != [] && run[0] == '/' as int
    ensures UnquoteFrom(s, run).Some? ==> UnquoteFrom(s, run).value != "" && UnquoteFrom(s, run).value[0] == '/'
    decreases |s|
  {
    if s == "" || (!EscapeAt(s) && s[0] as int >= 0x80) {
      assert DecodeFront(run) == Some(('/', 1));
    } else if EscapeAt(s) {
      RunFirst(s[3..], run + [16 * HexValue(s[1]).value + HexValue(s[2]).value]);
    } else {
      RunFirst(s[1..], run + [s[0] as int]);
    }
  }

  /** Two paths of one document with the same pointer text are the same path. */
  lemma {:induction false} PointerTextUnique(doc: Json, p: Path, q: Path)
    requires At(doc, p).Some? && At(doc, q).Some? && PointerText(p) == PointerText(q)
    ensures p == q
  {
    if p != [] && q != [] {
      ComponentsOk(p);
      ComponentsOk(q);
      SplitJoin(Components(p));
      SplitJoin(Components(q));
      assert PointerText(p)[1..] == PointerText(q)[1..];
      FollowPath(doc, p);
      FollowPath(doc, q);
    }
  }

  // ----- resolution as the program does it

  method ResolvePointer(doc: Json, reference: string) returns (r: Result<(Path, Json), PointerError>)
    ensures r.Ok? <==> Resolve(doc, reference).Ok?
    ensures r.Ok? ==> r.value.0 == Resolve(doc, reference).value && At(doc, r.value.0) == Some(r.value.1)
    ensures r.Err? ==> r.error == Resolve(doc, reference).error
  {
    if !Local(reference) {
      return Err(NotLocal);
    }
    if !PercentOk(reference) {
      return Err(MalformedPercent);
    }
    var pointer := Unquote(reference[1..]);
    if pointer.None? {
      return Err(BadEncoding);
    }
    var target, path := doc, [];
    if pointer.value != "" {
      var components := Split(pointer.value[1..]);
      var n := 0;
      assert components[0..] == components;
      Ahead([], Follow(doc, components));
      while n < |components|
        invariant n <= |components|
        invariant At(doc, path) == Some(target)
        invariant Follow(doc, components) == Prefixed(path, Follow(target, components[n..]))
      {
        assert components[n..][0] == components[n] && components[n..][1..] == components[n + 1..];
        var token := Step(target, components[n]);
        if token.Err? {
          return Err(token.error);
        }
        StepMember(target, components[n]);
        Extend(doc, path, token.value);
        target := Member(target, token.value).value;
        AheadOne(path, token.value, Follow(target, components[n + 1..]));
        path := path + [token.value];
        n := n + 1;
      }
      Ahead(path, Ok([]));
    }
    if !IsSchema(target) {
      return Err(NotASchema);
    }
    return Ok((path, target));
  }

  function Prefixed(path: Path, r: Result<Path, PointerError>): Result<Path, PointerError> {
    match r
    case Ok(more) => Ok(path + more)
    case Err(e) => Err(e)
  }

  lemma Ahead(path: Path, r: Result<Path, PointerError>)
    ensures path == [] ==> Prefixed(path, r) == r
    ensures Prefixed(path, Ok([])) == Ok(path)
  {
    assert path + [] == path;
    if r.Ok? {
      assert [] + r.value == r.value;
    }
  }

  lemma AheadOne(path: Path, t: Token, r: Result<Path, PointerError>)
    ensures Prefixed(path, Prefixed([t], r)) == Prefixed(path + [t], r)
  {
    if r.Ok? {
      assert path + ([t] + r.value) == path + [t] + r.value;
    }
  }

  lemma {:induction false} Extend(doc: Json, path: Path, t: Token)
    requires At(doc, path).Some?
    ensures At(doc, path + [t]) == Member(At(doc, path).value, t)
    decreases |path|
  {
    if path == [] {
      assert At(doc, [t]) == match Member(doc, t) case None => None case Some(v) => At(v, []);
    } else {
      assert (path + [t])[0] == path[0] && (path + [t])[1..] == path[1..] + [t];
      Extend(Member(doc, path[0]).value, path[1..], t);
    }
  }
}
