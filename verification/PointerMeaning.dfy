/** Which references a document accepts, and the place each of them denotes, told on the
    bytes of the reference. */
module PointerMeaning {
  import opened Wrappers
  import opened JsonPointer

  // ----- UTF-8, strictly

  /** Only the encoding of a character decodes to it: nothing overlong, no surrogate. */
  lemma DecodesOne(bs: Bytes)
    requires bs != [] && DecodeFront(bs).Some?
    ensures bs[..DecodeFront(bs).value.1] == EncodeChar(DecodeFront(bs).value.0)
  {
    var (c, n) := DecodeFront(bs).value;
    if n == 3 {
      ThreeBytesBack(bs[0] - 0xE0, bs[1] - 0x80, bs[2] - 0x80);
    } else if n == 4 {
      FourBytesBack(bs[0] - 0xF0, bs[1] - 0x80, bs[2] - 0x80, bs[3] - 0x80);
    }
  }

  lemma ThreeBytesBack(a: int, b: int, c: int)
    requires 0 <= a < 16 && 0 <= b < 64 && 0 <= c < 64
    ensures var n := a * 4096 + b * 64 + c; n / 4096 == a && n / 64 % 64 == b && n % 64 == c
  {
  }

  lemma FourBytesBack(a: int, b: int, c: int, d: int)
    requires 0 <= a < 5 && 0 <= b < 64 && 0 <= c < 64 && 0 <= d < 64
    ensures var n := a * 262144 + b * 4096 + c * 64 + d;
            n / 262144 == a && n / 4096 % 64 == b && n / 64 % 64 == c && n % 64 == d
  {
    var n := a * 262144 + b * 4096 + c * 64 + d;
    assert n / 64 == a * 4096 + b * 64 + c;
    assert n / 4096 == a * 64 + b;
  }

  lemma {:induction false} DecodeIff(bs: Bytes, t: string)
    ensures Decode(bs) == Some(t) <==> bs == Encode(t)
    decreases |bs|
  {
    hide DecodeFront, EncodeChar;
    DecodeEncode(t);
    if bs != [] && Decode(bs) == Some(t) {
      var (c, n) := DecodeFront(bs).value;
      DecodesOne(bs);
      DecodeIff(bs[n..], t[1..]);
      assert t == [c] + t[1..] && bs == bs[..n] + bs[n..];
    }
  }

  lemma {:induction false} EncodeJoin(a: string, b: string)
    ensures Encode(a + b) == Encode(a) + Encode(b)
  {
    hide EncodeChar;
    if a == "" {
      assert a + b == b;
    } else {
      assert (a + b)[1..] == a[1..] + b;
      EncodeJoin(a[1..], b);
    }
  }

  /** The first byte of a character is never one that continues another. */
  lemma FirstByte(c: char)
    ensures !Continuation(EncodeChar(c)[0])
    ensures forall i :: 1 <= i < |EncodeChar(c)| ==> Continuation(EncodeChar(c)[i])
  {
  }

  /** The first character of a text lies before another that begins further on. */
  lemma BeginsWith(d: char, rest: Bytes, before: Bytes, c: char, after: Bytes)
    requires EncodeChar(d) + rest == before + EncodeChar(c) + after && before != []
    ensures |EncodeChar(d)| <= |before| && before == EncodeChar(d) + before[|EncodeChar(d)|..]
    ensures rest == before[|EncodeChar(d)|..] + EncodeChar(c) + after
  {
    hide EncodeChar;
    var e, bytes := EncodeChar(d), EncodeChar(d) + rest;
    FirstByte(d);
    FirstByte(c);
    assert bytes[|before|] == EncodeChar(c)[0];
    assert forall i :: 0 <= i < |e| ==> bytes[i] == e[i];
    if |before| < |e| {
      assert false;
    }
    assert forall i :: 0 <= i < |e| ==> before[i] == bytes[i];
    assert rest == bytes[|e|..];
  }

  /** Where a character begins among encoded bytes, the text splits. */
  lemma {:induction false} SplitsAt(t: string, before: Bytes, c: char, after: Bytes) returns (a: string, b: string)
    requires Encode(t) == before + EncodeChar(c) + after
    ensures t == a + [c] + b && Encode(a) == before && Encode(b) == after
    decreases |t|
  {
    hide EncodeChar;
    assert t != "";
    var e, rest := EncodeChar(t[0]), Encode(t[1..]);
    var bytes := Encode(t);
    assert bytes == e + rest;
    if before == [] {
      assert bytes == EncodeChar(c) + after;
      DecodeChar(c, after);
      DecodeChar(t[0], rest);
      a, b := "", t[1..];
    } else {
      BeginsWith(t[0], rest, before, c, after);
      var a1, b1 := SplitsAt(t[1..], before[|e|..], c, after);
      a, b := [t[0]] + a1, b1;
      assert a[1..] == a1;
    }
  }

  // ----- percent escapes

  /** Hexadecimal digits, in capital or small letters. */
  lemma HexIff(c: char, n: int)
    ensures HexValue(c) == Some(n) <==> 0 <= n < 16 && (c == "0123456789ABCDEF"[n] || c == "0123456789abcdef"[n])
  {
    if 0 <= n < 16 && (c == "0123456789ABCDEF"[n] || c == "0123456789abcdef"[n]) {
      assert n < 10 ==> c == '0' + n as char;
    }
  }

  predicate IsHex(c: char) {
    '0' <= c <= '9' || 'A' <= c <= 'F' || 'a' <= c <= 'f'
  }

  /** The bytes of a reference: an escape is its byte, any other character its encoding. */
  function Denoted(s: string): Bytes
    decreases |s|
  {
    if s == "" then []
    else if |s| >= 3 && s[0] == '%' && IsHex(s[1]) && IsHex(s[2]) then
      [16 * HexValue(s[1]).value + HexValue(s[2]).value] + Denoted(s[3..])
    else EncodeChar(s[0]) + Denoted(s[1..])
  }

  /** Unquoting gives exactly the text whose encoding these bytes are. */
  lemma {:induction false} UnquoteFromIff(s: string, run: Bytes, t: string)
    ensures UnquoteFrom(s, run) == Some(t) <==> Encode(t) == run + Denoted(s)
    decreases |s|
  {
    hide Decode, EncodeChar, HexValue, Encode;
    if s == "" {
      DecodeIff(run, t);
      assert run + [] == run;
    } else if EscapeAt(s) {
      HexRange(s[1]);
      HexRange(s[2]);
      var b := 16 * HexValue(s[1]).value + HexValue(s[2]).value;
      UnquoteFromIff(s[3..], run + [b], t);
      assert run + [b] + Denoted(s[3..]) == run + ([b] + Denoted(s[3..]));
    } else {
      NoEscape(s);
      if s[0] as int < 0x80 {
        OneByte(s[0]);
        UnquoteFromIff(s[1..], run + [s[0] as int], t);
        assert run + [s[0] as int] + Denoted(s[1..]) == run + ([s[0] as int] + Denoted(s[1..]));
      } else {
        NonAsciiIff(s, run, t);
      }
    }
  }

  lemma HexRange(c: char)
    ensures HexValue(c).Some? <==> IsHex(c)
  {
  }

  lemma NoEscape(s: string)
    requires s != "" && !EscapeAt(s)
    ensures Denoted(s) == EncodeChar(s[0]) + Denoted(s[1..])
  {
    hide EncodeChar;
    if |s| >= 3 {
      HexRange(s[1]);
      HexRange(s[2]);
    }
  }

  lemma OneByte(c: char)
    requires c as int < 0x80
    ensures EncodeChar(c) == [c as int]
  {
  }

  lemma {:induction false} NonAsciiIff(s: string, run: Bytes, t: string)
    requires s != "" && !EscapeAt(s) && s[0] as int >= 0x80
    ensures UnquoteFrom(s, run) == Some(t) <==> Encode(t) == run + Denoted(s)
    decreases |s|, 0
  {
    hide Decode, EncodeChar, HexValue, Denoted;
    var c, rest := s[0], Denoted(s[1..]);
    NoEscape(s);
    assert run + (EncodeChar(c) + rest) == run + EncodeChar(c) + rest;
    if Encode(t) == run + EncodeChar(c) + rest {
      var a, b := SplitsAt(t, run, c, rest);
      DecodeIff(run, a);
      UnquoteFromIff(s[1..], [], b);
      assert [] + rest == rest;
    }
    if UnquoteFrom(s, run) == Some(t) {
      var a, b := Decode(run).value, UnquoteFrom(s[1..], []).value;
      DecodeIff(run, a);
      UnquoteFromIff(s[1..], [], b);
      assert [] + rest == rest;
      EncodeJoin(a + [c], b);
      EncodeSnoc(a, c);
    }
  }

  /** Every percent sign is followed by two hexadecimal digits. */
  ghost predicate Escaped(s: string) {
    forall i :: 0 <= i < |s| && s[i] == '%' ==> i + 2 < |s| && IsHex(s[i + 1]) && IsHex(s[i + 2])
  }

  lemma {:induction false} PercentOkIff(s: string)
    ensures PercentOk(s) <==> Escaped(s)
  {
    if s != "" {
      PercentOkIff(s[1..]);
      if |s| >= 3 {
        HexRange(s[1]);
        HexRange(s[2]);
      }
      hide HexValue;
      assert forall i :: 0 <= i < |s| - 1 ==> s[1..][i] == s[i + 1];
      assert Escaped(s) <==> (s[0] == '%' ==> |s| >= 3 && IsHex(s[1]) && IsHex(s[2])) && Escaped(s[1..]) by {
        EscapedStep(s);
      }
    }
  }

  lemma EscapedStep(s: string)
    requires s != ""
    ensures Escaped(s) <==> (s[0] == '%' ==> |s| >= 3 && IsHex(s[1]) && IsHex(s[2])) && Escaped(s[1..])
  {
    var t := s[1..];
    assert forall i :: 0 <= i < |t| ==> t[i] == s[i + 1];
    if Escaped(s) {
      forall i | 0 <= i < |t| && t[i] == '%' ensures i + 2 < |t| && IsHex(t[i + 1]) && IsHex(t[i + 2]) {
        assert s[i + 1] == '%';
      }
    }
    if (s[0] == '%' ==> |s| >= 3 && IsHex(s[1]) && IsHex(s[2])) && Escaped(t) {
      forall i | 0 <= i < |s| && s[i] == '%' ensures i + 2 < |s| && IsHex(s[i + 1]) && IsHex(s[i + 2]) {
        if i > 0 {
          assert t[i - 1] == '%';
          assert s[i + 1] == t[i] && s[i + 2] == t[i + 1];
        }
      }
    }
  }

  // ----- references

  /** A reference is accepted, for a place, exactly when it is local, escaped as it should
      be, a schema is there, and its bytes are the encoding of that place's pointer. */
  lemma ResolveIff(doc: Json, reference: string, p: Path)
    ensures Resolve(doc, reference) == Ok(p) <==>
            && (reference == "#" || (|reference| >= 2 && reference[0] == '#' && reference[1] == '/'))
            && Escaped(reference)
            && At(doc, p).Some? && (At(doc, p).value.Object? || At(doc, p).value.Bool?)
            && Encode(PointerText(p)) == Denoted(reference[1..])
  {
    hide Encode, Denoted, UnquoteFrom, PercentOk, Escaped, At, Follow, Decode;
    PercentOkIff(reference);
    LocalIff(reference);
    if Local(reference) {
      UnquoteFromIff(reference[1..], [], PointerText(p));
      assert [] + Denoted(reference[1..]) == Denoted(reference[1..]);
      if Resolve(doc, reference) == Ok(p) {
        AcceptedReference(doc, reference);
      }
      if PercentOk(reference) && Unquote(reference[1..]) == Some(PointerText(p)) && At(doc, p).Some? {
        PointerFollowed(doc, p);
      }
    }
  }

  lemma LocalIff(reference: string)
    ensures Local(reference) <==>
            reference == "#" || (|reference| >= 2 && reference[0] == '#' && reference[1] == '/')
  {
    if |reference| >= 2 && reference[0] == '#' && reference[1] == '/' {
      assert reference[..2] == "#/";
    }
  }

  lemma PointerFollowed(doc: Json, p: Path)
    requires At(doc, p).Some?
    ensures PointerText(p) == "" <==> p == []
    ensures p != [] ==> Follow(doc, Split(PointerText(p)[1..])) == Ok(p)
  {
    if p != [] {
      ComponentsOk(p);
      SplitJoin(Components(p));
      assert PointerText(p)[1..] == JoinSlash(Components(p));
      FollowPath(doc, p);
    }
  }
}
