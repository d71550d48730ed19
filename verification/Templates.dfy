/** Intent templates: one left-to-right pass replaces `{name}` placeholders. */
module Templates {

  predicate NameChar(c: char) {
    'a' <= c <= 'z' || 'A' <= c <= 'Z' || '0' <= c <= '9' || c == '_' || c == '-'
  }

  /** Length of the longest run of name characters at the front of `s`. */
  function NameRun(s: string): (n: nat)
    ensures n <= |s|
    ensures forall i :: 0 <= i < n ==> NameChar(s[i])
    ensures n < |s| ==> !NameChar(s[n])
  {
    if s == "" || !NameChar(s[0]) then 0 else 1 + NameRun(s[1..])
  }

  /** Length of the placeholder at the front of `s`; 0 when there is none. */
  function Placeholder(s: string): (n: nat)
    ensures n <= |s|
    ensures n > 0 ==> n >= 3 && s[0] == '{' && s[n - 1] == '}' && forall i :: 1 <= i < n - 1 ==> NameChar(s[i])
  {
    if s == "" || s[0] != '{' then 0
    else
      var n := NameRun(s[1..]);
      if n > 0 && 1 + n < |s| && s[1 + n] == '}' then n + 2 else 0
  }

  function Render(intent: string, outputs: map<string, string>): string {
    var n := Placeholder(intent);
    if intent == "" then ""
    else if n == 0 then [intent[0]] + Render(intent[1..], outputs)
    else
      var name := intent[1..n - 1];
      (if name in outputs then outputs[name] else intent[..n]) + Render(intent[n..], outputs)
  }

  // ----- the meaning of a template: a fixed list of literals and holes

  datatype Token = Lit(c: char) | Hole(name: string)

  function Unparse(ts: seq<Token>): string {
    if ts == [] then ""
    else (match ts[0] case Lit(c) => [c] case Hole(name) => "{" + name + "}") + Unparse(ts[1..])
  }

  function Fill(ts: seq<Token>, outputs: map<string, string>): string {
    if ts == [] then ""
    else
      (match ts[0]
       case Lit(c) => [c]
       case Hole(name) => if name in outputs then outputs[name] else "{" + name + "}")
      + Fill(ts[1..], outputs)
  }

  predicate IsName(name: string) {
    name != "" && forall i :: 0 <= i < |name| ==> NameChar(name[i])
  }

  /** Every `{name}` in the text is a hole: no literal brace opens a placeholder. */
  ghost predicate Maximal(ts: seq<Token>) {
    && (forall i :: 0 <= i < |ts| && ts[i].Hole? ==> IsName(ts[i].name))
    && (forall i :: 0 <= i < |ts| && ts[i] == Lit('{') ==> !OpensHole(Unparse(ts[i..])))
  }

  ghost predicate OpensHole(s: string) {
    exists name, rest :: IsName(name) && s == "{" + name + "}" + rest
  }

  const LOWER := "abcdefghijklmnopqrstuvwxyz"
  const UPPER := "ABCDEFGHIJKLMNOPQRSTUVWXYZ"
  const DIGITS := "0123456789"

  lemma Alphabets()
    ensures |LOWER| == |UPPER| == 26 && |DIGITS| == 10
    ensures forall i :: 0 <= i < 26 ==> LOWER[i] as int == 'a' as int + i && UPPER[i] as int == 'A' as int + i
    ensures forall i :: 0 <= i < 10 ==> DIGITS[i] as int == '0' as int + i
  {
  }

  /** The alphabet of names. */
  lemma NameCharIff(c: char)
    ensures NameChar(c) <==> c in LOWER || c in UPPER || c in DIGITS || c == '_' || c == '-'
  {
    Alphabets();
    var n := c as int;
    if 'a' <= c <= 'z' {
      assert LOWER[n - 'a' as int] == c;
    } else if 'A' <= c <= 'Z' {
      assert UPPER[n - 'A' as int] == c;
    } else if '0' <= c <= '9' {
      assert DIGITS[n - '0' as int] == c;
    }
  }

  lemma PlaceholderIff(s: string)
    ensures Placeholder(s) > 0 <==> OpensHole(s)
  {
    if OpensHole(s) {
      var name, rest :| IsName(name) && s == "{" + name + "}" + rest;
      PlaceholderOf(name, rest);
    }
    var n := Placeholder(s);
    if n > 0 {
      var name, rest := s[1..n - 1], s[n..];
      assert s == "{" + name + "}" + rest;
      assert IsName(name);
    }
  }

  lemma PlaceholderOf(name: string, rest: string)
    requires IsName(name)
    ensures Placeholder("{" + name + "}" + rest) == |name| + 2
  {
    var s := "{" + name + "}" + rest;
    assert s[1..] == name + "}" + rest;
    NameRunOf(name, "}" + rest);
    assert name + ("}" + rest) == s[1..];
    assert s[1 + |name|] == '}';
  }

  lemma {:induction false} NameRunOf(name: string, rest: string)
    requires forall i :: 0 <= i < |name| ==> NameChar(name[i])
    requires rest != "" && !NameChar(rest[0])
    ensures NameRun(name + rest) == |name|
  {
    if name == "" {
      assert name + rest == rest;
    } else {
      assert (name + rest)[1..] == name[1..] + rest;
      NameRunOf(name[1..], rest);
    }
  }

  lemma MaximalCons(t: Token, us: seq<Token>)
    requires Maximal(us)
    requires t.Hole? ==> IsName(t.name)
    requires t == Lit('{') ==> !OpensHole(Unparse([t] + us))
    ensures Maximal([t] + us)
  {
    var ts := [t] + us;
    forall i | 0 <= i < |ts| && ts[i] == Lit('{') ensures !OpensHole(Unparse(ts[i..])) {
      if i == 0 {
        assert ts[0..] == ts;
      } else {
        assert ts[i..] == us[i - 1..] && us[i - 1] == Lit('{');
      }
    }
  }

  function FrontToken(s: string): Token
    requires s != ""
  {
    var n := Placeholder(s);
    if n == 0 then Lit(s[0]) else Hole(s[1..n - 1])
  }

  function AfterFront(s: string): string
    requires s != ""
  {
    var n := Placeholder(s);
    s[if n == 0 then 1 else n..]
  }

  lemma FrontUnparse(s: string, us: seq<Token>)
    requires s != "" && Unparse(us) == AfterFront(s)
    ensures Unparse([FrontToken(s)] + us) == s
    ensures FrontToken(s).Hole? ==> IsName(FrontToken(s).name)
  {
    var n := Placeholder(s);
    if n > 0 {
      assert s[..n] == "{" + s[1..n - 1] + "}";
    }
  }

  lemma FrontRender(s: string, us: seq<Token>, outputs: map<string, string>)
    requires s != "" && Render(AfterFront(s), outputs) == Fill(us, outputs)
    ensures Render(s, outputs) == Fill([FrontToken(s)] + us, outputs)
  {
    var n := Placeholder(s);
    assert ([FrontToken(s)] + us)[1..] == us;
    if n > 0 {
      assert s[..n] == "{" + s[1..n - 1] + "}";
    }
  }

  /** A template parses into exactly one token list, and rendering fills its holes:
      inserted text is never scanned again, unknown names are left as written. */
  lemma {:induction false} RenderFillsHoles(intent: string, outputs: map<string, string>) returns (ts: seq<Token>)
    ensures Unparse(ts) == intent && Maximal(ts)
    ensures Render(intent, outputs) == Fill(ts, outputs)
    decreases |intent|
  {
    if intent == "" {
      ts := [];
    } else {
      var us := RenderFillsHoles(AfterFront(intent), outputs);
      ts := [FrontToken(intent)] + us;
      FrontUnparse(intent, us);
      FrontRender(intent, us, outputs);
      PlaceholderIff(intent);
      MaximalCons(FrontToken(intent), us);
    }
  }

  /** ... and that token list is the only maximal reading of the text. */
  lemma {:induction false} MaximalUnique(ts: seq<Token>, us: seq<Token>)
    requires Maximal(ts) && Maximal(us) && Unparse(ts) == Unparse(us)
    ensures ts == us
    decreases |ts|
  {
    if ts == [] || us == [] {
      assert ts == us;
    } else {
      FirstToken(ts);
      FirstToken(us);
      TailMaximal(ts);
      TailMaximal(us);
      assert ts[0] == us[0];
      MaximalUnique(ts[1..], us[1..]);
      assert ts == [ts[0]] + ts[1..] && us == [us[0]] + us[1..];
    }
  }

  /** The text alone decides the first token and where the second one starts. */
  lemma FirstToken(ts: seq<Token>)
    requires Maximal(ts) && ts != []
    ensures var s := Unparse(ts);
            s != "" && ts[0] == FrontToken(s) && Unparse(ts[1..]) == AfterFront(s)
  {
    var s := Unparse(ts);
    var rest := Unparse(ts[1..]);
    assert ts[0..] == ts;
    match ts[0]
    case Lit(c) =>
      assert s == [c] + rest;
      PlaceholderIff(s);
    case Hole(name) =>
      assert s == "{" + name + "}" + rest;
      PlaceholderOf(name, rest);
      assert s[1..|name| + 1] == name;
  }

  lemma TailMaximal(ts: seq<Token>)
    requires Maximal(ts) && ts != []
    ensures Maximal(ts[1..])
  {
    forall i | 0 <= i < |ts[1..]| && ts[1..][i] == Lit('{') ensures !OpensHole(Unparse(ts[1..][i..])) {
      assert ts[1..][i..] == ts[i + 1..] && ts[i + 1] == Lit('{');
    }
  }
}
