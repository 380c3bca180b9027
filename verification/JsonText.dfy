/** JSON values and the text `JSON.stringify` gives them.

    A finite JavaScript number is identified with the numeral that prints it;
    strings are sequences of Unicode scalar values. `JsonReader` reads the text
    back. */
module JsonText {

  datatype Json =
    | Null
    | Bool(b: bool)
    | Num(numeral: string)
    | Str(s: string)
    | Arr(elems: seq<Json>)
    | Obj(members: seq<Member>)

  /** One own property of an object; a `seq<Member>` keeps the property order. */
  datatype Member = Member(key: string, value: Json)

  function Keys(ms: seq<Member>): (keys: set<string>)
  {
    set m | m in ms :: m.key
  }

  predicate NumeralChar(c: char)
  {
    '0' <= c <= '9' || c == '-' || c == '+' || c == '.' || c == 'e' || c == 'E'
  }

  predicate Digit(c: char)
  {
    '0' <= c <= '9'
  }

  predicate Digits(s: string)
  {
    s != "" && forall i :: 0 <= i < |s| ==> Digit(s[i])
  }

  /** The number grammar of RFC 8259, section 6: an optional minus sign, an integer
      part without leading zeros, an optional fraction and an optional exponent. */
  predicate Numeral(s: string)
  {
    if s != "" && s[0] == '-' then Unsigned(s[1..]) else Unsigned(s)
  }

  predicate Unsigned(s: string)
  {
    exists i :: 0 < i <= |s| && IntPart(s[..i]) && FracExp(s[i..])
  }

  predicate IntPart(s: string)
  {
    Digits(s) && (s[0] == '0' ==> |s| == 1)
  }

  predicate FracExp(s: string)
  {
    exists i :: 0 <= i <= |s| && Frac(s[..i]) && Exp(s[i..])
  }

  predicate Frac(s: string)
  {
    s == "" || (s[0] == '.' && Digits(s[1..]))
  }

  predicate Exp(s: string)
  {
    s == "" || ((s[0] == 'e' || s[0] == 'E') && (Digits(s[1..]) || (|s| > 1 && (s[1] == '+' || s[1] == '-') && Digits(s[2..]))))
  }

  /** Plain JSON data: numbers print as numerals, the keys of an object are
      distinct, and no key is `__proto__` (assigning that key is not a property
      write in JavaScript). */
  predicate Plain(v: Json)
    decreases v, 0
  {
    match v
    case Num(n) => Numeral(n)
    case Arr(es) => PlainElems(es)
    case Obj(ms) => PlainMembers(ms)
    case _ => true
  }

  predicate PlainElems(es: seq<Json>)
    decreases es, 0
  {
    es != [] ==> Plain(es[0]) && PlainElems(es[1..])
  }

  predicate PlainMembers(ms: seq<Member>)
    decreases ms, 0
  {
    ms != [] ==>
      && ms[0].key != "__proto__"
      && ms[0].key !in Keys(ms[1..])
      && Plain(ms[0].value)
      && PlainMembers(ms[1..])
  }

  type PlainJson = v: Json | Plain(v) witness Null

  function HexDigit(n: int): char
    requires 0 <= n < 16
  {
    if n < 10 then '0' + n as char else 'a' + (n - 10) as char
  }

  /** The escape of one character inside a JSON string. */
  function Escape(c: char): string
  {
    if c == '\"' then "\\\""
    else if c == '\\' then "\\\\"
    else if c == '\U{8}' then "\\b"
    else if c == '\U{C}' then "\\f"
    else if c == '\n' then "\\n"
    else if c == '\r' then "\\r"
    else if c == '\t' then "\\t"
    else if c < ' ' then "\\u00" + [HexDigit(c as int / 16), HexDigit(c as int % 16)]
    else [c]
  }

  /** The body of a JSON string together with its closing quote. */
  function Quoted(s: string): string
  {
    if s == "" then "\"" else Escape(s[0]) + Quoted(s[1..])
  }

  /** `JSON.stringify` on plain data. */
  function Print(v: Json): string
    decreases v, 0
  {
    match v
    case Null => "null"
    case Bool(b) => if b then "true" else "false"
    case Num(n) => n
    case Str(s) => "\"" + Quoted(s)
    case Arr(es) => "[" + if es == [] then "]" else Print(es[0]) + PrintMoreElems(es[1..])
    case Obj(ms) => "{" + if ms == [] then "}" else PrintMember(ms[0]) + PrintMoreMembers(ms[1..])
  }

  function PrintMoreElems(es: seq<Json>): string
    decreases es, 0
  {
    if es == [] then "]" else "," + Print(es[0]) + PrintMoreElems(es[1..])
  }

  function PrintMember(m: Member): string
    decreases m, 1
  {
    "\"" + Quoted(m.key) + ":" + Print(m.value)
  }

  function PrintMoreMembers(ms: seq<Member>): string
    decreases ms, 0
  {
    if ms == [] then "}" else "," + PrintMember(ms[0]) + PrintMoreMembers(ms[1..])
  }

  /** What may follow a value inside JSON text. */
  predicate Terminated(x: string)
  {
    x == "" || x[0] == ',' || x[0] == ']' || x[0] == '}'
  }

  predicate AllNumeralChars(s: string)
  {
    forall i :: 0 <= i < |s| ==> NumeralChar(s[i])
  }

  lemma SplitNumeralChars(s: string, i: nat)
    requires i <= |s| && AllNumeralChars(s[..i]) && AllNumeralChars(s[i..])
    ensures AllNumeralChars(s)
  {
    forall k | 0 <= k < |s|
      ensures NumeralChar(s[k])
    {
      assert k < i ==> s[k] == s[..i][k];
      assert k >= i ==> s[k] == s[i..][k - i];
    }
  }

  lemma FracChars(s: string)
    requires Frac(s)
    ensures AllNumeralChars(s)
  {
    if s != "" { SplitNumeralChars(s, 1); }
  }

  lemma ExpChars(s: string)
    requires Exp(s)
    ensures AllNumeralChars(s)
  {
    if s != "" {
      if Digits(s[1..]) { SplitNumeralChars(s, 1); } else { SplitNumeralChars(s, 2); }
    }
  }

  lemma FracExpChars(s: string)
    requires FracExp(s)
    ensures AllNumeralChars(s)
  {
    hide Frac, Exp, AllNumeralChars;
    var i :| 0 <= i <= |s| && Frac(s[..i]) && Exp(s[i..]);
    FracChars(s[..i]);
    ExpChars(s[i..]);
    SplitNumeralChars(s, i);
  }

  lemma UnsignedChars(s: string)
    requires Unsigned(s)
    ensures s != "" && Digit(s[0]) && AllNumeralChars(s)
  {
    hide FracExp;
    var i :| 0 < i <= |s| && IntPart(s[..i]) && FracExp(s[i..]);
    FracExpChars(s[i..]);
    SplitNumeralChars(s, i);
    assert s[0] == s[..i][0];
  }

  lemma NumeralChars(s: string)
    requires Numeral(s)
    ensures s != "" && (Digit(s[0]) || s[0] == '-') && AllNumeralChars(s)
  {
    hide Unsigned;
    if s != "" && s[0] == '-' {
      UnsignedChars(s[1..]);
      SplitNumeralChars(s, 1);
    } else {
      UnsignedChars(s);
    }
  }

  /** The first character of a printed value tells its constructor. */
  lemma FirstChar(v: Json)
    requires Plain(v)
    ensures Print(v) != ""
    ensures match v
            case Null => Print(v)[0] == 'n'
            case Bool(b) => Print(v)[0] == if b then 't' else 'f'
            case Num(_) => Digit(Print(v)[0]) || Print(v)[0] == '-'
            case Str(_) => Print(v)[0] == '\"'
            case Arr(_) => Print(v)[0] == '['
            case Obj(_) => Print(v)[0] == '{'
  {
    if v.Num? { NumeralChars(v.numeral); }
  }

  // ----- JSON text is one line

  predicate OneLine(s: string)
  {
    forall i :: 0 <= i < |s| ==> s[i] >= ' '
  }

  lemma Joined(a: string, b: string)
    requires OneLine(a) && OneLine(b)
    ensures OneLine(a + b)
  {
  }

  lemma {:induction false} QuotedOneLine(s: string)
    ensures OneLine(Quoted(s))
  {
    if s != "" {
      QuotedOneLine(s[1..]);
      Joined(Escape(s[0]), Quoted(s[1..]));
    }
  }

  /** JSON text holds no control character, hence no line break. */
  lemma {:induction false} PrintOneLine(v: Json)
    requires Plain(v)
    ensures OneLine(Print(v))
    decreases v, 0
  {
    match v
    case Str(s) => QuotedOneLine(s); Joined("\"", Quoted(s));
    case Arr(es) => ElemsOneLine(es);
    case Obj(ms) => MembersOneLine(ms);
    case Num(n) => NumeralChars(n);
    case _ =>
  }

  lemma {:induction false} ElemsOneLine(es: seq<Json>)
    requires PlainElems(es)
    ensures OneLine(Print(Arr(es))) && OneLine(PrintMoreElems(es))
    decreases es, 0
  {
    if es != [] {
      PrintOneLine(es[0]);
      ElemsOneLine(es[1..]);
      var rest := PrintMoreElems(es[1..]);
      Joined(Print(es[0]), rest);
      Joined("[", Print(es[0]) + rest);
      Joined(",", Print(es[0]));
      Joined("," + Print(es[0]), rest);
    }
  }

  lemma {:induction false} MembersOneLine(ms: seq<Member>)
    requires PlainMembers(ms)
    ensures OneLine(Print(Obj(ms))) && OneLine(PrintMoreMembers(ms))
    decreases ms, 0
  {
    if ms != [] {
      var m, rest := PrintMember(ms[0]), PrintMoreMembers(ms[1..]);
      MemberOneLine(ms[0]);
      MembersOneLine(ms[1..]);
      Joined(m, rest);
      Joined("{", m + rest);
      Joined(",", m);
      Joined("," + m, rest);
    }
  }

  lemma {:induction false} MemberOneLine(m: Member)
    requires Plain(m.value)
    ensures OneLine(PrintMember(m))
    decreases m, 1
  {
    QuotedOneLine(m.key);
    PrintOneLine(m.value);
    Joined("\"", Quoted(m.key));
    Joined("\"" + Quoted(m.key), ":");
    Joined("\"" + Quoted(m.key) + ":", Print(m.value));
  }
}
