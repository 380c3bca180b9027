/** What `JSON.parse` reads: a reader by the grammar of RFC 8259, with its own tables,
    and the proof that it reads what `JSON.stringify` prints. */
module JsonReader {
  import opened Options
  import opened JsonText

  // ----- white space and literals

  /** Insignificant white space, section 2 of RFC 8259. */
  predicate Blank(c: char)
  {
    c == '\U{20}' || c == '\U{9}' || c == '\U{A}' || c == '\U{D}'
  }

  function SkipBlanks(s: string): (r: string)
    ensures |r| <= |s|
  {
    if s != "" && Blank(s[0]) then SkipBlanks(s[1..]) else s
  }

  // ----- strings

  function HexValue(c: char): Option<int>
  {
    if '0' <= c <= '9' then Some(c as int - 0x30)
    else if 'a' <= c <= 'f' then Some(c as int - 0x61 + 10)
    else if 'A' <= c <= 'F' then Some(c as int - 0x41 + 10)
    else None
  }

  function Hex4(s: string): (r: Option<int>)
    ensures r.Some? ==> |s| >= 4
  {
    if |s| < 4 || HexValue(s[0]).None? || HexValue(s[1]).None? || HexValue(s[2]).None? || HexValue(s[3]).None? then None
    else Some(((HexValue(s[0]).value * 16 + HexValue(s[1]).value) * 16 + HexValue(s[2]).value) * 16 + HexValue(s[3]).value)
  }

  /** The four digits after `\u`, or two such escapes for a surrogate pair. A lone
      surrogate is no scalar value. */
  function ReadCodeUnits(s: string): (r: Option<(char, string)>)
    ensures r.Some? ==> |r.value.1| < |s|
  {
    match Hex4(s)
    case None => None
    case Some(n) =>
      if 0 <= n < 0xD800 || 0xE000 <= n < 0x1_0000 then Some((n as char, s[4..]))
      else if 0xD800 <= n < 0xDC00 && |s| >= 10 && s[4] == '\\' && s[5] == 'u' then
        match Hex4(s[6..])
        case None => None
        case Some(m) =>
          if 0xDC00 <= m < 0xE000 then Some(((0x1_0000 + (n - 0xD800) * 0x400 + (m - 0xDC00)) as char, s[10..])) else None
      else None
  }

  /** What follows a backslash, section 7 of RFC 8259. */
  function ReadEscape(s: string): (r: Option<(char, string)>)
    ensures r.Some? ==> |r.value.1| < |s|
  {
    if s == "" then None
    else if s[0] == '\"' then Some(('\U{22}', s[1..]))
    else if s[0] == '\\' then Some(('\U{5C}', s[1..]))
    else if s[0] == '/' then Some(('\U{2F}', s[1..]))
    else if s[0] == 'b' then Some(('\U{8}', s[1..]))
    else if s[0] == 'f' then Some(('\U{C}', s[1..]))
    else if s[0] == 'n' then Some(('\U{A}', s[1..]))
    else if s[0] == 'r' then Some(('\U{D}', s[1..]))
    else if s[0] == 't' then Some(('\U{9}', s[1..]))
    else if s[0] == 'u' then ReadCodeUnits(s[1..])
    else None
  }

  function Prepend(c: char, r: Option<(string, string)>): Option<(string, string)>
  {
    if r.None? then None else Some(([c] + r.value.0, r.value.1))
  }

  /** A string after its opening quote. */
  function ReadString(s: string): (r: Option<(string, string)>)
    ensures r.Some? ==> |r.value.1| < |s|
    decreases |s|
  {
    if s == "" then None
    else if s[0] == '\"' then Some(("", s[1..]))
    else if s[0] == '\\' then
      match ReadEscape(s[1..])
      case None => None
      case Some((c, rest)) => Prepend(c, ReadString(rest))
    else if s[0] < '\U{20}' then None
    else Prepend(s[0], ReadString(s[1..]))
  }

  // ----- numbers

  function DigitRun(s: string): (n: nat)
    ensures n <= |s|
  {
    if s != "" && Digit(s[0]) then 1 + DigitRun(s[1..]) else 0
  }

  function FracLength(s: string): (n: nat)
    ensures n <= |s|
  {
    if s != "" && s[0] == '.' && DigitRun(s[1..]) > 0 then 1 + DigitRun(s[1..]) else 0
  }

  function ExpLength(s: string): (n: nat)
    ensures n <= |s|
  {
    if s == "" || (s[0] != 'e' && s[0] != 'E') then 0
    else if DigitRun(s[1..]) > 0 then 1 + DigitRun(s[1..])
    else if |s| > 1 && (s[1] == '+' || s[1] == '-') && DigitRun(s[2..]) > 0 then 2 + DigitRun(s[2..])
    else 0
  }

  /** The length of the unsigned number at the front, or 0 if there is none. */
  function UnsignedLength(s: string): (n: nat)
    ensures n <= |s|
  {
    if DigitRun(s) == 0 then 0
    else
      var whole := if s[0] == '0' then 1 else DigitRun(s);
      var frac := FracLength(s[whole..]);
      whole + frac + ExpLength(s[whole + frac..])
  }

  function NumberLength(s: string): (n: nat)
    ensures n <= |s|
  {
    if s != "" && s[0] == '-' then if UnsignedLength(s[1..]) == 0 then 0 else 1 + UnsignedLength(s[1..])
    else UnsignedLength(s)
  }

  // ----- values

  /** A value at the front of a text, and what follows it. */
  function ReadValue(text: string): (r: Option<(Json, string)>)
    ensures r.Some? ==> |r.value.1| < |text|
    decreases |text|, 1
  {
    var s := SkipBlanks(text);
    if s == "" then None
    else if s[0] == '\"' then
      match ReadString(s[1..])
      case None => None
      case Some((t, rest)) => Some((Str(t), rest))
    else if s[0] == '[' then
      var inner := SkipBlanks(s[1..]);
      if inner != "" && inner[0] == ']' then Some((Arr([]), inner[1..]))
      else
        match ReadElems(inner)
        case None => None
        case Some((es, rest)) => Some((Arr(es), rest))
    else if s[0] == '{' then
      var inner := SkipBlanks(s[1..]);
      if inner != "" && inner[0] == '}' then Some((Obj([]), inner[1..]))
      else
        match ReadMembers(inner)
        case None => None
        case Some((ms, rest)) => Some((Obj(ms), rest))
    else if "null" <= s then Some((Null, s[4..]))
    else if "true" <= s then Some((Bool(true), s[4..]))
    else if "false" <= s then Some((Bool(false), s[5..]))
    else if NumberLength(s) > 0 then Some((Num(s[..NumberLength(s)]), s[NumberLength(s)..]))
    else None
  }

  /** One or more elements and the closing bracket. */
  function ReadElems(text: string): (r: Option<(seq<Json>, string)>)
    ensures r.Some? ==> |r.value.1| < |text|
    decreases |text|, 2
  {
    match ReadValue(text)
    case None => None
    case Some((v, after)) =>
      var s := SkipBlanks(after);
      if s == "" then None
      else if s[0] == ']' then Some(([v], s[1..]))
      else if s[0] == ',' then
        match ReadElems(s[1..])
        case None => None
        case Some((es, rest)) => Some(([v] + es, rest))
      else None
  }

  /** A name, a colon and a value. */
  function ReadMember(text: string): (r: Option<(Member, string)>)
    ensures r.Some? ==> |r.value.1| < |text|
    decreases |text|, 2
  {
    var s := SkipBlanks(text);
    if s == "" || s[0] != '\"' then None
    else
      match ReadString(s[1..])
      case None => None
      case Some((key, after)) =>
        var colon := SkipBlanks(after);
        if colon == "" || colon[0] != ':' then None
        else
          match ReadValue(colon[1..])
          case None => None
          case Some((v, rest)) => Some((Member(key, v), rest))
  }

  function ReadMembers(text: string): (r: Option<(seq<Member>, string)>)
    ensures r.Some? ==> |r.value.1| < |text|
    decreases |text|, 3
  {
    match ReadMember(text)
    case None => None
    case Some((m, after)) =>
      var s := SkipBlanks(after);
      if s == "" then None
      else if s[0] == '}' then Some(([m], s[1..]))
      else if s[0] == ',' then
        match ReadMembers(s[1..])
        case None => None
        case Some((ms, rest)) => Some(([m] + ms, rest))
      else None
  }

  /** A JSON text: one value between blanks. */
  function Parse(text: string): Option<Json>
  {
    match ReadValue(text)
    case None => None
    case Some((v, rest)) => if SkipBlanks(rest) == "" then Some(v) else None
  }

  // ----- reading what is printed

  lemma NoBlanks(s: string)
    requires s == "" || !Blank(s[0])
    ensures SkipBlanks(s) == s
  {
  }

  lemma CharRead(c: char, y: string)
    requires c >= '\U{20}' && c != '\"' && c != '\\'
    ensures ReadString([c] + y) == Prepend(c, ReadString(y))
  {
    assert ([c] + y)[1..] == y;
  }

  lemma ShortEscapeRead(c: char, e: char, y: string)
    requires e != 'u' && ReadEscape([e] + y) == Some((c, y))
    ensures ReadString(['\\', e] + y) == Prepend(c, ReadString(y))
  {
    hide ReadEscape;
    assert (['\\', e] + y)[1..] == [e] + y;
  }

  lemma EscapeTable(e: char, y: string)
    ensures ([e] + y)[0] == e && ([e] + y)[1..] == y
  {
  }

  lemma EscapeRead(c: char, y: string)
    ensures ReadString(Escape(c) + y) == Prepend(c, ReadString(y))
  {
    hide ReadString;
    if Escape(c)[0] != '\\' {
      CharRead(c, y);
    } else if Escape(c)[1] != 'u' {
      var e := Escape(c)[1];
      EscapeTable(e, y);
      ShortEscapeRead(c, e, y);
      assert Escape(c) == ['\\', e];
    } else {
      ControlRead(c, y);
    }
  }

  lemma ControlRead(c: char, y: string)
    requires c < '\U{20}' && Escape(c) == "\\u00" + [HexDigit(c as int / 16), HexDigit(c as int % 16)]
    ensures ReadString(Escape(c) + y) == Prepend(c, ReadString(y))
  {
    var h, l := c as int / 16, c as int % 16;
    var t := Escape(c) + y;
    var u := t[2..];
    assert t[0] == '\\' && t[1] == 'u' && t[1..][0] == 'u' && t[1..][1..] == u;
    assert u[0] == '0' && u[1] == '0' && u[2] == HexDigit(h) && u[3] == HexDigit(l) && u[4..] == y;
    assert HexValue('0') == Some(0) && HexValue(HexDigit(h)) == Some(h) && HexValue(HexDigit(l)) == Some(l);
    assert Hex4(u) == Some(c as int);
    assert ReadCodeUnits(u) == Some((c, y));
  }

  lemma {:induction false} QuotedRead(s: string, x: string)
    ensures ReadString(Quoted(s) + x) == Some((s, x))
  {
    hide ReadString, Escape;
    if s == "" {
      assert ("\"" + x)[1..] == x;
      EndRead(x);
    } else {
      assert Quoted(s) + x == Escape(s[0]) + (Quoted(s[1..]) + x);
      EscapeRead(s[0], Quoted(s[1..]) + x);
      QuotedRead(s[1..], x);
      assert s == [s[0]] + s[1..];
    }
  }

  lemma EndRead(x: string)
    ensures ReadString("\"" + x) == Some(("", x))
  {
    assert ("\"" + x)[1..] == x;
  }

  predicate NoDigitFirst(y: string)
  {
    y == "" || !Digit(y[0])
  }

  lemma {:induction false} RunThen(a: string, y: string)
    requires (forall i :: 0 <= i < |a| ==> Digit(a[i])) && NoDigitFirst(y)
    ensures DigitRun(a + y) == |a|
  {
    if a == "" {
      assert a + y == y;
    } else {
      assert (a + y)[1..] == a[1..] + y;
      RunThen(a[1..], y);
    }
  }

  lemma TerminatedIsNoDigit(x: string)
    requires Terminated(x)
    ensures NoDigitFirst(x) && ExpLength(x) == 0 && FracLength(x) == 0 && DigitRun(x) == 0
  {
  }

  lemma ExpThen(e: string, x: string)
    requires Exp(e) && Terminated(x)
    ensures ExpLength(e + x) == |e|
  {
    hide DigitRun;
    TerminatedIsNoDigit(x);
    if e == "" {
      assert e + x == x;
    } else if Digits(e[1..]) {
      assert (e + x)[1..] == e[1..] + x;
      RunThen(e[1..], x);
    } else {
      assert (e + x)[1..] == [e[1]] + (e[2..] + x) && (e + x)[2..] == e[2..] + x;
      NoRun([e[1]] + (e[2..] + x));
      RunThen(e[2..], x);
    }
  }

  lemma NoRun(s: string)
    requires NoDigitFirst(s)
    ensures DigitRun(s) == 0
  {
  }

  lemma FracThen(f: string, y: string)
    requires Frac(f) && NoDigitFirst(y) && (y != "" ==> y[0] != '.')
    ensures FracLength(f + y) == |f|
  {
    hide DigitRun;
    if f == "" {
      assert f + y == y;
    } else {
      assert (f + y)[1..] == f[1..] + y;
      RunThen(f[1..], y);
    }
  }

  lemma PartsThen(a: string, f: string, e: string, x: string)
    requires IntPart(a) && Frac(f) && Exp(e) && Terminated(x)
    ensures UnsignedLength(a + (f + (e + x))) == |a| + |f| + |e| > 0
  {
    hide DigitRun, FracLength, ExpLength, Frac, Exp;
    var z, y := e + x, f + (e + x);
    var t := a + y;
    FracFirst(f);
    ExpFirst(e);
    RunThen(a, y);
    FracThen(f, z);
    ExpThen(e, x);
    assert t[0] == a[0] && t[|a|..] == y;
    assert t[|a| + |f|..] == z by { assert y[|f|..] == z; }
  }

  lemma Regroup(n: string, i: nat, j: nat, x: string)
    requires i + j <= |n|
    ensures n + x == n[..i] + (n[i..][..j] + (n[i..][j..] + x))
  {
    assert n == n[..i] + n[i..] && n[i..] == n[i..][..j] + n[i..][j..];
  }

  lemma UnsignedThen(n: string, x: string)
    requires Unsigned(n) && Terminated(x)
    ensures UnsignedLength(n + x) == |n| > 0
  {
    hide UnsignedLength, IntPart, Frac, Exp;
    var i :| 0 < i <= |n| && IntPart(n[..i]) && FracExp(n[i..]);
    var r := n[i..];
    var j :| 0 <= j <= |r| && Frac(r[..j]) && Exp(r[j..]);
    PartsThen(n[..i], r[..j], r[j..], x);
    Regroup(n, i, j, x);
  }

  lemma FracFirst(f: string)
    requires Frac(f)
    ensures f == "" || f[0] == '.'
  {
  }

  lemma ExpFirst(e: string)
    requires Exp(e)
    ensures e == "" || e[0] == 'e' || e[0] == 'E'
  {
  }

  lemma NumberThen(n: string, x: string)
    requires Numeral(n) && Terminated(x)
    ensures NumberLength(n + x) == |n| > 0
  {
    hide UnsignedLength, Unsigned;
    if n != "" && n[0] == '-' {
      UnsignedThen(n[1..], x);
      assert (n + x)[1..] == n[1..] + x;
    } else {
      UnsignedThen(n, x);
      UnsignedChars(n);
      assert (n + x)[0] == n[0];
    }
  }

  /** Reading a printed value gives the value back, and stops where it ends. */
  lemma {:induction false} PrintedIsRead(v: Json, x: string)
    requires Plain(v) && Terminated(x)
    ensures ReadValue(Print(v) + x) == Some((v, x))
    decreases v, 0
  {
    hide ReadString, ReadElems, ReadMembers, NumberLength, Numeral, Quoted, SkipBlanks, ReadValue;
    var t := Print(v) + x;
    FirstChar(v);
    assert t[0] == Print(v)[0];
    NoBlanks(t);
    match v
    case Null => LiteralRead("null", v, x);
    case Bool(b) => LiteralRead(Print(v), v, x);
    case Num(n) => NumberRead(n, x);
    case Str(s) => StringRead(s, x);
    case Arr(es) => ArrayRead(es, x);
    case Obj(ms) => ObjectRead(ms, x);
  }

  lemma LiteralRead(word: string, v: Json, x: string)
    requires (word == "null" && v == Null) || (word == "true" && v == Bool(true)) || (word == "false" && v == Bool(false))
    ensures ReadValue(word + x) == Some((v, x))
  {
    var t := word + x;
    NoBlanks(t);
    assert word <= t && t[|word|..] == x;
    assert t[0] == word[0];
  }

  lemma NumberRead(n: string, x: string)
    requires Numeral(n) && Terminated(x)
    ensures ReadValue(n + x) == Some((Num(n), x))
  {
    hide NumberLength, Numeral;
    var t := n + x;
    NumeralChars(n);
    assert t[0] == n[0];
    NoBlanks(t);
    NumberThen(n, x);
    assert t[..|n|] == n && t[|n|..] == x;
  }

  lemma StringRead(s: string, x: string)
    ensures ReadValue("\"" + Quoted(s) + x) == Some((Str(s), x))
  {
    hide ReadString, Quoted;
    var t := "\"" + Quoted(s) + x;
    NoBlanks(t);
    assert t[1..] == Quoted(s) + x;
    QuotedRead(s, x);
  }

  lemma {:induction false} ArrayRead(es: seq<Json>, x: string)
    requires PlainElems(es)
    ensures ReadValue(Print(Arr(es)) + x) == Some((Arr(es), x))
    decreases es, 2
  {
    hide ReadElems, ReadString, NumberLength;
    var t := Print(Arr(es)) + x;
    NoBlanks(t);
    if es == [] {
      assert t[1..] == "]" + x && t[2..] == x;
      NoBlanks(t[1..]);
    } else {
      FirstChar(es[0]);
      var rest := Print(es[0]) + (PrintMoreElems(es[1..]) + x);
      assert t[1..] == rest;
      assert rest[0] == Print(es[0])[0];
      NoBlanks(rest);
      ElemsRead(es, x);
    }
  }

  lemma {:induction false} ElemsRead(es: seq<Json>, x: string)
    requires PlainElems(es) && es != []
    ensures ReadElems(Print(es[0]) + (PrintMoreElems(es[1..]) + x)) == Some((es, x))
    decreases es, 1
  {
    hide ReadValue, Print;
    var more := PrintMoreElems(es[1..]) + x;
    assert more[0] == PrintMoreElems(es[1..])[0];
    PrintedIsRead(es[0], more);
    NoBlanks(more);
    if |es| == 1 {
      assert more[1..] == x && es == [es[0]];
    } else {
      var next := es[1..];
      assert more[1..] == Print(next[0]) + (PrintMoreElems(next[1..]) + x);
      ElemsRead(next, x);
      assert es == [es[0]] + next;
    }
  }

  lemma {:induction false} ObjectRead(ms: seq<Member>, x: string)
    requires PlainMembers(ms)
    ensures ReadValue(Print(Obj(ms)) + x) == Some((Obj(ms), x))
    decreases ms, 3
  {
    hide ReadMembers, ReadString, NumberLength;
    var t := Print(Obj(ms)) + x;
    NoBlanks(t);
    if ms == [] {
      assert t[1..] == "}" + x && t[2..] == x;
      NoBlanks(t[1..]);
    } else {
      var rest := PrintMember(ms[0]) + (PrintMoreMembers(ms[1..]) + x);
      assert t[1..] == rest;
      assert rest[0] == '\"';
      NoBlanks(rest);
      MembersRead(ms, x);
    }
  }

  lemma {:induction false} MembersRead(ms: seq<Member>, x: string)
    requires PlainMembers(ms) && ms != []
    ensures ReadMembers(PrintMember(ms[0]) + (PrintMoreMembers(ms[1..]) + x)) == Some((ms, x))
    decreases ms, 2
  {
    hide ReadMember, PrintMember;
    var more := PrintMoreMembers(ms[1..]) + x;
    assert more[0] == PrintMoreMembers(ms[1..])[0];
    MemberRead(ms[0], more);
    NoBlanks(more);
    if |ms| == 1 {
      assert more[1..] == x && ms == [ms[0]];
    } else {
      var next := ms[1..];
      assert more[1..] == PrintMember(next[0]) + (PrintMoreMembers(next[1..]) + x);
      MembersRead(next, x);
      assert ms == [ms[0]] + next;
    }
  }

  lemma {:induction false} MemberRead(m: Member, x: string)
    requires Plain(m.value) && Terminated(x)
    ensures ReadMember(PrintMember(m) + x) == Some((m, x))
    decreases m, 1
  {
    hide ReadString, ReadValue, Quoted, Print;
    var t := PrintMember(m) + x;
    var after := ":" + (Print(m.value) + x);
    NoBlanks(t);
    assert t[1..] == Quoted(m.key) + after;
    QuotedRead(m.key, after);
    NoBlanks(after);
    assert after[1..] == Print(m.value) + x;
    PrintedIsRead(m.value, x);
  }

  /** `JSON.parse(JSON.stringify(v))` is `v`. */
  lemma ParsePrint(v: Json)
    requires Plain(v)
    ensures Parse(Print(v)) == Some(v)
  {
    hide ReadValue;
    PrintedIsRead(v, "");
    assert Print(v) + "" == Print(v);
  }

  /** Printing is uniquely decodable in front of whatever may follow a value. */
  lemma PrintUnique(a: Json, b: Json, x: string, y: string)
    requires Plain(a) && Plain(b) && Terminated(x) && Terminated(y)
    requires Print(a) + x == Print(b) + y
    ensures a == b && x == y
  {
    hide ReadValue, Print;
    PrintedIsRead(a, x);
    PrintedIsRead(b, y);
  }

  /** The text determines the value. */
  lemma PrintInjective(a: Json, b: Json)
    requires Plain(a) && Plain(b) && Print(a) == Print(b)
    ensures a == b
  {
    hide Parse;
    ParsePrint(a);
    ParsePrint(b);
  }
}
