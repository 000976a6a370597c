/** The Python text primitives the mesh scripts rest on: file lines, str.split, int() and %d. */
module PyText {
  import opened Util

  /** str.isspace */
  predicate IsSpace(c: char) {
    var n := c as int;
    || 9 <= n <= 13 || 28 <= n <= 32 || n == 0x85 || n == 0xa0 || n == 0x1680 || 0x2000 <= n <= 0x200a
    || n == 0x2028 || n == 0x2029 || n == 0x202f || n == 0x205f || n == 0x3000
  }

  predicate IsNewline(c: char) {
    c == '\n' || c == '\r'
  }

  ghost predicate IsToken(s: string) {
    s != "" && forall i | 0 <= i < |s| :: !IsSpace(s[i])
  }

  ghost predicate IsLine(s: string) {
    forall i | 0 <= i < |s| :: !IsNewline(s[i])
  }

  // ---------- iterating over a text file ----------

  function LineLength(s: string): (k: nat)
    ensures k <= |s|
    ensures k < |s| ==> IsNewline(s[k])
  {
    if s == "" || IsNewline(s[0]) then 0 else 1 + LineLength(s[1..])
  }

  /** The lines of a file opened with universal newlines, without their terminators. */
  function Lines(s: string): seq<string>
    decreases |s|
  {
    if s == "" then []
    else
      var k := LineLength(s);
      if k == |s| then [s]
      else
        var skip := if s[k] == '\r' && k + 1 < |s| && s[k + 1] == '\n' then 2 else 1;
        [s[..k]] + Lines(s[k + skip..])
  }

  lemma {:induction false} LineLengthAt(line: string, rest: string)
    requires IsLine(line) && rest != "" && IsNewline(rest[0])
    ensures LineLength(line + rest) == |line|
  {
    if line == "" {
      assert line + rest == rest;
    } else {
      assert (line + rest)[1..] == line[1..] + rest;
      LineLengthAt(line[1..], rest);
    }
  }

  lemma LinesCons(line: string, rest: string)
    requires IsLine(line)
    ensures Lines(line + "\n" + rest) == [line] + Lines(rest)
  {
    var s := line + "\n" + rest;
    assert s == line + ("\n" + rest);
    LineLengthAt(line, "\n" + rest);
    assert s[..|line|] == line && s[|line| + 1..] == rest;
  }

  /** The other ways a line may end: a carriage return, with or without a line feed, or the end of the file. */
  lemma LinesEnd(line: string, rest: string)
    requires IsLine(line)
    ensures Lines(line + "\r\n" + rest) == [line] + Lines(rest)
    ensures rest == "" || rest[0] != '\n' ==> Lines(line + "\r" + rest) == [line] + Lines(rest)
    ensures line != "" ==> Lines(line) == [line]
  {
    var s, t, n := line + "\r\n" + rest, line + "\r" + rest, |line|;
    assert "\r\n"[0] == '\r' && "\r\n"[1] == '\n';
    assert s == line + ("\r\n" + rest) && t == line + ("\r" + rest);
    LineLengthAt(line, "\r\n" + rest);
    LineLengthAt(line, "\r" + rest);
    assert s[n] == '\r' && s[n + 1] == '\n' && s[..n] == line && s[n + 2..] == rest;
    assert t[n] == '\r' && t[..n] == line && t[n + 1..] == rest;
    assert rest != "" ==> t[n + 1] == rest[0];
    LineLengthEnd(line);
  }

  lemma {:induction false} LineLengthEnd(line: string)
    requires IsLine(line)
    ensures LineLength(line) == |line|
  {
    if line != "" {
      LineLengthEnd(line[1..]);
    }
  }

  /** A text made of whole lines. */
  function JoinLines(lines: seq<string>): string {
    if |lines| == 0 then "" else lines[0] + "\n" + JoinLines(lines[1..])
  }

  lemma {:induction false} LinesOfJoin(lines: seq<string>)
    requires forall i | 0 <= i < |lines| :: IsLine(lines[i])
    ensures Lines(JoinLines(lines)) == lines
  {
    if |lines| > 0 {
      LinesCons(lines[0], JoinLines(lines[1..]));
      LinesOfJoin(lines[1..]);
      assert lines == [lines[0]] + lines[1..];
    }
  }

  lemma {:induction false} JoinAppend(lines: seq<string>, line: string)
    ensures JoinLines(lines + [line]) == JoinLines(lines) + (line + "\n")
  {
    if |lines| == 0 {
      assert lines + [line] == [line];
      assert [line][1..] == [];
      assert line + "\n" + "" == "" + (line + "\n");
    } else {
      assert (lines + [line])[1..] == lines[1..] + [line];
      JoinAppend(lines[1..], line);
      Assoc(lines[0] + "\n", JoinLines(lines[1..]), line + "\n");
    }
  }

  // ---------- str.split() ----------

  function SkipSpaces(s: string): (t: string)
    ensures |t| <= |s|
    ensures t != "" ==> !IsSpace(t[0])
  {
    if s == "" || !IsSpace(s[0]) then s else SkipSpaces(s[1..])
  }

  function TokenLength(s: string): (k: nat)
    ensures k <= |s|
    ensures s != "" && !IsSpace(s[0]) ==> k > 0
  {
    if s == "" || IsSpace(s[0]) then 0 else 1 + TokenLength(s[1..])
  }

  function Split(s: string): seq<string>
    decreases |s|
  {
    var t := SkipSpaces(s);
    if t == "" then []
    else
      var k := TokenLength(t);
      [t[..k]] + Split(t[k..])
  }

  lemma {:induction false} TokenLengthAt(token: string, rest: string)
    requires (forall i | 0 <= i < |token| :: !IsSpace(token[i])) && (rest == "" || IsSpace(rest[0]))
    ensures TokenLength(token + rest) == |token|
  {
    if token == "" {
      assert token + rest == rest;
    } else {
      assert (token + rest)[1..] == token[1..] + rest;
      TokenLengthAt(token[1..], rest);
    }
  }

  lemma SplitCons(token: string, rest: string)
    requires IsToken(token) && (rest == "" || IsSpace(rest[0]))
    ensures Split(token + rest) == [token] + Split(rest)
  {
    var s := token + rest;
    assert !IsSpace(s[0]) && SkipSpaces(s) == s;
    TokenLengthAt(token, rest);
    assert s[..|token|] == token && s[|token|..] == rest;
  }

  lemma SplitSkips(c: char, s: string)
    requires IsSpace(c)
    ensures Split([c] + s) == Split(s)
  {
    assert ([c] + s)[1..] == s;
    assert SkipSpaces([c] + s) == SkipSpaces(s);
  }

  /** Splitting happens at each white space, and nowhere else. */
  lemma {:induction false} SplitAtSpace(a: string, c: char, b: string)
    requires IsSpace(c)
    ensures Split(a + [c] + b) == Split(a) + Split(b)
    decreases |a|
  {
    if a == "" {
      assert a + [c] + b == [c] + b;
      SplitSkips(c, b);
      assert Split("") == [];
    } else if IsSpace(a[0]) {
      var rest := a[1..];
      assert a == [a[0]] + rest && a + [c] + b == [a[0]] + (rest + [c] + b);
      SplitSkips(a[0], rest);
      SplitSkips(a[0], rest + [c] + b);
      SplitAtSpace(rest, c, b);
    } else {
      SplitAtToken(a, c, b);
      SplitAtSpace(a[TokenLength(a)..], c, b);
    }
  }

  /** A token at the front stands before what the rest splits into. */
  lemma SplitAtToken(a: string, c: char, b: string)
    requires a != "" && !IsSpace(a[0]) && IsSpace(c)
    ensures var token, rest := a[..TokenLength(a)], a[TokenLength(a)..];
            && Split(a) == [token] + Split(rest)
            && Split(a + [c] + b) == [token] + Split(rest + [c] + b)
  {
    var token, rest := a[..TokenLength(a)], a[TokenLength(a)..];
    TokenIs(a);
    assert a == token + rest && a + [c] + b == token + (rest + [c] + b);
    SplitCons(token, rest);
    SplitCons(token, rest + [c] + b);
  }

  lemma {:induction false} TokenIs(s: string)
    requires s != "" && !IsSpace(s[0])
    ensures IsToken(s[..TokenLength(s)]) && (TokenLength(s) < |s| ==> IsSpace(s[TokenLength(s)]))
  {
    if |s| > 1 && !IsSpace(s[1]) {
      TokenIs(s[1..]);
      var k := TokenLength(s[1..]);
      assert s[..k + 1] == [s[0]] + s[1..][..k];
    }
  }

  /** Among the ASCII characters white space is the space, and those from tab to return and from 28 to 31. */
  lemma AsciiSpaces(c: char)
    requires c as int < 128
    ensures IsSpace(c) <==> c == ' ' || c in ['\t', '\n', 11 as char, 12 as char, '\r']
                            || c in [28 as char, 29 as char, 30 as char, 31 as char]
  {
    assert [28 as char, 29 as char, 30 as char, 31 as char][0] == 28 as char;
    var n := c as int;
    assert n == 32 ==> c == ' ';
    assert n == 9 ==> c == '\t';
    assert n == 10 ==> c == '\n';
    assert n == 11 ==> c == 11 as char;
    assert n == 12 ==> c == 12 as char;
    assert n == 13 ==> c == '\r';
    assert n == 28 ==> c == 28 as char;
    assert n == 29 ==> c == 29 as char;
    assert n == 30 ==> c == 30 as char;
    assert n == 31 ==> c == 31 as char;
  }

  /** Tokens separated by single spaces. */
  function Spaced(tokens: seq<string>): string {
    if |tokens| == 0 then ""
    else if |tokens| == 1 then tokens[0]
    else tokens[0] + " " + Spaced(tokens[1..])
  }

  lemma {:induction false} SplitSpaced(tokens: seq<string>)
    requires forall i | 0 <= i < |tokens| :: IsToken(tokens[i])
    ensures Split(Spaced(tokens)) == tokens
  {
    if |tokens| == 0 {
    } else if |tokens| == 1 {
      SplitCons(tokens[0], "");
      assert tokens[0] + "" == tokens[0];
    } else {
      var rest := Spaced(tokens[1..]);
      SplitSpaced(tokens[1..]);
      SplitCons(tokens[0], " " + rest);
      assert tokens[0] + " " + rest == tokens[0] + (" " + rest);
      assert (" " + rest)[1..] == rest;
      assert SkipSpaces(" " + rest) == SkipSpaces(rest);
    }
  }

  lemma {:induction false} SpacedIsLine(tokens: seq<string>)
    requires forall i | 0 <= i < |tokens| :: IsToken(tokens[i])
    ensures IsLine(Spaced(tokens))
  {
    if |tokens| > 1 {
      SpacedIsLine(tokens[1..]);
    }
  }

  // ---------- str.split('/') ----------

  function FieldLength(s: string): (k: nat)
    ensures k <= |s|
    ensures k < |s| ==> s[k] == '/'
    ensures '/' !in s[..k]
  {
    if s == "" || s[0] == '/' then 0
    else
      assert s[1..][..FieldLength(s[1..])] == s[1..1 + FieldLength(s[1..])];
      1 + FieldLength(s[1..])
  }

  function SplitSlash(s: string): (fields: seq<string>)
    ensures |fields| > 0
    decreases |s|
  {
    var k := FieldLength(s);
    if k == |s| then [s] else [s[..k]] + SplitSlash(s[k + 1..])
  }

  lemma {:induction false} FieldLengthAt(field: string, rest: string)
    requires '/' !in field && (rest == "" || rest[0] == '/')
    ensures FieldLength(field + rest) == |field|
  {
    if field == "" {
      assert field + rest == rest;
    } else {
      assert (field + rest)[1..] == field[1..] + rest;
      FieldLengthAt(field[1..], rest);
    }
  }

  lemma SplitSlashCons(field: string, rest: string)
    requires '/' !in field
    ensures SplitSlash(field + "/" + rest) == [field] + SplitSlash(rest)
  {
    var s := field + "/" + rest;
    FieldLengthAt(field, "/" + rest);
    assert s == field + ("/" + rest);
    assert s[..|field|] == field && s[|field| + 1..] == rest;
  }

  lemma SplitSlashOne(field: string)
    requires '/' !in field
    ensures SplitSlash(field) == [field]
  {
    FieldLengthAt(field, "");
    assert field + "" == field;
  }

  lemma SplitSlashTriple(a: string, b: string, c: string)
    requires '/' !in a && '/' !in b && '/' !in c
    ensures SplitSlash(a + "/" + b + "/" + c) == [a, b, c]
  {
    calc {
      SplitSlash(a + "/" + b + "/" + c);
    ==  { Assoc(a + "/", b + "/", c); Assoc(a + "/", b, "/"); }
      SplitSlash(a + "/" + (b + "/" + c));
    ==  { SplitSlashCons(a, b + "/" + c); }
      [a] + SplitSlash(b + "/" + c);
    ==  { SplitSlashCons(b, c); }
      [a] + ([b] + SplitSlash(c));
    ==  { SplitSlashOne(c); }
      [a] + ([b] + [c]);
    ==
      [a, b, c];
    }
  }

  // ---------- %d and int() ----------

  predicate IsDigit(c: char) {
    '0' <= c <= '9'
  }

  function DigitValue(c: char): nat
    requires IsDigit(c)
  {
    c as int - '0' as int
  }

  function DigitChar(d: nat): (c: char)
    requires d < 10
    ensures IsDigit(c) && DigitValue(c) == d
  {
    ('0' as int + d) as char
  }

  function Natural(n: nat): (s: string)
    ensures s != "" && forall i | 0 <= i < |s| :: IsDigit(s[i])
  {
    if n < 10 then [DigitChar(n)] else Natural(n / 10) + [DigitChar(n % 10)]
  }

  function Decimal(n: int): string {
    if n < 0 then "-" + Natural(-n) else Natural(n)
  }

  /** Digits, where single underscores may stand between two digits. */
  function ParseDigits(s: string): Option<nat>
    decreases |s|
  {
    if s == "" || !IsDigit(Last(s)) then None
    else if |s| == 1 then Some(DigitValue(s[0]))
    else
      var head := s[..|s| - 1];
      var more := if Last(head) == '_' then head[..|head| - 1] else head;
      match ParseDigits(more)
      case None => None
      case Some(v) => Some(10 * v + DigitValue(Last(s)))
  }

  function ParseInt(s: string): Option<int> {
    var signed := s != "" && (s[0] == '-' || s[0] == '+');
    match ParseDigits(if signed then s[1..] else s)
    case None => None
    case Some(v) =>
      var n: int := v;
      Some(if signed && s[0] == '-' then -n else n)
  }

  /** A digit more, with or without an underscore before it; a sign in front; nothing where no digit ends it. */
  lemma ParseIs(s: string, v: nat, c: char)
    requires ParseDigits(s) == Some(v) && IsDigit(c)
    ensures ParseDigits(s + [c]) == Some(10 * v + DigitValue(c))
    ensures ParseDigits(s + "_" + [c]) == Some(10 * v + DigitValue(c))
    ensures ParseDigits([c]) == Some(DigitValue(c)) && ParseDigits("") == None && ParseDigits(s + "_") == None
    ensures ParseInt("+" + s) == Some(v)
  {
    assert (s + [c])[..|s|] == s && Last(s + [c]) == c && Last(s) != '_';
    var t := s + "_" + [c];
    assert t[..|t| - 1] == s + "_" && Last(t) == c && Last(s + "_") == '_' && (s + "_")[..|s|] == s;
    assert ("+" + s)[0] == '+' && ("+" + s)[1..] == s;
  }

  lemma {:induction false} ParseNatural(n: nat)
    ensures ParseDigits(Natural(n)) == Some(n)
  {
    var s := Natural(n);
    if n >= 10 {
      ParseNatural(n / 10);
      assert s[..|s| - 1] == Natural(n / 10);
      assert IsDigit(Last(Natural(n / 10)));
    }
  }

  lemma ParseSigned(digits: string, n: int)
    requires n < 0 && ParseDigits(digits) == Some(-n)
    ensures ParseInt("-" + digits) == Some(n)
  {
    assert ("-" + digits)[1..] == digits;
  }

  lemma ParseUnsigned(digits: string, n: nat)
    requires digits != "" && IsDigit(digits[0]) && ParseDigits(digits) == Some(n)
    ensures ParseInt(digits) == Some(n)
  {
  }

  lemma ParseDecimal(n: int)
    ensures ParseInt(Decimal(n)) == Some(n)
  {
    if n < 0 {
      ParseNatural(-n);
      ParseSigned(Natural(-n), n);
    } else {
      ParseNatural(n);
      ParseUnsigned(Natural(n), n);
    }
  }

  lemma DecimalIsToken(n: int)
    ensures IsToken(Decimal(n)) && '/' !in Decimal(n)
  {
    var s := Natural(if n < 0 then -n else n);
    assert forall i | 0 <= i < |s| :: IsDigit(s[i]);
  }
}
