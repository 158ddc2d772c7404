/**
 * `CommandListReader.read` from Python/CommandLineExecutor.py, over the lines
 * of the file instead of the file: each line is stripped of surrounding
 * whitespace, blank lines are skipped, and every other line must split on
 * ';' into a command line, a timeout and a retry count.
 */
module CommandListReader {
  import opened Results
  import opened CommandLineExecutor

  /** Python's `str.isspace`, code point by code point. */
  predicate IsSpace(c: char) {
    || '\t' <= c <= '\r'
    || '\U{1C}' <= c <= ' '
    || c == '\U{85}' || c == '\U{A0}' || c == '\U{1680}'
    || '\U{2000}' <= c <= '\U{200A}'
    || c == '\U{2028}' || c == '\U{2029}' || c == '\U{202F}' || c == '\U{205F}' || c == '\U{3000}'
  }

  /**
   * The whitespace `int()` skips around its digits. It is Python's whitespace
   * except U+001C..U+001F: `int()` maps non-ASCII whitespace to a space but
   * passes ASCII through and then skips only the C locale's whitespace.
   */
  predicate IsIntSpace(c: char) {
    IsSpace(c) && !('\U{1C}' <= c <= '\U{1F}')
  }

  /** Whether `c` is skipped: by `int()` when `forInt`, else by `str.strip()`. */
  predicate Skipped(c: char, forInt: bool) {
    if forInt then IsIntSpace(c) else IsSpace(c)
  }

  /** `s` without its leading whitespace. */
  function StripLeft(s: string, forInt: bool): string {
    if s != [] && Skipped(s[0], forInt) then StripLeft(s[1..], forInt) else s
  }

  /** `s` without its trailing whitespace. */
  function StripRight(s: string, forInt: bool): string {
    if s != [] && Skipped(s[|s| - 1], forInt) then StripRight(s[..|s| - 1], forInt) else s
  }

  /** Python's `str.strip()`. */
  function Strip(s: string): string {
    StripRight(StripLeft(s, false), false)
  }

  /** What `int()` skips on both sides of a number. */
  function IntStrip(s: string): string {
    StripRight(StripLeft(s, true), true)
  }

  /** `StripLeft` drops a prefix made only of whitespace and keeps the first character that is not. */
  lemma {:induction false} StripLeftSpec(s: string, forInt: bool)
    ensures |StripLeft(s, forInt)| <= |s| && StripLeft(s, forInt) == s[|s| - |StripLeft(s, forInt)|..]
    ensures forall k :: 0 <= k < |s| - |StripLeft(s, forInt)| ==> Skipped(s[k], forInt)
    ensures StripLeft(s, forInt) == [] || !Skipped(StripLeft(s, forInt)[0], forInt)
    decreases |s|
  {
    if s != [] && Skipped(s[0], forInt) {
      StripLeftSpec(s[1..], forInt);
    }
  }

  /** `StripRight` drops a suffix made only of whitespace and keeps the last character that is not. */
  lemma {:induction false} StripRightSpec(s: string, forInt: bool)
    ensures |StripRight(s, forInt)| <= |s| && StripRight(s, forInt) == s[..|StripRight(s, forInt)|]
    ensures forall k :: |StripRight(s, forInt)| <= k < |s| ==> Skipped(s[k], forInt)
    ensures StripRight(s, forInt) == [] || !Skipped(StripRight(s, forInt)[|StripRight(s, forInt)| - 1], forInt)
    decreases |s|
  {
    if s != [] && Skipped(s[|s| - 1], forInt) {
      StripRightSpec(s[..|s| - 1], forInt);
    }
  }

  /**
   * `Strip` keeps a slice `s[i..j]` of the input that is empty or starts and
   * ends with non-whitespace, and everything outside the slice is whitespace.
   */
  lemma StripSpec(s: string) returns (i: nat, j: nat)
    ensures i <= j <= |s| && Strip(s) == s[i..j]
    ensures forall k :: 0 <= k < i || j <= k < |s| ==> IsSpace(s[k])
    ensures Strip(s) == [] || (!IsSpace(Strip(s)[0]) && !IsSpace(Strip(s)[|Strip(s)| - 1]))
  {
    var left := StripLeft(s, false);
    StripLeftSpec(s, false);
    StripRightSpec(left, false);
    i := |s| - |left|;
    j := i + |StripRight(left, false)|;
    forall k | j <= k < |s| ensures IsSpace(s[k]) {
      assert s[k] == left[k - i];
    }
  }

  /** A string whose ends are not whitespace is its own strip. */
  lemma StripUnchanged(s: string, forInt: bool)
    requires s == [] || (!Skipped(s[0], forInt) && !Skipped(s[|s| - 1], forInt))
    ensures StripRight(StripLeft(s, forInt), forInt) == s
  {
    StripLeftSpec(s, forInt);
    StripRightSpec(s, forInt);
  }

  /** The fields of `s` between occurrences of `sep`, as Python's `str.split(sep)`. */
  function Split(s: string, sep: char): (fields: seq<string>)
    ensures |fields| >= 1
    ensures forall i :: 0 <= i < |fields| ==> sep !in fields[i]
    ensures Join(fields, sep) == s
  {
    if s == [] then [[]]
    else
      var rest := Split(s[1..], sep);
      if s[0] == sep then [[]] + rest
      else
        JoinCons(s[0], rest, sep);
        [[s[0]] + rest[0]] + rest[1..]
  }

  /** The fields put back together with `sep` between them. */
  function Join(fields: seq<string>, sep: char): string
    requires |fields| >= 1
  {
    if |fields| == 1 then fields[0] else fields[0] + [sep] + Join(fields[1..], sep)
  }

  lemma JoinCons(c: char, fields: seq<string>, sep: char)
    requires |fields| >= 1
    ensures Join([[c] + fields[0]] + fields[1..], sep) == [c] + Join(fields, sep)
  {
    var moved := [[c] + fields[0]] + fields[1..];
    assert moved[1..] == fields[1..];
  }

  /** A field free of `sep` followed by `sep` splits off as one field. */
  lemma {:induction false} SplitAfterField(a: string, sep: char, rest: string)
    requires sep !in a
    ensures Split(a + [sep] + rest, sep) == [a] + Split(rest, sep)
    decreases |a|
  {
    if a == [] {
      assert ([] + [sep] + rest)[1..] == rest;
    } else {
      assert (a + [sep] + rest)[1..] == a[1..] + [sep] + rest;
      SplitAfterField(a[1..], sep, rest);
      assert [a[0]] + a[1..] == a;
    }
  }

  /** Splitting undoes joining when no field contains the separator. */
  lemma {:induction false} SplitJoin(fields: seq<string>, sep: char)
    requires |fields| >= 1
    requires forall i :: 0 <= i < |fields| ==> sep !in fields[i]
    ensures Split(Join(fields, sep), sep) == fields
    decreases |fields|
  {
    if |fields| == 1 {
      SplitField(fields[0], sep);
    } else {
      SplitAfterField(fields[0], sep, Join(fields[1..], sep));
      SplitJoin(fields[1..], sep);
    }
  }

  lemma {:induction false} SplitField(a: string, sep: char)
    requires sep !in a
    ensures Split(a, sep) == [a]
    decreases |a|
  {
    if a != [] {
      SplitField(a[1..], sep);
      assert [a[0]] + a[1..] == a;
    }
  }

  predicate IsDigit(c: char) {
    '0' <= c <= '9'
  }

  /**
   * The digits of a Python integer literal in base 10: ASCII digits, with
   * single underscores allowed between two digits.
   */
  predicate IsDigitString(s: string) {
    && |s| >= 1
    && IsDigit(s[0]) && IsDigit(s[|s| - 1])
    && (forall i :: 0 <= i < |s| ==> IsDigit(s[i]) || s[i] == '_')
    && (forall i :: 0 <= i < |s| - 1 && s[i] == '_' ==> s[i + 1] != '_')
  }

  /** The number the digits of `s` denote, underscores skipped. */
  function DigitsValue(s: string): nat
    requires forall i :: 0 <= i < |s| ==> IsDigit(s[i]) || s[i] == '_'
  {
    if s == [] then 0
    else if s[|s| - 1] == '_' then DigitsValue(s[..|s| - 1])
    else
      assert IsDigit(s[|s| - 1]);
      DigitsValue(s[..|s| - 1]) * 10 + (s[|s| - 1] as int - '0' as int)
  }

  /**
   * Python's `int()` on a string, restricted to ASCII digits: the whitespace
   * `int()` skips on both sides, then an optional sign, then a digit string.
   */
  function ParseInt(s: string): (r: Option<int>)
    ensures r.Some? ==> IntStrip(s) != []
  {
    var t := IntStrip(s);
    if t != [] && (t[0] == '+' || t[0] == '-') then
      if IsDigitString(t[1..]) then
        var magnitude: int := DigitsValue(t[1..]);
        Some(if t[0] == '-' then -magnitude else magnitude)
      else None
    else if IsDigitString(t) then Some(DigitsValue(t))
    else None
  }

  /** Decimal digits of `n`, without sign or underscores. */
  function NatToString(n: nat): (s: string)
    ensures |s| >= 1
    ensures forall i :: 0 <= i < |s| ==> IsDigit(s[i])
  {
    if n < 10 then [('0' as int + n) as char]
    else NatToString(n / 10) + [('0' as int + n % 10) as char]
  }

  /** Decimal form of `n`, with '-' in front of a negative number. */
  function IntToString(n: int): string {
    if n < 0 then "-" + NatToString(-n) else NatToString(n)
  }

  lemma {:induction false} DigitsValueOfNat(n: nat)
    ensures IsDigitString(NatToString(n))
    ensures DigitsValue(NatToString(n)) == n
    decreases n
  {
    var s := NatToString(n);
    if n >= 10 {
      DigitsValueOfNat(n / 10);
      assert s[..|s| - 1] == NatToString(n / 10);
    }
  }

  /** `int()` reads back what `IntToString` writes. */
  lemma ParseIntRoundTrip(n: int)
    ensures ParseInt(IntToString(n)) == Some(n)
  {
    var s := IntToString(n);
    if n < 0 {
      var digits := NatToString(-n);
      DigitsValueOfNat(-n);
      assert s == "-" + digits && s[1..] == digits;
      assert s[|s| - 1] == digits[|digits| - 1];
      StripUnchanged(s, true);
    } else {
      DigitsValueOfNat(n);
      StripUnchanged(s, true);
      assert IsDigit(s[0]);
    }
  }

  /** `str.strip()` removes U+001C around a number, but `int()` rejects it. */
  lemma IntRejectsSeparator()
    ensures Strip("\U{1C}5") == "5" && ParseInt("5") == Some(5)
    ensures ParseInt("\U{1C}5") == None
  {
    assert "\U{1C}5"[1..] == "5";
    assert IsDigitString("5");
    StripUnchanged("5", false);
    StripUnchanged("5", true);
    assert IntStrip("\U{1C}5") == "\U{1C}5";
  }

  /**
   * One stripped, non-blank line: split on ';' into exactly three fields,
   * then `int()` of the timeout, then of the retry count, then the
   * parameter's own checks.
   */
  function ParseFields(readLine: string): (r: Result<CommandParameter>)
    ensures r.Ok? ==> r.value.commandLine != "" && r.value.timeout >= 1 && r.value.retry >= 1
    ensures |Split(readLine, ';')| != 3 ==> r == Err(WrongFieldCount)
  {
    var fields := Split(readLine, ';');
    if |fields| != 3 then Err(WrongFieldCount)
    else
      match ParseInt(fields[1])
      case None => Err(NotAnInteger)
      case Some(timeout) =>
        match ParseInt(fields[2])
        case None => Err(NotAnInteger)
        case Some(retry) => NewCommandParameter(fields[0], timeout, retry)
  }

  /** The line a parameter is written as. */
  function Format(p: CommandParameter): string {
    p.commandLine + ";" + IntToString(p.timeout) + ";" + IntToString(p.retry)
  }

  /** Reading a formatted valid parameter gives it back, when its command line has no ';'. */
  lemma ParseFieldsRoundTrip(p: CommandParameter)
    requires p.commandLine != "" && p.timeout >= 1 && p.retry >= 1
    requires ';' !in p.commandLine
    ensures ParseFields(Format(p)) == Ok(p)
  {
    var t, r := IntToString(p.timeout), IntToString(p.retry);
    DigitsValueOfNat(p.timeout);
    DigitsValueOfNat(p.retry);
    assert [p.commandLine, t, r][1..] == [t, r] && [t, r][1..] == [r];
    assert Join([t, r], ';') == t + ";" + r;
    assert Join([p.commandLine, t, r], ';') == Format(p);
    SplitJoin([p.commandLine, t, r], ';');
    ParseIntRoundTrip(p.timeout);
    ParseIntRoundTrip(p.retry);
  }

  /** Prefixes the parameters read so far to the result of reading the rest. */
  function Prepend(done: seq<CommandParameter>, r: Result<seq<CommandParameter>>): Result<seq<CommandParameter>> {
    match r
    case Ok(rest) => Ok(done + rest)
    case Err(e) => Err(e)
  }

  /** The file read line by line: the first bad non-blank line's error, else one parameter per non-blank line. */
  function ParseLines(lines: seq<string>): (r: Result<seq<CommandParameter>>)
    ensures r.Ok? ==> |r.value| <= |lines|
  {
    if lines == [] then Ok([])
    else
      var readLine := Strip(lines[0]);
      if readLine == [] then ParseLines(lines[1..])
      else
        match ParseFields(readLine)
        case Err(e) => Err(e)
        case Ok(p) => Prepend([p], ParseLines(lines[1..]))
  }

  /** The lines that are not blank, stripped, in order. */
  function NonBlank(lines: seq<string>): (r: seq<string>)
    ensures |r| <= |lines|
    ensures forall j :: 0 <= j < |r| ==> r[j] != []
  {
    if lines == [] then []
    else if Strip(lines[0]) == [] then NonBlank(lines[1..])
    else [Strip(lines[0])] + NonBlank(lines[1..])
  }

  /** Every line of `nb` parses. */
  predicate AllParse(nb: seq<string>) {
    forall j :: 0 <= j < |nb| ==> ParseFields(nb[j]).Ok?
  }

  /** `ps` holds, position by position, what the lines of `nb` parse to. */
  predicate ParsedAs(ps: seq<CommandParameter>, nb: seq<string>) {
    |ps| == |nb| && forall j :: 0 <= j < |nb| ==> Ok(ps[j]) == ParseFields(nb[j])
  }

  lemma AllParseCons(line: string, rest: seq<string>)
    ensures AllParse([line] + rest) <==> ParseFields(line).Ok? && AllParse(rest)
  {
    var nb := [line] + rest;
    if AllParse(nb) {
      assert nb[0] == line;
      forall j | 0 <= j < |rest|
        ensures ParseFields(rest[j]).Ok?
      {
        assert nb[j + 1] == rest[j];
      }
    }
    if ParseFields(line).Ok? && AllParse(rest) {
      forall j | 0 <= j < |nb|
        ensures ParseFields(nb[j]).Ok?
      {
        if j > 0 {
          assert nb[j] == rest[j - 1];
        }
      }
    }
  }

  lemma ParsedAsCons(p: CommandParameter, ps: seq<CommandParameter>, line: string, rest: seq<string>)
    requires ParseFields(line) == Ok(p) && ParsedAs(ps, rest)
    ensures ParsedAs([p] + ps, [line] + rest)
  {
    var qs, nb := [p] + ps, [line] + rest;
    forall j | 0 <= j < |nb|
      ensures Ok(qs[j]) == ParseFields(nb[j])
    {
      if j > 0 {
        assert qs[j] == ps[j - 1] && nb[j] == rest[j - 1];
      }
    }
  }

  /**
   * Reading succeeds exactly when every non-blank line parses, and then
   * yields the parameters of the non-blank lines, in line order.
   */
  lemma {:induction false} ParseLinesOk(lines: seq<string>)
    ensures ParseLines(lines).Ok? <==> AllParse(NonBlank(lines))
    ensures ParseLines(lines).Ok? ==> ParsedAs(ParseLines(lines).value, NonBlank(lines))
    decreases |lines|
  {
    if lines != [] {
      ParseLinesOk(lines[1..]);
      var readLine := Strip(lines[0]);
      if readLine != [] {
        var rest := NonBlank(lines[1..]);
        assert NonBlank(lines) == [readLine] + rest;
        AllParseCons(readLine, rest);
        if ParseFields(readLine).Ok? && ParseLines(lines[1..]).Ok? {
          ParsedAsCons(ParseFields(readLine).value, ParseLines(lines[1..]).value, readLine, rest);
        }
      }
    }
  }

  /**
   * A failed read reports the error of the first non-blank line that does
   * not parse; `j` is that line's position among the non-blank lines.
   */
  lemma {:induction false} ParseLinesErr(lines: seq<string>) returns (j: nat)
    requires ParseLines(lines).Err?
    ensures j < |NonBlank(lines)|
    ensures ParseFields(NonBlank(lines)[j]) == Err(ParseLines(lines).error)
    ensures AllParse(NonBlank(lines)[..j])
    decreases |lines|
  {
    var readLine := Strip(lines[0]);
    var rest := NonBlank(lines[1..]);
    if readLine == [] {
      assert NonBlank(lines) == rest;
      j := ParseLinesErr(lines[1..]);
    } else {
      assert NonBlank(lines) == [readLine] + rest;
      if ParseFields(readLine).Err? {
        j := 0;
      } else {
        assert ParseLines(lines) == ParseLines(lines[1..]);
        var k := ParseLinesErr(lines[1..]);
        j := k + 1;
        assert NonBlank(lines)[j] == rest[k];
        assert NonBlank(lines)[..j] == [readLine] + rest[..k];
        AllParseCons(readLine, rest[..k]);
      }
    }
  }

  /** The lines of a file holding one formatted parameter per line. */
  function FormatAll(ps: seq<CommandParameter>): (lines: seq<string>)
    ensures |lines| == |ps|
  {
    if ps == [] then [] else [Format(ps[0])] + FormatAll(ps[1..])
  }

  /** A formatted parameter whose command line starts with no whitespace is neither blank nor changed by stripping. */
  lemma FormatStripped(p: CommandParameter)
    requires p.commandLine != "" && !IsSpace(p.commandLine[0])
    ensures Strip(Format(p)) == Format(p) != []
  {
    var line := Format(p);
    var r := IntToString(p.retry);
    assert line == (p.commandLine + ";" + IntToString(p.timeout) + ";") + r;
    assert line[|line| - 1] == r[|r| - 1];
    StripUnchanged(line, false);
  }

  /** A file written one formatted parameter per line reads back as the same list. */
  lemma {:induction false} ReadRoundTrip(ps: seq<CommandParameter>)
    requires forall i :: 0 <= i < |ps| ==> ps[i].commandLine != "" && ps[i].timeout >= 1 && ps[i].retry >= 1
    requires forall i :: 0 <= i < |ps| ==> ';' !in ps[i].commandLine && !IsSpace(ps[i].commandLine[0])
    ensures ParseLines(FormatAll(ps)) == Ok(ps)
    decreases |ps|
  {
    if ps != [] {
      var lines := FormatAll(ps);
      assert lines[0] == Format(ps[0]) && lines[1..] == FormatAll(ps[1..]);
      FormatStripped(ps[0]);
      ParseFieldsRoundTrip(ps[0]);
      ReadRoundTrip(ps[1..]);
      assert [ps[0]] + ps[1..] == ps;
    }
  }

  /** `CommandListReader.read` on the file's lines. */
  method Read(lines: seq<string>) returns (r: Result<seq<CommandParameter>>)
    ensures r == ParseLines(lines)
  {
    var commandParameters := [];
    var lineNo := 0;
    assert lines[lineNo..] == lines;
    assert ParseLines(lines).Ok? ==> [] + ParseLines(lines).value == ParseLines(lines).value;
    while lineNo < |lines|
      invariant lineNo <= |lines|
      invariant ParseLines(lines) == Prepend(commandParameters, ParseLines(lines[lineNo..]))
    {
      assert lines[lineNo..][1..] == lines[lineNo + 1..];
      var readLine := Strip(lines[lineNo]);
      if readLine == [] {
        lineNo := lineNo + 1;
        continue;
      }
      var parsed := ParseFields(readLine);
      if parsed.Err? {
        return Err(parsed.error);
      }
      match ParseLines(lines[lineNo + 1..]) {
        case Ok(rest) =>
          assert commandParameters + ([parsed.value] + rest) == commandParameters + [parsed.value] + rest;
        case Err(_) =>
      }
      commandParameters := commandParameters + [parsed.value];
      lineNo := lineNo + 1;
    }
    assert lines[lineNo..] == [];
    assert commandParameters + [] == commandParameters;
    return Ok(commandParameters);
  }
}
