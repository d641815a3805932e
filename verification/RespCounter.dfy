/**
 * The benchmark's reply counter: a byte machine with three stages and one counter of open frames
 * that counts complete top-level replies of a RESP stream, however it is cut into chunks.
 */
module RespCounter {
  import opened Decimal

  /** `stage` 0 is at a type byte, 1 in a header line, 2 in a bulk body of `need` more bytes. */
  datatype Counter = Counter(done: nat, stage: nat, need: int, open: int, kind: char, line: string)

  const START := Counter(0, 0, 0, 0, '\0', "")

  // ---- the header line -----------------------------------------------------------------------------------

  function TrimEnd(line: string): string {
    if line != "" && (line[|line| - 1] == '\n' || line[|line| - 1] == '\r') then TrimEnd(line[..|line| - 1]) else line
  }

  predicate Space(c: char) { c as int == 32 || 9 <= c as int <= 13 }

  function Leading(s: string): (d: string)
    ensures AllDigits(d)
  {
    if s != "" && IsDigit(s[0]) then [s[0]] + Leading(s[1..]) else ""
  }

  /** The C library's atol, on numbers that fit a long. */
  function Atol(s: string): int {
    if s == "" then 0
    else if Space(s[0]) then Atol(s[1..])
    else if s[0] == '-' then var magnitude: int := Value(Leading(s[1..])); -magnitude
    else if s[0] == '+' then Value(Leading(s[1..]))
    else Value(Leading(s))
  }

  // ---- one byte at a time ----------------------------------------------------------------------------------

  function Close(s: Counter): Counter {
    s.(open := s.open - 1, done := if s.open - 1 == 0 then s.done + 1 else s.done)
  }

  /** The header line is complete. */
  function EndLine(s: Counter): Counter {
    var line := TrimEnd(s.line);
    var n := Atol(line);
    if s.kind == '$' then
      if n < 0 then Close(s.(line := line)).(stage := 0) else s.(line := line, need := n + 2, stage := 2)
    else if s.kind == '*' then
      var open := s.open - 1 + (if n < 0 then 0 else n);
      s.(line := line, open := open, done := if open == 0 then s.done + 1 else s.done, stage := 0)
    else Close(s.(line := line)).(stage := 0)
  }

  function Step(s: Counter, c: char): Counter {
    if s.stage == 0 then s.(kind := c, line := "", stage := 1, open := if s.open == 0 then 1 else s.open)
    else if s.stage == 1 then
      var more := s.(line := s.line + [c]);
      if c == '\n' then EndLine(more) else more
    else
      var less := s.(need := s.need - 1);
      if less.need == 0 then Close(less).(stage := 0) else less
  }

  function Run(s: Counter, bytes: string): Counter
    decreases |bytes|
  {
    if bytes == "" then s else Run(Step(s, bytes[0]), bytes[1..])
  }

  /** Feeding two chunks is feeding one. */
  lemma {:induction false} RunSplit(s: Counter, a: string, b: string)
    ensures Run(s, a + b) == Run(Run(s, a), b)
    decreases |a|
  {
    if a == "" {
      assert a + b == b;
    } else {
      assert (a + b)[1..] == a[1..] + b;
      RunSplit(Step(s, a[0]), a[1..], b);
    }
  }

  // ---- what always holds -----------------------------------------------------------------------------------

  predicate Sane(s: Counter) {
    && s.stage <= 2 && s.open >= 0 && (s.stage != 0 ==> s.open >= 1) && (s.stage == 2 ==> s.need >= 1)
  }

  lemma StepSane(s: Counter, c: char)
    requires Sane(s)
    ensures Sane(Step(s, c)) && Step(s, c).done >= s.done
    ensures Step(s, c).open == 0 ==> Step(s, c).done == s.done + 1
  {
  }

  /** Whenever the machine is between replies again, it has counted one more. */
  lemma {:induction false} RunSane(s: Counter, bytes: string)
    requires Sane(s)
    ensures Sane(Run(s, bytes)) && Run(s, bytes).done >= s.done
    ensures bytes != "" && Run(s, bytes).open == 0 ==> Run(s, bytes).done >= s.done + 1
    decreases |bytes|
  {
    if bytes != "" {
      StepSane(s, bytes[0]);
      RunSane(Step(s, bytes[0]), bytes[1..]);
    }
  }

  // ---- replies ---------------------------------------------------------------------------------------------

  datatype Reply =
    | Simple(text: string)
    | Error(text: string)
    | Integer(text: string)
    | Bulk(data: string)
    | NullBulk
    | Array(items: seq<Reply>)
    | NullArray

  const CRLF: string := "\r\n"

  function Encode(r: Reply): string {
    match r
    case Simple(text) => "+" + text + CRLF
    case Error(text) => "-" + text + CRLF
    case Integer(text) => ":" + text + CRLF
    case Bulk(data) => "$" + Numeral(|data|) + CRLF + (data + CRLF)
    case NullBulk => "$" + "-1" + CRLF
    case Array(items) => "*" + Numeral(|items|) + CRLF + EncodeAll(items)
    case NullArray => "*" + "-1" + CRLF
  }

  function EncodeAll(rs: seq<Reply>): string {
    if rs == [] then "" else Encode(rs[0]) + EncodeAll(rs[1..])
  }

  predicate OneLine(text: string) { '\n' !in text }

  /** Simple strings, errors and integers are single lines. */
  predicate Wellformed(r: Reply) {
    match r
    case Simple(text) => OneLine(text)
    case Error(text) => OneLine(text)
    case Integer(text) => OneLine(text)
    case Array(items) => AllWellformed(items)
    case _ => true
  }

  predicate AllWellformed(rs: seq<Reply>) {
    rs == [] || (Wellformed(rs[0]) && AllWellformed(rs[1..]))
  }

  // ---- reading a header --------------------------------------------------------------------------------------

  lemma {:induction false} RunText(s: Counter, text: string)
    requires s.stage == 1 && OneLine(text)
    ensures Run(s, text) == s.(line := s.line + text)
    decreases |text|
  {
    if text == "" {
      assert s.line + text == s.line;
    } else {
      RunText(Step(s, text[0]), text[1..]);
      assert s.line + text == (s.line + [text[0]]) + text[1..];
    }
  }

  /** The frames outstanding once the type byte of the next reply has been read. */
  function Begun(open: int): int { if open == 0 then 1 else open }

  /** A whole header, from the type byte to the line feed. */
  lemma RunHeader(s: Counter, kind: char, text: string)
    requires s.stage == 0 && OneLine(text)
    ensures Run(s, [kind] + text + CRLF)
         == EndLine(s.(kind := kind, line := text + CRLF, stage := 1, open := Begun(s.open)))
  {
    var first := Step(s, kind);
    var bytes := [kind] + text + CRLF;
    assert bytes[1..] == (text + "\r") + "\n";
    RunSplit(first, text + "\r", "\n");
    RunText(first, text + "\r");
    var before := Run(first, text + "\r");
    assert before.line == text + "\r";
    assert Run(before, "\n") == Step(before, '\n') by {
      assert "\n"[1..] == "";
    }
    assert (text + "\r") + ['\n'] == text + CRLF;
  }

  lemma Trimmed(text: string)
    requires text != "" ==> text[|text| - 1] != '\n' && text[|text| - 1] != '\r'
    ensures TrimEnd(text + CRLF) == text
  {
    var line := text + CRLF;
    assert line[..|line| - 1] == text + "\r";
    assert (text + "\r")[..|text|] == text;
    assert TrimEnd(text) == text;
    assert TrimEnd(text + "\r") == text;
  }

  lemma {:induction false} LeadingAll(s: string)
    requires AllDigits(s)
    ensures Leading(s) == s
  {
    if s != "" {
      LeadingAll(s[1..]);
    }
  }

  lemma AtolNumeral(n: nat)
    ensures Atol(Numeral(n)) == n && TrimEnd(Numeral(n) + CRLF) == Numeral(n) && OneLine(Numeral(n))
  {
    NumeralValue(n);
    var s := Numeral(n);
    assert IsDigit(s[0]) && IsDigit(s[|s| - 1]);
    LeadingAll(s);
    Trimmed(s);
  }

  lemma AtolMinusOne()
    ensures Atol("-1") == -1 && TrimEnd("-1" + CRLF) == "-1" && OneLine("-1")
  {
    MinusOneText("-1");
    Trimmed("-1");
  }

  lemma MinusOneText(s: string)
    requires s == "-1"
    ensures Atol(s) == -1 && OneLine(s)
  {
    var digits := s[1..];
    assert digits == "" + ['1'];
    LeadingAll(digits);
    ValueAppend("", '1');
    assert s[0] == '-' && s[1] == '1';
    assert '-' as int == 45;
    assert Value(Leading(digits)) == 1 && DigitValue('1') == 1;
  }

  // ---- reading a reply -----------------------------------------------------------------------------------------

  /** The machine is between frames with this many outstanding and this many replies counted. */
  predicate At(s: Counter, open: int, done: nat) { s.stage == 0 && s.open == open && s.done == done }

  /** One outstanding frame fewer, and one more reply when it was the last. */
  predicate Closed(s: Counter, open: int, done: nat) {
    At(s, open - 1, if open - 1 == 0 then done + 1 else done)
  }

  lemma RunLine(s: Counter, kind: char, text: string, open: int, done: nat)
    requires At(s, open, done) && kind != '$' && kind != '*' && OneLine(text)
    ensures Closed(Run(s, [kind] + text + CRLF), Begun(open), done)
  {
    RunHeader(s, kind, text);
  }

  lemma RunNull(s: Counter, kind: char, open: int, done: nat)
    requires At(s, open, done) && (kind == '$' || kind == '*')
    ensures Closed(Run(s, [kind] + "-1" + CRLF), Begun(open), done)
  {
    AtolMinusOne();
    RunHeader(s, kind, "-1");
  }

  lemma {:induction false} RunBody(s: Counter, bytes: string)
    requires s.stage == 2 && s.need >= 1 && |bytes| <= s.need
    ensures Run(s, bytes)
         == if |bytes| < s.need then s.(need := s.need - |bytes|) else Close(s.(need := 0)).(stage := 0)
    decreases |bytes|
  {
    if bytes != "" && (s.need > 1 || |bytes| > 1) {
      RunBody(Step(s, bytes[0]), bytes[1..]);
    }
  }

  lemma RunBulk(s: Counter, data: string, open: int, done: nat)
    requires At(s, open, done)
    ensures Closed(Run(s, "$" + Numeral(|data|) + CRLF + (data + CRLF)), Begun(open), done)
  {
    var header := "$" + Numeral(|data|) + CRLF;
    AtolNumeral(|data|);
    RunHeader(s, '$', Numeral(|data|));
    var inside := Run(s, header);
    assert inside.stage == 2 && inside.need == |data| + 2;
    RunBody(inside, data + CRLF);
    RunSplit(s, header, data + CRLF);
  }

  lemma RunArrayHeader(s: Counter, n: nat, open: int, done: nat)
    requires At(s, open, done)
    ensures var after := Begun(open) - 1 + n;
      At(Run(s, "*" + Numeral(n) + CRLF), after, if after == 0 then done + 1 else done)
  {
    AtolNumeral(n);
    RunHeader(s, '*', Numeral(n));
  }

  /** Reading one reply, nested or not, resolves exactly one outstanding frame. */
  lemma {:induction false} RunReply(s: Counter, r: Reply, open: int, done: nat)
    requires At(s, open, done) && open >= 0 && Wellformed(r)
    ensures Closed(Run(s, Encode(r)), Begun(open), done)
    decreases r
  {
    match r
    case Simple(text) => RunLine(s, '+', text, open, done);
    case Error(text) => RunLine(s, '-', text, open, done);
    case Integer(text) => RunLine(s, ':', text, open, done);
    case Bulk(data) => RunBulk(s, data, open, done);
    case NullBulk => RunNull(s, '$', open, done);
    case NullArray => RunNull(s, '*', open, done);
    case Array(items) =>
      var header := "*" + Numeral(|items|) + CRLF;
      RunArrayHeader(s, |items|, open, done);
      RunSplit(s, header, EncodeAll(items));
      if items != [] {
        RunItems(Run(s, header), items, Begun(open) - 1 + |items|, done);
      }
  }

  /** The items of an array; nothing is counted before the last of them. */
  lemma {:induction false} RunItems(s: Counter, rs: seq<Reply>, open: int, done: nat)
    requires At(s, open, done) && open >= |rs| && rs != [] && AllWellformed(rs)
    ensures At(Run(s, EncodeAll(rs)), open - |rs|, if open == |rs| then done + 1 else done)
    decreases rs
  {
    RunReply(s, rs[0], open, done);
    RunSplit(s, Encode(rs[0]), EncodeAll(rs[1..]));
    if rs[1..] != [] {
      RunItems(Run(s, Encode(rs[0])), rs[1..], open - 1, done);
    }
  }

  /** Every sequence of replies is counted reply by reply. */
  lemma {:induction false} RunReplies(s: Counter, rs: seq<Reply>, done: nat)
    requires At(s, 0, done) && AllWellformed(rs)
    ensures At(Run(s, EncodeAll(rs)), 0, done + |rs|)
    decreases |rs|
  {
    if rs != [] {
      RunReply(s, rs[0], 0, done);
      RunSplit(s, Encode(rs[0]), EncodeAll(rs[1..]));
      RunReplies(Run(s, Encode(rs[0])), rs[1..], done + 1);
    }
  }

  // ---- at every byte -------------------------------------------------------------------------------------------

  /** Inside a reply nothing is counted yet: otherwise two replies would be counted at its end. */
  lemma NothingEarly(s: Counter, r: Reply, done: nat, k: nat)
    requires At(s, 0, done) && Wellformed(r) && k < |Encode(r)|
    ensures Run(s, Encode(r)[..k]).done == done
  {
    var front, back := Encode(r)[..k], Encode(r)[k..];
    RunReply(s, r, 0, done);
    assert Encode(r) == front + back;
    RunSplit(s, front, back);
    RunSane(s, front);
    RunSane(Run(s, front), back);
  }

  /** How many replies lie wholly within the first `k` bytes. */
  function Within(rs: seq<Reply>, k: nat): nat
    decreases |rs|
  {
    if rs == [] || |Encode(rs[0])| > k then 0 else 1 + Within(rs[1..], k - |Encode(rs[0])|)
  }

  /** The count is exact after every byte, not only at the end. */
  lemma {:induction false} ExactAtEveryByte(s: Counter, rs: seq<Reply>, done: nat, k: nat)
    requires At(s, 0, done) && AllWellformed(rs) && k <= |EncodeAll(rs)|
    ensures Run(s, EncodeAll(rs)[..k]).done == done + Within(rs, k)
    decreases |rs|
  {
    if rs != [] {
      var first, rest := Encode(rs[0]), EncodeAll(rs[1..]);
      if k < |first| {
        assert (first + rest)[..k] == first[..k];
        NothingEarly(s, rs[0], done, k);
      } else {
        assert (first + rest)[..k] == first + rest[..k - |first|];
        RunSplit(s, first, rest[..k - |first|]);
        RunReply(s, rs[0], 0, done);
        ExactAtEveryByte(Run(s, first), rs[1..], done + 1, k - |first|);
      }
    }
  }

  // ---- requests ------------------------------------------------------------------------------------------------

  function BulkText(s: string): string { "$" + Numeral(|s|) + CRLF + s + CRLF }

  /** The command builder writes an array of bulk strings. */
  function CommandReply(parts: seq<string>): Reply {
    Array(seq(|parts|, i requires 0 <= i < |parts| => Bulk(parts[i])))
  }

  lemma BulkIsEncoded(s: string)
    ensures BulkText(s) == Encode(Bulk(s))
  {
    assert "$" + Numeral(|s|) + CRLF + s + CRLF == "$" + Numeral(|s|) + CRLF + (s + CRLF);
  }

  lemma {:induction false} EncodeAllAppend(rs: seq<Reply>, r: Reply)
    ensures EncodeAll(rs + [r]) == EncodeAll(rs) + Encode(r)
  {
    if rs == [] {
      assert [r][1..] == [];
      assert Encode(r) + "" == Encode(r);
    } else {
      assert (rs + [r])[1..] == rs[1..] + [r];
      EncodeAllAppend(rs[1..], r);
      assert Encode(rs[0]) + (EncodeAll(rs[1..]) + Encode(r)) == Encode(rs[0]) + EncodeAll(rs[1..]) + Encode(r);
    }
  }

  method BuildCommand(parts: seq<string>) returns (out: string)
    ensures out == Encode(CommandReply(parts))
  {
    var items := CommandReply(parts).items;
    out := "*" + Numeral(|parts|) + CRLF;
    ghost var header := out;
    for i := 0 to |parts|
      invariant out == header + EncodeAll(items[..i])
    {
      BulkIsEncoded(parts[i]);
      EncodeAllAppend(items[..i], items[i]);
      assert items[..i + 1] == items[..i] + [items[i]];
      out := out + BulkText(parts[i]);
    }
    assert items[..|parts|] == items;
  }

  // ---- the counter as it is fed ----------------------------------------------------------------------------------

  /** The position after the next line feed, or the end. */
  method LineEnd(p: string, i: nat) returns (j: nat, found: bool)
    requires i < |p|
    ensures i < j <= |p|
    ensures if found then p[j - 1] == '\n' && OneLine(p[i..j - 1]) else j == |p| && OneLine(p[i..])
  {
    j := i;
    while j < |p| && p[j] != '\n'
      invariant i <= j <= |p| && OneLine(p[i..j])
    {
      j := j + 1;
    }
    found := j < |p|;
    if found {
      j := j + 1;
    }
  }

  lemma RunWholeLine(s: Counter, bytes: string)
    requires s.stage == 1 && bytes != "" && bytes[|bytes| - 1] == '\n' && OneLine(bytes[..|bytes| - 1])
    ensures Run(s, bytes) == EndLine(s.(line := s.line + bytes))
  {
    var text := bytes[..|bytes| - 1];
    assert bytes == text + "\n";
    RunSplit(s, text, "\n");
    RunText(s, text);
    assert "\n"[1..] == "";
    assert (s.line + text) + ['\n'] == s.line + bytes;
  }

  class ReplyCounter {
    var done: nat
    var stage: nat
    var need: int
    var open: int
    var kind: char
    var line: string

    ghost function View(): Counter
      reads this
    {
      Counter(done, stage, need, open, kind, line)
    }

    constructor ()
      ensures View() == START
    {
      done, stage, need, open, kind, line := 0, 0, 0, 0, '\0', "";
    }

    method CloseFrame()
      modifies `open, `done
      ensures View() == Close(old(View()))
    {
      open := open - 1;
      if open == 0 {
        done := done + 1;
      }
    }

    /** The header line has been read. */
    method FinishLine()
      modifies this
      ensures View() == EndLine(old(View()))
    {
      while line != "" && (line[|line| - 1] == '\n' || line[|line| - 1] == '\r')
        invariant TrimEnd(line) == TrimEnd(old(line)) && View() == old(View()).(line := line)
        decreases |line|
      {
        line := line[..|line| - 1];
      }
      var n := Atol(line);
      if kind == '$' {
        if n < 0 {
          CloseFrame();
          stage := 0;
        } else {
          need := n + 2;
          stage := 2;
        }
      } else if kind == '*' {
        open := open - 1;
        open := open + (if n < 0 then 0 else n);
        if open == 0 {
          done := done + 1;
        }
        stage := 0;
      } else {
        CloseFrame();
        stage := 0;
      }
    }

    /** Consumes a chunk, many bytes at a time where it can. */
    method Feed(p: string)
      requires Sane(View())
      modifies this
      ensures View() == Run(old(View()), p) && Sane(View())
    {
      var i := 0;
      RunSane(View(), p);
      assert p[0..] == p;
      while i < |p|
        invariant 0 <= i <= |p| && Sane(View()) && Run(View(), p[i..]) == Run(old(View()), p)
        decreases |p| - i
      {
        i := Advance(p, i);
      }
      assert p[i..] == "";
    }

    /** One round of the loop. */
    method Advance(p: string, i: nat) returns (j: nat)
      requires Sane(View()) && i < |p|
      modifies this
      ensures i < j <= |p| && Sane(View()) && Run(View(), p[j..]) == Run(old(View()), p[i..])
    {
      ghost var start := View();
      if stage == 0 {
        j := i + 1;
        kind := p[i];
        line := "";
        stage := 1;
        if open == 0 {
          open := 1;
        }
        assert p[i..j][1..] == "" && Run(start, p[i..j]) == View();
      } else if stage == 1 {
        var found;
        j, found := LineEnd(p, i);
        line := line + p[i..j];
        if found {
          assert p[i..j][..j - i - 1] == p[i..j - 1];
          RunWholeLine(start, p[i..j]);
          FinishLine();
        } else {
          assert p[i..] == p[i..j];
          RunText(start, p[i..j]);
        }
      } else {
        var take := if |p| - i < need then |p| - i else need;
        j := i + take;
        RunBody(start, p[i..j]);
        need := need - take;
        if need == 0 {
          CloseFrame();
          stage := 0;
        }
      }
      assert p[i..] == p[i..j] + p[j..];
      RunSplit(start, p[i..j], p[j..]);
      RunSane(start, p[i..j]);
    }
  }
}
