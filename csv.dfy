/** The first record of Python's csv.reader with the default 'excel' dialect (delimiter ',', quote '"',
    doubled quotes, no escape character, not strict), read from io.StringIO(text, newline=''). The
    reader is the character state machine of CPython's _csv module; an end-of-line marker is fed
    after every line, and lines end at '\n', '\r' or '\r\n'. */
module Csv {
  import opened Base

  /** csv.field_size_limit() at its default. */
  const FieldLimit: nat := 131072
  const FieldLimitMessage: string := "field larger than field limit (131072)"
  const NewlineMessage: string := "new-line character seen in unquoted field - do you need to open the file with newline=''?"

  datatype State = StartRecord | StartField | InField | InQuotedField | QuoteInQuotedField | EatCrNl

  /** The reader's state, the fields saved so far in the current record, and the field being built. */
  datatype Parser = Parser(state: State, fields: seq<string>, field: string)

  /** A character of the current line, or the end-of-line marker fed after it. */
  datatype Input = Ch(c: char) | Eol

  const Initial: Parser := Parser(StartRecord, [], [])

  predicate IsNewline(i: Input) { i.Eol? || i.c == '\n' || i.c == '\r' }

  function AddChar(p: Parser, c: char, next: State): Result<Parser, string> {
    if |p.field| >= FieldLimit then Err(FieldLimitMessage)
    else Ok(Parser(next, p.fields, p.field + [c]))
  }

  function SaveField(p: Parser, next: State): Parser {
    Parser(next, p.fields + [p.field], [])
  }

  function EndOfLine(i: Input): State {
    if i.Eol? then StartRecord else EatCrNl
  }

  function StartFieldStep(p: Parser, i: Input): Result<Parser, string> {
    if IsNewline(i) then Ok(SaveField(p, EndOfLine(i)))
    else if i.c == '"' then Ok(p.(state := InQuotedField))
    else if i.c == ',' then Ok(SaveField(p, StartField))
    else AddChar(p, i.c, InField)
  }

  function Step(p: Parser, i: Input): Result<Parser, string> {
    match p.state
    case StartRecord =>
      if i.Eol? then Ok(p)
      else if IsNewline(i) then Ok(p.(state := EatCrNl))
      else StartFieldStep(p.(state := StartField), i)
    case StartField => StartFieldStep(p, i)
    case InField =>
      if IsNewline(i) then Ok(SaveField(p, EndOfLine(i)))
      else if i.c == ',' then Ok(SaveField(p, StartField))
      else AddChar(p, i.c, InField)
    case InQuotedField =>
      if i.Eol? then Ok(p)
      else if i.c == '"' then Ok(p.(state := QuoteInQuotedField))
      else AddChar(p, i.c, InQuotedField)
    case QuoteInQuotedField =>
      if i.Ch? && i.c == '"' then AddChar(p, '"', InQuotedField)
      else if i.Ch? && i.c == ',' then Ok(SaveField(p, StartField))
      else if IsNewline(i) then Ok(SaveField(p, EndOfLine(i)))
      else AddChar(p, i.c, InField)
    case EatCrNl =>
      if i.Eol? then Ok(p.(state := StartRecord))
      else if IsNewline(i) then Ok(p)
      else Err(NewlineMessage)
  }

  /** Whether the first character of `s` is the last one of its line. */
  predicate EndsLine(s: string)
    requires s != []
  {
    s[0] == '\n' || (s[0] == '\r' && (|s| == 1 || s[1] != '\n'))
  }

  /** What the reader returns when the input runs out in the middle of a record: the pending quoted
      field is saved, otherwise there is no record at all and next(reader, []) yields []. */
  function Finish(p: Parser): seq<string> {
    if p.field != [] || p.state == InQuotedField then p.fields + [p.field] else []
  }

  /** Feeds `s` to the reader until one record is complete; `pending` tells whether the current line
      has unread characters before `s` (so that input ending there still ends a line). */
  function Run(p: Parser, s: string, pending: bool): Result<seq<string>, string>
    decreases |s|
  {
    if s == [] then
      if pending then
        var p2 :- Step(p, Eol);
        if p2.state == StartRecord then Ok(p2.fields) else Ok(Finish(p2))
      else Ok(Finish(p))
    else
      var p1 :- Step(p, Ch(s[0]));
      if EndsLine(s) then
        var p2 :- Step(p1, Eol);
        if p2.state == StartRecord then Ok(p2.fields) else Run(p2, s[1..], false)
      else Run(p1, s[1..], true)
  }

  /** next(csv.reader(io.StringIO(text, newline='')), []): the first record, [] for no record. */
  function FirstRecord(text: string): Result<seq<string>, string> {
    Run(Initial, text, false)
  }

  // ----- Writing a header -----

  /** A character that can stand in an unquoted field. */
  predicate PlainChar(c: char) { c != ',' && c != '"' && c != '\n' && c != '\r' }

  predicate PlainField(f: string) {
    |f| <= FieldLimit && forall k :: 0 <= k < |f| ==> PlainChar(f[k])
  }

  /** ','.join(fields). */
  function Join(fs: seq<string>): string {
    if fs == [] then []
    else if |fs| == 1 then fs[0]
    else fs[0] + [','] + Join(fs[1..])
  }

  /** A field as csv.writer with QUOTE_ALL writes it: in quotes, each quote doubled. */
  function Escape(f: string): string {
    if f == [] then []
    else (if f[0] == '"' then ['"', '"'] else [f[0]]) + Escape(f[1..])
  }

  function Quote(f: string): string { ['"'] + Escape(f) + ['"'] }

  function QuotedJoin(fs: seq<string>): string {
    if fs == [] then []
    else if |fs| == 1 then Quote(fs[0])
    else Quote(fs[0]) + [','] + QuotedJoin(fs[1..])
  }

  /** What may follow a header: nothing, or a line break and any further rows. */
  predicate EndsRecord(tail: string) {
    tail == [] || tail[0] == '\n' || tail[0] == '\r'
  }

  predicate Closable(st: State) { st == StartField || st == InField || st == QuoteInQuotedField }

  // ----- Reading it back -----

  /** At the start of input a character that is not a line break is read as at the start of a field. */
  lemma StartOfInput(s: string)
    requires s != [] && s[0] != '\n' && s[0] != '\r'
    ensures FirstRecord(s) == Run(Parser(StartField, [], []), s, true)
  {
  }

  /** A record read from the start of a field is the first record of input that does not open
      with a line break. */
  lemma ReadFromStart(s: string, fs: seq<string>)
    requires s != [] && s[0] != '\n' && s[0] != '\r'
    requires Run(Parser(StartField, [], []), s, true) == Ok([] + fs)
    ensures FirstRecord(s) == Ok(fs)
  {
    StartOfInput(s);
    assert [] + fs == fs;
  }

  /** Reading one character that does not end its line. */
  lemma RunChar(p: Parser, s: string, pending: bool, p1: Parser)
    requires s != [] && !EndsLine(s) && Step(p, Ch(s[0])) == Ok(p1)
    ensures Run(p, s, pending) == Run(p1, s[1..], true)
  {
  }

  /** The end of the header line closes the field being read and completes the record. */
  lemma CloseRecord(p: Parser, tail: string)
    requires Closable(p.state) && EndsRecord(tail)
    ensures Run(p, tail, true) == Ok(p.fields + [p.field])
  {
    if tail != [] && tail[0] == '\r' && !EndsLine(tail) {
      var p1 := SaveField(p, EatCrNl);
      assert Step(p, Ch(tail[0])) == Ok(p1);
      assert Run(p, tail, true) == Run(p1, tail[1..], true);
      assert tail[1..][0] == '\n' && EndsLine(tail[1..]);
    }
  }

  lemma {:induction false} PlainChars(p: Parser, f: string, s: string, pending: bool)
    requires p.state == InField && |p.field| + |f| <= FieldLimit
    requires forall k :: 0 <= k < |f| ==> PlainChar(f[k])
    ensures Run(p, f + s, pending) == Run(p.(field := p.field + f), s, if f == [] then pending else true)
    decreases |f|
  {
    if f == [] {
      assert f + s == s && p.field + f == p.field;
    } else {
      var p1 := Parser(InField, p.fields, p.field + [f[0]]);
      assert (f + s)[0] == f[0] && (f + s)[1..] == f[1..] + s;
      RunChar(p, f + s, pending, p1);
      PlainChars(p1, f[1..], s, true);
      assert p1.field + f[1..] == p.field + f;
    }
  }

  /** An unquoted field read from the start of a field leaves the reader in the field, or still at
      its start when the field is empty. */
  lemma PlainFirstField(p: Parser, f: string, rest: string)
    requires p.state == StartField && p.field == [] && PlainField(f)
    ensures Run(p, f + rest, true) == Run(Parser(if f == [] then StartField else InField, p.fields, f), rest, true)
  {
    if f == [] {
      assert f + rest == rest;
    } else {
      var p1 := Parser(InField, p.fields, [f[0]]);
      assert PlainChar(f[0]);
      assert p.field + [f[0]] == [f[0]];
      assert (f + rest)[0] == f[0] && (f + rest)[1..] == f[1..] + rest;
      RunChar(p, f + rest, true, p1);
      PlainChars(p1, f[1..], rest, true);
      assert [f[0]] + f[1..] == f;
    }
  }

  /** A comma after an unquoted field saves it and starts the next one. */
  lemma Separator(q: Parser, s: string)
    requires q.state == StartField || q.state == InField
    ensures Run(q, [','] + s, true) == Run(Parser(StartField, q.fields + [q.field], []), s, true)
  {
    var t := [','] + s;
    assert t[0] == ',' && t[1..] == s;
    RunChar(q, t, true, SaveField(q, StartField));
  }

  lemma {:induction false} PlainRecord(p: Parser, fs: seq<string>, tail: string)
    requires p.state == StartField && p.field == []
    requires |fs| >= 1 && forall i :: 0 <= i < |fs| ==> PlainField(fs[i])
    requires EndsRecord(tail)
    ensures Run(p, Join(fs) + tail, true) == Ok(p.fields + fs)
    decreases |fs|
  {
    var f := fs[0];
    var q := Parser(if f == [] then StartField else InField, p.fields, f);
    if |fs| == 1 {
      assert Join(fs) == f;
      PlainFirstField(p, f, tail);
      CloseRecord(q, tail);
      assert fs == [f];
    } else {
      var more := Join(fs[1..]) + tail;
      assert Join(fs) + tail == f + ([','] + more);
      PlainFirstField(p, f, [','] + more);
      Separator(q, more);
      var p2 := Parser(StartField, p.fields + [f], []);
      assert forall i :: 0 <= i < |fs[1..]| ==> fs[1..][i] == fs[i + 1];
      PlainRecord(p2, fs[1..], tail);
      assert p.fields + [f] + fs[1..] == p.fields + fs;
    }
  }

  lemma {:induction false} JoinPlain(fs: seq<string>)
    requires forall i :: 0 <= i < |fs| ==> PlainField(fs[i])
    ensures forall k :: 0 <= k < |Join(fs)| ==> Join(fs)[k] != '\n' && Join(fs)[k] != '\r'
  {
    if |fs| > 1 {
      JoinPlain(fs[1..]);
      var j := Join(fs);
      forall k | 0 <= k < |j| ensures j[k] != '\n' && j[k] != '\r' {
        if k < |fs[0]| {
          assert j[k] == fs[0][k];
        } else if k > |fs[0]| {
          assert j[k] == Join(fs[1..])[k - |fs[0]| - 1];
        }
      }
    }
  }

  /** A header of unquoted fields followed by a line break reads back as exactly those fields,
      whatever rows come after it. */
  lemma PlainHeaderStart(fs: seq<string>, tail: string)
    requires forall i :: 0 <= i < |fs| ==> PlainField(fs[i])
    requires Join(fs) != []
    ensures (Join(fs) + tail)[0] != '\n' && (Join(fs) + tail)[0] != '\r'
  {
    JoinPlain(fs);
    assert (Join(fs) + tail)[0] == Join(fs)[0];
  }

  lemma PlainHeaderRoundTrip(fs: seq<string>, tail: string)
    requires forall i :: 0 <= i < |fs| ==> PlainField(fs[i])
    requires Join(fs) != [] && EndsRecord(tail)
    ensures FirstRecord(Join(fs) + tail) == Ok(fs)
  {
    PlainHeaderStart(fs, tail);
    PlainRecord(Parser(StartField, [], []), fs, tail);
    ReadFromStart(Join(fs) + tail, fs);
  }

  lemma {:induction false} EscapedChars(p: Parser, f: string, s: string, pending: bool)
    requires p.state == InQuotedField && |p.field| + |f| <= FieldLimit
    ensures Run(p, Escape(f) + ['"'] + s, pending)
         == Run(Parser(QuoteInQuotedField, p.fields, p.field + f), s, true)
    decreases |f|
  {
    var e := Escape(f);
    if f == [] {
      assert e + ['"'] + s == ['"'] + s;
      assert (['"'] + s)[1..] == s;
      assert p.field + f == p.field;
      RunChar(p, ['"'] + s, pending, p.(state := QuoteInQuotedField));
    } else {
      var rest := Escape(f[1..]) + ['"'] + s;
      var p1 := Parser(InQuotedField, p.fields, p.field + [f[0]]);
      if f[0] == '"' {
        assert e + ['"'] + s == ['"', '"'] + rest;
        var q := p.(state := QuoteInQuotedField);
        assert (['"', '"'] + rest)[1..] == ['"'] + rest;
        RunChar(p, ['"', '"'] + rest, pending, q);
        assert (['"'] + rest)[1..] == rest;
        RunChar(q, ['"'] + rest, true, p1);
        EscapedChars(p1, f[1..], s, true);
      } else {
        var t := [f[0]] + rest;
        assert e + ['"'] + s == t;
        assert t[1..] == rest;
        assert Step(p, Ch(f[0])) == Ok(p1);
        assert Step(p1, Eol) == Ok(p1);
        assert Run(p, t, pending) == Run(p1, rest, !EndsLine(t));
        EscapedChars(p1, f[1..], s, !EndsLine(t));
      }
      assert p1.field + f[1..] == p.field + f;
    }
  }

  /** The rest of the header after its first field; empty when there is a single field. */
  function QuotedTail(fs: seq<string>, tail: string): string
    requires |fs| >= 1
  {
    if |fs| == 1 then tail else [','] + QuotedJoin(fs[1..]) + tail
  }

  lemma Regroup(a: string, e: string, b: string, c: string, q: string, t: string)
    ensures a + e + b + c + q + t == a + (e + b + (c + q + t))
  {
  }

  lemma {:induction false} QuotedSplit(fs: seq<string>, tail: string)
    requires |fs| >= 1
    ensures QuotedJoin(fs) + tail == ['"'] + (Escape(fs[0]) + ['"'] + QuotedTail(fs, tail))
  {
    var e := Escape(fs[0]);
    if |fs| == 1 {
      assert QuotedJoin(fs) == ['"'] + e + ['"'];
    } else {
      var q := QuotedJoin(fs[1..]);
      assert QuotedJoin(fs) == ['"'] + e + ['"'] + [','] + q;
      assert QuotedTail(fs, tail) == [','] + q + tail;
      Regroup(['"'], e, ['"'], [','], q, tail);
    }
  }

  lemma QuotedFirstField(p: Parser, fs: seq<string>, tail: string)
    requires p.state == StartField && p.field == []
    requires |fs| >= 1 && |fs[0]| <= FieldLimit
    ensures Run(p, QuotedJoin(fs) + tail, true)
         == Run(Parser(QuoteInQuotedField, p.fields, fs[0]), QuotedTail(fs, tail), true)
  {
    var f := fs[0];
    var rest := QuotedTail(fs, tail);
    var s := Escape(f) + ['"'] + rest;
    QuotedSplit(fs, tail);
    var p1 := p.(state := InQuotedField);
    assert (['"'] + s)[1..] == s;
    RunChar(p, ['"'] + s, true, p1);
    EscapedChars(p1, f, rest, true);
    assert p1.field + f == f;
  }

  lemma {:induction false} QuotedRecord(p: Parser, fs: seq<string>, tail: string)
    requires p.state == StartField && p.field == []
    requires |fs| >= 1 && forall i :: 0 <= i < |fs| ==> |fs[i]| <= FieldLimit
    requires EndsRecord(tail)
    ensures Run(p, QuotedJoin(fs) + tail, true) == Ok(p.fields + fs)
    decreases |fs|
  {
    var f := fs[0];
    var rest := QuotedTail(fs, tail);
    var q := Parser(QuoteInQuotedField, p.fields, f);
    QuotedFirstField(p, fs, tail);
    if |fs| == 1 {
      CloseRecord(q, tail);
      assert fs == [f];
    } else {
      var p2 := Parser(StartField, p.fields + [f], []);
      assert rest[0] == ',' && rest[1..] == QuotedJoin(fs[1..]) + tail;
      RunChar(q, rest, true, p2);
      QuotedRecord(p2, fs[1..], tail);
      assert p.fields + [f] + fs[1..] == p.fields + fs;
    }
  }

  /** Section 2 of RFC 4180 as the reader implements it: a header whose fields are quoted, with
      inner quotes doubled, reads back as exactly those fields, even when they hold commas, quotes
      or line breaks. */
  lemma QuotedHeaderRoundTrip(fs: seq<string>, tail: string)
    requires |fs| >= 1 && forall i :: 0 <= i < |fs| ==> |fs[i]| <= FieldLimit
    requires EndsRecord(tail)
    ensures FirstRecord(QuotedJoin(fs) + tail) == Ok(fs)
  {
    var s := QuotedJoin(fs) + tail;
    assert s[0] == '"' by {
      assert QuotedJoin(fs) == Quote(fs[0]) + QuotedJoin(fs)[|Quote(fs[0])|..];
    }
    StartOfInput(s);
    QuotedRecord(Parser(StartField, [], []), fs, tail);
    assert [] + fs == fs;
  }

  /** Empty input has no record, and a blank first line is an empty record: both give []. */
  lemma NoHeader(rest: string)
    ensures FirstRecord([]) == Ok([])
    ensures FirstRecord(['\n'] + rest) == Ok([])
  {
    var s := ['\n'] + rest;
    assert Step(Initial, Ch('\n')) == Ok(Initial.(state := EatCrNl));
    assert EndsLine(s);
  }

  /** An unquoted header field longer than the field limit makes the reader raise. */
  lemma HeaderFieldTooLong(f: string, tail: string)
    requires |f| > FieldLimit && forall k :: 0 <= k < |f| ==> PlainChar(f[k])
    ensures FirstRecord(f + tail).Err?
    ensures FirstRecord(f + tail).error == FieldLimitMessage
  {
    var s := f + tail;
    assert s[0] == f[0];
    StartOfInput(s);
    var p0 := Parser(StartField, [], []);
    var p1 := Parser(InField, [], [f[0]]);
    assert PlainChar(f[0]);
    assert p0.field + [f[0]] == [f[0]];
    assert Step(p0, Ch(f[0])) == Ok(p1);
    assert s[1..] == f[1..FieldLimit] + (f[FieldLimit..] + tail);
    RunChar(p0, s, true, p1);
    PlainChars(p1, f[1..FieldLimit], f[FieldLimit..] + tail, true);
    var q := Parser(InField, [], f[..FieldLimit]);
    assert p1.field + f[1..FieldLimit] == f[..FieldLimit];
    var r := f[FieldLimit..] + tail;
    assert r[0] == f[FieldLimit] && PlainChar(r[0]);
    assert Step(q, Ch(r[0])) == Err(FieldLimitMessage);
  }
}
