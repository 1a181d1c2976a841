/** The column extractor: column-name sanitising, the dispatch on the file extension, the decode
    fallback chain and line-ending normalisation of the CSV branch, and the first record as header. */
module FileUtils {
  import opened Base
  import opened Text
  import opened Codecs
  import opened Csv
  import opened Schemas

  const Placeholder: string := "unnamed_column"

  /** A character the sanitiser keeps: code point 32 or above, or a tab. */
  predicate Kept(c: char) { c as int >= 32 || c == '\t' }

  predicate NotNul(c: char) { c != '\0' }

  /** str.replace('\x00', ''). */
  function RemoveNul(s: string): string { Filter(NotNul, s) }

  /** The first line of sanitize_column_name: NULs removed, then whitespace stripped. */
  function Cleaned(name: string): string { Strip(RemoveNul(name)) }

  /** sanitize_column_name. The result is never empty and holds no control character but tab. */
  function SanitizeColumnName(name: string): (r: string)
    ensures r != []
    ensures forall k :: 0 <= k < |r| ==> Kept(r[k])
  {
    PlaceholderKept();
    var kept := Filter(Kept, Cleaned(name));
    if kept != [] then kept else Placeholder
  }

  lemma PlaceholderKept()
    ensures Placeholder != [] && forall k :: 0 <= k < |Placeholder| ==> Kept(Placeholder[k])
  {
    forall k | 0 <= k < |Placeholder| ensures Kept(Placeholder[k]) {
      assert Placeholder[k] in "_abcdelmnotu";
    }
  }

  /** What is kept: if the cleaned name has any character the sanitiser keeps, the result is exactly
      its kept characters in their order; otherwise it is the placeholder. */
  lemma SanitizeKeeps(name: string)
    ensures var r := SanitizeColumnName(name); var t := Cleaned(name);
      && ((exists k :: 0 <= k < |t| && Kept(t[k])) ==>
            IsSubsequence(r, t) && forall c :: Kept(c) ==> multiset(r)[c] == multiset(t)[c])
      && ((forall k :: 0 <= k < |t| ==> !Kept(t[k])) ==> r == Placeholder)
  {
    var t := Cleaned(name);
    KeptSurvives(t);
    FilterCounts(Kept, t);
    if forall k :: 0 <= k < |t| ==> !Kept(t[k]) {
      NothingKept(t);
    }
  }

  lemma {:induction false} NothingKept(s: string)
    requires forall k :: 0 <= k < |s| ==> !Kept(s[k])
    ensures Filter(Kept, s) == []
  {
    if s != [] {
      NothingKept(s[1..]);
    }
  }

  lemma KeptSurvives(s: string)
    ensures (exists k :: 0 <= k < |s| && Kept(s[k])) ==> Filter(Kept, s) != []
  {
    if exists k :: 0 <= k < |s| && Kept(s[k]) {
      var k :| 0 <= k < |s| && Kept(s[k]);
      FilterCounts(Kept, s);
      assert s[k] in multiset(s);
    }
  }

  /** A name that keeps every character through the NUL removal and the strip is its own cleaned
      form. */
  lemma CleanedFixed(s: string)
    requires s != [] && !IsSpace(s[0]) && !IsSpace(s[|s| - 1])
    requires forall k :: 0 <= k < |s| ==> s[k] != '\0'
    ensures Cleaned(s) == s
  {
    FilterKeepsAll(NotNul, s);
    StripFixed(s);
  }

  lemma KeptOfControlName()
    ensures Filter(Kept, "na\U{1}me") == "name"
  {
    assert "na\U{1}me" == "na" + "\U{1}me";
    FilterAppend(Kept, "na", "\U{1}me");
    FilterKeepsAll(Kept, "na");
    assert "\U{1}me"[1..] == "me";
    FilterKeepsAll(Kept, "me");
  }

  /** The example a header cell "na\x01me" gives: the control character goes, the rest stays. */
  lemma SanitizeDropsControl()
    ensures SanitizeColumnName("na\U{1}me") == "name"
  {
    CleanedFixed("na\U{1}me");
    KeptOfControlName();
  }

  lemma KeptOfShieldedSpace()
    ensures Filter(Kept, "\U{1} a") == " a"
  {
    assert "\U{1} a"[1..] == " a";
    FilterKeepsAll(Kept, " a");
  }

  lemma CleanedOfSpace()
    ensures Cleaned(" a") == "a"
  {
    FilterKeepsAll(NotNul, " a");
    assert " a"[1..] == "a" && IsSpace(' ') && !IsSpace('a');
    assert TrimStart("a") == "a";
    assert TrimStart(" a") == "a";
    assert TrimEnd("a") == "a";
  }

  /** Sanitising is not idempotent: a space shielded by a control character is stripped only on the
      second pass. */
  lemma SanitizeNotIdempotent()
    ensures SanitizeColumnName("\U{1} a") == " a"
    ensures SanitizeColumnName(" a") == "a"
  {
    CleanedFixed("\U{1} a");
    KeptOfShieldedSpace();
    CleanedOfSpace();
    FilterKeepsAll(Kept, "a");
  }

  lemma CleanedOfKept(r: string)
    requires forall k :: 0 <= k < |r| ==> Kept(r[k]) && r[k] != '\0'
    ensures SanitizeColumnName(r) == if Strip(r) == [] then Placeholder else Strip(r)
  {
    FilterKeepsAll(NotNul, r);
    var u := Strip(r);
    assert forall k :: 0 <= k < |u| ==> Kept(u[k]);
    FilterKeepsAll(Kept, u);
  }

  lemma PlaceholderClean()
    ensures Strip(Placeholder) == Placeholder
  {
    assert !IsSpace(Placeholder[0]) && !IsSpace(Placeholder[|Placeholder| - 1]);
    StripFixed(Placeholder);
  }

  lemma FixedPointCases(r: string, r2: string, u: string)
    requires r != [] && u == Strip(r)
    requires r2 == if u == [] then Placeholder else u
    ensures r2 == r <==> u == r
  {
    if u == [] {
      PlaceholderClean();
    }
  }

  lemma KeptFixedPoint(r: string)
    requires r != [] && forall k :: 0 <= k < |r| ==> Kept(r[k])
    ensures SanitizeColumnName(r) == r <==> Strip(r) == r
  {
    CleanedOfKept(r);
    FixedPointCases(r, SanitizeColumnName(r), Strip(r));
  }

  /** A sanitised name is a fixed point of the sanitiser exactly when it has no leading or trailing
      whitespace. */
  lemma SanitizeIdempotentIff(name: string)
    ensures SanitizeColumnName(SanitizeColumnName(name)) == SanitizeColumnName(name)
            <==> Strip(SanitizeColumnName(name)) == SanitizeColumnName(name)
  {
    KeptFixedPoint(SanitizeColumnName(name));
  }

  /** A control character that str.strip() does not treat as whitespace; only these can shield
      whitespace from the strip. */
  predicate HiddenControl(c: char) { 1 <= c as int < 32 && !IsSpace(c) }

  lemma {:induction false} FilterLast(keep: char -> bool, s: string)
    requires s != [] && keep(s[|s| - 1])
    ensures Filter(keep, s) != [] && Filter(keep, s)[|Filter(keep, s)| - 1] == s[|s| - 1]
  {
    assert s == s[..|s| - 1] + [s[|s| - 1]];
    FilterAppend(keep, s[..|s| - 1], [s[|s| - 1]]);
    assert Filter(keep, [s[|s| - 1]]) == [s[|s| - 1]];
  }

  lemma {:induction false} RemoveNulChars(s: string)
    ensures forall c :: c in RemoveNul(s) ==> c in s && c != '\0'
  {
    if s != [] {
      RemoveNulChars(s[1..]);
      forall c | c in RemoveNul(s) ensures c in s && c != '\0' {
        if s[0] != '\0' {
          assert RemoveNul(s) == [s[0]] + RemoveNul(s[1..]);
        }
        assert c == s[0] || c in s[1..];
      }
    }
  }

  /** The cleaned name of a name without shielding characters begins and ends with a kept
      character. */
  lemma CleanedEnds(name: string)
    requires forall k :: 0 <= k < |name| ==> !HiddenControl(name[k])
    requires Cleaned(name) != []
    ensures Kept(Cleaned(name)[0]) && Kept(Cleaned(name)[|Cleaned(name)| - 1])
  {
    var t := Cleaned(name);
    RemoveNulChars(name);
    assert t[0] in RemoveNul(name);
    assert t[|t| - 1] in RemoveNul(name);
  }

  /** The sanitiser's output on a name whose cleaned form begins and ends with kept characters
      begins and ends with those same characters. */
  lemma KeptEnds(t: string)
    requires t != [] && Kept(t[0]) && Kept(t[|t| - 1])
    ensures Filter(Kept, t) != []
    ensures Filter(Kept, t)[0] == t[0] && Filter(Kept, t)[|Filter(Kept, t)| - 1] == t[|t| - 1]
  {
    FilterLast(Kept, t);
  }

  /** Without such shielding characters the sanitiser is idempotent: its output has no surrounding
      whitespace left to strip. */
  lemma SanitizeIdempotent(name: string)
    requires forall k :: 0 <= k < |name| ==> !HiddenControl(name[k])
    ensures SanitizeColumnName(SanitizeColumnName(name)) == SanitizeColumnName(name)
  {
    SanitizedStripped(name);
    SanitizeIdempotentIff(name);
  }

  lemma SanitizedStripped(name: string)
    requires forall k :: 0 <= k < |name| ==> !HiddenControl(name[k])
    ensures Strip(SanitizeColumnName(name)) == SanitizeColumnName(name)
  {
    var t := Cleaned(name);
    if t != [] {
      CleanedEnds(name);
      KeptEnds(t);
      StripFixed(Filter(Kept, t));
    } else {
      NothingKept(t);
      PlaceholderClean();
    }
  }

  /** A name that is already clean is left as it is. */
  lemma SanitizeClean(name: string)
    requires name != [] && !IsSpace(name[0]) && !IsSpace(name[|name| - 1])
    requires forall k :: 0 <= k < |name| ==> Kept(name[k]) && name[k] != '\0'
    ensures SanitizeColumnName(name) == name
  {
    CleanedOfKept(name);
    StripFixed(name);
  }

  // ----- Dispatch on the extension -----

  /** The text after the last '.' of `s`, or all of `s` when it has none (str.split('.')[-1]). */
  function AfterLastDot(s: string): (r: string)
    ensures |r| <= |s| && r == s[|s| - |r|..]
    ensures forall k :: 0 <= k < |r| ==> r[k] != '.'
    ensures |r| < |s| ==> s[|s| - |r| - 1] == '.'
  {
    if s == [] || s[|s| - 1] == '.' then []
    else
      var r := AfterLastDot(s[..|s| - 1]);
      assert s[..|s| - 1][|s| - 1 - |r|..] == s[|s| - 1 - |r|..|s| - 1];
      r + [s[|s| - 1]]
  }

  /** filename.lower().split('.')[-1]. */
  function Extension(filename: string): string {
    AfterLastDot(AsciiLower(filename))
  }

  predicate IsSpreadsheetName(filename: string) {
    Extension(filename) == "xlsx" || Extension(filename) == "xls"
  }

  /** The dispatch ignores case, and a name without any '.' is its own extension. */
  lemma DispatchRules(filename: string)
    ensures IsSpreadsheetName(AsciiUpper(filename)) == IsSpreadsheetName(filename)
    ensures (forall k :: 0 <= k < |filename| ==> filename[k] != '.') ==> Extension(filename) == AsciiLower(filename)
  {
    LowerIgnoresCase(filename);
    var l := AsciiLower(filename);
    if forall k :: 0 <= k < |filename| ==> filename[k] != '.' {
      var r := AfterLastDot(l);
      forall k | 0 <= k < |l| ensures l[k] != '.' {
        assert l[k] == AsciiLowerChar(filename[k]);
      }
      assert |r| == |l|;
    }
  }

  /** The extension is what follows the last dot, whatever precedes it. */
  lemma {:induction false} AfterDot(a: string, e: string)
    requires forall k :: 0 <= k < |e| ==> e[k] != '.'
    ensures AfterLastDot(a + "." + e) == e
    decreases |e|
  {
    var s := a + "." + e;
    if e == [] {
      assert s[|s| - 1] == '.';
    } else {
      var e' := e[..|e| - 1];
      assert s[..|s| - 1] == a + "." + e';
      AfterDot(a, e');
      assert e == e' + [s[|s| - 1]];
    }
  }

  lemma {:induction false} ExtensionOf(base: string, ext: string, lower: string)
    requires |ext| == |lower|
    requires forall k :: 0 <= k < |ext| ==> ext[k] != '.' && AsciiLowerChar(ext[k]) == lower[k]
    ensures Extension(base + "." + ext) == lower
  {
    var l := AsciiLower(base + "." + ext);
    assert l == AsciiLower(base) + "." + lower;
    AfterDot(AsciiLower(base), lower);
  }

  /** The names the upload accepts as spreadsheets: any base, then ".xlsx" or ".xls" in any case. */
  lemma SpreadsheetByExtension(base: string)
    ensures IsSpreadsheetName(base + ".XLSX") && IsSpreadsheetName(base + ".xls")
    ensures !IsSpreadsheetName(base + ".csv")
  {
    ExtensionOf(base, "XLSX", "xlsx");
    ExtensionOf(base, "xls", "xls");
    ExtensionOf(base, "csv", "csv");
    assert base + ".XLSX" == base + "." + "XLSX";
    assert base + ".xls" == base + "." + "xls";
    assert base + ".csv" == base + "." + "csv";
  }

  // ----- The CSV branch -----

  /** str.replace('\r\n', '\n'). */
  function ReplaceCrLf(s: string): string {
    if s == [] then []
    else if |s| >= 2 && s[0] == '\r' && s[1] == '\n' then ['\n'] + ReplaceCrLf(s[2..])
    else [s[0]] + ReplaceCrLf(s[1..])
  }

  /** str.replace('\r', '\n'). */
  function ReplaceCr(s: string): (r: string)
    ensures |r| == |s|
  {
    seq(|s|, k requires 0 <= k < |s| => if s[k] == '\r' then '\n' else s[k])
  }

  /** The line-ending normalisation: '\r\n' first, then every bare '\r', become '\n'. */
  function NormalizeNewlines(s: string): (r: string)
    ensures forall k :: 0 <= k < |r| ==> r[k] != '\r'
  {
    ReplaceCr(ReplaceCrLf(s))
  }

  /** The three rewriting rules that determine the normalisation character by character. */
  lemma NormalizeRules(c: char, s: string)
    ensures NormalizeNewlines(['\r', '\n'] + s) == ['\n'] + NormalizeNewlines(s)
    ensures (s == [] || s[0] != '\n') ==> NormalizeNewlines(['\r'] + s) == ['\n'] + NormalizeNewlines(s)
    ensures c != '\r' ==> NormalizeNewlines([c] + s) == [c] + NormalizeNewlines(s)
  {
    assert (['\r', '\n'] + s)[2..] == s;
    assert ([c] + s)[1..] == s;
    assert (['\r'] + s)[1..] == s;
  }

  /** Where `a` opens with '\r\n', the pair is rewritten whatever follows `a`. */
  lemma CrLfPairHead(a: string, b: string)
    requires |a| >= 2 && a[0] == '\r' && a[1] == '\n'
    ensures ReplaceCrLf(a + b) == ['\n'] + ReplaceCrLf(a[2..] + b)
    ensures ReplaceCrLf(a) == ['\n'] + ReplaceCrLf(a[2..])
    ensures a[2..] == [] || a[2..][|a[2..]| - 1] == a[|a| - 1]
  {
    assert (a + b)[2..] == a[2..] + b;
  }

  /** Where `a` opens with any other character, that character is kept whatever follows `a`,
      provided `a` does not end with a '\r' that `b` could pair up. */
  lemma OtherCharHead(a: string, b: string)
    requires a != [] && a[|a| - 1] != '\r'
    requires !(|a| >= 2 && a[0] == '\r' && a[1] == '\n')
    ensures ReplaceCrLf(a + b) == [a[0]] + ReplaceCrLf(a[1..] + b)
    ensures ReplaceCrLf(a) == [a[0]] + ReplaceCrLf(a[1..])
    ensures a[1..] == [] || a[1..][|a[1..]| - 1] == a[|a| - 1]
  {
    var ab := a + b;
    assert ab[0] == a[0];
    assert !(|ab| >= 2 && ab[0] == '\r' && ab[1] == '\n') by {
      if |a| >= 2 { assert ab[1] == a[1]; }
    }
    assert ab[1..] == a[1..] + b;
  }

  lemma Assoc(x: string, y: string, z: string)
    ensures x + (y + z) == (x + y) + z
  {
  }

  lemma {:induction false} ReplaceCrLfAppend(a: string, b: string)
    requires a == [] || a[|a| - 1] != '\r'
    ensures ReplaceCrLf(a + b) == ReplaceCrLf(a) + ReplaceCrLf(b)
    decreases |a|
  {
    if a == [] {
      assert a + b == b;
    } else if |a| >= 2 && a[0] == '\r' && a[1] == '\n' {
      CrLfPairHead(a, b);
      ReplaceCrLfAppend(a[2..], b);
      Assoc(['\n'], ReplaceCrLf(a[2..]), ReplaceCrLf(b));
    } else {
      OtherCharHead(a, b);
      ReplaceCrLfAppend(a[1..], b);
      Assoc([a[0]], ReplaceCrLf(a[1..]), ReplaceCrLf(b));
    }
  }

  /** Normalising distributes over a split that does not separate a '\r' from its '\n'. */
  lemma NormalizeAppend(a: string, b: string)
    requires a == [] || a[|a| - 1] != '\r'
    ensures NormalizeNewlines(a + b) == NormalizeNewlines(a) + NormalizeNewlines(b)
  {
    ReplaceCrLfAppend(a, b);
    assert ReplaceCr(ReplaceCrLf(a) + ReplaceCrLf(b)) == ReplaceCr(ReplaceCrLf(a)) + ReplaceCr(ReplaceCrLf(b));
  }

  /** Text that has no '\r' is left alone, so normalising twice is normalising once. */
  lemma {:induction false} NormalizeFixed(s: string)
    requires forall k :: 0 <= k < |s| ==> s[k] != '\r'
    ensures NormalizeNewlines(s) == s
  {
    if s != [] {
      NormalizeFixed(s[1..]);
      NormalizeRules(s[0], s[1..]);
      assert s == [s[0]] + s[1..];
    }
  }

  /** The header list as line 64 builds it: each cell sanitised, falsy results dropped. */
  function SanitizeTruthy(cells: seq<string>): seq<string> {
    if cells == [] then []
    else
      (if SanitizeColumnName(cells[0]) != [] then [SanitizeColumnName(cells[0])] else [])
      + SanitizeTruthy(cells[1..])
  }

  /** [f(c) for c in cells]. */
  function MapNames(f: string -> string, cells: seq<string>): (r: seq<string>)
    ensures |r| == |cells|
    ensures forall i :: 0 <= i < |cells| ==> r[i] == f(cells[i])
  {
    if cells == [] then []
    else
      var rest := MapNames(f, cells[1..]);
      assert forall i :: 1 <= i < |cells| ==> cells[i] == cells[1..][i - 1];
      [f(cells[0])] + rest
  }

  /** [sanitize_column_name(str(c)) for c in labels]: one sanitised name per cell, in order. */
  function SanitizeAll(cells: seq<string>): (r: seq<string>)
    ensures |r| == |cells|
    ensures forall i :: 0 <= i < |cells| ==> r[i] == SanitizeColumnName(cells[i])
  {
    MapNames(SanitizeColumnName, cells)
  }

  /** The truthiness filter never drops a cell, because the sanitiser never returns "". */
  lemma {:induction false} FilterDropsNothing(cells: seq<string>)
    ensures SanitizeTruthy(cells) == SanitizeAll(cells)
  {
    if cells != [] {
      FilterDropsNothing(cells[1..]);
    }
  }

  const CsvCodecs: seq<Codec> := [Utf8, Utf8Sig, Latin1, Cp1252]

  /** The decoded text of the CSV branch, before normalisation: the first codec that succeeds, or
      UTF-8 ignoring errors when none does. */
  function DecodeCsvText(content: seq<byte>): string {
    match DecodeFirst(CsvCodecs, content)
    case Some(t) => t
    case None => Utf8DecodeIgnore(content)
  }

  /** Only two codecs can ever win: UTF-8 when the bytes are UTF-8, Latin-1 otherwise. UTF-8 with
      signature and Windows-1252 are never used, and neither is the errors='ignore' fallback. */
  lemma DecodeCsvTextChoice(content: seq<byte>)
    ensures DecodeFirst(CsvCodecs, content).Some?
    ensures DecodeCsvText(content)
         == if Utf8Decode(content).Some? then Utf8Decode(content).value else Latin1Decode(content)
  {
    Utf8SigNeverWins(content);
    Latin1Total(content);
    assert CsvCodecs[0] == Utf8 && CsvCodecs[1..] == [Utf8Sig, Latin1, Cp1252];
    assert [Utf8Sig, Latin1, Cp1252][1..] == [Latin1, Cp1252];
    assert DecodeFirst([Latin1, Cp1252], content) == Some(Latin1Decode(content));
    assert DecodeFirst([Utf8Sig, Latin1, Cp1252], content)
        == if Utf8SigDecode(content).Some? then Utf8SigDecode(content) else Some(Latin1Decode(content));
  }

  /** Because UTF-8 wins before UTF-8-with-signature, a byte-order mark is not removed: it stays at
      the head of the text as U+FEFF, which the sanitiser keeps. */
  lemma BomIsKept(rest: seq<byte>)
    requires Utf8Decode(rest).Some?
    ensures DecodeCsvText(Bom + rest) == ['\U{FEFF}'] + Utf8Decode(rest).value
    ensures Kept('\U{FEFF}') && !IsSpace('\U{FEFF}')
  {
    Utf8OfBom(rest);
    DecodeCsvTextChoice(Bom + rest);
  }

  /** The text handed to the CSV reader. */
  function CsvText(content: seq<byte>): (text: string)
    ensures forall k :: 0 <= k < |text| ==> text[k] != '\0' && text[k] != '\r'
  {
    var noNul := RemoveNul(DecodeCsvText(content));
    var text := NormalizeNewlines(noNul);
    assert forall k :: 0 <= k < |text| ==> text[k] != '\0' by {
      var t1 := ReplaceCrLf(noNul);
      assert forall c :: c in t1 ==> c == '\n' || c in noNul by {
        ReplaceCrLfChars(noNul);
      }
      forall k | 0 <= k < |text| ensures text[k] != '\0' {
        assert text[k] == '\n' || text[k] == t1[k];
        if text[k] != '\n' {
          assert t1[k] in t1;
          assert t1[k] in noNul;
          assert multiset(noNul)[t1[k]] > 0;
        }
      }
    }
    text
  }

  lemma {:induction false} ReplaceCrLfChars(s: string)
    ensures forall c :: c in ReplaceCrLf(s) ==> c == '\n' || c in s
  {
    if s != [] {
      if |s| >= 2 && s[0] == '\r' && s[1] == '\n' {
        ReplaceCrLfChars(s[2..]);
      } else {
        ReplaceCrLfChars(s[1..]);
      }
    }
  }

  const ErrorPrefix := "Error processing file '"

  function ProcessingError(filename: string, cause: string): string {
    ErrorPrefix + filename + "': " + cause
  }

  /** The CSV branch: the sanitised cells of the first record, or the reader's error. */
  function CsvColumns(content: seq<byte>): Result<seq<string>, string> {
    var record :- FirstRecord(CsvText(content));
    Ok(SanitizeTruthy(record))
  }

  /** extract_columns_from_file as a function of its inputs. `readExcelHeader` stands for
      pd.read_excel(..., nrows=0): the header labels rendered with str(), or the message of the
      exception it raised. */
  function Extracted(content: seq<byte>, filename: string, readExcelHeader: seq<byte> -> Result<seq<string>, string>)
    : Result<FileInfo, string>
  {
    var columns :=
      if IsSpreadsheetName(filename) then
        match readExcelHeader(content)
        case Ok(labels) => Ok(SanitizeAll(labels))
        case Err(e) => Err(e)
      else CsvColumns(content);
    match columns
    case Ok(cs) => Ok(FileInfo(filename, cs))
    case Err(e) => Err(ProcessingError(filename, e))
  }

  /** The outcome of an extraction: the same filename and one sanitised column per cell of the
      header (the first CSV record, or the spreadsheet labels); on failure, a message that names
      the file. */
  lemma ExtractedShape(content: seq<byte>, filename: string, readExcelHeader: seq<byte> -> Result<seq<string>, string>)
    ensures var r := Extracted(content, filename, readExcelHeader);
      && (r.Ok? ==> r.value.filename == filename)
      && (r.Ok? && !IsSpreadsheetName(filename) ==>
            FirstRecord(CsvText(content)).Ok?
            && r.value.columns == SanitizeAll(FirstRecord(CsvText(content)).value))
      && (r.Ok? && IsSpreadsheetName(filename) ==>
            readExcelHeader(content).Ok? && r.value.columns == SanitizeAll(readExcelHeader(content).value))
      && (r.Err? ==> |r.error| > |ErrorPrefix| + |filename| && r.error[|ErrorPrefix|..|ErrorPrefix| + |filename|] == filename)
      && (r.Err? <==>
            if IsSpreadsheetName(filename) then readExcelHeader(content).Err?
            else FirstRecord(CsvText(content)).Err?)
  {
    var r := Extracted(content, filename, readExcelHeader);
    if IsSpreadsheetName(filename) {
      match readExcelHeader(content)
      case Ok(labels) =>
        assert r == Ok(FileInfo(filename, SanitizeAll(labels)));
      case Err(e) =>
        assert r == Err(ProcessingError(filename, e));
        ProcessingErrorPrefix(filename, e);
    } else {
      match FirstRecord(CsvText(content))
      case Ok(record) =>
        FilterDropsNothing(record);
        assert r == Ok(FileInfo(filename, SanitizeTruthy(record)));
      case Err(e) =>
        assert r == Err(ProcessingError(filename, e));
        ProcessingErrorPrefix(filename, e);
    }
  }

  /** The message of a failure starts with a fixed prefix, then names the file. */
  lemma ProcessingErrorPrefix(filename: string, cause: string)
    ensures var m := ProcessingError(filename, cause);
      |m| > |ErrorPrefix| + |filename| && m[..|ErrorPrefix|] == ErrorPrefix
      && m[|ErrorPrefix|..|ErrorPrefix| + |filename|] == filename
  {
    var m := ProcessingError(filename, cause);
    assert m == ErrorPrefix + (filename + ("': " + cause));
  }

  /** A failure is reported as "Error processing file '<filename>': <cause>", the cause being the
      reader's or the CSV parser's own message. */
  lemma ExtractedErrorMessage(content: seq<byte>, filename: string, readExcelHeader: seq<byte> -> Result<seq<string>, string>)
    ensures var r := Extracted(content, filename, readExcelHeader);
      r.Err? ==>
        && r.error == ProcessingError(filename,
             if IsSpreadsheetName(filename) then readExcelHeader(content).error else FirstRecord(CsvText(content)).error)
        && |r.error| >= |ErrorPrefix| && r.error[..|ErrorPrefix|] == ErrorPrefix
  {
    var r := Extracted(content, filename, readExcelHeader);
    if r.Err? {
      var cause := if IsSpreadsheetName(filename) then readExcelHeader(content).error else FirstRecord(CsvText(content)).error;
      if IsSpreadsheetName(filename) {
        assert readExcelHeader(content).Err?;
      } else {
        assert CsvColumns(content) == Err(cause);
      }
      ProcessingErrorPrefix(filename, cause);
    }
  }

  /** A clean column name: printable ASCII without comma or quote, no surrounding spaces. */
  predicate CleanAsciiName(f: string) {
    && 1 <= |f| <= FieldLimit
    && f[0] != ' ' && f[|f| - 1] != ' '
    && forall k :: 0 <= k < |f| ==> 32 <= f[k] as int < 127 && PlainChar(f[k])
  }

  function AsciiBytes(s: string): (b: seq<byte>)
    requires forall k :: 0 <= k < |s| ==> s[k] as int < 128
    ensures |b| == |s| && forall k :: 0 <= k < |s| ==> b[k] < 0x80 && b[k] as int == s[k] as int
  {
    seq(|s|, k requires 0 <= k < |s| => s[k] as int as byte)
  }

  lemma {:induction false} JoinChars(fs: seq<string>)
    requires forall i :: 0 <= i < |fs| ==> CleanAsciiName(fs[i])
    ensures forall k :: 0 <= k < |Join(fs)| ==> 32 <= Join(fs)[k] as int < 127
  {
    if |fs| > 1 {
      JoinChars(fs[1..]);
      var j := Join(fs);
      forall k | 0 <= k < |j| ensures 32 <= j[k] as int < 127 {
        if k < |fs[0]| {
          assert j[k] == fs[0][k];
        } else if k > |fs[0]| {
          assert j[k] == Join(fs[1..])[k - |fs[0]| - 1];
        }
      }
    } else if |fs| == 1 {
      assert Join(fs) == fs[0];
    }
  }

  /** An ASCII prefix survives decoding unchanged, whichever codec the rest of the bytes needs. */
  lemma DecodeAsciiPrefix(h: string, rows: seq<byte>)
    requires forall k :: 0 <= k < |h| ==> h[k] as int < 128
    ensures DecodeCsvText(AsciiBytes(h) + rows) == h + DecodeCsvText(rows)
  {
    var a := AsciiBytes(h);
    assert Latin1Decode(a) == h;
    DecodeCsvTextChoice(a + rows);
    DecodeCsvTextChoice(rows);
    Utf8AsciiPrefix(a, rows);
    Latin1Append(a, rows);
  }

  lemma AsciiPrefixText(h: string, rows: seq<byte>)
    requires forall k :: 0 <= k < |h| ==> h[k] as int < 128 && h[k] != '\0' && h[k] != '\r'
    ensures CsvText(AsciiBytes(h) + rows) == h + CsvText(rows)
  {
    var rest := DecodeCsvText(rows);
    DecodeAsciiPrefix(h, rows);
    FilterAppend(NotNul, h, rest);
    FilterKeepsAll(NotNul, h);
    NormalizeAppend(h, RemoveNul(rest));
    NormalizeFixed(h);
  }

  lemma CleanNamesJoin(fs: seq<string>)
    requires |fs| >= 1 && forall i :: 0 <= i < |fs| ==> CleanAsciiName(fs[i])
    ensures Join(fs) != []
    ensures forall k :: 0 <= k < |Join(fs) + "\n"| ==>
      (Join(fs) + "\n")[k] as int < 128 && (Join(fs) + "\n")[k] != '\0' && (Join(fs) + "\n")[k] != '\r'
  {
    JoinChars(fs);
    if |fs| == 1 { assert Join(fs) == fs[0]; } else { assert Join(fs)[0] == fs[0][0]; }
  }

  lemma CleanNamesSurvive(fs: seq<string>)
    requires forall i :: 0 <= i < |fs| ==> CleanAsciiName(fs[i])
    ensures SanitizeTruthy(fs) == fs
  {
    FilterDropsNothing(fs);
    var r := SanitizeAll(fs);
    forall i | 0 <= i < |fs| ensures r[i] == fs[i] {
      CleanNameFixed(fs[i]);
    }
  }

  lemma CleanNameFixed(f: string)
    requires CleanAsciiName(f)
    ensures SanitizeColumnName(f) == f
  {
    assert forall k :: 0 <= k < |f| ==> Kept(f[k]) && f[k] != '\0';
    assert !IsSpace(f[0]) && !IsSpace(f[|f| - 1]);
    SanitizeClean(f);
  }

  /** Decoding a header of clean names followed by any rows keeps the header as it is. */
  lemma CleanHeaderText(fs: seq<string>, rows: seq<byte>)
    requires |fs| >= 1 && forall i :: 0 <= i < |fs| ==> CleanAsciiName(fs[i])
    requires forall k :: 0 <= k < |Join(fs) + "\n"| ==>
      (Join(fs) + "\n")[k] as int < 128 && (Join(fs) + "\n")[k] != '\0' && (Join(fs) + "\n")[k] != '\r'
    ensures CsvText(AsciiBytes(Join(fs) + "\n") + rows) == Join(fs) + ("\n" + CsvText(rows))
  {
    var h := Join(fs) + "\n";
    AsciiPrefixText(h, rows);
    assert h + CsvText(rows) == Join(fs) + ("\n" + CsvText(rows));
  }

  /** A line of clean names is read back as those names. */
  lemma CleanHeaderRecord(fs: seq<string>, tail: string)
    requires |fs| >= 1 && forall i :: 0 <= i < |fs| ==> CleanAsciiName(fs[i])
    requires EndsRecord(tail)
    ensures FirstRecord(Join(fs) + tail) == Ok(fs)
  {
    CleanNamesJoin(fs);
    forall i | 0 <= i < |fs| ensures PlainField(fs[i]) { }
    PlainHeaderRoundTrip(fs, tail);
  }

  lemma CleanHeaderColumns(fs: seq<string>, rows: seq<byte>)
    requires |fs| >= 1 && forall i :: 0 <= i < |fs| ==> CleanAsciiName(fs[i])
    requires forall k :: 0 <= k < |Join(fs) + "\n"| ==>
      (Join(fs) + "\n")[k] as int < 128 && (Join(fs) + "\n")[k] != '\0' && (Join(fs) + "\n")[k] != '\r'
    ensures CsvColumns(AsciiBytes(Join(fs) + "\n") + rows) == Ok(fs)
  {
    var tail := "\n" + CsvText(rows);
    CleanHeaderText(fs, rows);
    CleanHeaderRecord(fs, tail);
    CleanNamesSurvive(fs);
  }

  /** A CSV file whose first line is a header of clean ASCII names yields exactly those names as
      columns, whatever the bytes of the later rows (even when they are not UTF-8). */
  lemma CsvHeaderRoundTrip(fs: seq<string>, rows: seq<byte>, filename: string, readExcelHeader: seq<byte> -> Result<seq<string>, string>)
    requires |fs| >= 1 && forall i :: 0 <= i < |fs| ==> CleanAsciiName(fs[i])
    requires !IsSpreadsheetName(filename)
    ensures forall k :: 0 <= k < |Join(fs) + "\n"| ==> (Join(fs) + "\n")[k] as int < 128
    ensures Extracted(AsciiBytes(Join(fs) + "\n") + rows, filename, readExcelHeader) == Ok(FileInfo(filename, fs))
  {
    CleanNamesJoin(fs);
    CleanHeaderColumns(fs, rows);
  }

  /** extract_columns_from_file. The decode loop tries the codecs in order and stops at the first
      that succeeds; the result is the extraction function's. */
  method ExtractColumns(content: seq<byte>, filename: string, readExcelHeader: seq<byte> -> Result<seq<string>, string>)
    returns (r: Result<FileInfo, string>)
    ensures r == Extracted(content, filename, readExcelHeader)
  {
    var fileExt := Extension(filename);
    var columns: seq<string>;
    if fileExt == "xlsx" || fileExt == "xls" {
      var labels := readExcelHeader(content);
      if labels.Err? {
        return Err(ProcessingError(filename, labels.error));
      }
      columns := SanitizeAll(labels.value);
    } else {
      var decoded: Option<string> := None;
      var i := 0;
      while i < |CsvCodecs|
        invariant 0 <= i <= |CsvCodecs|
        invariant decoded == None
        invariant DecodeFirst(CsvCodecs[i..], content) == DecodeFirst(CsvCodecs, content)
      {
        var attempt := Decode(CsvCodecs[i], content);
        if attempt.Some? {
          decoded := attempt;
          break;
        }
        assert CsvCodecs[i..][1..] == CsvCodecs[i + 1..];
        i := i + 1;
      }
      if decoded.None? {
        decoded := Some(Utf8DecodeIgnore(content));
      }
      var text := decoded.value;
      text := RemoveNul(text);
      text := ReplaceCr(ReplaceCrLf(text));
      var record := FirstRecord(text);
      if record.Err? {
        return Err(ProcessingError(filename, record.error));
      }
      columns := SanitizeTruthy(record.value);
    }
    return Ok(FileInfo(filename, columns));
  }
}
