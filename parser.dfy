/** Vocabulary files (`parser.py`): the normalising `VocabularyEntry`
    record, format detection by extension and first line, the plain-text
    line parser and the walk over a decoded JSON document. Reading the
    file is outside the model: the parsers take the decoded text or
    JSON value. */
module Parser {
  import opened Common
  import opened Json
  import opened Records

  // ---------------------------------------------------------------
  // VocabularyEntry
  // ---------------------------------------------------------------

  /** A vocabulary entry. `synonyms` and `etymology` hold whatever value
      they were given (`Null` for Python's `None`). */
  datatype VocabularyEntry = VocabularyEntry(
    word: string,
    translation: string,
    example: Option<string>,
    synonyms: Value,
    etymology: Value)

  /** `VocabularyEntry(word, translation, example, synonyms, etymology)`:
      word and translation are stripped, an absent or empty example becomes
      `None` and a present one is stripped, falsy synonyms become `[]`. */
  function NewEntry(word: string, translation: string, example: Option<string>, synonyms: Value, etymology: Value): VocabularyEntry {
    VocabularyEntry(
      Strip(word),
      Strip(translation),
      if example.Some? && example.value != [] then Some(Strip(example.value)) else None,
      if Truthy(synonyms) then synonyms else Array([]),
      etymology)
  }

  /** What the constructor guarantees: word and translation carry no outer
      white space, the example is absent exactly when none or an empty one
      was given, and synonyms are never falsy other than as `[]`. */
  lemma NewEntryShape(word: string, translation: string, example: Option<string>, synonyms: Value, etymology: Value)
    ensures Strip(NewEntry(word, translation, example, synonyms, etymology).word) == Strip(word) == NewEntry(word, translation, example, synonyms, etymology).word
    ensures Strip(NewEntry(word, translation, example, synonyms, etymology).translation) == Strip(translation) == NewEntry(word, translation, example, synonyms, etymology).translation
    ensures NewEntry(word, translation, example, synonyms, etymology).example.None? <==> example.None? || example == Some("")
    ensures NewEntry(word, translation, example, synonyms, etymology).example.Some? ==>
              NewEntry(word, translation, example, synonyms, etymology).example.value == Strip(example.value)
    ensures Truthy(NewEntry(word, translation, example, synonyms, etymology).synonyms) || NewEntry(word, translation, example, synonyms, etymology).synonyms == Array([])
    ensures Truthy(synonyms) ==> NewEntry(word, translation, example, synonyms, etymology).synonyms == synonyms
    ensures NewEntry(word, translation, example, synonyms, etymology).etymology == etymology
  {
    var e := NewEntry(word, translation, example, synonyms, etymology);
    assert e.word == Strip(word) && e.translation == Strip(translation);
    StripIdempotent(word);
    StripIdempotent(translation);
    if example.Some? && example.value != [] {
      assert e.example == Some(Strip(example.value));
    } else {
      assert e.example.None?;
    }
  }

  /** `VocabularyEntry.to_dict`. */
  function EntryToDict(e: VocabularyEntry): (d: EntryDict)
    ensures d.word == Some(e.word) && d.translation == Some(e.translation)
    ensures d.example == e.example && d.synonyms == e.synonyms && d.etymology == e.etymology
  {
    EntryDict(Some(e.word), Some(e.translation), e.example, e.synonyms, e.etymology)
  }

  /** `VocabularyEntry.from_dict` on a stored entry: a missing word or
      translation reads as the empty string. */
  function EntryFromDict(d: EntryDict): (e: VocabularyEntry)
    ensures d.word.None? ==> e.word == []
    ensures d.translation.None? ==> e.translation == []
    ensures d.example.None? ==> e.example.None?
  {
    NewEntry(d.word.GetOr(""), d.translation.GetOr(""), d.example, d.synonyms, d.etymology)
  }

  /** Storing an entry and reading it back gives the same entry, except for
      an example made only of white space: the constructor keeps it as the
      empty string, which reads back as no example. */
  lemma {:induction false} EntryRoundTrip(word: string, translation: string, example: Option<string>, synonyms: Value, etymology: Value)
    ensures var e := NewEntry(word, translation, example, synonyms, etymology);
      EntryFromDict(EntryToDict(e)) == e <==> e.example != Some("")
  {
    var e := NewEntry(word, translation, example, synonyms, etymology);
    NewEntryShape(word, translation, example, synonyms, etymology);
    var back := EntryFromDict(EntryToDict(e));
    assert back == NewEntry(e.word, e.translation, e.example, e.synonyms, e.etymology);
    assert back.word == e.word && back.translation == e.translation;
    assert back.synonyms == e.synonyms && back.etymology == e.etymology;
    if e.example.Some? && e.example.value != [] {
      StripIdempotent(example.value);
      assert back.example == Some(Strip(e.example.value)) == e.example;
    }
  }

  // ---------------------------------------------------------------
  // Format detection
  // ---------------------------------------------------------------

  datatype Format = CSV | JSON | TSV | TXT

  /** `Path(p).suffix.lower().lstrip(".")`: the text after the last dot of
      the last path component, when that dot is neither the component's
      first nor its last character. */
  function Extension(path: string): string {
    var name := path[LastIndexOf(path, '/') + 1..];
    var i := LastIndexOf(name, '.');
    if 0 < i < |name| - 1 then LowerAscii(name[i + 1..]) else ""
  }

  /** The first line as `readline().strip()` sees it: universal newlines
      end a line at the first `\n` or `\r`. */
  function FirstLine(content: string): (line: string)
    ensures forall k :: 0 <= k < |line| ==> line[k] != '\n' && line[k] != '\r'
    ensures |line| <= |content| && line == content[..|line|]
    ensures |line| < |content| ==> content[|line|] == '\n' || content[|line|] == '\r'
  {
    if content == [] || content[0] == '\n' || content[0] == '\r' then []
    else [content[0]] + FirstLine(content[1..])
  }

  /** The format an extension names, if it names one (`detect_format`
      compares the lower-cased suffix with these five). */
  function ExtensionFormat(ext: string): Option<Format> {
    if ext == "csv" then Some(CSV)
    else if ext == "json" then Some(JSON)
    else if ext == "tsv" then Some(TSV)
    else if ext == "txt" || ext == "text" then Some(TXT)
    else None
  }

  /** The format the first line of the content suggests; a file that
      cannot be read is taken as text. */
  function ContentFormat(content: Option<string>): Format {
    match content
    case None => TXT
    case Some(c) => LineFormat(Strip(FirstLine(c)))
  }

  /** The format a stripped first line suggests. */
  function LineFormat(first: string): Format {
    if StartsWith(first, "[") then JSON
    else if Contains(first, ",") && !StartsWith(first, "#") then CSV
    else if Contains(first, "\t") then TSV
    else TXT
  }

  /** `detect_format`. `content` is the decoded file, or `None` when it
      cannot be opened or decoded (the source then falls back to txt). */
  function DetectFormat(path: string, content: Option<string>): Format {
    match ExtensionFormat(Extension(path))
    case Some(f) => f
    case None => ContentFormat(content)
  }

  predicate KnownExtension(path: string) {
    Extension(path) in ["csv", "json", "tsv", "txt", "text"]
  }

  /** A known extension decides the format without looking at the content;
      the comparison ignores (ASCII) case. */
  lemma ExtensionDecides(path: string, c1: Option<string>, c2: Option<string>)
    requires KnownExtension(path)
    ensures DetectFormat(path, c1) == DetectFormat(path, c2)
    ensures DetectFormat(path, c1) == match Extension(path)
      case "csv" => CSV case "json" => JSON case "tsv" => TSV case _ => TXT
  {
    var ext := Extension(path);
    assert ext == "csv" || ext == "json" || ext == "tsv" || ext == "txt" || ext == "text";
    assert ExtensionFormat(ext).Some?;
  }

  /** The last component of `dir + name`, where `dir` is empty or ends at
      a slash and `name` holds none, is `name`. */
  lemma LastComponent(dir: string, name: string)
    requires dir == [] || dir[|dir| - 1] == '/'
    requires '/' !in name
    ensures LastIndexOf(dir + name, '/') == |dir| - 1
    ensures (dir + name)[|dir|..] == name
  {
    var path := dir + name;
    assert forall k :: |dir| <= k < |path| ==> path[k] == name[k - |dir|];
    LastIndexAt(path, '/', |dir| - 1);
  }

  /** The last dot of `stem + "." + ext`, where `ext` holds none, is the
      one between them. */
  lemma LastDot(stem: string, ext: string)
    requires '.' !in ext
    ensures LastIndexOf(stem + "." + ext, '.') == |stem|
    ensures (stem + "." + ext)[|stem| + 1..] == ext
  {
    var name := stem + "." + ext;
    assert name[|stem|] == '.';
    assert name[|stem| + 1..] == ext;
    forall k | |stem| < k < |name|
      ensures name[k] != '.'
    {
      assert name[k] == ext[k - |stem| - 1];
    }
    LastIndexAt(name, '.', |stem|);
  }

  /** The extension of `dir + stem + "." + ext`, where `dir` is empty or
      ends at a slash: the lower-cased `ext`, or nothing when `stem` or
      `ext` is empty (a leading or trailing dot is not a suffix). */
  lemma ExtensionOf(dir: string, stem: string, ext: string)
    requires dir == [] || dir[|dir| - 1] == '/'
    requires '/' !in stem && '/' !in ext && '.' !in ext
    ensures Extension(dir + stem + "." + ext) == if stem != [] && ext != [] then LowerAscii(ext) else ""
  {
    var path := dir + stem + "." + ext;
    assert path[LastIndexOf(path, '/') + 1..] == stem + "." + ext by {
      assert path == dir + (stem + "." + ext);
      LastComponent(dir, stem + "." + ext);
    }
    NameExtension(path, stem, ext);
  }

  /** A last component without a dot has no extension. */
  lemma NoDotNoExtension(dir: string, name: string)
    requires dir == [] || dir[|dir| - 1] == '/'
    requires '/' !in name && '.' !in name
    ensures Extension(dir + name) == ""
  {
    var path := dir + name;
    LastComponent(dir, name);
    LastIndexAt(name, '.', -1);
    ExtensionAt(path, name, -1);
  }

  /** The extension of a path whose last component is `stem + "." + ext`. */
  lemma NameExtension(path: string, stem: string, ext: string)
    requires '.' !in ext
    requires path[LastIndexOf(path, '/') + 1..] == stem + "." + ext
    ensures Extension(path) == if stem != [] && ext != [] then LowerAscii(ext) else ""
  {
    var name := stem + "." + ext;
    LastDot(stem, ext);
    ExtensionAt(path, name, |stem|);
  }

  /** The extension, read off the last component and its last dot. */
  lemma ExtensionAt(path: string, name: string, i: int)
    requires path[LastIndexOf(path, '/') + 1..] == name
    requires LastIndexOf(name, '.') == i
    ensures Extension(path) == if 0 < i < |name| - 1 then LowerAscii(name[i + 1..]) else ""
  {
  }

  /** Without a known extension the first line decides: a leading "[" is
      JSON, a comma on a line not starting with "#" is CSV, a tab is TSV,
      anything else, and an unreadable file, is TXT. */
  lemma ContentRules(path: string, content: string)
    requires !KnownExtension(path)
    ensures var first := Strip(FirstLine(content));
      && (DetectFormat(path, Some(content)) == JSON <==> StartsWith(first, "["))
      && (DetectFormat(path, Some(content)) == CSV <==>
            !StartsWith(first, "[") && Contains(first, ",") && !StartsWith(first, "#"))
      && (DetectFormat(path, Some(content)) == TSV <==>
            !StartsWith(first, "[") && !(Contains(first, ",") && !StartsWith(first, "#")) && Contains(first, "\t"))
    ensures DetectFormat(path, None) == TXT
  {
    var ext := Extension(path);
    assert ext != "csv" && ext != "json" && ext != "tsv" && ext != "txt" && ext != "text";
    assert ExtensionFormat(ext).None?;
    var first := Strip(FirstLine(content));
    assert DetectFormat(path, Some(content)) == LineFormat(first);
  }

  // ---------------------------------------------------------------
  // Plain-text files
  // ---------------------------------------------------------------

  /** The separators `_parse_txt` tries, in order: spaced en dash, spaced
      em dash, spaced pipe, colon, comma, tab. */
  const SEPARATORS: seq<string> := [" \U{2013} ", " \U{2014} ", " | ", ":", ",", "\t"]

  /** The position in `SEPARATORS` of the first separator, from `j` on,
      that occurs in `line`. */
  function FindSeparator(line: string, j: nat): (r: Option<nat>)
    requires j <= |SEPARATORS|
    decreases |SEPARATORS| - j
    ensures r.Some? ==> j <= r.value < |SEPARATORS| && Contains(line, SEPARATORS[r.value])
    ensures r.Some? ==> forall k :: j <= k < r.value ==> !Contains(line, SEPARATORS[k])
    ensures r.None? ==> forall k :: j <= k < |SEPARATORS| ==> !Contains(line, SEPARATORS[k])
  {
    if j == |SEPARATORS| then None
    else if Contains(line, SEPARATORS[j]) then Some(j)
    else FindSeparator(line, j + 1)
  }

  /** What one line yields before the empty-word fallback. */
  datatype LineParts = LineParts(word: string, translation: string, example: Option<string>)

  /** Splitting a stripped line at the first occurrence of `sep`: the word
      before it; after it, a translation with an example in parentheses, or
      after a semicolon, or no example. */
  function SplitAt(line: string, sep: string): (p: LineParts)
    requires Contains(line, sep)
    ensures p.word == Strip(Before(line, sep))
  {
    var word := Strip(Before(line, sep));
    var rest := Strip(After(line, sep));
    if Contains(rest, "(") && Contains(rest, ")") then
      LineParts(word, Strip(Before(rest, "(")), Some(Strip(Before(Before(After(rest, "("), "("), ")"))))
    else if Contains(rest, ";") then
      LineParts(word, Strip(Before(rest, ";")), Some(Strip(After(rest, ";"))))
    else
      LineParts(word, rest, None)
  }

  /** The first `c` in `s` is at index `i`. */
  predicate FirstAt(s: string, c: char, i: int) {
    0 <= i < |s| && s[i] == c && c !in s[..i]
  }

  /** The text after the bracket at `i` runs to `j`: to the next "(" or
      ")", or to the end. */
  predicate ExampleEnd(s: string, i: int, j: int) {
    0 <= i < j <= |s| && '(' !in s[i + 1..j] && ')' !in s[i + 1..j]
    && (j == |s| || s[j] == '(' || s[j] == ')')
  }

  /** The three rules for the rest of a line after the separator: with both
      brackets in it, the translation is the text before the first "(" and
      the example the text after it up to the next bracket; otherwise, with
      a ";", the text before and after the first ";"; otherwise the whole
      rest is the translation and there is no example. */
  lemma SplitRules(line: string, sep: string)
    requires Contains(line, sep)
    ensures var rest := Strip(After(line, sep));
      var p := SplitAt(line, sep);
      && ('(' in rest && ')' in rest ==>
            exists i, j :: FirstAt(rest, '(', i) && ExampleEnd(rest, i, j)
              && p.translation == Strip(rest[..i]) && p.example == Some(Strip(rest[i + 1..j])))
      && (!('(' in rest && ')' in rest) && ';' in rest ==>
            exists i :: FirstAt(rest, ';', i)
              && p.translation == Strip(rest[..i]) && p.example == Some(Strip(rest[i + 1..])))
      && (!('(' in rest && ')' in rest) && ';' !in rest ==>
            p.translation == rest && p.example.None?)
  {
    var rest := Strip(After(line, sep));
    SplitAtChar(rest, '(');
    SplitAtChar(rest, ')');
    SplitAtChar(rest, ';');
    if '(' in rest && ')' in rest {
      BracketSplit(rest);
    } else if ';' in rest {
      assert FirstAt(rest, ';', CharIndex(rest, ';'));
    }
  }

  /** `rest.split("(")[0]` and `rest.split("(")[1].split(")")[0]`, read
      off the positions of the brackets. */
  lemma BracketSplit(rest: string)
    requires '(' in rest
    ensures Contains(rest, "(")
    ensures exists i, j ::
              && FirstAt(rest, '(', i) && ExampleEnd(rest, i, j)
              && Before(rest, "(") == rest[..i]
              && Before(Before(After(rest, "("), "("), ")") == rest[i + 1..j]
  {
    SplitAtChar(rest, '(');
    var i := CharIndex(rest, '(');
    var tail := rest[i + 1..];
    assert After(rest, "(") == tail;
    ExampleCut(tail);
    var n := ExampleLength(tail);
    var j := i + 1 + n;
    assert tail[..n] == rest[i + 1..j];
    assert ExampleEnd(rest, i, j) by {
      if n < |tail| {
        assert rest[j] == tail[n];
      }
    }
    assert FirstAt(rest, '(', i);
  }

  /** The length of the example in the text after a "(": up to the next
      "(" or ")", or to the end. */
  function ExampleLength(tail: string): nat {
    CharIndex(tail[..CharIndex(tail, '(')], ')')
  }

  /** `tail.split("(")[0].split(")")[0]` is the text before the next
      bracket. */
  lemma ExampleCut(tail: string)
    ensures var n := ExampleLength(tail);
      && n <= |tail| && Before(Before(tail, "("), ")") == tail[..n]
      && '(' !in tail[..n] && ')' !in tail[..n]
      && (n == |tail| || tail[n] == '(' || tail[n] == ')')
  {
    SplitAtChar(tail, '(');
    var m := CharIndex(tail, '(');
    var seg := tail[..m];
    SplitAtChar(seg, ')');
    var n := CharIndex(seg, ')');
    assert seg[..n] == tail[..n];
    if n == |seg| && m < |tail| {
      assert tail[n] == '(';
    } else if n < |seg| {
      assert tail[n] == seg[n];
    }
  }

  predicate Skipped(line: string) {
    Strip(line) == [] || StartsWith(Strip(line), "#")
  }

  /** The entry one line of a text file gives, if any. */
  function ParseLine(raw: string): (r: Option<VocabularyEntry>)
    ensures r.None? <==> Skipped(raw)
  {
    var line := Strip(raw);
    if line == [] || StartsWith(line, "#") then None
    else
      var parts := match FindSeparator(line, 0)
        case Some(j) => SplitAt(line, SEPARATORS[j])
        case None => LineParts("", "", None);
      if parts.word == [] then Some(NewEntry(line, "", parts.example, Null, Null))
      else Some(NewEntry(parts.word, parts.translation, parts.example, Null, Null))
  }

  /** Every entry of a text file has a non-empty word. */
  lemma ParsedWordNonEmpty(raw: string)
    requires !Skipped(raw)
    ensures ParseLine(raw).Some? && ParseLine(raw).value.word != []
  {
    var line := Strip(raw);
    StripIdempotent(raw);
    match FindSeparator(line, 0)
    case Some(j) => StripIdempotent(Before(line, SEPARATORS[j]));
    case None =>
  }

  /** The entry of a line with a separator: the split's word, translation
      and example, an empty example read as none; when the word comes out
      empty, the whole line with an empty translation, still carrying the
      example the split found. */
  lemma SeparatedLine(raw: string, j: nat)
    requires !Skipped(raw) && FindSeparator(Strip(raw), 0) == Some(j)
    ensures var line := Strip(raw);
      var p := SplitAt(line, SEPARATORS[j]);
      var example := if p.example == Some("") then None else p.example;
      ParseLine(raw) == Some(VocabularyEntry(
        if p.word == [] then line else p.word,
        if p.word == [] then "" else p.translation,
        example, Array([]), Null))
  {
    var line := Strip(raw);
    var p := SplitAt(line, SEPARATORS[j]);
    var w := if p.word == [] then line else p.word;
    var tr := if p.word == [] then "" else p.translation;
    assert ParseLine(raw) == Some(NewEntry(w, tr, p.example, Null, Null));
    assert Strip(w) == w && Strip(tr) == tr && (p.example.Some? ==> Strip(p.example.value) == p.example.value) by {
      StripIdempotent(raw);
      SplitStripped(line, SEPARATORS[j]);
      assert Strip("") == "";
    }
    StrippedEntry(w, tr, p.example);
  }

  /** The constructor on parts that are already stripped only drops an
      empty example and gives the synonyms `[]`. */
  lemma StrippedEntry(word: string, translation: string, example: Option<string>)
    requires Strip(word) == word && Strip(translation) == translation
    requires example.Some? ==> Strip(example.value) == example.value
    ensures NewEntry(word, translation, example, Null, Null)
         == VocabularyEntry(word, translation, if example == Some("") then None else example, Array([]), Null)
  {
  }

  /** Every part a split gives is already stripped. */
  lemma SplitStripped(line: string, sep: string)
    requires Contains(line, sep)
    ensures var p := SplitAt(line, sep);
      && Strip(p.word) == p.word && Strip(p.translation) == p.translation
      && (p.example.Some? ==> Strip(p.example.value) == p.example.value)
  {
    var rest := Strip(After(line, sep));
    StripIdempotent(Before(line, sep));
    StripIdempotent(After(line, sep));
    assert Strip("") == "";
    if Contains(rest, "(") && Contains(rest, ")") {
      StripIdempotent(Before(rest, "("));
      StripIdempotent(Before(Before(After(rest, "("), "("), ")"));
    } else if Contains(rest, ";") {
      StripIdempotent(Before(rest, ";"));
      StripIdempotent(After(rest, ";"));
    }
  }

  /** A line with no separator becomes a word with an empty translation. */
  lemma NoSeparatorWholeLine(raw: string)
    requires !Skipped(raw) && FindSeparator(Strip(raw), 0).None?
    ensures ParseLine(raw) == Some(VocabularyEntry(Strip(raw), "", None, Array([]), Null))
  {
    var line := Strip(raw);
    StripIdempotent(raw);
    assert ParseLine(raw) == Some(NewEntry(line, "", None, Null, Null));
    assert Strip("") == "";
  }

  /** With a separator, the line is cut at its first occurrence: word and
      rest rebuild the line, and the word holds no copy of the separator. */
  lemma SeparatorCut(raw: string)
    requires !Skipped(raw) && FindSeparator(Strip(raw), 0).Some?
    ensures var line := Strip(raw);
      var sep := SEPARATORS[FindSeparator(line, 0).value];
      && line == Before(line, sep) + sep + After(line, sep)
      && !Contains(Before(line, sep), sep)
  {
    var line := Strip(raw);
    SplitOnceJoins(line, SEPARATORS[FindSeparator(line, 0).value]);
  }

  /** The entries of a sequence of lines, in order. */
  function LinesEntries(lines: seq<string>): (es: seq<VocabularyEntry>)
    ensures |es| <= |lines|
  {
    if lines == [] then [] else Found(ParseLine(lines[0])) + LinesEntries(lines[1..])
  }

  /** The entries a line contributes: its entry, or none. */
  function Found(o: Option<VocabularyEntry>): (es: seq<VocabularyEntry>)
    ensures |es| <= 1 && (es == [] <==> o.None?)
  {
    if o.Some? then [o.value] else []
  }

  /** The entries `_parse_txt` returns for a decoded file. */
  function TxtEntries(content: string): seq<VocabularyEntry> {
    LinesEntries(SplitLines(content))
  }

  /** Lines contribute independently and in order. */
  lemma {:induction false} LinesEntriesAppend(a: seq<string>, b: seq<string>)
    ensures LinesEntries(a + b) == LinesEntries(a) + LinesEntries(b)
  {
    if a == [] {
      assert a + b == b;
    } else {
      var ab := a + b;
      assert ab[0] == a[0];
      assert ab[1..] == a[1..] + b;
      LinesEntriesAppend(a[1..], b);
      var x := Found(ParseLine(a[0]));
      assert LinesEntries(ab) == x + LinesEntries(ab[1..]);
      assert x + (LinesEntries(a[1..]) + LinesEntries(b)) == (x + LinesEntries(a[1..])) + LinesEntries(b);
    }
  }

  /** One entry per line that is neither blank nor a comment, each with a
      non-empty word. */
  lemma {:induction false} LinesEntriesShape(lines: seq<string>)
    ensures |LinesEntries(lines)| == |lines| - CountSkipped(lines)
    ensures forall e :: e in LinesEntries(lines) ==> e.word != []
  {
    if lines != [] {
      LinesEntriesShape(lines[1..]);
      if !Skipped(lines[0]) {
        ParsedWordNonEmpty(lines[0]);
      }
    }
  }

  function CountSkipped(lines: seq<string>): (n: nat)
    ensures n <= |lines|
  {
    if lines == [] then 0 else (if Skipped(lines[0]) then 1 else 0) + CountSkipped(lines[1..])
  }

  /** One step of the line loop: line `i` adds what it parses to. */
  lemma LinesEntriesStep(entries: seq<VocabularyEntry>, lines: seq<string>, i: nat)
    requires i < |lines|
    ensures entries + LinesEntries(lines[i..]) == (entries + Found(ParseLine(lines[i]))) + LinesEntries(lines[i + 1..])
  {
    assert lines[i..][1..] == lines[i + 1..];
    assert lines[i..][0] == lines[i];
    var found := Found(ParseLine(lines[i]));
    assert LinesEntries(lines[i..]) == found + LinesEntries(lines[i + 1..]);
    assert entries + (found + LinesEntries(lines[i + 1..])) == (entries + found) + LinesEntries(lines[i + 1..]);
  }

  /** `_parse_txt`'s line loop over the decoded file text. */
  method ParseTxt(content: string) returns (entries: seq<VocabularyEntry>)
    ensures entries == TxtEntries(content)
  {
    var lines := SplitLines(content);
    entries := [];
    var i := 0;
    assert lines[i..] == lines;
    while i < |lines|
      invariant 0 <= i <= |lines|
      invariant entries + LinesEntries(lines[i..]) == LinesEntries(lines)
    {
      var entry := ParseTxtLine(lines[i]);
      LinesEntriesStep(entries, lines, i);
      entries := entries + Found(entry);
      i := i + 1;
    }
    assert lines[i..] == [];
    assert entries + [] == entries;
  }

  /** One pass of the line loop: skip blank and comment lines, try the
      separators in order and stop at the first that occurs, fall back to
      the whole line as the word. */
  method ParseTxtLine(raw: string) returns (entry: Option<VocabularyEntry>)
    ensures entry == ParseLine(raw)
  {
    var line := Strip(raw);
    if line == [] || StartsWith(line, "#") {
      return None;
    }
    var word: string := "";
    var translation: string := "";
    var example: Option<string> := None;
    var j := 0;
    while j < |SEPARATORS|
      invariant 0 <= j <= |SEPARATORS|
      invariant FindSeparator(line, 0) == FindSeparator(line, j)
      invariant word == "" && translation == "" && example.None?
    {
      var separator := SEPARATORS[j];
      if Contains(line, separator) {
        var parts := SplitAt(line, separator);
        word, translation, example := parts.word, parts.translation, parts.example;
        break;
      }
      j := j + 1;
    }
    if word == [] {
      word := line;
      translation := "";
    }
    entry := Some(NewEntry(word, translation, example, Null, Null));
  }

  // ---------------------------------------------------------------
  // JSON files
  // ---------------------------------------------------------------

  /** `data.get(key, "")` when the value must be a string. */
  function TextField(m: seq<(string, Value)>, key: string): (r: Result<string>) {
    match Lookup(m, key)
    case None => Ok("")
    case Some(Str(s)) => Ok(s)
    case Some(_) => Err("'" + key + "' is not a string")
  }

  /** `VocabularyEntry.from_dict` on a decoded JSON object: a word or
      translation that is present but not a string, and a truthy example
      that is not a string, make `.strip()` raise. */
  function EntryFromJson(m: seq<(string, Value)>): Result<VocabularyEntry> {
    match (TextField(m, "word"), TextField(m, "translation"))
    case (Err(msg), _) => Err(msg)
    case (_, Err(msg)) => Err(msg)
    case (Ok(word), Ok(translation)) =>
      var example := Lookup(m, "example").GetOr(Null);
      if Truthy(example) && !example.Str? then Err("'example' is not a string")
      else
        Ok(NewEntry(word, translation, if example.Str? then Some(example.s) else None,
                    Lookup(m, "synonyms").GetOr(Null), Lookup(m, "etymology").GetOr(Null)))
  }

  /** Put `pre` in front of a result's entries; an error stays an error. */
  function Prepend(pre: seq<VocabularyEntry>, r: Result<seq<VocabularyEntry>>): Result<seq<VocabularyEntry>> {
    match r
    case Ok(es) => Ok(pre + es)
    case Err(msg) => Err(msg)
  }

  lemma PrependTwice(a: seq<VocabularyEntry>, b: seq<VocabularyEntry>, r: Result<seq<VocabularyEntry>>)
    ensures Prepend(a, Prepend(b, r)) == Prepend(a + b, r)
  {
    if r.Ok? {
      assert a + (b + r.value) == (a + b) + r.value;
    }
  }

  lemma PrependNothing(r: Result<seq<VocabularyEntry>>)
    ensures Prepend([], r) == r
  {
    if r.Ok? {
      assert [] + r.value == r.value;
    }
  }

  /** A single entry as a one-element result. */
  function Single(r: Result<VocabularyEntry>): (rs: Result<seq<VocabularyEntry>>)
    ensures rs.Ok? <==> r.Ok?
    ensures rs.Ok? ==> rs.value == [r.value]
  {
    match r
    case Ok(e) => Ok([e])
    case Err(msg) => Err(msg)
  }

  /** The entries of `first`, then those of `rest`; an error in `first`
      stops before `rest`. */
  function Then(first: Result<seq<VocabularyEntry>>, rest: Result<seq<VocabularyEntry>>): Result<seq<VocabularyEntry>> {
    match first
    case Ok(es) => Prepend(es, rest)
    case Err(msg) => Err(msg)
  }

  /** What is already collected, followed by a step and the rest. */
  lemma ThenAfter(entries: seq<VocabularyEntry>, first: Result<seq<VocabularyEntry>>, rest: Result<seq<VocabularyEntry>>)
    ensures first.Err? ==> Prepend(entries, Then(first, rest)) == Err(first.message)
    ensures first.Ok? ==> Prepend(entries, Then(first, rest)) == Prepend(entries + first.value, rest)
  {
    if first.Ok? {
      PrependTwice(entries, first.value, rest);
    }
  }

  /** What one list item yields: an object its entry, anything else nothing. */
  function ItemStep(item: Value): Result<seq<VocabularyEntry>> {
    match item
    case Object(m) => Single(EntryFromJson(m))
    case _ => Ok([])
  }

  /** The entries of the steps over `xs`, in order; the first step that
      raises ends the walk. */
  function Collect<T>(step: T -> Result<seq<VocabularyEntry>>, xs: seq<T>): Result<seq<VocabularyEntry>> {
    if xs == [] then Ok([]) else Then(step(xs[0]), Collect(step, xs[1..]))
  }

  /** The walk from element `i` on: step `i`, then the walk from `i + 1`. */
  lemma CollectStep<T>(step: T -> Result<seq<VocabularyEntry>>, xs: seq<T>, i: nat)
    requires i < |xs|
    ensures Collect(step, xs[i..]) == Then(step(xs[i]), Collect(step, xs[i + 1..]))
  {
    assert xs[i..][1..] == xs[i + 1..];
  }

  /** When every step yields exactly one entry, the walk yields those
      entries, one per element and in order. */
  lemma {:induction false} CollectSingles<T>(step: T -> Result<seq<VocabularyEntry>>, xs: seq<T>)
    requires forall k :: 0 <= k < |xs| ==> step(xs[k]).Ok? && |step(xs[k]).value| == 1
    ensures Collect(step, xs).Ok? && |Collect(step, xs).value| == |xs|
    ensures forall k :: 0 <= k < |xs| ==> Collect(step, xs).value[k] == step(xs[k]).value[0]
  {
    if xs != [] {
      var tail := xs[1..];
      assert forall k :: 0 <= k < |tail| ==> tail[k] == xs[k + 1];
      CollectSingles(step, tail);
      assert step(xs[0]).value == [step(xs[0]).value[0]];
    }
  }

  /** When no step raises, the walk yields at most one entry per element
      that yields at most one. */
  lemma {:induction false} CollectBound<T>(step: T -> Result<seq<VocabularyEntry>>, xs: seq<T>)
    requires forall k :: 0 <= k < |xs| ==> step(xs[k]).Ok? ==> |step(xs[k]).value| <= 1
    ensures Collect(step, xs).Ok? ==> |Collect(step, xs).value| <= |xs|
  {
    if xs != [] {
      var tail := xs[1..];
      assert forall k :: 0 <= k < |tail| ==> tail[k] == xs[k + 1];
      CollectBound(step, tail);
    }
  }

  /** The entries of a list: one per object item, other items skipped; the
      first item that raises ends the parse. */
  function ItemEntries(items: seq<Value>): Result<seq<VocabularyEntry>> {
    Collect(ItemStep, items)
  }

  /** What one member of a top-level object yields: the entries of a list
      value, the entry of an object value, nothing for anything else. */
  function MemberStep(member: (string, Value)): Result<seq<VocabularyEntry>> {
    match member.1
    case Array(items) => ItemEntries(items)
    case Object(m) => Single(EntryFromJson(m))
    case _ => Ok([])
  }

  /** The entries of a top-level object, in member order. */
  function MemberEntries(members: seq<(string, Value)>): Result<seq<VocabularyEntry>> {
    Collect(MemberStep, members)
  }

  /** What `_parse_json` returns for a decoded document. */
  function JsonEntries(data: Value): Result<seq<VocabularyEntry>> {
    match data
    case Array(items) => ItemEntries(items)
    case Object(members) => MemberEntries(members)
    case _ => Ok([])
  }

  /** A list of well-formed objects yields one entry per object, in order. */
  lemma ListOfObjects(items: seq<Value>)
    requires forall k :: 0 <= k < |items| ==> items[k].Object? && EntryFromJson(items[k].members).Ok?
    ensures ItemEntries(items).Ok?
    ensures |ItemEntries(items).value| == |items|
    ensures forall k :: 0 <= k < |items| ==> ItemEntries(items).value[k] == EntryFromJson(items[k].members).value
  {
    CollectSingles(ItemStep, items);
  }

  /** The objects among a list's items, in order (the items for which
      `isinstance(item, dict)` holds). */
  function Dicts(items: seq<Value>): (ds: seq<seq<(string, Value)>>)
    ensures |ds| <= |items|
  {
    if items == [] then []
    else (if items[0].Object? then [items[0].members] else []) + Dicts(items[1..])
  }

  /** The objects a top-level object holds, member by member: an object
      value itself, and the object items of a list value. */
  function MemberDicts(members: seq<(string, Value)>): seq<seq<(string, Value)>> {
    if members == [] then []
    else
      (match members[0].1
       case Object(m) => [m]
       case Array(items) => Dicts(items)
       case _ => []) + MemberDicts(members[1..])
  }

  /** What reading each object as an entry gives, in order. */
  function Parses(ds: seq<seq<(string, Value)>>): (rs: seq<Result<VocabularyEntry>>)
    ensures |rs| == |ds| && forall k :: 0 <= k < |ds| ==> rs[k] == EntryFromJson(ds[k])
  {
    seq(|ds|, k requires 0 <= k < |ds| => EntryFromJson(ds[k]))
  }

  lemma ParsesAppend(a: seq<seq<(string, Value)>>, b: seq<seq<(string, Value)>>)
    ensures Parses(a + b) == Parses(a) + Parses(b)
  {
    var ab := a + b;
    assert forall k :: 0 <= k < |a| ==> ab[k] == a[k];
    assert forall k :: |a| <= k < |ab| ==> ab[k] == b[k - |a|];
  }

  predicate AllOk(rs: seq<Result<VocabularyEntry>>) {
    forall k :: 0 <= k < |rs| ==> rs[k].Ok?
  }

  /** The entries of results none of which is an error, in order. */
  function OkValues(rs: seq<Result<VocabularyEntry>>): (es: seq<VocabularyEntry>)
    requires AllOk(rs)
    ensures |es| == |rs| && forall k :: 0 <= k < |rs| ==> es[k] == rs[k].value
  {
    seq(|rs|, k requires 0 <= k < |rs| && AllOk(rs) => rs[k].value)
  }

  /** A walk (or one step of it) yields the results `rs` in order, and
      raises exactly when one of them is an error. */
  predicate Yields(r: Result<seq<VocabularyEntry>>, rs: seq<Result<VocabularyEntry>>) {
    (r.Ok? <==> AllOk(rs)) && (r.Ok? ==> r.value == OkValues(rs))
  }

  /** The walk composes: a step and the rest after it yield the results
      of both, in order. */
  lemma ThenYields(first: Result<seq<VocabularyEntry>>, rest: Result<seq<VocabularyEntry>>,
                   a: seq<Result<VocabularyEntry>>, b: seq<Result<VocabularyEntry>>)
    requires Yields(first, a) && Yields(rest, b)
    ensures Yields(Then(first, rest), a + b)
  {
    var ab := a + b;
    if AllOk(a) && AllOk(b) {
      forall k | 0 <= k < |ab|
        ensures ab[k].Ok?
      {
        if k < |a| {
          assert ab[k] == a[k];
        } else {
          assert ab[k] == b[k - |a|];
        }
      }
    }
    if AllOk(ab) {
      forall k | 0 <= k < |a|
        ensures a[k].Ok?
      {
        assert ab[k] == a[k];
      }
      forall k | 0 <= k < |b|
        ensures b[k].Ok?
      {
        assert ab[|a| + k] == b[k];
      }
      assert OkValues(ab) == OkValues(a) + OkValues(b);
    }
  }

  /** One object read as a walk step. */
  lemma SingleYields(m: seq<(string, Value)>)
    ensures Yields(Single(EntryFromJson(m)), Parses([m]))
  {
    var r := EntryFromJson(m);
    assert Parses([m]) == [r];
    assert AllOk([r]) <==> r.Ok? by {
      assert [r][0] == r;
    }
    if r.Ok? {
      assert OkValues([r]) == [r.value];
    }
  }

  /** A list with items of any kind: the entries of its objects, in order,
      the other items skipped; the parse raises exactly when one of its
      objects does not read as an entry. */
  lemma {:induction false} MixedList(items: seq<Value>)
    ensures Yields(ItemEntries(items), Parses(Dicts(items)))
  {
    if items == [] {
      assert ItemEntries(items) == Ok([]);
    } else {
      var tail := items[1..];
      MixedList(tail);
      assert ItemEntries(items) == Then(ItemStep(items[0]), ItemEntries(tail));
      var head: seq<seq<(string, Value)>> := if items[0].Object? then [items[0].members] else [];
      assert Dicts(items) == head + Dicts(tail);
      if items[0].Object? {
        SingleYields(items[0].members);
      }
      assert Yields(ItemStep(items[0]), Parses(head));
      ThenYields(ItemStep(items[0]), ItemEntries(tail), Parses(head), Parses(Dicts(tail)));
      ParsesAppend(head, Dicts(tail));
    }
  }

  /** A top-level object: member by member, the entry of each object value
      and the entries of the objects in each list value; other values are
      skipped, and the parse raises exactly when one of those objects does
      not read as an entry. */
  lemma {:induction false} ObjectDocument(members: seq<(string, Value)>)
    ensures Yields(MemberEntries(members), Parses(MemberDicts(members)))
  {
    if members == [] {
      assert MemberEntries(members) == Ok([]);
    } else {
      var tail := members[1..];
      ObjectDocument(tail);
      assert MemberEntries(members) == Then(MemberStep(members[0]), MemberEntries(tail));
      var v := members[0].1;
      var head: seq<seq<(string, Value)>> := match v
        case Object(m) => [m]
        case Array(items) => Dicts(items)
        case _ => [];
      assert MemberDicts(members) == head + MemberDicts(tail);
      assert Yields(MemberStep(members[0]), Parses(head)) by {
        match v
        case Object(m) => SingleYields(m);
        case Array(items) => MixedList(items);
        case _ =>
      }
      ThenYields(MemberStep(members[0]), MemberEntries(tail), Parses(head), Parses(MemberDicts(tail)));
      ParsesAppend(head, MemberDicts(tail));
    }
  }

  /** `_parse_json` on any document: a list gives the entries of its
      objects, a top-level object those of its object values and of the
      objects in its list values, anything else nothing. */
  lemma JsonRules(data: Value)
    ensures data.Array? ==> Yields(JsonEntries(data), Parses(Dicts(data.items)))
    ensures data.Object? ==> Yields(JsonEntries(data), Parses(MemberDicts(data.members)))
    ensures !data.Array? && !data.Object? ==> JsonEntries(data) == Ok([])
  {
    match data
    case Array(items) => MixedList(items);
    case Object(members) => ObjectDocument(members);
    case _ =>
  }

  /** A list yields at most one entry per item. */
  lemma ItemsBound(items: seq<Value>)
    ensures ItemEntries(items).Ok? ==> |ItemEntries(items).value| <= |items|
  {
    CollectBound(ItemStep, items);
  }

  lemma ScalarDocument(data: Value)
    requires !data.Array? && !data.Object?
    ensures JsonEntries(data) == Ok([])
  {
  }

  /** `_parse_json`'s loops over the decoded document. */
  method ParseJson(data: Value) returns (r: Result<seq<VocabularyEntry>>)
    ensures r == JsonEntries(data)
  {
    if data.Array? {
      r := CollectItems(data.items);
    } else if data.Object? {
      r := CollectMembers(data.members);
    } else {
      r := Ok([]);
    }
  }

  /** The loop over the values of a top-level object. */
  method CollectMembers(members: seq<(string, Value)>) returns (r: Result<seq<VocabularyEntry>>)
    ensures r == MemberEntries(members)
  {
    var entries: seq<VocabularyEntry> := [];
    var i := 0;
    assert members[i..] == members;
    PrependNothing(MemberEntries(members));
    while i < |members|
      invariant 0 <= i <= |members|
      invariant Prepend(entries, MemberEntries(members[i..])) == MemberEntries(members)
    {
      CollectStep(MemberStep, members, i);
      var value := members[i].1;
      var found: Result<seq<VocabularyEntry>> := Ok([]);
      if value.Array? {
        found := CollectItems(value.items);
      } else if value.Object? {
        found := Single(EntryFromJson(value.members));
      }
      assert found == MemberStep(members[i]);
      ThenAfter(entries, found, MemberEntries(members[i + 1..]));
      if found.Err? {
        return Err(found.message);
      }
      entries := entries + found.value;
      i := i + 1;
    }
    assert members[i..] == [];
    assert entries + [] == entries;
    r := Ok(entries);
  }

  /** One turn of the item loop keeps its invariant, or ends the walk
      with the error the whole list raises. */
  lemma ItemLoopStep(entries: seq<VocabularyEntry>, items: seq<Value>, i: nat, found: Result<seq<VocabularyEntry>>)
    requires i < |items| && found == ItemStep(items[i])
    requires Prepend(entries, ItemEntries(items[i..])) == ItemEntries(items)
    ensures found.Err? ==> Err(found.message) == ItemEntries(items)
    ensures found.Ok? ==> Prepend(entries + found.value, ItemEntries(items[i + 1..])) == ItemEntries(items)
  {
    CollectStep(ItemStep, items, i);
    ThenAfter(entries, found, ItemEntries(items[i + 1..]));
  }

  /** The inner loop over a list's items. */
  method CollectItems(items: seq<Value>) returns (r: Result<seq<VocabularyEntry>>)
    ensures r == ItemEntries(items)
  {
    var entries: seq<VocabularyEntry> := [];
    var i := 0;
    assert items[i..] == items;
    PrependNothing(ItemEntries(items));
    while i < |items|
      invariant 0 <= i <= |items|
      invariant Prepend(entries, ItemEntries(items[i..])) == ItemEntries(items)
    {
      var found: Result<seq<VocabularyEntry>> := Ok([]);
      if items[i].Object? {
        found := Single(EntryFromJson(items[i].members));
      }
      assert found == ItemStep(items[i]);
      ItemLoopStep(entries, items, i, found);
      if found.Err? {
        return Err(found.message);
      }
      entries := entries + found.value;
      i := i + 1;
    }
    assert items[i..] == [];
    assert entries + [] == entries;
    r := Ok(entries);
  }
}
