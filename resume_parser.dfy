/** The resume parser's handling of text: which extractor a file name
    selects, the minimum-content check on parsed profile data, the constant
    profile used when parsing fails, cleaning a model reply to one line of
    JSON text, and the line/keyword field scan. */
module ResumeParser {
  import opened Wrappers
  import opened Text
  import opened PyValues
  import opened LlmOutput

  // ---------------------------------------------------------------------
  // _get_mime_type and the dispatch of _extract_text

  /** Which extractor `_extract_text` calls. */
  datatype TextSource = PdfText | DocxText | Utf8Text

  function SourceFor(filename: string): (r: TextSource)
    ensures r == PdfText <==> EndsWith(filename, ".pdf")
    ensures r == DocxText <==> !EndsWith(filename, ".pdf") && EndsWith(filename, ".docx")
    ensures r == Utf8Text <==> !EndsWith(filename, ".pdf") && !EndsWith(filename, ".docx")
  {
    if EndsWith(filename, ".pdf") then PdfText
    else if EndsWith(filename, ".docx") then DocxText
    else Utf8Text
  }

  const PdfMime := "application/pdf"
  const DocxMime := "application/vnd.openxmlformats-officedocument.wordprocessingml.document"
  const PlainMime := "text/plain"

  function MimeType(filename: string): (r: string)
    ensures r == PdfMime <==> EndsWith(filename, ".pdf")
    ensures r == DocxMime <==> !EndsWith(filename, ".pdf") && EndsWith(filename, ".docx")
    ensures r == PlainMime <==> !EndsWith(filename, ".pdf") && !EndsWith(filename, ".docx")
  {
    if EndsWith(filename, ".pdf") then PdfMime
    else if EndsWith(filename, ".docx") then DocxMime
    else PlainMime
  }

  /** The MIME type and the extractor are chosen by the same tests, in the
      same order. */
  lemma DispatchAgrees(filename: string)
    ensures SourceFor(filename) == PdfText <==> MimeType(filename) == PdfMime
    ensures SourceFor(filename) == DocxText <==> MimeType(filename) == DocxMime
    ensures SourceFor(filename) == Utf8Text <==> MimeType(filename) == PlainMime
  {
  }

  /** The tests are case-sensitive: an upper-case extension is read as UTF-8 text. */
  lemma UpperCaseIsPlain()
    ensures SourceFor("CV.PDF") == Utf8Text && MimeType("CV.PDF") == PlainMime
  {
    assert "CV.PDF"[2..] != ".pdf" by { assert "CV.PDF"[3] != ".pdf"[1]; }
    assert "CV.PDF"[1..] != ".docx" by { assert "CV.PDF"[2] != ".docx"[1]; }
  }

  // ---------------------------------------------------------------------
  // _validate_parsed_data

  const RequiredFields: seq<string> := ["Full Name", "Email", "Phone Number"]

  /** `field in data and data[field] and str(data[field]).strip()`. */
  predicate HasContent(d: Dict, field: string) {
    match Lookup(d, field)
    case None => false
    case Some(v) => Truthy(v) && NonBlank(v)
  }

  /** A dict in which at least one required field has content. */
  predicate Valid(data: Value) {
    data.PyDict? && exists k :: 0 <= k < |RequiredFields| && HasContent(data.entries, RequiredFields[k])
  }

  /** `_validate_parsed_data`: the loop over the required fields with an early return. */
  method ValidateParsedData(data: Value) returns (r: bool)
    ensures r == Valid(data)
  {
    if !data.PyDict? {
      return false;
    }
    var i := 0;
    while i < |RequiredFields|
      invariant 0 <= i <= |RequiredFields|
      invariant forall k :: 0 <= k < i ==> !HasContent(data.entries, RequiredFields[k])
    {
      var v := Lookup(data.entries, RequiredFields[i]);
      if v.Some? && Truthy(v.value) && NonBlank(v.value) {
        return true;
      }
      i := i + 1;
    }
    return false;
  }

  /** Only the three required fields decide validity. */
  lemma ValidOnlyRequired(d1: Dict, d2: Dict)
    requires forall k :: 0 <= k < |RequiredFields| ==> Lookup(d1, RequiredFields[k]) == Lookup(d2, RequiredFields[k])
    ensures Valid(PyDict(d1)) == Valid(PyDict(d2))
  {
    assert forall k :: 0 <= k < |RequiredFields| ==>
      HasContent(d1, RequiredFields[k]) == HasContent(d2, RequiredFields[k]);
  }

  /** A string value has content exactly when it holds a non-whitespace
      character; any other value exactly when it is truthy. */
  lemma HasContentIff(d: Dict, field: string)
    requires HasKey(d, field)
    ensures var v := Lookup(d, field).value;
      HasContent(d, field) <==>
        if v.PyStr? then exists j :: 0 <= j < |v.s| && !IsSpace(v.s[j]) else Truthy(v)
  {
    var v := Lookup(d, field).value;
    NonBlankIff(v);
    if v.PyStr? && exists j :: 0 <= j < |v.s| && !IsSpace(v.s[j]) {
      assert v.s != "";
    }
  }

  // ---------------------------------------------------------------------
  // _get_fallback_data

  /** The constant profile returned when parsing fails. */
  const FallbackData: Dict := [
    ("Full Name", PyStr("John Doe")),
    ("Email", PyStr("john.doe@example.com")),
    ("Phone Number", PyStr("(555) 123-4567")),
    ("Address", PyStr("123 Main St, City, State 12345")),
    ("Education", PyStr("Bachelor's Degree in Computer Science from MIT")),
    ("Work Experience", PyStr("Senior Software Developer at Google with 5+ years experience in full-stack development")),
    ("Skills", PyStr("Python, JavaScript, React, Node.js, AWS, Docker, Kubernetes"))
  ]

  /** The constant profile passes the content check, through its name. */
  lemma FallbackValid()
    ensures HasContent(FallbackData, "Full Name")
    ensures Valid(PyDict(FallbackData))
  {
    var v := PyStr("John Doe");
    assert Lookup(FallbackData, "Full Name") == Some(v);
    StripKeeps(v.s, 0);
    assert HasContent(FallbackData, RequiredFields[0]);
  }

  /** The constant profile has seven distinct keys. */
  lemma FallbackDistinct()
    ensures |FallbackData| == 7 && DistinctKeys(FallbackData)
  {
    forall j, k | 0 <= j < k < |FallbackData| ensures FallbackData[j].0 != FallbackData[k].0 {
      var a, b := FallbackData[j].0, FallbackData[k].0;
      assert a[0] != b[0] || a[1] != b[1];
    }
  }

  /** `_get_fallback_data`. */
  function FallbackProfile(): (r: Value)
    ensures r.PyDict? && Valid(r)
  {
    FallbackValid();
    PyDict(FallbackData)
  }

  // ---------------------------------------------------------------------
  // _clean_json_response

  /** The cleaned text: the fenced part of the reply, stripped, with
      newlines and carriage returns turned into spaces and every run of
      whitespace collapsed to one space. */
  function Cleaned(content: string): string {
    NormalizeSpaces(Replace(Replace(Strip(FenceBody(content), None), "\n", " "), "\r", " "))
  }

  /** `_clean_json_response`, reassigning the text step by step. */
  method CleanJsonResponse(content: string) returns (r: string)
    ensures r == Cleaned(content)
    ensures r == NormalizeSpaces(FenceBody(content))
    ensures SpacesNormal(r) && !Contains(r, Fence)
  {
    r := content;
    if Contains(r, JsonFence) {
      SplitPieces(r, JsonFence);
      ContainsPrefix(r, JsonFence, Fence);
      r := Split(Split(r, JsonFence)[1], Fence)[0];
    } else if Contains(r, Fence) {
      SplitPieces(r, Fence);
      r := Split(Split(r, Fence)[1], Fence)[0];
    }
    r := Strip(r, None);
    r := Replace(r, "\n", " ");
    r := Replace(r, "\r", " ");
    r := NormalizeSpaces(r);
    CleanedWords(content);
    CleanedNormal(content);
  }

  /** Only where the whitespace lies matters: cleaning is collapsing the
      whitespace of the fenced part. */
  lemma CleanedWords(content: string)
    ensures Cleaned(content) == NormalizeSpaces(FenceBody(content))
  {
    var s0 := Strip(FenceBody(content), None);
    var s1 := Replace(s0, "\n", " ");
    ReplaceSpaceSame(s0, '\n');
    ReplaceSpaceSame(s1, '\r');
    WordsSame(s0, s1);
    WordsSame(s1, Replace(s1, "\r", " "));
    WordsOfStrip(FenceBody(content));
  }

  /** The cleaned text has no leading or trailing whitespace, no newline
      or carriage return, no run of two whitespace characters, and no fence. */
  lemma CleanedNormal(content: string)
    ensures SpacesNormal(Cleaned(content))
    ensures !Contains(Cleaned(content), Fence)
  {
    CleanedWords(content);
    NormalizeSpacesNormal(FenceBody(content));
    FenceBodyFree(content);
    NormalizeSpacesFree(FenceBody(content), Fence);
  }

  /** Cleaning cleaned text changes nothing. */
  lemma CleanedIdempotent(content: string)
    ensures Cleaned(Cleaned(content)) == Cleaned(content)
  {
    var c := Cleaned(content);
    CleanedNormal(content);
    CleanedWords(c);
    CleanedWords(content);
    NormalizeSpacesIdempotent(FenceBody(content));
  }

  // ---------------------------------------------------------------------
  // _parse_with_ai, from the completion on

  /** `s.isspace()`: non-empty and all whitespace. */
  predicate AllSpace(s: string) {
    |s| > 0 && forall i :: 0 <= i < |s| ==> IsSpace(s[i])
  }

  /** The profile `_parse_with_ai` returns. Without a client the check
      `not self.llm` itself raises AttributeError, since the attribute was
      never assigned; a failing completion gives the constant profile. */
  function ParseWithAi(completion: Completion, loads: string -> Py<Value>): (r: Py<Value>)
    ensures r.Raise? <==> completion.NoClient?
    ensures r.Raise? ==> r.exc == AttributeError
    ensures completion.Failed? ==> r == Ok(FallbackProfile())
    ensures r.Ok? ==> Valid(r.value)
  {
    match completion
    case NoClient => Raise(AttributeError)
    case Failed => Ok(FallbackProfile())
    case Reply(text) => Ok(HandleReply(Cleaned(Strip(text, None)), loads))
  }

  /** What becomes of the cleaned reply: a blank one, one `loads` rejects
      and parsed data that does not validate all give the constant profile. */
  function HandleReply(cleaned: string, loads: string -> Py<Value>): (r: Value)
    ensures Valid(r)
    ensures r == FallbackProfile() || (cleaned != "" && loads(cleaned) == Ok(r))
  {
    if cleaned == "" || AllSpace(cleaned) then FallbackProfile()
    else
      match loads(cleaned)
      case Raise(_) => FallbackProfile()
      case Ok(parsed) => if Valid(parsed) then parsed else FallbackProfile()
  }

  /** Whatever the reply, the parser raises only without a client, and what
      it returns always validates: the parsed data itself when it does,
      the constant profile otherwise. */
  lemma ParseWithAiValid(completion: Completion, loads: string -> Py<Value>)
    ensures ParseWithAi(completion, loads).Raise? <==> completion.NoClient?
    ensures ParseWithAi(completion, loads).Raise? ==> ParseWithAi(completion, loads).exc == AttributeError
    ensures ParseWithAi(completion, loads).Ok? ==> Valid(ParseWithAi(completion, loads).value)
    ensures completion.Reply? ==>
      (var cleaned := Cleaned(Strip(completion.text, None));
       ParseWithAi(completion, loads) == Ok(FallbackProfile())
       || (cleaned != "" && loads(cleaned) == ParseWithAi(completion, loads)))
  {
    if completion.Reply? {
      var cleaned := Cleaned(Strip(completion.text, None));
      assert ParseWithAi(completion, loads) == Ok(HandleReply(cleaned, loads));
    }
  }

  /** Parsed data that validates, from a non-blank reply, is returned as it is. */
  lemma ParseWithAiKeeps(text: string, loads: string -> Py<Value>)
    requires Cleaned(Strip(text, None)) != ""
    requires loads(Cleaned(Strip(text, None))).Ok? && Valid(loads(Cleaned(Strip(text, None))).value)
    ensures ParseWithAi(Reply(text), loads) == loads(Cleaned(Strip(text, None)))
  {
    var cleaned := Cleaned(Strip(text, None));
    CleanedNeverAllSpace(Strip(text, None));
    HandleReplyKeeps(cleaned, loads);
    assert ParseWithAi(Reply(text), loads) == Ok(HandleReply(cleaned, loads));
  }

  lemma HandleReplyKeeps(cleaned: string, loads: string -> Py<Value>)
    requires cleaned != "" && !AllSpace(cleaned)
    requires loads(cleaned).Ok? && Valid(loads(cleaned).value)
    ensures HandleReply(cleaned, loads) == loads(cleaned).value
  {
  }

  /** A reply made of whitespace only never reaches `loads`. */
  lemma BlankReplyFallback(text: string, loads: string -> Py<Value>)
    requires forall i :: 0 <= i < |text| ==> IsSpace(text[i])
    ensures ParseWithAi(Reply(text), loads) == Ok(FallbackProfile())
  {
    var s := Strip(text, None);
    StripSlice(text, None);
    TooLong(s, JsonFence);
    TooLong(s, Fence);
    assert Words(s) == [];
    assert Cleaned(s) == "";
  }

  /** The whitespace test after cleaning never decides anything: cleaned
      text is never all whitespace. */
  lemma CleanedNeverAllSpace(content: string)
    ensures !AllSpace(Cleaned(content))
  {
    CleanedNormal(content);
    var c := Cleaned(content);
    if |c| > 0 {
      assert !IsSpace(c[0]);
    }
  }

  // ---------------------------------------------------------------------
  // _extract_field

  /** The first keyword, from position `from` on, that occurs in `line`. */
  function KeywordIn(line: string, keywords: seq<string>, from: nat): (r: Option<nat>)
    ensures r.None? <==> forall k :: from <= k < |keywords| ==> !Contains(line, keywords[k])
    ensures r.Some? ==>
      (from <= r.value < |keywords| && Contains(line, keywords[r.value])
       && forall k :: from <= k < r.value ==> !Contains(line, keywords[k]))
    decreases |keywords| - from
  {
    if from >= |keywords| then None
    else if Contains(line, keywords[from]) then Some(from)
    else KeywordIn(line, keywords, from + 1)
  }

  /** `line.split(keyword)[1].strip(' :').strip()` for a keyword in the
      line; an empty keyword makes `split` raise ValueError. */
  function Segment(line: string, keyword: string): Py<string>
    requires Contains(line, keyword)
  {
    if keyword == "" then Raise(ValueError)
    else
      SplitPieces(line, keyword);
      Ok(Strip(Strip(Split(line, keyword)[1], Some(" :")), None))
  }

  /** The scan over the lines, in order. */
  function ExtractFrom(lines: seq<string>, keywords: seq<string>): (r: Py<string>)
    ensures r.Raise? ==> r.exc == ValueError && exists k :: 0 <= k < |keywords| && keywords[k] == ""
    ensures (forall i, k :: 0 <= i < |lines| && 0 <= k < |keywords| ==> !Contains(lines[i], keywords[k])) ==>
      r == Ok("")
    decreases |lines|
  {
    if lines == [] then Ok("")
    else match KeywordIn(lines[0], keywords, 0)
      case Some(k) => Segment(lines[0], keywords[k])
      case None => ExtractFrom(lines[1..], keywords)
  }

  /** The lines `_extract_field` scans. */
  function Lines(text: string): seq<string> {
    Split(Lower(text), "\n")
  }

  /** What `_extract_field` returns. */
  function ExtractField(text: string, keywords: seq<string>): (r: Py<string>)
    ensures r.Raise? ==> r.exc == ValueError && exists k :: 0 <= k < |keywords| && keywords[k] == ""
    ensures (forall i, k :: 0 <= i < |Lines(text)| && 0 <= k < |keywords| ==> !Contains(Lines(text)[i], keywords[k])) ==>
      r == Ok("")
  {
    ExtractFrom(Lines(text), keywords)
  }

  /** `_extract_field`: the nested loops with the early return. */
  method ExtractFieldScan(text: string, keywords: seq<string>) returns (r: Py<string>)
    ensures r == ExtractField(text, keywords)
  {
    var lines := Lines(text);
    var i := 0;
    while i < |lines|
      invariant 0 <= i <= |lines|
      invariant ExtractFrom(lines[i..], keywords) == ExtractFrom(lines, keywords)
    {
      var line := lines[i];
      ExtractStep(lines, i, keywords);
      var j := 0;
      while j < |keywords|
        invariant 0 <= j <= |keywords|
        invariant KeywordIn(line, keywords, j) == KeywordIn(line, keywords, 0)
      {
        if Contains(line, keywords[j]) {
          if keywords[j] == "" {
            return Raise(ValueError);
          }
          var parts := Split(line, keywords[j]);
          SegmentIs(line, keywords[j]);
          if |parts| > 1 {
            return Ok(Strip(Strip(parts[1], Some(" :")), None));
          }
          // a keyword that occurs always splits the line in two or more
          assert false;
        }
        j := j + 1;
      }
      i := i + 1;
    }
    return Ok("");
  }

  /** One turn of the outer loop: the scan from line `i` is that line's hit,
      or the scan from line `i + 1`. */
  lemma ExtractStep(lines: seq<string>, i: nat, keywords: seq<string>)
    requires i < |lines|
    ensures ExtractFrom(lines[i..], keywords) ==
      match KeywordIn(lines[i], keywords, 0)
      case Some(k) => Segment(lines[i], keywords[k])
      case None => ExtractFrom(lines[i + 1..], keywords)
  {
    assert lines[i..][0] == lines[i] && lines[i..][1..] == lines[i + 1..];
  }

  /** A keyword that occurs splits the line in at least two pieces, and the
      segment is the stripped second piece. */
  lemma SegmentIs(line: string, keyword: string)
    requires Contains(line, keyword) && keyword != ""
    ensures |Split(line, keyword)| > 1
    ensures Segment(line, keyword) == Ok(Strip(Strip(Split(line, keyword)[1], Some(" :")), None))
  {
    SplitPieces(line, keyword);
  }

  /** With no keyword in any line the result is ''. */
  lemma {:induction false} NoKeywordEmpty(lines: seq<string>, keywords: seq<string>)
    requires forall i, k :: 0 <= i < |lines| && 0 <= k < |keywords| ==> !Contains(lines[i], keywords[k])
    ensures ExtractFrom(lines, keywords) == Ok("")
    decreases |lines|
  {
    if lines != [] {
      NoKeywordEmpty(lines[1..], keywords);
    }
  }

  /** The first line holding a keyword decides, and within it the first
      keyword it holds. */
  lemma {:induction false} FirstHitDecides(lines: seq<string>, keywords: seq<string>, i: nat, k: nat)
    requires i < |lines| && k < |keywords| && Contains(lines[i], keywords[k])
    requires forall i', k' :: 0 <= i' < i && 0 <= k' < |keywords| ==> !Contains(lines[i'], keywords[k'])
    requires forall k' :: 0 <= k' < k ==> !Contains(lines[i], keywords[k'])
    ensures ExtractFrom(lines, keywords) == Segment(lines[i], keywords[k])
    decreases i
  {
    if i > 0 {
      FirstHitDecides(lines[1..], keywords, i - 1, k);
    }
  }

  /** The segment is the text between the keyword's first and second
      occurrences in the line, stripped; it holds no occurrence of the
      keyword and no newline of the line, and does not begin or end with
      whitespace. */
  lemma SegmentShape(line: string, keyword: string)
    requires keyword != "" && Contains(line, keyword) && !Contains(line, "\n")
    ensures Segment(line, keyword).Ok?
    ensures var r := Segment(line, keyword).value;
      r == Strip(Strip(Before(After(line, keyword), keyword), Some(" :")), None)
      && !Contains(r, keyword) && '\n' !in r
      && (|r| > 0 ==> !IsSpace(r[0]) && !IsSpace(r[|r| - 1]))
  {
    SplitPieces(line, keyword);
    var t := After(line, keyword);
    var b := Before(t, keyword);
    AfterFree(line, keyword, "\n");
    BeforeFree(t, keyword);
    BeforeFreeOf(t, keyword, "\n");
    var s1 := Strip(b, Some(" :"));
    StripFree(b, Some(" :"), keyword);
    StripFree(b, Some(" :"), "\n");
    StripFree(s1, None, keyword);
    StripFree(s1, None, "\n");
    CharFree(Strip(s1, None), '\n');
  }

  /** The pieces of a split hold no separator. */
  lemma {:induction false} SplitFree(s: string, sep: string)
    requires sep != ""
    ensures forall k :: 0 <= k < |Split(s, sep)| ==> !Contains(Split(s, sep)[k], sep)
    decreases |s|
  {
    var i := Find(s, sep);
    BeforeFree(s, sep);
    if i >= 0 {
      SplitFree(s[i + |sep|..], sep);
    }
  }

  /** Every line scanned is free of newlines, so every extracted value is
      one line's text, with no keyword in it. */
  lemma ExtractFieldShape(text: string, keywords: seq<string>)
    requires forall k :: 0 <= k < |keywords| ==> keywords[k] != ""
    ensures ExtractField(text, keywords).Ok?
    ensures var r := ExtractField(text, keywords).value;
      '\n' !in r && (|r| > 0 ==> !IsSpace(r[0]) && !IsSpace(r[|r| - 1]))
  {
    var lines := Lines(text);
    SplitFree(Lower(text), "\n");
    assert forall i :: 0 <= i < |lines| ==> !Contains(lines[i], "\n");
    ExtractFromShape(lines, keywords);
    assert ExtractField(text, keywords) == ExtractFrom(lines, keywords);
  }

  /** Text without a newline that does not begin or end with whitespace. */
  predicate OneLine(r: string) {
    '\n' !in r && (|r| > 0 ==> !IsSpace(r[0]) && !IsSpace(r[|r| - 1]))
  }

  lemma SegmentOneLine(line: string, keyword: string)
    requires keyword != "" && Contains(line, keyword) && !Contains(line, "\n")
    ensures Segment(line, keyword).Ok? && OneLine(Segment(line, keyword).value)
  {
    SegmentShape(line, keyword);
  }

  lemma {:induction false} ExtractFromShape(lines: seq<string>, keywords: seq<string>)
    requires forall k :: 0 <= k < |keywords| ==> keywords[k] != ""
    requires forall i :: 0 <= i < |lines| ==> !Contains(lines[i], "\n")
    ensures ExtractFrom(lines, keywords).Ok? && OneLine(ExtractFrom(lines, keywords).value)
    decreases |lines|
  {
    if lines != [] {
      match KeywordIn(lines[0], keywords, 0)
      case Some(k) =>
        assert ExtractFrom(lines, keywords) == Segment(lines[0], keywords[k]);
        SegmentOneLine(lines[0], keywords[k]);
      case None =>
        assert ExtractFrom(lines, keywords) == ExtractFrom(lines[1..], keywords);
        assert forall i :: 0 <= i < |lines[1..]| ==> lines[1..][i] == lines[i + 1];
        ExtractFromShape(lines[1..], keywords);
    }
  }
}
