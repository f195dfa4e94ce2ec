/** The Google Forms service: recognising a form URL, reading the form's
    questions out of the `FB_PUBLIC_LOAD_DATA_` script variable of its page,
    filling a response payload from resume data by keyword matching, and
    shaping the result of a submission. The HTTP GET and POST and
    `json.loads` are inputs. */
module GoogleForms {
  import opened Wrappers
  import opened Text
  import opened PyValues

  // ---------------------------------------------------------------------
  // extract_form_id

  const PublishedPath := "/forms/d/e/"
  const EditPath := "/forms/d/"

  /** The form id of a URL: the path segment after the first "/forms/d/e/",
      or else after the first "/forms/d/"; None (after logging) when the
      URL has neither. */
  function ExtractFormId(url: string): (r: Option<string>)
    ensures r.None? <==> !Contains(url, EditPath)
  {
    if Contains(url, PublishedPath) then
      SplitPieces(url, PublishedPath);
      ContainsPrefix(url, PublishedPath, EditPath);
      Some(Split(Split(url, PublishedPath)[1], "/")[0])
    else if Contains(url, EditPath) then
      SplitPieces(url, EditPath);
      Some(Split(Split(url, EditPath)[1], "/")[0])
    else None
  }

  /** The id is the text after the first occurrence of the pattern that
      matched, up to the next "/", and never contains "/". */
  lemma FormIdSegment(url: string)
    ensures Contains(url, PublishedPath) ==>
      ExtractFormId(url) == Some(Before(After(url, PublishedPath), "/"))
    ensures !Contains(url, PublishedPath) && Contains(url, EditPath) ==>
      ExtractFormId(url) == Some(Before(After(url, EditPath), "/"))
    ensures ExtractFormId(url).Some? ==> !Contains(ExtractFormId(url).value, "/")
  {
    if Contains(url, PublishedPath) {
      SplitPieces(url, PublishedPath);
      SplitPieces(Split(url, PublishedPath)[1], "/");
      BeforeFree(After(url, PublishedPath), "/");
      BeforeFree(Before(After(url, PublishedPath), PublishedPath), "/");
      BeforeBeforeChar(After(url, PublishedPath), PublishedPath, '/');
    } else if Contains(url, EditPath) {
      SplitPieces(url, EditPath);
      SplitPieces(Split(url, EditPath)[1], "/");
      BeforeFree(After(url, EditPath), "/");
      BeforeBeforeChar(After(url, EditPath), EditPath, '/');
    }
  }

  /** The id comes out as "e" only for a URL with a segment "e" after
      "/forms/d/e/", or when the URL ends in "/forms/d/e" with no slash
      after it: testing the longer pattern first does not rule it out. */
  lemma FormIdE(url: string)
    requires ExtractFormId(url) == Some("e")
    ensures Contains(url, PublishedPath) || EndsWith(url, "/forms/d/e")
  {
    FormIdSegment(url);
    if !Contains(url, PublishedPath) {
      var i := Find(url, EditPath);
      var rest := After(url, EditPath);
      assert rest == url[i + 9..];
      if Contains(rest, "/") {
        var j := Find(rest, "/");
        assert rest[..j] == "e";
        assert url[i..i + 11] == url[i..i + 9] + rest[..1] + rest[1..2];
        OccursThenContains(url, PublishedPath, i);
      } else {
        assert rest == "e";
        assert url[|url| - 10..] == url[i..i + 9] + rest;
      }
    }
  }

  /** A concrete case: the truncated URL "/forms/d/e" gives the id "e". */
  lemma FormIdEExample()
    ensures ExtractFormId("/forms/d/e") == Some("e")
  {
    var url := "/forms/d/e";
    assert !Contains(url, PublishedPath);
    assert OccursAt(url, EditPath, 0);
    OccursThenContains(url, EditPath, 0);
    FormIdSegment(url);
    assert After(url, EditPath) == "e";
    assert "e"[0..1][0] == 'e';
    assert !OccursAt("e", "/", 0);
    assert Before("e", "/") == "e";
  }

  // ---------------------------------------------------------------------
  // _get_form_response_url

  const ViewPath := "/viewform"
  const ResponsePath := "/formResponse"

  lemma ViewPathChars(k: nat)
    requires 0 < k < |ViewPath|
    ensures ViewPath[k] != '/'
  {
    assert ViewPath[1..] == "viewform";
    assert ViewPath[k] == ViewPath[1..][k - 1];
    assert '/' !in "viewform";
  }

  /** "/viewform" cannot straddle a seam followed by a slash. */
  lemma NoStraddleBeforeSlash(x: string, y: string)
    requires |y| > 0 && y[0] == '/'
    ensures !Straddles(x, y, ViewPath)
  {
    forall k | 0 < k < |ViewPath| ensures !StartsWith(y, ViewPath[k..]) {
      ViewPathChars(k);
      assert ViewPath[k..][0] == ViewPath[k];
    }
  }

  /** Nor a seam after text ending in "/formResponse". */
  lemma NoStraddleAfterResponse(x: string, y: string)
    requires EndsWith(x, ResponsePath)
    ensures !Straddles(x, y, ViewPath)
  {
    forall k | 0 < k < |ViewPath| ensures !EndsWith(x, ViewPath[..k]) {
      assert ViewPath[..k][0] == '/';
      assert x[|x| - k] == ResponsePath[13 - k];
      assert ResponsePath[5..] == "Response";
      assert ResponsePath[13 - k] == ResponsePath[5..][8 - k];
      assert '/' !in "Response";
    }
  }

  lemma ResponsePathFree()
    ensures !Contains(ResponsePath, ViewPath) && !Contains("formResponse", ViewPath)
  {
    forall i | 0 <= i <= 4 ensures !OccursAt(ResponsePath, ViewPath, i) {
      assert ResponsePath[i..i + 9][1] == ResponsePath[i + 1];
      if i == 0 {
        assert ResponsePath[1] != ViewPath[1];
      } else {
        assert ResponsePath[i..i + 9][0] == ResponsePath[i] != '/';
      }
    }
    forall i | 0 <= i <= 3 ensures !OccursAt("formResponse", ViewPath, i) {
      assert "formResponse"[i..i + 9][0] == "formResponse"[i] != '/';
    }
  }

  /** One replacement step creates no "/viewform". */
  lemma ReplaceStepFree(a: string, b: string)
    requires !Contains(a, ViewPath) && !Contains(b, ViewPath)
    ensures !Contains(a + ResponsePath + b, ViewPath)
  {
    ResponsePathFree();
    NoStraddleBeforeSlash(a, ResponsePath);
    ConcatFree(a, ResponsePath, ViewPath);
    var x := a + ResponsePath;
    assert x[|x| - 13..] == ResponsePath;
    NoStraddleAfterResponse(x, b);
    ConcatFree(x, b, ViewPath);
  }

  /** `replace('/viewform', '/formResponse')` leaves no "/viewform" behind. */
  lemma {:induction false} ReplaceViewFree(s: string)
    ensures !Contains(Replace(s, ViewPath, ResponsePath), ViewPath)
    decreases |s|
  {
    var i := Find(s, ViewPath);
    if i >= 0 {
      var rest := s[i + |ViewPath|..];
      var tail := Replace(rest, ViewPath, ResponsePath);
      assert Replace(s, ViewPath, ResponsePath) == s[..i] + ResponsePath + tail;
      ReplaceViewFree(rest);
      BeforeFree(s, ViewPath);
      ReplaceStepFree(s[..i], tail);
    }
  }

  /** Appending "/formResponse" to text without "/viewform". */
  lemma AppendResponse(u: string)
    requires !Contains(u, ViewPath)
    ensures !Contains(u + ResponsePath, ViewPath) && EndsWith(u + ResponsePath, ResponsePath)
    ensures StartsWith(u + ResponsePath, u)
  {
    ResponsePathFree();
    NoStraddleBeforeSlash(u, ResponsePath);
    ConcatFree(u, ResponsePath, ViewPath);
    assert (u + ResponsePath)[|u|..] == ResponsePath;
    assert (u + ResponsePath)[..|u|] == u;
  }

  /** Nor a seam between text ending in "/" and "formResponse". */
  lemma NoStraddleAfterSlash(u: string)
    requires EndsWith(u, "/")
    ensures !Straddles(u, "formResponse", ViewPath)
  {
    var y := "formResponse";
    assert u[|u| - 1] == '/';
    forall k | 0 < k < |ViewPath| ensures !(EndsWith(u, ViewPath[..k]) && StartsWith(y, ViewPath[k..])) {
      if k > 1 {
        ViewPathChars(k - 1);
        assert ViewPath[..k][k - 1] == ViewPath[k - 1];
      } else {
        assert ViewPath[1..][0] == 'v';
      }
    }
  }

  /** Text ending in "/" followed by `y` ends in "/" + `y` and starts with the text. */
  lemma SlashThen(u: string, y: string)
    requires EndsWith(u, "/")
    ensures EndsWith(u + y, "/" + y) && StartsWith(u + y, u)
  {
    var r := u + y;
    assert r[|r| - |y| - 1..] == u[|u| - 1..] + y;
    assert r[..|u|] == u;
  }

  /** Appending "formResponse" to text without "/viewform" that ends in "/". */
  lemma AppendResponseAfterSlash(u: string)
    requires !Contains(u, ViewPath) && EndsWith(u, "/")
    ensures !Contains(u + "formResponse", ViewPath) && EndsWith(u + "formResponse", ResponsePath)
    ensures StartsWith(u + "formResponse", u)
  {
    ResponsePathFree();
    NoStraddleAfterSlash(u);
    ResponsePathSplit();
    AppendNameFree(u, "formResponse");
  }

  lemma ResponsePathSplit()
    ensures "/" + "formResponse" == ResponsePath
  {
    var c := "/" + "formResponse";
    forall i | 0 <= i < 13 ensures c[i] == ResponsePath[i] {
      if i > 0 {
        assert c[i] == "formResponse"[i - 1];
      }
    }
  }

  lemma AppendNameFree(u: string, y: string)
    requires !Contains(u, ViewPath) && EndsWith(u, "/")
    requires !Contains(y, ViewPath) && !Straddles(u, y, ViewPath) && "/" + y == ResponsePath
    ensures !Contains(u + y, ViewPath) && EndsWith(u + y, ResponsePath) && StartsWith(u + y, u)
  {
    ConcatFree(u, y, ViewPath);
    SlashThen(u, y);
  }

  /** The URL a response is posted to. The result ends in "/formResponse",
      has no "/viewform" left in it, extends the URL with "/viewform"
      replaced, and is the URL itself when that already has this form, so
      a second application changes nothing. */
  method FormResponseUrl(url: string) returns (r: string)
    ensures EndsWith(r, ResponsePath) && !Contains(r, ViewPath)
    ensures StartsWith(r, Replace(url, ViewPath, ResponsePath))
    ensures |r| <= |Replace(url, ViewPath, ResponsePath)| + |ResponsePath|
    ensures EndsWith(Replace(url, ViewPath, ResponsePath), ResponsePath) ==>
      r == Replace(url, ViewPath, ResponsePath)
    ensures EndsWith(url, ResponsePath) && !Contains(url, ViewPath) ==> r == url
    ensures var u := Replace(url, ViewPath, ResponsePath);
      r == u || r == u + ResponsePath || (EndsWith(u, "/") && r == u + "formResponse")
  {
    r := Replace(url, ViewPath, ResponsePath);
    ghost var u := r;
    ReplaceViewFree(url);
    if !EndsWith(r, ResponsePath) {
      if !EndsWith(r, "/") {
        r := r + "/";
        r := r + "formResponse";
        assert r == u + ResponsePath;
        AppendResponse(u);
      } else {
        r := r + "formResponse";
        AppendResponseAfterSlash(u);
      }
    } else {
      assert StartsWith(r, u) by { assert r[..|u|] == u; }
    }
  }

  // ---------------------------------------------------------------------
  // _extract_script_variables

  const DataVariable := "FB_PUBLIC_LOAD_DATA_"

  /** `var\s<name>\s=\s` matches at index `i`, `name` taken literally. */
  predicate HeadAt(html: string, name: string, i: int) {
    0 <= i && i + |name| + 7 <= |html|
    && html[i..i + 3] == "var" && IsSpace(html[i + 3])
    && html[i + 4..i + 4 + |name|] == name && IsSpace(html[i + 4 + |name|])
    && html[i + 5 + |name|] == '=' && IsSpace(html[i + 6 + |name|])
  }

  /** `(.*?);` can match from `j` with the capture `html[j..e]`: `html[e]`
      is ';' and `.` never matches a newline. */
  predicate CaptureTo(html: string, j: int, e: int) {
    0 <= j <= e < |html| && html[e] == ';' && forall k :: j <= k < e ==> html[k] != '\n'
  }

  /** The end of the shortest capture from `j`, if any. */
  function LazyEnd(html: string, j: nat): (r: Option<nat>)
    requires j <= |html|
    ensures r.Some? ==> CaptureTo(html, j, r.value) && forall e :: j <= e < r.value ==> !CaptureTo(html, j, e)
    ensures r.None? ==> forall e :: !CaptureTo(html, j, e)
    decreases |html| - j
  {
    if j == |html| then None
    else if html[j] == ';' then Some(j)
    else if html[j] == '\n' then None
    else
      var r := LazyEnd(html, j + 1);
      assert forall e :: CaptureTo(html, j, e) && e > j ==> CaptureTo(html, j + 1, e);
      r
  }

  /** The pattern matches with its match starting at `i`. */
  predicate MatchAt(html: string, name: string, i: int) {
    HeadAt(html, name, i) && LazyEnd(html, i + |name| + 7).Some?
  }

  /** The leftmost match at or after `i`: its start and the end of its capture. */
  function SearchFrom(html: string, name: string, i: nat): (r: Option<(nat, nat)>)
    requires i <= |html|
    ensures r.None? ==> forall p :: i <= p ==> !MatchAt(html, name, p)
    ensures r.Some? ==>
      (i <= r.value.0 && MatchAt(html, name, r.value.0)
       && r.value.1 == LazyEnd(html, r.value.0 + |name| + 7).value
       && forall p :: i <= p < r.value.0 ==> !MatchAt(html, name, p))
    decreases |html| - i
  {
    if i + |name| + 7 > |html| then None
    else if MatchAt(html, name, i) then Some((i, LazyEnd(html, i + |name| + 7).value))
    else SearchFrom(html, name, i + 1)
  }

  /** `re.compile(r'var\s' + name + r'\s=\s(.*?);').search(html).group(1)`,
      or None when there is no match. The capture holds no ';' and no newline. */
  function ScriptVariable(name: string, html: string): (r: Option<string>)
    ensures r.None? <==> forall p :: !MatchAt(html, name, p)
    ensures r.Some? ==> ';' !in r.value && '\n' !in r.value
  {
    match SearchFrom(html, name, 0)
    case None => None
    case Some((p, e)) =>
      var j := p + |name| + 7;
      assert forall k :: j <= k < e ==> html[k] != ';' by {
        forall k | j <= k < e ensures html[k] != ';' {
          assert !CaptureTo(html, j, k);
        }
      }
      assert forall k :: 0 <= k < e - j ==> html[j..e][k] == html[j + k];
      Some(html[j..e])
  }

  /** The capture is taken from the leftmost match. */
  lemma ScriptVariableLeftmost(name: string, html: string, p: nat)
    requires MatchAt(html, name, p) && forall q :: 0 <= q < p ==> !MatchAt(html, name, q)
    ensures ScriptVariable(name, html) == Some(html[p + |name| + 7..LazyEnd(html, p + |name| + 7).value])
  {
    var r := SearchFrom(html, name, 0);
    assert r.Some?;
    assert r.value.0 == p;
  }

  /** What `_extract_script_variables` returns: None without a match, else
      the decoded capture (an exception of `json.loads` propagates). */
  function ExtractScriptVariable(name: string, html: string, loads: string -> Py<Value>): (r: Py<Value>)
    ensures ScriptVariable(name, html).None? ==> r == Ok(PyNone)
    ensures ScriptVariable(name, html).Some? ==> r == loads(ScriptVariable(name, html).value)
  {
    match ScriptVariable(name, html)
    case None => Ok(PyNone)
    case Some(t) => loads(t)
  }

  /** The reply to the GET request of the form page. */
  datatype Page = Page(status: int, text: string)

  /** `_get_fb_public_load_data`: None unless the status is 200; a GET that
      raised is `Raise(RequestError)`. */
  function LoadData(page: Py<Page>, loads: string -> Py<Value>): (r: Py<Value>)
    ensures page.Raise? ==> r == Raise(page.exc)
    ensures page.Ok? && page.value.status != 200 ==> r == Ok(PyNone)
  {
    var p :- page;
    if p.status != 200 then Ok(PyNone)
    else ExtractScriptVariable(DataVariable, p.text, loads)
  }

  // ---------------------------------------------------------------------
  // _parse_form_entries: from the decoded payload to entry records

  /** One record of `parsed_entries`: the keys "id", "name", "type",
      "required" and "options" of the dict the source builds. */
  datatype Entry = Entry(id: Value, name: Value, kind: Value, required: bool, options: Option<seq<Value>>)

  /** `x[0]` for one option, as a one-element yield. */
  function OptionHead(x: Value): (r: Py<seq<Value>>)
    ensures r.Ok? <==> Index(x, 0).Ok?
    ensures r.Ok? ==> r.value == [Index(x, 0).value]
  {
    var h :- Index(x, 0);
    Ok([h])
  }

  /** `[x[0] for x in opts] if opts else None`. */
  function Options(opts: Value): (r: Py<Option<seq<Value>>>)
    ensures !Truthy(opts) ==> r == Ok(None)
    ensures r.Ok? && r.value.Some? ==> Truthy(opts)
  {
    if !Truthy(opts) then Ok(None)
    else
      var xs :- Iterate(opts);
      var heads :- CollectAll(xs, OptionHead);
      Ok(Some(heads))
  }

  /** The record built for one `sub_entry` of a question with `name` and
      type `kind`; the dict's values are evaluated in key order, so
      `sub_entry[0]`, then `sub_entry[2]`, then `sub_entry[1]`. */
  function DecodeSub(name: Value, kind: Value, sub: Value): (r: Py<seq<Entry>>)
    ensures r.Ok? ==> |r.value| == 1 && r.value[0].name == name && r.value[0].kind == kind
    ensures r.Ok? ==> Index(sub, 0).Ok? && r.value[0].id == Index(sub, 0).value
    ensures r.Ok? ==> Index(sub, 2).Ok? && r.value[0].required == EqInt(Index(sub, 2).value, 1)
    ensures r.Ok? ==> Index(sub, 1).Ok? && Options(Index(sub, 1).value) == Ok(r.value[0].options)
  {
    var id :- Index(sub, 0);
    var req :- Index(sub, 2);
    var opts :- Index(sub, 1);
    var options :- Options(opts);
    Ok([Entry(id, name, kind, EqInt(req, 1), options)])
  }

  /** The inner loop's body, for one question. */
  function SubDecoder(name: Value, kind: Value): Value -> Py<seq<Entry>> {
    sub => DecodeSub(name, kind, sub)
  }

  /** The records one question yields: none for type 8, else one per
      element of `entry[4]`. */
  function DecodeQuestion(entry: Value): Py<seq<Entry>> {
    var kind :- Index(entry, 3);
    if EqInt(kind, 8) then Ok([])
    else
      var name :- Index(entry, 1);
      var subs :- Index(entry, 4);
      var items :- Iterate(subs);
      CollectAll(items, SubDecoder(name, kind))
  }

  /** The guard of `_parse_form_entries`: None when `form_data`,
      `form_data[1]` or `form_data[1][1]` is falsy, else the questions. */
  function QuestionsOf(data: Value): (r: Py<Option<seq<Value>>>)
    ensures !Truthy(data) ==> r == Ok(None)
    ensures r.Ok? && r.value.Some? ==>
      (Truthy(data) && Index(data, 1).Ok? && Truthy(Index(data, 1).value)
       && Index(Index(data, 1).value, 1).Ok? && Truthy(Index(Index(data, 1).value, 1).value)
       && Iterate(Index(Index(data, 1).value, 1).value) == Ok(r.value.value))
  {
    if !Truthy(data) then Ok(None)
    else
      var d1 :- Index(data, 1);
      if !Truthy(d1) then Ok(None)
      else
        var d11 :- Index(d1, 1);
        if !Truthy(d11) then Ok(None)
        else
          var questions :- Iterate(d11);
          Ok(Some(questions))
  }

  /** What `_parse_form_entries` returns once `form_data` is set: the
      records of all questions in order. */
  function EntriesOf(data: Value): Py<Option<seq<Entry>>> {
    var questions :- QuestionsOf(data);
    match questions
    case None => Ok(None)
    case Some(qs) =>
      var es :- CollectAll(qs, DecodeQuestion);
      Ok(Some(es))
  }

  /** The records of one question, one `sub_entry` at a time. */
  method QuestionRecords(entry: Value) returns (r: Py<seq<Entry>>)
    ensures r == DecodeQuestion(entry)
  {
    var kind := Index(entry, 3);
    if kind.Raise? {
      return Raise(kind.exc);
    }
    if EqInt(kind.value, 8) {
      return Ok([]);
    }
    var name := Index(entry, 1).value;
    var subs := Index(entry, 4);
    if subs.Raise? {
      return Raise(subs.exc);
    }
    var items := Iterate(subs.value);
    if items.Raise? {
      return Raise(items.exc);
    }
    r := SubRecords(name, kind.value, items.value);
  }

  /** The inner loop of `_parse_form_entries`: one record per `sub_entry`,
      until the first one that raises. */
  method SubRecords(name: Value, kind: Value, xs: seq<Value>) returns (r: Py<seq<Entry>>)
    ensures r == CollectAll(xs, SubDecoder(name, kind))
  {
    var f := SubDecoder(name, kind);
    var these: seq<Entry> := [];
    var j := 0;
    while j < |xs|
      invariant 0 <= j <= |xs|
      invariant CollectAll(xs[..j], f) == Ok(these)
    {
      CollectStep(xs, f, j);
      var info := f(xs[j]);
      if info.Raise? {
        CollectRaised(xs, f, j + 1);
        return Raise(info.exc);
      }
      these := these + info.value;
      j := j + 1;
    }
    assert xs[..j] == xs;
    return Ok(these);
  }

  /** The question loop of `_parse_form_entries` over a decoded payload. */
  method DecodeEntries(data: Value) returns (r: Py<Option<seq<Entry>>>)
    ensures r == EntriesOf(data)
  {
    var questions := QuestionsOf(data);
    if questions.Raise? {
      return Raise(questions.exc);
    }
    if questions.value.None? {
      return Ok(None);
    }
    var qs := questions.value.value;
    var parsed: seq<Entry> := [];
    var i := 0;
    while i < |qs|
      invariant 0 <= i <= |qs|
      invariant CollectAll(qs[..i], DecodeQuestion) == Ok(parsed)
    {
      CollectStep(qs, DecodeQuestion, i);
      var these := QuestionRecords(qs[i]);
      if these.Raise? {
        CollectRaised(qs, DecodeQuestion, i + 1);
        return Raise(these.exc);
      }
      parsed := parsed + these.value;
      i := i + 1;
    }
    assert qs[..i] == qs;
    return Ok(Some(parsed));
  }

  /** `_parse_form_entries` gives None exactly when one of its three
      truthiness tests fails; an index or iteration error raises instead. */
  lemma EntriesNone(data: Value)
    ensures EntriesOf(data) == Ok(None) <==>
      (!Truthy(data)
       || (Index(data, 1).Ok? && !Truthy(Index(data, 1).value))
       || (Index(data, 1).Ok? && Index(Index(data, 1).value, 1).Ok?
           && !Truthy(Index(Index(data, 1).value, 1).value)))
  {
  }

  /** The records of one question: none for type 8; otherwise one per
      element of `entry[4]`, in order, each with the question's name
      `entry[1]` and type `entry[3]`. */
  lemma QuestionRecordsShape(entry: Value)
    requires DecodeQuestion(entry).Ok?
    ensures Index(entry, 3).Ok? && Index(entry, 1).Ok?
    ensures EqInt(Index(entry, 3).value, 8) ==> DecodeQuestion(entry).value == []
    ensures !EqInt(Index(entry, 3).value, 8) ==>
      (Index(entry, 4).Ok? && Iterate(Index(entry, 4).value).Ok?
       && |DecodeQuestion(entry).value| == |Iterate(Index(entry, 4).value).value|
       && forall j :: 0 <= j < |Iterate(Index(entry, 4).value).value| ==>
         (DecodeSub(Index(entry, 1).value, Index(entry, 3).value, Iterate(Index(entry, 4).value).value[j])
            == Ok([DecodeQuestion(entry).value[j]])
          && DecodeQuestion(entry).value[j].name == Index(entry, 1).value
          && DecodeQuestion(entry).value[j].kind == Index(entry, 3).value))
  {
    var kind := Index(entry, 3).value;
    if !EqInt(kind, 8) {
      var name := Index(entry, 1).value;
      var items := Iterate(Index(entry, 4).value).value;
      var f := SubDecoder(name, kind);
      forall x | f(x).Ok? ensures |f(x).value| == 1 {
        assert f(x) == DecodeSub(name, kind, x);
      }
      CollectSingles(items, f);
    }
  }

  /** No decoded record has type 8. */
  lemma NoSessionRecords(data: Value, es: seq<Entry>)
    requires EntriesOf(data) == Ok(Some(es))
    ensures forall k :: 0 <= k < |es| ==> !EqInt(es[k].kind, 8)
  {
    var qs := QuestionsOf(data).value.value;
    forall k | 0 <= k < |es| ensures !EqInt(es[k].kind, 8) {
      CollectFrom(qs, DecodeQuestion, k);
      var i, j :| 0 <= i < |qs| && DecodeQuestion(qs[i]).Ok? && 0 <= j < |DecodeQuestion(qs[i]).value|
        && DecodeQuestion(qs[i]).value[j] == es[k];
      QuestionRecordsShape(qs[i]);
    }
  }

  // The payload layout the decoder reads, and what it yields for it.

  /** One answer slot of a question: its entry id, whether it must be
      answered, and its choice labels. */
  datatype Item = Item(id: int, required: bool, choices: seq<string>)

  /** One question: its title, its type code and its answer slots. */
  datatype Question = Question(title: string, kind: int, items: seq<Item>)

  function EncodeItem(it: Item): Value {
    PyList([PyInt(it.id),
            PyList(seq(|it.choices|, k requires 0 <= k < |it.choices| => PyList([PyStr(it.choices[k])]))),
            PyInt(if it.required then 1 else 0)])
  }

  function EncodeQuestion(q: Question): Value {
    PyList([PyNone, PyStr(q.title), PyNone, PyInt(q.kind),
            PyList(seq(|q.items|, k requires 0 <= k < |q.items| => EncodeItem(q.items[k])))])
  }

  /** `FB_PUBLIC_LOAD_DATA_` as far as the decoder reads it: the questions
      sit at `[1][1]`. */
  function EncodeForm(qs: seq<Question>): Value {
    PyList([PyNone, PyList([PyNone, PyList(seq(|qs|, k requires 0 <= k < |qs| => EncodeQuestion(qs[k])))])])
  }

  function ExpectedEntry(q: Question, it: Item): Entry {
    Entry(PyInt(it.id), PyStr(q.title), PyInt(q.kind), it.required,
          if it.choices == [] then None
          else Some(seq(|it.choices|, k requires 0 <= k < |it.choices| => PyStr(it.choices[k]))))
  }

  function ExpectedRecords(q: Question): seq<Entry> {
    if q.kind == 8 then []
    else seq(|q.items|, k requires 0 <= k < |q.items| => ExpectedEntry(q, q.items[k]))
  }

  /** The records of all questions, in order. */
  function Expected(qs: seq<Question>): seq<Entry> {
    Concat(seq(|qs|, k requires 0 <= k < |qs| => ExpectedRecords(qs[k])))
  }

  lemma ItemDecodes(q: Question, it: Item)
    ensures DecodeSub(PyStr(q.title), PyInt(q.kind), EncodeItem(it)) == Ok([ExpectedEntry(q, it)])
  {
    var opts := Index(EncodeItem(it), 1).value;
    if it.choices != [] {
      var xs := Iterate(opts).value;
      CollectMap(xs, OptionHead, seq(|it.choices|, k requires 0 <= k < |it.choices| => PyStr(it.choices[k])));
    }
  }

  lemma QuestionDecodes(q: Question)
    ensures DecodeQuestion(EncodeQuestion(q)) == Ok(ExpectedRecords(q))
  {
    if q.kind != 8 {
      var items := Iterate(Index(EncodeQuestion(q), 4).value).value;
      var f := SubDecoder(PyStr(q.title), PyInt(q.kind));
      forall i | 0 <= i < |items| ensures f(items[i]) == Ok([ExpectedEntry(q, q.items[i])]) {
        ItemDecodes(q, q.items[i]);
      }
      CollectMap(items, f, ExpectedRecords(q));
    }
  }

  /** Decoding an encoded form gives None for a form without questions and
      otherwise every answer slot of every question not of type 8, in order. */
  lemma EncodeFormDecodes(qs: seq<Question>)
    ensures EntriesOf(EncodeForm(qs)) == if qs == [] then Ok(None) else Ok(Some(Expected(qs)))
  {
    if qs != [] {
      var questions := QuestionsOf(EncodeForm(qs)).value.value;
      var yss := seq(|qs|, k requires 0 <= k < |qs| => ExpectedRecords(qs[k]));
      forall i | 0 <= i < |questions| ensures DecodeQuestion(questions[i]) == Ok(yss[i]) {
        QuestionDecodes(qs[i]);
      }
      CollectConcat(questions, DecodeQuestion, yss);
    }
  }

  // ---------------------------------------------------------------------
  // _fill_entries_with_resume_data and _map_question_to_resume

  /** The keyword ladder of this service, in the order it is tested. */
  const FormRows: seq<seq<string>> := [
    ["name", "full name"],
    ["email", "mail"],
    ["phone", "mobile", "contact"],
    ["skill", "technology"],
    ["education", "degree"],
    ["experience", "work", "job"]
  ]

  /** The profile key each row reads. */
  const ProfileKeys: seq<string> :=
    ["Full Name", "Email", "Phone Number", "Skills", "Education", "Work Experience"]

  /** The profile key for a lowercased label: that of the first row with a
      word occurring in it, or None when no row has one. */
  function ProfileKeyFor(lowered: string): (r: Option<string>)
    ensures r.None? <==> forall k :: 0 <= k < |FormRows| ==> !AnyIn(lowered, FormRows[k])
    ensures r.Some? ==> exists k :: (0 <= k < |FormRows| && r.value == ProfileKeys[k]
      && AnyIn(lowered, FormRows[k]) && forall j :: 0 <= j < k ==> !AnyIn(lowered, FormRows[j]))
  {
    match FirstHit(lowered, FormRows)
    case None => None
    case Some(k) => Some(ProfileKeys[k])
  }

  /** The first row that matches decides, whatever later rows match. */
  lemma ProfileKeyRow(lowered: string, k: nat)
    requires k < |FormRows| && AnyIn(lowered, FormRows[k])
    requires forall j :: 0 <= j < k ==> !AnyIn(lowered, FormRows[j])
    ensures ProfileKeyFor(lowered) == Some(ProfileKeys[k])
  {
  }

  /** `_map_question_to_resume`: the profile value the ladder picks, with
      '' for a missing key or a label no row matches. */
  function MapQuestion(title: string, resume: Dict): (r: Value)
    ensures ProfileKeyFor(Lower(title)).None? ==> r == PyStr("")
    ensures ProfileKeyFor(Lower(title)).Some? && !HasKey(resume, ProfileKeyFor(Lower(title)).value) ==>
      r == PyStr("")
  {
    match ProfileKeyFor(Lower(title))
    case None => PyStr("")
    case Some(key) => GetOr(resume, key, PyStr(""))
  }

  /** The payload key of an entry. */
  function EntryKey(e: Entry): string {
    "entry." + Str(e.id)
  }

  /** What one entry contributes: AttributeError for a name that is not a
      string, None when no row matches or the profile value is falsy,
      else `str` of that value. */
  function Answer(e: Entry, resume: Dict): (r: Py<Option<string>>)
    ensures r.Raise? <==> !e.name.PyStr?
    ensures r.Raise? ==> r.exc == AttributeError
    ensures r.Ok? && r.value.Some? ==> r.value.value != ""
  {
    var lowered :- ValueLower(e.name);
    match ProfileKeyFor(lowered)
    case None => Ok(None)
    case Some(key) =>
      match Lookup(resume, key)
      case None => Ok(None)
      case Some(v) => if Truthy(v) then Ok(Some(Str(v))) else Ok(None)
  }

  /** The ladders of `_fill_entries_with_resume_data` and
      `_map_question_to_resume` agree: an entry is answered exactly when
      the value `_map_question_to_resume` picks for its name is truthy,
      and then with `str` of that value. */
  lemma AnswerIsMapQuestion(e: Entry, resume: Dict)
    requires e.name.PyStr?
    ensures Answer(e, resume) ==
      (var v := MapQuestion(e.name.s, resume); if Truthy(v) then Ok(Some(Str(v))) else Ok(None))
  {
  }

  /** One turn of the loop: `filled_data[entry_id] = str(value)` when there is an answer. */
  function FillStep(d: Dict, e: Entry, resume: Dict): Py<Dict> {
    var a :- Answer(e, resume);
    if a.Some? then Ok(Put(d, EntryKey(e), PyStr(a.value))) else Ok(d)
  }

  /** The payload after the loop over `entries`; the first entry whose
      name is not a string ends it with AttributeError. */
  function Fill(es: seq<Entry>, resume: Dict): Py<Dict>
    decreases |es|
  {
    if es == [] then Ok([])
    else
      var d :- Fill(es[..|es| - 1], resume);
      FillStep(d, es[|es| - 1], resume)
  }

  /** `_fill_entries_with_resume_data`. */
  method FillEntries(es: seq<Entry>, resume: Dict) returns (r: Py<Dict>)
    ensures r == Fill(es, resume)
  {
    var filled: Dict := [];
    var i := 0;
    while i < |es|
      invariant 0 <= i <= |es|
      invariant Fill(es[..i], resume) == Ok(filled)
    {
      assert es[..i + 1][..i] == es[..i];
      var used := Answer(es[i], resume);
      if used.Raise? {
        FillRaisedRest(es, resume, i + 1);
        return Raise(used.exc);
      }
      if used.value.Some? {
        filled := Put(filled, EntryKey(es[i]), PyStr(used.value.value));
      }
      i := i + 1;
    }
    assert es[..i] == es;
    return Ok(filled);
  }

  lemma {:induction false} FillRaisedRest(es: seq<Entry>, resume: Dict, i: nat)
    requires i <= |es| && Fill(es[..i], resume).Raise?
    ensures Fill(es, resume) == Fill(es[..i], resume)
    decreases |es| - i
  {
    if i < |es| {
      assert es[..i + 1][..i] == es[..i];
      FillRaisedRest(es, resume, i + 1);
    } else {
      assert es[..i] == es;
    }
  }

  /** The payload after one more entry raises when the earlier entries
      raised, or when this entry's name is not a string. */
  lemma FillLast(es: seq<Entry>, resume: Dict)
    requires es != []
    ensures Fill(es, resume).Raise? <==>
      Fill(es[..|es| - 1], resume).Raise? || !es[|es| - 1].name.PyStr?
    ensures Fill(es, resume).Raise? && Fill(es[..|es| - 1], resume).Ok? ==>
      Fill(es, resume).exc == AttributeError
    ensures Fill(es[..|es| - 1], resume).Raise? ==> Fill(es, resume) == Fill(es[..|es| - 1], resume)
  {
    var prefix := Fill(es[..|es| - 1], resume);
    if prefix.Ok? {
      var a := Answer(es[|es| - 1], resume);
      assert Fill(es, resume) == FillStep(prefix.value, es[|es| - 1], resume);
    }
  }

  /** Filling raises exactly when some entry's name is not a string. */
  lemma {:induction false} FillRaises(es: seq<Entry>, resume: Dict)
    ensures Fill(es, resume).Raise? <==> BadName(es)
    ensures Fill(es, resume).Raise? ==> Fill(es, resume).exc == AttributeError
    decreases |es|
  {
    if es != [] {
      var n := |es| - 1;
      FillRaises(es[..n], resume);
      FillLast(es, resume);
      BadNameLast(es);
    }
  }

  /** Some entry's name is not a string. */
  predicate BadName(es: seq<Entry>) {
    exists i :: 0 <= i < |es| && !es[i].name.PyStr?
  }

  lemma BadNameLast(es: seq<Entry>)
    requires es != []
    ensures BadName(es) <==> BadName(es[..|es| - 1]) || !es[|es| - 1].name.PyStr?
  {
    var n := |es| - 1;
    if BadName(es[..n]) {
      var i :| 0 <= i < n && !es[..n][i].name.PyStr?;
      assert es[i] == es[..n][i];
    }
    if BadName(es) {
      var i :| 0 <= i < |es| && !es[i].name.PyStr?;
      if i < n {
        assert es[..n][i] == es[i];
      }
    }
  }

  /** The last answer written under `key`, which is what the payload holds there. */
  function LastAnswer(es: seq<Entry>, resume: Dict, key: string): Option<Value>
    decreases |es|
  {
    if es == [] then None
    else
      var e := es[|es| - 1];
      var a := Answer(e, resume);
      if EntryKey(e) == key && a.Ok? && a.value.Some? then Some(PyStr(a.value.value))
      else LastAnswer(es[..|es| - 1], resume, key)
  }

  /** The payload maps each key to the last answer written under it, and
      has no key no answer was written under. */
  lemma {:induction false} FillLookup(es: seq<Entry>, resume: Dict, key: string)
    requires Fill(es, resume).Ok?
    ensures Lookup(Fill(es, resume).value, key) == LastAnswer(es, resume, key)
    decreases |es|
  {
    if es != [] {
      var n := |es| - 1;
      var d := Fill(es[..n], resume).value;
      FillLookup(es[..n], resume, key);
      var a := Answer(es[n], resume);
      if a.value.Some? {
        PutLookup(d, EntryKey(es[n]), PyStr(a.value.value), key);
      }
    }
  }

  /** The payload has distinct keys and only non-empty string values. */
  lemma {:induction false} FillValues(es: seq<Entry>, resume: Dict)
    requires Fill(es, resume).Ok?
    ensures DistinctKeys(Fill(es, resume).value)
    ensures forall k :: 0 <= k < |Fill(es, resume).value| ==>
      Fill(es, resume).value[k].1.PyStr? && Fill(es, resume).value[k].1.s != ""
    decreases |es|
  {
    if es != [] {
      var n := |es| - 1;
      var d := Fill(es[..n], resume).value;
      FillValues(es[..n], resume);
      var a := Answer(es[n], resume);
      if a.value.Some? {
        PutDistinct(d, EntryKey(es[n]), PyStr(a.value.value));
        PutValues(d, EntryKey(es[n]), PyStr(a.value.value));
        var r := Put(d, EntryKey(es[n]), PyStr(a.value.value));
        forall k | 0 <= k < |r| ensures r[k].1.PyStr? && r[k].1.s != "" {
          if r[k] != (EntryKey(es[n]), PyStr(a.value.value)) {
            var j :| 0 <= j < |d| && d[j] == r[k];
          }
        }
      }
    }
  }

  // ---------------------------------------------------------------------
  // _get_default_fields and get_form_structure

  function FieldDict(kind: string, caption: string): Value {
    PyDict([("type", PyStr(kind)), ("label", PyStr(caption))])
  }

  /** `_get_default_fields`: the five fields `get_form_structure` always offers. */
  const DefaultFields: seq<Value> := [
    FieldDict("text", "Name"),
    FieldDict("email", "Email"),
    FieldDict("text", "Phone"),
    FieldDict("textarea", "Skills"),
    FieldDict("text", "Education")
  ]

  /** Their labels, in order. */
  const DefaultLabels: seq<string> := ["Name", "Email", "Phone", "Skills", "Education"]

  lemma DefaultFieldLabels()
    ensures |DefaultFields| == |DefaultLabels|
    ensures forall k :: 0 <= k < |DefaultFields| ==> Lookup(DefaultFields[k].entries, "label") == Some(PyStr(DefaultLabels[k]))
  {
  }

  /** `get_form_structure`: the default fields and the form id (None for a
      URL without "/forms/d/"). */
  function FormStructure(url: string): (r: Value)
    ensures r.PyDict? && Keys(r.entries) == ["fields", "form_id"]
    ensures Lookup(r.entries, "fields") == Some(PyList(DefaultFields))
    ensures Lookup(r.entries, "form_id") ==
      Some(if Contains(url, EditPath) then PyStr(ExtractFormId(url).value) else PyNone)
  {
    var id := match ExtractFormId(url) case None => PyNone case Some(s) => PyStr(s);
    PyDict([("fields", PyList(DefaultFields)), ("form_id", id)])
  }

  /** A label that starts with the `w`-th word of row `k` and contains no
      word of an earlier row reads row `k`'s profile key. */
  lemma LabelRow(lowered: string, k: nat, w: nat)
    requires k < |FormRows| && w < |FormRows[k]| && StartsWith(lowered, FormRows[k][w])
    requires forall j :: 0 <= j < k ==> !AnyIn(lowered, FormRows[j])
    ensures ProfileKeyFor(lowered) == Some(ProfileKeys[k])
  {
    assert OccursAt(lowered, FormRows[k][w], 0);
    OccursThenContains(lowered, FormRows[k][w], 0);
    ProfileKeyRow(lowered, k);
  }

  /** Each default field's label is picked up by the ladder: "Name",
      "Email", "Phone", "Skills" and "Education" read the profile keys
      "Full Name", "Email", "Phone Number", "Skills" and "Education". */
  lemma DefaultLabelsMapped(resume: Dict)
    ensures forall k :: 0 <= k < |DefaultLabels| ==>
      MapQuestion(DefaultLabels[k], resume) == GetOr(resume, ProfileKeys[k], PyStr(""))
  {
    forall k | 0 <= k < |DefaultLabels|
      ensures MapQuestion(DefaultLabels[k], resume) == GetOr(resume, ProfileKeys[k], PyStr(""))
    {
      DefaultLabelMapped(k);
    }
  }

  lemma DefaultLabelMapped(k: nat)
    requires k < |DefaultLabels|
    ensures ProfileKeyFor(Lower(DefaultLabels[k])) == Some(ProfileKeys[k])
  {
    if k == 0 {
      assert DefaultLabels[0] == "Name" && ProfileKeys[0] == "Full Name";
      LabelName();
    } else if k == 1 {
      assert DefaultLabels[1] == "Email" && ProfileKeys[1] == "Email";
      LabelEmail();
    } else if k == 2 {
      assert DefaultLabels[2] == "Phone" && ProfileKeys[2] == "Phone Number";
      LabelPhone();
    } else if k == 3 {
      assert DefaultLabels[3] == "Skills" && ProfileKeys[3] == "Skills";
      LabelSkills();
    } else {
      assert DefaultLabels[4] == "Education" && ProfileKeys[4] == "Education";
      LabelEducation();
    }
  }

  lemma LabelName()
    ensures ProfileKeyFor(Lower("Name")) == Some("Full Name")
  {
    assert Lower("Name") == "name";
    LabelRow("name", 0, 0);
  }

  lemma LabelEmail()
    ensures ProfileKeyFor(Lower("Email")) == Some("Email")
  {
    assert Lower("Email") == "email";
    RowMissing("email", FormRows[0], [0, 0]);
    LabelRow("email", 1, 0);
  }

  lemma LabelPhone()
    ensures ProfileKeyFor(Lower("Phone")) == Some("Phone Number")
  {
    assert Lower("Phone") == "phone";
    RowMissing("phone", FormRows[0], [1, 0]);
    RowMissing("phone", FormRows[1], [1, 0]);
    LabelRow("phone", 2, 0);
  }

  lemma LabelSkills()
    ensures ProfileKeyFor(Lower("Skills")) == Some("Skills")
  {
    assert Lower("Skills") == "skills";
    RowMissing("skills", FormRows[0], [0, 0]);
    RowMissing("skills", FormRows[1], [0, 0]);
    RowMissing("skills", FormRows[2], [0, 0, 0]);
    LabelRow("skills", 3, 0);
  }

  /** "contact" is the one row word whose letters all occur in "education". */
  lemma LabelEducationRow2()
    ensures !AnyIn("education", FormRows[2])
  {
    MissingChar("education", FormRows[2][0], 0);
    MissingChar("education", FormRows[2][1], 0);
    EducationNoContact();
  }

  lemma LabelEducation()
    ensures ProfileKeyFor(Lower("Education")) == Some("Education")
  {
    assert Lower("Education") == "education";
    RowMissing("education", FormRows[0], [2, 0]);
    RowMissing("education", FormRows[1], [1, 0]);
    LabelEducationRow2();
    RowMissing("education", FormRows[3], [0, 3]);
    LabelRow("education", 4, 0);
  }

  lemma EducationNoContact()
    ensures !Contains("education", "contact")
  {
    var e, c := "education", "contact";
    forall i | 0 <= i && i + |c| <= |e| ensures !OccursAt(e, c, i) {
      assert e[i..i + |c|][0] == e[i];
      if i == 0 {
        assert e[0] == 'e';
      } else if i == 1 {
        assert e[1] == 'd';
      } else {
        assert e[2] == 'u';
      }
    }
  }

  // ---------------------------------------------------------------------
  // submit_form_response

  /** The dict `submit_form_response` returns: success with the filled
      fields and a message, a failure with a fixed message, or a failure
      carrying an exception (whose text is not modelled). */
  datatype SubmitResult =
    | Submitted(filledFields: seq<string>, message: string)
    | Failed(error: string)
    | Crashed(exc: Exc)

  const NoEntriesError := "Could not parse form entries"
  const PostError := "Form submission failed"

  /** `f"{k}: {str(v)[:50]}..."` for one payload item. */
  function FieldLine(item: (string, Value)): string {
    item.0 + ": " + Take(Str(item.1), 50) + "..."
  }

  function SuccessMessage(n: nat): string {
    "Form submitted successfully with " + IntToStr(n) + " fields"
  }

  /** The result for the parse outcome `parsed`, the profile and the status
      of the POST (None when the POST raised). */
  function Shape(parsed: Py<Option<seq<Entry>>>, resume: Dict, postStatus: Option<int>): (r: SubmitResult)
    ensures r.Crashed? <==>
      parsed.Raise? || (parsed.value.Some? && parsed.value.value != [] && BadName(parsed.value.value))
    ensures r.Crashed? ==> r.exc == (if parsed.Raise? then parsed.exc else AttributeError)
    ensures r == Failed(NoEntriesError) <==>
      parsed.Ok? && (parsed.value.None? || parsed.value.value == [])
    ensures r == Failed(PostError) <==>
      (parsed.Ok? && parsed.value.Some? && parsed.value.value != []
       && !BadName(parsed.value.value) && postStatus != Some(200))
  {
    match parsed
    case Raise(e) => Crashed(e)
    case Ok(entries) =>
      if entries.None? || entries.value == [] then Failed(NoEntriesError)
      else
        FillRaises(entries.value, resume);
        match Fill(entries.value, resume)
        case Raise(e) => Crashed(e)
        case Ok(d) =>
          if postStatus == Some(200) then
            Submitted(seq(|d|, k requires 0 <= k < |d| => FieldLine(d[k])), SuccessMessage(|d|))
          else Failed(PostError)
  }

  /** What `_parse_form_entries` yields for the GET reply. */
  function ParseOutcome(page: Py<Page>, loads: string -> Py<Value>): Py<Option<seq<Entry>>> {
    var data :- LoadData(page, loads);
    EntriesOf(data)
  }

  /** No entries means no submission: the result does not depend on the POST. */
  lemma NoEntriesNoSubmission(parsed: Py<Option<seq<Entry>>>, resume: Dict, s1: Option<int>, s2: Option<int>)
    requires parsed == Ok(None) || parsed == Ok(Some([]))
    ensures Shape(parsed, resume, s1) == Shape(parsed, resume, s2) == Failed(NoEntriesError)
  {
  }

  /** Success exactly when there are entries, they fill without error and
      the POST answered 200. Then there is one line per payload item, in
      order: its key, ": ", at most 50 leading characters of the value
      (at least one, as no value is empty) and "...", and the message
      counts the payload's items. */
  lemma SubmittedShape(parsed: Py<Option<seq<Entry>>>, resume: Dict, postStatus: Option<int>)
    ensures Shape(parsed, resume, postStatus).Submitted? <==>
      (parsed.Ok? && parsed.value.Some? && parsed.value.value != []
       && Fill(parsed.value.value, resume).Ok? && postStatus == Some(200))
    ensures Shape(parsed, resume, postStatus).Submitted? ==>
      (var d := Fill(parsed.value.value, resume).value;
       var lines := Shape(parsed, resume, postStatus).filledFields;
       |lines| == |d| && Shape(parsed, resume, postStatus).message == SuccessMessage(|d|)
       && forall k :: 0 <= k < |d| ==>
         (d[k].1.PyStr? && StartsWith(lines[k], d[k].0 + ": ") && EndsWith(lines[k], "...")
          && |d[k].0| + 6 <= |lines[k]| <= |d[k].0| + 55
          && StartsWith(d[k].1.s, lines[k][|d[k].0| + 2..|lines[k]| - 3])))
  {
    if Shape(parsed, resume, postStatus).Submitted? {
      var d := Fill(parsed.value.value, resume).value;
      var lines := Shape(parsed, resume, postStatus).filledFields;
      FillValues(parsed.value.value, resume);
      forall k | 0 <= k < |d|
        ensures StartsWith(lines[k], d[k].0 + ": ") && EndsWith(lines[k], "...")
        ensures |d[k].0| + 6 <= |lines[k]| <= |d[k].0| + 55
        ensures StartsWith(d[k].1.s, lines[k][|d[k].0| + 2..|lines[k]| - 3])
      {
        var t := Take(Str(d[k].1), 50);
        assert lines[k] == d[k].0 + ": " + t + "...";
        assert |t| >= 1;
        assert lines[k][..|d[k].0| + 2] == d[k].0 + ": ";
        assert lines[k][|lines[k]| - 3..] == "...";
        assert lines[k][|d[k].0| + 2..|lines[k]| - 3] == t;
      }
    }
  }

  /** The service object; only the field `form_data` changes. */
  class FormsService {
    var formData: Value

    constructor()
      ensures formData == PyNone
    {
      formData := PyNone;
    }

    /** `_parse_form_entries` on the GET reply `page`: `form_data` becomes
        the decoded payload (unless fetching or decoding it raised), then
        its records are collected. */
    method ParseFormEntries(page: Py<Page>, loads: string -> Py<Value>) returns (r: Py<Option<seq<Entry>>>)
      modifies this
      ensures LoadData(page, loads).Raise? ==>
        r == Raise(LoadData(page, loads).exc) && formData == old(formData)
      ensures LoadData(page, loads).Ok? ==>
        formData == LoadData(page, loads).value && r == EntriesOf(formData)
    {
      var loaded := LoadData(page, loads);
      if loaded.Raise? {
        return Raise(loaded.exc);
      }
      formData := loaded.value;
      r := DecodeEntries(formData);
    }

    /** `submit_form_response`: parse the entries of the page, fill them
        from the profile and shape the result from the POST's outcome. */
    method SubmitFormResponse(page: Py<Page>, loads: string -> Py<Value>, resume: Dict, postStatus: Option<int>)
      returns (r: SubmitResult)
      modifies this
      ensures r == Shape(ParseOutcome(page, loads), resume, postStatus)
      ensures LoadData(page, loads).Ok? ==> formData == LoadData(page, loads).value
      ensures LoadData(page, loads).Raise? ==> formData == old(formData)
    {
      var entries := ParseFormEntries(page, loads);
      if entries.Raise? {
        return Crashed(entries.exc);
      }
      if entries.value.None? || entries.value.value == [] {
        return Failed(NoEntriesError);
      }
      var filled := FillEntries(entries.value.value, resume);
      if filled.Raise? {
        return Crashed(filled.exc);
      }
      var d := filled.value;
      if postStatus == Some(200) {
        var lines := seq(|d|, k requires 0 <= k < |d| => FieldLine(d[k]));
        return Submitted(lines, SuccessMessage(|d|));
      }
      return Failed(PostError);
    }
  }
}
