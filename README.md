# Resume auto-filler: form decoding, field resolution and resume cleaning

This project models the logic in the backend services of a resume-driven form filler. The model is written in Dafny, and the proofs are about that model. Three services are covered.

- **Google Forms service** (`google_forms.dfy`, module `GoogleForms`). It covers:
  - taking the form id out of a form URL;
  - rewriting a view URL into the response-collection URL;
  - finding the `var FB_PUBLIC_LOAD_DATA_ = …;` assignment in the page text;
  - decoding the nested array it holds into entry records;
  - building the `entry.<id>` payload from a resume profile, through a keyword ladder;
  - shaping the result of a submission.

  The service object's `form_data` field is a class field that `ParseFormEntries` assigns.
- **Form filler** (`form_filler.dfy`, module `FormFiller`). It covers:
  - the eight-category ladder of `_get_value_for_field`, with its fallback to the first truthy profile value;
  - the `_format_*` flatteners;
  - the keyword fallback mapping over (context, element) records;
  - the two parts of `_get_ai_field_mappings` that do not talk to the model:
    - the overlay of the form's label and type onto the field records, done in place on an array;
    - the conversion of the model's reply into element mappings.

  Page elements are an opaque type parameter.
- **Resume parser** (`resume_parser.dfy`, module `ResumeParser`). It covers:
  - the extension dispatch;
  - the minimum-content check on parsed data;
  - the constant fallback profile;
  - the response handling of `_parse_with_ai`;
  - `_clean_json_response`;
  - the line/keyword scan of `_extract_field`.

There are also three supporting modules:

- `python_values.dfy` (`PyValues`) holds:
  - a JSON-like value type standing for the decoded Python objects;
  - dictionaries as ordered item lists, where lookup takes the first item with the key;
  - Python's truthiness, `str`, `repr`, indexing, iteration and `get`;
  - a fold standing for a loop that stops at the first exception.
- `text.dfy` (`Text`, plus the `Option` type in `Wrappers`) holds Python's string operations:
  - `in`, `find`, `split` and `join`;
  - `replace`, `strip`, `lower`;
  - `' '.join(s.split())`;
  - slicing;
  - decimal `str` of integers.
- `llm_output.dfy` (`LlmOutput`) holds the code-fence cutting that both the form filler and the resume parser apply to the model's reply.

How foreign calls are handled:

- Each foreign call becomes a parameter:
  - the HTTP GET reply is a `Page` value, or the exception of the call;
  - the POST outcome is its status code, or None when the POST raised;
  - `json.loads` is a function from text to a value or an exception;
  - each language-model completion is a `Completion`: no client, a failed call, or the reply text.
- Exceptions are values of `Py<T>` (`Ok` or `Raise` with an exception kind). A caught exception leads to the branch the source takes for it.

Where the code behaves differently from what its docstrings and names suggest, the model follows the code:

- `extract_form_id` returns `"e"` for a URL that ends in `/forms/d/e` with no slash after it (`GoogleForms.FormIdE`, `GoogleForms.FormIdEExample`).
- Without an API key the resume parser's `not self.llm` test itself raises AttributeError, because the attribute was never assigned. It does not return the fallback profile (`ResumeParser.ParseWithAi`). The form filler makes the same test inside a `try`, so there the fallback mapping is used.
- `split('```json')[1].split('```')[0]` cuts at the second "```json" when a "```" overlaps it (`LlmOutput.FenceBodyJson`).
- When a profile value the fallbacks pass through `str` is present as a null (None), it comes out as the text `'None'`, which is truthy and non-blank. This happens in the fallback mapping's skills, education and experience entries and in the form filler's certifications row (`FormFiller.DataMapValue`, `FormFiller.Certifications`). A missing key gives `''` instead.
- The two keyword ladders differ, and each is modelled as coded. For example, "degree skill" reads the education entry in the form filler but the skills entry in the Google Forms filler (`FormFiller.LaddersDiffer`).

## Model

| member | source | states |
|---|---|---|
| GoogleForms.ExtractFormId | backend/services/google_forms_service.py:28-41 | None exactly when the URL contains neither `/forms/d/e/` nor `/forms/d/` |
| GoogleForms.FormIdSegment | backend/services/google_forms_service.py:31-36 | the id is the text after the first `/forms/d/e/` (tested first) or else after `/forms/d/`, up to the next `/`; it never contains `/` |
| GoogleForms.FormIdE | backend/services/google_forms_service.py:31-36 | an id `"e"` comes only from a URL with `/forms/d/e/` or one ending in `/forms/d/e` |
| GoogleForms.FormIdEExample | backend/services/google_forms_service.py:34-36 | the URL `/forms/d/e` does give the id `"e"` |
| GoogleForms.ReplaceViewFree | backend/services/google_forms_service.py:91 | replacing every `/viewform` by `/formResponse` leaves no `/viewform` |
| GoogleForms.FormResponseUrl | backend/services/google_forms_service.py:89-96 | the result is the `/viewform`-replaced URL itself when it already ends in `/formResponse`, else that URL plus `/formResponse`, or plus `formResponse` after a trailing `/`; it ends in `/formResponse` and has no `/viewform`; a response URL is returned unchanged, so applying it twice is applying it once |
| GoogleForms.LazyEnd | backend/services/google_forms_service.py:100 | the lazy `(.*?);` capture ends at the first `;` with no newline before it, or there is none |
| GoogleForms.SearchFrom | backend/services/google_forms_service.py:100-101 | `search` finds the leftmost position where `var\s<name>\s=\s` is followed by a capture |
| GoogleForms.ScriptVariable | backend/services/google_forms_service.py:98-104 | None exactly when no position matches; a capture has no `;` and no newline |
| GoogleForms.ScriptVariableLeftmost | backend/services/google_forms_service.py:100-104 | the capture is the one at the leftmost match, cut at its first `;` |
| GoogleForms.ExtractScriptVariable | backend/services/google_forms_service.py:98-105 | None without a match, else `json.loads` of the capture |
| GoogleForms.LoadData | backend/services/google_forms_service.py:107-113 | an exception of the GET propagates; a status other than 200 gives None |
| GoogleForms.OptionHead | backend/services/google_forms_service.py:135 | `x[0]` of one option, raising as indexing does |
| GoogleForms.Options | backend/services/google_forms_service.py:135 | a falsy `sub_entry[1]` gives None; a list of options only comes from a truthy one |
| GoogleForms.DecodeSub | backend/services/google_forms_service.py:130-136 | one record with the parent's name and type, id `sub_entry[0]`, required iff `sub_entry[2] == 1` and the options of `sub_entry[1]` |
| GoogleForms.QuestionsOf | backend/services/google_forms_service.py:119-124 | None when the data is falsy; questions only when `form_data`, `[1]` and `[1][1]` are truthy, and they are the elements of `[1][1]` |
| GoogleForms.QuestionRecords | backend/services/google_forms_service.py:125-137 | the body of the question loop yields the records of one question as the decoder defines them, raising where an index of the question raises |
| GoogleForms.SubRecords | backend/services/google_forms_service.py:129-137 | the `sub_entry` loop yields the decoded record of every element in order, and stops with the first one that raises |
| GoogleForms.DecodeEntries | backend/services/google_forms_service.py:119-139 | the nested loops yield exactly the decoded entry list |
| GoogleForms.EntriesNone | backend/services/google_forms_service.py:119-121 | the result is None iff the payload, `form_data[1]` or `form_data[1][1]` is falsy (an empty list included) |
| GoogleForms.QuestionRecordsShape | backend/services/google_forms_service.py:124-137 | type 8 yields nothing; any other question yields one record per element of `entry[4]`, in order, each with the parent's name `entry[1]` and type `entry[3]` |
| GoogleForms.NoSessionRecords | backend/services/google_forms_service.py:125-126 | no decoded record has type 8 |
| GoogleForms.ItemDecodes | backend/services/google_forms_service.py:130-136 | an encoded item decodes to its id, requiredness and in-order option texts (None for no options) |
| GoogleForms.QuestionDecodes | backend/services/google_forms_service.py:124-137 | an encoded question decodes to one record per item, or none for type 8 |
| GoogleForms.EncodeFormDecodes | backend/services/google_forms_service.py:115-139 | decoding an encoded form gives the records of all its questions in order, and None for a form without questions |
| GoogleForms.ProfileKeyFor | backend/services/google_forms_service.py:150-161 | the profile key of the first row (name, email/mail, phone/mobile/contact, skill/technology, education/degree, experience/work/job) with a word in the label, None iff no row has one |
| GoogleForms.ProfileKeyRow | backend/services/google_forms_service.py:150-161 | the first matching row decides the key |
| GoogleForms.MapQuestion | backend/services/google_forms_service.py:179-196 | `''` when no row matches or the profile lacks the key |
| GoogleForms.Answer | backend/services/google_forms_service.py:146-164 | a name that is not a string raises AttributeError; an answer is never empty |
| GoogleForms.AnswerIsMapQuestion | backend/services/google_forms_service.py:147-164 | the payload value is `str` of the value the question mapper picks, kept only when truthy |
| GoogleForms.FillEntries | backend/services/google_forms_service.py:141-166 | the loop yields exactly the payload the fold over the entries defines |
| GoogleForms.FillRaisedRest | backend/services/google_forms_service.py:145-147 | once an entry raises, the later entries change nothing |
| GoogleForms.FillRaises | backend/services/google_forms_service.py:145-147 | the loop raises iff some entry's name is not a string, and then AttributeError |
| GoogleForms.FillLookup | backend/services/google_forms_service.py:143-166 | each `entry.<id>` key holds the answer of the last entry with that key that had one, and a key is absent iff no such entry exists |
| GoogleForms.FillValues | backend/services/google_forms_service.py:163-164 | payload keys are distinct and every value is a non-empty string |
| GoogleForms.DefaultFieldLabels | backend/services/google_forms_service.py:50-58 | the five default fields carry the labels Name, Email, Phone, Skills, Education in order |
| GoogleForms.FormStructure | backend/services/google_forms_service.py:43-46 | keys `fields` then `form_id`; the default fields; the extracted id, or None |
| GoogleForms.LabelRow | backend/services/google_forms_service.py:150-161 | a label beginning with a row's word resolves to that row when no earlier row matches |
| GoogleForms.DefaultLabelsMapped | backend/services/google_forms_service.py:50-58 | each default label maps to its own profile entry (Name→Full Name, Phone→Phone Number, …) |
| GoogleForms.DefaultLabelMapped | backend/services/google_forms_service.py:183-194 | the mapper's ladder sends default label k to profile key k |
| GoogleForms.NoEntriesNoSubmission | backend/services/google_forms_service.py:64-66 | no entries give "Could not parse form entries" whatever the POST would do |
| GoogleForms.Shape | backend/services/google_forms_service.py:60-85 | the result crashes iff parsing raised or there are entries and one has a non-string name (then AttributeError); it is the `Could not parse form entries` failure iff parsing found no entries; it is the `Form submission failed` failure iff the entries fill and the POST did not answer 200 |
| GoogleForms.SubmittedShape | backend/services/google_forms_service.py:60-81 | success iff there are entries, filling succeeds and the POST returns 200; then one `"<key>: <first 50 chars>..."` line per payload key, in order, and the count in the message is the payload size |
| GoogleForms.FormsService.constructor | backend/services/google_forms_service.py:14 | `form_data` starts as None |
| GoogleForms.FormsService.ParseFormEntries | backend/services/google_forms_service.py:115-139 | assigns `form_data` to the loaded payload and returns its entries; an exception during loading leaves it unchanged |
| GoogleForms.FormsService.SubmitFormResponse | backend/services/google_forms_service.py:60-85 | the result is the shaping of the parse outcome, the payload and the POST status; `form_data` as after parsing |
| FormFiller.JoinStrs | backend/services/form_filler.py:237-240 | `sep.join` raises TypeError iff some item is not a string |
| FormFiller.PairPiece | backend/services/form_filler.py:229 | an item without `get` (not a dict) raises |
| FormFiller.FormatEducation | backend/services/form_filler.py:227-230 | falsy gives `''`, a truthy non-list `str`; a non-empty list succeeds iff every item is a dict, and is then the `"<degree> from <institution>"` pieces joined by `"; "` |
| FormFiller.FormatExperience | backend/services/form_filler.py:232-235 | falsy gives `''`, a truthy non-list `str`; a non-empty list succeeds iff every item is a dict, and is then the `"<position> at <company>"` pieces joined by `"; "` |
| FormFiller.FormatSkills | backend/services/form_filler.py:237-240 | a list raises TypeError iff some item is not a string, else is its items joined by `", "`; a truthy non-list gives `str`, a falsy value `''` |
| FormFiller.FormatPairsCases | backend/services/form_filler.py:227-235 | falsy gives `''`; a truthy non-list gives `str`; a non-empty list succeeds iff every item is a dict, and is then the items' `"<a><mid><b>"` pieces joined by `"; "` with missing keys as `''` |
| FormFiller.FormatPairsSplit | backend/services/form_filler.py:227-235 | splitting the flattened text at `"; "` gives the pieces back when no piece has `;` |
| FormFiller.FormatSkillsCases | backend/services/form_filler.py:237-240 | any list is joined by `", "` (empty gives `''`) and succeeds iff all items are strings; otherwise truthy gives `str`, falsy `''`; comma-free skills split back out |
| FormFiller.CategoryValue | backend/services/form_filler.py:165-181 | name, email, phone and address give the raw profile value or `''`; the other categories give a string |
| FormFiller.Certifications | backend/services/form_filler.py:179-181 | a missing key gives `''`, a null gives `'None'`; TypeError iff the value is a list with a non-string item |
| FormFiller.FirstAvailable | backend/services/form_filler.py:184-186 | the first truthy value in insertion order, skipping `raw_content` and `error`; None iff there is none |
| FormFiller.ValueForField | backend/services/form_filler.py:161-188 | the ladder, then the loop with its early return, give the value the field resolver defines |
| FormFiller.FieldValueRow | backend/services/form_filler.py:165-181 | the first category row with a word in the lowercased label decides the value |
| FormFiller.MatchedCategoryOnly | backend/services/form_filler.py:165-181 | a matched label's value depends only on its category's profile entry, so it never reaches the fallback |
| FormFiller.EmptyCategory | backend/services/form_filler.py:165-181 | a matched category whose entry is missing or `''` gives `''` |
| FormFiller.UncategorizedValue | backend/services/form_filler.py:183-188 | without a match: `str` of the first eligible value, and `''` iff there is none |
| FormFiller.LaddersDiffer | backend/services/form_filler.py:173-178 | "degree skill" reads the education entry here, but the skills entry in the Google Forms filler and in the fallback mapping |
| FormFiller.SameSixRows | backend/services/form_filler.py:380-397 | the fallback mapping's ladder is the Google Forms filler's ladder |
| FormFiller.DataMapValue | backend/services/form_filler.py:364-372 | skills, education and experience entries are strings (`str` of the raw value), `'None'` for a null value |
| FormFiller.FallbackFieldMapping | backend/services/form_filler.py:361-407 | the loop yields the contexts' mappings in order |
| FormFiller.FallbackConcat | backend/services/form_filler.py:374-405 | the mappings of joined context lists are the joined mappings, so the output follows the input order |
| FormFiller.FallbackOneShape | backend/services/form_filler.py:374-405 | at most one mapping per context, none when no row matches, else for its element with the row's name, `str` of the value, non-blank, confidence 0.8 |
| FormFiller.FallbackRow | backend/services/form_filler.py:380-405 | the first matching row decides name and value; the mapping exists iff the value is truthy with a non-blank `str` |
| FormFiller.FallbackMappings | backend/services/form_filler.py:374-405 | no more mappings than contexts; every one has a non-blank value, confidence 0.8 and one of the six names |
| FormFiller.FallbackElements | backend/services/form_filler.py:399-401 | every fallback mapping is for a context's element |
| FormFiller.Overlay1 | backend/services/form_filler.py:425-426 | a form field that is not a dict raises AttributeError |
| FormFiller.FieldsInfo | backend/services/form_filler.py:413-426 | building `fields_info` and overlaying it in place on an array yields the overlaid records |
| FormFiller.OverlayShape | backend/services/form_filler.py:413-426 | one record per context with its index and context; records below `len(fields)` take that field's label (default `''`) and type (default `'text'`); all others keep type `'text'` and no label |
| FormFiller.InRange | backend/services/form_filler.py:478 | the chained comparison raises iff the index is not a number, and otherwise is `0 <= x < n` |
| FormFiller.AsListIndex | backend/services/form_filler.py:480 | only ints and bools index a list, with their numeric value |
| FormFiller.ConvertOne | backend/services/form_filler.py:476-484 | one record gives at most one mapping |
| FormFiller.ConvertAiMappings | backend/services/form_filler.py:472-486 | the conversion loop yields the converted mappings, or the first exception |
| FormFiller.ConvertDefaults | backend/services/form_filler.py:477-484 | a record with only an in-range index maps that context's element with `"Field <i>"`, `''` and 0.0 |
| FormFiller.ConvertKept | backend/services/form_filler.py:476-483 | a dict record whose index is an int or a bool in `[0, len(field_contexts))` gives exactly one mapping: that context's element, and the record's name, value and confidence, defaulting to `"Field <index>"`, `''` and 0.0 |
| FormFiller.ConvertOutOfRange | backend/services/form_filler.py:477-478 | a numeric index outside `[0, len(field_contexts))`, or a missing one (-1), drops the record |
| FormFiller.NoConfidenceGate | backend/services/form_filler.py:476-484 | setting `confidence` to any value keeps, drops or rejects a record exactly as before, and the kept mapping carries that value |
| FormFiller.AiMappingsFromContexts | backend/services/form_filler.py:476-486 | no more mappings than records, each for the element of an in-range context |
| FormFiller.ConvertOneElement | backend/services/form_filler.py:476-483 | a record that gives a mapping is a dict whose index is an int or a bool in `[0, len(field_contexts))`, and the mapping is built from the context at that index |
| FormFiller.CollectAtMostOne | backend/services/form_filler.py:476-484 | a loop appending at most one item per record appends at most one per record in total |
| FormFiller.AiFieldMappings | backend/services/form_filler.py:409-498 | the model's converted mappings when overlay, completion, parse and conversion succeed, else the fallback mapping |
| FormFiller.NoModelFallback | backend/services/form_filler.py:457-459 | without a client, or when the completion fails, the result is the fallback mapping |
| FormFiller.OutcomeElements | backend/services/form_filler.py:409-498 | every mapping, either way, is for the element of one of the contexts |
| LlmOutput.FenceBody | backend/services/form_filler.py:466-469 | a reply without a fence is kept whole |
| LlmOutput.FenceBodyBetween | backend/services/resume_parser.py:193-196 | the kept text is what follows the first "```json" (cut at the next "```json", then at "```"), else what lies between the first two "```" |
| LlmOutput.FenceBodyJson | backend/services/resume_parser.py:193-194 | after "```json" the text runs to the next "```" unless that "```" overlaps a second "```json" |
| LlmOutput.FenceBodyFree | backend/services/form_filler.py:466-469 | the kept text has no "```" |
| LlmOutput.FenceBodyIdempotent | backend/services/resume_parser.py:193-196 | cutting the fence twice is cutting once |
| ResumeParser.SourceFor | backend/services/resume_parser.py:46-52 | the PDF extractor iff the name ends in `.pdf`, else the DOCX one iff it ends in `.docx`, else UTF-8 decoding |
| ResumeParser.MimeType | backend/services/resume_parser.py:169-176 | `.pdf` is tested before `.docx`, case-sensitively; anything else is `text/plain` |
| ResumeParser.DispatchAgrees | backend/services/resume_parser.py:46-52 | the extractor chosen by `_extract_text` and the MIME type come from the same tests in the same order |
| ResumeParser.UpperCaseIsPlain | backend/services/resume_parser.py:47-52 | `CV.PDF` is read as UTF-8 text and typed `text/plain` |
| ResumeParser.ValidateParsedData | backend/services/resume_parser.py:207-219 | the loop with its early return is true iff the data is a dict in which Full Name, Email or Phone Number is present, truthy and has a non-blank `str` |
| ResumeParser.ValidOnlyRequired | backend/services/resume_parser.py:209-217 | only the three required fields decide validity |
| ResumeParser.HasContentIff | backend/services/resume_parser.py:216 | a string has content iff it has a non-whitespace character; another value iff it is truthy |
| ResumeParser.FallbackValid | backend/services/resume_parser.py:121-129 | the constant profile passes the check, through its Full Name |
| ResumeParser.FallbackDistinct | backend/services/resume_parser.py:121-129 | the constant profile has seven distinct keys |
| ResumeParser.FallbackProfile | backend/services/resume_parser.py:119-131 | the constant profile is a valid dict |
| ResumeParser.CleanJsonResponse | backend/services/resume_parser.py:190-205 | the steps give the cleaned text, which is the fenced part with its whitespace collapsed, normal and fence-free |
| ResumeParser.CleanedWords | backend/services/resume_parser.py:199-203 | stripping and replacing newline and CR before `' '.join(split())` change nothing beyond it |
| ResumeParser.CleanedNormal | backend/services/resume_parser.py:199-205 | no leading or trailing whitespace, no newline or CR, no run of two whitespace characters, no "```" |
| ResumeParser.CleanedIdempotent | backend/services/resume_parser.py:190-205 | cleaning twice is cleaning once |
| ResumeParser.ParseWithAi | backend/services/resume_parser.py:68-117 | raises (AttributeError) iff there is no client; a failed completion gives the constant profile; every answer validates |
| ResumeParser.ParseWithAiValid | backend/services/resume_parser.py:68-117 | raises only without a client; an answer always validates, and is either the constant profile or the parsed reply |
| ResumeParser.HandleReply | backend/services/resume_parser.py:100-117 | what becomes of the cleaned reply always validates, and is the constant profile or what `json.loads` gave for a non-empty reply |
| ResumeParser.ParseWithAiKeeps | backend/services/resume_parser.py:105-110 | parsed data that validates, from a non-blank reply, is returned as it is |
| ResumeParser.BlankReplyFallback | backend/services/resume_parser.py:95-103 | a reply of whitespace only gives the constant profile |
| ResumeParser.CleanedNeverAllSpace | backend/services/resume_parser.py:101 | the `isspace()` test never holds for cleaned text |
| ResumeParser.KeywordIn | backend/services/resume_parser.py:182-183 | the first keyword in list order that occurs in the line, or None iff none does |
| ResumeParser.ExtractFrom | backend/services/resume_parser.py:181-188 | raises only ValueError, and only when some keyword is empty; `''` when no line holds any keyword |
| ResumeParser.ExtractField | backend/services/resume_parser.py:178-188 | the same for the lower-cased text's lines |
| ResumeParser.ExtractFieldScan | backend/services/resume_parser.py:178-188 | the nested loops with their early return give the scan's result |
| ResumeParser.NoKeywordEmpty | backend/services/resume_parser.py:188 | `''` when no keyword occurs in any line |
| ResumeParser.FirstHitDecides | backend/services/resume_parser.py:181-187 | the first line with a keyword, and in it the first keyword, decide the result |
| ResumeParser.SegmentShape | backend/services/resume_parser.py:185-187 | the segment between the first and second occurrence of the keyword, stripped of `' :'` then whitespace; it has no keyword, no newline and no outer whitespace |
| ResumeParser.SplitFree | backend/services/resume_parser.py:180 | no line of `split('\n')` holds a newline |
| ResumeParser.ExtractFieldShape | backend/services/resume_parser.py:178-188 | with non-empty keywords the scan never raises, and its result is one line's text with no outer whitespace |
| ResumeParser.ExtractFromShape | backend/services/resume_parser.py:181-188 | the same, for any newline-free lines |

## Left out

- Network and browser I/O. The HTTP GET and POST (`google_forms_service.py:107-113, 168-177`), every Selenium call of the form filler, PDF and DOCX extraction, and the LlamaParse upload are calls into code this model cannot see. Their outcomes are parameters: the page or its exception, the POST status, the completion, and the extractor chosen (`ResumeParser.SourceFor`).
- `json.loads` is a parameter from text to a value or an exception, and `json.dumps` of the prompts is left out. The prompt texts themselves are left out, including the resume parser's `text[:2000]`.
- `extract_data` and `_try_llama_cloud` are left out. They chain the LlamaParse service and the model, with temporary files.
- `fill_form`, `_fill_form_with_ai`, `_fill_field` and the other DOM helpers are left out, because they are browser automation. `_select_radio_option` and `_select_checkbox_options` are empty.
- Logging (`log_error`, `log_resume_data`, `print`) is left out. An exception raised by a logger is not modelled.
- `str(e)` in `submit_form_response` is kept as the exception kind (`Crashed(exc)`), not its message text.
- `Text.Lower` lowercases ASCII letters only. Python's full Unicode case mapping is not modelled.
- `repr` of non-printable non-ASCII characters is kept as the character itself.
- Floats are kept as a real value with the text `str` gives for them. Arithmetic on them is not modelled.
- Dictionaries look up the first item with a key. A dict decoded from JSON with repeated keys would keep the last one in Python.
- `f"{x}"` is taken as `str(x)`. No value in this model defines a different `__format__`.
- The per-request `GoogleFormsService.entries` field is never read in the source and is not modelled.
- GoogleForms.FormsService.SubmitFormResponse: does not model the URL being rewritten for the POST. The POST outcome is a parameter, and the URL rewriting is proved on its own in `GoogleForms.FormResponseUrl`.
