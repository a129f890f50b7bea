/** The shape of a `retrieve_and_generate` response as the chatbot reads it,
    and the extraction of the answer and of its supporting context
    (infosec-chatbot-aws.py, lines 120-134).

    Every dictionary key the script reads is modelled as an `Option`: `None`
    when the key is absent. A key read with `[...]` raises `KeyError` when
    absent; a key read with `.get(key, default)` falls back to the default. */
module Responses {
  import opened Wrappers
  import opened Errors
  import opened Text

  datatype S3Location = S3Location(uri: Option<string>)
  datatype Location = Location(s3Location: Option<S3Location>)
  datatype Content = Content(text: Option<string>)

  /** One entry of `retrievedReferences`. */
  datatype Reference = Reference(content: Option<Content>, location: Option<Location>)

  /** One entry of `citations`. */
  datatype CitationRecord = CitationRecord(retrievedReferences: Option<seq<Reference>>)

  datatype Output = Output(text: Option<string>)

  /** The response dictionary. `otherKeys` records whether it holds any key
      the script does not read (such as the session id or the response
      metadata); it matters only to the truth test of line 120. */
  datatype Response = Response(output: Option<Output>, citations: Option<seq<CitationRecord>>, otherKeys: bool) {

    /** Python's truth value of a dictionary: it is non-empty. */
    predicate Truthy() {
      output.Some? || citations.Some? || otherKeys
    }
  }

  /** What the script shows under the answer: a snippet of the first
      reference's text and the URI of the document it came from. */
  datatype Context = Context(snippet: string, docUrl: string)

  const SnippetLimit: nat := 200
  const Ellipsis := "..."

  /** `response["output"]["text"]` (line 121). */
  function Answer(r: Response): (a: Result<string, Error>)
    ensures a.Success? <==> r.output.Some? && r.output.value.text.Some?
    ensures a.Success? ==> a.value == r.output.value.text.value
    ensures r.output.None? ==> a == Failure(KeyError("output"))
    ensures r.output.Some? && r.output.value.text.None? ==> a == Failure(KeyError("text"))
  {
    match r.output
    case None => Failure(KeyError("output"))
    case Some(o) =>
      match o.text
      case None => Failure(KeyError("text"))
      case Some(t) => Success(t)
  }

  /** The snippet shown for a reference text (line 129): its first 200
      characters followed by an ellipsis, whether or not anything was cut. */
  function Snippet(text: string): (s: string)
    ensures EndsWith(s, Ellipsis)
    ensures |s| <= SnippetLimit + |Ellipsis|
    ensures s[..|s| - |Ellipsis|] <= text
    ensures |s| - |Ellipsis| == if |text| < SnippetLimit then |text| else SnippetLimit
  {
    var s := Take(text, SnippetLimit) + Ellipsis;
    assert s[..|s| - |Ellipsis|] == Take(text, SnippetLimit);
    s
  }

  /** `response.get('citations', [{}])[0].get('retrievedReferences', [])`
      (line 127). A missing `citations` key defaults to one empty record;
      an empty `citations` list makes `[0]` raise `IndexError`. */
  function References(r: Response): (refs: Result<seq<Reference>, Error>)
    ensures refs.Failure? <==> r.citations == Some([])
    ensures refs.Failure? ==> refs.error == IndexError
    ensures r.citations.None? ==> refs == Success([])
    // the list read is the one whose head is the first reference, when there is one
    ensures refs.Success? && |refs.value| > 0 ==> FirstReference(r) == Some(refs.value[0])
    ensures refs.Success? && |refs.value| == 0 <==> FirstReference(r).None? && r.citations != Some([])
  {
    var records := r.citations.GetOr([CitationRecord(None)]);
    if |records| == 0 then Failure(IndexError)
    else Success(records[0].retrievedReferences.GetOr([]))
  }

  /** `references[0]['content']['text']` (line 129). */
  function ReferenceText(ref: Reference): (t: Result<string, Error>)
    ensures t.Success? <==> ref.content.Some? && ref.content.value.text.Some?
    ensures t.Success? ==> t.value == ref.content.value.text.value
    ensures ref.content.None? ==> t == Failure(KeyError("content"))
    ensures ref.content.Some? && ref.content.value.text.None? ==> t == Failure(KeyError("text"))
  {
    match ref.content
    case None => Failure(KeyError("content"))
    case Some(c) =>
      match c.text
      case None => Failure(KeyError("text"))
      case Some(t) => Success(t)
  }

  /** `references[0]['location']['s3Location']['uri']` (line 130). */
  function ReferenceUri(ref: Reference): (u: Result<string, Error>)
    ensures u.Success? <==>
              ref.location.Some? && ref.location.value.s3Location.Some?
              && ref.location.value.s3Location.value.uri.Some?
    ensures u.Success? ==> Some(u.value) == ref.location.value.s3Location.value.uri
    ensures ref.location.None? ==> u == Failure(KeyError("location"))
    ensures ref.location.Some? && ref.location.value.s3Location.None? ==> u == Failure(KeyError("s3Location"))
    ensures (ref.location.Some? && ref.location.value.s3Location.Some?
             && ref.location.value.s3Location.value.uri.None?) ==> u == Failure(KeyError("uri"))
  {
    match ref.location
    case None => Failure(KeyError("location"))
    case Some(l) =>
      match l.s3Location
      case None => Failure(KeyError("s3Location"))
      case Some(s3) =>
        match s3.uri
        case None => Failure(KeyError("uri"))
        case Some(u) => Success(u)
  }

  /** The first reference of the first citation record, when the response
      names one: an independent reading of line 127's chain of lookups. */
  function FirstReference(r: Response): Option<Reference> {
    if r.citations.Some? && |r.citations.value| > 0
       && r.citations.value[0].retrievedReferences.Some?
       && |r.citations.value[0].retrievedReferences.value| > 0
    then Some(r.citations.value[0].retrievedReferences.value[0])
    else None
  }

  /** Lines 127-134: `None` is the "No Context" branch; otherwise the first
      reference's snippet and URI. The snippet is read before the URI, so a
      reference missing both fails on its text. */
  function ExtractContext(r: Response): (c: Result<Option<Context>, Error>)
    // "No Context" exactly when there is no `citations` key, or the first
    // record has no `retrievedReferences` or an empty one
    ensures c == Success(None) <==>
              || r.citations.None?
              || (|r.citations.value| > 0
                  && (r.citations.value[0].retrievedReferences.None?
                      || r.citations.value[0].retrievedReferences.value == []))
    ensures c == Failure(IndexError) <==> r.citations == Some([])
    // a context is shown exactly when the first reference carries its text and its URI
    ensures (c.Success? && c.value.Some?) <==>
              (FirstReference(r).Some?
               && ReferenceText(FirstReference(r).value).Success?
               && ReferenceUri(FirstReference(r).value).Success?)
    // ... and then it is the snippet of that text and exactly that URI
    ensures c.Success? && c.value.Some? ==>
              var ref := FirstReference(r).value;
              && ref.location.value.s3Location.value.uri == Some(c.value.value.docUrl)
              && c.value.value.snippet == Snippet(ref.content.value.text.value)
    // otherwise a missing key of the first reference is reported by name
    ensures c.Failure? && c.error != IndexError ==>
              FirstReference(r).Some? && c.error.KeyError?
              && c.error.key in ["content", "text", "location", "s3Location", "uri"]
    // ... and it is the text's missing key when the text is missing, else the URI's
    ensures c.Failure? && c.error != IndexError ==>
              FirstReference(r).Some?
              && c.error == (if ReferenceText(FirstReference(r).value).Failure?
                             then ReferenceText(FirstReference(r).value).error
                             else ReferenceUri(FirstReference(r).value).error)
  {
    var refs :- References(r);
    if |refs| == 0 then
      Success(None)
    else
      var text :- ReferenceText(refs[0]);
      var uri :- ReferenceUri(refs[0]);
      Success(Some(Context(Snippet(text), uri)))
  }
}
