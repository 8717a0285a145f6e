/**
 * The two pure helpers of the admin statements page: the badge colour of a
 * verdict, and the validation and normalisation of the references field
 * before an edited statement is saved. The page's DOM handling is not part
 * of this module; the form's fields are inputs and the request body the
 * save would send is the output. `JSON.parse` is a parameter.
 */
module AdminStatementsPage {
  import opened Wrappers
  import opened JsonValues
  import FactCheckGraph

  const Success := "bg-success"
  const Danger := "bg-danger"
  const Warning := "bg-warning"
  const Secondary := "bg-secondary"

  /** `getVerdictBadgeClass`: a strict-equality switch over the verdict value. */
  function BadgeClass(verdict: Json): (r: string)
    ensures r == Success <==> verdict == JStr("True")
    ensures r == Danger <==> verdict == JStr("False")
    ensures r == Warning <==> verdict == JStr("Mostly True") || verdict == JStr("Mostly False")
    ensures r == Secondary <==> !(verdict.JStr? && verdict.s in {"True", "False", "Mostly True", "Mostly False"})
  {
    match verdict
    case JStr(s) =>
      if s == "True" then Success
      else if s == "False" then Danger
      else if s == "Mostly True" || s == "Mostly False" then Warning
      else Secondary
    case _ => Secondary
  }

  /** The badge the page shows for each label the adjudicator can give; `Uncertain` is grey like an unset verdict. */
  lemma BadgeOfLabel(v: FactCheckGraph.VerdictLabel)
    ensures BadgeClass(JStr(v.Text())) ==
      match v
      case VTrue => Success
      case VFalse => Danger
      case VMostlyTrue => Warning
      case VMostlyFalse => Warning
      case VUncertain => Secondary
    ensures BadgeClass(JNull) == Secondary
  {
  }

  /** Why the references field is refused, in the order the page checks. */
  datatype RefError =
    | SyntaxError(message: string)   // thrown by `JSON.parse`
    | NotAnArray
    | NullReference                  // `ref.title` on `null` throws a `TypeError`
    | MissingTitleOrSource

  const NotAnArrayMessage := "References must be an array"
  const MissingFieldMessage := "Each reference must have a title and source"
  const InvalidPrefix := "Invalid JSON format in references field: "

  /** One reference is accepted when it is not `null` and has a truthy `title` and `source`. */
  predicate Acceptable(ref: Json) {
    !ref.JNull? && TruthyProperty(Property(ref, "title")) && TruthyProperty(Property(ref, "source"))
  }

  /** What the check of a single unacceptable reference throws. */
  function Rejection(ref: Json): (e: RefError)
    requires !Acceptable(ref)
    ensures e.NullReference? <==> ref.JNull?
    ensures e.MissingTitleOrSource? <==> !ref.JNull?
  {
    if ref.JNull? then NullReference else MissingTitleOrSource
  }

  /** The object the map builds for an accepted reference: three fields, `summary` defaulting to `''`. */
  function Normalised(ref: Json): (r: Json)
    requires Acceptable(ref)
    ensures r.JObj? && r.fields.Keys == {"title", "source", "summary"}
    ensures Some(r.fields["title"]) == Property(ref, "title")
    ensures Some(r.fields["source"]) == Property(ref, "source")
    ensures Some(r.fields["summary"]) == Property(ref, "summary") || r.fields["summary"] == JStr("")
    ensures TruthyProperty(Property(ref, "summary")) ==> Some(r.fields["summary"]) == Property(ref, "summary")
    ensures !TruthyProperty(Property(ref, "summary")) ==> r.fields["summary"] == JStr("")
  {
    var summary := Property(ref, "summary");
    JObj(map[
      "title" := Property(ref, "title").value,
      "source" := Property(ref, "source").value,
      "summary" := if TruthyProperty(summary) then summary.value else JStr("")])
  }

  /** `references.map(...)`: the first unacceptable reference aborts the whole map. */
  function NormaliseAll(refs: seq<Json>): (r: Result<seq<Json>, RefError>)
    ensures r.Ok? <==> forall i :: 0 <= i < |refs| ==> Acceptable(refs[i])
    ensures r.Ok? ==> |r.value| == |refs| && forall i :: 0 <= i < |refs| ==> r.value[i] == Normalised(refs[i])
    ensures r.Err? ==> exists k :: (0 <= k < |refs| && !Acceptable(refs[k])
                                    && (forall i :: 0 <= i < k ==> Acceptable(refs[i])) && r.error == Rejection(refs[k]))
  {
    if refs == [] then Ok([])
    else if !Acceptable(refs[0]) then
      Err(Rejection(refs[0]))
    else
      match NormaliseAll(refs[1..])
      case Ok(rest) =>
        Ok([Normalised(refs[0])] + rest)
      case Err(e) =>
        assert forall k :: 1 <= k < |refs| ==> refs[k] == refs[1..][k - 1];
        Err(e)
  }

  /** The references field: empty means none, otherwise it must parse to an array every element of which is acceptable. */
  function References(text: string, parse: string -> Result<Json, string>): (r: Result<seq<Json>, RefError>)
    ensures text == [] ==> r == Ok([])
    ensures text != [] && parse(text).Err? ==> r == Err(SyntaxError(parse(text).error))
    ensures text != [] && parse(text).Ok? && !parse(text).value.JArr? ==> r == Err(NotAnArray)
    ensures text != [] && parse(text).Ok? && parse(text).value.JArr? ==> r == NormaliseAll(parse(text).value.items)
  {
    if text == [] then Ok([])
    else match parse(text)
      case Err(m) => Err(SyntaxError(m))
      case Ok(v) => if v.JArr? then NormaliseAll(v.items) else Err(NotAnArray)
  }

  /** The message the page shows when the references are refused; the browser's `TypeError` text is a parameter. */
  function ErrorText(e: RefError, typeErrorText: string): (r: string)
    ensures InvalidPrefix <= r
    ensures e.SyntaxError? ==> r == InvalidPrefix + e.message
    ensures e.NotAnArray? ==> r == InvalidPrefix + NotAnArrayMessage
    ensures e.NullReference? ==> r == InvalidPrefix + typeErrorText
    ensures e.MissingTitleOrSource? ==> r == InvalidPrefix + MissingFieldMessage
  {
    InvalidPrefix + match e
      case SyntaxError(m) => m
      case NotAnArray => NotAnArrayMessage
      case NullReference => typeErrorText
      case MissingTitleOrSource => MissingFieldMessage
  }

  /** `value || null` on a form field. */
  function OrNull(field: string): (r: Json)
    ensures r == JNull <==> field == []
    ensures field != [] ==> r == JStr(field)
  {
    if field == [] then JNull else JStr(field)
  }

  /** The body of the PUT request the save sends. */
  datatype SaveRequest = SaveRequest(content: Json, verdict: Json, explanation: Json, references: seq<Json>)

  /**
   * `saveStatementChanges` up to the request: either the body it sends or
   * the message it shows instead of sending anything.
   */
  function SaveStatementChanges(content: string, verdict: string, explanation: string, referencesText: string,
                                parse: string -> Result<Json, string>, typeErrorText: string): (r: Result<SaveRequest, string>)
    ensures r.Ok? <==> References(referencesText, parse).Ok?
    ensures r.Ok? ==> r.value == SaveRequest(OrNull(content), OrNull(verdict), OrNull(explanation), References(referencesText, parse).value)
    ensures r.Err? ==> r.error == ErrorText(References(referencesText, parse).error, typeErrorText)
  {
    match References(referencesText, parse)
    case Err(e) => Err(ErrorText(e, typeErrorText))
    case Ok(refs) => Ok(SaveRequest(OrNull(content), OrNull(verdict), OrNull(explanation), refs))
  }

  /** An empty references field is saved as an empty array, whatever the parser. */
  lemma EmptyReferences(content: string, verdict: string, explanation: string,
                        parse: string -> Result<Json, string>, typeErrorText: string)
    ensures SaveStatementChanges(content, verdict, explanation, [], parse, typeErrorText).Ok?
    ensures SaveStatementChanges(content, verdict, explanation, [], parse, typeErrorText).value.references == []
  {
  }

  /** A reference without a truthy title or source anywhere in the array means no request at all. */
  lemma OneBadReferenceBlocksSave(content: string, verdict: string, explanation: string, referencesText: string,
                                  parse: string -> Result<Json, string>, typeErrorText: string, k: nat)
    requires referencesText != [] && parse(referencesText).Ok? && parse(referencesText).value.JArr?
    requires k < |parse(referencesText).value.items|
    requires !Acceptable(parse(referencesText).value.items[k])
    ensures SaveStatementChanges(content, verdict, explanation, referencesText, parse, typeErrorText).Err?
  {
  }

  /** Normalising an already normalised list changes nothing. */
  lemma {:induction false} NormaliseIdempotent(refs: seq<Json>)
    requires NormaliseAll(refs).Ok?
    ensures NormaliseAll(NormaliseAll(refs).value) == NormaliseAll(refs)
    decreases |refs|
  {
    if refs != [] {
      var n := Normalised(refs[0]);
      assert Property(n, "title") == Property(refs[0], "title");
      assert Property(n, "source") == Property(refs[0], "source");
      assert Normalised(n) == n;
      NormaliseIdempotent(refs[1..]);
    }
  }
}
