// Classification of one frame (RemoteEndPoint::parseAndClassify and the kind
// tests of routeParsedIncoming). JSON itself is abstract: a document is known by
// the members the code looks at, and the typed parser by its outcome.
module Classify {

  datatype Id = NoId | IntId(number: int) | StringId(text: string)

  datatype Code = MethodNotFound | InvalidParams

  /** What one parsed frame amounts to for routing. `Blank` is a ParsedMessage
      that routing ignores; `ErrorReply` is the outgoing error built while parsing. */
  datatype Message =
    | Blank
    | ErrorReply(id: Id, code: Code)
    | Ordered
    | Concurrent
    | Cancel
    | Request(id: Id)
    | Response(id: Id)

  datatype MethodMember = NoMethod | NotAString | Method(name: string)

  datatype Document =
    | Malformed
    | Document(version2: bool, verb: MethodMember, hasId: bool, id: Id, hasResult: bool, hasError: bool)

  /** Outcome of the registered typed parser for the document. */
  datatype Typed = Unregistered | Throws | Parsed

  predicate IsRequest(d: Document)
    requires d.Document?
  {
    d.verb.Method? && d.hasId
  }

  predicate IsResponse(d: Document)
    requires d.Document?
  {
    d.hasId && (d.hasResult || d.hasError)
  }

  const CancelMethod := "$/cancelRequest"

  /** `waiting` are the ids of outgoing requests that are still pending. */
  function ParseAndClassify(d: Document, typed: Typed, concurrent: set<string>, waiting: set<Id>): (m: Message) {
    if d.Malformed? || !d.version2 then
      Blank
    else if IsRequest(d) then
      match typed
      case Parsed => Request(d.id)
      case Unregistered => if d.id == NoId then Blank else ErrorReply(d.id, MethodNotFound)
      case Throws => if d.id == NoId then Blank else ErrorReply(d.id, InvalidParams)
    else if IsResponse(d) then
      // An unknown response carries no message; a known one completes its
      // request even when its body cannot be parsed, unless it threw without an id.
      if d.id !in waiting || (typed.Throws? && d.id == NoId) then Blank else Response(d.id)
    else if d.verb.Method? && typed.Parsed? then
      if d.verb.name == CancelMethod then Cancel
      else if d.verb.name in concurrent then Concurrent
      else Ordered
    else
      Blank
  }

  predicate ExpectsReply(m: Message) {
    m.Request? || m.ErrorReply?
  }

  predicate WellFormedRequest(d: Document) {
    d.Document? && d.version2 && d.verb.Method? && d.hasId && d.id != NoId
  }

  /** A JSON-RPC 2.0 request with an integer or string id is never lost in
      parsing, whatever the parser does, and the id survives; nothing else that
      carries such an id is taken for a request. */
  lemma RequestsSurviveParsing(d: Document, typed: Typed, concurrent: set<string>, waiting: set<Id>)
    ensures var m := ParseAndClassify(d, typed, concurrent, waiting);
            && (WellFormedRequest(d) <==> ExpectsReply(m) && m.id != NoId)
            && (WellFormedRequest(d) ==> m.id == d.id && (m.Request? <==> typed.Parsed?))
  {
  }

  /** A JSON-RPC 2.0 document with a method and an id, or with a method and none. */
  predicate Calls(d: Document, withId: bool) {
    d.Document? && d.version2 && d.verb.Method? && d.hasId == withId
  }

  /** Which document becomes which message, by what it contains and what its parser does. */
  lemma ClassifiedExactly(d: Document, typed: Typed, concurrent: set<string>, waiting: set<Id>)
    ensures var m := ParseAndClassify(d, typed, concurrent, waiting);
            && (m.Request? <==> Calls(d, true) && typed.Parsed?)
            && (m.ErrorReply? && m.code.MethodNotFound? <==> Calls(d, true) && typed.Unregistered? && d.id != NoId)
            && (m.ErrorReply? && m.code.InvalidParams? <==> Calls(d, true) && typed.Throws? && d.id != NoId)
            && (m.Request? || m.ErrorReply? || m.Response? ==> m.id == d.id)
            && (m.Cancel? <==> Calls(d, false) && typed.Parsed? && d.verb.name == "$/cancelRequest")
            && (m.Concurrent? <==> Calls(d, false) && typed.Parsed? && d.verb.name != "$/cancelRequest"
                                   && d.verb.name in concurrent)
            && (m.Ordered? <==> Calls(d, false) && typed.Parsed? && d.verb.name != "$/cancelRequest"
                                && d.verb.name !in concurrent)
  {
  }

  /** A document without a usable method that has an id and a result or an error answers
      the outgoing request waiting under that id, if there is one; a body that does not
      parse still does, unless the parser threw and there is no id. */
  lemma RespondsExactly(d: Document, typed: Typed, concurrent: set<string>, waiting: set<Id>)
    ensures ParseAndClassify(d, typed, concurrent, waiting).Response?
            <==> && d.Document? && d.version2 && !d.verb.Method? && d.hasId && (d.hasResult || d.hasError)
                 && d.id in waiting && (typed.Throws? ==> d.id != NoId)
  {
  }
}
