/** `chat_with_translation`: the message list sent to the model, and the reading of its reply.
    The system instruction text is a parameter; the completion call together with `json.loads`
    is a function parameter that yields the decoded reply, or None when it is not JSON. */
module Chat {
  import opened Results
  import opened JsonValue
  import opened Schema

  /** `TranslationRequest`. */
  datatype Request = Request(newMessage: string, history: seq<Message>)

  const SystemRole: string := "system"
  const UserRole: string := "user"

  /** The history entries whose role is not "system", in their original order. */
  function NonSystem(history: seq<Message>): (kept: seq<Message>)
    ensures |kept| <= |history|
    ensures forall m <- kept :: m in history && m.role != SystemRole
    ensures forall m <- history :: m.role != SystemRole ==> m in kept
  {
    if history == [] then []
    else (if history[0].role == SystemRole then [] else [history[0]]) + NonSystem(history[1..])
  }

  /** `[h.to_dict() for h in ms]`. */
  function ToDicts(ms: seq<Message>): (ds: seq<Dict>)
    ensures |ds| == |ms|
    ensures forall i :: 0 <= i < |ds| ==> Message.FromDict(JObject(ds[i])) == Ok(ms[i])
  {
    seq(|ms|, i requires 0 <= i < |ms| => ms[i].ToDict())
  }

  /** The dict `{'role': role, 'content': content}`. */
  function Entry(role: string, content: string): Dict {
    Message(role, content).ToDict()
  }

  /** The message list the model receives: the system instruction, the history without its
      system entries, then the new user message. */
  function Prompt(systemPrompt: string, req: Request): (p: seq<Dict>)
    ensures |p| == 2 + |NonSystem(req.history)|
    ensures forall i :: 0 <= i < |p| ==> Message.FromDict(JObject(p[i])).Ok?
    ensures Message.FromDict(JObject(p[0])) == Ok(Message(SystemRole, systemPrompt))
    ensures Message.FromDict(JObject(p[|p| - 1])) == Ok(Message(UserRole, req.newMessage))
    ensures forall i :: 0 < i < |p| ==> Message.FromDict(JObject(p[i])).value.role != SystemRole
  {
    [Entry(SystemRole, systemPrompt)] + ToDicts(NonSystem(req.history)) + [Entry(UserRole, req.newMessage)]
  }

  /** Builds the list as the code does: start with the system entry, extend it with the kept
      history, append the user entry. */
  method BuildMessages(systemPrompt: string, req: Request) returns (messages: seq<Dict>)
    ensures messages == Prompt(systemPrompt, req)
  {
    messages := [Entry(SystemRole, systemPrompt)];
    var kept: seq<Dict> := [];
    var i := 0;
    while i < |req.history|
      invariant 0 <= i <= |req.history|
      invariant kept == ToDicts(NonSystem(req.history[..i]))
    {
      var h := req.history[i];
      KeptStep(req.history, i);
      if h.role != SystemRole {
        kept := kept + [h.ToDict()];
      }
      i := i + 1;
    }
    assert req.history[..i] == req.history;
    messages := messages + kept;
    messages := messages + [Entry(UserRole, req.newMessage)];
  }

  /** The whole call: build the prompt, let the provider answer, read the response. */
  method ChatWithTranslation(systemPrompt: string, req: Request, complete: seq<Dict> -> Option<Json>)
    returns (r: Result<Response, Error>)
    ensures r == match complete(Prompt(systemPrompt, req))
                 case None => Err(NotJson)
                 case Some(reply) => Response.FromDict(reply)
    ensures r.Ok? <==>
      complete(Prompt(systemPrompt, req)).Some? &&
      WellFormedResponse(complete(Prompt(systemPrompt, req)).value)
  {
    var messages := BuildMessages(systemPrompt, req);
    var reply := complete(messages);
    match reply
    case None =>
      r := Err(NotJson);
    case Some(j) =>
      r := Response.FromDict(j);
  }

  /** Filtering distributes over concatenation: the kept entries keep their relative order. */
  lemma {:induction false} NonSystemAppend(a: seq<Message>, b: seq<Message>)
    ensures NonSystem(a + b) == NonSystem(a) + NonSystem(b)
  {
    if a == [] {
      assert a + b == b;
    } else {
      assert (a + b)[1..] == a[1..] + b;
      NonSystemAppend(a[1..], b);
    }
  }

  /** One more history entry extends the kept list by that entry's dict, unless it is a
      system entry. */
  lemma KeptStep(history: seq<Message>, i: nat)
    requires i < |history|
    ensures ToDicts(NonSystem(history[..i + 1])) ==
      ToDicts(NonSystem(history[..i])) + (if history[i].role == SystemRole then [] else [history[i].ToDict()])
  {
    var h := history[i];
    assert history[..i + 1] == history[..i] + [h];
    NonSystemAppend(history[..i], [h]);
    assert [h][1..] == [];
    if h.role != SystemRole {
      ToDictsAppend(NonSystem(history[..i]), [h]);
    }
  }

  lemma ToDictsAppend(a: seq<Message>, b: seq<Message>)
    ensures ToDicts(a + b) == ToDicts(a) + ToDicts(b)
  {
  }
}
