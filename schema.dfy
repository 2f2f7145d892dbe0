/** The record types of backend/llm/openai.py and their `from_dict` / `to_dict` conversions.
    Each `from_dict` reads a decoded JSON dict under the wire key names (`en-us`, `zh-cn`,
    `zh-pinyin`, ...) and each `to_dict` writes the record back under its internal field names. */
module Schema {
  import opened Results
  import opened JsonValue

  /** Why a `from_dict` raises instead of returning a record; `section` names the record read. */
  datatype Error =
    | NotAnObject(section: string)             // `params[key]` or `params.get(key)` on a non-dict
    | MissingKey(section: string, key: string) // `params[key]` raises KeyError
    | NotAString(section: string, key: string) // the record rejects a non-`str` field value
    | NotJson                                  // `json.loads` rejects the completion text

  /** The keys each `from_dict` subscripts, in the order the code evaluates them. */
  const MessageKeys: seq<string> := ["role", "content"]
  const InputWireKeys: seq<string> := ["raw", "en-us", "zh-cn", "zh-pinyin"]
  const CorrectionsWireKeys: seq<string> := ["critiques", "reasoning", "zh-cn", "zh-pinyin"]
  const OutputWireKeys: seq<string> := ["en-us", "zh-cn", "zh-pinyin"]

  /** `j` is a dict holding a string under every key of `keys`: what a `from_dict` accepts. */
  predicate StringFields(j: Json, keys: seq<string>) {
    j.JObject? && forall k <- keys :: k in j.fields && j.fields[k].JString?
  }

  /** `keys[i]` is absent from `d` and every key before it is present. */
  predicate FirstAbsentAt(d: Dict, keys: seq<string>, i: int) {
    0 <= i < |keys| && keys[i] !in d && forall j :: 0 <= j < i ==> keys[j] in d
  }

  /** The first key of `keys`, in order, that `d` lacks: the subscript that raises KeyError. */
  function FirstMissing(d: Dict, keys: seq<string>): (r: Option<string>)
    ensures r.None? <==> forall k <- keys :: k in d
    ensures r.Some? ==> exists i :: FirstAbsentAt(d, keys, i) && keys[i] == r.value
  {
    if |keys| == 0 then None
    else if keys[0] !in d then (assert FirstAbsentAt(d, keys, 0); Some(keys[0]))
    else
      var r := FirstMissing(d, keys[1..]);
      assert r.Some? ==> exists i :: FirstAbsentAt(d, keys, i) && keys[i] == r.value by {
        if r.Some? {
          var i :| FirstAbsentAt(d, keys[1..], i) && keys[1..][i] == r.value;
          assert FirstAbsentAt(d, keys, i + 1) by {
            forall j | 0 <= j < i + 1 ensures keys[j] in d {
              if j > 0 { assert keys[j] == keys[1..][j - 1]; }
            }
          }
        }
      }
      r
  }

  /** The first key of `keys` whose value in `d` is not a string: the field the record rejects. */
  function FirstNonString(d: Dict, keys: seq<string>): (r: Option<string>)
    requires forall k <- keys :: k in d
    ensures r.None? <==> forall k <- keys :: d[k].JString?
    ensures r.Some? ==> r.value in keys && !d[r.value].JString?
  {
    if |keys| == 0 then None
    else if !d[keys[0]].JString? then Some(keys[0])
    else FirstNonString(d, keys[1..])
  }

  /** The error reading the string fields `keys` of `j` raises, if any: a non-dict fails on the
      first subscript, then the first absent key fails, and only once every subscript has
      succeeded is a non-string value rejected. */
  function CheckSection(section: string, j: Json, keys: seq<string>): (r: Option<Error>)
    ensures r.None? <==> StringFields(j, keys)
    ensures !j.JObject? ==> r == Some(NotAnObject(section))
    ensures j.JObject? && FirstMissing(j.fields, keys).Some? ==>
      r == Some(MissingKey(section, FirstMissing(j.fields, keys).value))
    ensures r.Some? && r.value.NotAString? ==>
      r.value.section == section && r.value.key in keys && j.JObject? && r.value.key in j.fields
  {
    if !j.JObject? then Some(NotAnObject(section))
    else
      match FirstMissing(j.fields, keys)
      case Some(k) => Some(MissingKey(section, k))
      case None =>
        match FirstNonString(j.fields, keys)
        case Some(k) => Some(NotAString(section, k))
        case None => None
  }

  /** `MessageDict`: one conversation turn. */
  datatype Message = Message(role: string, content: string) {

    static function FromDict(params: Json): (r: Result<Message, Error>)
      ensures r.Ok? <==> StringFields(params, MessageKeys)
      ensures r.Ok? ==>
        params.fields["role"] == JString(r.value.role) &&
        params.fields["content"] == JString(r.value.content)
      ensures !params.JObject? ==> r == Err(NotAnObject("message"))
      ensures params.JObject? && "role" !in params.fields ==> r == Err(MissingKey("message", "role"))
      ensures params.JObject? && "role" in params.fields && "content" !in params.fields ==>
        r == Err(MissingKey("message", "content"))
    {
      match CheckSection("message", params, MessageKeys)
      case Some(e) => Err(e)
      case None => Ok(Message(params.fields["role"].s, params.fields["content"].s))
    }

    function ToDict(): (d: Dict)
      ensures d.Keys == {"role", "content"}
      ensures d["role"] == JString(role) && d["content"] == JString(content)
    {
      map["role" := JString(role), "content" := JString(content)]
    }
  }

  /** `TranslationResponseInput`: the user's message and its translations. */
  datatype Input = Input(raw: string, english: string, mandarin: string, pinyin: string) {

    static function FromDict(params: Json): (r: Result<Input, Error>)
      ensures r.Ok? <==> StringFields(params, InputWireKeys)
      ensures r.Ok? ==>
        params.fields["raw"] == JString(r.value.raw) &&
        params.fields["en-us"] == JString(r.value.english) &&
        params.fields["zh-cn"] == JString(r.value.mandarin) &&
        params.fields["zh-pinyin"] == JString(r.value.pinyin)
      ensures !params.JObject? ==> r == Err(NotAnObject("input"))
      ensures params.JObject? && FirstMissing(params.fields, InputWireKeys).Some? ==>
        r == Err(MissingKey("input", FirstMissing(params.fields, InputWireKeys).value))
    {
      match CheckSection("input", params, InputWireKeys)
      case Some(e) => Err(e)
      case None =>
        Ok(Input(params.fields["raw"].s, params.fields["en-us"].s,
                 params.fields["zh-cn"].s, params.fields["zh-pinyin"].s))
    }

    function ToDict(): (d: Dict)
      ensures d.Keys == {"raw", "english", "mandarin", "pinyin"}
      ensures d["raw"] == JString(raw) && d["english"] == JString(english) &&
              d["mandarin"] == JString(mandarin) && d["pinyin"] == JString(pinyin)
    {
      map["raw" := JString(raw), "english" := JString(english),
          "mandarin" := JString(mandarin), "pinyin" := JString(pinyin)]
    }
  }

  /** `TranslationResponseCorrections`: what was wrong with the user's Chinese. */
  datatype Corrections = Corrections(critiques: string, reasoning: string, mandarin: string, pinyin: string) {

    static function FromDict(params: Json): (r: Result<Corrections, Error>)
      ensures r.Ok? <==> StringFields(params, CorrectionsWireKeys)
      ensures r.Ok? ==>
        params.fields["critiques"] == JString(r.value.critiques) &&
        params.fields["reasoning"] == JString(r.value.reasoning) &&
        params.fields["zh-cn"] == JString(r.value.mandarin) &&
        params.fields["zh-pinyin"] == JString(r.value.pinyin)
      ensures !params.JObject? ==> r == Err(NotAnObject("corrections"))
      ensures params.JObject? && FirstMissing(params.fields, CorrectionsWireKeys).Some? ==>
        r == Err(MissingKey("corrections", FirstMissing(params.fields, CorrectionsWireKeys).value))
    {
      match CheckSection("corrections", params, CorrectionsWireKeys)
      case Some(e) => Err(e)
      case None =>
        Ok(Corrections(params.fields["critiques"].s, params.fields["reasoning"].s,
                       params.fields["zh-cn"].s, params.fields["zh-pinyin"].s))
    }

    function ToDict(): (d: Dict)
      ensures d.Keys == {"critiques", "reasoning", "mandarin", "pinyin"}
      ensures d["critiques"] == JString(critiques) && d["reasoning"] == JString(reasoning) &&
              d["mandarin"] == JString(mandarin) && d["pinyin"] == JString(pinyin)
    {
      map["critiques" := JString(critiques), "reasoning" := JString(reasoning),
          "mandarin" := JString(mandarin), "pinyin" := JString(pinyin)]
    }
  }

  /** `TranslationResponseOutput`: the assistant's reply and its translations. */
  datatype Output = Output(english: string, mandarin: string, pinyin: string) {

    static function FromDict(params: Json): (r: Result<Output, Error>)
      ensures r.Ok? <==> StringFields(params, OutputWireKeys)
      ensures r.Ok? ==>
        params.fields["en-us"] == JString(r.value.english) &&
        params.fields["zh-cn"] == JString(r.value.mandarin) &&
        params.fields["zh-pinyin"] == JString(r.value.pinyin)
      ensures !params.JObject? ==> r == Err(NotAnObject("output"))
      ensures params.JObject? && FirstMissing(params.fields, OutputWireKeys).Some? ==>
        r == Err(MissingKey("output", FirstMissing(params.fields, OutputWireKeys).value))
    {
      match CheckSection("output", params, OutputWireKeys)
      case Some(e) => Err(e)
      case None =>
        Ok(Output(params.fields["en-us"].s, params.fields["zh-cn"].s, params.fields["zh-pinyin"].s))
    }

    function ToDict(): (d: Dict)
      ensures d.Keys == {"english", "mandarin", "pinyin"}
      ensures d["english"] == JString(english) && d["mandarin"] == JString(mandarin) &&
              d["pinyin"] == JString(pinyin)
    {
      map["english" := JString(english), "mandarin" := JString(mandarin), "pinyin" := JString(pinyin)]
    }
  }

  /** The `corrections` field of a response: the declared default None, the empty dict `{}` that
      `from_dict` substitutes when the section is absent or falsy, or a parsed section. */
  datatype CorrectionsField = Absent | EmptyMapping | Present(section: Corrections)

  /** The `corrections` value `from_dict` reads: `params.get('corrections')`. */
  function CorrectionsValue(params: Json): (r: Json)
    requires params.JObject?
    ensures "corrections" !in params.fields ==> r == JNull
    ensures r != JNull ==> "corrections" in params.fields && params.fields["corrections"] == r
  {
    Get(params.fields, "corrections")
  }

  /** The wire shape a response must have, stated independently of the parsers: a dict whose
      `input` and `output` are complete sections and whose `corrections` is either falsy or
      a complete section. */
  predicate WellFormedResponse(params: Json) {
    && params.JObject?
    && (Truthy(CorrectionsValue(params)) ==> StringFields(CorrectionsValue(params), CorrectionsWireKeys))
    && "input" in params.fields && StringFields(params.fields["input"], InputWireKeys)
    && "output" in params.fields && StringFields(params.fields["output"], OutputWireKeys)
  }

  /** `TranslationResponse`. */
  datatype Response = Response(input: Input, corrections: CorrectionsField, output: Output) {

    /** Reads `corrections` first, then `input`, then `output`, failing at the first problem. */
    static function FromDict(params: Json): (r: Result<Response, Error>)
      ensures r.Ok? <==> WellFormedResponse(params)
      ensures r.Ok? ==> !r.value.corrections.Absent?
      ensures r.Ok? ==> (r.value.corrections.EmptyMapping? <==> !Truthy(CorrectionsValue(params)))
      ensures !params.JObject? ==> r == Err(NotAnObject("response"))
    {
      if !params.JObject? then Err(NotAnObject("response"))
      else
        var corrections := CorrectionsValue(params);
        var correctionsField :-
          if Truthy(corrections) then
            match Corrections.FromDict(corrections)
            case Ok(c) => Ok(Present(c))
            case Err(e) => Err(e)
          else Ok(EmptyMapping);
        if "input" !in params.fields then Err(MissingKey("response", "input"))
        else
          var input :- Input.FromDict(params.fields["input"]);
          if "output" !in params.fields then Err(MissingKey("response", "output"))
          else
            var output :- Output.FromDict(params.fields["output"]);
            Ok(Response(input, correctionsField, output))
    }

    /** Dereferences `corrections` unconditionally, so only a parsed section can be written. */
    function ToDict(): (d: Dict)
      requires corrections.Present?
      ensures d.Keys == {"input", "corrections", "output"}
      ensures d["input"] == JObject(input.ToDict()) &&
              d["corrections"] == JObject(corrections.section.ToDict()) &&
              d["output"] == JObject(output.ToDict())
    {
      map["input" := JObject(input.ToDict()),
          "corrections" := JObject(corrections.section.ToDict()),
          "output" := JObject(output.ToDict())]
    }
  }
}
