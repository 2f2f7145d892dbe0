/** What the conversions of module Schema promise together: which wire key feeds which field,
    when reading fails, the one round trip that holds and the ones that do not. */
module SchemaProperties {
  import opened Results
  import opened JsonValue
  import opened Schema

  /** Writing a message and reading it back gives the same message. */
  lemma MessageRoundTrip(m: Message)
    ensures Message.FromDict(JObject(m.ToDict())) == Ok(m)
  {
  }

  /** Reading a dict and writing the message back keeps exactly `role` and `content`, with the
      values they had. */
  lemma MessageDictRoundTrip(params: Json)
    requires Message.FromDict(params).Ok?
    ensures Message.FromDict(params).value.ToDict().Keys == {"role", "content"}
    ensures forall k <- {"role", "content"} ::
      k in params.fields && Message.FromDict(params).value.ToDict()[k] == params.fields[k]
  {
  }

  /** Each field of the input section comes from one wire key, and `to_dict` writes it back
      under the internal name. */
  lemma InputRenames(params: Json)
    requires Input.FromDict(params).Ok?
    ensures var d := Input.FromDict(params).value.ToDict();
      d["raw"] == params.fields["raw"] && d["english"] == params.fields["en-us"] &&
      d["mandarin"] == params.fields["zh-cn"] && d["pinyin"] == params.fields["zh-pinyin"]
  {
  }

  lemma CorrectionsRenames(params: Json)
    requires Corrections.FromDict(params).Ok?
    ensures var d := Corrections.FromDict(params).value.ToDict();
      d["critiques"] == params.fields["critiques"] && d["reasoning"] == params.fields["reasoning"] &&
      d["mandarin"] == params.fields["zh-cn"] && d["pinyin"] == params.fields["zh-pinyin"]
  {
  }

  lemma OutputRenames(params: Json)
    requires Output.FromDict(params).Ok?
    ensures var d := Output.FromDict(params).value.ToDict();
      d["english"] == params.fields["en-us"] && d["mandarin"] == params.fields["zh-cn"] &&
      d["pinyin"] == params.fields["zh-pinyin"]
  {
  }

  /** A written input section cannot be read back: `en-us` is the first key the reader misses. */
  lemma InputNotReread(x: Input)
    ensures Input.FromDict(JObject(x.ToDict())) == Err(MissingKey("input", "en-us"))
  {
    assert FirstAbsentAt(x.ToDict(), InputWireKeys, 1);
  }

  /** `critiques` and `reasoning` survive, but the reader then misses `zh-cn`. */
  lemma CorrectionsNotReread(x: Corrections)
    ensures Corrections.FromDict(JObject(x.ToDict())) == Err(MissingKey("corrections", "zh-cn"))
  {
    assert FirstAbsentAt(x.ToDict(), CorrectionsWireKeys, 2);
  }

  lemma OutputNotReread(x: Output)
    ensures Output.FromDict(JObject(x.ToDict())) == Err(MissingKey("output", "en-us"))
  {
    assert FirstAbsentAt(x.ToDict(), OutputWireKeys, 0);
  }

  /** A written response cannot be read back either: its corrections section is read first
      and fails at `zh-cn`. */
  lemma ResponseNotReread(x: Response)
    requires x.corrections.Present?
    ensures Response.FromDict(JObject(x.ToDict())) == Err(MissingKey("corrections", "zh-cn"))
  {
    assert Truthy(CorrectionsValue(JObject(x.ToDict())));
    CorrectionsNotReread(x.corrections.section);
  }

  /** Every field of a parsed response's input and output comes from its one wire key. */
  lemma ResponseReadsWireKeys(params: Json)
    requires WellFormedResponse(params)
    ensures Response.FromDict(params).Ok?
    ensures var r := Response.FromDict(params).value;
      var i, o := params.fields["input"].fields, params.fields["output"].fields;
      && i["raw"] == JString(r.input.raw) && i["en-us"] == JString(r.input.english)
      && i["zh-cn"] == JString(r.input.mandarin) && i["zh-pinyin"] == JString(r.input.pinyin)
      && o["en-us"] == JString(r.output.english) && o["zh-cn"] == JString(r.output.mandarin)
      && o["zh-pinyin"] == JString(r.output.pinyin)
  {
    ResponseSections(params);
    assert Input.FromDict(params.fields["input"]).Ok?;
    assert Output.FromDict(params.fields["output"]).Ok?;
  }

  /** A parsed corrections section's fields come from their wire keys too. */
  lemma ResponseReadsCorrectionsKeys(params: Json)
    requires WellFormedResponse(params) && Truthy(CorrectionsValue(params))
    ensures Response.FromDict(params).Ok?
    ensures var r := Response.FromDict(params).value;
      var c := CorrectionsValue(params).fields;
      && r.corrections.Present?
      && c["critiques"] == JString(r.corrections.section.critiques)
      && c["reasoning"] == JString(r.corrections.section.reasoning)
      && c["zh-cn"] == JString(r.corrections.section.mandarin)
      && c["zh-pinyin"] == JString(r.corrections.section.pinyin)
  {
    ResponseSections(params);
    assert Corrections.FromDict(CorrectionsValue(params)).Ok?;
  }

  /** A well-formed reply is read section by section: each section is the result of that
      section's reader on the value under its key. */
  lemma ResponseSections(params: Json)
    requires WellFormedResponse(params)
    ensures Response.FromDict(params).Ok?
    ensures Response.FromDict(params).value.input == Input.FromDict(params.fields["input"]).value
    ensures Response.FromDict(params).value.output == Output.FromDict(params.fields["output"]).value
    ensures Truthy(CorrectionsValue(params)) ==>
      Response.FromDict(params).value.corrections ==
        Present(Corrections.FromDict(CorrectionsValue(params)).value)
  {
  }

  /** Some section the response needs is missing a key. */
  predicate LacksRequiredKey(params: Json)
    requires params.JObject?
  {
    var c := CorrectionsValue(params);
    || "input" !in params.fields
    || "output" !in params.fields
    || (params.fields["input"].JObject? && exists k <- InputWireKeys :: k !in params.fields["input"].fields)
    || (params.fields["output"].JObject? && exists k <- OutputWireKeys :: k !in params.fields["output"].fields)
    || (Truthy(c) && c.JObject? && exists k <- CorrectionsWireKeys :: k !in c.fields)
  }

  /** A missing key anywhere the response needs one makes reading fail: no default is made up. */
  lemma MissingKeyFails(params: Json)
    requires params.JObject? && LacksRequiredKey(params)
    ensures Response.FromDict(params).Err?
  {
  }

  /** With acceptable corrections, a missing top-level section is reported by name. */
  lemma MissingSectionReported(params: Json)
    requires params.JObject?
    requires Truthy(CorrectionsValue(params)) ==> StringFields(CorrectionsValue(params), CorrectionsWireKeys)
    ensures "input" !in params.fields ==> Response.FromDict(params) == Err(MissingKey("response", "input"))
    ensures ("input" in params.fields && StringFields(params.fields["input"], InputWireKeys) &&
             "output" !in params.fields) ==>
      Response.FromDict(params) == Err(MissingKey("response", "output"))
  {
  }

  /** A section that is a dict but lacks a key is reported by its first missing key, in the
      order the code subscripts them. */
  lemma MissingFieldReported(params: Json)
    requires params.JObject?
    requires Truthy(CorrectionsValue(params)) ==> StringFields(CorrectionsValue(params), CorrectionsWireKeys)
    requires "input" in params.fields && params.fields["input"].JObject?
    ensures var i := params.fields["input"].fields;
      FirstMissing(i, InputWireKeys).Some? ==>
        Response.FromDict(params) == Err(MissingKey("input", FirstMissing(i, InputWireKeys).value))
    ensures (StringFields(params.fields["input"], InputWireKeys) &&
             "output" in params.fields && params.fields["output"].JObject? &&
             FirstMissing(params.fields["output"].fields, OutputWireKeys).Some?) ==>
      Response.FromDict(params) ==
        Err(MissingKey("output", FirstMissing(params.fields["output"].fields, OutputWireKeys).value))
  {
  }

  /** The reply the system instruction asks for when the user's Chinese needs no correction,
      one without a `corrections` key, is read successfully but cannot be written back: its
      corrections field is the empty dict, and `to_dict` needs a parsed section. */
  lemma OmittedCorrectionsNotWritable(params: Json)
    requires WellFormedResponse(params) && "corrections" !in params.fields
    ensures Response.FromDict(params).Ok?
    ensures !Response.FromDict(params).value.corrections.Present?
  {
  }

  /** An absent, null or empty `corrections` becomes the empty dict, never a parsed section, so
      the response read cannot be written back with `to_dict`. */
  lemma NoCorrectionsGivesEmptyMapping(params: Json)
    requires params.JObject? && Response.FromDict(params).Ok?
    requires "corrections" !in params.fields || !Truthy(params.fields["corrections"])
    ensures Response.FromDict(params).value.corrections == EmptyMapping
  {
  }

  /** A non-empty `corrections` dict is parsed by the corrections reader. */
  lemma PresentCorrectionsParsed(params: Json)
    requires params.JObject? && Response.FromDict(params).Ok?
    requires "corrections" in params.fields && Truthy(params.fields["corrections"])
    ensures Response.FromDict(params).value.corrections ==
      Present(Corrections.FromDict(params.fields["corrections"]).value)
  {
  }
}
