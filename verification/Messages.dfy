/** The messages on the pipe: a request object from a client, a response object back, each with
    a payload that is itself text, as a rule another JSON text quoted as a string. */
module Messages {
  import opened Bytes
  import opened Common
  import opened JsonString
  import opened JsonParser
  import opened JsonSyntax
  import opened JsonPrinter
  import opened JsonSerializer
  import opened JsonValues
  import opened WindowJson

  datatype Request = Request(action: Text, payload: Text)

  datatype Response = Response(success: bool, error: Text, payload: Text)

  const ACTION: Text := Ascii("Action")
  const PAYLOAD: Text := Ascii("Payload")
  const SUCCESS: Text := Ascii("Success")
  const ERROR: Text := Ascii("Error")

  /** A member that is missing or not a string counts as empty. */
  function StringAt(v: Value, key: Text): Text {
    var m := v.Get(key);
    if m.Some? && m.value.Str? then m.value.s else []
  }

  function RequestIn(v: Value): Option<Request> {
    if v.Obj? then Some(Request(StringAt(v, ACTION), StringAt(v, PAYLOAD))) else None
  }

  method RequestFromJson(text: Text) returns (r: Option<Request>)
    ensures r == RequestIn(ParseValue(text).value)
  {
    var v := Parse(text);
    if !v.Obj? { return None; }
    var req := Request([], []);
    var action := v.Get(ACTION);
    if action.Some? && action.value.Str? { req := req.(action := action.value.s); }
    var payload := v.Get(PAYLOAD);
    if payload.Some? && payload.value.Str? { req := req.(payload := payload.value.s); }
    r := Some(req);
  }

  function ResponseValue(r: Response): Value {
    Obj(map[SUCCESS := Bool(r.success), ERROR := Str(r.error), PAYLOAD := Str(r.payload)])
  }

  method ResponseToJson(r: Response, fmt: Format) returns (out: Text)
    ensures Prints(fmt, ResponseValue(r), out)
  {
    hide Prints;
    var obj: map<Text, Value> := map[];
    obj := obj[SUCCESS := Bool(r.success)];
    obj := obj[ERROR := Str(r.error)];
    obj := obj[PAYLOAD := Str(r.payload)];
    assert Obj(obj) == ResponseValue(r);
    out := Serialize(Obj(obj), fmt);
  }

  // ---- responses ----

  lemma MemberNamesDiffer()
    ensures SUCCESS != ERROR && SUCCESS != PAYLOAD && ERROR != PAYLOAD && ACTION != PAYLOAD
    ensures Canonical(SUCCESS) && Canonical(ERROR) && Canonical(PAYLOAD)
  {
    assert |SUCCESS| == 7 && |ERROR| == 5 && |PAYLOAD| == 7 && |ACTION| == 6 && SUCCESS[0] != PAYLOAD[0];
    AsciiIsCanonical(SUCCESS);
    AsciiIsCanonical(ERROR);
    AsciiIsCanonical(PAYLOAD);
  }

  lemma ResponseByName(r: Response)
    ensures ResponseValue(r) == Obj(map[
              Ascii("Success") := Bool(r.success), Ascii("Error") := Str(r.error), Ascii("Payload") := Str(r.payload)])
  {}

  /** Whatever order its members are printed in, a response is read as the same response with
      its texts in normal form; it is unchanged exactly if these are canonical. */
  lemma ResponseBack(fmt: Format, r: Response, out: Text)
    requires Prints(fmt, ResponseValue(r), out)
    ensures ParseValue(out).value == Obj(map[
              Ascii("Success") := Bool(r.success), Ascii("Error") := Str(Normal(r.error)), Ascii("Payload") := Str(Normal(r.payload))])
    ensures ParseValue(out).value == ResponseValue(Response(r.success, Normal(r.error), Normal(r.payload)))
    ensures ParseValue(out).value == ResponseValue(r) <==> Canonical(r.error) && Canonical(r.payload)
  {
    ResponseByName(Response(r.success, Normal(r.error), Normal(r.payload)));
    MemberNamesDiffer();
    hide Prints, Normal, Canonical, SUCCESS, ERROR, PAYLOAD;
    var normal := Response(r.success, Normal(r.error), Normal(r.payload));
    MapReprinted(fmt, ResponseValue(r).fields, ResponseValue(normal).fields);
    SerializedIsReprinted(fmt, ResponseValue(r), out);
    NormalFixpoints(r.error);
    NormalFixpoints(r.payload);
    if ResponseValue(normal) == ResponseValue(r) {
      assert ResponseValue(normal).fields[ERROR] == ResponseValue(r).fields[ERROR];
      assert ResponseValue(normal).fields[PAYLOAD] == ResponseValue(r).fields[PAYLOAD];
    }
  }

  /** A serialized payload arrives byte for byte, so that it parses to what was serialized, up
      to normal forms. */
  lemma PayloadBack(fmt: Format, r: Response, out: Text, inner: Value)
    requires Prints(fmt, ResponseValue(r), out) && Prints(fmt, inner, r.payload)
    ensures ParseValue(out).value.Get(Ascii("Payload")) == Some(Str(r.payload))
    ensures CanonicalKeys(inner) ==> ParseValue(StringAt(ParseValue(out).value, Ascii("Payload"))).value == Reprinted(fmt, inner)
    ensures ParseValue(StringAt(ParseValue(out).value, Ascii("Payload"))).value == inner <==> CleanValue(fmt, inner)
  {
    PayloadKept(fmt, r, out, inner);
    hide Prints, Reprinted, CanonicalKeys, CleanValue, ResponseValue, PAYLOAD, StringAt;
    if CanonicalKeys(inner) { SerializedIsReprinted(fmt, inner, r.payload); }
    SerializeThenParse(fmt, inner, r.payload);
  }

  lemma PayloadMember(r: Response)
    ensures StringAt(ResponseValue(r), PAYLOAD) == r.payload && ResponseValue(r).Get(PAYLOAD) == Some(Str(r.payload))
  {
    MemberNamesDiffer();
    hide PAYLOAD, SUCCESS, ERROR;
  }

  lemma SerializedIsNormal(fmt: Format, v: Value, out: Text)
    requires Prints(fmt, v, out)
    ensures Normal(out) == out
  {
    SerializedIsPrintable(fmt, v, out);
    hide Prints, Normal, Canonical;
    AsciiIsCanonical(out);
    NormalFixpoints(out);
  }

  lemma PayloadKept(fmt: Format, r: Response, out: Text, inner: Value)
    requires Prints(fmt, ResponseValue(r), out) && Prints(fmt, inner, r.payload)
    ensures StringAt(ParseValue(out).value, PAYLOAD) == r.payload
    ensures ParseValue(out).value.Get(PAYLOAD) == Some(Str(r.payload))
  {
    hide Prints, Normal, PAYLOAD, ResponseValue, StringAt;
    ResponseBack(fmt, r, out);
    SerializedIsNormal(fmt, inner, r.payload);
    PayloadMember(Response(r.success, Normal(r.error), Normal(r.payload)));
  }

  // ---- requests ----

  /** The member of this name, if it is a text; otherwise the empty text. */
  predicate TextNamed(v: Value, name: string, t: Text) {
    var m := v.Get(Ascii(name));
    if m.Some? && m.value.Str? then m == Some(Str(t)) else t == []
  }

  lemma RequestByName(v: Value)
    ensures RequestIn(v).Some? <==> v.Obj?
    ensures v.Obj? ==>
      TextNamed(v, "Action", RequestIn(v).value.action) && TextNamed(v, "Payload", RequestIn(v).value.payload)
  {
    hide Ascii;
  }

  /** However a client spells its request, and however it quotes the payload in it: if the
      payload is the text of a document, what the handler parses is what that document means. */
  lemma RequestDelivers(pre: Text, c: Syntax, post: Text, innerPre: Text, inner: Syntax, innerPost: Text)
    requires AllSpace(pre) && Proper(c) && AllSpace(post)
    requires AllSpace(innerPre) && Proper(inner) && AllSpace(innerPost)
    requires Meaning(c).Get(Ascii("Payload")) == Some(Str(innerPre + Render(inner, innerPost)))
    ensures var r := RequestIn(ParseValue(pre + Render(c, post)).value);
            && r.Some? && r.value.action == StringAt(Meaning(c), Ascii("Action"))
            && ParseValue(r.value.payload) == Parsed(Meaning(inner), innerPost)
  {
    ParsesDocument(pre, c, post);
    ParsesDocument(innerPre, inner, innerPost);
    hide ACTION, PAYLOAD, Render, Meaning, Proper, AllSpace;
  }
}
