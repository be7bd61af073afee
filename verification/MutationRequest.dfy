/** Canonicalizing one mutation request: the effective fields, their canonical bytes, and when two
    requests share them. */
module MutationRequest {
  import opened JsonTree
  import opened CanonicalJson
  import opened EscapedTexts
  import opened LenientReader
  import Scan = UnicodeEscapes

  const MAX_REQUEST_BYTES := 0x10_0000

  datatype Outcome =
    | UnsupportedOperation
    | TooLarge
    | NotJson
    | NotObject
    | OperationMismatch
    | BadDefault
    | Canonical(text: string)

  predicate IsMutation(operation: string) {
    operation in ["create_session", "submit_command", "cancel_command", "close_session", "run"]
  }

  predicate NeedsSource(operation: string) {
    operation == "create_session" || operation == "run"
  }

  function ByteLength(s: string): nat {
    |Utf8(s, 0)|
  }

  predicate Reserved(name: string) {
    name in ["", "request_id", "idempotency_key", "operation", "source"]
  }

  datatype Checked = Bad | Good(value: Json)

  /** A default is usable when its name is free, its text fits the limit and it is one JSON value. */
  function CheckDefault(name: string, raw: string): Checked {
    if Reserved(name) || ByteLength(raw) > MAX_REQUEST_BYTES then Bad
    else match Decode(raw, JSON)
      case Malformed => Bad
      case Decoded(value) => Good(value)
  }

  function Checks(defaults: map<string, string>): map<string, Checked> {
    map name | name in defaults :: CheckDefault(name, defaults[name])
  }

  predicate AllGood(checks: map<string, Checked>) {
    forall name | name in checks :: checks[name].Good?
  }

  function Values(checks: map<string, Checked>): map<string, Json> {
    map name | name in checks && checks[name].Good? :: checks[name].value
  }

  const EMPTY_SOURCE := Obj(map["mode" := Leaf(Str("empty"))])

  predicate Excluded(name: string) {
    name == "request_id" || name == "idempotency_key"
  }

  function EffectiveNames(operation: string, fields: map<string, Json>, defaults: map<string, Json>): set<string> {
    (fields.Keys - {"request_id", "idempotency_key"}) + {"operation"}
    + (if NeedsSource(operation) then {"source"} else {}) + defaults.Keys
  }

  /** What the canonical payload says about a field: the operation itself, the request's own value, the
      empty source, or the default. */
  function FieldValue(operation: string, fields: map<string, Json>, defaults: map<string, Json>, name: string): Json
    requires name in EffectiveNames(operation, fields, defaults)
  {
    if name == "operation" then Leaf(Str(operation))
    else if name in fields && !Excluded(name) then fields[name]
    else if name == "source" && NeedsSource(operation) then EMPTY_SOURCE
    else defaults[name]
  }

  /** The effective request: identifiers dropped; operation, empty source and defaults filled in. */
  function Effective(operation: string, fields: map<string, Json>, defaults: map<string, Json>): map<string, Json> {
    map name | name in EffectiveNames(operation, fields, defaults) :: FieldValue(operation, fields, defaults, name)
  }

  predicate OperationAgrees(operation: string, fields: map<string, Json>) {
    "operation" in fields ==> fields["operation"] == Leaf(Str(operation))
  }

  function Finish(operation: string, fields: map<string, Json>, checks: map<string, Checked>): Outcome {
    if AllGood(checks) then Canonical(Print(Obj(Effective(operation, fields, Values(checks))), JSON)) else BadDefault
  }

  /** What CanonicalizeMutationRequestJSON owes its callers. */
  function CanonicalForm(operation: string, raw: string, defaults: map<string, string>): Outcome {
    if !IsMutation(operation) then UnsupportedOperation
    else if ByteLength(raw) > MAX_REQUEST_BYTES then TooLarge
    else match Decode(raw, JSON)
      case Malformed => NotJson
      case Decoded(value) =>
        if !value.Obj? then NotObject
        else if !OperationAgrees(operation, value.fields) then OperationMismatch
        else Finish(operation, value.fields, Checks(defaults))
  }

  /** The request with the identifiers, the operation and the empty source settled. */
  function Settled(operation: string, fields: map<string, Json>): map<string, Json> {
    var trimmed := fields - {"request_id", "idempotency_key"};
    var named := trimmed["operation" := Leaf(Str(operation))];
    if NeedsSource(operation) && "source" !in named then named["source" := EMPTY_SOURCE] else named
  }

  /** The defaults of the first n names are in place, and nothing else was added. */
  ghost predicate Filled(request: map<string, Json>, settled: map<string, Json>, defaults: map<string, Json>,
                         names: seq<string>, n: nat)
    requires n <= |names|
  {
    && (forall k | 0 <= k < n :: names[k] in request)
    && (forall name | name in settled :: name in request && request[name] == settled[name])
    && (forall name | name in request && name !in settled :: name in defaults && request[name] == defaults[name])
  }

  lemma SettledFields(operation: string, fields: map<string, Json>, name: string)
    ensures name in Settled(operation, fields) <==> name in EffectiveNames(operation, fields, map[])
    ensures name in Settled(operation, fields) ==>
              Settled(operation, fields)[name] == FieldValue(operation, fields, map[], name)
  {
  }

  lemma FilledIsEffective(request: map<string, Json>, operation: string, fields: map<string, Json>,
                          defaults: map<string, Json>, names: seq<string>)
    requires forall name :: name in names <==> name in defaults
    requires Filled(request, Settled(operation, fields), defaults, names, |names|)
    ensures request == Effective(operation, fields, defaults)
  {
    var goal := Effective(operation, fields, defaults);
    forall name
      ensures name in request <==> name in goal
      ensures name in request && name in goal ==> request[name] == goal[name]
    {
      SettledFields(operation, fields, name);
      if name in defaults {
        assert name in names;
      }
    }
    assert request.Keys == goal.Keys;
  }

  /** decodeCanonicalJSON: the surrogate scan over the bytes, then the decoder. */
  method DecodeText(raw: string) returns (decoded: Decoded)
    ensures decoded == Decode(raw, JSON)
  {
    var paired := Scan.ValidUnicodeEscapes(Utf8(raw, 0));
    decoded := if paired then Decode(raw, LENIENT) else Malformed;
    ScanThenDecodeIsStrict(raw);
  }

  /** CanonicalizeMutationRequestJSON: edits the decoded request step by step and prints it. */
  method Canonicalize(operation: string, raw: string, defaults: map<string, string>) returns (r: Outcome)
    ensures r == CanonicalForm(operation, raw, defaults)
  {
    if !IsMutation(operation) {
      return UnsupportedOperation;
    }
    if ByteLength(raw) > MAX_REQUEST_BYTES {
      return TooLarge;
    }
    var decoded := DecodeText(raw);
    if decoded.Malformed? {
      return NotJson;
    }
    if !decoded.value.Obj? {
      return NotObject;
    }
    var fields := decoded.value.fields;
    if !OperationAgrees(operation, fields) {
      return OperationMismatch;
    }
    r := FinishRequest(operation, fields, Checks(defaults));
  }

  method FinishRequest(operation: string, fields: map<string, Json>, checks: map<string, Checked>) returns (r: Outcome)
    ensures r == Finish(operation, fields, checks)
  {
    var names := SortedKeys(checks.Keys);
    forall k | 0 <= k < |names| ensures names[k] in checks {
      assert names[k] in names;
    }
    var ok, request := FillDefaults(Settled(operation, fields), checks, names, Values(checks));
    GoodIffNamed(checks, names);
    if ok {
      FilledIsEffective(request, operation, fields, Values(checks), names);
    }
    r := if ok then Canonical(Print(Obj(request), JSON)) else BadDefault;
  }

  lemma GoodIffNamed(checks: map<string, Checked>, names: seq<string>)
    requires forall name :: name in names <==> name in checks
    ensures AllGood(checks) <==> forall k | 0 <= k < |names| :: checks[names[k]].Good?
    ensures AllGood(checks) ==> Values(checks).Keys == checks.Keys
  {
    forall k | 0 <= k < |names| ensures names[k] in checks {
      assert names[k] in names;
    }
    forall name | name in checks ensures exists k :: 0 <= k < |names| && names[k] == name {
      assert name in names;
    }
  }

  /** The loop over the default names in order; a field of the request is never overwritten. */
  method FillDefaults(settled: map<string, Json>, checks: map<string, Checked>, names: seq<string>,
                      ghost values: map<string, Json>)
    returns (ok: bool, request: map<string, Json>)
    requires forall k | 0 <= k < |names| :: names[k] in checks
    requires forall name | name in checks && checks[name].Good? :: name in values && values[name] == checks[name].value
    ensures ok <==> forall k | 0 <= k < |names| :: checks[names[k]].Good?
    ensures ok ==> Filled(request, settled, values, names, |names|)
  {
    request := settled;
    var n := 0;
    while n < |names|
      invariant 0 <= n <= |names|
      invariant forall k | 0 <= k < n :: checks[names[k]].Good?
      invariant Filled(request, settled, values, names, n)
    {
      var check := checks[names[n]];
      if check.Bad? {
        return false, request;
      }
      FilledNext(request, settled, values, names, n);
      if names[n] !in request {
        request := request[names[n] := check.value];
      }
      n := n + 1;
    }
    ok := true;
  }

  lemma FilledNext(request: map<string, Json>, settled: map<string, Json>, values: map<string, Json>,
                   names: seq<string>, n: nat)
    requires n < |names| && names[n] in values && Filled(request, settled, values, names, n)
    ensures var next := if names[n] in request then request else request[names[n] := values[names[n]]];
            Filled(next, settled, values, names, n + 1)
  {
  }

  // ---- valid values ----

  lemma DecodedIsValid(raw: string)
    requires Decode(raw, JSON).Decoded?
    ensures Valid(Decode(raw, JSON).value, JSON)
  {
    JsonReadsValid();
    ValueIsValid(raw, Skip(raw, 0), JSON);
  }

  lemma ChecksAreValid(defaults: map<string, string>)
    ensures FieldsValid(Values(Checks(defaults)), JSON)
  {
    forall name | name in Values(Checks(defaults)) ensures Valid(Values(Checks(defaults))[name], JSON) {
      DecodedIsValid(defaults[name]);
    }
  }

  lemma EffectiveIsValid(operation: string, fields: map<string, Json>, defaults: map<string, Json>)
    requires FieldsValid(fields, JSON) && FieldsValid(defaults, JSON)
    ensures FieldsValid(Effective(operation, fields, defaults), JSON)
  {
    assert Valid(EMPTY_SOURCE, JSON);
  }

  // ---- equal bytes, equal requests ----

  /** Two requests canonicalized under one operation and one set of defaults give identical bytes
      exactly when their effective requests are equal with numbers compared as exact decimals. */
  lemma SameBytesIffSameRequest(operation: string, raw1: string, raw2: string, defaults: map<string, string>)
    requires CanonicalForm(operation, raw1, defaults).Canonical? && CanonicalForm(operation, raw2, defaults).Canonical?
    ensures var e1 := Obj(Effective(operation, Decode(raw1, JSON).value.fields, Values(Checks(defaults))));
            var e2 := Obj(Effective(operation, Decode(raw2, JSON).value.fields, Values(Checks(defaults))));
            && Valid(e1, JSON) && Valid(e2, JSON)
            && (CanonicalForm(operation, raw1, defaults) == CanonicalForm(operation, raw2, defaults) <==> Same(e1, e2))
  {
    DecodedIsValid(raw1);
    DecodedIsValid(raw2);
    ChecksAreValid(defaults);
    var values := Values(Checks(defaults));
    EffectiveIsValid(operation, Decode(raw1, JSON).value.fields, values);
    EffectiveIsValid(operation, Decode(raw2, JSON).value.fields, values);
    PrintAlikeIffSame(Obj(Effective(operation, Decode(raw1, JSON).value.fields, values)),
                      Obj(Effective(operation, Decode(raw2, JSON).value.fields, values)));
  }

  // ---- canonical bytes are a fixpoint ----

  /** A request that already has exactly the effective fields is left as it is. */
  lemma EffectiveAgain(operation: string, fields: map<string, Json>, defaults: map<string, Json>, e: map<string, Json>)
    requires (forall name | name in defaults :: !Reserved(name))
             && e.Keys == EffectiveNames(operation, fields, defaults)
    requires "operation" in e && e["operation"] == Leaf(Str(operation))
    ensures Effective(operation, e, defaults) == e
  {
    assert EffectiveNames(operation, e, defaults) == e.Keys;
  }

  lemma NormOperation(operation: string, fields: map<string, Json>, defaults: map<string, Json>)
    ensures var e := Norm(Obj(Effective(operation, fields, defaults)), JSON);
            && e.Obj? && e.fields.Keys == EffectiveNames(operation, fields, defaults)
            && "operation" in e.fields && e.fields["operation"] == Leaf(Str(operation))
  {
    var f := Effective(operation, fields, defaults);
    assert "operation" in f && f["operation"] == Leaf(Str(operation));
    assert Norm(f["operation"], JSON) == Leaf(JSON.norm(Str(operation)));
    assert JSON.norm(Str(operation)) == Str(operation);
  }

  /** Canonicalizing an output that still fits the limit returns it unchanged. */
  lemma CanonicalBytesAreFixed(operation: string, raw: string, defaults: map<string, string>)
    requires CanonicalForm(operation, raw, defaults).Canonical?
    requires ByteLength(CanonicalForm(operation, raw, defaults).text) <= MAX_REQUEST_BYTES
    ensures var first := CanonicalForm(operation, raw, defaults);
            CanonicalForm(operation, first.text, defaults) == first
  {
    var values := Values(Checks(defaults));
    var fields := Decode(raw, JSON).value.fields;
    var e := Obj(Effective(operation, fields, values));
    DecodedIsValid(raw);
    ChecksAreValid(defaults);
    EffectiveIsValid(operation, fields, values);
    CanonicalAgain(operation, fields, defaults, Print(e, JSON));
  }

  lemma CanonicalAgain(operation: string, fields: map<string, Json>, defaults: map<string, string>, text: string)
    requires var e := Obj(Effective(operation, fields, Values(Checks(defaults))));
             Valid(e, JSON) && text == Print(e, JSON)
    requires IsMutation(operation) && ByteLength(text) <= MAX_REQUEST_BYTES && AllGood(Checks(defaults))
    ensures CanonicalForm(operation, text, defaults) == Canonical(text)
  {
    var values := Values(Checks(defaults));
    var e := Obj(Effective(operation, fields, values));
    var again := Norm(e, JSON);
    assert Decode(text, JSON) == Decoded(again) by {
      JsonIsFaithful();
      DecodePrinted(e, JSON);
    }
    assert Print(again, JSON) == text by {
      PrintNorm(e);
    }
    NormOperation(operation, fields, values);
    EffectiveAgain(operation, fields, values, again.fields);
  }
}
