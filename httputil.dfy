/** The JSON envelopes every endpoint answers with, the part of a gin
    request context the middlewares touch, and the turning of validator
    errors into field/message pairs (pkg/httputil/response.go). */
module HttpUtil {
  import opened Text

  /** A value kept in a gin.Context, with the Go type it was stored as. */
  datatype CtxValue = UintValue(n: nat) | Uint64Value(n: nat) | StringValue(s: string)

  /** ValidationError: one field and what is wrong with it. */
  datatype ValidationError = ValidationError(field: string, message: string)

  /** The `interface{}` passed as data or errors: nil, a string, a list of
      validation errors, or any other document a handler supplies. */
  datatype Payload = Nil | Str(s: string) | Errors(list: seq<ValidationError>) | Document(json: string)

  /** SuccessResponse and ErrorResponse. */
  datatype Envelope =
    | SuccessBody(success: bool, message: string, data: Payload)
    | ErrorBody(success: bool, message: string, errors: Payload)

  datatype Response = Response(status: int, body: Envelope)

  const StatusUnauthorized: int := 401

  /** The keys encoding/json writes for an envelope: `omitempty` drops an
      empty message and a nil interface, but not an interface holding "". */
  function JsonKeys(b: Envelope): set<string>
  {
    match b
    case SuccessBody(_, m, d) =>
      {"success"} + (if m == "" then {} else {"message"}) + (if d == Nil then {} else {"data"})
    case ErrorBody(_, _, e) =>
      {"success", "message"} + (if e == Nil then {} else {"errors"})
  }

  /** An error envelope always has its message, even an empty one; `errors`
      is present exactly when the payload is not nil, so "" is written out. */
  lemma ErrorKeys(m: string, e: Payload)
    ensures "message" in JsonKeys(ErrorBody(false, m, e))
    ensures "errors" in JsonKeys(ErrorBody(false, m, e)) <==> !e.Nil?
    ensures "errors" in JsonKeys(ErrorBody(false, m, Str("")))
  {
  }

  /** A success envelope without a message or data is `{"success":true}`. */
  lemma BareSuccessKeys()
    ensures JsonKeys(SuccessBody(true, "", Nil)) == {"success"}
  {
  }

  /** The request context: stored keys, whether the chain was aborted,
      whether the next handler was run, and the responses written. */
  class GinContext {
    var keys: map<string, CtxValue>
    var aborted: bool
    var nextCalled: bool
    var written: seq<Response>

    constructor (keys: map<string, CtxValue>)
      ensures this.keys == keys && !aborted && !nextCalled && written == []
    {
      this.keys := keys;
      aborted := false;
      nextCalled := false;
      written := [];
    }

    /** c.Set */
    method Set(key: string, value: CtxValue)
      modifies this
      ensures keys == old(keys)[key := value]
      ensures aborted == old(aborted) && nextCalled == old(nextCalled) && written == old(written)
    {
      keys := keys[key := value];
    }

    /** c.Abort */
    method Abort()
      modifies this
      ensures aborted
      ensures keys == old(keys) && nextCalled == old(nextCalled) && written == old(written)
    {
      aborted := true;
    }

    /** c.Next: the rest of the chain runs. */
    method Next()
      modifies this
      ensures nextCalled
      ensures keys == old(keys) && aborted == old(aborted) && written == old(written)
    {
      nextCalled := true;
    }

    /** c.JSON */
    method Json(status: int, body: Envelope)
      modifies this
      ensures written == old(written) + [Response(status, body)]
      ensures keys == old(keys) && aborted == old(aborted) && nextCalled == old(nextCalled)
    {
      written := written + [Response(status, body)];
    }
  }

  /** RespondSuccess */
  method RespondSuccess(c: GinContext, status: int, message: string, data: Payload)
    modifies c
    ensures c.written == old(c.written) + [Response(status, SuccessBody(true, message, data))]
    ensures c.keys == old(c.keys) && c.aborted == old(c.aborted) && c.nextCalled == old(c.nextCalled)
  {
    c.Json(status, SuccessBody(true, message, data));
  }

  /** RespondError */
  method RespondError(c: GinContext, status: int, message: string, errors: Payload)
    modifies c
    ensures c.written == old(c.written) + [Response(status, ErrorBody(false, message, errors))]
    ensures c.keys == old(c.keys) && c.aborted == old(c.aborted) && c.nextCalled == old(c.nextCalled)
  {
    c.Json(status, ErrorBody(false, message, errors));
  }

  /** A validator.FieldError: the struct field's name, the failed tag and
      its parameter. */
  datatype FieldError = FieldError(field: string, tag: string, param: string)

  /** The error binding returns: validator.ValidationErrors, or anything else
      (malformed JSON, a type mismatch). */
  datatype BindError = ValidationErrors(fields: seq<FieldError>) | OtherBindError(text: string)

  /** getValidationMessage: every message but the email one starts with the
      field's own name, followed by the text for its tag. */
  function ValidationMessage(e: FieldError): (m: string)
    ensures e.tag == "email" ==> m == "Invalid email format"
    ensures e.tag != "email" ==> HasPrefix(m, e.field) && m == e.field + TagText(e.tag, e.param)
    ensures e.tag == "required" ==> m == e.field + " is required"
    ensures e.tag == "min" ==> m == e.field + " must be at least " + e.param + " characters"
    ensures e.tag == "max" ==> m == e.field + " must not exceed " + e.param + " characters"
    ensures e.tag == "unique" ==> m == e.field + " already exists"
    ensures TagKind(e.tag) == "" ==> m == e.field + " is invalid"
  {
    var f := e.field;
    if e.tag == "required" then f + " is required"
    else if e.tag == "email" then "Invalid email format"
    else if e.tag == "min" then f + " must be at least " + e.param + " characters"
    else if e.tag == "max" then f + " must not exceed " + e.param + " characters"
    else if e.tag == "unique" then f + " already exists"
    else f + " is invalid"
  }

  /** The tags getValidationMessage has a message of its own for; every
      other tag is of the default kind "". */
  function TagKind(tag: string): (k: string)
    ensures k == "" || k == tag
    ensures k != "" <==> tag in {"required", "email", "min", "max", "unique"}
  {
    if tag in {"required", "email", "min", "max", "unique"} then tag else ""
  }

  /** What follows the field's name in a message other than the email one. */
  function TagText(tag: string, param: string): string
  {
    if tag == "required" then " is required"
    else if tag == "min" then " must be at least " + param + " characters"
    else if tag == "max" then " must not exceed " + param + " characters"
    else if tag == "unique" then " already exists"
    else " is invalid"
  }

  /** The messages tell the kinds of failure apart: for one field and one
      parameter, tags of different kinds never give the same message. */
  lemma {:induction false} MessagesTellTagsApart(field: string, param: string, t1: string, t2: string)
    requires TagKind(t1) != TagKind(t2)
    ensures ValidationMessage(FieldError(field, t1, param)) != ValidationMessage(FieldError(field, t2, param))
  {
    var m1, m2 := ValidationMessage(FieldError(field, t1, param)), ValidationMessage(FieldError(field, t2, param));
    if t1 == "email" || t2 == "email" {
      var other := if t1 == "email" then t2 else t1;
      var m := ValidationMessage(FieldError(field, other, param));
      TagTextLastLetter(other, param);
      assert m[|m| - 1] == TagText(other, param)[|TagText(other, param)| - 1];
      assert "Invalid email format"[19] == 't';
    } else {
      var s1, s2 := TagText(t1, param), TagText(t2, param);
      assert m1[|field|..] == s1 && m2[|field|..] == s2;
      TagTextsDiffer(t1, t2, param);
    }
  }

  /** No text after a field's name ends in 't', the last letter of "Invalid
      email format". */
  lemma TagTextLastLetter(tag: string, param: string)
    ensures |TagText(tag, param)| > 0 && TagText(tag, param)[|TagText(tag, param)| - 1] != 't'
  {
    var s := TagText(tag, param);
    if tag == "min" || tag == "max" {
      assert s[|s| - 1] == " characters"[10];
    }
  }

  /** Different non-email kinds have different texts after the field. */
  lemma TagTextsDiffer(t1: string, t2: string, param: string)
    requires TagKind(t1) != TagKind(t2) && t1 != "email" && t2 != "email"
    ensures TagText(t1, param) != TagText(t2, param)
  {
    var s1, s2 := TagText(t1, param), TagText(t2, param);
    if (t1 == "min" || t1 == "max") && (t2 == "min" || t2 == "max") {
      assert s1[6] != s2[6];
    } else if t1 == "min" || t1 == "max" {
      assert s1[1] == 'm' && s2[1] != 'm';
    } else if t2 == "min" || t2 == "max" {
      assert s2[1] == 'm' && s1[1] != 'm';
    } else {
      assert |s1| != |s2|;
    }
  }

  /** FormatValidationErrors: one entry per failed field, in order, with the
      field name lower-cased and the message naming the field as declared;
      any other error gives no entries. */
  method FormatValidationErrors(err: BindError) returns (errs: seq<ValidationError>)
    ensures err.OtherBindError? ==> errs == []
    ensures err.ValidationErrors? ==> |errs| == |err.fields|
    ensures err.ValidationErrors? ==> forall i :: 0 <= i < |errs| ==>
              errs[i].field == ToLower(err.fields[i].field)
              && errs[i].message == ValidationMessage(err.fields[i])
  {
    errs := [];
    if err.ValidationErrors? {
      var i := 0;
      while i < |err.fields|
        invariant 0 <= i <= |err.fields|
        invariant |errs| == i
        invariant forall k :: 0 <= k < i ==>
                    errs[k] == ValidationError(ToLower(err.fields[k].field), ValidationMessage(err.fields[k]))
      {
        var e := err.fields[i];
        errs := errs + [ValidationError(ToLower(e.field), ValidationMessage(e))];
        i := i + 1;
      }
    }
  }
}
