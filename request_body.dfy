/**
 * The request body composer. For a method that carries a body it offers two
 * modes: raw JSON text, checked with `JSON.parse` as it is typed, and a form
 * of key/value fields. In form mode an effect rewrites the body, after every
 * change of the fields or of the mode, as the fields serialized with
 * `JSON.stringify(fields, null, 2)`. For any other method the composer
 * renders nothing, so none of its handlers or its effect can run; the model
 * makes each of them a no-op in that case.
 */
module RequestBody {
  import opened Wrappers
  import opened OrderedMaps
  import opened JsText
  import opened Json
  import opened JsonRoundTrip
  import opened ApiHeader

  /** The methods for which the composer is shown. */
  const BodySupportedMethods: seq<HttpMethod> := [POST, PUT, PATCH]

  predicate BodySupported(m: HttpMethod) {
    m in BodySupportedMethods
  }

  datatype ContentType = JsonMode | FormMode

  /** The form fields as the object `JSON.stringify` is given: string values, same key order. */
  function FormObject(fields: OMap<string, string>): (v: JsonValue)
    ensures v.JObject? && |v.members| == |fields|
    ensures forall i :: 0 <= i < |fields| ==> v.members[i] == (fields[i].0, JString(fields[i].1))
  {
    JObject(seq(|fields|, i requires 0 <= i < |fields| => (fields[i].0, JString(fields[i].1))))
  }

  /** The body text form mode keeps: the fields printed with two-space indentation. */
  function FormBody(fields: OMap<string, string>): string {
    Stringify(FormObject(fields))
  }

  /** The body form mode writes is valid JSON and reads back as exactly the fields, in order. */
  lemma FormBodyParsesBack(fields: OMap<string, string>)
    requires DistinctKeys(fields)
    ensures Parse(FormBody(fields)) == Success(FormObject(fields))
  {
    var v := FormObject(fields);
    assert WellFormed(v) by {
      assert DistinctKeys(v.members) by {
        forall i, j | 0 <= i < j < |v.members| ensures v.members[i].0 != v.members[j].0 {
          assert v.members[i].0 == fields[i].0 && v.members[j].0 == fields[j].0;
        }
      }
      forall i | 0 <= i < |v.members| ensures WellFormed(v.members[i].1) {
        assert v.members[i].1 == JString(fields[i].1);
      }
    }
    StringifyThenParse(v);
  }

  class BodyComposer {
    const httpMethod: HttpMethod
    var body: string
    var formData: OMap<string, string>
    var contentType: ContentType
    var newFormKey: string
    var newFormValue: string
    var jsonError: Option<string>

    predicate Valid()
      reads this
    {
      DistinctKeys(formData)
    }

    /** In form mode the body is the serialized fields: what the effect re-establishes. */
    predicate Synced()
      reads this
    {
      BodySupported(httpMethod) && contentType == FormMode ==> body == FormBody(formData)
    }

    /** Mounting runs the effect once. */
    constructor (httpMethod: HttpMethod, body: string, formData: OMap<string, string>, contentType: ContentType)
      requires DistinctKeys(formData)
      ensures Valid() && Synced()
      ensures this.httpMethod == httpMethod && this.formData == formData && this.contentType == contentType
      ensures this.body == if BodySupported(httpMethod) && contentType == FormMode then FormBody(formData) else body
      ensures newFormKey == "" && newFormValue == "" && jsonError == None
    {
      this.httpMethod := httpMethod;
      this.formData := formData;
      this.contentType := contentType;
      newFormKey := "";
      newFormValue := "";
      jsonError := None;
      if BodySupported(httpMethod) && contentType == FormMode {
        this.body := FormBody(formData);
      } else {
        this.body := body;
      }
    }

    /**
     * Typing in the JSON box. The text is stored as typed. In JSON mode the
     * error slot is cleared when the text is blank or parses, and otherwise
     * holds the parser's message; in form mode it is left alone.
     */
    method HandleBodyChange(value: string)
      requires Valid()
      modifies this`body, this`jsonError
      ensures Valid()
      ensures !BodySupported(httpMethod) ==>
        body == old(body) && jsonError == old(jsonError)
      ensures BodySupported(httpMethod) ==> body == value
      ensures BodySupported(httpMethod) && contentType == JsonMode ==>
        && (jsonError == None <==> Trim(value) == [] || Parse(value).Success?)
        && (jsonError.Some? ==> Parse(value) == Failure(jsonError.value))
      ensures contentType == FormMode ==> jsonError == old(jsonError)
    {
      if !BodySupported(httpMethod) {
        return;
      }
      body := value;
      if contentType == JsonMode {
        if Trim(value) != [] {
          var parsed := Parse(value);
          if parsed.Failure? {
            jsonError := Some(parsed.error);
            return;
          }
        }
        jsonError := None;
      }
    }

    method SetPending(key: string, value: string)
      requires Valid()
      modifies this`newFormKey, this`newFormValue
      ensures Valid()
      ensures newFormKey == key && newFormValue == value
    {
      newFormKey := key;
      newFormValue := value;
    }

    /**
     * The Add button of the form. A blank key is ignored without a message.
     * Otherwise the typed key is set to the pending value, both inputs are
     * cleared, and the effect rewrites the body in form mode.
     */
    method AddFormField()
      requires Valid()
      modifies this`formData, this`newFormKey, this`newFormValue, this`body
      ensures Valid()
      ensures !BodySupported(httpMethod) || Trim(old(newFormKey)) == [] ==>
        && formData == old(formData) && body == old(body)
        && newFormKey == old(newFormKey) && newFormValue == old(newFormValue)
      ensures BodySupported(httpMethod) && Trim(old(newFormKey)) != [] ==>
        && formData == Put(old(formData), old(newFormKey), old(newFormValue))
        && newFormKey == "" && newFormValue == ""
        && Synced()
        && (contentType == JsonMode ==> body == old(body))
    {
      if !BodySupported(httpMethod) || Trim(newFormKey) == [] {
        return;
      }
      formData := Put(formData, newFormKey, newFormValue);
      newFormKey := "";
      newFormValue := "";
      RunEffect();
    }

    /** The trash button of field `key`. */
    method RemoveFormField(key: string)
      requires Valid()
      modifies this`formData, this`body
      ensures Valid()
      ensures !BodySupported(httpMethod) ==> formData == old(formData) && body == old(body)
      ensures BodySupported(httpMethod) ==>
        && formData == Delete(old(formData), key)
        && Synced()
        && (contentType == JsonMode ==> body == old(body))
    {
      if !BodySupported(httpMethod) {
        return;
      }
      formData := Delete(formData, key);
      RunEffect();
    }

    /** Typing in the value box of field `key`. */
    method EditFormFieldValue(key: string, value: string)
      requires Valid()
      modifies this`formData, this`body
      ensures Valid()
      ensures !BodySupported(httpMethod) ==> formData == old(formData) && body == old(body)
      ensures BodySupported(httpMethod) ==>
        && formData == Put(old(formData), key, value)
        && Synced()
        && (contentType == JsonMode ==> body == old(body))
    {
      if !BodySupported(httpMethod) {
        return;
      }
      formData := Put(formData, key, value);
      RunEffect();
    }

    /**
     * The JSON/Form tabs. Choosing the current tab changes nothing. Entering
     * form mode makes the effect overwrite the body with the serialized
     * fields, so text typed in JSON mode is lost; going back to JSON mode
     * keeps the serialized fields as the body.
     */
    method SetContentType(ct: ContentType)
      requires Valid()
      modifies this`contentType, this`body
      ensures Valid()
      ensures contentType == if BodySupported(httpMethod) then ct else old(contentType)
      ensures BodySupported(httpMethod) && ct != old(contentType) ==> Synced()
      ensures !BodySupported(httpMethod) || ct == old(contentType) || ct == JsonMode ==> body == old(body)
    {
      if !BodySupported(httpMethod) || ct == contentType {
        return;
      }
      contentType := ct;
      RunEffect();
    }

    /** The effect that follows a change of the fields or of the mode. */
    method RunEffect()
      requires BodySupported(httpMethod)
      modifies this`body
      ensures Synced()
      ensures contentType == JsonMode ==> body == old(body)
    {
      if contentType == FormMode {
        body := FormBody(formData);
      }
    }
  }
}
