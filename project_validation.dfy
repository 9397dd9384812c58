/**
 * `ProjectValidation`: the four document validators (`validateSpecifications`,
 * `validateImages`, `validateDocuments`, `validateNotes`) share one permissive rule:
 * the value must be a non-null object. Arrays pass, and contents are never inspected.
 */
module ProjectValidation {
  import opened JsValues

  /** `!value || typeof value !== 'object'` rejects; everything else is accepted. */
  function Validate(value: Value): (ok: bool)
    ensures ok ==> Truthy(value)
    ensures ok <==> value.Arr? || value.Obj? || value.Date?
  {
    if !Truthy(value) || !IsObjectLike(value) then false else true
  }

  /** The validators accept every object and every array, whatever they contain. */
  lemma AcceptsAnyContents(fields: map<string, Value>, items: seq<Value>)
    ensures Validate(Obj(fields)) && Validate(Arr(items))
  {
  }

  /** `null`, booleans, numbers and strings are all rejected. */
  lemma RejectsScalars(value: Value)
    requires value.Null? || value.Bool? || value.Num? || value.Str?
    ensures !Validate(value)
  {
  }
}
