/** `validate_ticket`: which required fields are missing, in required-field order. */
module Validation {
  import opened Tickets

  datatype ValidationResult = ValidationResult(isValid: bool, missingFields: seq<Field>)

  /** The required fields that are absent or falsy, keeping their order. */
  function MissingFields(t: Ticket, required: seq<Field>): seq<Field>
  {
    if required == [] then []
    else
      var f := required[|required| - 1];
      MissingFields(t, required[..|required| - 1]) + (if IsFalsy(t, f) then [f] else [])
  }

  /** A field is reported iff it is required and falsy. */
  lemma {:induction false} MissingFieldsMembership(t: Ticket, required: seq<Field>, f: Field)
    ensures f in MissingFields(t, required) <==> f in required && IsFalsy(t, f)
  {
    if required != [] {
      var init := required[..|required| - 1];
      MissingFieldsMembership(t, init, f);
      assert required == init + [required[|required| - 1]];
    }
  }

  /** Order is kept: the report for `a + b` is the report for `a` followed by that for `b`. */
  lemma {:induction false} MissingFieldsAppend(t: Ticket, a: seq<Field>, b: seq<Field>)
    ensures MissingFields(t, a + b) == MissingFields(t, a) + MissingFields(t, b)
  {
    if b != [] {
      var init := b[..|b| - 1];
      assert (a + b)[..|a + b| - 1] == a + init;
      MissingFieldsAppend(t, a, init);
    } else {
      assert a + b == a;
    }
  }

  /** The report never lists more fields than are required. */
  lemma {:induction false} MissingFieldsLength(t: Ticket, required: seq<Field>)
    ensures |MissingFields(t, required)| <= |required|
    ensures |MissingFields(t, required)| == |required| <==> forall f :: f in required ==> IsFalsy(t, f)
  {
    if required != [] {
      var init := required[..|required| - 1];
      MissingFieldsLength(t, init);
      assert required == init + [required[|required| - 1]];
    }
  }

  /** `validate_ticket(ticket, required_fields)`. */
  method ValidateTicket(t: Ticket, required: seq<Field>) returns (v: ValidationResult)
    ensures v.missingFields == MissingFields(t, required)
    ensures v.isValid <==> forall f :: f in required ==> !IsFalsy(t, f)
  {
    var missing: seq<Field> := [];
    for i := 0 to |required|
      invariant missing == MissingFields(t, required[..i])
    {
      var f := required[i];
      assert required[..i + 1][..i] == required[..i];
      if IsFalsy(t, f) {
        missing := missing + [f];
      }
    }
    assert required[..|required|] == required;
    forall f ensures f in missing <==> f in required && IsFalsy(t, f) {
      MissingFieldsMembership(t, required, f);
    }
    if missing != [] {
      assert missing[0] in missing;
    }
    v := ValidationResult(|missing| == 0, missing);
  }
}
