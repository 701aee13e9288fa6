/**
 * The error messages every form keeps in a `Record<string, string>` keyed by
 * the `name` of the input: the statement that records a message when a check
 * fails, and the change handler's clearing of the changed input's message.
 */
module FormErrors {

  /** `if (failed) newErrors[field] = message` */
  function Require<F(==)>(errors: map<F, string>, failed: bool, field: F, message: string): map<F, string> {
    if failed then errors[field := message] else errors
  }

  /** A failed check adds its message under its field; a passed one changes nothing. */
  lemma RequireSpec<F>(errors: map<F, string>, failed: bool, field: F, message: string)
    ensures Require(errors, failed, field, message).Keys == if failed then errors.Keys + {field} else errors.Keys
    ensures failed ==> Require(errors, failed, field, message)[field] == message
    ensures forall k :: k in errors && k != field ==> Require(errors, failed, field, message)[k] == errors[k]
  {
  }

  /** `if (errors[name]) setErrors({ ...errors, [name]: '' })`: a set message is blanked. */
  function ClearError<F(==)>(errors: map<F, string>, name: F): map<F, string> {
    if name in errors && errors[name] != "" then errors[name := ""] else errors
  }

  /**
   * After a change the changed input shows no message, and every other input
   * keeps its message; no key is added or dropped.
   */
  lemma ClearErrorOnlyThatField<F>(errors: map<F, string>, name: F)
    ensures var r := ClearError(errors, name);
            && r.Keys == errors.Keys
            && (name in r ==> r[name] == "")
            && (forall k :: k in r && k != name ==> r[k] == errors[k])
  {
  }
}
