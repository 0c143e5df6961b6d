/** The contact form's submit handler: the name, email and message fields are
    trimmed; the form is accepted when name and message are not empty and the
    email matches the unanchored pattern `.+@.+\..+`. */
module Contact {
  import opened Dom
  import opened Text

  /** No character of `s[lo..hi]` is a line terminator, so a regular-expression
      `.` matches each of them. */
  predicate DotsMatch(s: string, lo: int, hi: int)
    requires 0 <= lo <= hi <= |s|
  {
    forall k :: lo <= k < hi ==> !IsLineTerminator(s[k])
  }

  /** `s[i..e]` has the form X@Y.Z with X = `s[i..p]`, Y = `s[p+1..q]` and
      Z = `s[q+1..e]` each non-empty and free of line terminators. */
  ghost predicate MatchAt(s: string, i: int, p: int, q: int, e: int)
  {
    0 <= i < p && p + 1 < q && q + 1 < e <= |s|
    && s[p] == '@' && s[q] == '.' && DotsMatch(s, i, e)
  }

  /** The pattern `.+@.+\..+` occurs somewhere in `s`. */
  ghost predicate EmailPattern(s: string)
  {
    exists i, p, q, e :: MatchAt(s, i, p, q, e)
  }

  /** The shortest form of a match: one character for X and for Z. */
  predicate ShortMatchAt(s: string, p: int, q: int)
  {
    1 <= p && p + 2 <= q && q + 2 <= |s| && s[p] == '@' && s[q] == '.' && DotsMatch(s, p - 1, q + 2)
  }

  /** A match exists exactly when a shortest one does: X and Z can always be
      cut down to the single character next to the `@` and the `.`. */
  lemma ShortMatchIff(s: string)
    ensures EmailPattern(s) <==> exists p, q :: ShortMatchAt(s, p, q)
  {
    if EmailPattern(s) {
      var i, p, q, e :| MatchAt(s, i, p, q, e);
      assert ShortMatchAt(s, p, q);
    }
    if exists p, q :: ShortMatchAt(s, p, q) {
      var p, q :| ShortMatchAt(s, p, q);
      assert MatchAt(s, p - 1, p, q, q + 2);
    }
  }

  /** A decision procedure for the pattern: some `@` and some `.` at least two
      further on, a character before the `@` and after the `.`, and no line
      terminator from the character before the `@` to the one after the `.`. */
  function EmailOk(s: string): (r: bool)
    ensures r <==> EmailPattern(s)
  {
    ShortMatchIff(s);
    exists p, q | 1 <= p < |s| && p + 2 <= q < |s| :: ShortMatchAt(s, p, q)
  }

  /** The form's fields as the browser's FormData reports them; an absent field is `null`. */
  datatype FormFields = FormFields(name: Option<string>, email: Option<string>, message: Option<string>)

  const Rejection: string := "Please complete all fields with a valid email."
  const Thanks: string := "Thanks! I will get back to you shortly."

  /** The submit check. A field that is absent reads as `""`; each field is trimmed. */
  function Accepts(f: FormFields): (r: bool)
    ensures r ==> f.name.Some? && f.email.Some? && f.message.Some?
  {
    Verdict(Trim(Or(f.name, "")), Trim(Or(f.email, "")), Trim(Or(f.message, "")))
  }

  /** A submission is accepted exactly when the name and the message each have a
      character that is not white space and the trimmed email contains X@Y.Z. */
  lemma AcceptsIff(f: FormFields)
    ensures Accepts(f) <==> HasContent(Or(f.name, "")) && HasContent(Or(f.message, ""))
                            && EmailPattern(Trim(Or(f.email, "")))
  {
    TrimEmptyIff(Or(f.name, ""));
    TrimEmptyIff(Or(f.message, ""));
  }

  /** The verdict on fields that are already trimmed. */
  function Verdict(name: string, email: string, message: string): (r: bool)
    ensures r ==> name != "" && message != "" && |email| >= 5
  {
    name != "" && EmailOk(email) && message != ""
  }

  /** The fields with every value trimmed and every absent field read as `""`. */
  function Trimmed(f: FormFields): FormFields
  {
    FormFields(Some(Trim(Or(f.name, ""))), Some(Trim(Or(f.email, ""))), Some(Trim(Or(f.message, ""))))
  }

  /** Surrounding white space never decides the outcome: trimming the fields first
      gives the same verdict. */
  lemma AcceptsTrimmed(f: FormFields)
    ensures Accepts(Trimmed(f)) == Accepts(f)
  {
    var g := Trimmed(f);
    var n, e, m := Or(f.name, ""), Or(f.email, ""), Or(f.message, "");
    assert g.name == Some(Trim(n));
    OrPresent(Trim(n));
    OrPresent(Trim(e));
    OrPresent(Trim(m));
    TrimIdempotent(n);
    TrimIdempotent(e);
    TrimIdempotent(m);
  }

  lemma OrPresent(t: string)
    ensures Or(Some(t), "") == t
  {
  }

  /** The form: its current field values, the values a reset restores, and the
      status line (absent from some pages). */
  class ContactForm {
    const defaults: FormFields
    const hasStatus: bool
    var fields: FormFields
    var status: string

    constructor (initial: FormFields, statusPresent: bool, initialStatus: string)
      ensures defaults == initial && fields == initial
      ensures hasStatus == statusPresent && status == initialStatus
    {
      defaults, fields := initial, initial;
      hasStatus, status := statusPresent, initialStatus;
    }

    /** The user types into the form: the fields take new values and the status
        line is untouched. */
    method Edit(f: FormFields)
      modifies this
      ensures fields == f && status == old(status)
    {
      fields := f;
    }

    /** The submit handler: on rejection the status shows the request to complete
        the form and the fields are kept; on acceptance the status thanks the
        sender and the form is reset. */
    method Submit() returns (accepted: bool)
      modifies this
      ensures accepted == Accepts(old(fields))
      ensures fields == if accepted then defaults else old(fields)
      ensures status == if !hasStatus then old(status) else if accepted then Thanks else Rejection
    {
      var submitted := fields;
      accepted := Accepts(submitted);
      if hasStatus {
        status := if accepted then Thanks else Rejection;
      }
      if accepted {
        fields := defaults;
      }
    }
  }
}
