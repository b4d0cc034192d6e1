/**
 * The filter form's fields: a text input (digits only for number fields) or
 * a checkbox for boolean fields, with derived placeholders and labels.
 */
module FilterBuilder {
  import opened Wrappers
  import opened Js
  import opened FilterSchema

  /** A form value: never set, a string, or a checkbox state. */
  datatype FormValue = Unset | Text(s: string) | Flag(b: bool)

  /** A value a field definition can start with: a string or a checkbox state, never unset. */
  type InitialValue = v: FormValue | !v.Unset? witness Text("")

  /** `FilterFieldDef`: name, label, type, optional placeholder and optional initial value (`None` for `undefined`). */
  datatype FieldDef = FieldDef(name: string, caption: string, kind: Kind, placeholder: Option<string>, initialValue: Option<InitialValue>)

  /** `value.replace(/\D+/g, "")`: the digits of the input, in order. */
  function Sanitize(s: string): (r: string)
    ensures AllDigits(r)
    ensures |r| <= |s|
  {
    if s == [] then []
    else (if IsDigit(s[0]) then [s[0]] else []) + Sanitize(s[1..])
  }

  /** Sanitising works piece by piece: each character is kept or dropped on its own. */
  lemma {:induction false} SanitizeAppend(a: string, b: string)
    ensures Sanitize(a + b) == Sanitize(a) + Sanitize(b)
  {
    if a != [] {
      assert (a + b)[1..] == a[1..] + b;
      SanitizeAppend(a[1..], b);
    } else {
      assert a + b == b;
    }
  }

  /** A digit-only input is left as it is. */
  lemma {:induction false} SanitizeDigits(s: string)
    requires AllDigits(s)
    ensures Sanitize(s) == s
  {
    if s != [] {
      SanitizeDigits(s[1..]);
    }
  }

  lemma SanitizeIdempotent(s: string)
    ensures Sanitize(Sanitize(s)) == Sanitize(s)
  {
    SanitizeDigits(Sanitize(s));
  }

  /** Every digit of the input survives, and nothing else does. */
  lemma {:induction false} SanitizeKeepsDigits(s: string, c: char)
    ensures c in Sanitize(s) <==> c in s && IsDigit(c)
  {
    if s != [] {
      SanitizeKeepsDigits(s[1..], c);
      assert s == [s[0]] + s[1..];
    }
  }

  /** The value an input's `onChange` stores: sanitised for number fields, as typed otherwise. */
  function Typed(kind: Kind, input: string): (v: FormValue)
    ensures v.Text?
    ensures kind == NumberKind ==> AllDigits(v.s) && v.s == Sanitize(input)
    ensures kind != NumberKind ==> v.s == input
  {
    if kind == NumberKind then Text(Sanitize(input)) else Text(input)
  }

  /** `/^\d+$/.test(text)`. */
  predicate DigitsOnly(text: string) {
    |text| > 0 && AllDigits(text)
  }

  /** A paste goes through unless it targets a number field and is not `/^\d+$/`. */
  predicate PasteAllowed(kind: Kind, text: string) {
    kind != NumberKind || DigitsOnly(text)
  }

  /** A paste the guard lets into a number field is stored unchanged by the sanitiser. */
  lemma PasteUnchanged(text: string)
    requires PasteAllowed(NumberKind, text)
    ensures Typed(NumberKind, text) == Text(text)
  {
    SanitizeDigits(text);
  }

  /** `Boolean(field.value)`: an unset value and the empty string are unchecked. */
  predicate Checked(v: FormValue): (b: bool)
    ensures v.Unset? ==> !b
    ensures v.Flag? ==> (b <==> v.b)
    ensures v.Text? ==> (b <==> v.s != "")
  {
    match v
    case Unset => false
    case Text(s) => s != ""
    case Flag(b) => b
  }

  /** The text input's placeholder: the given one, else `"Filter by " + label.toLowerCase()`. */
  function InputPlaceholder(f: FieldDef): (p: string)
    ensures f.placeholder.Some? ==> p == f.placeholder.value
    ensures f.placeholder.None? ==> p == "Filter by " + Lower(f.caption)
  {
    f.placeholder.GetOr("Filter by " + Lower(f.caption))
  }

  /** The checkbox's label: the given placeholder, else the caption (the `label`). */
  function CheckboxLabel(f: FieldDef): (p: string)
    ensures f.placeholder.Some? ==> p == f.placeholder.value
    ensures f.placeholder.None? ==> p == f.caption
  {
    f.placeholder.GetOr(f.caption)
  }
}
