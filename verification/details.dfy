/**
 * The custom fields in a story's details: every stored field is converted
 * according to its declared type ("number", "date", "json", anything else
 * kept as text) and collected into a dictionary by field name.
 *
 * Date and JSON parsing are library calls; they enter as parameters that
 * return `None` where the library raises.
 */
module StoryDetails {
  import opened Base
  import opened Text
  import opened PyNum

  /** A stored custom field; `text` is `None` for a NULL column. */
  datatype CustomField = CustomField(name: string, fieldType: string, text: Option<string>)

  /** A converted field value: a float, a parsed date, a parsed JSON document, or the stored text itself. */
  datatype FieldValue<D, J> = Number(n: real) | Date(d: D) | Json(j: J) | Raw(text: Option<string>)

  /**
   * The conversion of one field. A conversion that fails, including one of a
   * NULL text (Python's `TypeError`), falls back to the stored text.
   */
  function Convert<D, J>(f: CustomField, parseDate: string -> Option<D>, parseJson: string -> Option<J>)
    : (v: FieldValue<D, J>)
    ensures v.Number? <==> f.fieldType == "number" && f.text.Some? && ParseFloat(f.text.value).Some?
    ensures v.Number? ==> ParseFloat(f.text.value) == Some(v.n)
    ensures v.Date? <==> f.fieldType == "date" && f.text.Some? && parseDate(f.text.value).Some?
    ensures v.Date? ==> parseDate(f.text.value) == Some(v.d)
    ensures v.Json? <==> f.fieldType == "json" && f.text.Some? && parseJson(f.text.value).Some?
    ensures v.Json? ==> parseJson(f.text.value) == Some(v.j)
    ensures v.Raw? ==> v.text == f.text
  {
    match f.text
    case None => Raw(None)
    case Some(s) =>
      if f.fieldType == "number" then
        match ParseFloat(s)
        case Some(x) => Number(x)
        case None => Raw(f.text)
      else if f.fieldType == "date" then
        match parseDate(s)
        case Some(d) => Date(d)
        case None => Raw(f.text)
      else if f.fieldType == "json" then
        match parseJson(s)
        case Some(j) => Json(j)
        case None => Raw(f.text)
      else Raw(f.text)
  }

  /** The names of the fields. */
  function Names(fields: seq<CustomField>): (names: set<string>)
    ensures forall i | 0 <= i < |fields| :: fields[i].name in names
    ensures forall n | n in names :: exists i | 0 <= i < |fields| :: fields[i].name == n
  {
    set i | 0 <= i < |fields| :: fields[i].name
  }

  /** The dictionary of converted fields, filled in stored order, so a later field replaces an earlier one of the same name. */
  function CustomFields<D, J>(fields: seq<CustomField>, parseDate: string -> Option<D>, parseJson: string -> Option<J>)
    : (m: map<string, FieldValue<D, J>>)
    decreases |fields|
  {
    if |fields| == 0 then map[]
    else
      var last := fields[|fields| - 1];
      CustomFields(fields[..|fields| - 1], parseDate, parseJson)[last.name := Convert(last, parseDate, parseJson)]
  }

  /** Field `i` is the last one of its name. */
  predicate LastOfName(fields: seq<CustomField>, i: int)
    requires 0 <= i < |fields|
  {
    forall j | i < j < |fields| :: fields[j].name != fields[i].name
  }

  /** Every field name has an entry and nothing else does. */
  lemma {:induction false} CustomFieldsKeys<D, J>(fields: seq<CustomField>,
                                                  parseDate: string -> Option<D>, parseJson: string -> Option<J>)
    ensures CustomFields(fields, parseDate, parseJson).Keys == Names(fields)
  {
    if |fields| > 0 {
      var n := |fields| - 1;
      var init := fields[..n];
      CustomFieldsKeys(init, parseDate, parseJson);
      NamesSnoc(fields, n);
    }
  }

  lemma NamesSnoc(fields: seq<CustomField>, n: nat)
    requires n == |fields| - 1
    ensures Names(fields) == Names(fields[..n]) + {fields[n].name}
  {
    var init := fields[..n];
    forall x | x in Names(fields) ensures x in Names(init) + {fields[n].name} {
      var i :| 0 <= i < |fields| && fields[i].name == x;
      if i < n { assert init[i] == fields[i]; }
    }
    forall x | x in Names(init) ensures x in Names(fields) {
      var i :| 0 <= i < |init| && init[i].name == x;
      assert fields[i] == init[i];
    }
  }

  /** Each entry holds the conversion of the last field of that name. */
  lemma {:induction false} CustomFieldsLastWins<D, J>(fields: seq<CustomField>,
                                                     parseDate: string -> Option<D>, parseJson: string -> Option<J>)
    ensures forall i | 0 <= i < |fields| && LastOfName(fields, i) ::
              fields[i].name in CustomFields(fields, parseDate, parseJson) &&
              CustomFields(fields, parseDate, parseJson)[fields[i].name] == Convert(fields[i], parseDate, parseJson)
  {
    if |fields| > 0 {
      var n := |fields| - 1;
      var init := fields[..n];
      var m := CustomFields(fields, parseDate, parseJson);
      var mi := CustomFields(init, parseDate, parseJson);
      assert m == mi[fields[n].name := Convert(fields[n], parseDate, parseJson)];
      CustomFieldsLastWins(init, parseDate, parseJson);
      forall i | 0 <= i < |fields| && LastOfName(fields, i)
        ensures fields[i].name in m && m[fields[i].name] == Convert(fields[i], parseDate, parseJson)
      {
        if i < n {
          assert init[i] == fields[i];
          assert LastOfName(init, i);
          assert fields[n].name != fields[i].name;
        }
      }
    }
  }

  /** A field of an unknown type keeps its stored text whatever the parsers do. */
  lemma UnknownTypeIsText<D, J>(f: CustomField, parseDate: string -> Option<D>, parseJson: string -> Option<J>)
    requires f.fieldType != "number" && f.fieldType != "date" && f.fieldType != "json"
    ensures Convert(f, parseDate, parseJson) == Raw(f.text)
  {
  }

  /** A number field holding the decimal text of a count is stored as that count. */
  lemma NumberFieldOfCount<D, J>(name: string, n: nat, parseDate: string -> Option<D>, parseJson: string -> Option<J>)
    ensures Convert(CustomField(name, "number", Some(NatToString(n))), parseDate, parseJson) == Number(n as real)
  {
    ParseFloatOfNat(n);
  }
}
