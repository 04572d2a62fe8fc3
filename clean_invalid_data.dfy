/** `src/utils/cleanInvalidData.js`: the filter that drops malformed
    documents from a list before the pages show it, and the validation that a
    record carries a list of expected fields. The warnings both write to the
    logger are output only and are not modelled. */
module CleanInvalidData {
  import opened Text
  import opened JsValue
  import opened NumericId

  // ------------------------------------------------------------ cleanInvalidData

  /** The per-item test of the filter: a truthy object whose `id` is truthy
      and not the text `undefined` or `null`, and which has a truthy `name`,
      `sweetName`, `payer` or `receiver`. */
  predicate IsValidItem(item: Value) {
    var id := Get(item, "id");
    Truthy(item) && IsObjectType(item)
    && Truthy(id) && id != Str("undefined") && id != Str("null")
    && (Truthy(Get(item, "name")) || Truthy(Get(item, "sweetName"))
        || Truthy(Get(item, "payer")) || Truthy(Get(item, "receiver")))
  }

  /** `data.filter(...)` with the test above. */
  function Keep(items: seq<Value>): seq<Value> {
    if items == [] then []
    else (if IsValidItem(items[0]) then [items[0]] else []) + Keep(items[1..])
  }

  /** `cleanInvalidData(data)`: the valid items of an array, in order, and
      `[]` for anything that is not an array. */
  function CleanInvalid(data: Value): (r: seq<Value>)
    ensures !data.Arr? ==> r == []
  {
    if data.Arr? then Keep(data.elems) else []
  }

  /** `a` is `b` with some elements left out, the rest in their order. */
  predicate IsSubsequence(a: seq<Value>, b: seq<Value>)
    decreases |b|
  {
    if a == [] then true
    else if b == [] then false
    else (a[0] == b[0] && IsSubsequence(a[1..], b[1..])) || IsSubsequence(a, b[1..])
  }

  /** What the filter keeps: an order-preserving subsequence of the input,
      made of valid items only, holding every valid item of the input. */
  lemma {:induction false} KeepSpec(items: seq<Value>)
    ensures IsSubsequence(Keep(items), items)
    ensures forall x :: x in Keep(items) ==> IsValidItem(x)
    ensures forall x :: x in items && IsValidItem(x) ==> x in Keep(items)
  {
    if items != [] {
      KeepSpec(items[1..]);
      assert forall x :: x in items ==> x == items[0] || x in items[1..];
      var kept := Keep(items);
      if IsValidItem(items[0]) {
        assert kept[0] == items[0] && kept[1..] == Keep(items[1..]);
      } else {
        assert kept == Keep(items[1..]);
      }
    }
  }

  /** Cleaning a list that is already clean changes nothing, so cleaning
      twice is cleaning once. */
  lemma {:induction false} KeepIdempotent(items: seq<Value>)
    ensures (forall x :: x in items ==> IsValidItem(x)) ==> Keep(items) == items
    ensures Keep(Keep(items)) == Keep(items)
  {
    if items != [] {
      KeepIdempotent(items[1..]);
      KeepSpec(items);
      KeepAllValid(Keep(items));
    }
  }

  lemma {:induction false} KeepAllValid(items: seq<Value>)
    requires forall x :: x in items ==> IsValidItem(x)
    ensures Keep(items) == items
  {
    if items != [] {
      KeepAllValid(items[1..]);
    }
  }

  /** Cleaning a concatenation cleans each part. */
  lemma {:induction false} KeepAppend(a: seq<Value>, b: seq<Value>)
    ensures Keep(a + b) == Keep(a) + Keep(b)
  {
    if a != [] {
      assert (a + b)[1..] == a[1..] + b;
      KeepAppend(a[1..], b);
    } else {
      assert a + b == b;
    }
  }

  /** The text ids `undefined` and `null` (what a missing id becomes once
      printed into a template) and an item without any name field are
      dropped. */
  lemma DroppedItems(fields: map<string, Value>)
    ensures !IsValidItem(Obj(fields["id" := Str("undefined")]))
    ensures !IsValidItem(Obj(fields["id" := Str("null")]))
    ensures (forall k :: k in ["name", "sweetName", "payer", "receiver"] ==> k !in fields) ==> !IsValidItem(Obj(fields))
  {
  }

  // ------------------------------------------------------------ validateDataStructure

  datatype Validation = Validation(valid: bool, errors: seq<string>)

  const FIELDS_NOT_ARRAY := "expectedFields deve ser array"
  const DATA_NOT_OBJECT := "data deve ser um objeto"
  const MISSING_FIELD := "Campo obrigatorio ausente: "

  /** `key in data` for an object or an array: an own field, an array index
      or `length`, or a name `inherited` from the prototype chain (such as
      `toString`), which the caller supplies. */
  predicate HasProperty(data: Value, key: string, inherited: set<string>) {
    key in inherited
    || (data.Obj? && key in data.fields)
    || (data.Arr? && (key == "length" || exists i :: 0 <= i < |data.elems| && key == ToDecimal(i)))
  }

  /** The error messages, in field order, for the expected fields that
      `data` lacks; each field is turned into a property name and into text
      with `String(field)`. */
  function MissingErrors(fields: seq<Value>, data: Value, rt: Runtime, inherited: set<string>): seq<string> {
    if fields == [] then []
    else
      var last := fields[|fields| - 1];
      MissingErrors(fields[..|fields| - 1], data, rt, inherited)
      + (if HasProperty(data, ToStr(last, rt), inherited) then [] else [MISSING_FIELD + ToStr(last, rt)])
  }

  /** The result `validateDataStructure(data, expectedFields)` returns. */
  function ValidateDataStructureSpec(data: Value, expectedFields: Value, rt: Runtime, inherited: set<string>): Validation {
    if !expectedFields.Arr? then Validation(false, [FIELDS_NOT_ARRAY])
    else if !Truthy(data) || !IsObjectType(data) then Validation(false, [DATA_NOT_OBJECT])
    else
      var errors := MissingErrors(expectedFields.elems, data, rt, inherited);
      Validation(errors == [], errors)
  }

  /** `validateDataStructure(data, expectedFields)`: the loop over the
      expected fields that pushes one message per absent field. */
  method ValidateDataStructure(data: Value, expectedFields: Value, rt: Runtime, inherited: set<string>)
    returns (r: Validation)
    ensures r == ValidateDataStructureSpec(data, expectedFields, rt, inherited)
  {
    if !expectedFields.Arr? {
      return Validation(false, [FIELDS_NOT_ARRAY]);
    }
    var errors: seq<string> := [];
    if !Truthy(data) || !IsObjectType(data) {
      return Validation(false, [DATA_NOT_OBJECT]);
    }
    var fields := expectedFields.elems;
    var i := 0;
    while i < |fields|
      invariant 0 <= i <= |fields|
      invariant errors == MissingErrors(fields[..i], data, rt, inherited)
    {
      var field := fields[i];
      if !HasProperty(data, ToStr(field, rt), inherited) {
        errors := errors + [MISSING_FIELD + ToStr(field, rt)];
      }
      assert fields[..i + 1][..i] == fields[..i];
      i := i + 1;
    }
    assert fields[..i] == fields;
    return Validation(|errors| == 0, errors);
  }

  /** No errors exactly when every expected field is present. */
  lemma {:induction false} NoErrorsIffAllPresent(fields: seq<Value>, data: Value, rt: Runtime, inherited: set<string>)
    ensures MissingErrors(fields, data, rt, inherited) == [] <==>
            forall k :: 0 <= k < |fields| ==> HasProperty(data, ToStr(fields[k], rt), inherited)
  {
    if fields != [] {
      var init := fields[..|fields| - 1];
      NoErrorsIffAllPresent(init, data, rt, inherited);
      assert forall k :: 0 <= k < |init| ==> init[k] == fields[k];
    }
  }

  /** The messages of a concatenation are those of each part in turn: the
      errors follow the order of the fields. */
  lemma {:induction false} MissingErrorsAppend(a: seq<Value>, b: seq<Value>, data: Value, rt: Runtime, inherited: set<string>)
    ensures MissingErrors(a + b, data, rt, inherited) == MissingErrors(a, data, rt, inherited) + MissingErrors(b, data, rt, inherited)
  {
    if b == [] {
      assert a + b == a;
    } else {
      var init := b[..|b| - 1];
      assert (a + b)[..|a + b| - 1] == a + init;
      MissingErrorsAppend(a, init, data, rt, inherited);
    }
  }

  /** One message per absent field: a single field gives no message when
      present and exactly its own message when absent. */
  lemma OneField(field: Value, data: Value, rt: Runtime, inherited: set<string>)
    ensures HasProperty(data, ToStr(field, rt), inherited) ==> MissingErrors([field], data, rt, inherited) == []
    ensures !HasProperty(data, ToStr(field, rt), inherited) ==>
            MissingErrors([field], data, rt, inherited) == [MISSING_FIELD + ToStr(field, rt)]
  {
    assert [field][..0] == [];
  }

  /** The checks come in the source's order: a bad field list is reported
      whatever the data, and the data is checked only after that; a record
      that passes has no errors. */
  lemma ValidationOrder(data: Value, expectedFields: Value, rt: Runtime, inherited: set<string>)
    ensures !expectedFields.Arr? ==> ValidateDataStructureSpec(data, expectedFields, rt, inherited).errors == [FIELDS_NOT_ARRAY]
    ensures expectedFields.Arr? && (data.Null? || data.Str?) ==>
            ValidateDataStructureSpec(data, expectedFields, rt, inherited).errors == [DATA_NOT_OBJECT]
    ensures var v := ValidateDataStructureSpec(data, expectedFields, rt, inherited);
            v.valid <==> v.errors == []
  {
  }
}
