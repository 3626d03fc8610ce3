/** The Item `on_update` hook that copies changed Item fields to the Item's
    Website Item (`crud_events/item/update_website_item.py`). Which Item field
    feeds which Website Item field comes from the `fetch_from` declarations of
    Website Item's fields and of its fetch_from Property Setters; `disabled`
    always feeds `published`, inverted. Database reads are parameters and the
    save is the returned change set. */
module WebsiteItemUpdate {
  import opened Basics

  /** A field value of a document. */
  datatype Value = Null | Int(i: int) | Bool(b: bool) | Text(s: string)

  predicate Truthy(v: Value)
  {
    match v
    case Null => false
    case Int(i) => i != 0
    case Bool(b) => b
    case Text(s) => s != ""
  }

  // ------------------------------------------------------- fetch_from mappings

  /** A Website Item field (a meta field or a Property Setter) and its
      `fetch_from` declaration ("" when it has none). */
  datatype FetchSource = FetchSource(target: string, fetchFrom: string)

  /** The Item field a `fetch_from` declaration reads, when it has the form
      `item_code.<field>` with exactly two dot-separated parts. */
  function ParseFetchFrom(fetchFrom: string): Option<string>
  {
    if fetchFrom == "" then None
    else
      var parts := Split(fetchFrom, '.');
      if |parts| == 2 && parts[0] == "item_code" then Some(parts[1]) else None
  }

  lemma {:induction false} SplitWithoutSeparator(s: string, sep: char)
    requires sep !in s
    ensures Split(s, sep) == [s]
  {
    if s != [] {
      SplitWithoutSeparator(s[1..], sep);
      assert s == [s[0]] + s[1..];
    }
  }

  lemma {:induction false} SplitAfterPrefix(a: string, b: string, sep: char)
    requires sep !in a
    ensures Split(a + [sep] + b, sep) == [a] + Split(b, sep)
  {
    if a == [] {
      assert a + [sep] + b == [sep] + b;
      assert ([sep] + b)[1..] == b;
    } else {
      SplitAfterPrefix(a[1..], b, sep);
      assert (a + [sep] + b)[1..] == a[1..] + [sep] + b;
      assert a == [a[0]] + a[1..];
    }
  }

  /** A declaration is accepted exactly when it reads `item_code.<field>` for
      a field name without a dot, and then that field is its source. */
  lemma ParseFetchFromExactly(fetchFrom: string, field: string)
    ensures ParseFetchFrom(fetchFrom) == Some(field) <==> fetchFrom == "item_code." + field && '.' !in field
  {
    if ParseFetchFrom(fetchFrom) == Some(field) {
      var parts := Split(fetchFrom, '.');
      JoinSplit(fetchFrom, '.');
      assert parts == [parts[0]] + [parts[1]];
      assert parts[1..] == [parts[1]];
      assert fetchFrom == "item_code" + "." + field;
      assert '.' !in parts[1];
    }
    if fetchFrom == "item_code." + field && '.' !in field {
      assert fetchFrom == "item_code" + ['.'] + field;
      SplitAfterPrefix("item_code", field, '.');
      SplitWithoutSeparator(field, '.');
    }
  }

  /** The mapping after the given declarations are applied in order: each
      accepted one maps its source field to its target field. */
  function Applied(mappings: seq<(string, string)>, sources: seq<FetchSource>): seq<(string, string)>
  {
    if sources == [] then mappings
    else
      var prev := Applied(mappings, sources[..|sources| - 1]);
      var last := sources[|sources| - 1];
      var field := ParseFetchFrom(last.fetchFrom);
      if field.Some? then Put(prev, field.value, last.target) else prev
  }

  /** Meta fields first, Property Setters after them, `disabled` last. */
  function FetchMappings(metaFields: seq<FetchSource>, setters: seq<FetchSource>): seq<(string, string)>
  {
    Put(Applied(Applied([], metaFields), setters), "disabled", "published")
  }

  /** `get_fetch_from_mappings` */
  method GetFetchFromMappings(metaFields: seq<FetchSource>, setters: seq<FetchSource>)
    returns (mappings: seq<(string, string)>)
    ensures mappings == FetchMappings(metaFields, setters)
  {
    mappings := [];
    for i := 0 to |metaFields|
      invariant mappings == Applied([], metaFields[..i])
    {
      assert metaFields[..i + 1][..i] == metaFields[..i];
      var field := metaFields[i];
      if field.fetchFrom != "" {
        var fetchParts := Split(field.fetchFrom, '.');
        if |fetchParts| == 2 {
          var linkField, sourceField := fetchParts[0], fetchParts[1];
          if linkField == "item_code" {
            mappings := Put(mappings, sourceField, field.target);
          }
        }
      }
    }
    assert metaFields[..|metaFields|] == metaFields;
    for i := 0 to |setters|
      invariant mappings == Applied(Applied([], metaFields), setters[..i])
    {
      assert setters[..i + 1][..i] == setters[..i];
      var ps := setters[i];
      if ps.fetchFrom != "" {
        var fetchParts := Split(ps.fetchFrom, '.');
        if |fetchParts| == 2 {
          var linkField, sourceField := fetchParts[0], fetchParts[1];
          if linkField == "item_code" {
            mappings := Put(mappings, sourceField, ps.target);
          }
        }
      }
    }
    assert setters[..|setters|] == setters;
    mappings := Put(mappings, "disabled", "published");
  }

  predicate Declares(s: FetchSource, field: string)
  {
    ParseFetchFrom(s.fetchFrom) == Some(field)
  }

  /** A field that none of the declarations reads keeps what it had. */
  lemma {:induction false} AppliedUndeclared(mappings: seq<(string, string)>, sources: seq<FetchSource>, field: string)
    requires forall i :: 0 <= i < |sources| ==> !Declares(sources[i], field)
    ensures Lookup(Applied(mappings, sources), field) == Lookup(mappings, field)
  {
    if sources != [] {
      var n := |sources|;
      assert forall i :: 0 <= i < n - 1 ==> sources[..n - 1][i] == sources[i];
      AppliedUndeclared(mappings, sources[..n - 1], field);
    }
  }

  /** The last declaration accepted for a field decides its target. */
  lemma {:induction false} AppliedLastDeclared(mappings: seq<(string, string)>, sources: seq<FetchSource>,
                                               field: string, i: int)
    requires 0 <= i < |sources| && Declares(sources[i], field)
    requires forall j :: i < j < |sources| ==> !Declares(sources[j], field)
    ensures Lookup(Applied(mappings, sources), field) == Some(sources[i].target)
  {
    var n := |sources|;
    if i < n - 1 {
      assert forall j :: i < j < n - 1 ==> sources[..n - 1][j] == sources[j];
      AppliedLastDeclared(mappings, sources[..n - 1], field, i);
    }
  }

  lemma {:induction false} AppliedKeysDistinct(mappings: seq<(string, string)>, sources: seq<FetchSource>)
    requires KeysDistinct(mappings)
    ensures KeysDistinct(Applied(mappings, sources))
  {
    if sources != [] {
      AppliedKeysDistinct(mappings, sources[..|sources| - 1]);
    }
  }

  /** What the hook reads the mapping as: `disabled` always feeds
      `published`; otherwise a Property Setter's declaration wins over a meta
      field's, the later over the earlier; a field nothing declares is not
      mapped; and each source field is mapped once. */
  lemma FetchMappingsFacts(metaFields: seq<FetchSource>, setters: seq<FetchSource>, field: string)
    ensures Lookup(FetchMappings(metaFields, setters), "disabled") == Some("published")
    ensures KeysDistinct(FetchMappings(metaFields, setters))
    ensures field != "disabled" ==>
      forall i :: (0 <= i < |setters| && Declares(setters[i], field)
                   && forall j :: i < j < |setters| ==> !Declares(setters[j], field)) ==>
        Lookup(FetchMappings(metaFields, setters), field) == Some(setters[i].target)
    ensures (field != "disabled" && forall j :: 0 <= j < |setters| ==> !Declares(setters[j], field)) ==>
      forall i :: (0 <= i < |metaFields| && Declares(metaFields[i], field)
                   && forall j :: i < j < |metaFields| ==> !Declares(metaFields[j], field)) ==>
        Lookup(FetchMappings(metaFields, setters), field) == Some(metaFields[i].target)
    ensures (field != "disabled" && (forall j :: 0 <= j < |setters| ==> !Declares(setters[j], field))
             && forall j :: 0 <= j < |metaFields| ==> !Declares(metaFields[j], field)) ==>
      Lookup(FetchMappings(metaFields, setters), field).None?
  {
    var afterMeta := Applied([], metaFields);
    AppliedKeysDistinct([], metaFields);
    AppliedKeysDistinct(afterMeta, setters);
    if field != "disabled" {
      forall i | 0 <= i < |setters| && Declares(setters[i], field)
          && forall j :: i < j < |setters| ==> !Declares(setters[j], field)
        ensures Lookup(Applied(afterMeta, setters), field) == Some(setters[i].target)
      {
        AppliedLastDeclared(afterMeta, setters, field, i);
      }
      if forall j :: 0 <= j < |setters| ==> !Declares(setters[j], field) {
        AppliedUndeclared(afterMeta, setters, field);
        forall i | 0 <= i < |metaFields| && Declares(metaFields[i], field)
            && forall j :: i < j < |metaFields| ==> !Declares(metaFields[j], field)
          ensures Lookup(afterMeta, field) == Some(metaFields[i].target)
        {
          AppliedLastDeclared([], metaFields, field, i);
        }
        if forall j :: 0 <= j < |metaFields| ==> !Declares(metaFields[j], field) {
          AppliedUndeclared([], metaFields, field);
        }
      }
    }
  }

  // ------------------------------------------------------------ change set

  /** `doc_before_save.get(field)` */
  function BeforeValue(before: map<string, Value>, field: string): Value
  {
    if field in before then before[field] else Null
  }

  /** The Item has the field and its value differs from the saved one. */
  predicate Differs(doc: map<string, Value>, before: map<string, Value>, field: string)
  {
    field in doc && BeforeValue(before, field) != doc[field]
  }

  function TargetOf(mapping: (string, string)): string
  {
    if mapping.0 == "disabled" then "published" else mapping.1
  }

  function NewValue(doc: map<string, Value>, field: string): Value
    requires field in doc
  {
    if field == "disabled" then Bool(!Truthy(doc[field])) else doc[field]
  }

  /** The change set `changed`, built in mapping order. */
  function Changes(doc: map<string, Value>, before: map<string, Value>, mappings: seq<(string, string)>)
    : seq<(string, Value)>
  {
    if mappings == [] then []
    else
      var prev := Changes(doc, before, mappings[..|mappings| - 1]);
      var m := mappings[|mappings| - 1];
      if Differs(doc, before, m.0) then Put(prev, TargetOf(m), NewValue(doc, m.0)) else prev
  }

  predicate Writes(doc: map<string, Value>, before: map<string, Value>, m: (string, string), key: string)
  {
    Differs(doc, before, m.0) && TargetOf(m) == key
  }

  /** A Website Item field is in the change set exactly when some mapped Item
      field that changed feeds it. */
  lemma {:induction false} ChangesUnwritten(doc: map<string, Value>, before: map<string, Value>,
                                            mappings: seq<(string, string)>, key: string)
    ensures Lookup(Changes(doc, before, mappings), key).None? <==>
      forall i :: 0 <= i < |mappings| ==> !Writes(doc, before, mappings[i], key)
  {
    if mappings != [] {
      var n := |mappings|;
      assert forall i :: 0 <= i < n - 1 ==> mappings[..n - 1][i] == mappings[i];
      ChangesUnwritten(doc, before, mappings[..n - 1], key);
    }
  }

  /** A field in the change set holds the value of the last changed mapping
      that feeds it. */
  lemma {:induction false} ChangesLastWrite(doc: map<string, Value>, before: map<string, Value>,
                                            mappings: seq<(string, string)>, key: string, i: int)
    requires 0 <= i < |mappings| && Writes(doc, before, mappings[i], key)
    requires forall j :: i < j < |mappings| ==> !Writes(doc, before, mappings[j], key)
    ensures Lookup(Changes(doc, before, mappings), key) == Some(NewValue(doc, mappings[i].0))
  {
    var n := |mappings|;
    if i < n - 1 {
      assert forall j :: i < j < n - 1 ==> mappings[..n - 1][j] == mappings[j];
      ChangesLastWrite(doc, before, mappings[..n - 1], key, i);
    }
  }

  /** Nothing changed that the mapping covers exactly when the change set is
      empty. */
  lemma ChangesEmpty(doc: map<string, Value>, before: map<string, Value>, mappings: seq<(string, string)>)
    ensures Changes(doc, before, mappings) == [] <==>
      forall i :: 0 <= i < |mappings| ==> !Differs(doc, before, mappings[i].0)
  {
    var changes := Changes(doc, before, mappings);
    LookupEmpty(changes);
    forall key ensures Lookup(changes, key).None? <==>
        forall i :: 0 <= i < |mappings| ==> !Writes(doc, before, mappings[i], key) {
      ChangesUnwritten(doc, before, mappings, key);
    }
    if changes != [] {
      var key := changes[0].0;
      assert Lookup(changes, key).Some?;
    } else {
      forall i | 0 <= i < |mappings| ensures !Differs(doc, before, mappings[i].0) {
        assert !Writes(doc, before, mappings[i], TargetOf(mappings[i]));
      }
    }
  }

  /** A changed `disabled` publishes the Website Item exactly when the Item is
      no longer disabled, unless another mapped field also feeds
      `published`. */
  lemma DisabledPublishes(doc: map<string, Value>, before: map<string, Value>,
                          metaFields: seq<FetchSource>, setters: seq<FetchSource>)
    requires Differs(doc, before, "disabled")
    requires forall m :: m in FetchMappings(metaFields, setters) && m.0 != "disabled" ==> m.1 != "published"
    ensures Lookup(Changes(doc, before, FetchMappings(metaFields, setters)), "published")
      == Some(Bool(!Truthy(doc["disabled"])))
  {
    var mappings := FetchMappings(metaFields, setters);
    FetchMappingsFacts(metaFields, setters, "disabled");
    LookupAbsent(mappings, "disabled");
    var i :| 0 <= i < |mappings| && mappings[i].0 == "disabled";
    forall j | i < j < |mappings| ensures !Writes(doc, before, mappings[j], "published") {
      assert mappings[j] in mappings;
    }
    ChangesLastWrite(doc, before, mappings, "published", i);
  }

  /** `execute`: the Website Item to save and the fields to update on it, or
      `None` when nothing is saved. `webItem` is the Website Item of the
      Item's code, if any, and `before` the Item as it was before the save. */
  method Execute(webItem: Option<string>, doc: map<string, Value>, before: Option<map<string, Value>>,
                 metaFields: seq<FetchSource>, setters: seq<FetchSource>)
    returns (saved: Option<(string, seq<(string, Value)>)>)
    ensures webItem.None? || before.None? ==> saved.None?
    ensures webItem.Some? && before.Some? ==>
      var changes := Changes(doc, before.value, FetchMappings(metaFields, setters));
      saved == if changes == [] then None else Some((webItem.value, changes))
  {
    if webItem.None? {
      return None;
    }
    if before.None? {
      return None;
    }
    var docBeforeSave := before.value;
    var changed: seq<(string, Value)> := [];
    var fetchFromMap := GetFetchFromMappings(metaFields, setters);
    for i := 0 to |fetchFromMap|
      invariant changed == Changes(doc, docBeforeSave, fetchFromMap[..i])
    {
      assert fetchFromMap[..i + 1][..i] == fetchFromMap[..i];
      var (itemField, webItemField) := fetchFromMap[i];
      if itemField in doc {
        var oldValue := BeforeValue(docBeforeSave, itemField);
        var newValue := doc[itemField];
        if oldValue != newValue {
          if itemField == "disabled" {
            changed := Put(changed, "published", Bool(!Truthy(newValue)));
          } else {
            changed := Put(changed, webItemField, newValue);
          }
        }
      }
    }
    assert fetchFromMap[..|fetchFromMap|] == fetchFromMap;
    if changed != [] {
      return Some((webItem.value, changed));
    }
    return None;
  }
}
