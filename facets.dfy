/** The facet builder of the storefront (`ProductFiltersBuilder`): which field
    facets a listing offers and with which values, the attribute facets in their
    configured order, and the discount bands derived from the discount range of
    a result set. Database reads are replaced by a `Catalog` value holding the
    rows those reads would return. */
module Facets {
  import opened Basics

  // ---------------------------------------------------------------- data

  /** Field types as the builder tells them apart. Every type other than Link,
      Check and Select (in practice Table MultiSelect) takes the same branch. */
  datatype FieldType = Link | Check | Select | OtherType

  /** A field of the Website Item schema; `linkDoctype` is what
      `get_link_doctype()` yields, "" when the field links to nothing. */
  datatype FieldDef = FieldDef(fieldname: string, fieldtype: FieldType, linkDoctype: string)

  /** A record of a linked doctype (a Supplier, a Brand, ...) with the integer
      flags it stores, such as `enabled`, `disabled` or `show_in_website`. */
  datatype LinkedRecord = LinkedRecord(name: string, flags: map<string, int>)

  /** A Website Item as the facet queries see it. */
  datatype WebItem = WebItem(
    name: string,
    published: bool,
    itemGroup: string,
    websiteGroups: set<string>,   // groups of its "Website Item Group" rows
    variantOf: string,            // "" when the item is not a variant
    fields: map<string, string>,  // values of filterable fields; absent means NULL
    suppliers: seq<string>)       // suppliers of its "Website Item Supplier" rows

  /** A row of "Item Variant Attribute"; `value` is "" when it is not set. */
  datatype AttributeRow = AttributeRow(attribute: string, value: string)

  /** The rows the builder's database reads return. */
  datatype Catalog = Catalog(
    schemas: map<string, set<string>>,        // doctype -> its field names; absent: no meta
    records: map<string, seq<LinkedRecord>>,  // doctype -> its records
    items: seq<WebItem>,
    attributeRows: seq<AttributeRow>)

  /** The configuring document (Webshop Settings when `itemGroup` is "", the
      Item Group otherwise) together with the settings the builder looks up. */
  datatype BuilderContext = BuilderContext(
    itemGroup: string,
    enableFieldFilters: bool,
    filterFields: seq<string>,
    enableAttributeFilters: bool,
    filterAttributes: seq<string>,
    includeDescendants: bool,   // the Item Group's include_descendants
    groupSubtree: set<string>,  // the group and its website-visible descendants
    hideVariants: bool)         // Webshop Settings.hide_variants

  /** A field facet: the field and its selectable values. */
  datatype Facet = Facet(field: FieldDef, values: seq<string>)

  /** An attribute facet: the attribute and the values seen for it. */
  datatype AttributeFacet = AttributeFacet(name: string, values: seq<string>)

  /** A discount band: a threshold and its label. */
  datatype DiscountBand = DiscountBand(threshold: int, caption: string)

  /** The sentinels a text field uses to store a boolean. */
  const Yes: string := "Evet"
  const No: string := "Hayır"

  // ------------------------------------------------- linked-record validity

  /** The filter a linked doctype's records must pass, built from the fields
      its schema defines; `{}` when there is no schema. */
  method GetLinkDoctypeFilters(schema: Option<set<string>>) returns (filters: map<string, int>)
    ensures schema.None? ==> filters == map[]
    ensures schema.Some? ==> ("enabled" in filters <==> "enabled" in schema.value)
    ensures schema.Some? ==> ("disabled" in filters <==> "disabled" in schema.value)
    ensures schema.Some? ==> ("show_in_website" in filters <==> "show_in_website" in schema.value)
    ensures filters.Keys <= {"enabled", "disabled", "show_in_website"}
    ensures "enabled" in filters ==> filters["enabled"] == 1
    ensures "disabled" in filters ==> filters["disabled"] == 0
    ensures "show_in_website" in filters ==> filters["show_in_website"] == 1
  {
    if schema.None? {
      return map[];
    }
    filters := map[];
    if "enabled" in schema.value {
      filters := filters["enabled" := 1];
    }
    if "disabled" in schema.value {
      filters := filters["disabled" := 0];
    }
    if "show_in_website" in schema.value {
      filters := filters["show_in_website" := 1];
    }
  }

  /** A record satisfies an equality filter on every filtered flag. */
  predicate Matches(r: LinkedRecord, filters: map<string, int>)
  {
    forall k :: k in filters ==> k in r.flags && r.flags[k] == filters[k]
  }

  /** A record is live on the storefront: enabled, not disabled and shown on
      the website, for whichever of these flags its schema has. */
  predicate IsLive(r: LinkedRecord, schema: set<string>)
  {
    && ("enabled" in schema ==> "enabled" in r.flags && r.flags["enabled"] == 1)
    && ("disabled" in schema ==> "disabled" in r.flags && r.flags["disabled"] == 0)
    && ("show_in_website" in schema ==> "show_in_website" in r.flags && r.flags["show_in_website"] == 1)
  }

  function RecordsOf(catalog: Catalog, doctype: string): seq<LinkedRecord>
  {
    if doctype in catalog.records then catalog.records[doctype] else []
  }

  /** Names of the live records of a linked doctype; empty when the field links
      nowhere or the doctype has no schema (the check fails closed). */
  function ValidRecords(catalog: Catalog, doctype: string): set<string>
  {
    if doctype == "" || doctype !in catalog.schemas then {}
    else set r | r in RecordsOf(catalog, doctype) && IsLive(r, catalog.schemas[doctype]) :: r.name
  }

  /** `get_filtered_link_doctype_records`: the names of the records of the
      field's linked doctype that pass the filter built from its schema. */
  method GetFilteredLinkDoctypeRecords(catalog: Catalog, field: FieldDef) returns (valid: set<string>)
    ensures valid == ValidRecords(catalog, field.linkDoctype)
    ensures field.linkDoctype == "" || field.linkDoctype !in catalog.schemas ==> valid == {}
    ensures forall n :: n in valid <==>
      && field.linkDoctype != "" && field.linkDoctype in catalog.schemas
      && exists r :: r in RecordsOf(catalog, field.linkDoctype) && r.name == n
                     && IsLive(r, catalog.schemas[field.linkDoctype])
  {
    var doctype := field.linkDoctype;
    if doctype == "" || doctype !in catalog.schemas {
      return {};
    }
    var schema := catalog.schemas[doctype];
    var filters := GetLinkDoctypeFilters(Some(schema));
    assert forall r :: Matches(r, filters) <==> IsLive(r, schema);
    valid := set r | r in RecordsOf(catalog, doctype) && Matches(r, filters) :: r.name;
  }

  // ---------------------------------------------------------- field facets

  /** The item belongs to the builder's item group: to its subtree when the
      group includes descendants, to the group itself otherwise. */
  predicate InGroup(ctx: BuilderContext, group: string)
  {
    if ctx.includeDescendants then group in ctx.groupSubtree else group == ctx.itemGroup
  }

  predicate VariantShown(ctx: BuilderContext, it: WebItem)
  {
    !ctx.hideVariants || it.variantOf == ""
  }

  /** Items whose values a generic Link facet collects: published, not a hidden
      variant, and (with an item group) in the group by item group or by a
      Website Item Group row. */
  predicate InLinkScope(ctx: BuilderContext, it: WebItem)
  {
    && it.published
    && VariantShown(ctx, it)
    && (ctx.itemGroup == "" || InGroup(ctx, it.itemGroup) || ctx.itemGroup in it.websiteGroups)
  }

  /** Items whose supplier rows the `primary_supplier` facet collects: as for a
      Link facet, but Website Item Group rows do not count. */
  predicate InSupplierScope(ctx: BuilderContext, it: WebItem)
  {
    && it.published
    && VariantShown(ctx, it)
    && (ctx.itemGroup == "" || InGroup(ctx, it.itemGroup))
  }

  /** Distinct values of a Link field over the items in scope. */
  function LinkValues(ctx: BuilderContext, items: seq<WebItem>, fieldname: string): set<string>
  {
    set it | it in items && InLinkScope(ctx, it) && fieldname in it.fields :: it.fields[fieldname]
  }

  /** All suppliers on the supplier rows of the items in scope. */
  function SupplierValues(ctx: BuilderContext, items: seq<WebItem>): set<string>
  {
    set it, s | it in items && InSupplierScope(ctx, it) && s in it.suppliers :: s
  }

  /** Some published item stores the "yes" sentinel in the field (the group
      plays no part in this count). */
  predicate HasYes(items: seq<WebItem>, fieldname: string)
  {
    exists it :: it in items && it.published && fieldname in it.fields && it.fields[fieldname] == Yes
  }

  /** The field's non-NULL value on each published item, in item order. */
  function PublishedValues(items: seq<WebItem>, fieldname: string): seq<string>
  {
    if items == [] then []
    else
      var it := items[|items| - 1];
      PublishedValues(items[..|items| - 1], fieldname)
        + (if it.published && fieldname in it.fields then [it.fields[fieldname]] else [])
  }

  /** Keeps the values that are non-empty and not the "no" sentinel. */
  function PositiveOnly(vs: seq<string>): seq<string>
  {
    if vs == [] then []
    else PositiveOnly(vs[..|vs| - 1]) + (if vs[|vs| - 1] != "" && vs[|vs| - 1] != No then [vs[|vs| - 1]] else [])
  }

  /** A Select facet's values: the distinct values over published items,
      without empty values and without the "no" sentinel. */
  function SelectValues(items: seq<WebItem>, fieldname: string): seq<string>
  {
    PositiveOnly(Distinct(PublishedValues(items, fieldname)))
  }

  /** What the builder emits for one field. */
  datatype Emission = Dropped | AnyOrder(names: set<string>) | Exactly(values: seq<string>)

  /** The per-field-type policy. */
  function FieldEmission(ctx: BuilderContext, catalog: Catalog, df: FieldDef): Emission
  {
    var valid := ValidRecords(catalog, df.linkDoctype);
    match df.fieldtype
    case Link =>
      var vs := if df.fieldname == "primary_supplier" then SupplierValues(ctx, catalog.items) * valid
                else LinkValues(ctx, catalog.items, df.fieldname) * valid;
      if vs == {} then Dropped else AnyOrder(vs)
    case Check =>
      if HasYes(catalog.items, df.fieldname) then Exactly([]) else Dropped
    case Select =>
      var vs := SelectValues(catalog.items, df.fieldname);
      if vs == [] then Dropped else Exactly(vs)
    case OtherType =>
      if valid == {} then Dropped else AnyOrder(valid)
  }

  ghost predicate Realizes(values: seq<string>, e: Emission)
  {
    match e
    case Dropped => false
    case AnyOrder(names) => NoDuplicates(values) && (forall v :: v in values <==> v in names)
    case Exactly(vs) => values == vs
  }

  /** `out` is what the builder emits for the fields `dfs`, in their order. */
  ghost predicate Emits(out: seq<Facet>, dfs: seq<FieldDef>, ctx: BuilderContext, catalog: Catalog)
    decreases |dfs|
  {
    if dfs == [] then out == []
    else
      var df := dfs[|dfs| - 1];
      var e := FieldEmission(ctx, catalog, df);
      if e.Dropped? then Emits(out, dfs[..|dfs| - 1], ctx, catalog)
      else
        && |out| > 0
        && out[|out| - 1].field == df
        && Realizes(out[|out| - 1].values, e)
        && Emits(out[..|out| - 1], dfs[..|dfs| - 1], ctx, catalog)
  }

  /** The configured field names that the Website Item schema has, as schema
      fields, in configured order. */
  function ConfiguredFields(filterFields: seq<string>, webItemMeta: map<string, FieldDef>): (dfs: seq<FieldDef>)
    ensures |dfs| <= |filterFields|
  {
    if filterFields == [] then []
    else
      var f := filterFields[|filterFields| - 1];
      ConfiguredFields(filterFields[..|filterFields| - 1], webItemMeta)
        + (if f in webItemMeta then [webItemMeta[f]] else [])
  }

  /** Exactly the configured names the schema has contribute a field: each
      field comes from such a name, and each such name yields its field. */
  lemma {:induction false} ConfiguredFieldsMembers(filterFields: seq<string>, webItemMeta: map<string, FieldDef>)
    ensures forall d :: d in ConfiguredFields(filterFields, webItemMeta) ==>
      exists j :: 0 <= j < |filterFields| && filterFields[j] in webItemMeta && d == webItemMeta[filterFields[j]]
    ensures forall j :: 0 <= j < |filterFields| && filterFields[j] in webItemMeta ==>
      webItemMeta[filterFields[j]] in ConfiguredFields(filterFields, webItemMeta)
  {
    if filterFields != [] {
      var n := |filterFields|;
      var prefix := filterFields[..n - 1];
      ConfiguredFieldsMembers(prefix, webItemMeta);
      var dfs := ConfiguredFields(filterFields, webItemMeta);
      var pre := ConfiguredFields(prefix, webItemMeta);
      forall d | d in dfs
        ensures exists j :: 0 <= j < n && filterFields[j] in webItemMeta && d == webItemMeta[filterFields[j]]
      {
        if d in pre {
          var j :| 0 <= j < |prefix| && prefix[j] in webItemMeta && d == webItemMeta[prefix[j]];
          assert filterFields[j] == prefix[j];
        } else {
          assert filterFields[n - 1] in webItemMeta && d == webItemMeta[filterFields[n - 1]];
        }
      }
      forall j | 0 <= j < n && filterFields[j] in webItemMeta
        ensures webItemMeta[filterFields[j]] in dfs
      {
        if j < n - 1 { assert prefix[j] == filterFields[j]; }
      }
    }
  }

  /** Filtering the configured names commutes with concatenation, so the
      schema fields come out in configured order. */
  lemma {:induction false} ConfiguredFieldsAppend(a: seq<string>, b: seq<string>, webItemMeta: map<string, FieldDef>)
    ensures ConfiguredFields(a + b, webItemMeta) == ConfiguredFields(a, webItemMeta) + ConfiguredFields(b, webItemMeta)
    decreases |b|
  {
    if b == [] {
      assert a + b == a;
    } else {
      var n := |b|;
      assert (a + b)[..|a + b| - 1] == a + b[..n - 1];
      ConfiguredFieldsAppend(a, b[..n - 1], webItemMeta);
    }
  }

  /** The elements of a set, each once, in some order (`list(s)`). */
  method ListOf(s: set<string>) returns (r: seq<string>)
    ensures NoDuplicates(r)
    ensures forall v :: v in r <==> v in s
  {
    r := [];
    var rest := s;
    while rest != {}
      invariant forall v :: v in r <==> v in s && v !in rest
      invariant rest <= s
      invariant NoDuplicates(r)
      decreases rest
    {
      var v :| v in rest;
      r := r + [v];
      rest := rest - {v};
    }
  }

  /** `get_supplier_filter_values`: the suppliers of all supplier rows of the
      items in scope, not only their primary supplier, that are also valid. */
  method GetSupplierFilterValues(ctx: BuilderContext, catalog: Catalog, valid: set<string>)
    returns (values: seq<string>)
    ensures NoDuplicates(values)
    ensures forall v :: v in values <==> v in SupplierValues(ctx, catalog.items) && v in valid
    ensures (forall it :: it in catalog.items ==> !InSupplierScope(ctx, it)) ==> values == []
  {
    var inScope := exists it :: it in catalog.items && InSupplierScope(ctx, it);
    if !inScope {
      return [];
    }
    values := ListOf(SupplierValues(ctx, catalog.items) * valid);
  }

  /** One pass of the loop of `get_field_filters`: the facet the per-type
      policy emits for the field, if any. A Check facet is kept with an empty
      value list; any other facet only with at least one value. */
  method FieldFacet(ctx: BuilderContext, catalog: Catalog, df: FieldDef) returns (facet: Option<Facet>)
    ensures facet.None? <==> FieldEmission(ctx, catalog, df).Dropped?
    ensures facet.Some? ==> facet.value.field == df && Realizes(facet.value.values, FieldEmission(ctx, catalog, df))
  {
    var valid := GetFilteredLinkDoctypeRecords(catalog, df);
    var values: Option<seq<string>>;
    if df.fieldtype == Link {
      var expected := if df.fieldname == "primary_supplier" then SupplierValues(ctx, catalog.items) * valid
                      else LinkValues(ctx, catalog.items, df.fieldname) * valid;
      var vs;
      if df.fieldname == "primary_supplier" {
        vs := GetSupplierFilterValues(ctx, catalog, valid);
      } else {
        vs := ListOf(LinkValues(ctx, catalog.items, df.fieldname) * valid);
      }
      assert vs != [] ==> vs[0] in expected;
      assert expected != {} ==> vs != [] by {
        if expected != {} { var v :| v in expected; assert v in vs; }
      }
      values := Some(vs);
    } else if df.fieldtype == Check {
      values := if HasYes(catalog.items, df.fieldname) then Some([]) else None;
    } else if df.fieldtype == Select {
      values := Some(SelectValues(catalog.items, df.fieldname));
    } else {
      var vs := ListOf(valid);
      assert vs != [] ==> vs[0] in valid;
      assert valid != {} ==> vs != [] by {
        if valid != {} { var v :| v in valid; assert v in vs; }
      }
      values := Some(vs);
    }
    if df.fieldtype == Check {
      facet := if values.Some? then Some(Facet(df, values.value)) else None;
    } else if values.Some? && values.value != [] {
      facet := Some(Facet(df, values.value));
    } else {
      facet := None;
    }
  }

  /** `get_field_filters`: nothing when the shop-wide builder has field filters
      switched off; otherwise one facet per configured schema field that the
      per-type policy keeps, in configured order. */
  method GetFieldFilters(ctx: BuilderContext, catalog: Catalog, webItemMeta: map<string, FieldDef>)
    returns (r: Option<seq<Facet>>)
    ensures r.None? <==> ctx.itemGroup == "" && !ctx.enableFieldFilters
    ensures r.Some? ==> Emits(r.value, ConfiguredFields(ctx.filterFields, webItemMeta), ctx, catalog)
  {
    if ctx.itemGroup == "" && !ctx.enableFieldFilters {
      return None;
    }
    var fields := ConfiguredFields(ctx.filterFields, webItemMeta);
    var filterData: seq<Facet> := [];
    for i := 0 to |fields|
      invariant Emits(filterData, fields[..i], ctx, catalog)
    {
      var facet := FieldFacet(ctx, catalog, fields[i]);
      assert fields[..i + 1][..i] == fields[..i];
      if facet.Some? {
        filterData := filterData + [facet.value];
      }
    }
    assert fields[..|fields|] == fields;
    return Some(filterData);
  }

  /** What `get_field_filters` emits is drawn from the configured fields, and
      only a Check facet can carry an empty value list. */
  lemma EmittedFacets(out: seq<Facet>, dfs: seq<FieldDef>, ctx: BuilderContext, catalog: Catalog)
    requires Emits(out, dfs, ctx, catalog)
    ensures |out| <= |dfs|
    ensures forall k :: 0 <= k < |out| ==> out[k].field in dfs
    ensures forall k :: 0 <= k < |out| ==> (out[k].values == [] <==> out[k].field.fieldtype == Check)
  {
    EmittedLength(out, dfs, ctx, catalog);
    forall k | 0 <= k < |out|
      ensures out[k].field in dfs
      ensures out[k].values == [] <==> out[k].field.fieldtype == Check
    {
      EmittedField(out, dfs, ctx, catalog, k);
      EmittedValues(out, dfs, ctx, catalog, k);
    }
  }

  lemma {:induction false} EmittedLength(out: seq<Facet>, dfs: seq<FieldDef>, ctx: BuilderContext, catalog: Catalog)
    requires Emits(out, dfs, ctx, catalog)
    ensures |out| <= |dfs|
    decreases |dfs|
  {
    if dfs != [] {
      var n := |dfs|;
      if FieldEmission(ctx, catalog, dfs[n - 1]).Dropped? {
        EmittedLength(out, dfs[..n - 1], ctx, catalog);
      } else {
        EmittedLength(out[..|out| - 1], dfs[..n - 1], ctx, catalog);
      }
    }
  }

  /** The `k`-th emitted facet comes from a configured field. */
  lemma {:induction false} EmittedField(out: seq<Facet>, dfs: seq<FieldDef>, ctx: BuilderContext, catalog: Catalog, k: int)
    requires Emits(out, dfs, ctx, catalog)
    requires 0 <= k < |out|
    ensures out[k].field in dfs
    decreases |dfs|
  {
    var n := |dfs|;
    var front := dfs[..n - 1];
    if FieldEmission(ctx, catalog, dfs[n - 1]).Dropped? {
      EmittedField(out, front, ctx, catalog, k);
    } else if k < |out| - 1 {
      EmittedField(out[..|out| - 1], front, ctx, catalog, k);
      assert out[..|out| - 1][k] == out[k];
    }
    assert out[k].field in front || out[k].field == dfs[n - 1];
    assert dfs == front + [dfs[n - 1]];
  }

  /** The `k`-th emitted facet's value list is empty exactly when it is a
      Check facet. */
  lemma {:induction false} EmittedValues(out: seq<Facet>, dfs: seq<FieldDef>, ctx: BuilderContext, catalog: Catalog, k: int)
    requires Emits(out, dfs, ctx, catalog)
    requires 0 <= k < |out|
    ensures out[k].values == [] <==> out[k].field.fieldtype == Check
    decreases |dfs|
  {
    var n := |dfs|;
    var df := dfs[n - 1];
    if FieldEmission(ctx, catalog, df).Dropped? {
      EmittedValues(out, dfs[..n - 1], ctx, catalog, k);
    } else if k < |out| - 1 {
      EmittedValues(out[..|out| - 1], dfs[..n - 1], ctx, catalog, k);
      assert out[..|out| - 1][k] == out[k];
    } else {
      RealizedValues(ctx, catalog, df, out[k].values);
    }
  }

  /** A facet the policy keeps has an empty value list exactly when it is a
      Check facet. */
  lemma RealizedValues(ctx: BuilderContext, catalog: Catalog, df: FieldDef, values: seq<string>)
    requires !FieldEmission(ctx, catalog, df).Dropped?
    requires Realizes(values, FieldEmission(ctx, catalog, df))
    ensures values == [] <==> df.fieldtype == Check
  {
    if values != [] {
      assert values[0] in values;
    }
  }

  /** A Check facet is emitted, with an empty value list, exactly when some
      published item stores the "yes" sentinel; otherwise it is omitted. The
      item group and the variant setting play no part. */
  lemma CheckFacetPolicy(ctx: BuilderContext, ctx': BuilderContext, catalog: Catalog, df: FieldDef)
    requires df.fieldtype == Check
    ensures FieldEmission(ctx, catalog, df) == (if HasYes(catalog.items, df.fieldname) then Exactly([]) else Dropped)
    ensures FieldEmission(ctx, catalog, df) == FieldEmission(ctx', catalog, df)
  {
  }

  lemma {:induction false} PublishedValuesMembers(items: seq<WebItem>, fieldname: string)
    ensures forall v :: v in PublishedValues(items, fieldname) <==>
      exists it :: it in items && it.published && fieldname in it.fields && it.fields[fieldname] == v
  {
    if items != [] {
      var n := |items|;
      PublishedValuesMembers(items[..n - 1], fieldname);
      assert forall it :: it in items <==> it in items[..n - 1] || it == items[n - 1];
    }
  }

  lemma {:induction false} PositiveOnlyMembers(vs: seq<string>)
    ensures forall v :: v in PositiveOnly(vs) <==> v in vs && v != "" && v != No
    ensures NoDuplicates(vs) ==> NoDuplicates(PositiveOnly(vs))
  {
    if vs != [] {
      var n := |vs|;
      PositiveOnlyMembers(vs[..n - 1]);
      assert forall v :: v in vs <==> v in vs[..n - 1] || v == vs[n - 1];
      if NoDuplicates(vs) {
        assert NoDuplicates(vs[..n - 1]);
        assert vs[n - 1] !in vs[..n - 1];
      }
    }
  }

  /** A Select facet lists each value stored on some published item once,
      except empty values and the "no" sentinel. */
  lemma SelectFacetValues(items: seq<WebItem>, fieldname: string)
    ensures NoDuplicates(SelectValues(items, fieldname))
    ensures forall v :: v in SelectValues(items, fieldname) <==>
      && v != "" && v != No
      && exists it :: it in items && it.published && fieldname in it.fields && it.fields[fieldname] == v
  {
    var pv := PublishedValues(items, fieldname);
    PublishedValuesMembers(items, fieldname);
    PositiveOnlyMembers(Distinct(pv));
    forall v ensures v in Distinct(pv) <==> v in pv {
      if v in pv { var i :| 0 <= i < |pv| && pv[i] == v; }
      if v in Distinct(pv) { var i :| 0 <= i < |Distinct(pv)| && Distinct(pv)[i] == v; }
    }
  }

  /** The `primary_supplier` facet offers every valid supplier on any supplier
      row of an item in scope, not only the items' primary suppliers. */
  lemma SupplierFacetCoversAllRows(ctx: BuilderContext, catalog: Catalog, df: FieldDef, it: WebItem, s: string)
    requires df.fieldtype == Link && df.fieldname == "primary_supplier"
    requires it in catalog.items && InSupplierScope(ctx, it) && s in it.suppliers
    requires s in ValidRecords(catalog, df.linkDoctype)
    ensures FieldEmission(ctx, catalog, df).AnyOrder?
    ensures s in FieldEmission(ctx, catalog, df).names
  {
    assert s in SupplierValues(ctx, catalog.items);
  }

  /** A Link or Table MultiSelect facet whose linked doctype is missing or has
      no schema is never emitted: the validity check fails closed. */
  lemma LinkFacetFailsClosed(ctx: BuilderContext, catalog: Catalog, df: FieldDef)
    requires df.fieldtype == Link || df.fieldtype == OtherType
    requires df.linkDoctype == "" || df.linkDoctype !in catalog.schemas
    ensures FieldEmission(ctx, catalog, df).Dropped?
  {
    assert ValidRecords(catalog, df.linkDoctype) == {};
  }

  // ------------------------------------------------------ attribute facets

  /** Rows of a configured attribute whose value is set, in table order. */
  function SetRowsOf(rows: seq<AttributeRow>, attributes: seq<string>): seq<AttributeRow>
  {
    if rows == [] then []
    else
      var d := rows[|rows| - 1];
      SetRowsOf(rows[..|rows| - 1], attributes) + (if d.attribute in attributes && d.value != "" then [d] else [])
  }

  /** The distinct (attribute, value) rows the attribute query returns. */
  function AttributeQuery(rows: seq<AttributeRow>, attributes: seq<string>): seq<AttributeRow>
  {
    Distinct(SetRowsOf(rows, attributes))
  }

  /** The values of attribute `a` in the query result, in result order. */
  function ValuesOf(result: seq<AttributeRow>, a: string): seq<string>
  {
    if result == [] then []
    else
      var d := result[|result| - 1];
      ValuesOf(result[..|result| - 1], a) + (if d.attribute == a then [d.value] else [])
  }

  /** One facet per configured attribute with at least one value, in
      configured order. */
  function AttributeFacetsFor(attributes: seq<string>, result: seq<AttributeRow>): seq<AttributeFacet>
  {
    if attributes == [] then []
    else
      var a := attributes[|attributes| - 1];
      AttributeFacetsFor(attributes[..|attributes| - 1], result)
        + (if ValuesOf(result, a) != [] then [AttributeFacet(a, ValuesOf(result, a))] else [])
  }

  /** `get_attribute_filters`: nothing when the shop-wide builder has attribute
      filters switched off, `[]` without configured attributes, otherwise the
      configured attributes that have values, each with its values in result
      order. */
  method GetAttributeFilters(ctx: BuilderContext, catalog: Catalog) returns (r: Option<seq<AttributeFacet>>)
    ensures r.None? <==> ctx.itemGroup == "" && !ctx.enableAttributeFilters
    ensures r.Some? && ctx.filterAttributes == [] ==> r.value == []
    ensures r.Some? ==> r.value == AttributeFacetsFor(ctx.filterAttributes,
                                     AttributeQuery(catalog.attributeRows, ctx.filterAttributes))
  {
    if ctx.itemGroup == "" && !ctx.enableAttributeFilters {
      return None;
    }
    var attributes := ctx.filterAttributes;
    if attributes == [] {
      return Some([]);
    }
    var result := AttributeQuery(catalog.attributeRows, attributes);
    var valueMap := GroupByAttribute(result);

    var out: seq<AttributeFacet> := [];
    for j := 0 to |attributes|
      invariant out == AttributeFacetsFor(attributes[..j], result)
    {
      var attribute := attributes[j];
      assert attributes[..j + 1][..j] == attributes[..j];
      if attribute in valueMap {
        out := out + [AttributeFacet(attribute, valueMap[attribute])];
      }
    }
    assert attributes[..|attributes|] == attributes;
    return Some(out);
  }

  /** The `setdefault(...).append(...)` loop: each attribute of the result
      maps to its values in result order. */
  method GroupByAttribute(result: seq<AttributeRow>) returns (valueMap: map<string, seq<string>>)
    ensures forall a :: a in valueMap <==> ValuesOf(result, a) != []
    ensures forall a :: a in valueMap ==> valueMap[a] == ValuesOf(result, a)
  {
    valueMap := map[];
    for i := 0 to |result|
      invariant forall a :: a in valueMap <==> ValuesOf(result[..i], a) != []
      invariant forall a :: a in valueMap ==> valueMap[a] == ValuesOf(result[..i], a)
    {
      var d := result[i];
      ValuesOfStep(result, i);
      if d.attribute in valueMap {
        valueMap := valueMap[d.attribute := valueMap[d.attribute] + [d.value]];
      } else {
        valueMap := valueMap[d.attribute := [d.value]];
      }
    }
    assert result[..|result|] == result;
  }

  /** One more result row extends only its own attribute's values. */
  lemma ValuesOfStep(result: seq<AttributeRow>, i: int)
    requires 0 <= i < |result|
    ensures forall a ::
      ValuesOf(result[..i + 1], a) == ValuesOf(result[..i], a) + (if result[i].attribute == a then [result[i].value] else [])
  {
    assert result[..i + 1][..i] == result[..i];
  }

  lemma {:induction false} ValuesOfMembers(result: seq<AttributeRow>, a: string)
    ensures forall v :: v in ValuesOf(result, a) <==> AttributeRow(a, v) in result
  {
    if result != [] {
      var n := |result|;
      ValuesOfMembers(result[..n - 1], a);
      assert forall d :: d in result <==> d in result[..n - 1] || d == result[n - 1];
    }
  }

  /** The attribute facets follow the configured order, skip attributes
      without values, and carry exactly the values the query found for them. */
  lemma {:induction false} AttributeFacetsFacts(attributes: seq<string>, result: seq<AttributeRow>)
    ensures forall k :: 0 <= k < |AttributeFacetsFor(attributes, result)| ==>
      var f := AttributeFacetsFor(attributes, result)[k];
      && f.name in attributes
      && f.values != []
      && (forall v :: v in f.values <==> AttributeRow(f.name, v) in result)
    ensures forall a :: a in attributes && (exists v :: AttributeRow(a, v) in result) ==>
      exists k :: 0 <= k < |AttributeFacetsFor(attributes, result)| && AttributeFacetsFor(attributes, result)[k].name == a
  {
    var out := AttributeFacetsFor(attributes, result);
    forall k | 0 <= k < |out|
      ensures out[k].name in attributes && out[k].values != []
      ensures forall v :: v in out[k].values <==> AttributeRow(out[k].name, v) in result
    {
      AttributeFacetSound(attributes, result, k);
      ValuesOfMembers(result, out[k].name);
    }
    forall b | b in attributes && (exists v :: AttributeRow(b, v) in result)
      ensures exists k :: 0 <= k < |out| && out[k].name == b
    {
      var v :| AttributeRow(b, v) in result;
      ValuesOfMembers(result, b);
      assert v in ValuesOf(result, b);
      var k := AttributeFacetComplete(attributes, result, b);
    }
  }

  /** Each attribute facet is a configured attribute with all its values. */
  lemma {:induction false} AttributeFacetSound(attributes: seq<string>, result: seq<AttributeRow>, k: int)
    requires 0 <= k < |AttributeFacetsFor(attributes, result)|
    ensures var f := AttributeFacetsFor(attributes, result)[k];
      f.name in attributes && f.values != [] && f.values == ValuesOf(result, f.name)
  {
    var n := |attributes|;
    var prefix := attributes[..n - 1];
    var pre := AttributeFacetsFor(prefix, result);
    if k < |pre| {
      AttributeFacetSound(prefix, result, k);
      assert AttributeFacetsFor(attributes, result)[k] == pre[k];
      assert pre[k].name in prefix;
    }
  }

  /** A configured attribute with a value gets a facet, at index `k`. */
  lemma {:induction false} AttributeFacetComplete(attributes: seq<string>, result: seq<AttributeRow>, b: string)
    returns (k: int)
    requires b in attributes && ValuesOf(result, b) != []
    ensures 0 <= k < |AttributeFacetsFor(attributes, result)| && AttributeFacetsFor(attributes, result)[k].name == b
  {
    var n := |attributes|;
    var prefix := attributes[..n - 1];
    var last := attributes[n - 1];
    var pre := AttributeFacetsFor(prefix, result);
    var step := if ValuesOf(result, last) != [] then [AttributeFacet(last, ValuesOf(result, last))] else [];
    assert AttributeFacetsFor(attributes, result) == pre + step;
    if b == last {
      k := |pre|;
    } else {
      var j :| 0 <= j < n && attributes[j] == b;
      assert prefix[j] == b;
      k := AttributeFacetComplete(prefix, result, b);
    }
  }

  /** Splitting the configured attributes splits the output the same way. */
  lemma {:induction false} AttributeFacetsAppend(a: seq<string>, b: seq<string>, result: seq<AttributeRow>)
    ensures AttributeFacetsFor(a + b, result) == AttributeFacetsFor(a, result) + AttributeFacetsFor(b, result)
    decreases |b|
  {
    if b == [] {
      assert a + b == a;
    } else {
      var n := |b|;
      assert (a + b)[..|a + b| - 1] == a + b[..n - 1];
      AttributeFacetsAppend(a, b[..n - 1], result);
    }
  }

  // -------------------------------------------------------- discount bands

  /** Python's `int(x)` on a float: truncation toward zero. */
  function Trunc(x: real): int
  {
    if x >= 0.0 then x.Floor else -((-x).Floor)
  }

  /** Where the bands start (for the minimum) or end (for the maximum):
      `int(d - floor(d) % 10)`, plus 10 unless that equals `floor(d)`. */
  function BandBound(d: real): int
  {
    var absolute := d.Floor;
    var range := Trunc(d - (absolute % 10) as real);
    if range != absolute then range + 10 else range
  }

  function BandCaption(threshold: int): string
  {
    IntToString(threshold) + "% and below"
  }

  /** The bands are `lo, lo + 10, ...` up to and including `hi`, each with its
      caption. */
  ghost predicate BandsBetween(bands: seq<DiscountBand>, lo: int, hi: int)
  {
    && (forall i :: 0 <= i < |bands| ==> bands[i].threshold == lo + 10 * i)
    && (forall i :: 0 <= i < |bands| ==> bands[i].caption == BandCaption(bands[i].threshold))
    && (forall i :: 0 <= i < |bands| ==> bands[i].threshold <= hi)
    && lo + 10 * |bands| > hi
  }

  /** The bands for the discount range [minDiscount, maxDiscount]: from the
      minimum's bound to the maximum's bound. */
  ghost predicate Banding(bands: seq<DiscountBand>, minDiscount: real, maxDiscount: real)
  {
    BandsBetween(bands, BandBound(minDiscount), BandBound(maxDiscount))
  }

  /** `get_discount_filters` for the discount range [minDiscount, maxDiscount]. */
  method GetDiscountFilters(minDiscount: real, maxDiscount: real) returns (bands: seq<DiscountBand>)
    ensures Banding(bands, minDiscount, maxDiscount)
  {
    var minRange, maxRange := BandBound(minDiscount), BandBound(maxDiscount);
    bands := BandRange(minRange, maxRange);
  }

  /** The `for discount in range(minRange, maxRange + 1, 10)` loop. */
  method BandRange(minRange: int, maxRange: int) returns (bands: seq<DiscountBand>)
    ensures BandsBetween(bands, minRange, maxRange)
  {
    bands := [];
    var discount := minRange;
    while discount < maxRange + 1
      invariant discount == minRange + 10 * |bands|
      invariant forall i :: 0 <= i < |bands| ==> bands[i].threshold == minRange + 10 * i
      invariant forall i :: 0 <= i < |bands| ==> bands[i].caption == BandCaption(bands[i].threshold)
      invariant forall i :: 0 <= i < |bands| ==> bands[i].threshold <= maxRange
      decreases maxRange + 1 - discount
    {
      bands := bands + [DiscountBand(discount, BandCaption(discount))];
      discount := discount + 10;
    }
  }

  /** For a non-negative discount the bound is its floor rounded up to a
      multiple of 10. */
  lemma BandBoundNonNegative(d: real)
    requires d >= 0.0
    ensures BandBound(d) % 10 == 0
    ensures d.Floor <= BandBound(d) < d.Floor + 10
    ensures d.Floor % 10 == 0 ==> BandBound(d) == d.Floor
  {
    var f := d.Floor;
    var m := f % 10;
    var x := d - m as real;
    assert (f - m) as real <= x < (f - m) as real + 1.0;
    assert x >= 0.0;
    assert x.Floor == f - m;
    assert (f - m) % 10 == 0;
  }

  /** For non-negative discounts every band threshold is a multiple of 10, the
      first is the minimum's floor rounded up and the last is the maximum's
      floor rounded up. */
  lemma BandsOnTens(bands: seq<DiscountBand>, minDiscount: real, maxDiscount: real)
    requires Banding(bands, minDiscount, maxDiscount)
    requires 0.0 <= minDiscount <= maxDiscount
    ensures forall i :: 0 <= i < |bands| ==> bands[i].threshold % 10 == 0
    ensures |bands| > 0
    ensures bands[0].threshold == BandBound(minDiscount)
    ensures bands[|bands| - 1].threshold == BandBound(maxDiscount)
  {
    BandBoundNonNegative(minDiscount);
    BandBoundNonNegative(maxDiscount);
    var lo, hi := BandBound(minDiscount), BandBound(maxDiscount);
    RoundedUpMonotone(minDiscount.Floor, maxDiscount.Floor, lo, hi);
    BandsBetweenTens(bands, lo, hi);
  }

  /** Rounding up to a multiple of 10 keeps the order of its arguments. */
  lemma RoundedUpMonotone(a: int, b: int, lo: int, hi: int)
    requires a <= b
    requires lo % 10 == 0 && a <= lo < a + 10
    requires hi % 10 == 0 && b <= hi < b + 10
    ensures lo <= hi
  {
  }

  /** Bands between two multiples of 10 sit on the tens and run from the
      lower to the upper one. */
  lemma BandsBetweenTens(bands: seq<DiscountBand>, lo: int, hi: int)
    requires BandsBetween(bands, lo, hi)
    requires lo % 10 == 0 && hi % 10 == 0 && lo <= hi
    ensures forall i :: 0 <= i < |bands| ==> bands[i].threshold % 10 == 0
    ensures |bands| > 0
    ensures bands[0].threshold == lo
    ensures bands[|bands| - 1].threshold == hi
  {
    var n := |bands|;
    assert n > 0;
    forall i | 0 <= i < n ensures bands[i].threshold % 10 == 0 {
      assert bands[i].threshold == lo + 10 * i;
      TensStayTens(lo, i);
    }
    var last := lo + 10 * (n - 1);
    assert bands[n - 1].threshold == last && last <= hi;
    TensStayTens(lo, n - 1);
    LastTen(last, hi);
  }

  lemma LastTen(last: int, hi: int)
    requires last % 10 == 0 && hi % 10 == 0 && last <= hi < last + 10
    ensures last == hi
  {
  }

  lemma TensStayTens(lo: int, i: int)
    requires lo % 10 == 0
    ensures (lo + 10 * i) % 10 == 0
  {
  }

  /** The discount range [25.89, 60.5] gives the bands 30, 40, 50 and 60. */
  lemma BandsExample(bands: seq<DiscountBand>)
    requires Banding(bands, 25.89, 60.5)
    ensures |bands| == 4
    ensures bands[0].threshold == 30 && bands[1].threshold == 40
    ensures bands[2].threshold == 50 && bands[3].threshold == 60
  {
    BandBoundNonNegative(25.89);
    BandBoundNonNegative(60.5);
    assert (25.89).Floor == 25;
    assert (60.5).Floor == 60;
    assert BandBound(25.89) == 30 && BandBound(60.5) == 60;
    assert 30 + 10 * |bands| > 60;
    assert bands[|bands| - 1].threshold <= 60;
  }

  /** A range that starts at 0 starts the bands at 0: [0, 95] gives the eleven
      bands 0, 10, ..., 100. */
  lemma BandsFromZero(bands: seq<DiscountBand>)
    requires Banding(bands, 0.0, 95.0)
    ensures |bands| == 11
    ensures bands[0].threshold == 0 && bands[10].threshold == 100
  {
    BandBoundNonNegative(0.0);
    BandBoundNonNegative(95.0);
    assert BandBound(0.0) == 0 && BandBound(95.0) == 100;
    assert 10 * |bands| > 100;
    assert bands[|bands| - 1].threshold <= 100;
  }

  /** Truncation toward zero moves a negative fractional discount off the
      tens: -3.5 gives the bound 1. */
  lemma NegativeBandBound()
    ensures BandBound(-3.5) == 1
  {
    assert (-3.5).Floor == -4;
    assert -4 % 10 == 6;
    assert (3.5 + 6.0 as real).Floor == 9;
  }
}
