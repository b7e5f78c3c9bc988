/**
 The `enclosed_fields(template, separator)` template variable: one expansion
 of `template` per declared field, with `${type}` and `${name}`, joined with
 `separator`, in which `${newline}` stands for the platform line separator.
 */
module EnclosedFields {
  import opened Options
  import opened Text
  import opened Members
  import opened Placeholders

  /**
   The field mapping of a type: every declared field, in declaration order,
   paired with the simple name of its type.
   */
  function FieldTypes(simpleName: string -> string, fields: seq<Field>): (r: seq<Entry>)
    ensures |r| == |fields|
    ensures forall i :: 0 <= i < |fields| ==> r[i].key == fields[i].name
    ensures forall i :: 0 <= i < |fields| ==> r[i].value == simpleName(fields[i].signature)
  {
    if fields == [] then []
    else [Entry(fields[0].name, simpleName(fields[0].signature))] + FieldTypes(simpleName, fields[1..])
  }

  /** The keys of the field mapping are the field names, each exactly once and in order. */
  lemma FieldTypesKeys(simpleName: string -> string, fields: seq<Field>)
    ensures Keys(FieldTypes(simpleName, fields)) == Names(fields)
    ensures Distinct(Names(fields)) ==> Distinct(Keys(FieldTypes(simpleName, fields)))
  {
  }

  /**
   The template for one field: every `${type}` replaced first, then every
   `${name}`; a template with neither placeholder is kept as it is.
   */
  function ExpandField(template: string, e: Entry): (r: string)
    ensures !Occurs(template, TypePlaceholder) && !Occurs(template, NamePlaceholder) ==> r == template
  {
    ReplaceAll(ReplaceAll(template, TypePlaceholder, e.value), NamePlaceholder, e.key)
  }

  /** One expanded line per entry, in mapping order. */
  function FieldLines(template: string, entries: seq<Entry>): (r: seq<string>)
    ensures |r| == |entries|
    ensures forall k :: 0 <= k < |entries| ==> r[k] == ExpandField(template, entries[k])
  {
    if entries == [] then [] else [ExpandField(template, entries[0])] + FieldLines(template, entries[1..])
  }

  /**
   Resolution of the variable: not applicable (`None`) unless there are
   exactly two parameters; otherwise one line per declared field joined with
   the separator — `n` lines with `n - 1` separators, and the empty string for
   a type without fields.
   */
  function ResolveAll(platform: Platform, fields: seq<Field>, params: seq<string>): (r: Option<string>)
    ensures r.None? <==> |params| != 2
    ensures |params| == 2 && fields == [] ==> r == Some("")
    ensures |params| == 2 && |fields| == 1 ==>
      r == Some(ExpandField(params[0], Entry(fields[0].name, platform.simpleName(fields[0].signature))))
    ensures |params| == 2 ==>
      |r.value| == TotalLength(FieldLines(params[0], FieldTypes(platform.simpleName, fields)))
                   + Gaps(|fields|) * |Separator(platform.lineSeparator, params[1])|
  {
    if |params| == 2 then
      var template := params[0];
      var separator := Separator(platform.lineSeparator, params[1]);
      Some(Join(FieldLines(template, FieldTypes(platform.simpleName, fields)), separator))
    else
      None
  }

  /**
   The result for a type with two or more fields: the first field's line, the
   separator, then the result for the remaining fields.
   */
  lemma {:induction false} ResolveAllUnfolds(platform: Platform, fields: seq<Field>, params: seq<string>)
    requires |params| == 2 && |fields| >= 2
    ensures ResolveAll(platform, fields, params).value
      == ExpandField(params[0], Entry(fields[0].name, platform.simpleName(fields[0].signature)))
         + Separator(platform.lineSeparator, params[1])
         + ResolveAll(platform, fields[1..], params).value
  {
    var entries := FieldTypes(platform.simpleName, fields);
    assert entries[1..] == FieldTypes(platform.simpleName, fields[1..]);
    assert FieldLines(params[0], entries)[1..] == FieldLines(params[0], entries[1..]);
  }

  /**
   `${type}` is substituted before `${name}`: in the template `${na${type}e}`
   the simple type name `m` completes a `${name}`, which the second pass then
   replaces by the field name.
   */
  lemma {:induction false} TypeBeforeName(name: string)
    ensures ExpandField("${na${type}e}", Entry(name, "m")) == name
  {
    var t := "${na${type}e}";
    var rest := TypePlaceholder + "e}";
    assert t == "$" + ("{na" + rest);
    assert t[2] != TypePlaceholder[2];
    calc {
      ReplaceAll(t, TypePlaceholder, "m");
      { ReplaceAllStep(t, TypePlaceholder, "m", 2); assert t[1..] == "{na" + rest; }
      "$" + ReplaceAll("{na" + rest, TypePlaceholder, "m");
      { ReplaceAllPrefixFree("{na", rest, TypePlaceholder, "m"); }
      "$" + ("{na" + ReplaceAll(rest, TypePlaceholder, "m"));
      { ReplaceAllLeading(TypePlaceholder, "e}", "m"); }
      "$" + ("{na" + ("m" + ReplaceAll("e}", TypePlaceholder, "m")));
      "$" + ("{na" + ("m" + "e}"));
      NamePlaceholder;
    }
    ReplaceAllNoSecondPass(NamePlaceholder, name);
  }
}
