/**
 The `enclosed_bean_fields(template, separator)` template variable: one
 expansion of `template` per bean field of the enclosing type, joined with
 `separator`, in which `${newline}` stands for the platform line separator.
 */
module EnclosedBeanFields {
  import opened Options
  import opened Text
  import opened Members
  import opened Beans
  import opened Placeholders

  /**
   The template for one mapping entry: every `${name}` replaced first, then
   every `${getter}`; a template with neither placeholder is kept as it is.
   */
  function ExpandBean(template: string, e: Entry): (r: string)
    ensures !Occurs(template, NamePlaceholder) && !Occurs(template, GetterPlaceholder) ==> r == template
  {
    ReplaceAll(ReplaceAll(template, NamePlaceholder, e.key), GetterPlaceholder, e.value)
  }

  /** One expanded line per entry, in mapping order. */
  function BeanLines(template: string, entries: seq<Entry>): (r: seq<string>)
    ensures |r| == |entries|
    ensures forall k :: 0 <= k < |entries| ==> r[k] == ExpandBean(template, entries[k])
  {
    if entries == [] then [] else [ExpandBean(template, entries[0])] + BeanLines(template, entries[1..])
  }

  /**
   Resolution of the variable for a type with the given fields and methods:
   not applicable (`None`) unless there are exactly two parameters; otherwise
   the lines of the bean mapping joined with the separator — the empty string
   when no field has an accessor, the single line when exactly one has.
   */
  function ResolveAll(platform: Platform, fields: seq<Field>, methods: seq<Method>, params: seq<string>)
    : (r: Option<string>)
    ensures r.None? <==> |params| != 2
    ensures |params| == 2 && BeanPairs(platform.upper, fields, methods) == [] ==> r == Some("")
    ensures |params| == 2 && |BeanPairs(platform.upper, fields, methods)| == 1 ==>
      r == Some(ExpandBean(params[0], BeanPairs(platform.upper, fields, methods)[0]))
    ensures |params| == 2 ==>
      |r.value| == TotalLength(BeanLines(params[0], BeanPairs(platform.upper, fields, methods)))
                   + Gaps(|BeanPairs(platform.upper, fields, methods)|) * |Separator(platform.lineSeparator, params[1])|
  {
    if |params| == 2 then
      var template := params[0];
      var separator := Separator(platform.lineSeparator, params[1]);
      Some(Join(BeanLines(template, BeanPairs(platform.upper, fields, methods)), separator))
    else
      None
  }

  /**
   The result for two or more bean fields: the first field's line, the
   separator, then the result for the remaining fields.
   */
  lemma {:induction false} ResolveAllUnfolds(platform: Platform, fields: seq<Field>, methods: seq<Method>, params: seq<string>)
    requires |params| == 2
    requires |BeanPairs(platform.upper, fields, methods)| >= 2
    ensures var pairs := BeanPairs(platform.upper, fields, methods);
      ResolveAll(platform, fields, methods, params).value
      == ExpandBean(params[0], pairs[0]) + Separator(platform.lineSeparator, params[1])
         + Join(BeanLines(params[0], pairs[1..]), Separator(platform.lineSeparator, params[1]))
  {
    var pairs := BeanPairs(platform.upper, fields, methods);
    assert BeanLines(params[0], pairs)[1..] == BeanLines(params[0], pairs[1..]);
  }

  /**
   `${newline}` is handled in the separator only: when the separator has no
   `${newline}`, the result does not depend on the platform line separator,
   even if the template contains `${newline}`.
   */
  lemma NewlineOnlyInSeparator(p1: Platform, p2: Platform, fields: seq<Field>, methods: seq<Method>, params: seq<string>)
    requires p1.upper == p2.upper
    requires |params| == 2 ==> !Occurs(params[1], NewlinePlaceholder)
    ensures ResolveAll(p1, fields, methods, params) == ResolveAll(p2, fields, methods, params)
  {
  }

  /** A template without placeholders is repeated verbatim, once per bean field. */
  lemma PlainTemplateRepeated(template: string, entries: seq<Entry>)
    requires !Occurs(template, NamePlaceholder) && !Occurs(template, GetterPlaceholder)
    ensures BeanLines(template, entries) == seq(|entries|, _ => template)
  {
  }

  /**
   `${name}` is substituted before `${getter}`: in the template `${ge${name}r}`
   the field name `tte` completes a `${getter}`, which the second pass then
   replaces by the accessor call.
   */
  lemma {:induction false} NameBeforeGetter(getter: string)
    ensures ExpandBean("${ge${name}r}", Entry("tte", getter)) == getter
  {
    var t := "${ge${name}r}";
    var rest := NamePlaceholder + "r}";
    assert t == "$" + ("{ge" + rest);
    assert t[2] != NamePlaceholder[2];
    calc {
      ReplaceAll(t, NamePlaceholder, "tte");
      { ReplaceAllStep(t, NamePlaceholder, "tte", 2); assert t[1..] == "{ge" + rest; }
      "$" + ReplaceAll("{ge" + rest, NamePlaceholder, "tte");
      { ReplaceAllPrefixFree("{ge", rest, NamePlaceholder, "tte"); }
      "$" + ("{ge" + ReplaceAll(rest, NamePlaceholder, "tte"));
      { ReplaceAllLeading(NamePlaceholder, "r}", "tte"); }
      "$" + ("{ge" + ("tte" + ReplaceAll("r}", NamePlaceholder, "tte")));
      "$" + ("{ge" + ("tte" + "r}"));
      GetterPlaceholder;
    }
    ReplaceAllNoSecondPass(GetterPlaceholder, getter);
  }

  /**
   A template holding just `${name}` expands to the field name verbatim, for
   any name that does not itself contain `${getter}` (names with `$` or `\`
   included).
   */
  lemma NameVerbatim(e: Entry)
    requires !Occurs(e.key, GetterPlaceholder)
    ensures ExpandBean(NamePlaceholder, e) == e.key
  {
    ReplaceAllNoSecondPass(NamePlaceholder, e.key);
  }
}
