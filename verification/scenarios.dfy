/**
 Worked scenarios for the three template variables, on a platform whose
 upper-casing and simple type names behave as Java's do for these inputs.
 */
module Scenarios {
  import opened Options
  import opened Text
  import opened Members
  import opened Beans
  import opened Placeholders
  import EnclosedBeanFields
  import EnclosedFields
  import EnclosingBeanFields

  /** A type with `int id` and `boolean active`, accessors `getId()` and `isActive()`. */
  const IdActiveFields: seq<Field> := [Field("id", "I"), Field("active", "Z")]
  const IdActiveMethods: seq<Method> := [Method("getId", 0), Method("isActive", 0)]

  /** Capitalisation: empty stays empty, `name` gains a capital, `URL` is already capitalised. */
  lemma CapitalizeSamples(upper: char -> char)
    requires upper('n') == 'N' && upper('U') == 'U'
    ensures Capitalize(upper, "") == ""
    ensures Capitalize(upper, "name") == "Name"
    ensures Capitalize(upper, "URL") == "URL"
  {
  }

  /** Only the zero-parameter `get`/`is` methods are candidates. */
  lemma {:induction false} CandidatesSample()
    ensures var c := Candidates([Method("getId", 0), Method("getAt", 1), Method("size", 0), Method("isOn", 0)]);
      "getId" in c && "isOn" in c && "getAt" !in c && "size" !in c
  {
    var methods := [Method("getId", 0), Method("getAt", 1), Method("size", 0), Method("isOn", 0)];
    assert methods[0].name == "getId" && methods[3].name == "isOn";
    assert StartsWith("getId", "get") && StartsWith("isOn", "is");
    assert "size"[0] != "get"[0] && "size"[0] != "is"[0];
    assert !DeclaresNoArg(methods, "getAt") by {
      forall i | 0 <= i < |methods| && methods[i].name == "getAt"
        ensures methods[i].parameterCount != 0
      {
        assert "getAt"[3] != "getId"[3];
      }
    }
  }

  /** The bean mapping of `IdActive`: the get-form for `id`, the is-form for the boolean `active`. */
  lemma IdActivePairs(upper: char -> char)
    requires upper('i') == 'I' && upper('a') == 'A'
    ensures BeanPairs(upper, IdActiveFields, IdActiveMethods)
      == [Entry("id", "getId()"), Entry("active", "isActive()")]
  {
    var methods := IdActiveMethods;
    var lookup := Candidates(methods);
    assert GetterName(upper, "id") == "getId";
    assert GetterName(upper, "active") == "getActive";
    assert IsGetterName(upper, "active") == "isActive";
    assert StartsWith("getId", "get") && StartsWith("isActive", "is");
    assert methods[0].name == "getId" && methods[1].name == "isActive";
    assert "getId" in lookup;
    assert "isActive" in lookup;
    assert "getActive" !in lookup;
    PairsOfTwo(upper, lookup, Field("id", "I"), Field("active", "Z"));
    assert GetterName(upper, "id") + "()" == "getId()";
    assert PairFor(upper, lookup, Field("id", "I")) == Some(Entry("id", "getId()"));
    assert IsBooleanField(Field("active", "Z"));
    assert IsGetterName(upper, "active") + "()" == "isActive()";
    assert PairFor(upper, lookup, Field("active", "Z")) == Some(Entry("active", "isActive()"));
  }

  /** An is-form accessor is not used for a non-boolean field. */
  lemma {:induction false} IsFormNeedsBoolean(upper: char -> char)
    requires upper('c') == 'C'
    ensures BeanPairs(upper, [Field("count", "I")], [Method("isCount", 0)]) == []
  {
    var lookup := Candidates([Method("isCount", 0)]);
    assert GetterName(upper, "count") == "getCount";
    assert "getCount" !in lookup;
    assert !IsBooleanField(Field("count", "I"));
    assert [Field("count", "I")][1..] == [];
  }

  /** A boxed `Boolean` written with its qualified signature is not a boolean field. */
  lemma QualifiedBooleanNotBoolean()
    ensures !IsBooleanField(Field("flag", "Ljava.lang.Boolean;"))
    ensures IsBooleanField(Field("flag", "QBoolean;")) && IsBooleanField(Field("flag", "Z"))
  {
  }

  /** When both forms exist for a boolean field, the get-form is chosen. */
  lemma GetFormPreferred(upper: char -> char)
    requires upper('o') == 'O'
    ensures BeanPairs(upper, [Field("on", "Z")], [Method("isOn", 0), Method("getOn", 0)])
      == [Entry("on", "getOn()")]
  {
    var methods := [Method("isOn", 0), Method("getOn", 0)];
    assert GetterName(upper, "on") == "getOn";
    assert StartsWith("getOn", "get");
    assert methods[1].name == "getOn";
    assert "getOn" in Candidates(methods);
    assert GetterName(upper, "on") + "()" == "getOn()";
    assert PairFor(upper, Candidates(methods), Field("on", "Z")) == Some(Entry("on", "getOn()"));
    assert [Field("on", "Z")][1..] == [];
  }

  /** `userName` has `getUserName()`; the boolean `flag` has neither accessor and is left out. */
  lemma UnmatchedFieldOmitted(upper: char -> char)
    requires upper('u') == 'U' && upper('f') == 'F'
    ensures BeanPairs(upper, [Field("userName", "QString;"), Field("flag", "Z")], [Method("getUserName", 0)])
      == [Entry("userName", "getUserName()")]
  {
    var methods := [Method("getUserName", 0)];
    var lookup := Candidates(methods);
    assert GetterName(upper, "userName") == "getUserName";
    assert GetterName(upper, "flag") == "getFlag";
    assert IsGetterName(upper, "flag") == "isFlag";
    assert StartsWith("getUserName", "get");
    assert methods[0].name == "getUserName";
    assert "getUserName" in lookup;
    assert "getFlag" !in lookup;
    assert "isFlag" !in lookup;
    PairsOfTwo(upper, lookup, Field("userName", "QString;"), Field("flag", "Z"));
    assert GetterName(upper, "userName") + "()" == "getUserName()";
    assert PairFor(upper, lookup, Field("userName", "QString;")) == Some(Entry("userName", "getUserName()"));
    assert PairFor(upper, lookup, Field("flag", "Z")) == None;
  }

  /** No `$` in `s`, so no placeholder can start inside it. */
  predicate NoDollar(s: string)
  {
    forall i :: 0 <= i < |s| ==> s[i] != '$'
  }

  /** `${getter}` does not contain `${name}`. */
  lemma {:induction false} GetterKeepsUnderName(name: string)
    ensures ReplaceAll(GetterPlaceholder, NamePlaceholder, name) == GetterPlaceholder
  {
    ReplaceAllStep(GetterPlaceholder, NamePlaceholder, name, 2);
    ReplaceAllPrefixFree(GetterPlaceholder[1..], [], NamePlaceholder, name);
    assert GetterPlaceholder[1..] + [] == GetterPlaceholder[1..];
  }

  /** `${name}: ${getter}` for one entry whose name has no `$`. */
  lemma ExpandSample(name: string, getter: string)
    requires NoDollar(name)
    ensures EnclosedBeanFields.ExpandBean("${name}: ${getter}", Entry(name, getter)) == name + ": " + getter
  {
    var t := "${name}: ${getter}";
    assert t == NamePlaceholder + (": " + GetterPlaceholder);
    ReplaceAllLeading(NamePlaceholder, ": " + GetterPlaceholder, name);
    ReplaceAllPrefixFree(": ", GetterPlaceholder, NamePlaceholder, name);
    GetterKeepsUnderName(name);
    var once := name + ": " + GetterPlaceholder;
    assert ReplaceAll(t, NamePlaceholder, name) == once;
    ReplaceAllPrefixFree(name + ": ", GetterPlaceholder, GetterPlaceholder, getter);
    ReplaceAllNoSecondPass(GetterPlaceholder, getter);
  }

  /** A separator with no `$` is used as it is. */
  lemma PlainSeparator(lineSeparator: string, separator: string)
    requires NoDollar(separator)
    ensures Separator(lineSeparator, separator) == separator
  {
    ReplaceAllPrefixFree(separator, [], NewlinePlaceholder, lineSeparator);
    assert separator + [] == separator;
  }

  /** Two lines joined: the first, the separator, the second. */
  lemma {:induction false} JoinTwo(a: string, b: string, sep: string)
    ensures Join([a, b], sep) == a + sep + b
  {
    assert [a, b][1..] == [b];
  }

  /** The bean template joined for two bean fields. */
  lemma {:induction false} BeanResolveTwo(platform: Platform, fields: seq<Field>, methods: seq<Method>, t: string, sep: string, a: Entry, b: Entry)
    requires BeanPairs(platform.upper, fields, methods) == [a, b]
    ensures EnclosedBeanFields.ResolveAll(platform, fields, methods, [t, sep])
      == Some(EnclosedBeanFields.ExpandBean(t, a) + Separator(platform.lineSeparator, sep) + EnclosedBeanFields.ExpandBean(t, b))
  {
    var lines := EnclosedBeanFields.BeanLines(t, [a, b]);
    assert lines == [EnclosedBeanFields.ExpandBean(t, a), EnclosedBeanFields.ExpandBean(t, b)];
    JoinTwo(lines[0], lines[1], Separator(platform.lineSeparator, sep));
  }

  /**
   `${name}: ${getter}` joined with `, ` for two bean fields whose names have
   no `$` (such as the pairs of `IdActive`).
   */
  lemma BeanTemplateSample(platform: Platform, fields: seq<Field>, methods: seq<Method>, a: Entry, b: Entry)
    requires BeanPairs(platform.upper, fields, methods) == [a, b]
    requires NoDollar(a.key) && NoDollar(b.key)
    ensures EnclosedBeanFields.ResolveAll(platform, fields, methods, ["${name}: ${getter}", ", "])
      == Some(a.key + ": " + a.value + ", " + (b.key + ": " + b.value))
  {
    BeanResolveTwo(platform, fields, methods, "${name}: ${getter}", ", ", a, b);
    ExpandSample(a.key, a.value);
    ExpandSample(b.key, b.value);
    PlainSeparator(platform.lineSeparator, ", ");
  }

  /** The older bean template joined for two bean fields. */
  lemma {:induction false} OlderResolveTwo(platform: Platform, fields: seq<Field>, methods: seq<Method>,
                        t: string, sep: string, flag: string, a: Entry, b: Entry)
    requires BeanPairs(platform.upper, fields, methods) == [a, b]
    ensures EnclosingBeanFields.ResolveAll(platform, fields, methods, [t, sep, flag])
      == Some(EnclosedBeanFields.ExpandBean(t, a) + EnclosingBeanFields.FlagSeparator(sep, flag)
              + EnclosedBeanFields.ExpandBean(t, b))
  {
    var lines := EnclosedBeanFields.BeanLines(t, [a, b]);
    assert lines == [EnclosedBeanFields.ExpandBean(t, a), EnclosedBeanFields.ExpandBean(t, b)];
    JoinTwo(lines[0], lines[1], EnclosingBeanFields.FlagSeparator(sep, flag));
  }

  /** The same with the older variable and the newline flag off: the separator is used as given. */
  lemma OlderBeanTemplateFlagOff(platform: Platform, fields: seq<Field>, methods: seq<Method>, a: Entry, b: Entry)
    requires BeanPairs(platform.upper, fields, methods) == [a, b]
    requires NoDollar(a.key) && NoDollar(b.key)
    ensures EnclosingBeanFields.ResolveAll(platform, fields, methods, ["${name}: ${getter}", ",", "false"])
      == Some(a.key + ": " + a.value + "," + (b.key + ": " + b.value))
  {
    OlderResolveTwo(platform, fields, methods, "${name}: ${getter}", ",", "false", a, b);
    ExpandSample(a.key, a.value);
    ExpandSample(b.key, b.value);
    EnclosingBeanFields.ParseBooleanSpellings("false");
  }

  /** The same with the newline flag on, spelled `True`: a line feed goes in front of the separator. */
  lemma OlderBeanTemplateFlagOn(platform: Platform, fields: seq<Field>, methods: seq<Method>, a: Entry, b: Entry)
    requires BeanPairs(platform.upper, fields, methods) == [a, b]
    requires NoDollar(a.key) && NoDollar(b.key)
    ensures EnclosingBeanFields.ResolveAll(platform, fields, methods, ["${name}: ${getter}", ",", "True"])
      == Some(a.key + ": " + a.value + ("\n" + ",") + (b.key + ": " + b.value))
  {
    OlderResolveTwo(platform, fields, methods, "${name}: ${getter}", ",", "True", a, b);
    ExpandSample(a.key, a.value);
    ExpandSample(b.key, b.value);
    EnclosingBeanFields.ParseBooleanSpellings("True");
  }

  /** `${name};` does not contain `${type}`. */
  lemma {:induction false} NameKeepsUnderType(typeName: string)
    ensures ReplaceAll(NamePlaceholder + ";", TypePlaceholder, typeName) == NamePlaceholder + ";"
  {
    var s := NamePlaceholder + ";";
    ReplaceAllStep(s, TypePlaceholder, typeName, 2);
    ReplaceAllPrefixFree(s[1..], [], TypePlaceholder, typeName);
    assert s[1..] + [] == s[1..];
  }

  /** The `${type}` pass over `${type} ${name};`. */
  lemma TypePass(typeName: string)
    ensures ReplaceAll("${type} ${name};", TypePlaceholder, typeName) == typeName + " " + (NamePlaceholder + ";")
  {
    var tail := " " + (NamePlaceholder + ";");
    assert "${type} ${name};" == TypePlaceholder + tail;
    ReplaceAllLeading(TypePlaceholder, tail, typeName);
    ReplaceAllPrefixFree(" ", NamePlaceholder + ";", TypePlaceholder, typeName);
    NameKeepsUnderType(typeName);
  }

  /** The `${name}` pass over `T ${name};` for a type name `T` without `$`. */
  lemma NamePass(typeName: string, name: string)
    requires NoDollar(typeName)
    ensures ReplaceAll(typeName + " " + (NamePlaceholder + ";"), NamePlaceholder, name) == typeName + " " + name + ";"
  {
    ReplaceAllPrefixFree(typeName + " ", NamePlaceholder + ";", NamePlaceholder, name);
    ReplaceAllLeading(NamePlaceholder, ";", name);
  }

  /** `${type} ${name};` for one field whose type name has no `$`. */
  lemma FieldExpandSample(name: string, typeName: string)
    requires NoDollar(typeName)
    ensures EnclosedFields.ExpandField("${type} ${name};", Entry(name, typeName)) == typeName + " " + name + ";"
  {
    TypePass(typeName);
    NamePass(typeName, name);
  }

  /** `;${newline}` with `"\n"` as line separator is `";\n"`. */
  lemma {:induction false} SeparatorSample()
    ensures Separator("\n", ";${newline}") == ";\n"
  {
    ReplaceAllPrefixFree(";", NewlinePlaceholder, NewlinePlaceholder, "\n");
    ReplaceAllNoSecondPass(NewlinePlaceholder, "\n");
    assert ";${newline}" == ";" + NewlinePlaceholder;
  }

  /** The field template joined for a type with two fields. */
  lemma {:induction false} FieldResolveTwo(platform: Platform, f: Field, g: Field, t: string, sep: string)
    ensures EnclosedFields.ResolveAll(platform, [f, g], [t, sep])
      == Some(EnclosedFields.ExpandField(t, Entry(f.name, platform.simpleName(f.signature)))
              + Separator(platform.lineSeparator, sep)
              + EnclosedFields.ExpandField(t, Entry(g.name, platform.simpleName(g.signature))))
  {
    var entries := EnclosedFields.FieldTypes(platform.simpleName, [f, g]);
    var lines := EnclosedFields.FieldLines(t, entries);
    assert lines == [EnclosedFields.ExpandField(t, entries[0]), EnclosedFields.ExpandField(t, entries[1])];
    JoinTwo(lines[0], lines[1], Separator(platform.lineSeparator, sep));
  }

  /**
   `${type} ${name};` joined with `;${newline}` for a type with two fields
   whose simple type names have no `$` (for `IdActive`: `int id;;` then
   `boolean active;`): the template's own `;` and the separator's `;` both
   appear.
   */
  lemma FieldTemplateSample(platform: Platform, f: Field, g: Field)
    requires NoDollar(platform.simpleName(f.signature)) && NoDollar(platform.simpleName(g.signature))
    requires platform.lineSeparator == "\n"
    ensures EnclosedFields.ResolveAll(platform, [f, g], ["${type} ${name};", ";${newline}"])
      == Some(platform.simpleName(f.signature) + " " + f.name + ";" + ";\n"
              + (platform.simpleName(g.signature) + " " + g.name + ";"))
  {
    FieldResolveTwo(platform, f, g, "${type} ${name};", ";${newline}");
    SeparatorSample();
    FieldExpandSample(f.name, platform.simpleName(f.signature));
    FieldExpandSample(g.name, platform.simpleName(g.signature));
  }
}
