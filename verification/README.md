# Dynamic template variables: a Dafny model

This project models the three template-variable resolvers of the Eclipse plug-in
`org.starchartlabs.eclipse.template.dynamic`. Each one expands a line template
once for every field of the enclosing Java type (for the bean variables, every
field with an accessor). The expanded lines are joined
with a separator, and the result goes back to the editor. If the variable has the
wrong number of parameters, it is "not applicable" (`null` in the source, `None`
here).

- `enclosed_bean_fields(template, separator)`: one line per *bean field*, meaning a
  field with an accessor. In the template, `${name}` stands for the field name and
  `${getter}` for the accessor call, such as `getId()`. In the separator,
  `${newline}` stands for the platform line separator.
- The older `EnclosingBeanFieldsResolver`, with parameters
  `(template, separator, newline)`. The pairing and line expansion are the same,
  but there is no `${newline}`. Instead, a line feed goes in front of the
  separator when the third parameter reads as `true` under `Boolean.valueOf`.
- `enclosed_fields(template, separator)`: one line per declared field. In the
  template, `${type}` stands for the field's simple type name and `${name}` for the
  field name. `${newline}` works as above.

The *bean mapping* pairs each field, in declaration order, with an accessor:

- the get-form `get` + capitalised name, if the type declares a no-argument method
  of that name;
- otherwise, for a field whose type signature is `Z` or `QBoolean;`, the is-form
  `is` + capitalised name, if declared;
- otherwise the field is left out.

Only no-argument methods whose names start with `get` or `is` are looked up.

Modules, leaves first:

- `Options`: the `Option` datatype.
- `Text`: prefix test, literal replace-all and replace-first, split, and join. Its
  lemmas tie replace-all to split and join.
- `Members`: fields, methods and mapping entries, plus the `Platform` of host
  callbacks.
- `Placeholders`: the placeholder texts and the `${newline}` handling of a
  separator.
- `Beans`: candidate accessors, capitalisation, and the bean mapping. `Beans` has an
  independent declarative specification (`Accessor`) and proofs that the mapping
  is sound, complete, ordered and free of duplicates.
- `EnclosedBeanFields`, `EnclosingBeanFields` and `EnclosedFields`: the three
  resolvers.
- `JavaRegex`: the regex-replacement behaviour of the code as written (see
  Findings).
- `Scenarios`: worked examples.

Both bean resolvers have private copies of the pairing helpers. The copies are the
same apart from null checks, so the single `Beans` module models both.

In `enclosed_fields`, the template's own `;` and the separator's `;` both appear.
For fields `int id` and `boolean active`, the template `${type} ${name};` joined by
`;${newline}` gives `int id;;\nboolean active;` (`Scenarios.FieldTemplateSample`).

## Model

| member | source | states |
|---|---|---|
| Text.ReplaceAll | org.starchartlabs.eclipse.template.dynamic/src/main/java/org/starchartlabs/eclipse/template/dynamic/resolver/EnclosedBeanFieldsResolver.java:124-126 | substituting a placeholder leaves a template that does not contain it unchanged |
| Text.ReplaceAllIsJoinOfSplit | org.starchartlabs.eclipse.template.dynamic/src/main/java/org/starchartlabs/eclipse/template/dynamic/resolver/EnclosedBeanFieldsResolver.java:124-126 | replacing every occurrence is the same as cutting the text at the occurrences and gluing the pieces with the replacement |
| Text.SplitPiecesFree | org.starchartlabs.eclipse.template.dynamic/src/main/java/org/starchartlabs/eclipse/template/dynamic/resolver/EnclosedBeanFieldsResolver.java:124-126 | no piece between replaced occurrences still contains the placeholder, so every occurrence is replaced |
| Text.JoinSplit | org.starchartlabs.eclipse.template.dynamic/src/main/java/org/starchartlabs/eclipse/template/dynamic/resolver/EnclosedBeanFieldsResolver.java:124-129 | cutting at a pattern and joining with that pattern gives back the original text |
| Text.ReplaceAllSelf | org.starchartlabs.eclipse.template.dynamic/src/main/java/org/starchartlabs/eclipse/template/dynamic/resolver/EnclosedBeanFieldsResolver.java:124-126 | replacing a placeholder by its own text changes nothing |
| Text.ReplaceAllNoSecondPass | org.starchartlabs.eclipse.template.dynamic/src/main/java/org/starchartlabs/eclipse/template/dynamic/resolver/EnclosedBeanFieldsResolver.java:124-126 | the inserted value is not scanned again, even if it contains the placeholder |
| Text.ReplaceAllLeading | org.starchartlabs.eclipse.template.dynamic/src/main/java/org/starchartlabs/eclipse/template/dynamic/resolver/EnclosedBeanFieldsResolver.java:124-126 | an occurrence at the front is replaced and the scan resumes after it |
| Text.ReplaceAllPrefixFree | org.starchartlabs.eclipse.template.dynamic/src/main/java/org/starchartlabs/eclipse/template/dynamic/resolver/EnclosedBeanFieldsResolver.java:124-126 | text before the first occurrence that holds no character starting the placeholder is copied through |
| Text.Join | org.starchartlabs.eclipse.template.dynamic/src/main/java/org/starchartlabs/eclipse/template/dynamic/resolver/EnclosedBeanFieldsResolver.java:129 | joining no lines gives the empty text and one line gives that line; the length is the lines' total plus one separator per gap |
| Text.JoinSnoc | org.starchartlabs.eclipse.template.dynamic/src/main/java/org/starchartlabs/eclipse/template/dynamic/resolver/EnclosedBeanFieldsResolver.java:129 | one more line adds the separator and that line at the end |
| Text.ReplaceFirst | org.starchartlabs.eclipse.template.dynamic/src/main/java/org/starchartlabs/eclipse/template/dynamic/resolver/EnclosedBeanFieldsResolver.java:227 | replace-first leaves text without the pattern unchanged and replaces an occurrence at the front |
| Placeholders.Separator | org.starchartlabs.eclipse.template.dynamic/src/main/java/org/starchartlabs/eclipse/template/dynamic/resolver/EnclosedBeanFieldsResolver.java:119 | a separator without `${newline}` is used as given |
| Placeholders.SeparatorLeadingNewline | org.starchartlabs.eclipse.template.dynamic/src/main/java/org/starchartlabs/eclipse/template/dynamic/resolver/EnclosedBeanFieldsResolver.java:119 | a leading `${newline}` becomes the platform line separator in front of the rest |
| Placeholders.LiteralPattern | org.starchartlabs.eclipse.template.dynamic/src/main/java/org/starchartlabs/eclipse/template/dynamic/resolver/EnclosedBeanFieldsResolver.java:78-82 | the text an escaped literal regex matches; the result is never longer than the pattern, and `LiteralPatternPlainPrefix` shows that unescaped characters are matched as they are |
| Placeholders.LiteralPatternPlainPrefix | org.starchartlabs.eclipse.template.dynamic/src/main/java/org/starchartlabs/eclipse/template/dynamic/resolver/EnclosedBeanFieldsResolver.java:78-82 | characters without a backslash are matched as they are, ahead of the rest of the pattern |
| Placeholders.PlaceholderPatterns | org.starchartlabs.eclipse.template.dynamic/src/main/java/org/starchartlabs/eclipse/template/dynamic/resolver/EnclosedBeanFieldsResolver.java:78-82 | the escaped patterns match exactly the placeholder texts `${name}`, `${getter}`, `${type}` and `${newline}` (the same patterns are in `EnclosingBeanFieldsResolver.java` lines 56-58 and `EnclosedFieldsResolver.java` lines 71-75) |
| Beans.Candidates | org.starchartlabs.eclipse.template.dynamic/src/main/java/org/starchartlabs/eclipse/template/dynamic/resolver/EnclosedBeanFieldsResolver.java:182-196 | a name is a candidate exactly when it starts with `get` or `is` and some method with no parameters has it (the older resolver's copy, `EnclosingBeanFieldsResolver.java` lines 131-143, is the same) |
| Beans.IsAccessorName | org.starchartlabs.eclipse.template.dynamic/src/main/java/org/starchartlabs/eclipse/template/dynamic/resolver/EnclosedBeanFieldsResolver.java:190 | a method name has accessor shape when it starts with `get` or `is`; used by `Candidates`, whose contract states the whole filter |
| Beans.IsCandidate | org.starchartlabs.eclipse.template.dynamic/src/main/java/org/starchartlabs/eclipse/template/dynamic/resolver/EnclosedBeanFieldsResolver.java:189-190 | a method is kept when it has no parameters and an accessor-shaped name; `Candidates` proves that the kept names are exactly these |
| Beans.IsBooleanField | org.starchartlabs.eclipse.template.dynamic/src/main/java/org/starchartlabs/eclipse/template/dynamic/resolver/EnclosedBeanFieldsResolver.java:207-211 | a field is boolean exactly when its signature is `Z` or `QBoolean;`, as `Scenarios.QualifiedBooleanNotBoolean` shows (the same test is in `EnclosingBeanFieldsResolver.java` lines 145-147) |
| Beans.Capitalize | org.starchartlabs.eclipse.template.dynamic/src/main/java/org/starchartlabs/eclipse/template/dynamic/resolver/EnclosedBeanFieldsResolver.java:220-231 | same length; the first character upper-cased and the rest verbatim; the empty name unchanged |
| Beans.CapitalizeByReplaceFirst | org.starchartlabs.eclipse.template.dynamic/src/main/java/org/starchartlabs/eclipse/template/dynamic/resolver/EnclosedBeanFieldsResolver.java:225-228 | replacing the first occurrence of the first character is upper-casing index 0 (likewise `EnclosingBeanFieldsResolver.java` lines 152-155) |
| Beans.CapitalizeFixed | org.starchartlabs.eclipse.template.dynamic/src/main/java/org/starchartlabs/eclipse/template/dynamic/resolver/EnclosedBeanFieldsResolver.java:220-231 | a name that already starts upper-case is returned as it is |
| Beans.CapitalizeIdempotent | org.starchartlabs.eclipse.template.dynamic/src/main/java/org/starchartlabs/eclipse/template/dynamic/resolver/EnclosedBeanFieldsResolver.java:220-231 | capitalising twice is capitalising once |
| Beans.GetterName | org.starchartlabs.eclipse.template.dynamic/src/main/java/org/starchartlabs/eclipse/template/dynamic/resolver/EnclosedBeanFieldsResolver.java:156 | `get` + the capitalised name; `GetterCandidate` shows that it has accessor shape, so it is a candidate exactly when a no-argument method has that name |
| Beans.IsGetterName | org.starchartlabs.eclipse.template.dynamic/src/main/java/org/starchartlabs/eclipse/template/dynamic/resolver/EnclosedBeanFieldsResolver.java:157 | `is` + the capitalised name; `IsGetterCandidate` shows the same for the is-form |
| Beans.GetterCandidate | org.starchartlabs.eclipse.template.dynamic/src/main/java/org/starchartlabs/eclipse/template/dynamic/resolver/EnclosedBeanFieldsResolver.java:156-159 | the get-form of any name is in the candidate set exactly when a no-argument method has that name |
| Beans.IsGetterCandidate | org.starchartlabs.eclipse.template.dynamic/src/main/java/org/starchartlabs/eclipse/template/dynamic/resolver/EnclosedBeanFieldsResolver.java:157-161 | the is-form of any name is in the candidate set exactly when a no-argument method has that name |
| Beans.PairFor | org.starchartlabs.eclipse.template.dynamic/src/main/java/org/starchartlabs/eclipse/template/dynamic/resolver/EnclosedBeanFieldsResolver.java:155-163 | the entry a field contributes is keyed by its name and holds its get-form or is-form call |
| Beans.PairForIsAccessor | org.starchartlabs.eclipse.template.dynamic/src/main/java/org/starchartlabs/eclipse/template/dynamic/resolver/EnclosedBeanFieldsResolver.java:152-163 | the candidate-set lookup picks exactly the accessor described over the declared methods: the get-form first, the is-form only for booleans, both directions (likewise `EnclosingBeanFieldsResolver.java` lines 111-122) |
| Beans.Pairs | org.starchartlabs.eclipse.template.dynamic/src/main/java/org/starchartlabs/eclipse/template/dynamic/resolver/EnclosedBeanFieldsResolver.java:154-164 | no more entries than fields, and each value is the key's accessor call |
| Beans.BeanPairs | org.starchartlabs.eclipse.template.dynamic/src/main/java/org/starchartlabs/eclipse/template/dynamic/resolver/EnclosedBeanFieldsResolver.java:145-170 | the bean mapping has at most one entry per field, and every value is an accessor call for its key |
| Beans.PairsOfTwo | org.starchartlabs.eclipse.template.dynamic/src/main/java/org/starchartlabs/eclipse/template/dynamic/resolver/EnclosedBeanFieldsResolver.java:154-164 | for two fields, the mapping is the first field's entry (if any) followed by the second's |
| Beans.PairsSound | org.starchartlabs.eclipse.template.dynamic/src/main/java/org/starchartlabs/eclipse/template/dynamic/resolver/EnclosedBeanFieldsResolver.java:154-164 | every entry is the one some field contributes, and the lemma names that field |
| Beans.PairsComplete | org.starchartlabs.eclipse.template.dynamic/src/main/java/org/starchartlabs/eclipse/template/dynamic/resolver/EnclosedBeanFieldsResolver.java:154-164 | every entry a field contributes is in the mapping |
| Beans.BeanPairsSound | org.starchartlabs.eclipse.template.dynamic/src/main/java/org/starchartlabs/eclipse/template/dynamic/resolver/EnclosedBeanFieldsResolver.java:145-170 | every entry of the bean mapping is a declared field with the accessor the declarative rule gives it (likewise `EnclosingBeanFieldsResolver.java` lines 106-129) |
| Beans.BeanPairsComplete | org.starchartlabs.eclipse.template.dynamic/src/main/java/org/starchartlabs/eclipse/template/dynamic/resolver/EnclosedBeanFieldsResolver.java:145-170 | every field that has an accessor is in the bean mapping with that accessor |
| Beans.BeanPairsOrdered | org.starchartlabs.eclipse.template.dynamic/src/main/java/org/starchartlabs/eclipse/template/dynamic/resolver/EnclosedBeanFieldsResolver.java:148-164 | the mapping's keys are field names in declaration order, each field at most once |
| Beans.BeanPairsDistinctKeys | org.starchartlabs.eclipse.template.dynamic/src/main/java/org/starchartlabs/eclipse/template/dynamic/resolver/EnclosedBeanFieldsResolver.java:148-164 | with distinct field names, no key appears twice |
| Beans.BeanPairsOmits | org.starchartlabs.eclipse.template.dynamic/src/main/java/org/starchartlabs/eclipse/template/dynamic/resolver/EnclosedBeanFieldsResolver.java:159-163 | a field with no matching accessor has no entry |
| EnclosedBeanFields.ExpandBean | org.starchartlabs.eclipse.template.dynamic/src/main/java/org/starchartlabs/eclipse/template/dynamic/resolver/EnclosedBeanFieldsResolver.java:124-126 | a template with neither `${name}` nor `${getter}` is kept as it is; `NameVerbatim`, `NameBeforeGetter` and `JavaRegex.AsWrittenAgreesWhenPlain` fix the rest (the same expansion is in `EnclosingBeanFieldsResolver.java` lines 94-96) |
| EnclosedBeanFields.BeanLines | org.starchartlabs.eclipse.template.dynamic/src/main/java/org/starchartlabs/eclipse/template/dynamic/resolver/EnclosedBeanFieldsResolver.java:121-127 | one expanded line per mapping entry, in mapping order |
| EnclosedBeanFields.ResolveAll | org.starchartlabs.eclipse.template.dynamic/src/main/java/org/starchartlabs/eclipse/template/dynamic/resolver/EnclosedBeanFieldsResolver.java:114-134 | not applicable exactly when there are not two parameters; empty text with no bean field; the single line with one; length of all lines plus one separator per gap |
| EnclosedBeanFields.ResolveAllUnfolds | org.starchartlabs.eclipse.template.dynamic/src/main/java/org/starchartlabs/eclipse/template/dynamic/resolver/EnclosedBeanFieldsResolver.java:121-129 | with two or more bean fields: the first line, the separator, then the rest joined |
| EnclosedBeanFields.NewlineOnlyInSeparator | org.starchartlabs.eclipse.template.dynamic/src/main/java/org/starchartlabs/eclipse/template/dynamic/resolver/EnclosedBeanFieldsResolver.java:118-119 | `${newline}` is handled only in the separator, so the line separator matters only when the separator contains it |
| EnclosedBeanFields.PlainTemplateRepeated | org.starchartlabs.eclipse.template.dynamic/src/main/java/org/starchartlabs/eclipse/template/dynamic/resolver/EnclosedBeanFieldsResolver.java:124-126 | a template without placeholders is repeated verbatim for each bean field |
| EnclosedBeanFields.NameBeforeGetter | org.starchartlabs.eclipse.template.dynamic/src/main/java/org/starchartlabs/eclipse/template/dynamic/resolver/EnclosedBeanFieldsResolver.java:124-126 | `${name}` is replaced before `${getter}`: in the template `${ge${name}r}`, the field name `tte` completes a `${getter}`, which is then replaced by the accessor call |
| EnclosedBeanFields.NameVerbatim | org.starchartlabs.eclipse.template.dynamic/src/main/java/org/starchartlabs/eclipse/template/dynamic/resolver/EnclosedBeanFieldsResolver.java:125 | the template `${name}` gives the field name verbatim, including names with `$` |
| EnclosingBeanFields.ParseBoolean | org.starchartlabs.eclipse.template.dynamic/src/main/java/org/starchartlabs/eclipse/template/dynamic/EnclosingBeanFieldsResolver.java:87 | `Boolean.valueOf`: true for `true` in any letter case; `ParseBooleanSpellings` lists the sixteen spellings it accepts |
| EnclosingBeanFields.ParseBooleanSpellings | org.starchartlabs.eclipse.template.dynamic/src/main/java/org/starchartlabs/eclipse/template/dynamic/EnclosingBeanFieldsResolver.java:87 | the flag reads as true exactly for the sixteen case spellings of `true` |
| EnclosingBeanFields.FlagSeparator | org.starchartlabs.eclipse.template.dynamic/src/main/java/org/starchartlabs/eclipse/template/dynamic/EnclosingBeanFieldsResolver.java:87-89 | with a true flag, a line feed then the separator; otherwise the separator as given |
| EnclosingBeanFields.ResolveAll | org.starchartlabs.eclipse.template.dynamic/src/main/java/org/starchartlabs/eclipse/template/dynamic/EnclosingBeanFieldsResolver.java:81-104 | not applicable exactly when there are not three parameters; empty text with no bean field; the single line with one; length of all lines plus one flag separator per gap; `OlderIsNewerWithLiteralNewline` fixes the contents for any number of bean fields |
| EnclosingBeanFields.FlagFalseAgrees | org.starchartlabs.eclipse.template.dynamic/src/main/java/org/starchartlabs/eclipse/template/dynamic/EnclosingBeanFieldsResolver.java:84-101 | with a false flag, the older variable gives what `enclosed_bean_fields` gives for a separator without `${newline}` |
| EnclosingBeanFields.FlagTrueAgrees | org.starchartlabs.eclipse.template.dynamic/src/main/java/org/starchartlabs/eclipse/template/dynamic/EnclosingBeanFieldsResolver.java:87-99 | with a true flag, the older variable gives what `enclosed_bean_fields` gives with `${newline}` in front of the separator, on a line-feed platform |
| EnclosingBeanFields.OlderIsNewerWithLiteralNewline | org.starchartlabs.eclipse.template.dynamic/src/main/java/org/starchartlabs/eclipse/template/dynamic/EnclosingBeanFieldsResolver.java:86-99 | for every input, the older variable gives what `enclosed_bean_fields` gives with the flag separator on a platform whose line separator is `${newline}` itself: the bean lines in mapping order, joined by the flag separator with any `${newline}` left as it is |
| EnclosingBeanFields.NewlineNotRecognised | org.starchartlabs.eclipse.template.dynamic/src/main/java/org/starchartlabs/eclipse/template/dynamic/EnclosingBeanFieldsResolver.java:86-99 | in the older variable with the flag `false` and two bean fields, a `${newline}` separator is placed between the lines literally |
| EnclosedFields.FieldTypes | org.starchartlabs.eclipse.template.dynamic/src/main/java/org/starchartlabs/eclipse/template/dynamic/resolver/EnclosedFieldsResolver.java:136-152 | one entry per declared field, in order, keyed by its name, with its simple type name as value |
| EnclosedFields.FieldTypesKeys | org.starchartlabs.eclipse.template.dynamic/src/main/java/org/starchartlabs/eclipse/template/dynamic/resolver/EnclosedFieldsResolver.java:139-146 | the mapping's keys are exactly the field names in order, and distinct when the names are |
| EnclosedFields.ExpandField | org.starchartlabs.eclipse.template.dynamic/src/main/java/org/starchartlabs/eclipse/template/dynamic/resolver/EnclosedFieldsResolver.java:115-117 | a template with neither `${type}` nor `${name}` is kept as it is; `TypeBeforeName` and `JavaRegex.FieldAsWrittenAgreesWhenPlain` fix the rest |
| EnclosedFields.FieldLines | org.starchartlabs.eclipse.template.dynamic/src/main/java/org/starchartlabs/eclipse/template/dynamic/resolver/EnclosedFieldsResolver.java:112-120 | one expanded line per field, in order |
| EnclosedFields.ResolveAll | org.starchartlabs.eclipse.template.dynamic/src/main/java/org/starchartlabs/eclipse/template/dynamic/resolver/EnclosedFieldsResolver.java:105-127 | not applicable exactly when there are not two parameters; empty text with no field; the single line with one; length of all lines plus one separator per gap |
| EnclosedFields.ResolveAllUnfolds | org.starchartlabs.eclipse.template.dynamic/src/main/java/org/starchartlabs/eclipse/template/dynamic/resolver/EnclosedFieldsResolver.java:112-122 | with two or more fields: the first field's line, the separator, then the result for the rest |
| EnclosedFields.TypeBeforeName | org.starchartlabs.eclipse.template.dynamic/src/main/java/org/starchartlabs/eclipse/template/dynamic/resolver/EnclosedFieldsResolver.java:115-117 | `${type}` is replaced before `${name}`: in the template `${na${type}e}`, the type name `m` completes a `${name}`, which is then replaced by the field name |
| JavaRegex.Interpret | org.starchartlabs.eclipse.template.dynamic/src/main/java/org/starchartlabs/eclipse/template/dynamic/resolver/EnclosedBeanFieldsResolver.java:124-126 | the text a Java replacement string stands for, or failure where Java throws; `InterpretPlain` shows that a replacement free of `$` and `\` stands for itself |
| JavaRegex.InterpretPlain | org.starchartlabs.eclipse.template.dynamic/src/main/java/org/starchartlabs/eclipse/template/dynamic/resolver/EnclosedBeanFieldsResolver.java:124-126 | a replacement with neither `$` nor `\` stands for itself |
| JavaRegex.RegexReplaceAll | org.starchartlabs.eclipse.template.dynamic/src/main/java/org/starchartlabs/eclipse/template/dynamic/resolver/EnclosedBeanFieldsResolver.java:124-126 | `replaceAll` with a placeholder pattern: the text unchanged when nothing matches, otherwise every occurrence replaced by what the replacement stands for, or failure; `RegexReplaceAllPlain` ties it to the literal substitution |
| JavaRegex.ExpandBeanAsWritten | org.starchartlabs.eclipse.template.dynamic/src/main/java/org/starchartlabs/eclipse/template/dynamic/resolver/EnclosedBeanFieldsResolver.java:124-126 | the bean line expansion as written; `AsWrittenAgreesWhenPlain` and `DollarFieldNameThrows` relate it to `ExpandBean` |
| JavaRegex.ExpandFieldAsWritten | org.starchartlabs.eclipse.template.dynamic/src/main/java/org/starchartlabs/eclipse/template/dynamic/resolver/EnclosedFieldsResolver.java:115-117 | the field line expansion as written, `${type}` then `${name}` |
| JavaRegex.FieldAsWrittenAgreesWhenPlain | org.starchartlabs.eclipse.template.dynamic/src/main/java/org/starchartlabs/eclipse/template/dynamic/resolver/EnclosedFieldsResolver.java:115-117 | for field and type names free of `$` and `\`, the written field expansion is `ExpandField` |
| JavaRegex.CapitalizeAsWritten | org.starchartlabs.eclipse.template.dynamic/src/main/java/org/starchartlabs/eclipse/template/dynamic/resolver/EnclosedBeanFieldsResolver.java:225-228 | capitalisation as written, with the first character as a regex; `CapitalizeAsWrittenAgrees` and `DollarFirstLetterThrows` relate it to `Capitalize` |
| JavaRegex.RegexReplaceAllPlain | org.starchartlabs.eclipse.template.dynamic/src/main/java/org/starchartlabs/eclipse/template/dynamic/resolver/EnclosedBeanFieldsResolver.java:124-126 | with a replacement free of `$` and `\`, regex replace-all is the literal substitution |
| JavaRegex.AsWrittenAgreesWhenPlain | org.starchartlabs.eclipse.template.dynamic/src/main/java/org/starchartlabs/eclipse/template/dynamic/resolver/EnclosedBeanFieldsResolver.java:124-126 | for names and accessors free of `$` and `\`, the written expansion is the literal one |
| JavaRegex.DollarFieldNameThrows | org.starchartlabs.eclipse.template.dynamic/src/main/java/org/starchartlabs/eclipse/template/dynamic/resolver/EnclosedBeanFieldsResolver.java:124-126 | the field `a$b` makes the written expansion throw, while the literal one gives `a$b` |
| JavaRegex.CapitalizeAsWrittenAgrees | org.starchartlabs.eclipse.template.dynamic/src/main/java/org/starchartlabs/eclipse/template/dynamic/resolver/EnclosedBeanFieldsResolver.java:225-228 | unless the first character or its upper-case form is special to regexes, the written capitalisation is `Capitalize` |
| JavaRegex.DollarFirstLetterThrows | org.starchartlabs.eclipse.template.dynamic/src/main/java/org/starchartlabs/eclipse/template/dynamic/resolver/EnclosedBeanFieldsResolver.java:225-228 | the field `$x` makes the written capitalisation throw |
| Scenarios.CapitalizeSamples | org.starchartlabs.eclipse.template.dynamic/src/main/java/org/starchartlabs/eclipse/template/dynamic/resolver/EnclosedBeanFieldsResolver.java:220-231 | `""` stays `""`, `name` becomes `Name`, `URL` stays `URL` |
| Scenarios.CandidatesSample | org.starchartlabs.eclipse.template.dynamic/src/main/java/org/starchartlabs/eclipse/template/dynamic/resolver/EnclosedBeanFieldsResolver.java:188-192 | `getId()` and `isOn()` are candidates; `getAt(x)` and `size()` are not |
| Scenarios.IdActivePairs | org.starchartlabs.eclipse.template.dynamic/src/main/java/org/starchartlabs/eclipse/template/dynamic/resolver/EnclosedBeanFieldsResolver.java:145-170 | `int id` with `getId()` and `boolean active` with `isActive()` map to `getId()` and `isActive()`, in that order |
| Scenarios.IsFormNeedsBoolean | org.starchartlabs.eclipse.template.dynamic/src/main/java/org/starchartlabs/eclipse/template/dynamic/resolver/EnclosedBeanFieldsResolver.java:161 | an `int` field with only an is-form method gets no entry |
| Scenarios.QualifiedBooleanNotBoolean | org.starchartlabs.eclipse.template.dynamic/src/main/java/org/starchartlabs/eclipse/template/dynamic/resolver/EnclosedBeanFieldsResolver.java:84 | only the signatures `Z` and `QBoolean;` count as boolean |
| Scenarios.GetFormPreferred | org.starchartlabs.eclipse.template.dynamic/src/main/java/org/starchartlabs/eclipse/template/dynamic/resolver/EnclosedBeanFieldsResolver.java:159-162 | a boolean field with both forms gets the get-form |
| Scenarios.UnmatchedFieldOmitted | org.starchartlabs.eclipse.template.dynamic/src/main/java/org/starchartlabs/eclipse/template/dynamic/resolver/EnclosedBeanFieldsResolver.java:154-164 | a field with no accessor is skipped and the rest keep their order |
| Scenarios.BeanTemplateSample | org.starchartlabs.eclipse.template.dynamic/src/main/java/org/starchartlabs/eclipse/template/dynamic/resolver/EnclosedBeanFieldsResolver.java:114-134 | for two bean fields with `$`-free names, `${name}: ${getter}` joined by `, ` gives `<name>: <accessor>, <name>: <accessor>`, as in `id: getId(), active: isActive()` |
| Scenarios.OlderBeanTemplateFlagOff | org.starchartlabs.eclipse.template.dynamic/src/main/java/org/starchartlabs/eclipse/template/dynamic/EnclosingBeanFieldsResolver.java:81-104 | with the flag `false`, the separator `,` is used as given |
| Scenarios.OlderBeanTemplateFlagOn | org.starchartlabs.eclipse.template.dynamic/src/main/java/org/starchartlabs/eclipse/template/dynamic/EnclosingBeanFieldsResolver.java:81-104 | with the flag `True`, the separator becomes a line feed then `,` |
| Scenarios.SeparatorSample | org.starchartlabs.eclipse.template.dynamic/src/main/java/org/starchartlabs/eclipse/template/dynamic/resolver/EnclosedFieldsResolver.java:110 | `;${newline}` on a line-feed platform is `;` then a line feed |
| Scenarios.FieldTemplateSample | org.starchartlabs.eclipse.template.dynamic/src/main/java/org/starchartlabs/eclipse/template/dynamic/resolver/EnclosedFieldsResolver.java:105-127 | for two fields with `$`-free type names, `${type} ${name};` joined by `;${newline}` gives `<type> <name>;;` then a line feed then `<type> <name>;`, as in `int id;;` and `boolean active;` |

## Left out

- The editor plumbing (`resolve`, `TemplateVariable`, `CompilationUnitContext`, the fallback to `super.resolve`) is host machinery. The model's `None` is the `null` that triggers the fallback.
- Finding the enclosing type and listing its fields and methods are left out. The model takes the declared fields and methods as sequences, in declaration order.
- A `JavaModelException` while listing members is rethrown as a `RuntimeException`. The model assumes that listing succeeds.
- `Objects.requireNonNull` checks are left out, because the model has no null.
- `Signature.getSignatureSimpleName` is host code. It is the uninterpreted function `Platform.simpleName`.
- `System.lineSeparator()` is the parameter `Platform.lineSeparator`. Real line separators contain neither `$` nor `\`, so using one as a regex replacement is the literal substitution.
- Beans.Capitalize: upper-cases with a one-character function `Platform.upper`. Characters whose upper-case form is longer than one character (such as `ß` → `SS`) are left out. A Dafny `char` is a whole Unicode scalar value, but Java takes the first UTF-16 code unit. For a name starting with a character outside the Basic Multilingual Plane (such as Deseret `𐐨`), that unit is a lone high surrogate, and the source leaves the name unchanged. The model matches the source only when `Platform.upper` is the identity on characters outside that plane.
- Beans.CapitalizeByReplaceFirst: holds for the literal replace-first. The regex reading of the first character is covered only by `JavaRegex.CapitalizeAsWritten` (see Findings).
- Beans.BeanPairs and EnclosedFields.FieldTypes: keep a sequence of entries, not a `LinkedHashMap`. With a repeated field name, the map would keep one entry, overwritten in place, while the sequence keeps one entry per field. Java field names within one type are distinct, so this does not arise. The lemmas that need distinct keys require distinct names.
- EnclosedBeanFields.ExpandBean and EnclosedFields.ExpandField: use the literal substitution. The code's regex reading of the inserted value is modelled separately by `JavaRegex.ExpandBeanAsWritten` and `JavaRegex.ExpandFieldAsWritten` (see Findings). `AsWrittenAgreesWhenPlain` and `FieldAsWrittenAgreesWhenPlain` prove that the two agree for values free of `$` and `\`.
- EnclosingBeanFields.ParseBoolean: compares with `true` ignoring ASCII case only. This is exact for `Boolean.valueOf`, which matches only the four letters of `true`. A `null` parameter cannot occur in the model.
- The order of the candidate `HashSet` does not matter, because it is only queried. The model uses a `set`.
- `FieldInfo.java` is not part of this model.
- The end-to-end scenarios are stated for arbitrary entries or fields with `$`-free names, not for literal `IdActive` text. `Scenarios.IdActivePairs` gives the `IdActive` entries that they are applied to.

## Findings

| source | as written | input that shows it | evidently intended | confidence | as-written member | corrected member |
|---|---|---|---|---|---|---|
| org.starchartlabs.eclipse.template.dynamic/src/main/java/org/starchartlabs/eclipse/template/dynamic/resolver/EnclosedBeanFieldsResolver.java:124-126 | the field name and accessor text are passed as regex replacements, so `$` and `\` in them are replacement syntax (the same holds in `EnclosingBeanFieldsResolver.java` lines 94-96 and `EnclosedFieldsResolver.java` lines 115-117) | field `a$b` with accessor `getA$b()` and template `${name}`: Java throws on the group reference `$b` | the name inserted verbatim, giving `a$b` | not executed; high | JavaRegex.DollarFieldNameThrows | EnclosedBeanFields.NameVerbatim |
| org.starchartlabs.eclipse.template.dynamic/src/main/java/org/starchartlabs/eclipse/template/dynamic/resolver/EnclosedBeanFieldsResolver.java:225-228 | the first character is used as a regex pattern and its upper-case form as the replacement (the same holds in `EnclosingBeanFieldsResolver.java` lines 152-155) | field `$x`: the pattern `$` matches the end of the name, and the replacement `$` is an incomplete group reference, so Java throws | only the first character upper-cased, the rest verbatim | not executed; high | JavaRegex.DollarFirstLetterThrows | Beans.Capitalize |
