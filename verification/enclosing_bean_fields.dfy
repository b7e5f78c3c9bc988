/**
 The older bean-field template variable, with parameters
 `(template, separator, newline)`: the same bean pairing and line expansion
 as `enclosed_bean_fields`, but the separator is prefixed with `"\n"` when the
 flag reads as true, and `${newline}` is not recognised.
 */
module EnclosingBeanFields {
  import opened Options
  import opened Text
  import opened Members
  import opened Beans
  import opened Placeholders
  import EnclosedBeanFields

  /** Upper-cases the ASCII letters `a`..`z` and leaves every other character alone. */
  function AsciiUpper(c: char): (r: char)
    ensures 'a' <= c <= 'z' ==> r as int == c as int - 32
    ensures !('a' <= c <= 'z') ==> r == c
  {
    if 'a' <= c <= 'z' then (c as int - 32) as char else c
  }

  /** Same length, and each pair of characters equal or equal after upper-casing. */
  predicate EqualsIgnoreCase(a: string, b: string)
  {
    |a| == |b| && forall i :: 0 <= i < |a| ==> a[i] == b[i] || AsciiUpper(a[i]) == AsciiUpper(b[i])
  }

  /** `Boolean.valueOf`: true exactly for `"true"` in any mix of letter cases. */
  predicate ParseBoolean(s: string)
  {
    EqualsIgnoreCase(s, "true")
  }

  /** The strings read as true are the sixteen spellings of `true` with each letter in either case. */
  lemma {:induction false} ParseBooleanSpellings(s: string)
    ensures ParseBoolean(s) <==>
      |s| == 4 && s[0] in "tT" && s[1] in "rR" && s[2] in "uU" && s[3] in "eE"
  {
    if |s| == 4 {
      assert AsciiUpper('t') == 'T' && AsciiUpper('r') == 'R' && AsciiUpper('u') == 'U' && AsciiUpper('e') == 'E';
      forall i | 0 <= i < 4
        ensures s[i] == "true"[i] || AsciiUpper(s[i]) == AsciiUpper("true"[i])
            <==> s[i] == "true"[i] || s[i] == "TRUE"[i]
      {
        if 'a' <= s[i] <= 'z' {
          assert AsciiUpper(s[i]) as int == s[i] as int - 32;
        }
      }
    }
  }

  /** The separator actually placed between lines: `"\n"` in front when the flag reads as true. */
  function FlagSeparator(separator: string, flag: string): (r: string)
    ensures ParseBoolean(flag) ==> |r| == |separator| + 1 && r[0] == '\n' && r[1..] == separator
    ensures !ParseBoolean(flag) ==> r == separator
  {
    if ParseBoolean(flag) then "\n" + separator else separator
  }

  /**
   Resolution of the variable: not applicable (`None`) unless there are
   exactly three parameters; otherwise the bean lines joined with the flag
   separator — the empty string when no field has an accessor, the single
   line when exactly one has.
   */
  function ResolveAll(platform: Platform, fields: seq<Field>, methods: seq<Method>, params: seq<string>)
    : (r: Option<string>)
    ensures r.None? <==> |params| != 3
    ensures |params| == 3 && BeanPairs(platform.upper, fields, methods) == [] ==> r == Some("")
    ensures |params| == 3 && |BeanPairs(platform.upper, fields, methods)| == 1 ==>
      r == Some(EnclosedBeanFields.ExpandBean(params[0], BeanPairs(platform.upper, fields, methods)[0]))
    ensures |params| == 3 ==>
      |r.value| == TotalLength(EnclosedBeanFields.BeanLines(params[0], BeanPairs(platform.upper, fields, methods)))
                   + Gaps(|BeanPairs(platform.upper, fields, methods)|) * |FlagSeparator(params[1], params[2])|
  {
    if |params| == 3 then
      var template := params[0];
      var separator := FlagSeparator(params[1], params[2]);
      Some(Join(EnclosedBeanFields.BeanLines(template, BeanPairs(platform.upper, fields, methods)), separator))
    else
      None
  }

  /**
   With a flag that reads as false, the older variable gives what
   `enclosed_bean_fields` gives for the same template and a separator without
   `${newline}`.
   */
  lemma FlagFalseAgrees(platform: Platform, fields: seq<Field>, methods: seq<Method>,
                        template: string, separator: string, flag: string)
    requires !ParseBoolean(flag) && !Occurs(separator, NewlinePlaceholder)
    ensures ResolveAll(platform, fields, methods, [template, separator, flag])
      == EnclosedBeanFields.ResolveAll(platform, fields, methods, [template, separator])
  {
  }

  /**
   With a flag that reads as true, the older variable gives what
   `enclosed_bean_fields` gives with `${newline}` in front of the separator,
   on a platform whose line separator is `"\n"`.
   */
  lemma {:induction false} FlagTrueAgrees(platform: Platform, fields: seq<Field>, methods: seq<Method>,
                       template: string, separator: string, flag: string)
    requires ParseBoolean(flag) && !Occurs(separator, NewlinePlaceholder)
    requires platform.lineSeparator == "\n"
    ensures ResolveAll(platform, fields, methods, [template, separator, flag])
      == EnclosedBeanFields.ResolveAll(platform, fields, methods, [template, NewlinePlaceholder + separator])
  {
    SeparatorLeadingNewline("\n", separator);
  }

  /**
   For every input, the older variable is `enclosed_bean_fields` run with the
   flag separator on a platform whose line separator is `${newline}` itself, so
   that a `${newline}` in the separator stays as it is. The contents for any
   number of bean fields follow from `EnclosedBeanFields.ResolveAllUnfolds`.
   */
  lemma {:induction false} OlderIsNewerWithLiteralNewline(platform: Platform, fields: seq<Field>, methods: seq<Method>,
                                                          template: string, separator: string, flag: string)
    ensures ResolveAll(platform, fields, methods, [template, separator, flag])
      == EnclosedBeanFields.ResolveAll(platform.(lineSeparator := NewlinePlaceholder), fields, methods,
                                       [template, FlagSeparator(separator, flag)])
  {
    ReplaceAllSelf(FlagSeparator(separator, flag), NewlinePlaceholder);
  }

  /**
   `${newline}` has no meaning here: a separator `${newline}` is placed
   between the lines literally (given here for two bean fields).
   */
  lemma {:induction false} NewlineNotRecognised(platform: Platform, fields: seq<Field>, methods: seq<Method>, template: string)
    requires |BeanPairs(platform.upper, fields, methods)| == 2
    ensures var pairs := BeanPairs(platform.upper, fields, methods);
      ResolveAll(platform, fields, methods, [template, NewlinePlaceholder, "false"])
      == Some(EnclosedBeanFields.ExpandBean(template, pairs[0]) + NewlinePlaceholder
              + EnclosedBeanFields.ExpandBean(template, pairs[1]))
  {
    var pairs := BeanPairs(platform.upper, fields, methods);
    var lines := EnclosedBeanFields.BeanLines(template, pairs);
    assert !ParseBoolean("false");
    assert lines[1..] == [lines[1]];
  }
}
