/**
 The placeholder substitution as the resolvers write it: `String.replaceAll`
 with the field name or accessor text as the replacement. Java reads a
 replacement string as replacement syntax — `\c` stands for `c`, `$0` for
 the matched text, and any other `$` reference (the placeholder patterns
 have no groups), or a trailing `\` or `$`, throws. Because `$` is legal in
 Java identifiers, a field such as `a$b` makes the expansion throw instead of
 inserting the name. Capitalisation is written the same way, with
 `replaceFirst` and the first character as the pattern, which fails for a
 name starting with `$`. The rest of the model uses the literal
 substitution and the first-character capitalisation the template
 documentation describes.
 */
module JavaRegex {
  import opened Options
  import opened Text
  import opened Members
  import opened Placeholders
  import opened Beans
  import opened EnclosedBeanFields
  import EnclosedFields

  /** `s` without its leading `'0'` characters. */
  function DropZeros(s: string): (r: string)
    ensures |r| <= |s|
  {
    if s != [] && s[0] == '0' then DropZeros(s[1..]) else s
  }

  /**
   The text a replacement string stands for, when the match is `matched` and
   the pattern has no capturing groups; `None` where Java throws.
   */
  function Interpret(rep: string, matched: string): Option<string>
    decreases |rep|
  {
    if rep == [] then Some([])
    else if rep[0] == '\\' then
      if |rep| == 1 then None
      else
        match Interpret(rep[2..], matched)
        case None => None
        case Some(t) => Some([rep[1]] + t)
    else if rep[0] == '$' then
      if |rep| >= 2 && rep[1] == '0' then
        match Interpret(DropZeros(rep[2..]), matched)
        case None => None
        case Some(t) => Some(matched + t)
      else None
    else
      match Interpret(rep[1..], matched)
      case None => None
      case Some(t) => Some([rep[0]] + t)
  }

  /**
   `String.replaceAll(pat, rep)` for a pattern that matches only the literal
   text `pat`: the input unchanged when nothing matches; otherwise every
   occurrence replaced by what `rep` stands for, or `None` where Java throws.
   */
  function RegexReplaceAll(s: string, pat: string, rep: string): Option<string>
    requires |pat| > 0
  {
    if !Occurs(s, pat) then Some(s)
    else
      match Interpret(rep, pat)
      case None => None
      case Some(t) => Some(ReplaceAll(s, pat, t))
  }

  /** The line expansion of the bean resolvers as written, with `replaceAll` for both placeholders. */
  function ExpandBeanAsWritten(template: string, e: Entry): Option<string>
  {
    match RegexReplaceAll(template, NamePlaceholder, e.key)
    case None => None
    case Some(t) => RegexReplaceAll(t, GetterPlaceholder, e.value)
  }

  /** A replacement with neither `$` nor `\` in it. */
  predicate Plain(rep: string)
  {
    forall i :: 0 <= i < |rep| ==> rep[i] != '$' && rep[i] != '\\'
  }

  /** A plain replacement stands for itself. */
  lemma {:induction false} InterpretPlain(rep: string, matched: string)
    requires Plain(rep)
    ensures Interpret(rep, matched) == Some(rep)
    decreases |rep|
  {
    if rep != [] {
      assert rep[0] != '$' && rep[0] != '\\';
      assert Plain(rep[1..]) by {
        forall i | 0 <= i < |rep[1..]|
          ensures rep[1..][i] != '$' && rep[1..][i] != '\\'
        {
          assert rep[1..][i] == rep[i + 1];
        }
      }
      InterpretPlain(rep[1..], matched);
      assert rep == [rep[0]] + rep[1..];
    }
  }

  /** With a plain replacement, `replaceAll` is the literal substitution. */
  lemma RegexReplaceAllPlain(s: string, pat: string, rep: string)
    requires |pat| > 0 && Plain(rep)
    ensures RegexReplaceAll(s, pat, rep) == Some(ReplaceAll(s, pat, rep))
  {
    InterpretPlain(rep, pat);
  }

  /** For field names and accessors without `$` or `\`, the written expansion is the literal one. */
  lemma AsWrittenAgreesWhenPlain(template: string, e: Entry)
    requires Plain(e.key) && Plain(e.value)
    ensures ExpandBeanAsWritten(template, e) == Some(ExpandBean(template, e))
  {
    RegexReplaceAllPlain(template, NamePlaceholder, e.key);
    RegexReplaceAllPlain(ReplaceAll(template, NamePlaceholder, e.key), GetterPlaceholder, e.value);
  }

  /** The line expansion of `enclosed_fields` as written, with `replaceAll` for both placeholders. */
  function ExpandFieldAsWritten(template: string, e: Entry): Option<string>
  {
    match RegexReplaceAll(template, TypePlaceholder, e.value)
    case None => None
    case Some(t) => RegexReplaceAll(t, NamePlaceholder, e.key)
  }

  /** For field names and type names without `$` or `\`, the written field expansion is the literal one. */
  lemma {:induction false} FieldAsWrittenAgreesWhenPlain(template: string, e: Entry)
    requires Plain(e.key) && Plain(e.value)
    ensures ExpandFieldAsWritten(template, e) == Some(EnclosedFields.ExpandField(template, e))
  {
    RegexReplaceAllPlain(template, TypePlaceholder, e.value);
    RegexReplaceAllPlain(ReplaceAll(template, TypePlaceholder, e.value), NamePlaceholder, e.key);
  }

  /**
   The field `a$b` (a legal Java name, with accessor `getA$b`) and the
   template `${name}`: the written expansion throws, while the literal one
   gives the name.
   */
  lemma DollarFieldNameThrows()
    ensures ExpandBeanAsWritten(NamePlaceholder, Entry("a$b", "getA$b()")) == None
    ensures ExpandBean(NamePlaceholder, Entry("a$b", "getA$b()")) == "a$b"
  {
    assert OccursAt(NamePlaceholder, NamePlaceholder, 0);
    assert Interpret("$b", NamePlaceholder) == None;
    assert Interpret("a$b", NamePlaceholder) == None;
    var e := Entry("a$b", "getA$b()");
    assert !Occurs(e.key, GetterPlaceholder) by {
      forall i | 0 <= i <= |e.key|
        ensures !OccursAt(e.key, GetterPlaceholder, i)
      {
      }
    }
    NameVerbatim(e);
  }

  /**
   Capitalisation as written: `replaceFirst` with the first character as the
   pattern and its upper-case form as the replacement. Among the characters a
   Java identifier can start with, only `$` is a regex metacharacter: as a
   pattern it matches the empty text at the end of the name, and as a
   replacement it is an incomplete group reference, so Java throws (`None`).
   Any other first character matches itself at index 0.
   */
  function CapitalizeAsWritten(upper: char -> char, s: string): Option<string>
  {
    if s == [] then Some(s)
    else if s[0] == '$' then None
    else
      match Interpret([upper(s[0])], [s[0]])
      case None => None
      case Some(t) => Some(t + s[1..])
  }

  /**
   Where the first character is not `$` and its upper-case form is neither `$`
   nor `\`, the written capitalisation is `Capitalize`.
   */
  lemma CapitalizeAsWrittenAgrees(upper: char -> char, s: string)
    requires s != [] ==> s[0] != '$' && upper(s[0]) != '$' && upper(s[0]) != '\\'
    ensures CapitalizeAsWritten(upper, s) == Some(Capitalize(upper, s))
  {
    if s != [] {
      assert Plain([upper(s[0])]);
      InterpretPlain([upper(s[0])], [s[0]]);
    }
  }

  /**
   The field `$x` (a legal Java name): the written capitalisation throws, so
   the whole bean mapping fails, while `Capitalize` gives `$x` with its first
   character upper-cased.
   */
  lemma DollarFirstLetterThrows(upper: char -> char)
    ensures CapitalizeAsWritten(upper, "$x") == None
    ensures Capitalize(upper, "$x") == [upper('$')] + "x"
  {
  }
}
