/**
 The four placeholders the template variables recognise, and the
 `${newline}` handling of a separator parameter shared by the two-parameter
 resolvers.
 */
module Placeholders {
  import opened Text

  /** Stands for the field name inside a template. */
  const NamePlaceholder: string := "${name}"
  /** Stands for the accessor call (with parentheses) inside a bean template. */
  const GetterPlaceholder: string := "${getter}"
  /** Stands for the field's simple type name inside a field template. */
  const TypePlaceholder: string := "${type}"
  /** Stands for the platform line separator inside a separator. */
  const NewlinePlaceholder: string := "${newline}"

  /** The separator parameter with every `${newline}` replaced by the platform line separator. */
  function Separator(lineSeparator: string, separator: string): (r: string)
    ensures !Occurs(separator, NewlinePlaceholder) ==> r == separator
  {
    ReplaceAll(separator, NewlinePlaceholder, lineSeparator)
  }

  /** A leading `${newline}` becomes the line separator, and the rest is handled as before. */
  lemma {:induction false} SeparatorLeadingNewline(lineSeparator: string, separator: string)
    ensures Separator(lineSeparator, NewlinePlaceholder + separator)
      == lineSeparator + Separator(lineSeparator, separator)
  {
    ReplaceAllLeading(NewlinePlaceholder, separator, lineSeparator);
  }

  /**
   The text matched by a regex made only of literal characters, each possibly
   escaped with a backslash (`\c` matches `c`), as the resolvers write their
   placeholder patterns.
   */
  function LiteralPattern(regex: string): (r: string)
    ensures |r| <= |regex|
  {
    if regex == [] then []
    else if regex[0] == '\\' && |regex| >= 2 then [regex[1]] + LiteralPattern(regex[2..])
    else [regex[0]] + LiteralPattern(regex[1..])
  }

  /** Characters without a backslash are matched as they are, before whatever follows. */
  lemma {:induction false} LiteralPatternPlainPrefix(w: string, rest: string)
    requires forall i :: 0 <= i < |w| ==> w[i] != '\\'
    ensures LiteralPattern(w + rest) == w + LiteralPattern(rest)
    decreases |w|
  {
    if w == [] {
      assert w + rest == rest;
    } else {
      assert (w + rest)[0] == w[0] && (w + rest)[1..] == w[1..] + rest;
      assert forall i :: 0 <= i < |w[1..]| ==> w[1..][i] == w[i + 1];
      LiteralPatternPlainPrefix(w[1..], rest);
      assert w == [w[0]] + w[1..];
    }
  }

  /** `\$\{w\}` matches `${w}` for a word `w` without backslashes. */
  lemma {:induction false} EscapedPlaceholder(w: string)
    requires forall i :: 0 <= i < |w| ==> w[i] != '\\'
    ensures LiteralPattern(@"\$\{" + w + @"\}") == "${" + w + "}"
  {
    var close := @"\}";
    var p := @"\$\{" + w + close;
    assert p == ['\\', '$'] + (['\\', '{'] + (w + close));
    assert p[2..] == ['\\', '{'] + (w + close);
    assert p[2..][2..] == w + close;
    LiteralPatternPlainPrefix(w, close);
    assert LiteralPattern(close) == "}" by {
      assert close[2..] == [];
    }
    assert "${" + w + "}" == ['$'] + (['{'] + (w + "}"));
  }

  /**
   The escaped patterns of the resolvers, `\$\{name\}`, `\$\{getter\}`,
   `\$\{type\}` and `\$\{newline\}`, match exactly the four placeholder texts.
   */
  lemma {:induction false} PlaceholderPatterns()
    ensures LiteralPattern(@"\$\{" + "name" + @"\}") == NamePlaceholder
    ensures LiteralPattern(@"\$\{" + "getter" + @"\}") == GetterPlaceholder
    ensures LiteralPattern(@"\$\{" + "type" + @"\}") == TypePlaceholder
    ensures LiteralPattern(@"\$\{" + "newline" + @"\}") == NewlinePlaceholder
  {
    EscapedPlaceholder("name");
    EscapedPlaceholder("getter");
    EscapedPlaceholder("type");
    EscapedPlaceholder("newline");
  }
}
