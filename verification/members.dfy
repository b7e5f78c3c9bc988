/**
 The members of the enclosing Java type, as the resolvers see them, and the
 host services the resolvers consult.
 */
module Members {

  /** A declared field: its name and its JDT type signature (`"Z"`, `"QBoolean;"`, `"I"`, ...). */
  datatype Field = Field(name: string, signature: string)

  /** A declared method: its name and how many parameters it takes. */
  datatype Method = Method(name: string, parameterCount: nat)

  /** One entry of an insertion-ordered field mapping: the field name and its substitution value. */
  datatype Entry = Entry(key: string, value: string)

  /**
   What the resolvers take from their host: the platform line separator
   (`System.lineSeparator()`), upper-casing of one character (`toUpperCase`
   on a one-character string) and the JDT rendering of a type signature as a
   simple type name (`Signature.getSignatureSimpleName`). All three are left
   uninterpreted.
   */
  datatype Platform = Platform(
    lineSeparator: string,
    upper: char -> char,
    simpleName: string -> string)

  /** The field names, in declaration order. */
  function Names(fields: seq<Field>): (r: seq<string>)
    ensures |r| == |fields|
    ensures forall i :: 0 <= i < |fields| ==> r[i] == fields[i].name
  {
    if fields == [] then [] else [fields[0].name] + Names(fields[1..])
  }

  /** The keys of a mapping, in insertion order. */
  function Keys(entries: seq<Entry>): (r: seq<string>)
    ensures |r| == |entries|
    ensures forall k :: 0 <= k < |entries| ==> r[k] == entries[k].key
  {
    if entries == [] then [] else [entries[0].key] + Keys(entries[1..])
  }

  /** No two elements of `xs` are equal (Java forbids two fields of one type with the same name). */
  ghost predicate Distinct(xs: seq<string>)
  {
    forall i, j :: 0 <= i < j < |xs| ==> xs[i] != xs[j]
  }

  /** `xs` is `ys` with some elements left out, the rest kept in order. */
  ghost predicate IsSubsequence(xs: seq<string>, ys: seq<string>)
    decreases |ys|
  {
    if xs == [] then true
    else if ys == [] then false
    else (xs[0] == ys[0] && IsSubsequence(xs[1..], ys[1..])) || IsSubsequence(xs, ys[1..])
  }

  /** Every element of a subsequence is an element of the sequence it was drawn from. */
  lemma {:induction false} SubsequenceMembers(xs: seq<string>, ys: seq<string>, k: nat)
    requires IsSubsequence(xs, ys) && k < |xs|
    ensures xs[k] in ys
    decreases |ys|
  {
    if xs[0] == ys[0] && IsSubsequence(xs[1..], ys[1..]) {
      if k > 0 {
        SubsequenceMembers(xs[1..], ys[1..], k - 1);
      }
    } else {
      SubsequenceMembers(xs, ys[1..], k);
    }
  }

  /** A subsequence of a sequence without repeats has no repeats either. */
  lemma {:induction false} SubsequenceDistinct(xs: seq<string>, ys: seq<string>)
    requires IsSubsequence(xs, ys) && Distinct(ys)
    ensures Distinct(xs)
    decreases |ys|
  {
    if xs == [] {
    } else if xs[0] == ys[0] && IsSubsequence(xs[1..], ys[1..]) {
      SubsequenceDistinct(xs[1..], ys[1..]);
      forall j | 0 < j < |xs|
        ensures xs[0] != xs[j]
      {
        SubsequenceMembers(xs[1..], ys[1..], j - 1);
      }
    } else {
      SubsequenceDistinct(xs, ys[1..]);
    }
  }
}
