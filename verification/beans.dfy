/**
 The "bean" pairing shared by both bean-field resolvers: which methods count
 as accessors, which fields count as booleans, how a field name is
 capitalised, and the insertion-ordered mapping from field name to the
 accessor call text that the resolvers substitute for `${getter}`.
 */
module Beans {
  import opened Options
  import opened Text
  import opened Members

  /** Type signatures of a Java boolean: primitive `boolean` and unresolved `Boolean`. */
  const BooleanSignatures: set<string> := {"Z", "QBoolean;"}

  /** A field is boolean when its type signature is literally one of `BooleanSignatures`. */
  predicate IsBooleanField(f: Field)
  {
    f.signature in BooleanSignatures
  }

  /** A method name of accessor shape: it starts with `get` or with `is`. */
  predicate IsAccessorName(n: string)
  {
    StartsWith(n, "get") || StartsWith(n, "is")
  }

  /** The type declares a method named `n` taking no parameters. */
  ghost predicate DeclaresNoArg(methods: seq<Method>, n: string)
  {
    exists i :: 0 <= i < |methods| && methods[i].parameterCount == 0 && methods[i].name == n
  }

  /** Whether one method is kept as a candidate accessor. */
  predicate IsCandidate(m: Method)
  {
    m.parameterCount == 0 && IsAccessorName(m.name)
  }

  /**
   The candidate accessor names: exactly the names of the methods that take no
   parameters and start with `get` or `is`.
   */
  function Candidates(methods: seq<Method>): (r: set<string>)
    ensures forall n :: n in r <==> IsAccessorName(n) && DeclaresNoArg(methods, n)
  {
    if methods == [] then {}
    else
      var rest := Candidates(methods[1..]);
      assert forall n :: DeclaresNoArg(methods, n) <==>
          (methods[0].parameterCount == 0 && methods[0].name == n) || DeclaresNoArg(methods[1..], n) by {
        forall n
          ensures DeclaresNoArg(methods, n) <==>
            (methods[0].parameterCount == 0 && methods[0].name == n) || DeclaresNoArg(methods[1..], n)
        {
          if DeclaresNoArg(methods, n) {
            var i :| 0 <= i < |methods| && methods[i].parameterCount == 0 && methods[i].name == n;
            if i > 0 {
              assert methods[1..][i - 1] == methods[i];
            }
          }
          if DeclaresNoArg(methods[1..], n) {
            var i :| 0 <= i < |methods[1..]| && methods[1..][i].parameterCount == 0 && methods[1..][i].name == n;
            assert methods[i + 1] == methods[1..][i];
          }
        }
      }
      (if IsCandidate(methods[0]) then {methods[0].name} else {}) + rest
  }

  /**
   `s` with its first character upper-cased and the rest verbatim; the empty
   string is returned unchanged.
   */
  function Capitalize(upper: char -> char, s: string): (r: string)
    ensures |r| == |s|
    ensures |s| > 0 ==> r[0] == upper(s[0])
    ensures forall i :: 1 <= i < |s| ==> r[i] == s[i]
  {
    if s == [] then s else [upper(s[0])] + s[1..]
  }

  /** The source's mechanism, replacing the first occurrence of the first character, upper-cases index 0. */
  lemma {:induction false} CapitalizeByReplaceFirst(upper: char -> char, s: string)
    requires |s| > 0
    ensures ReplaceFirst(s, s[..1], [upper(s[0])]) == Capitalize(upper, s)
  {
    assert OccursAt(s, s[..1], 0);
  }

  /** A name whose first character is already upper-case is left as it is. */
  lemma CapitalizeFixed(upper: char -> char, s: string)
    requires |s| > 0 ==> upper(s[0]) == s[0]
    ensures Capitalize(upper, s) == s
  {
  }

  /** Capitalising twice is capitalising once, when upper-casing an upper-case character changes nothing. */
  lemma {:induction false} CapitalizeIdempotent(upper: char -> char, s: string)
    requires forall c :: upper(upper(c)) == upper(c)
    ensures Capitalize(upper, Capitalize(upper, s)) == Capitalize(upper, s)
  {
    var once := Capitalize(upper, s);
    if |s| > 0 {
      CapitalizeFixed(upper, once);
    }
  }

  /** `"get" + Capitalize(name)`: the get-form accessor for a field. */
  function GetterName(upper: char -> char, name: string): string
  {
    "get" + Capitalize(upper, name)
  }

  /** `"is" + Capitalize(name)`: the is-form accessor for a boolean field. */
  function IsGetterName(upper: char -> char, name: string): string
  {
    "is" + Capitalize(upper, name)
  }

  /**
   The accessor call chosen for a field, stated over the declared methods:
   the get-form when a no-argument method of that name exists (whatever the
   field's type); otherwise, for a boolean field only, the is-form when it
   exists; otherwise none.
   */
  ghost function Accessor(upper: char -> char, methods: seq<Method>, f: Field): Option<string>
  {
    if DeclaresNoArg(methods, GetterName(upper, f.name)) then
      Some(GetterName(upper, f.name) + "()")
    else if IsBooleanField(f) && DeclaresNoArg(methods, IsGetterName(upper, f.name)) then
      Some(IsGetterName(upper, f.name) + "()")
    else
      None
  }

  /** The value is the call text of the get-form or is-form accessor of the key. */
  predicate IsAccessorCall(upper: char -> char, e: Entry)
  {
    e.value == GetterName(upper, e.key) + "()" || e.value == IsGetterName(upper, e.key) + "()"
  }

  /** The mapping entry one field contributes, looking accessors up in `lookup`. */
  function PairFor(upper: char -> char, lookup: set<string>, f: Field): (r: Option<Entry>)
    ensures r.Some? ==> r.value.key == f.name && IsAccessorCall(upper, r.value)
  {
    var getter := GetterName(upper, f.name);
    var isGetter := IsGetterName(upper, f.name);
    if getter in lookup then Some(Entry(f.name, getter + "()"))
    else if IsBooleanField(f) && isGetter in lookup then Some(Entry(f.name, isGetter + "()"))
    else None
  }

  /** The entries the fields contribute, in declaration order. */
  function Pairs(upper: char -> char, lookup: set<string>, fields: seq<Field>): (r: seq<Entry>)
    ensures |r| <= |fields|
    ensures forall k :: 0 <= k < |r| ==> IsAccessorCall(upper, r[k])
  {
    if fields == [] then []
    else
      match PairFor(upper, lookup, fields[0])
      case Some(e) => [e] + Pairs(upper, lookup, fields[1..])
      case None => Pairs(upper, lookup, fields[1..])
  }

  /**
   The bean mapping of a type: field name to accessor call text, in field
   declaration order, for the fields that have an accessor.
   */
  function BeanPairs(upper: char -> char, fields: seq<Field>, methods: seq<Method>): (r: seq<Entry>)
    ensures |r| <= |fields|
    ensures forall k :: 0 <= k < |r| ==> IsAccessorCall(upper, r[k])
  {
    Pairs(upper, Candidates(methods), fields)
  }

  /** The bean mapping of a two-field type: what each field contributes, in order. */
  lemma {:induction false} PairsOfTwo(upper: char -> char, lookup: set<string>, a: Field, b: Field)
    ensures Pairs(upper, lookup, [a, b]) == Contribution(PairFor(upper, lookup, a)) + Contribution(PairFor(upper, lookup, b))
  {
    assert [a, b][1..] == [b];
    assert [b][1..] == [];
  }

  /** The entries one field contributes: none, or the one `PairFor` gives. */
  function Contribution(o: Option<Entry>): (r: seq<Entry>)
    ensures |r| <= 1
  {
    if o.Some? then [o.value] else []
  }

  /** The candidate set holds the get-form of a name exactly when a no-argument method has that name. */
  lemma {:induction false} GetterCandidate(upper: char -> char, methods: seq<Method>, name: string)
    ensures GetterName(upper, name) in Candidates(methods) <==> DeclaresNoArg(methods, GetterName(upper, name))
  {
    assert StartsWith(GetterName(upper, name), "get");
  }

  /** The candidate set holds the is-form of a name exactly when a no-argument method has that name. */
  lemma {:induction false} IsGetterCandidate(upper: char -> char, methods: seq<Method>, name: string)
    ensures IsGetterName(upper, name) in Candidates(methods) <==> DeclaresNoArg(methods, IsGetterName(upper, name))
  {
    assert StartsWith(IsGetterName(upper, name), "is");
  }

  /** Looking accessors up among the candidates chooses what `Accessor` describes. */
  lemma {:induction false} PairForIsAccessor(upper: char -> char, methods: seq<Method>, f: Field)
    ensures PairFor(upper, Candidates(methods), f).Some? <==> Accessor(upper, methods, f).Some?
    ensures PairFor(upper, Candidates(methods), f).Some? ==>
      PairFor(upper, Candidates(methods), f).value == Entry(f.name, Accessor(upper, methods, f).value)
  {
    GetterCandidate(upper, methods, f.name);
    IsGetterCandidate(upper, methods, f.name);
  }

  /** Every entry of `Pairs` is the entry `PairFor` gives some field; `i` is that field's index. */
  lemma {:induction false} PairsSound(upper: char -> char, lookup: set<string>, fields: seq<Field>, k: nat)
    returns (i: nat)
    requires k < |Pairs(upper, lookup, fields)|
    ensures i < |fields| && PairFor(upper, lookup, fields[i]) == Some(Pairs(upper, lookup, fields)[k])
    decreases |fields|
  {
    var r := Pairs(upper, lookup, fields);
    var rest := Pairs(upper, lookup, fields[1..]);
    var first := PairFor(upper, lookup, fields[0]);
    if first.Some? && k == 0 {
      i := 0;
    } else {
      var k' := if first.Some? then k - 1 else k;
      assert r[k] == rest[k'];
      var j := PairsSound(upper, lookup, fields[1..], k');
      assert fields[j + 1] == fields[1..][j];
      i := j + 1;
    }
  }

  /** Every entry `PairFor` gives a field is an entry of `Pairs`. */
  lemma {:induction false} PairsComplete(upper: char -> char, lookup: set<string>, fields: seq<Field>, i: nat)
    requires i < |fields| && PairFor(upper, lookup, fields[i]).Some?
    ensures PairFor(upper, lookup, fields[i]).value in Pairs(upper, lookup, fields)
    decreases |fields|
  {
    if i > 0 {
      assert fields[1..][i - 1] == fields[i];
      PairsComplete(upper, lookup, fields[1..], i - 1);
    }
  }

  /** Every entry of the bean mapping comes from a declared field and carries that field's accessor. */
  lemma BeanPairsSound(upper: char -> char, fields: seq<Field>, methods: seq<Method>, k: nat)
    requires k < |BeanPairs(upper, fields, methods)|
    ensures exists i :: (0 <= i < |fields| && fields[i].name == BeanPairs(upper, fields, methods)[k].key
                         && Accessor(upper, methods, fields[i]) == Some(BeanPairs(upper, fields, methods)[k].value))
  {
    var lookup := Candidates(methods);
    var r := BeanPairs(upper, fields, methods);
    var i := PairsSound(upper, lookup, fields, k);
    PairForIsAccessor(upper, methods, fields[i]);
  }

  /** Every field that has an accessor appears in the bean mapping with that accessor. */
  lemma BeanPairsComplete(upper: char -> char, fields: seq<Field>, methods: seq<Method>, i: nat)
    requires i < |fields| && Accessor(upper, methods, fields[i]).Some?
    ensures Entry(fields[i].name, Accessor(upper, methods, fields[i]).value) in BeanPairs(upper, fields, methods)
  {
    PairForIsAccessor(upper, methods, fields[i]);
    PairsComplete(upper, Candidates(methods), fields, i);
  }

  /** The keys of the bean mapping are field names, in declaration order, each field at most once. */
  lemma {:induction false} BeanPairsOrdered(upper: char -> char, fields: seq<Field>, methods: seq<Method>)
    ensures IsSubsequence(Keys(BeanPairs(upper, fields, methods)), Names(fields))
    decreases |fields|
  {
    var lookup := Candidates(methods);
    var r := BeanPairs(upper, fields, methods);
    if fields != [] {
      var rest := BeanPairs(upper, fields[1..], methods);
      BeanPairsOrdered(upper, fields[1..], methods);
      assert Names(fields)[1..] == Names(fields[1..]);
      match PairFor(upper, lookup, fields[0])
      case Some(e) =>
        assert Keys(r)[1..] == Keys(rest);
      case None =>
        assert r == rest;
    }
  }

  /** With distinct field names (as Java guarantees) the bean mapping has distinct keys. */
  lemma BeanPairsDistinctKeys(upper: char -> char, fields: seq<Field>, methods: seq<Method>)
    requires Distinct(Names(fields))
    ensures Distinct(Keys(BeanPairs(upper, fields, methods)))
  {
    BeanPairsOrdered(upper, fields, methods);
    SubsequenceDistinct(Keys(BeanPairs(upper, fields, methods)), Names(fields));
  }

  /** A field for which `PairFor` gives nothing has no entry in `Pairs`, when field names are distinct. */
  lemma PairsOmits(upper: char -> char, lookup: set<string>, fields: seq<Field>, i: nat)
    requires Distinct(Names(fields))
    requires i < |fields| && PairFor(upper, lookup, fields[i]).None?
    ensures fields[i].name !in Keys(Pairs(upper, lookup, fields))
  {
    var r := Pairs(upper, lookup, fields);
    if fields[i].name in Keys(r) {
      var k :| 0 <= k < |r| && Keys(r)[k] == fields[i].name;
      var j := PairsSound(upper, lookup, fields, k);
      assert false;
    }
  }

  /** A field without an accessor has no entry in the bean mapping, when field names are distinct. */
  lemma {:induction false} BeanPairsOmits(upper: char -> char, fields: seq<Field>, methods: seq<Method>, i: nat)
    requires Distinct(Names(fields))
    requires i < |fields| && Accessor(upper, methods, fields[i]).None?
    ensures fields[i].name !in Keys(BeanPairs(upper, fields, methods))
  {
    PairForIsAccessor(upper, methods, fields[i]);
    PairsOmits(upper, Candidates(methods), fields, i);
  }
}
