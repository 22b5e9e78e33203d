/**
 * Template substitution (`Generator.replaceTemplateWithName`): every entry of
 * the replacement table, in iteration order, is applied to the template text
 * as a global literal replacement.
 */
module Substitution {
  import opened Text
  import opened OrderedMap

  /** The left fold of `ReplaceAll` over the entries, first entry first. */
  function Substitute(template: string, replacements: Entries): string
    decreases |replacements|
  {
    if replacements == [] then template
    else Substitute(ReplaceAll(template, replacements[0].0, replacements[0].1), replacements[1..])
  }

  /** Applying one more entry at the end of the table is one more replacement on the result. */
  lemma {:induction false} SubstituteSnoc(template: string, replacements: Entries, key: string, value: string)
    ensures Substitute(template, replacements + [(key, value)])
         == ReplaceAll(Substitute(template, replacements), key, value)
    decreases |replacements|
  {
    if replacements == [] {
      assert [] + [(key, value)] == [(key, value)];
    } else {
      var first := ReplaceAll(template, replacements[0].0, replacements[0].1);
      assert (replacements + [(key, value)])[1..] == replacements[1..] + [(key, value)];
      SubstituteSnoc(first, replacements[1..], key, value);
    }
  }

  /** Substituting with a concatenated table is substituting with each part in turn. */
  lemma {:induction false} SubstituteAppend(template: string, a: Entries, b: Entries)
    ensures Substitute(template, a + b) == Substitute(Substitute(template, a), b)
    decreases |a|
  {
    if a == [] {
      assert a + b == b;
    } else {
      assert (a + b)[1..] == a[1..] + b;
      SubstituteAppend(ReplaceAll(template, a[0].0, a[0].1), a[1..], b);
    }
  }

  /** A template that contains none of the keys comes back unchanged. */
  lemma {:induction false} SubstituteWithoutKeys(template: string, replacements: Entries)
    requires forall i :: 0 <= i < |replacements| ==> !Occurs(replacements[i].0, template)
    ensures Substitute(template, replacements) == template
    decreases |replacements|
  {
    if replacements != [] {
      ReplaceAllAbsent(template, replacements[0].0, replacements[0].1);
      SubstituteWithoutKeys(template, replacements[1..]);
    }
  }

  /** Values that share no character with `key` (and are not empty, unless `key` is one character). */
  predicate ForeignValues(replacements: Entries, key: string)
  {
    forall i :: 0 <= i < |replacements| ==>
      SharesNoChar(replacements[i].1, key) && (|key| == 1 || replacements[i].1 != [])
  }

  /** Substitution with values foreign to `key` cannot create an occurrence of `key`. */
  lemma {:induction false} SubstituteKeepsAbsent(template: string, replacements: Entries, key: string)
    requires key != []
    requires forall i :: 0 <= i < |replacements| ==> replacements[i].0 != []
    requires ForeignValues(replacements, key)
    requires !Occurs(key, template)
    ensures !Occurs(key, Substitute(template, replacements))
    decreases |replacements|
  {
    if replacements != [] {
      ReplaceAllKeepsAbsent(template, replacements[0].0, replacements[0].1, key);
      SubstituteKeepsAbsent(ReplaceAll(template, replacements[0].0, replacements[0].1), replacements[1..], key);
    }
  }

  /**
   * When the value of key `j` and every later value share no character with
   * that key (and are not empty, unless the key is one character), and key
   * `j` and the later keys are not empty, key `j` is not left in the
   * substituted text. The entries before `j` may be anything: whatever they
   * leave, replacing key `j` removes every occurrence of it.
   */
  lemma {:induction false} SubstituteLeavesNoKey(template: string, replacements: Entries, j: nat)
    requires j < |replacements|
    requires forall i :: j <= i < |replacements| ==> replacements[i].0 != []
    requires ForeignValues(replacements[j..], replacements[j].0)
    ensures !Occurs(replacements[j].0, Substitute(template, replacements))
  {
    var (key, value) := replacements[j];
    var before, after := replacements[..j], replacements[j + 1..];
    assert replacements == before + [(key, value)] + after;
    assert replacements[j..][0] == (key, value);
    SubstituteAppend(template, before + [(key, value)], after);
    SubstituteSnoc(template, before, key, value);
    ReplaceAllLeavesNoKey(Substitute(template, before), key, value);
    forall i | 0 <= i < |after|
      ensures after[i].0 != [] && SharesNoChar(after[i].1, key) && (|key| == 1 || after[i].1 != [])
    {
      assert after[i] == replacements[j + 1 + i] == replacements[j..][i + 1];
    }
    SubstituteKeepsAbsent(Substitute(template, before + [(key, value)]), after, key);
  }

  /**
   * `replaceTemplateWithName`: the accumulator starts at the template and
   * each entry, in iteration order, replaces all occurrences of its key.
   * The table itself is a value and is not changed.
   */
  method ReplaceTemplateWithName(template: string, replacements: Entries) returns (r: string)
    ensures r == Substitute(template, replacements)
    ensures replacements == [] ==> r == template
  {
    r := template;
    for i := 0 to |replacements|
      invariant r == Substitute(template, replacements[..i])
    {
      assert replacements[..i + 1] == replacements[..i] + [replacements[i]];
      SubstituteSnoc(template, replacements[..i], replacements[i].0, replacements[i].1);
      r := ReplaceAll(r, replacements[i].0, replacements[i].1);
    }
    assert replacements[..|replacements|] == replacements;
  }
}
