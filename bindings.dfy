/**
 * Binding text for a component's inputs and outputs
 * (`generateBindings`, `generateInputs`, `generateOutputs`).
 */
module Bindings {
  import opened Wrappers

  /** The organisation prefix placed inside every binding entry. */
  const APP_PREFIX: string := "ei"

  /** The marker of an input (one-way) binding. */
  const INPUT_MARKER: string := "<"

  /** The marker of an output (callback) binding. */
  const OUTPUT_MARKER: string := "&"

  /** `'<element>': '<prefix>eiCamelFirstUp'`; `CamelFirstUp` is a fixed literal. */
  function Entry(element: string, prefix: string): string
  {
    "'" + element + "': '" + prefix + APP_PREFIX + "CamelFirstUp" + "'"
  }

  /** `Array.prototype.join`: the parts separated by `sep`. */
  function Join(parts: seq<string>, sep: string): string
  {
    if parts == [] then ""
    else if |parts| == 1 then parts[0]
    else parts[0] + sep + Join(parts[1..], sep)
  }

  /** `list.map(element => Entry(element, prefix))`. */
  function Entries(list: seq<string>, prefix: string): (es: seq<string>)
    ensures |es| == |list|
    ensures forall i :: 0 <= i < |list| ==> es[i] == Entry(list[i], prefix)
  {
    seq(|list|, i requires 0 <= i < |list| => Entry(list[i], prefix))
  }

  /**
   * `generateBindings(list, prefix)`: the empty string for an absent or empty
   * list, otherwise one entry per element, in order, joined by commas.
   */
  function GenerateBindings(list: Option<seq<string>>, prefix: string): (r: string)
    ensures r == "" <==> (list.None? || list.value == [])
  {
    if list.None? || |list.value| == 0 then ""
    else
      var entries := Entries(list.value, prefix);
      assert |Join(entries, ",")| >= |entries[0]| > 0;
      Join(entries, ",")
  }

  /** `generateInputs`: bindings with the input marker. */
  function GenerateInputs(inputList: Option<seq<string>>): string
  {
    GenerateBindings(inputList, INPUT_MARKER)
  }

  /** `generateOutputs`: bindings with the output marker. */
  function GenerateOutputs(outputList: Option<seq<string>>): string
  {
    GenerateBindings(outputList, OUTPUT_MARKER)
  }

  /** The text of an entry, written out; the literal tail is the same for every element. */
  lemma EntryText(element: string, prefix: string)
    ensures Entry(element, prefix) == "'" + element + "': '" + prefix + "eiCamelFirstUp'"
    ensures |Entry(element, prefix)| == |element| + |prefix| + 20
    ensures Entry(element, prefix)[|element| + 5..] == prefix + "eiCamelFirstUp'"
  {
  }

  lemma {:induction false} JoinSnoc(parts: seq<string>, sep: string, last: string)
    requires parts != []
    ensures Join(parts + [last], sep) == Join(parts, sep) + sep + last
    decreases |parts|
  {
    if |parts| == 1 {
      assert (parts + [last])[1..] == [last];
    } else {
      assert (parts + [last])[1..] == parts[1..] + [last];
      JoinSnoc(parts[1..], sep, last);
    }
  }

  /** A single element gives a single entry and no separator. */
  lemma BindingsSingle(element: string, prefix: string)
    ensures GenerateBindings(Some([element]), prefix) == Entry(element, prefix)
  {
  }

  /** A further element adds a comma and its entry at the end: order is kept, one entry each. */
  lemma BindingsSnoc(list: seq<string>, element: string, prefix: string)
    requires list != []
    ensures GenerateBindings(Some(list + [element]), prefix)
         == GenerateBindings(Some(list), prefix) + "," + Entry(element, prefix)
  {
    assert Entries(list + [element], prefix) == Entries(list, prefix) + [Entry(element, prefix)];
    JoinSnoc(Entries(list, prefix), ",", Entry(element, prefix));
  }

  /** Inputs are written with `<`: each element becomes `'x': '<eiCamelFirstUp'`. */
  lemma InputsText(list: seq<string>, element: string)
    ensures GenerateInputs(None) == "" && GenerateInputs(Some([])) == ""
    ensures GenerateInputs(Some([element])) == "'" + element + "': '<eiCamelFirstUp'"
    ensures list != [] ==>
      GenerateInputs(Some(list + [element])) == GenerateInputs(Some(list)) + ",'" + element + "': '<eiCamelFirstUp'"
  {
    if list != [] {
      BindingsSnoc(list, element, INPUT_MARKER);
    }
  }

  /** Outputs are written with `&`: each element becomes `'x': '&eiCamelFirstUp'`. */
  lemma OutputsText(list: seq<string>, element: string)
    ensures GenerateOutputs(None) == "" && GenerateOutputs(Some([])) == ""
    ensures GenerateOutputs(Some([element])) == "'" + element + "': '&eiCamelFirstUp'"
    ensures list != [] ==>
      GenerateOutputs(Some(list + [element])) == GenerateOutputs(Some(list)) + ",'" + element + "': '&eiCamelFirstUp'"
  {
    if list != [] {
      BindingsSnoc(list, element, OUTPUT_MARKER);
    }
  }
}
