/** A dictionary of lists filled entry by entry, as both dictionary loaders do:
    `if k not in d: d[k] = [v]` / `else: d[k].append(v)`. */
module Multimap {

  type Dict = map<string, seq<string>>

  /** d after appending v to the list under k (creating the list if k is new). */
  function Add(d: Dict, k: string, v: string): Dict {
    d[k := (if k in d then d[k] else []) + [v]]
  }

  /** The dictionary after adding the (key, value) entries in order, starting from {}. */
  function Grouped(es: seq<(string, string)>): Dict {
    if es == [] then map[]
    else Add(Grouped(es[..|es| - 1]), es[|es| - 1].0, es[|es| - 1].1)
  }

  lemma GroupedSnoc(es: seq<(string, string)>, k: string, v: string)
    ensures Grouped(es + [(k, v)]) == Add(Grouped(es), k, v)
  {
    assert (es + [(k, v)])[..|es|] == es;
  }

  /** The values of the entries whose key is k, in entry order. */
  function ValuesFor(es: seq<(string, string)>, k: string): (vs: seq<string>)
    ensures forall v :: v in vs <==> exists i :: 0 <= i < |es| && es[i] == (k, v)
  {
    if es == [] then []
    else
      var last := es[|es| - 1];
      assert forall i :: 0 <= i < |es| - 1 ==> es[..|es| - 1][i] == es[i];
      ValuesFor(es[..|es| - 1], k) + (if last.0 == k then [last.1] else [])
  }

  /** The grouped dictionary holds exactly the keys that have values, each with all of
      its values in entry order: duplicates are kept and nothing is lost. */
  lemma {:induction false} GroupedSpec(es: seq<(string, string)>)
    ensures forall k :: k in Grouped(es) <==> ValuesFor(es, k) != []
    ensures forall k :: k in Grouped(es) ==> Grouped(es)[k] == ValuesFor(es, k)
  {
    if es != [] {
      GroupedSpec(es[..|es| - 1]);
    }
  }
}
