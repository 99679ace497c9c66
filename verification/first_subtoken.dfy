/** Picking one prediction per word from per-position predictions, as both annotation
    scripts do (data_augment/model/evaluate.py, data_augment/model/annotate_hinglish.py):
    walking the positions in order, a word index seen for the first time records the
    predictions at that position, positions without a word are skipped, and later
    sub-tokens of a word never overwrite. Python dictionaries remember the order in which
    keys were inserted; that order is returned explicitly. */
module FirstSubtoken {
  import opened Common

  /** What the tokenizer and the parser give for one list of words: the word index of each
      position (None for special tokens and padding) and the predicted POS and dependency
      ids at each position, one prediction per position. */
  datatype Output = Output(wordIds: seq<Option<nat>>, posPreds: seq<int>, depPreds: seq<int>)

  type Tagged = o: Output | |o.posPreds| == |o.wordIds| && |o.depPreds| == |o.wordIds|
    witness Output([], [], [])

  /** The tokenizer and the parser applied to a list of words. */
  type Tagger = seq<string> -> Tagged

  /** Reference definition: the first of the first n positions that carries word k. */
  function FirstAt(w: seq<Option<nat>>, k: nat, n: nat): (r: Option<nat>)
    requires n <= |w|
    ensures r.Some? ==> r.value < n && w[r.value] == Some(k) && forall j :: 0 <= j < r.value ==> w[j] != Some(k)
    ensures r.None? ==> forall j :: 0 <= j < n ==> w[j] != Some(k)
  {
    if n == 0 then None
    else
      match FirstAt(w, k, n - 1)
      case Some(i) => Some(i)
      case None => if w[n - 1] == Some(k) then Some(n - 1) else None
  }

  /** pred_pos (or pred_dep) after the first n positions. */
  function Firsts(w: seq<Option<nat>>, p: seq<int>, n: nat): map<nat, int>
    requires n <= |w| && n <= |p|
  {
    if n == 0 then map[]
    else
      var m := Firsts(w, p, n - 1);
      if w[n - 1].Some? && w[n - 1].value !in m then m[w[n - 1].value := p[n - 1]] else m
  }

  /** The keys of pred_pos in insertion order after the first n positions. */
  function Order(w: seq<Option<nat>>, n: nat): seq<nat>
    requires n <= |w|
  {
    if n == 0 then []
    else
      var o := Order(w, n - 1);
      if w[n - 1].Some? && w[n - 1].value !in o then o + [w[n - 1].value] else o
  }

  /** A word has a prediction exactly when some position carries it, and the prediction is
      the one at its first position. */
  lemma {:induction false} FirstsSpec(w: seq<Option<nat>>, p: seq<int>, n: nat)
    requires n <= |w| && n <= |p|
    ensures forall k :: k in Firsts(w, p, n) <==> FirstAt(w, k, n).Some?
    ensures forall k :: k in Firsts(w, p, n) ==> Firsts(w, p, n)[k] == p[FirstAt(w, k, n).value]
  {
    if n > 0 {
      FirstsSpec(w, p, n - 1);
    }
  }

  /** The insertion order holds every word that some position carries, once, ordered by
      the word's first position. */
  lemma {:induction false} OrderSpec(w: seq<Option<nat>>, n: nat)
    requires n <= |w|
    ensures forall k :: k in Order(w, n) <==> FirstAt(w, k, n).Some?
    ensures forall i, j :: 0 <= i < j < |Order(w, n)| ==>
      FirstAt(w, Order(w, n)[i], n).value < FirstAt(w, Order(w, n)[j], n).value
  {
    if n > 0 {
      OrderSpec(w, n - 1);
      var o := Order(w, n - 1);
      forall i | 0 <= i < |o|
        ensures FirstAt(w, o[i], n) == FirstAt(w, o[i], n - 1)
      {
        assert o[i] in o;
      }
    }
  }

  /** The word indices that some position carries. */
  function WordsSeen(w: seq<Option<nat>>): set<nat> {
    set i | 0 <= i < |w| && w[i].Some? :: w[i].value
  }

  function Elems(s: seq<nat>): set<nat> {
    set x | x in s
  }

  lemma {:induction false} DistinctCard(s: seq<nat>)
    requires forall i, j :: 0 <= i < j < |s| ==> s[i] != s[j]
    ensures |Elems(s)| == |s|
  {
    if s != [] {
      var init := s[..|s| - 1];
      DistinctCard(init);
      var last := s[|s| - 1];
      assert s == init + [last];
      assert last !in Elems(init);
      assert Elems(s) == Elems(init) + {last};
    }
  }

  /** One key per distinct word index seen: the dictionary has as many entries as there
      are distinct non-None word ids. */
  lemma OrderCount(w: seq<Option<nat>>)
    ensures |Order(w, |w|)| == |WordsSeen(w)|
  {
    var o := Order(w, |w|);
    OrderSpec(w, |w|);
    forall i, j | 0 <= i < j < |o| ensures o[i] != o[j] {
      assert FirstAt(w, o[i], |w|).value < FirstAt(w, o[j], |w|).value;
    }
    DistinctCard(o);
    forall k ensures k in Elems(o) <==> k in WordsSeen(w) {
      if k in WordsSeen(w) {
        var i :| 0 <= i < |w| && w[i].Some? && w[i].value == k;
        assert FirstAt(w, k, |w|).Some?;
      }
    }
    assert Elems(o) == WordsSeen(w);
  }

  /** The dictionary-filling loop: pred_pos and pred_dep, and the order of their keys. */
  method Aggregate(t: Tagged) returns (predPos: map<nat, int>, predDep: map<nat, int>, keys: seq<nat>)
    ensures predPos == Firsts(t.wordIds, t.posPreds, |t.wordIds|)
    ensures predDep == Firsts(t.wordIds, t.depPreds, |t.wordIds|)
    ensures keys == Order(t.wordIds, |t.wordIds|)
  {
    predPos, predDep, keys := map[], map[], [];
    for idx := 0 to |t.wordIds|
      invariant predPos == Firsts(t.wordIds, t.posPreds, idx)
      invariant predDep == Firsts(t.wordIds, t.depPreds, idx)
      invariant keys == Order(t.wordIds, idx)
    {
      FirstsSpec(t.wordIds, t.posPreds, idx);
      FirstsSpec(t.wordIds, t.depPreds, idx);
      OrderSpec(t.wordIds, idx);
      var wordIdx := t.wordIds[idx];
      if wordIdx.None? {
        continue;
      }
      if wordIdx.value !in predPos {
        predPos := predPos[wordIdx.value := t.posPreds[idx]];
        predDep := predDep[wordIdx.value := t.depPreds[idx]];
        keys := keys + [wordIdx.value];
      }
    }
  }
}
