/** The XNLI dataset tool (util/dataset/XNLI/all.py): label normalisation with the
    dropping of unknown labels, and the accuracy of a list of predictions. */
module XnliData {
  import opened Strings

  /** A label as the dataset stores it: a class name or a class number. */
  datatype Label = Name(name: string) | Class(n: int)

  /** One example; `gold` is the dataset's "label" field. */
  datatype Example = Example(premise: string, hypothesis: string, gold: Label)

  /** The class number of each known label name. */
  const LABEL_MAP: map<string, int> := map["entailment" := 0, "neutral" := 1, "contradiction" := 2]

  /** label_map.get(label, label): entailment, neutral and contradiction become the
      classes 0, 1 and 2; every other label, name or number, is kept as it is. */
  function Normalize(l: Label): (r: Label)
    ensures l == Name("entailment") ==> r == Class(0)
    ensures l == Name("neutral") ==> r == Class(1)
    ensures l == Name("contradiction") ==> r == Class(2)
    ensures r.Class? <==> l.Class? || l.name in {"entailment", "neutral", "contradiction"}
    ensures !(l.Name? && l.name in {"entailment", "neutral", "contradiction"}) ==> r == l
  {
    if l.Name? && l.name in LABEL_MAP then Class(LABEL_MAP[l.name]) else l
  }

  /** An example get_set keeps: its label is a number or a known name. */
  predicate Known(e: Example) {
    e.gold.Name? ==> e.gold.name in LABEL_MAP
  }

  /** The examples get_set returns: the known ones, in order, with normalised labels. */
  function Kept(file: seq<Example>): (r: seq<Example>)
    ensures |r| <= |file|
    ensures forall i :: 0 <= i < |r| ==> r[i].gold.Class?
  {
    if file == [] then []
    else
      var e := file[|file| - 1];
      Kept(file[..|file| - 1]) + (if Known(e) then [Example(e.premise, e.hypothesis, Normalize(e.gold))] else [])
  }

  /** get_set: the loop over the examples of the file. */
  method GetSet(file: seq<Example>) returns (dataset: seq<Example>)
    ensures dataset == Kept(file)
  {
    dataset := [];
    for i := 0 to |file|
      invariant dataset == Kept(file[..i])
    {
      assert file[..i + 1][..i] == file[..i];
      var example := file[i];
      var gold := example.gold;
      if gold.Name? && gold.name !in LABEL_MAP {
        continue;
      }
      dataset := dataset + [Example(example.premise, example.hypothesis, Normalize(gold))];
    }
    assert file[..|file|] == file;
  }

  /** Filtering works example by example: the result for a concatenation is the
      concatenation of the results, so the kept examples stay in input order. */
  lemma {:induction false} KeptAppend(a: seq<Example>, b: seq<Example>)
    ensures Kept(a + b) == Kept(a) + Kept(b)
    decreases |b|
  {
    if b == [] {
      assert a + b == a;
    } else {
      assert (a + b)[..|a + b| - 1] == a + b[..|b| - 1];
      KeptAppend(a, b[..|b| - 1]);
    }
  }

  /** One example is kept, with its premise and hypothesis unchanged and its label
      normalised, exactly when its label is a number or a known name. */
  lemma KeptSingle(e: Example)
    ensures Kept([e]) == if Known(e) then [Example(e.premise, e.hypothesis, Normalize(e.gold))] else []
  {
    assert [e][..0] == [];
  }

  /** Every kept label is a class number, and no more examples come out than went in;
      exactly as many when every label is known. */
  lemma {:induction false} KeptShape(file: seq<Example>)
    ensures forall i :: 0 <= i < |Kept(file)| ==> Kept(file)[i].gold.Class?
    ensures |Kept(file)| <= |file|
    ensures |Kept(file)| == |file| <==> forall i :: 0 <= i < |file| ==> Known(file[i])
  {
    if file != [] {
      var init := file[..|file| - 1];
      KeptShape(init);
      assert forall i :: 0 <= i < |init| ==> init[i] == file[i];
      if !Known(file[|file| - 1]) {
        assert |Kept(file)| < |file|;
      }
    }
  }

  // ---------------------------------------------------------------------------
  // evaluate

  /** The gold label matches the predicted class. */
  predicate Hit(p: int, g: Example) {
    g.gold == Class(p)
  }

  /** The number of hits among the first n (prediction, example) pairs. */
  function CorrectPrefix(pred: seq<int>, dataset: seq<Example>, n: nat): (c: nat)
    requires n <= |pred| && n <= |dataset|
    ensures c <= n
  {
    if n == 0 then 0 else CorrectPrefix(pred, dataset, n - 1) + (if Hit(pred[n - 1], dataset[n - 1]) then 1 else 0)
  }

  /** sum(1 for p, g in zip(pred, dataset) if p == g["label"]) */
  function Correct(pred: seq<int>, dataset: seq<Example>): (c: nat)
    ensures c <= |pred| && c <= |dataset|
    ensures c == Min(|pred|, |dataset|) <==> forall i :: 0 <= i < Min(|pred|, |dataset|) ==> Hit(pred[i], dataset[i])
  {
    CorrectPrefixAll(pred, dataset, Min(|pred|, |dataset|));
    CorrectPrefix(pred, dataset, Min(|pred|, |dataset|))
  }

  /** correct / total, or 0 on an empty dataset. */
  function Accuracy(pred: seq<int>, dataset: seq<Example>): (a: real)
    ensures 0.0 <= a <= 1.0
    ensures |dataset| == 0 ==> a == 0.0
  {
    if |dataset| > 0 then
      RatioOne(Correct(pred, dataset) as real, |dataset| as real);
      Correct(pred, dataset) as real / |dataset| as real
    else 0.0
  }

  lemma {:induction false} CorrectPrefixAll(pred: seq<int>, dataset: seq<Example>, n: nat)
    requires n <= |pred| && n <= |dataset|
    ensures CorrectPrefix(pred, dataset, n) == n <==> forall i :: 0 <= i < n ==> Hit(pred[i], dataset[i])
  {
    if n > 0 {
      CorrectPrefixAll(pred, dataset, n - 1);
    }
  }

  /** Predictions beyond the dataset's length are ignored. */
  lemma {:induction false} ExtraPredictionsIgnored(pred: seq<int>, extra: seq<int>, dataset: seq<Example>)
    requires |pred| >= |dataset|
    ensures Correct(pred + extra, dataset) == Correct(pred, dataset)
  {
    PrefixAgrees(pred, pred + extra, dataset, |dataset|);
  }

  lemma {:induction false} PrefixAgrees(p: seq<int>, q: seq<int>, dataset: seq<Example>, n: nat)
    requires n <= |p| && n <= |q| && n <= |dataset|
    requires forall i :: 0 <= i < n ==> p[i] == q[i]
    ensures CorrectPrefix(p, dataset, n) == CorrectPrefix(q, dataset, n)
  {
    if n > 0 {
      PrefixAgrees(p, q, dataset, n - 1);
    }
  }

  lemma RatioOne(c: real, t: real)
    requires 0.0 <= c <= t && t > 0.0
    ensures c / t <= 1.0
    ensures c / t == 1.0 <==> c == t
  {
    if c / t == 1.0 {
      assert c == (c / t) * t;
    }
  }

  /** The accuracy is a fraction between 0 and 1; it is 1 exactly when the dataset is
      non-empty, there is a prediction for every example and every prediction is right. */
  lemma AccuracyRange(pred: seq<int>, dataset: seq<Example>)
    ensures 0.0 <= Accuracy(pred, dataset) <= 1.0
    ensures Accuracy(pred, dataset) == 1.0 <==>
      |dataset| > 0 && |pred| >= |dataset| && forall i :: 0 <= i < |dataset| ==> Hit(pred[i], dataset[i])
  {
    var n := Min(|pred|, |dataset|);
    CorrectPrefixAll(pred, dataset, n);
    if |dataset| > 0 {
      var c := Correct(pred, dataset) as real;
      var t := |dataset| as real;
      RatioOne(c, t);
    }
  }
}
