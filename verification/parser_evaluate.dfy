/** The parser's annotation and evaluation script (data_augment/model/evaluate.py):
    annotate_xnli tags the English, Chinese and Spanish sentences of an XNLI file with
    one POS and one dependency id per word, and evaluate_finetuned reads the predictions
    of a test sentence at the positions that carry a gold label. The tokenizer and the
    parser are parameters. */
module ParserEvaluate {
  import opened Common
  import opened Strings
  import opened LabelMaps
  import opened FirstSubtoken
  import Conllu

  // ---------------------------------------------------------------------------
  // annotate_xnli

  /** One row of the tab-separated file, by column name. */
  type Row = map<string, string>

  /** row.get(key, "") */
  function Get(row: Row, key: string): string {
    if key in row then row[key] else ""
  }

  function Lang(row: Row): string {
    Lower(Get(row, "language"))
  }

  /** The rows that are tagged: language en, zh or es, and a sentence that is not blank. */
  predicate Processed(row: Row) {
    Lang(row) in {"en", "zh", "es"} && Strip(Get(row, "sentence")) != []
  }

  /** list(sentence): every character is a word of its own. */
  function Chars(s: string): (ws: seq<string>)
    ensures |ws| == |s|
  {
    seq(|s|, i requires 0 <= i < |s| => [s[i]])
  }

  /** The words of a sentence: whitespace-separated for English and Spanish, characters
      for Chinese. */
  function Words(lang: string, sentence: string): seq<string> {
    if lang in {"en", "es"} then SplitWs(sentence)
    else if lang == "zh" then Chars(sentence)
    else SplitWs(sentence)
  }

  function Concat(ws: seq<string>): string {
    if ws == [] then [] else Concat(ws[..|ws| - 1]) + ws[|ws| - 1]
  }

  /** The Chinese words are the characters of the sentence, whitespace included, and
      together they are the whole sentence again. */
  lemma {:induction false} CharsRebuild(s: string)
    ensures Concat(Chars(s)) == s
    decreases |s|
  {
    if s != [] {
      var init := s[..|s| - 1];
      assert Chars(s)[..|s| - 1] == Chars(init);
      CharsRebuild(init);
      assert s == init + [s[|s| - 1]];
    }
  }

  /** [pred[i] for i in range(n)]: KeyError at the first word without a prediction. */
  function WordTags(pred: map<nat, int>, n: nat): (r: Result<seq<int>>)
    ensures r.Ok? <==> forall i :: 0 <= i < n ==> i in pred
    ensures r.Err? ==> r.error == KeyError
    ensures r.Ok? ==> |r.value| == n && forall i :: 0 <= i < n ==> r.value[i] == pred[i]
  {
    if n == 0 then Ok([])
    else
      match WordTags(pred, n - 1)
      case Err(e) => Err(e)
      case Ok(tags) => if n - 1 in pred then Ok(tags + [pred[n - 1]]) else Err(KeyError)
  }

  /** The line written for a row: the sentence and its POS and dependency ids. */
  datatype Annotation = Annotation(sentence: string, pos: seq<int>, dep: seq<int>)

  /** The outcome of one row: Ok(None) when it is skipped. */
  function AnnotateRow(row: Row, tagger: Tagger): Result<Option<Annotation>> {
    if !Processed(row) then Ok(None)
    else
      var sentence := Get(row, "sentence");
      var words := Words(Lang(row), sentence);
      var t := tagger(words);
      match WordTags(Firsts(t.wordIds, t.posPreds, |t.wordIds|), |words|)
      case Err(e) => Err(e)
      case Ok(pos) =>
        match WordTags(Firsts(t.wordIds, t.depPreds, |t.wordIds|), |words|)
        case Err(e) => Err(e)
        case Ok(dep) => Ok(Some(Annotation(sentence, pos, dep)))
  }

  /** The loop of annotate_xnli for any outcome of one row: the lines written, and the
      exception that stopped the loop if any. */
  function Collect(rows: seq<Row>, annotate: Row -> Result<Option<Annotation>>): (seq<Annotation>, Option<Error>) {
    if rows == [] then ([], None)
    else
      var (out, err) := Collect(rows[..|rows| - 1], annotate);
      if err.Some? then (out, err)
      else
        match annotate(rows[|rows| - 1])
        case Err(e) => (out, Some(e))
        case Ok(None) => (out, None)
        case Ok(Some(a)) => (out + [a], None)
  }

  function RowAnnotator(tagger: Tagger): Row -> Result<Option<Annotation>> {
    row => AnnotateRow(row, tagger)
  }

  /** The lines written for the rows, and the exception that stopped the loop if any. */
  function Annotations(rows: seq<Row>, tagger: Tagger): (seq<Annotation>, Option<Error>) {
    Collect(rows, RowAnnotator(tagger))
  }

  /** Once a row has raised, the rows after it change nothing. */
  lemma {:induction false} CollectStop(rows: seq<Row>, annotate: Row -> Result<Option<Annotation>>, i: nat)
    requires i <= |rows| && Collect(rows[..i], annotate).1.Some?
    ensures Collect(rows, annotate) == Collect(rows[..i], annotate)
    decreases |rows| - i
  {
    if i < |rows| {
      assert rows[..i + 1][..i] == rows[..i];
      CollectStop(rows, annotate, i + 1);
    } else {
      assert rows[..i] == rows;
    }
  }

  /** One more row: unless the loop has already stopped, the row's outcome is added. */
  lemma CollectSnoc(rows: seq<Row>, annotate: Row -> Result<Option<Annotation>>, r: nat)
    requires r < |rows|
    ensures var (out, err) := Collect(rows[..r], annotate);
      Collect(rows[..r + 1], annotate) ==
        if err.Some? then (out, err)
        else match annotate(rows[r])
          case Err(e) => (out, Some(e))
          case Ok(None) => (out, None)
          case Ok(Some(a)) => (out + [a], None)
  {
    var p := rows[..r + 1];
    assert p[..|p| - 1] == rows[..r];
    assert p[|p| - 1] == rows[r];
  }

  /** Every line written is the outcome of some row, so there are no more lines than
      rows. */
  lemma {:induction false} CollectWritten(rows: seq<Row>, annotate: Row -> Result<Option<Annotation>>)
    ensures var out := Collect(rows, annotate).0;
      && |out| <= |rows|
      && forall j :: 0 <= j < |out| ==> exists i :: 0 <= i < |rows| && annotate(rows[i]) == Ok(Some(out[j]))
  {
    if rows != [] {
      var n := |rows| - 1;
      var init := rows[..n];
      CollectWritten(init, annotate);
      CollectSnoc(rows, annotate, n);
      assert rows[..n + 1] == rows;
      assert forall i :: 0 <= i < |init| ==> init[i] == rows[i];
      var out0 := Collect(init, annotate).0;
      var out := Collect(rows, annotate).0;
      forall j | 0 <= j < |out|
        ensures exists i :: 0 <= i < |rows| && annotate(rows[i]) == Ok(Some(out[j]))
      {
        if j < |out0| {
          assert out[j] == out0[j];
        } else {
          assert annotate(rows[n]) == Ok(Some(out[j]));
        }
      }
    }
  }

  /** The loop stops with the exception of some row, and it runs to the end exactly when
      no row raises. */
  lemma {:induction false} CollectError(rows: seq<Row>, annotate: Row -> Result<Option<Annotation>>)
    ensures var err := Collect(rows, annotate).1;
      && (err.Some? ==> exists i :: 0 <= i < |rows| && annotate(rows[i]) == Err(err.value))
      && (err.None? <==> forall i :: 0 <= i < |rows| ==> annotate(rows[i]).Ok?)
  {
    if rows != [] {
      var n := |rows| - 1;
      var init := rows[..n];
      CollectError(init, annotate);
      CollectSnoc(rows, annotate, n);
      assert rows[..n + 1] == rows;
      assert forall i :: 0 <= i < |init| ==> init[i] == rows[i];
      var err0 := Collect(init, annotate).1;
      if err0.Some? {
        var i :| 0 <= i < |init| && annotate(init[i]) == Err(err0.value);
        assert annotate(rows[i]) == Err(err0.value);
      }
    }
  }

  /** The body of the loop of annotate_xnli for one row. */
  method AnnotateOneRow(row: Row, tagger: Tagger) returns (res: Result<Option<Annotation>>)
    ensures res == AnnotateRow(row, tagger)
  {
    var lang := Lower(Get(row, "language"));
    if lang !in {"en", "zh", "es"} {
      return Ok(None);
    }
    var sentence := Get(row, "sentence");
    if Strip(sentence) == [] {
      return Ok(None);
    }
    var words;
    if lang in {"en", "es"} {
      words := SplitWs(sentence);
    } else if lang == "zh" {
      words := Chars(sentence);
    } else {
      words := SplitWs(sentence);
    }
    var t := tagger(words);
    var predPos, predDep, _ := Aggregate(t);
    var posTags := WordTags(predPos, |words|);
    if posTags.Err? {
      return Err(posTags.error);
    }
    var depTags := WordTags(predDep, |words|);
    if depTags.Err? {
      return Err(depTags.error);
    }
    return Ok(Some(Annotation(sentence, posTags.value, depTags.value)));
  }

  /** annotate_xnli over the rows of the file. */
  method AnnotateXnli(rows: seq<Row>, tagger: Tagger) returns (out: seq<Annotation>, err: Option<Error>)
    ensures (out, err) == Annotations(rows, tagger)
  {
    ghost var f := RowAnnotator(tagger);
    out, err := [], None;
    for r := 0 to |rows|
      invariant (out, None) == Collect(rows[..r], f)
    {
      CollectSnoc(rows, f, r);
      var res := AnnotateOneRow(rows[r], tagger);
      assert f(rows[r]) == res;
      if res.Err? {
        err := Some(res.error);
        CollectStop(rows, f, r + 1);
        return;
      }
      if res.value.Some? {
        out := out + [res.value.value];
      }
    }
    assert rows[..|rows|] == rows;
  }

  /** A tagged row gets exactly one POS and one dependency id per word, in word order, each
      the prediction at the word's first sub-token; it raises KeyError exactly when some
      word has no position (it was cut off by truncation); a skipped row writes nothing. */
  lemma AnnotateRowSpec(row: Row, tagger: Tagger)
    ensures !Processed(row) ==> AnnotateRow(row, tagger) == Ok(None)
    ensures Processed(row) ==>
      var words := Words(Lang(row), Get(row, "sentence"));
      var t := tagger(words);
      var r := AnnotateRow(row, tagger);
      && (r.Err? <==> exists i :: 0 <= i < |words| && FirstAt(t.wordIds, i, |t.wordIds|).None?)
      && (r.Err? ==> r.error == KeyError)
      && (r.Ok? ==> (r.value.Some?
            && r.value.value.sentence == Get(row, "sentence")
            && |r.value.value.pos| == |words| && |r.value.value.dep| == |words|
            && forall i :: 0 <= i < |words| ==>
                 && FirstAt(t.wordIds, i, |t.wordIds|).Some?
                 && r.value.value.pos[i] == t.posPreds[FirstAt(t.wordIds, i, |t.wordIds|).value]
                 && r.value.value.dep[i] == t.depPreds[FirstAt(t.wordIds, i, |t.wordIds|).value]))
  {
    if Processed(row) {
      var words := Words(Lang(row), Get(row, "sentence"));
      var t := tagger(words);
      var n := |t.wordIds|;
      var pp, pd := Firsts(t.wordIds, t.posPreds, n), Firsts(t.wordIds, t.depPreds, n);
      FirstsSpec(t.wordIds, t.posPreds, n);
      FirstsSpec(t.wordIds, t.depPreds, n);
      var pos, dep := WordTags(pp, |words|), WordTags(pd, |words|);
      assert pos.Ok? <==> forall i :: 0 <= i < |words| ==> i in pp;
      forall i | 0 <= i < |words| ensures i in pp <==> FirstAt(t.wordIds, i, n).Some? {}
      assert (forall i :: 0 <= i < |words| ==> i in pp) ==> (forall i :: 0 <= i < |words| ==> FirstAt(t.wordIds, i, n).Some?);
      assert (forall i :: 0 <= i < |words| ==> FirstAt(t.wordIds, i, n).Some?) ==> (forall i :: 0 <= i < |words| ==> i in pp);
      assert dep.Ok? <==> pos.Ok?;
      if pos.Ok? {
        assert AnnotateRow(row, tagger) == Ok(Some(Annotation(Get(row, "sentence"), pos.value, dep.value)));
        forall i | 0 <= i < |words|
          ensures FirstAt(t.wordIds, i, n).Some?
          ensures pos.value[i] == t.posPreds[FirstAt(t.wordIds, i, n).value]
          ensures dep.value[i] == t.depPreds[FirstAt(t.wordIds, i, n).value]
        {
          assert i in pp && i in pd;
        }
      } else {
        assert AnnotateRow(row, tagger) == Err(KeyError);
        var i :| 0 <= i < |words| && i !in pp;
        assert FirstAt(t.wordIds, i, n).None?;
      }
    }
  }

  /** Some tagged row of the file is annotated as a. */
  predicate WrittenFrom(rows: seq<Row>, tagger: Tagger, a: Annotation) {
    exists i :: 0 <= i < |rows| && Processed(rows[i]) && AnnotateRow(rows[i], tagger) == Ok(Some(a))
  }

  /** Every line written is the annotation of a tagged row, so there are no more lines
      than rows. */
  lemma AnnotationsWritten(rows: seq<Row>, tagger: Tagger)
    ensures var out := Annotations(rows, tagger).0;
      && |out| <= |rows|
      && forall j :: 0 <= j < |out| ==> WrittenFrom(rows, tagger, out[j])
  {
    var f := RowAnnotator(tagger);
    CollectWritten(rows, f);
    var out := Annotations(rows, tagger).0;
    assert out == Collect(rows, f).0;
    forall j | 0 <= j < |out|
      ensures WrittenFrom(rows, tagger, out[j])
    {
      var i :| 0 <= i < |rows| && f(rows[i]) == Ok(Some(out[j]));
      assert AnnotateRow(rows[i], tagger) == Ok(Some(out[j]));
      SkippedRow(rows[i], tagger);
    }
  }

  /** The loop stops only on a KeyError, and it runs to the end exactly when no tagged row
      raises. */
  lemma AnnotationsError(rows: seq<Row>, tagger: Tagger)
    ensures var err := Annotations(rows, tagger).1;
      && (err.Some? ==> err == Some(KeyError))
      && (err.None? <==> forall i :: 0 <= i < |rows| ==> AnnotateRow(rows[i], tagger).Ok?)
  {
    var f := RowAnnotator(tagger);
    CollectError(rows, f);
    var err := Annotations(rows, tagger).1;
    if err.Some? {
      var i :| 0 <= i < |rows| && f(rows[i]) == Err(err.value);
      RowErrorIsKeyError(rows[i], tagger);
    }
    assert forall i :: 0 <= i < |rows| ==> f(rows[i]) == AnnotateRow(rows[i], tagger);
  }

  /** A row that is not tagged writes nothing. */
  lemma SkippedRow(row: Row, tagger: Tagger)
    ensures !Processed(row) ==> AnnotateRow(row, tagger) == Ok(None)
  {
  }

  /** The only error a row can raise is KeyError. */
  lemma RowErrorIsKeyError(row: Row, tagger: Tagger)
    ensures AnnotateRow(row, tagger).Err? ==> AnnotateRow(row, tagger).error == KeyError
  {
    AnnotateRowSpec(row, tagger);
  }

  // ---------------------------------------------------------------------------
  // evaluate_finetuned

  /** [i for i, lbl in enumerate(labels[:n]) if lbl != -100] */
  function ValidIndices(labels: seq<int>, n: nat): (idx: seq<nat>)
    requires n <= |labels|
    ensures forall j :: 0 <= j < |idx| ==> idx[j] < n && labels[idx[j]] != Conllu.IGNORE_INDEX
    ensures forall j, k :: 0 <= j < k < |idx| ==> idx[j] < idx[k]
    ensures forall i :: 0 <= i < n && labels[i] != Conllu.IGNORE_INDEX ==> i in idx
  {
    if n == 0 then []
    else
      var idx := ValidIndices(labels, n - 1);
      if labels[n - 1] != Conllu.IGNORE_INDEX then idx + [n - 1] else idx
  }

  /** [id2[preds[i]] for i in idx]: IndexError for a position past the predictions,
      KeyError for a predicted id without a label, the first one raising. */
  function LookupTags(idx: seq<nat>, preds: seq<int>, id2: map<int, string>): (r: Result<seq<string>>)
    ensures r.Ok? <==> forall j :: 0 <= j < |idx| ==> idx[j] < |preds| && preds[idx[j]] in id2
    ensures r.Err? ==> r.error == IndexError || r.error == KeyError
    ensures r.Ok? ==> |r.value| == |idx| && forall j :: 0 <= j < |idx| ==> r.value[j] == id2[preds[idx[j]]]
  {
    if idx == [] then Ok([])
    else
      match LookupTags(idx[..|idx| - 1], preds, id2)
      case Err(e) => Err(e)
      case Ok(tags) =>
        var i := idx[|idx| - 1];
        if i >= |preds| then Err(IndexError)
        else if preds[i] !in id2 then Err(KeyError)
        else Ok(tags + [id2[preds[i]]])
  }

  /** The POS and dependency tags of one test sentence: for each position whose POS label
      is not ignored, in order, the label the inverted maps give its two predictions; an
      IndexError or KeyError when a prediction is missing or has no label. */
  function FinetunedTags(ex: Conllu.Example, posPreds: seq<int>, depPreds: seq<int>,
                         posLabel2id: map<string, int>, depLabel2id: map<string, int>)
    : (r: Result<(seq<string>, seq<string>)>)
    ensures var valid, id2pos, id2dep := ValidIndices(ex.labels.pos, |ex.labels.pos|), Invert(posLabel2id), Invert(depLabel2id);
      && (r.Ok? <==>
            && (forall j :: 0 <= j < |valid| ==> valid[j] < |posPreds| && posPreds[valid[j]] in id2pos)
            && (forall j :: 0 <= j < |valid| ==> valid[j] < |depPreds| && depPreds[valid[j]] in id2dep))
      && (r.Err? ==> r.error == IndexError || r.error == KeyError)
      && (r.Ok? ==>
            && |r.value.0| == |valid| && |r.value.1| == |valid|
            && (forall j :: 0 <= j < |valid| ==> r.value.0[j] == id2pos[posPreds[valid[j]]])
            && (forall j :: 0 <= j < |valid| ==> r.value.1[j] == id2dep[depPreds[valid[j]]]))
  {
    var valid := ValidIndices(ex.labels.pos, |ex.labels.pos|);
    match LookupTags(valid, posPreds, Invert(posLabel2id))
    case Err(e) => Err(e)
    case Ok(pos) =>
      match LookupTags(valid, depPreds, Invert(depLabel2id))
      case Err(e) => Err(e)
      case Ok(dep) => Ok((pos, dep))
  }

  /** The positions read are exactly the first sub-tokens of the words of the sentence, in
      increasing order, when the labels come from the alignment and no POS id is -100. */
  lemma ValidIndicesAreWordStarts(wordIds: seq<Option<nat>>, tags: Conllu.SentenceTags, vocab: Conllu.Vocab)
    requires Conllu.Align(wordIds, tags, vocab).Ok?
    requires Conllu.IGNORE_INDEX !in vocab.pos.Values
    ensures var pos := Conllu.Align(wordIds, tags, vocab).value.pos;
      |pos| == |wordIds| &&
      forall i :: i in ValidIndices(pos, |pos|) <==> 0 <= i < |wordIds| && Conllu.StartsWord(wordIds, i)
  {
    Conllu.LabelledIffStartsWord(wordIds, tags, vocab);
  }

  /** At every selected position there is a prediction, and it is an id below n. */
  predicate IdsAt(idx: seq<nat>, preds: seq<int>, n: nat) {
    forall j :: 0 <= j < |idx| ==> idx[j] < |preds| && 0 <= preds[idx[j]] < n
  }

  /** With label maps built from label sets, the lookups cannot fail on in-range
      predictions, and every tag read is the label whose id was predicted. */
  lemma LookupTagsInverse(idx: seq<nat>, preds: seq<int>, labels: set<string>)
    requires IdsAt(idx, preds, |labels|)
    ensures var r := LookupTags(idx, preds, Invert(LabelMap(labels)));
      r.Ok? && forall j :: 0 <= j < |idx| ==> r.value[j] in labels && LabelMap(labels)[r.value[j]] == preds[idx[j]]
  {
    LabelMapInverse(labels);
  }
  /** With label maps built from label sets and predictions that are ids of those maps at
      every kept position, the tags are found, and each is the label whose id was
      predicted. */
  lemma FinetunedTagsInverse(ex: Conllu.Example, posPreds: seq<int>, depPreds: seq<int>,
                             posLabels: set<string>, depLabels: set<string>)
    requires IdsAt(ValidIndices(ex.labels.pos, |ex.labels.pos|), posPreds, |posLabels|)
    requires IdsAt(ValidIndices(ex.labels.pos, |ex.labels.pos|), depPreds, |depLabels|)
    ensures var valid, r := ValidIndices(ex.labels.pos, |ex.labels.pos|),
                            FinetunedTags(ex, posPreds, depPreds, LabelMap(posLabels), LabelMap(depLabels));
      && r.Ok?
      && (forall j :: 0 <= j < |valid| ==> r.value.0[j] in posLabels && LabelMap(posLabels)[r.value.0[j]] == posPreds[valid[j]])
      && (forall j :: 0 <= j < |valid| ==> r.value.1[j] in depLabels && LabelMap(depLabels)[r.value.1[j]] == depPreds[valid[j]])
  {
    var valid := ValidIndices(ex.labels.pos, |ex.labels.pos|);
    LookupTagsInverse(valid, posPreds, posLabels);
    LookupTagsInverse(valid, depPreds, depLabels);
  }

}
