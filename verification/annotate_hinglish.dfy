/** The Hinglish annotation script (data_augment/model/annotate_hinglish.py): the English
    side of every line is tagged by the parser, one prediction per word index taken at
    its first sub-token, and the tags are written through the inverted label maps. As
    written, the tag of a word is looked up with the word's index rather than with the
    id predicted for it; that lookup is modelled as it is, and the intended one beside
    it. The tokenizer and the parser are parameters. */
module AnnotateHinglish {
  import opened Common
  import opened Strings
  import opened LabelMaps
  import opened FirstSubtoken

  /** The English sentence of a line: its first tab-separated field, stripped. */
  function EnglishSentence(line: string): string {
    Strip(SplitOn(Strip(line), '\t')[0])
  }

  /** Only the first field counts: whatever follows the first tab is ignored. */
  lemma FirstFieldOnly(line: string, a: string, b: string)
    requires '\t' !in a && Strip(line) == a + "\t" + b
    ensures EnglishSentence(line) == Strip(a)
  {
    SplitOnCons(a, b, '\t');
  }

  /** The tag written for dictionary key k, as written: the label whose id is k. */
  function KeyTag(k: nat, id2: map<int, string>): (tag: string)
    ensures tag in id2.Values || tag == "UNK"
  {
    if k in id2 then id2[k] else "UNK"
  }

  /** [id2[p] if p in id2 else "UNK" for p in pred] over the keys in insertion order. */
  function KeyTags(keys: seq<nat>, id2: map<int, string>): (tags: seq<string>)
    ensures |tags| == |keys|
    ensures forall j :: 0 <= j < |tags| ==> tags[j] in id2.Values || tags[j] == "UNK"
  {
    seq(|keys|, j requires 0 <= j < |keys| => KeyTag(keys[j], id2))
  }

  /** The line written for one input line. */
  datatype HLine = HLine(sentence: string, pos: seq<string>, dep: seq<string>)

  /** The output for one line, None when its English sentence is blank. */
  function AnnotateLine(line: string, tagger: Tagger, id2pos: map<int, string>, id2dep: map<int, string>)
    : (r: Option<HLine>)
    ensures r.None? <==> AllSpace(SplitOn(Strip(line), '\t')[0])
    ensures r.Some? ==> r.value.sentence == EnglishSentence(line) && r.value.sentence != []
    ensures r.Some? ==> |r.value.pos| == |r.value.dep|
    ensures r.Some? ==> forall j :: 0 <= j < |r.value.pos| ==> r.value.pos[j] in id2pos.Values || r.value.pos[j] == "UNK"
    ensures r.Some? ==> forall j :: 0 <= j < |r.value.dep| ==> r.value.dep[j] in id2dep.Values || r.value.dep[j] == "UNK"
  {
    var english := EnglishSentence(line);
    if english == [] then None
    else
      var t := tagger(SplitWs(english));
      var keys := Order(t.wordIds, |t.wordIds|);
      Some(HLine(english, KeyTags(keys, id2pos), KeyTags(keys, id2dep)))
  }

  /** The lines written for the input lines. */
  function AnnotatedLines(lines: seq<string>, tagger: Tagger, id2pos: map<int, string>, id2dep: map<int, string>)
    : (r: seq<HLine>)
    ensures |r| <= |lines|
    ensures forall j :: 0 <= j < |r| ==> r[j].sentence != []
  {
    if lines == [] then []
    else
      var out := AnnotatedLines(lines[..|lines| - 1], tagger, id2pos, id2dep);
      match AnnotateLine(lines[|lines| - 1], tagger, id2pos, id2dep)
      case None => out
      case Some(h) => out + [h]
  }

  /** The body of the loop of annotate_file for one line. The guard on an empty split
      result never fires, since splitting always gives at least one field. */
  method AnnotateOne(line: string, tagger: Tagger, id2posLabel: map<int, string>, id2depLabel: map<int, string>)
    returns (r: Option<HLine>)
    ensures r == AnnotateLine(line, tagger, id2posLabel, id2depLabel)
  {
    var parts := SplitOn(Strip(line), '\t');
    var englishSentence := Strip(parts[0]);
    if englishSentence == [] {
      return None;
    }
    var words := SplitWs(englishSentence);
    var t := tagger(words);
    var predPos, predDep, keys := Aggregate(t);
    var posTags := KeyTags(keys, id2posLabel);
    var depTags := KeyTags(keys, id2depLabel);
    r := Some(HLine(englishSentence, posTags, depTags));
  }

  lemma AnnotatedLinesSnoc(lines: seq<string>, i: nat, tagger: Tagger, id2pos: map<int, string>, id2dep: map<int, string>)
    requires i < |lines|
    ensures var h, out := AnnotateLine(lines[i], tagger, id2pos, id2dep), AnnotatedLines(lines[..i], tagger, id2pos, id2dep);
      AnnotatedLines(lines[..i + 1], tagger, id2pos, id2dep) == if h.Some? then out + [h.value] else out
  {
    assert lines[..i + 1][..i] == lines[..i];
  }

  /** annotate_file: the label maps are inverted, then every line is tagged. */
  method AnnotateFile(lines: seq<string>, tagger: Tagger, posLabel2id: map<string, int>, depLabel2id: map<string, int>)
    returns (out: seq<HLine>)
    ensures out == AnnotatedLines(lines, tagger, Invert(posLabel2id), Invert(depLabel2id))
  {
    var id2posLabel := Invert(posLabel2id);
    var id2depLabel := Invert(depLabel2id);
    out := [];
    for i := 0 to |lines|
      invariant out == AnnotatedLines(lines[..i], tagger, id2posLabel, id2depLabel)
    {
      AnnotatedLinesSnoc(lines, i, tagger, id2posLabel, id2depLabel);
      var h := AnnotateOne(lines[i], tagger, id2posLabel, id2depLabel);
      if h.Some? {
        out := out + [h.value];
      }
    }
    assert lines[..|lines|] == lines;
  }

  // ---------------------------------------------------------------------------
  // Properties

  /** A line gets one POS and one dependency tag per distinct word index the tokenizer
      reports, in the order of the words' first sub-tokens. */
  lemma TagCount(line: string, tagger: Tagger, id2pos: map<int, string>, id2dep: map<int, string>)
    requires AnnotateLine(line, tagger, id2pos, id2dep).Some?
    ensures var h, t := AnnotateLine(line, tagger, id2pos, id2dep).value, tagger(SplitWs(EnglishSentence(line)));
      |h.pos| == |h.dep| == |WordsSeen(t.wordIds)|
  {
    var t := tagger(SplitWs(EnglishSentence(line)));
    OrderCount(t.wordIds);
  }

  /** The word ids of a fast tokenizer never go back to an earlier word. */
  predicate Monotone(w: seq<Option<nat>>) {
    forall i, j :: 0 <= i < j < |w| && w[i].Some? && w[j].Some? ==> w[i].value <= w[j].value
  }

  lemma {:induction false} IncreasingGap(s: seq<nat>, i: nat, j: nat)
    requires forall a, b :: 0 <= a < b < |s| ==> s[a] < s[b]
    requires i <= j < |s|
    ensures s[j] - s[i] >= j - i
    decreases j - i
  {
    if i < j {
      IncreasingGap(s, i + 1, j);
    }
  }

  /** A strictly increasing list of n numbers below n is 0, 1, ..., n - 1. */
  lemma IncreasingRange(s: seq<nat>, n: nat)
    requires |s| == n
    requires forall a, b :: 0 <= a < b < |s| ==> s[a] < s[b]
    requires forall a :: 0 <= a < |s| ==> s[a] < n
    ensures forall i :: 0 <= i < n ==> s[i] == i
  {
    forall i | 0 <= i < n ensures s[i] == i {
      IncreasingGap(s, 0, i);
      IncreasingGap(s, i, n - 1);
    }
  }

  /** With monotone word ids that reach the words 0 to n - 1, the dictionary keys are
      exactly 0, 1, ..., n - 1 in that order. */
  lemma KeysAreIndices(w: seq<Option<nat>>, n: nat)
    requires Monotone(w) && WordsSeen(w) == Ids(n)
    ensures var keys := Order(w, |w|);
      |keys| == n && forall i :: 0 <= i < n ==> keys[i] == i
  {
    var keys := Order(w, |w|);
    OrderSpec(w, |w|);
    OrderCount(w);
    IdsCard(n);
    forall a, b | 0 <= a < b < |keys| ensures keys[a] < keys[b] {
      var fa, fb := FirstAt(w, keys[a], |w|).value, FirstAt(w, keys[b], |w|).value;
      assert fa < fb;
      assert keys[a] != keys[b];
    }
    forall a | 0 <= a < |keys| ensures keys[a] < n {
      var f := FirstAt(w, keys[a], |w|).value;
      assert keys[a] in WordsSeen(w);
    }
    IncreasingRange(keys, n);
  }

  /** Hence, as written, word i is tagged with the label whose id is i (or UNK), whatever
      was predicted for it. */
  lemma AsWrittenTagsByWordIndex(line: string, tagger: Tagger, id2pos: map<int, string>, id2dep: map<int, string>)
    requires AnnotateLine(line, tagger, id2pos, id2dep).Some?
    requires var words := SplitWs(EnglishSentence(line));
      Monotone(tagger(words).wordIds) && WordsSeen(tagger(words).wordIds) == Ids(|words|)
    ensures var h, words := AnnotateLine(line, tagger, id2pos, id2dep).value, SplitWs(EnglishSentence(line));
      && |h.pos| == |words| && |h.dep| == |words|
      && forall i :: 0 <= i < |words| ==> h.pos[i] == KeyTag(i, id2pos) && h.dep[i] == KeyTag(i, id2dep)
  {
    var english := EnglishSentence(line);
    var words := SplitWs(english);
    var t := tagger(words);
    var keys := Order(t.wordIds, |t.wordIds|);
    KeysAreIndices(t.wordIds, |words|);
    var h := AnnotateLine(line, tagger, id2pos, id2dep).value;
    assert h == HLine(english, KeyTags(keys, id2pos), KeyTags(keys, id2dep));
    KeyTagsOfIndices(keys, id2pos);
    KeyTagsOfIndices(keys, id2dep);
  }

  /** Keys 0, 1, ..., n - 1 give tag i the label whose id is i. */
  lemma KeyTagsOfIndices(keys: seq<nat>, id2: map<int, string>)
    requires forall i :: 0 <= i < |keys| ==> keys[i] == i
    ensures forall i :: 0 <= i < |keys| ==> KeyTags(keys, id2)[i] == KeyTag(i, id2)
  {
  }

  // ---------------------------------------------------------------------------
  // The intended lookup

  /** [id2[pred[k]] ... for k in keys]: the tag of the id predicted for each word. */
  function PredTags(keys: seq<nat>, pred: map<nat, int>, id2: map<int, string>): (tags: seq<string>)
    requires forall j :: 0 <= j < |keys| ==> keys[j] in pred
    ensures |tags| == |keys|
  {
    seq(|keys|, j requires 0 <= j < |keys| => if pred[keys[j]] in id2 then id2[pred[keys[j]]] else "UNK")
  }

  /** Through the inverse of a label map built from a label set, every in-range
      prediction at a word's first sub-token is written as the label with that id. */
  lemma PredTagsAreLabels(t: Tagged, labels: set<string>)
    ensures var w, keys := t.wordIds, Order(t.wordIds, |t.wordIds|);
      && (forall j :: 0 <= j < |keys| ==> keys[j] in Firsts(w, t.posPreds, |w|))
      && var tags := PredTags(keys, Firsts(w, t.posPreds, |w|), Invert(LabelMap(labels)));
         forall j :: 0 <= j < |keys| ==>
           && FirstAt(w, keys[j], |w|).Some?
           && var p := t.posPreds[FirstAt(w, keys[j], |w|).value];
              0 <= p < |labels| ==> tags[j] in labels && LabelMap(labels)[tags[j]] == p
  {
    var w := t.wordIds;
    var keys := Order(w, |w|);
    var m := Firsts(w, t.posPreds, |w|);
    var id2 := Invert(LabelMap(labels));
    OrderSpec(w, |w|);
    FirstsSpec(w, t.posPreds, |w|);
    LabelMapInverse(labels);
    forall j | 0 <= j < |keys| ensures keys[j] in m && FirstAt(w, keys[j], |w|).Some? {
      assert keys[j] in keys;
    }
    var tags := PredTags(keys, m, id2);
    forall j | 0 <= j < |keys|
      ensures var p := t.posPreds[FirstAt(w, keys[j], |w|).value];
        0 <= p < |labels| ==> tags[j] in labels && LabelMap(labels)[tags[j]] == p
    {
      var p := t.posPreds[FirstAt(w, keys[j], |w|).value];
      assert m[keys[j]] == p;
      if 0 <= p < |labels| {
        assert p in Ids(|labels|);
        assert tags[j] == id2[p];
      }
    }
  }

  /** The lookup as written differs from the intended one: the only word predicted with
      id 1 ("VERB") is written with the label of id 0, its own index. */
  lemma AsWrittenIgnoresPrediction()
    ensures var w, preds, id2 := [None, Some(0), None], [7, 1, 7], map[0 := "NOUN", 1 := "VERB"];
      && Order(w, 3) == [0]
      && Firsts(w, preds, 3) == map[0 := 1]
      && KeyTags(Order(w, 3), id2) == ["NOUN"]
      && PredTags(Order(w, 3), Firsts(w, preds, 3), id2) == ["VERB"]
  {
    var w: seq<Option<nat>>, preds := [None, Some(0), None], [7, 1, 7];
    assert Order(w, 1) == [];
    assert Order(w, 2) == [0];
    assert Firsts(w, preds, 1) == map[];
    assert Firsts(w, preds, 2) == map[0 := 1];
  }
}
